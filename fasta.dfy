/** `get_chromosome_lengths`: the name and sequence length of each record of a genome
    FASTA file, read as a sequence of lines, each with its end-of-line character. */
module Fasta {
  import opened Results
  import opened Text

  datatype ChromLength = ChromLength(name: string, length: nat)

  /** `line.startswith('>')`, the key `groupby` groups the lines by. */
  predicate IsHeader(line: string)
  {
    |line| > 0 && line[0] == '>'
  }

  /** `line.strip('>').rstrip('\n')`. */
  function HeaderName(line: string): string
  {
    RStrip(Strip(line, {'>'}), {'\n'})
  }

  /** `''.join(lines)`. */
  function Concat(lines: seq<string>): string
  {
    if lines == [] then "" else Concat(lines[..|lines| - 1]) + lines[|lines| - 1]
  }

  /** `s.replace('\n', '')`. */
  function RemoveNewlines(s: string): (r: string)
    ensures '\n' !in r
  {
    if s == [] then ""
    else RemoveNewlines(s[..|s| - 1]) + (if s[|s| - 1] == '\n' then "" else [s[|s| - 1]])
  }

  /** The end of the run of lines from `i` on whose `IsHeader` is `header`: the first
      group `groupby` makes from `lines[i]` when that line has the key `header`. */
  function RunEnd(lines: seq<string>, i: nat, header: bool): (j: nat)
    requires i <= |lines|
    ensures i <= j <= |lines|
    decreases |lines| - i
  {
    if i < |lines| && IsHeader(lines[i]) == header then RunEnd(lines, i + 1, header) else i
  }

  lemma {:induction false} RunEndIs(lines: seq<string>, i: nat, j: nat, header: bool)
    requires i <= j <= |lines|
    requires forall m :: i <= m < j ==> IsHeader(lines[m]) == header
    requires j < |lines| ==> IsHeader(lines[j]) != header
    ensures RunEnd(lines, i, header) == j
    decreases j - i
  {
    if i < j {
      RunEndIs(lines, i + 1, j, header);
    }
  }

  /** A group of `groupby`: the first line of a run of headers, and the run of sequence
      lines after that run. */
  datatype Group = Group(header: string, sequence: seq<string>)

  /** The groups of `lines[i..]`: each run of header lines with the run of sequence lines
      that follows it. */
  function GroupsFrom(lines: seq<string>, i: nat): seq<Group>
    requires i <= |lines|
    decreases |lines| - i
  {
    if i == |lines| then []
    else
      var j := RunEnd(lines, i, true);
      var k := RunEnd(lines, j, false);
      assert j == i ==> k > i;
      [Group(lines[i], lines[j..k])] + GroupsFrom(lines, k)
  }

  /** The record a header line and the sequence lines after it make: the name after the
      '>' and the number of sequence characters that are not newlines. */
  function Record(g: Group): ChromLength
  {
    ChromLength(HeaderName(g.header), |RemoveNewlines(Concat(g.sequence))|)
  }

  /** One record per group that has sequence lines; a header run with no sequence run
      after it makes none. */
  function Records(gs: seq<Group>): seq<ChromLength>
  {
    if gs == [] then []
    else (if gs[0].sequence == [] then [] else [Record(gs[0])]) + Records(gs[1..])
  }

  lemma RecordsCons(g: Group, gs: seq<Group>)
    ensures Records([g] + gs) == (if g.sequence == [] then [] else [Record(g)]) + Records(gs)
  {
    assert ([g] + gs)[1..] == gs;
  }

  /** The records of the file; sequence lines before the first header make the source
      read a name it never set. */
  function ChromosomeLengths(lines: seq<string>): Result<seq<ChromLength>>
  {
    if lines != [] && !IsHeader(lines[0]) then Err(SequenceBeforeHeader)
    else Ok(Records(GroupsFrom(lines, 0)))
  }

  /** The first group from `lines[i]` on, when the headers run to `j` and the sequence
      lines to `k`. */
  lemma GroupsFromStep(lines: seq<string>, i: nat, j: nat, k: nat)
    requires i < |lines| && RunEnd(lines, i, true) == j && RunEnd(lines, j, false) == k
    ensures k > j ==>
      Records(GroupsFrom(lines, i)) == [Record(Group(lines[i], lines[j..k]))] + Records(GroupsFrom(lines, k))
    ensures k == j ==> Records(GroupsFrom(lines, i)) == Records(GroupsFrom(lines, k))
  {
    RecordsCons(Group(lines[i], lines[j..k]), GroupsFrom(lines, k));
    if k == j {
      assert [] + Records(GroupsFrom(lines, k)) == Records(GroupsFrom(lines, k));
    }
  }

  /** The end of the group `groupby` starts at `lines[i]`. */
  method FindRunEnd(lines: seq<string>, i: nat, header: bool) returns (j: nat)
    requires i <= |lines|
    ensures j == RunEnd(lines, i, header)
  {
    j := i;
    while j < |lines| && IsHeader(lines[j]) == header
      invariant i <= j <= |lines|
      invariant RunEnd(lines, j, header) == RunEnd(lines, i, header)
    {
      j := j + 1;
    }
  }

  /** `''.join(lines[j..k])`, one line at a time. */
  method JoinLines(lines: seq<string>, j: nat, k: nat) returns (joined: string)
    requires j <= k <= |lines|
    ensures joined == Concat(lines[j..k])
  {
    joined := "";
    var m := j;
    while m < k
      invariant j <= m <= k
      invariant joined == Concat(lines[j..m])
    {
      assert lines[j..m + 1][..m - j] == lines[j..m];
      joined := joined + lines[m];
      m := m + 1;
    }
  }

  /** The record of the group whose header is `lines[i]` and whose sequence lines are
      `lines[j..k]`. */
  method MakeRecord(lines: seq<string>, i: nat, j: nat, k: nat) returns (record: ChromLength)
    requires i < |lines| && j <= k <= |lines|
    ensures record == Record(Group(lines[i], lines[j..k]))
  {
    var chromosome := HeaderName(lines[i]);
    var joined := JoinLines(lines, j, k);
    record := ChromLength(chromosome, |RemoveNewlines(joined)|);
  }

  /** The `groupby` loop of the source: one pass over the lines, a run of headers and the
      run of sequence lines after it per iteration. */
  method GetChromosomeLengths(lines: seq<string>) returns (r: Result<seq<ChromLength>>)
    ensures r == ChromosomeLengths(lines)
  {
    if |lines| > 0 && !IsHeader(lines[0]) {
      return Err(SequenceBeforeHeader);
    }
    ghost var all := Records(GroupsFrom(lines, 0));
    var records: seq<ChromLength> := [];
    var i := 0;
    while i < |lines|
      invariant 0 <= i <= |lines|
      invariant all == records + Records(GroupsFrom(lines, i))
      decreases |lines| - i
    {
      var j := FindRunEnd(lines, i, true);
      var k := FindRunEnd(lines, j, false);
      GroupsFromStep(lines, i, j, k);
      if k > j {
        var record := MakeRecord(lines, i, j, k);
        records := records + [record];
      }
      i := k;
    }
    assert records + Records(GroupsFrom(lines, i)) == records;
    return Ok(records);
  }

  /** A FASTA record as a writer would lay it out: a header line, then wrapped lines. */
  datatype FastaRecord = FastaRecord(name: string, sequence: seq<string>)

  predicate WellFormed(rec: FastaRecord)
  {
    && |rec.sequence| > 0
    && (forall i :: 0 <= i < |rec.sequence| ==> !IsHeader(rec.sequence[i]))
    && (rec.name == [] || (rec.name[0] != '>' && rec.name[|rec.name| - 1] != '\n'))
  }

  ghost predicate AllWellFormed(recs: seq<FastaRecord>)
  {
    recs == [] || (WellFormed(recs[0]) && AllWellFormed(recs[1..]))
  }

  /** `lines[o..]` is the layout of `recs`: for each record a header line `>name`, then its
      sequence lines. */
  ghost predicate LaidOut(lines: seq<string>, o: nat, recs: seq<FastaRecord>)
    decreases |recs|
  {
    && o <= |lines|
    && if recs == [] then o == |lines|
       else
         var k := o + 1 + |recs[0].sequence|;
         && o < |lines| && lines[o] == ">" + recs[0].name + "\n"
         && k <= |lines| && lines[o + 1..k] == recs[0].sequence
         && LaidOut(lines, k, recs[1..])
  }

  /** Each record's name with the number of its non-newline sequence characters. */
  function Expected(recs: seq<FastaRecord>): seq<ChromLength>
  {
    if recs == [] then []
    else [ChromLength(recs[0].name, |RemoveNewlines(Concat(recs[0].sequence))|)] + Expected(recs[1..])
  }

  lemma HeaderNameOfHeader(name: string)
    requires name == [] || (name[0] != '>' && name[|name| - 1] != '\n')
    ensures HeaderName(">" + name + "\n") == name
  {
    var body := name + ['\n'];
    assert ">" + name + "\n" == ['>'] + body;
    LStripCons('>', body, {'>'});
    StripUnchanged(body, {'>'});
    RStripSnoc(name, '\n', {'\n'});
  }

  /** A header line at `o`, sequence lines up to `k`, then a header or the end of the file
      make one group. */
  lemma GroupAt(lines: seq<string>, o: nat, k: nat)
    requires o + 1 < k <= |lines| && IsHeader(lines[o])
    requires forall m :: o < m < k ==> !IsHeader(lines[m])
    requires k < |lines| ==> IsHeader(lines[k])
    ensures Records(GroupsFrom(lines, o)) ==
      [Record(Group(lines[o], lines[o + 1..k]))] + Records(GroupsFrom(lines, k))
  {
    RunEndIs(lines, o, o + 1, true);
    RunEndIs(lines, o + 1, k, false);
    GroupsFromStep(lines, o, o + 1, k);
  }

  /** The first record of a layout is the first group, and the rest of the layout is the
      layout of the other records. */
  lemma LaidOutFirst(lines: seq<string>, o: nat, recs: seq<FastaRecord>)
    requires LaidOut(lines, o, recs) && recs != [] && WellFormed(recs[0])
    requires Records(GroupsFrom(lines, o + 1 + |recs[0].sequence|)) == Expected(recs[1..])
    ensures Records(GroupsFrom(lines, o)) == Expected(recs)
  {
    var rec := recs[0];
    var k := o + 1 + |rec.sequence|;
    assert lines[o + 1..k] == rec.sequence;
    forall m | o < m < k ensures !IsHeader(lines[m]) {
      assert lines[m] == rec.sequence[m - o - 1];
    }
    GroupAt(lines, o, k);
    HeaderNameOfHeader(rec.name);
  }

  /** Each well-formed record of a laid-out file, from line `o` on, is one group of it. */
  lemma {:induction false} RecordsOfLayout(lines: seq<string>, o: nat, recs: seq<FastaRecord>)
    requires LaidOut(lines, o, recs)
    requires AllWellFormed(recs)
    ensures Records(GroupsFrom(lines, o)) == Expected(recs)
    decreases |recs|
  {
    if recs == [] {
      assert GroupsFrom(lines, o) == [];
    } else {
      RecordsOfLayout(lines, o + 1 + |recs[0].sequence|, recs[1..]);
      LaidOutFirst(lines, o, recs);
    }
  }

  /** A file laid out from well-formed records gives back each record's name and the
      total length of its sequence lines with the newlines removed. */
  lemma ChromosomeLengthsOfLayout(lines: seq<string>, recs: seq<FastaRecord>)
    requires LaidOut(lines, 0, recs)
    requires AllWellFormed(recs)
    ensures ChromosomeLengths(lines) == Ok(Expected(recs))
  {
    if recs != [] {
      assert IsHeader(lines[0]) by {
        assert lines[0] == ">" + recs[0].name + "\n";
      }
    }
    RecordsOfLayout(lines, 0, recs);
  }

  /** Two headers in a row: the second is dropped and the first takes the sequence. */
  lemma ConsecutiveHeaders(first: string, second: string, sequence: string)
    requires first == [] || (first[0] != '>' && first[|first| - 1] != '\n')
    requires !IsHeader(sequence)
    ensures ChromosomeLengths([">" + first + "\n", ">" + second + "\n", sequence]) ==
            Ok([ChromLength(first, |RemoveNewlines(sequence)|)])
  {
    var lines := [">" + first + "\n", ">" + second + "\n", sequence];
    RunEndIs(lines, 0, 2, true);
    RunEndIs(lines, 2, 3, false);
    GroupsFromStep(lines, 0, 2, 3);
    assert lines[2..3] == [sequence];
    assert Concat([sequence]) == Concat([]) + sequence;
    assert Concat([sequence]) == sequence;
    HeaderNameOfHeader(first);
    assert Records(GroupsFrom(lines, 3)) == [];
    assert Record(Group(lines[0], [sequence])) == ChromLength(first, |RemoveNewlines(sequence)|);
    assert IsHeader(lines[0]);
    assert Records(GroupsFrom(lines, 0)) == [ChromLength(first, |RemoveNewlines(sequence)|)];
  }
}
