/** The locus strings `chrom:start-stop` that the cluster tool writes in column 0. */
module Loci {
  import opened Results
  import opened Text

  datatype Locus = Locus(chrom: string, start: int, stop: int)

  /** `chrom = s.split(':')[0]`, `start = int(s.split(':')[1].split('-')[0])` and
      `stop = int(s.split(':')[1].split('-')[1])`, failing where Python would and in the
      order it evaluates these expressions: the start is converted before the missing
      '-' is noticed. */
  function ParseLocus(s: string): (r: Result<Locus>)
    ensures ':' !in s ==> r == Err(MalformedLocus(s))
    ensures r.Ok? ==> ':' !in r.value.chrom && |r.value.chrom| < |s| &&
                      s[..|r.value.chrom| + 1] == r.value.chrom + ":"
    ensures r.Err? ==> r.error.MalformedLocus? || r.error.InvalidInteger?
    ensures r.Ok? ==> var fields := Split(s, ':');
      && |fields| >= 2
      && r.value.chrom == fields[0]
      && var bounds := Split(fields[1], '-');
      && |bounds| >= 2
      && ParseInt(bounds[0]) == Some(r.value.start)
      && ParseInt(bounds[1]) == Some(r.value.stop)
    ensures ':' in s ==> var bounds := Split(Split(s, ':')[1], '-');
      ParseInt(bounds[0]).None? ==> r == Err(InvalidInteger(bounds[0]))
    ensures ':' in s ==> var bounds := Split(Split(s, ':')[1], '-');
      ParseInt(bounds[0]).Some? && |bounds| < 2 ==> r == Err(MalformedLocus(s))
    ensures ':' in s ==> var bounds := Split(Split(s, ':')[1], '-');
      ParseInt(bounds[0]).Some? && |bounds| >= 2 && ParseInt(bounds[1]).None? ==>
      r == Err(InvalidInteger(bounds[1]))
    ensures ':' in s ==> var bounds := Split(Split(s, ':')[1], '-');
      ParseInt(bounds[0]).Some? && |bounds| >= 2 && ParseInt(bounds[1]).Some? ==> r.Ok?
  {
    var fields := Split(s, ':');
    if |fields| < 2 then
      assert fields == [s];
      Err(MalformedLocus(s))
    else
      assert s == fields[0] + [':'] + Join(fields[1..], ':');
      var bounds := Split(fields[1], '-');
      match ParseInt(bounds[0])
      case None => Err(InvalidInteger(bounds[0]))
      case Some(start) =>
        if |bounds| < 2 then Err(MalformedLocus(s))
        else
          match ParseInt(bounds[1])
          case None => Err(InvalidInteger(bounds[1]))
          case Some(stop) => Ok(Locus(fields[0], start, stop))
  }

  /** How the cluster tool writes a locus. */
  function FormatLocus(l: Locus): string
  {
    l.chrom + ":" + IntToString(l.start) + "-" + IntToString(l.stop)
  }

  lemma DigitsHaveNoSeparator(n: nat, c: char)
    requires !IsDigit(c)
    ensures c !in IntToString(n)
  {
  }

  /** Parsing a written locus gives it back, for coordinates that are not negative
      and a chromosome name without ':'. */
  lemma ParseFormatLocus(l: Locus)
    requires ':' !in l.chrom && l.start >= 0 && l.stop >= 0
    ensures ParseLocus(FormatLocus(l)) == Ok(l)
  {
    var a, b := IntToString(l.start), IntToString(l.stop);
    var tail := a + "-" + b;
    DigitsHaveNoSeparator(l.start, ':');
    DigitsHaveNoSeparator(l.stop, ':');
    DigitsHaveNoSeparator(l.start, '-');
    DigitsHaveNoSeparator(l.stop, '-');
    assert FormatLocus(l) == l.chrom + [':'] + tail;
    SplitAfterPiece(l.chrom, ':', tail);
    assert ':' !in tail;
    SplitWithoutSeparator(tail, ':');
    assert Split(FormatLocus(l), ':') == [l.chrom, tail];
    SplitAfterPiece(a, '-', b);
    SplitWithoutSeparator(b, '-');
    assert Split(tail, '-') == [a, b];
    ParseIntOfString(l.start);
    ParseIntOfString(l.stop);
  }
}
