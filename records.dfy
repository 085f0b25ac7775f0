/** The record stores both scripts build: rows already split into columns are parsed
    one by one and filed in a two-level table, chromosome -> identifier -> value. */
module Records {
  import opened Results

  /** One line of a delimited file, split into its columns. */
  type Row = seq<string>

  /** A dictionary of dictionaries: chromosome -> identifier -> value. */
  type NestedMap<V> = map<string, map<string, V>>

  /** What one row contributes to a table: where it is filed and what is stored. */
  datatype Entry<V> = Entry(chrom: string, key: string, value: V)

  /** `if chrom not in d: d[chrom] = {}` then `if key not in d[chrom]: d[chrom][key] = value`. */
  function InsertFirst<V>(m: NestedMap<V>, e: Entry<V>): NestedMap<V>
  {
    var inner := if e.chrom in m then m[e.chrom] else map[];
    if e.key in inner then m else m[e.chrom := inner[e.key := e.value]]
  }

  /** `if chrom not in d: d[chrom] = {}` then `d[chrom][key] = value`. */
  function InsertLast<V>(m: NestedMap<V>, e: Entry<V>): NestedMap<V>
  {
    var inner := if e.chrom in m then m[e.chrom] else map[];
    m[e.chrom := inner[e.key := e.value]]
  }

  /** The two statements the scripts write, `d[chrom] = {}` when the chromosome is new
      and then `d[chrom][key] = value`, do what `InsertLast` does. */
  lemma InsertLastInPlace<V>(m: NestedMap<V>, e: Entry<V>)
    ensures var m1 := if e.chrom in m then m else m[e.chrom := map[]];
      m1[e.chrom := m1[e.chrom][e.key := e.value]] == InsertLast(m, e)
  {
  }

  ghost predicate SameKey<V>(a: Entry<V>, b: Entry<V>)
  {
    a.chrom == b.chrom && a.key == b.key
  }

  /** The table holds exactly the (chromosome, identifier) pairs of the entries,
      and no chromosome maps to an empty table. */
  ghost predicate KeysOf<V>(es: seq<Entry<V>>, m: NestedMap<V>)
  {
    && (forall i :: 0 <= i < |es| ==> es[i].chrom in m && es[i].key in m[es[i].chrom])
    && (forall c, k :: c in m && k in m[c] ==>
          exists i :: 0 <= i < |es| && es[i].chrom == c && es[i].key == k)
    && (forall c :: c in m ==> m[c] != map[])
  }

  /** Entry `i` is the first one with its (chromosome, identifier) pair. */
  ghost predicate IsFirst<V>(es: seq<Entry<V>>, i: int)
  {
    0 <= i < |es| && forall j :: 0 <= j < i ==> !SameKey(es[j], es[i])
  }

  /** Entry `i` is the last one with its (chromosome, identifier) pair. */
  ghost predicate IsLast<V>(es: seq<Entry<V>>, i: int)
  {
    0 <= i < |es| && forall j :: i < j < |es| ==> !SameKey(es[j], es[i])
  }

  /** `m` is what filing `es` in order gives when the first occurrence of a pair wins. */
  ghost predicate FirstWins<V>(es: seq<Entry<V>>, m: NestedMap<V>)
  {
    KeysOf(es, m) && FirstValues(es, m)
  }

  /** The table stores the value of the first entry of each pair. */
  ghost predicate FirstValues<V>(es: seq<Entry<V>>, m: NestedMap<V>)
  {
    forall i :: IsFirst(es, i) ==>
      es[i].chrom in m && es[i].key in m[es[i].chrom] && m[es[i].chrom][es[i].key] == es[i].value
  }

  /** `m` is what filing `es` in order gives when a later occurrence overwrites. */
  ghost predicate LastWins<V>(es: seq<Entry<V>>, m: NestedMap<V>)
  {
    KeysOf(es, m) && LastValues(es, m)
  }

  /** The table stores the value of the last entry of each pair. */
  ghost predicate LastValues<V>(es: seq<Entry<V>>, m: NestedMap<V>)
  {
    forall i :: IsLast(es, i) ==>
      es[i].chrom in m && es[i].key in m[es[i].chrom] && m[es[i].chrom][es[i].key] == es[i].value
  }

  lemma KeysOfAppendPresent<V>(es: seq<Entry<V>>, m: NestedMap<V>, e: Entry<V>)
    requires KeysOf(es, m) && e.chrom in m && e.key in m[e.chrom]
    ensures KeysOf(es + [e], m)
  {
    var es' := es + [e];
    forall c, k | c in m && k in m[c]
      ensures exists i :: 0 <= i < |es'| && es'[i].chrom == c && es'[i].key == k
    {
      var i := EntryOf(es, m, c, k);
      assert es'[i] == es[i];
    }
  }

  lemma KeysOfAppendInsert<V>(es: seq<Entry<V>>, m: NestedMap<V>, e: Entry<V>)
    requires KeysOf(es, m)
    ensures KeysOf(es + [e], InsertLast(m, e))
  {
    var es', m' := es + [e], InsertLast(m, e);
    forall i | 0 <= i < |es'| ensures es'[i].chrom in m' && es'[i].key in m'[es'[i].chrom] {
      if i < |es| {
        assert es'[i] == es[i];
      }
    }
    forall c, k | c in m' && k in m'[c]
      ensures exists i :: 0 <= i < |es'| && es'[i].chrom == c && es'[i].key == k
    {
      if c == e.chrom && k == e.key {
        assert es'[|es|] == e;
      } else {
        var i := EntryOf(es, m, c, k);
        assert es'[i] == es[i];
      }
    }
  }

  lemma IsFirstOfPrefix<V>(es: seq<Entry<V>>, e: Entry<V>, i: int)
    requires IsFirst(es + [e], i) && i < |es|
    ensures IsFirst(es, i)
  {
    var es' := es + [e];
    forall j | 0 <= j < i ensures !SameKey(es[j], es[i]) {
      assert es'[j] == es[j] && es'[i] == es[i];
    }
  }

  lemma IsLastOfPrefix<V>(es: seq<Entry<V>>, e: Entry<V>, i: int)
    requires IsLast(es + [e], i) && i < |es|
    ensures IsLast(es, i)
  {
    var es' := es + [e];
    forall j | i < j < |es| ensures !SameKey(es[j], es[i]) {
      assert es'[j] == es[j] && es'[i] == es[i];
    }
  }

  lemma FirstWinsStep<V>(es: seq<Entry<V>>, m: NestedMap<V>, e: Entry<V>)
    requires FirstWins(es, m)
    ensures FirstWins(es + [e], InsertFirst(m, e))
  {
    if e.chrom in m && e.key in m[e.chrom] {
      FirstWinsDuplicate(es, m, e);
    } else {
      FirstWinsNew(es, m, e);
    }
  }

  /** A later duplicate leaves the table as it is. */
  lemma FirstWinsDuplicate<V>(es: seq<Entry<V>>, m: NestedMap<V>, e: Entry<V>)
    requires FirstWins(es, m) && e.chrom in m && e.key in m[e.chrom]
    ensures InsertFirst(m, e) == m && FirstWins(es + [e], m)
  {
    KeysOfAppendPresent(es, m, e);
    var w := EntryOf(es, m, e.chrom, e.key);
    FirstValuesDuplicate(es, m, e, w);
  }

  /** A pair in the table comes from some entry. */
  lemma EntryOf<V>(es: seq<Entry<V>>, m: NestedMap<V>, c: string, k: string) returns (w: int)
    requires KeysOf(es, m) && c in m && k in m[c]
    ensures 0 <= w < |es| && es[w].chrom == c && es[w].key == k
  {
    w :| 0 <= w < |es| && es[w].chrom == c && es[w].key == k;
  }

  lemma FirstValuesDuplicate<V>(es: seq<Entry<V>>, m: NestedMap<V>, e: Entry<V>, w: int)
    requires FirstValues(es, m) && 0 <= w < |es| && SameKey(es[w], e)
    ensures FirstValues(es + [e], m)
  {
    DuplicateIsNotFirst(es, e, w);
    var es' := es + [e];
    forall i | IsFirst(es', i)
      ensures es'[i].chrom in m && es'[i].key in m[es'[i].chrom]
      ensures m[es'[i].chrom][es'[i].key] == es'[i].value
    {
      assert es'[i] == es[i];
      IsFirstOfPrefix(es, e, i);
    }
  }

  lemma DuplicateIsNotFirst<V>(es: seq<Entry<V>>, e: Entry<V>, w: int)
    requires 0 <= w < |es| && SameKey(es[w], e)
    ensures !IsFirst(es + [e], |es|)
  {
    assert (es + [e])[w] == es[w];
  }

  lemma FirstWinsNew<V>(es: seq<Entry<V>>, m: NestedMap<V>, e: Entry<V>)
    requires FirstWins(es, m) && !(e.chrom in m && e.key in m[e.chrom])
    ensures FirstWins(es + [e], InsertFirst(m, e))
  {
    var es', m' := es + [e], InsertFirst(m, e);
    assert m' == InsertLast(m, e);
    KeysOfAppendInsert(es, m, e);
    forall i | IsFirst(es', i)
      ensures es'[i].chrom in m' && es'[i].key in m'[es'[i].chrom]
      ensures m'[es'[i].chrom][es'[i].key] == es'[i].value
    {
      if i < |es| {
        assert es'[i] == es[i];
        IsFirstOfPrefix(es, e, i);
      }
    }
  }

  lemma LastWinsStep<V>(es: seq<Entry<V>>, m: NestedMap<V>, e: Entry<V>)
    requires LastWins(es, m)
    ensures LastWins(es + [e], InsertLast(m, e))
  {
    var es', m' := es + [e], InsertLast(m, e);
    KeysOfAppendInsert(es, m, e);
    forall i | IsLast(es', i)
      ensures es'[i].chrom in m' && es'[i].key in m'[es'[i].chrom]
      ensures m'[es'[i].chrom][es'[i].key] == es'[i].value
    {
      if i < |es| {
        assert es'[i] == es[i];
        assert !SameKey(es'[|es|], es'[i]);
        IsLastOfPrefix(es, e, i);
      }
    }
  }

  /** The table that filing `es` in order with `InsertLast` builds from an empty one. */
  function FillLast<V>(es: seq<Entry<V>>): NestedMap<V>
  {
    if es == [] then map[] else InsertLast(FillLast(es[..|es| - 1]), es[|es| - 1])
  }

  lemma {:induction false} FillLastWins<V>(es: seq<Entry<V>>)
    ensures LastWins(es, FillLast(es))
  {
    if es != [] {
      var init, last := es[..|es| - 1], es[|es| - 1];
      assert es == init + [last];
      assert FillLast(es) == InsertLast(FillLast(init), last);
      FillLastWins(init);
      LastWinsStep(init, FillLast(init), last);
    }
  }

  /** Every value of a filled table is the value of an entry with its pair. */
  lemma FillLastValue<V>(es: seq<Entry<V>>, c: string, k: string) returns (w: int)
    requires c in FillLast(es) && k in FillLast(es)[c]
    ensures 0 <= w < |es| && es[w].chrom == c && es[w].key == k
    ensures FillLast(es)[c][k] == es[w].value
  {
    FillLastWins(es);
    w := LastWinsValue(es, FillLast(es), c, k);
  }

  /** Two tables that both satisfy `KeysOf` for the same entries and agree on the value
      of every key are the same table: `FirstWins` determines the table of a sequence
      of entries. */
  lemma FirstWinsUnique<V>(es: seq<Entry<V>>, m1: NestedMap<V>, m2: NestedMap<V>)
    requires FirstWins(es, m1) && FirstWins(es, m2)
    ensures m1 == m2
  {
    forall c | c in m1 ensures c in m2 && m1[c] == m2[c] {
      forall k | k in m1[c] ensures k in m2[c] && m1[c][k] == m2[c][k] {
        var i := EntryOf(es, m1, c, k);
        FirstOccurrence(es, i);
      }
      forall k | k in m2[c] ensures k in m1[c] {
        var i := EntryOf(es, m2, c, k);
      }
    }
    forall c | c in m2 ensures c in m1 {
      var k :| k in m2[c];
      var i := EntryOf(es, m2, c, k);
    }
  }

  /** Two last-wins tables of the same entries hold the same value for a key. */
  lemma LastWinsAgree<V>(es: seq<Entry<V>>, m1: NestedMap<V>, m2: NestedMap<V>,
                         c: string, k: string)
    requires LastWins(es, m1) && LastWins(es, m2) && c in m1 && k in m1[c]
    ensures c in m2 && k in m2[c] && m1[c][k] == m2[c][k]
  {
    var i := EntryOf(es, m1, c, k);
    LastOccurrence(es, i);
    var w :| i <= w < |es| && IsLast(es, w) && SameKey(es[w], es[i]);
    assert LastValues(es, m1) && LastValues(es, m2);
  }

  /** Two last-wins tables of the same entries hold the same inner table for a
      chromosome. */
  lemma LastWinsAgreeOn<V>(es: seq<Entry<V>>, m1: NestedMap<V>, m2: NestedMap<V>, c: string)
    requires LastWins(es, m1) && LastWins(es, m2) && c in m1
    ensures c in m2 && m1[c] == m2[c]
  {
    var k0 :| k0 in m1[c];
    LastWinsAgree(es, m1, m2, c, k0);
    var a, b := m1[c], m2[c];
    forall k | k in a ensures k in b && a[k] == b[k] {
      LastWinsAgree(es, m1, m2, c, k);
    }
    forall k | k in b ensures k in a {
      LastWinsAgree(es, m2, m1, c, k);
    }
    SameMaps(a, b);
  }

  lemma SameMaps<V>(a: map<string, V>, b: map<string, V>)
    requires forall k :: k in a ==> k in b && a[k] == b[k]
    requires forall k :: k in b ==> k in a
    ensures a == b
  {
  }

  /** The same for `LastWins`: it too determines the table. */
  lemma LastWinsUnique<V>(es: seq<Entry<V>>, m1: NestedMap<V>, m2: NestedMap<V>)
    requires LastWins(es, m1) && LastWins(es, m2)
    ensures m1 == m2
  {
    forall c | c in m1 ensures c in m2 && m1[c] == m2[c] {
      LastWinsAgreeOn(es, m1, m2, c);
    }
    forall c | c in m2 ensures c in m1 {
      LastWinsAgreeOn(es, m2, m1, c);
    }
  }

  /** Every entry has a first occurrence of its pair at or before it. */
  lemma FirstOccurrence<V>(es: seq<Entry<V>>, i: int)
    requires 0 <= i < |es|
    ensures exists f :: 0 <= f <= i && IsFirst(es, f) && SameKey(es[f], es[i])
    decreases i
  {
    if j :| 0 <= j < i && SameKey(es[j], es[i]) {
      FirstOccurrence(es, j);
    } else {
      assert IsFirst(es, i);
    }
  }

  /** Every entry has a last occurrence of its pair at or after it. */
  lemma LastOccurrence<V>(es: seq<Entry<V>>, i: int)
    requires 0 <= i < |es|
    ensures exists l :: i <= l < |es| && IsLast(es, l) && SameKey(es[l], es[i])
    decreases |es| - i
  {
    if j :| i < j < |es| && SameKey(es[j], es[i]) {
      LastOccurrence(es, j);
    } else {
      assert IsLast(es, i);
    }
  }

  /** Every value a last-wins table holds is the value of an entry with its pair. */
  lemma LastWinsValue<V>(es: seq<Entry<V>>, m: NestedMap<V>, c: string, k: string)
    returns (w: int)
    requires LastWins(es, m) && c in m && k in m[c]
    ensures 0 <= w < |es| && es[w].chrom == c && es[w].key == k && m[c][k] == es[w].value
  {
    var i := EntryOf(es, m, c, k);
    LastOccurrence(es, i);
    w :| i <= w < |es| && IsLast(es, w) && SameKey(es[w], es[i]);
  }

  /** A row-by-row parser: `parse(row)` fails, or gives what the row stands for. */
  ghost predicate AllOk<T>(rows: seq<Row>, parse: Row -> Result<T>)
  {
    forall i :: 0 <= i < |rows| ==> parse(rows[i]).Ok?
  }

  /** `e` is the error of the first row that does not parse. */
  ghost predicate FirstFailure<T>(rows: seq<Row>, parse: Row -> Result<T>, e: Error)
  {
    exists i :: 0 <= i < |rows| && parse(rows[i]) == Err(e) &&
      forall j :: 0 <= j < i ==> parse(rows[j]).Ok?
  }

  /** Row `i` is the first that does not parse. */
  lemma FailureAt<T>(rows: seq<Row>, parse: Row -> Result<T>, i: nat)
    requires i < |rows| && AllOk(rows[..i], parse) && parse(rows[i]).Err?
    ensures !AllOk(rows, parse)
    ensures FirstFailure(rows, parse, parse(rows[i]).error)
  {
    assert forall j :: 0 <= j < i ==> rows[..i][j] == rows[j];
  }

  /** The entries the rows give, in order, skipping the rows the parser drops. */
  ghost function Kept<V>(rows: seq<Row>, parse: Row -> Result<Option<Entry<V>>>): seq<Entry<V>>
    requires AllOk(rows, parse)
  {
    if rows == [] then []
    else
      var earlier := Kept(rows[..|rows| - 1], parse);
      match parse(rows[|rows| - 1]).value
      case Some(e) => earlier + [e]
      case None => earlier
  }

  /** A parser that keeps every row keeps, in order, one entry per row. */
  lemma {:induction false} KeptEvery<V>(rows: seq<Row>, parse: Row -> Result<Option<Entry<V>>>)
    requires AllOk(rows, parse)
    requires forall i :: 0 <= i < |rows| ==> parse(rows[i]).value.Some?
    ensures |Kept(rows, parse)| == |rows|
    ensures forall i :: 0 <= i < |rows| ==> Kept(rows, parse)[i] == parse(rows[i]).value.value
  {
    if rows != [] {
      var init := rows[..|rows| - 1];
      assert forall i :: 0 <= i < |init| ==> init[i] == rows[i];
      KeptEvery(init, parse);
    }
  }

  /** The loop `for row in reader: records.append(parse(row))`, stopping at the first row
      whose parse raises. */
  method CollectAll<T>(rows: seq<Row>, parse: Row -> Result<T>) returns (r: Result<seq<T>>)
    ensures r.Ok? <==> AllOk(rows, parse)
    ensures r.Ok? ==> |r.value| == |rows|
    ensures r.Ok? ==> forall i :: 0 <= i < |rows| ==> r.value[i] == parse(rows[i]).value
    ensures r.Err? ==> FirstFailure(rows, parse, r.error)
  {
    var records: seq<T> := [];
    var i := 0;
    while i < |rows|
      invariant 0 <= i <= |rows|
      invariant AllOk(rows[..i], parse)
      invariant |records| == i
      invariant forall j :: 0 <= j < i ==> records[j] == parse(rows[j]).value
    {
      match parse(rows[i]) {
        case Err(e) =>
          FailureAt(rows, parse, i);
          return Err(e);
        case Ok(v) =>
          records := records + [v];
      }
      i := i + 1;
    }
    assert rows[..i] == rows;
    return Ok(records);
  }

  /** Row `i` parses: filing its entry, if any, with `InsertFirst` extends the table of the
      rows before it to the table of the rows up to it. */
  lemma FirstWinsRow<V>(rows: seq<Row>, parse: Row -> Result<Option<Entry<V>>>, i: nat,
                         table: NestedMap<V>)
    requires i < |rows| && AllOk(rows[..i], parse) && parse(rows[i]).Ok?
    requires FirstWins(Kept(rows[..i], parse), table)
    ensures AllOk(rows[..i + 1], parse)
    ensures FirstWins(Kept(rows[..i + 1], parse),
                     match parse(rows[i]).value
                     case Some(e) => InsertFirst(table, e)
                     case None => table)
  {
    assert rows[..i + 1][..i] == rows[..i];
    if parse(rows[i]).value.Some? {
      FirstWinsStep(Kept(rows[..i], parse), table, parse(rows[i]).value.value);
    }
  }

  /** The loop of a parser that files each row's entry with `InsertFirst`. */
  method CollectFirstWins<V>(rows: seq<Row>, parse: Row -> Result<Option<Entry<V>>>)
    returns (r: Result<NestedMap<V>>)
    ensures r.Ok? <==> AllOk(rows, parse)
    ensures r.Err? ==> FirstFailure(rows, parse, r.error)
    ensures r.Ok? ==> FirstWins(Kept(rows, parse), r.value)
  {
    var table: NestedMap<V> := map[];
    var i := 0;
    while i < |rows|
      invariant 0 <= i <= |rows|
      invariant AllOk(rows[..i], parse)
      invariant FirstWins(Kept(rows[..i], parse), table)
    {
      match parse(rows[i]) {
        case Err(e) =>
          FailureAt(rows, parse, i);
          return Err(e);
        case Ok(kept) =>
          FirstWinsRow(rows, parse, i, table);
          match kept {
            case Some(entry) => table := InsertFirst(table, entry);
            case None =>
          }
      }
      i := i + 1;
    }
    assert rows[..i] == rows;
    return Ok(table);
  }

  /** Row `i` parses: filing its entry, if any, with `InsertLast` extends the table of the
      rows before it to the table of the rows up to it. */
  lemma LastWinsRow<V>(rows: seq<Row>, parse: Row -> Result<Option<Entry<V>>>, i: nat,
                         table: NestedMap<V>)
    requires i < |rows| && AllOk(rows[..i], parse) && parse(rows[i]).Ok?
    requires LastWins(Kept(rows[..i], parse), table)
    ensures AllOk(rows[..i + 1], parse)
    ensures LastWins(Kept(rows[..i + 1], parse),
                     match parse(rows[i]).value
                     case Some(e) => InsertLast(table, e)
                     case None => table)
  {
    assert rows[..i + 1][..i] == rows[..i];
    if parse(rows[i]).value.Some? {
      LastWinsStep(Kept(rows[..i], parse), table, parse(rows[i]).value.value);
    }
  }

  /** The loop of a parser that files each row's entry with `InsertLast`. */
  method CollectLastWins<V>(rows: seq<Row>, parse: Row -> Result<Option<Entry<V>>>)
    returns (r: Result<NestedMap<V>>)
    ensures r.Ok? <==> AllOk(rows, parse)
    ensures r.Err? ==> FirstFailure(rows, parse, r.error)
    ensures r.Ok? ==> LastWins(Kept(rows, parse), r.value)
  {
    var table: NestedMap<V> := map[];
    var i := 0;
    while i < |rows|
      invariant 0 <= i <= |rows|
      invariant AllOk(rows[..i], parse)
      invariant LastWins(Kept(rows[..i], parse), table)
    {
      match parse(rows[i]) {
        case Err(e) =>
          FailureAt(rows, parse, i);
          return Err(e);
        case Ok(kept) =>
          LastWinsRow(rows, parse, i, table);
          match kept {
            case Some(entry) => table := InsertLast(table, entry);
            case None =>
          }
      }
      i := i + 1;
    }
    assert rows[..i] == rows;
    return Ok(table);
  }
}
