/** The bootstrap script: cluster loci are placed at random on the chromosomes of a
    genome, keeping each locus's length, and the placed loci are counted against the
    features of a GTF or GFF3 annotation, once per trial. The random draws are
    nondeterministic choices restricted to the ranges the source draws from. */
module RandomizeOverlaps {
  import opened Results
  import opened Text
  import opened Loci
  import opened Records
  import opened Fasta
  import opened Overlap

  /** `[cluster_name, cluster_length]`, one per row of the loci file. */
  datatype LocusLength = LocusLength(name: string, length: int)

  /** `[randomized_cluster_start, randomized_cluster_stop, cluster_length]`. */
  datatype RandomCluster = RandomCluster(start: int, stop: int, length: int)

  /** Element `[0]` of a placed cluster. */
  function RandomStart(c: RandomCluster): int { c.start }

  /** Annotation tables store `[start, stop]` and are read as they are. */
  function AnnotationSpan(i: Interval): Interval { i }

  /** One row of the loci file: the name in column 1 is read first, then the locus
      string in column 0 gives the length `stop - start`. */
  function ParseLociRow(row: Row): (r: Result<LocusLength>)
    ensures |row| < 2 ==> r == Err(MissingColumn(1))
    ensures |row| >= 2 && ParseLocus(row[0]).Err? ==> r == Err(ParseLocus(row[0]).error)
    ensures r.Ok? <==> |row| >= 2 && ParseLocus(row[0]).Ok?
    ensures r.Ok? ==> r.value.name == row[1]
    ensures r.Ok? ==> |row| >= 2 && ParseLocus(row[0]).Ok? &&
                      r.value.length == ParseLocus(row[0]).value.stop - ParseLocus(row[0]).value.start
  {
    if |row| < 2 then Err(MissingColumn(1))
    else
      match ParseLocus(row[0])
      case Err(e) => Err(e)
      case Ok(locus) => Ok(LocusLength(row[1], locus.stop - locus.start))
  }

  /** The length of a locus is its stop minus its start as written in the locus
      string. */
  lemma ParseLociRowOfLocus(l: Locus, name: string, rest: seq<string>)
    requires ':' !in l.chrom && l.start >= 0 && l.stop >= 0
    ensures ParseLociRow([FormatLocus(l), name] + rest) == Ok(LocusLength(name, l.stop - l.start))
  {
    var row := [FormatLocus(l), name] + rest;
    ParseFormatLocus(l);
    assert row[0] == FormatLocus(l) && row[1] == name;
  }

  /** `get_shortstack_clusters`: skip the header, then one name and length per row, in
      file order, stopping at the first row that does not parse. */
  method GetShortstackClusters(rows: seq<Row>) returns (r: Result<seq<LocusLength>>)
    ensures rows == [] ==> r == Err(EmptyInput)
    ensures rows != [] ==> (r.Ok? <==> AllOk(rows[1..], ParseLociRow))
    ensures rows != [] && r.Err? ==> FirstFailure(rows[1..], ParseLociRow, r.error)
    ensures r.Ok? ==> |r.value| == |rows| - 1
    ensures r.Ok? ==> forall i :: 0 <= i < |r.value| ==> r.value[i] == ParseLociRow(rows[i + 1]).value
  {
    if rows == [] {
      return Err(EmptyInput);
    }
    r := CollectAll(rows[1..], ParseLociRow);
  }

  /** The feature id of an attribute column: its first `;`-separated field with the
      first `prefix` characters dropped. */
  function AttributeId(attributes: string, prefix: nat): string
  {
    DropPrefix(Split(attributes, ';')[0], prefix)
  }

  /** The fixed-width slice recovers what follows a first attribute's key when the key
      and its separator take exactly `prefix` characters: `ID=` in a GFF3 file. In a GTF
      file `gene_id ` takes 8, so for `gene_id "X"` the id keeps its quotes, `"X"`. */
  lemma AttributeIdOfKey(key: string, value: string, rest: string)
    requires ';' !in key && ';' !in value
    ensures AttributeId(key + value + ";" + rest, |key|) == value
  {
    SplitAfterPiece(key + value, ';', rest);
    assert key + value + ";" + rest == (key + value) + [';'] + rest;
    assert (key + value)[|key|..] == value;
  }

  /** One GTF row: rows of another feature type are dropped; a row of the requested
      type gives its chromosome, the id in column 8 after an 8-character prefix, and
      the coordinates in columns 3 and 4. Column 2 is compared on every row. */
  function ParseGtfRow(row: Row, feature: string): (r: Result<Option<Entry<Interval>>>)
    ensures |row| < 3 ==> r == Err(MissingColumn(2))
    ensures |row| >= 3 && row[2] != feature ==> r == Ok(None)
    ensures r.Ok? && r.value.Some? ==>
      && row[2] == feature && |row| >= 9
      && r.value.value.chrom == row[0]
      && r.value.value.key == AttributeId(row[8], 8)
      && ParseInt(row[3]) == Some(r.value.value.value.start)
      && ParseInt(row[4]) == Some(r.value.value.value.stop)
    ensures |row| >= 3 && row[2] == feature ==>
      (r.Ok? <==> |row| >= 9 && ParseInt(row[3]).Some? && ParseInt(row[4]).Some?)
    ensures |row| >= 3 && row[2] == feature && r.Ok? ==> r.value.Some?
    ensures |row| == 3 && row[2] == feature ==> r == Err(MissingColumn(3))
    ensures |row| >= 4 && row[2] == feature && ParseInt(row[3]).None? ==>
      r == Err(InvalidInteger(row[3]))
    ensures |row| == 4 && row[2] == feature && ParseInt(row[3]).Some? ==>
      r == Err(MissingColumn(4))
    ensures |row| >= 5 && row[2] == feature && ParseInt(row[3]).Some? &&
            ParseInt(row[4]).None? ==>
      r == Err(InvalidInteger(row[4]))
    ensures 5 <= |row| < 9 && row[2] == feature && ParseInt(row[3]).Some? &&
            ParseInt(row[4]).Some? ==>
      r == Err(MissingColumn(8))
  {
    if |row| < 3 then Err(MissingColumn(2))
    else if row[2] != feature then Ok(None)
    else if |row| < 4 then Err(MissingColumn(3))
    else
      match ParseInt(row[3])
      case None => Err(InvalidInteger(row[3]))
      case Some(start) =>
        if |row| < 5 then Err(MissingColumn(4))
        else
          match ParseInt(row[4])
          case None => Err(InvalidInteger(row[4]))
          case Some(stop) =>
            if |row| < 9 then Err(MissingColumn(8))
            else Ok(Some(Entry(row[0], AttributeId(row[8], 8), Interval(start, stop))))
  }

  /** `ParseGtfRow` for one feature type, as the row parser of the table loop. */
  function GtfRows(feature: string): Row -> Result<Option<Entry<Interval>>>
  {
    row => ParseGtfRow(row, feature)
  }

  /** `parse_gtf`: no header; file every row of the requested type under its chromosome
      and id, a later row with the same pair overwriting an earlier one. */
  method ParseGtf(rows: seq<Row>, feature: string) returns (r: Result<NestedMap<Interval>>)
    ensures r.Ok? <==> AllOk(rows, GtfRows(feature))
    ensures r.Err? ==> FirstFailure(rows, GtfRows(feature), r.error)
    ensures r.Ok? ==> LastWins(Kept(rows, GtfRows(feature)), r.value)
  {
    r := CollectLastWins(rows, GtfRows(feature));
  }

  /** A line of a GFF3 file that starts with `#`, which is dropped before it is split
      into columns. */
  predicate IsComment(row: Row)
  {
    |row| > 0 && |row[0]| > 0 && row[0][0] == '#'
  }

  /** One GFF3 row: comments and rows of another feature type are dropped; a row of
      the requested type gives its chromosome, the id in column 8 after a 3-character
      prefix, and the coordinates in columns 3 and 4. The strand in column 6 is read
      but not used. */
  function ParseGffRow(row: Row, feature: string): (r: Result<Option<Entry<Interval>>>)
    ensures IsComment(row) ==> r == Ok(None)
    ensures !IsComment(row) && |row| < 3 ==> r == Err(MissingColumn(2))
    ensures !IsComment(row) && |row| >= 3 && row[2] != feature ==> r == Ok(None)
    ensures r.Ok? && r.value.Some? ==>
      && !IsComment(row) && row[2] == feature && |row| >= 9
      && r.value.value.chrom == row[0]
      && r.value.value.key == AttributeId(row[8], 3)
      && ParseInt(row[3]) == Some(r.value.value.value.start)
      && ParseInt(row[4]) == Some(r.value.value.value.stop)
    ensures !IsComment(row) && |row| >= 3 && row[2] == feature ==>
      (r.Ok? <==> |row| >= 9 && ParseInt(row[3]).Some? && ParseInt(row[4]).Some?)
    ensures !IsComment(row) && |row| >= 3 && row[2] == feature && r.Ok? ==> r.value.Some?
    ensures !IsComment(row) && |row| == 3 && row[2] == feature ==> r == Err(MissingColumn(3))
    ensures !IsComment(row) && |row| >= 4 && row[2] == feature && ParseInt(row[3]).None? ==>
      r == Err(InvalidInteger(row[3]))
    ensures !IsComment(row) && |row| == 4 && row[2] == feature && ParseInt(row[3]).Some? ==>
      r == Err(MissingColumn(4))
    ensures !IsComment(row) && |row| >= 5 && row[2] == feature && ParseInt(row[3]).Some? &&
            ParseInt(row[4]).None? ==>
      r == Err(InvalidInteger(row[4]))
    ensures !IsComment(row) && 5 <= |row| < 7 && row[2] == feature &&
            ParseInt(row[3]).Some? && ParseInt(row[4]).Some? ==>
      r == Err(MissingColumn(6))
    ensures !IsComment(row) && 7 <= |row| < 9 && row[2] == feature &&
            ParseInt(row[3]).Some? && ParseInt(row[4]).Some? ==>
      r == Err(MissingColumn(8))
  {
    if IsComment(row) then Ok(None)
    else if |row| < 3 then Err(MissingColumn(2))
    else if row[2] != feature then Ok(None)
    else if |row| < 4 then Err(MissingColumn(3))
    else
      match ParseInt(row[3])
      case None => Err(InvalidInteger(row[3]))
      case Some(start) =>
        if |row| < 5 then Err(MissingColumn(4))
        else
          match ParseInt(row[4])
          case None => Err(InvalidInteger(row[4]))
          case Some(stop) =>
            if |row| < 7 then Err(MissingColumn(6))
            else if |row| < 9 then Err(MissingColumn(8))
            else Ok(Some(Entry(row[0], AttributeId(row[8], 3), Interval(start, stop))))
  }

  /** `ParseGffRow` for one feature type, as the row parser of the table loop. */
  function GffRows(feature: string): Row -> Result<Option<Entry<Interval>>>
  {
    row => ParseGffRow(row, feature)
  }

  /** `parse_gff`: file every non-comment row of the requested type under its
      chromosome and id, a later row with the same pair overwriting an earlier one. */
  method ParseGff(rows: seq<Row>, feature: string) returns (r: Result<NestedMap<Interval>>)
    ensures r.Ok? <==> AllOk(rows, GffRows(feature))
    ensures r.Err? ==> FirstFailure(rows, GffRows(feature), r.error)
    ensures r.Ok? ==> LastWins(Kept(rows, GffRows(feature)), r.value)
  {
    r := CollectLastWins(rows, GffRows(feature));
  }

  /** Some chromosome is strictly longer than `length`: the condition that ends the
      source's rejection loop. */
  predicate HasRoom(chrs: seq<ChromLength>, length: int)
  {
    exists i :: 0 <= i < |chrs| && chrs[i].length > length
  }

  /** Where one locus was put: the chromosome record drawn, by its position in the
      length table, and the cluster drawn on it. */
  datatype Placement = Placement(drawn: nat, chrom: string, name: string, cluster: RandomCluster)

  /** `p` is a placement the draws can give for `locus`: a chromosome of the table
      longer than the locus, a start in `[0, length - locus length]`, and a stop that
      keeps the locus length. */
  ghost predicate Placed(chrs: seq<ChromLength>, locus: LocusLength, p: Placement)
  {
    && p.name == locus.name
    && p.cluster.length == locus.length
    && p.cluster.stop == p.cluster.start + locus.length
    && p.drawn < |chrs|
    && chrs[p.drawn].name == p.chrom
    && chrs[p.drawn].length > locus.length
    && 0 <= p.cluster.start <= chrs[p.drawn].length - locus.length
  }

  /** One admissible placement per locus, in order. */
  ghost predicate Placements(chrs: seq<ChromLength>, loci: seq<LocusLength>, ps: seq<Placement>)
  {
    |ps| == |loci| && forall i :: 0 <= i < |loci| ==> Placed(chrs, loci[i], ps[i])
  }

  /** The entries the placements file into the randomized table, in order. */
  function PlacementEntries(ps: seq<Placement>): seq<Entry<RandomCluster>>
  {
    seq(|ps|, i requires 0 <= i < |ps| => Entry(ps[i].chrom, ps[i].name, ps[i].cluster))
  }

  /** `table` is a table `randomize_clusters` can return for `loci`. */
  ghost predicate RandomizedFrom(chrs: seq<ChromLength>, loci: seq<LocusLength>,
                                 table: NestedMap<RandomCluster>)
  {
    exists ps :: Placements(chrs, loci, ps) && table == FillLast(PlacementEntries(ps))
  }

  /** One more locus placed on chromosome `k` and filed with `InsertLast` keeps the
      placements admissible and the table the last-wins table of their entries. */
  lemma PlaceStep(chrs: seq<ChromLength>, loci: seq<LocusLength>, i: nat, ps: seq<Placement>,
                  k: nat, p: Placement)
    requires i < |loci| && k < |chrs|
    requires Placements(chrs, loci[..i], ps)
    requires p.drawn == k && p.chrom == chrs[k].name && p.name == loci[i].name
    requires p.cluster.length == loci[i].length && chrs[k].length > loci[i].length
    requires 0 <= p.cluster.start <= chrs[k].length - loci[i].length
    requires p.cluster.stop == p.cluster.start + loci[i].length
    ensures Placements(chrs, loci[..i + 1], ps + [p])
    ensures FillLast(PlacementEntries(ps + [p])) ==
            InsertLast(FillLast(PlacementEntries(ps)), Entry(p.chrom, p.name, p.cluster))
  {
    var e := Entry(p.chrom, p.name, p.cluster);
    assert PlacementEntries(ps + [p]) == PlacementEntries(ps) + [e];
    assert (PlacementEntries(ps) + [e])[..|ps|] == PlacementEntries(ps);
    assert Placed(chrs, loci[i], p);
    assert loci[..i + 1] == loci[..i] + [loci[i]];
    forall j | 0 <= j < i + 1 ensures Placed(chrs, loci[..i + 1][j], (ps + [p])[j]) {
      if j < i {
        assert loci[..i + 1][j] == loci[..i][j] && (ps + [p])[j] == ps[j];
      }
    }
  }

  /** `randomize_clusters`: for each locus in order, draw a chromosome longer than it
      and a start that fits, and file the cluster under the chromosome and the locus
      name, overwriting an earlier one with the same pair. Where no chromosome is
      long enough, the source's draw loop never ends; here that locus is an error. */
  method RandomizeClusters(loci: seq<LocusLength>, chrs: seq<ChromLength>)
    returns (r: Result<NestedMap<RandomCluster>>, ghost ps: seq<Placement>)
    ensures r.Err? <==> exists i :: 0 <= i < |loci| && !HasRoom(chrs, loci[i].length)
    ensures r.Err? ==> exists i ::
      && 0 <= i < |loci| && !HasRoom(chrs, loci[i].length)
      && r.error == NoSuitableChromosome(loci[i].name)
      && forall j :: 0 <= j < i ==> HasRoom(chrs, loci[j].length)
    ensures r.Ok? ==> Placements(chrs, loci, ps) && r.value == FillLast(PlacementEntries(ps))
    ensures r.Ok? ==> LastWins(PlacementEntries(ps), r.value)
    ensures r.Ok? ==> forall i :: 0 <= i < |loci| ==>
      ps[i].chrom in r.value && loci[i].name in r.value[ps[i].chrom]
  {
    var randomized: NestedMap<RandomCluster> := map[];
    ps := [];
    var i := 0;
    while i < |loci|
      invariant 0 <= i <= |loci|
      invariant forall j :: 0 <= j < i ==> HasRoom(chrs, loci[j].length)
      invariant Placements(chrs, loci[..i], ps)
      invariant randomized == FillLast(PlacementEntries(ps))
    {
      var clusterName, clusterLength := loci[i].name, loci[i].length;
      if !HasRoom(chrs, clusterLength) {
        return Err(NoSuitableChromosome(clusterName)), ps;
      }
      var k :| 0 <= k < |chrs| && chrs[k].length > clusterLength;
      var chromosome, seqLength := chrs[k].name, chrs[k].length;
      var start :| 0 <= start <= seqLength - clusterLength;
      var cluster := RandomCluster(start, start + clusterLength, clusterLength);
      ghost var before := randomized;
      if chromosome !in randomized {
        randomized := randomized[chromosome := map[]];
      }
      randomized := randomized[chromosome := randomized[chromosome][clusterName := cluster]];
      ghost var p := Placement(k, chromosome, clusterName, cluster);
      PlaceStep(chrs, loci, i, ps, k, p);
      InsertLastInPlace(before, Entry(chromosome, clusterName, cluster));
      ps := ps + [p];
      i := i + 1;
    }
    assert loci[..i] == loci;
    FillLastWins(PlacementEntries(ps));
    PlacedKeys(chrs, loci, ps, randomized);
    r := Ok(randomized);
  }

  /** Every locus is filed under the chromosome it was placed on. */
  lemma PlacedKeys(chrs: seq<ChromLength>, loci: seq<LocusLength>, ps: seq<Placement>,
                   table: NestedMap<RandomCluster>)
    requires Placements(chrs, loci, ps) && LastWins(PlacementEntries(ps), table)
    ensures forall i :: 0 <= i < |loci| ==> ps[i].chrom in table && loci[i].name in table[ps[i].chrom]
  {
    forall i | 0 <= i < |loci|
      ensures ps[i].chrom in table && loci[i].name in table[ps[i].chrom]
    {
      PlacementAt(chrs, loci, ps, i);
    }
  }

  /** Every cluster of a randomized table has the length of a locus of that name, ends
      `length` after it starts, and lies within `[0, length]` of a chromosome of that
      name that is longer than it. */
  lemma RandomizedContained(chrs: seq<ChromLength>, loci: seq<LocusLength>,
                            table: NestedMap<RandomCluster>, c: string, k: string)
    requires RandomizedFrom(chrs, loci, table)
    requires c in table && k in table[c]
    ensures var rc := table[c][k];
      && rc.stop - rc.start == rc.length
      && (exists i :: 0 <= i < |loci| && loci[i].name == k && loci[i].length == rc.length)
      && (exists i :: 0 <= i < |chrs| && chrs[i].name == c && chrs[i].length > rc.length
                      && 0 <= rc.start && rc.stop <= chrs[i].length)
  {
    var ps: seq<Placement> :| Placements(chrs, loci, ps) && table == FillLast(PlacementEntries(ps));
    var w := FillLastValue(PlacementEntries(ps), c, k);
    var rc := table[c][k];
    PlacedValue(chrs, loci, ps, w, rc);
    assert loci[w].name == k && loci[w].length == rc.length;
    var i :| 0 <= i < |chrs| && chrs[i].name == c && chrs[i].length > rc.length
             && 0 <= rc.start && rc.stop <= chrs[i].length;
  }

  /** The value filed from placement `w` satisfies the containment facts. */
  lemma PlacedValue(chrs: seq<ChromLength>, loci: seq<LocusLength>, ps: seq<Placement>, w: nat,
                    rc: RandomCluster)
    requires Placements(chrs, loci, ps) && w < |ps|
    requires rc == PlacementEntries(ps)[w].value
    ensures rc.stop - rc.start == rc.length
    ensures loci[w].name == PlacementEntries(ps)[w].key && loci[w].length == rc.length
    ensures exists i :: 0 <= i < |chrs| && chrs[i].name == PlacementEntries(ps)[w].chrom
                        && chrs[i].length > rc.length && 0 <= rc.start && rc.stop <= chrs[i].length
  {
    PlacementAt(chrs, loci, ps, w);
  }

  lemma PlacementAt(chrs: seq<ChromLength>, loci: seq<LocusLength>, ps: seq<Placement>, w: nat)
    requires Placements(chrs, loci, ps) && w < |ps|
    ensures var e := PlacementEntries(ps)[w];
      && e.chrom == ps[w].chrom && e.key == ps[w].name && e.value == ps[w].cluster
      && Placed(chrs, loci[w], ps[w])
  {
  }

  /** `overlap_randomized_clusters`: the annotation table against one randomized table,
      as the row `[upstream, body, downstream]`. */
  method OverlapRandomizedClusters(anno: NestedMap<Interval>,
                                   randomized: NestedMap<RandomCluster>, cfg: ZoneConfig)
    returns (overlaps: seq<int>)
    ensures overlaps == AsRow(OverlapCounts(cfg, anno, AnnotationSpan, randomized, RandomStart))
  {
    var t := CountOverlaps(cfg, anno, AnnotationSpan, randomized, RandomStart);
    overlaps := AsRow(t);
  }

  /** The number of iterations of `for i in range(bootstraps)`. */
  function Trials(bootstraps: int): nat
  {
    if bootstraps > 0 then bootstraps else 0
  }

  /** Every locus fits on some chromosome. */
  ghost predicate AllFit(chrs: seq<ChromLength>, loci: seq<LocusLength>)
  {
    forall j :: 0 <= j < |loci| ==> HasRoom(chrs, loci[j].length)
  }

  /** `e` names the first locus that fits on no chromosome. */
  ghost predicate FirstMisfit(chrs: seq<ChromLength>, loci: seq<LocusLength>, e: Error)
  {
    exists i ::
      && 0 <= i < |loci| && !HasRoom(chrs, loci[i].length)
      && e == NoSuitableChromosome(loci[i].name)
      && forall j :: 0 <= j < i ==> HasRoom(chrs, loci[j].length)
  }

  /** Row `j` is the tally of the annotation against `trials[j]`, a table the
      randomization can give, for every trial so far. */
  ghost predicate TrialRows(chrs: seq<ChromLength>, loci: seq<LocusLength>,
                            anno: NestedMap<Interval>, cfg: ZoneConfig,
                            trials: seq<NestedMap<RandomCluster>>, rows: seq<seq<int>>)
  {
    && |rows| == |trials|
    && forall j :: 0 <= j < |trials| ==>
         && RandomizedFrom(chrs, loci, trials[j])
         && rows[j] == AsRow(OverlapCounts(cfg, anno, AnnotationSpan, trials[j], RandomStart))
  }

  lemma TrialRowsStep(chrs: seq<ChromLength>, loci: seq<LocusLength>,
                      anno: NestedMap<Interval>, cfg: ZoneConfig,
                      trials: seq<NestedMap<RandomCluster>>, rows: seq<seq<int>>,
                      table: NestedMap<RandomCluster>, row: seq<int>)
    requires TrialRows(chrs, loci, anno, cfg, trials, rows)
    requires RandomizedFrom(chrs, loci, table)
    requires row == AsRow(OverlapCounts(cfg, anno, AnnotationSpan, table, RandomStart))
    ensures TrialRows(chrs, loci, anno, cfg, trials + [table], rows + [row])
  {
  }

  /** Every bootstrap row has three counters, none above the number of (feature,
      cluster) pairs of its trial, and a counter whose zone is switched off is zero. */
  lemma TrialRowsBounds(chrs: seq<ChromLength>, loci: seq<LocusLength>,
                        anno: NestedMap<Interval>, cfg: ZoneConfig,
                        trials: seq<NestedMap<RandomCluster>>, rows: seq<seq<int>>, j: nat)
    requires TrialRows(chrs, loci, anno, cfg, trials, rows) && j < |rows|
    ensures |rows[j]| == 3
    ensures var n := PairCount(anno, trials[j]);
      0 <= rows[j][0] <= n && 0 <= rows[j][1] <= n && 0 <= rows[j][2] <= n
    ensures cfg.upstreamBp <= 0 ==> rows[j][0] == 0
    ensures !cfg.featureBody ==> rows[j][1] == 0
    ensures cfg.downstreamBp <= 0 ==> rows[j][2] == 0
  {
    OverlapCountsBounds(cfg, anno, AnnotationSpan, trials[j], RandomStart);
  }

  /** The loop `for i in range(bootstraps)`: a fresh randomization per trial, counted
      against the annotation, one row per trial in trial order. The randomization of
      the first trial fails when some locus fits nowhere, and then every one would. */
  method RunTrials(loci: seq<LocusLength>, chrs: seq<ChromLength>, anno: NestedMap<Interval>,
                   cfg: ZoneConfig, bootstraps: int)
    returns (r: Result<seq<seq<int>>>, ghost trials: seq<NestedMap<RandomCluster>>)
    ensures r.Ok? <==> (bootstraps > 0 ==> AllFit(chrs, loci))
    ensures r.Err? ==> exists i :: 0 <= i < |loci| && r.error == NoSuitableChromosome(loci[i].name)
    ensures r.Err? ==> FirstMisfit(chrs, loci, r.error)
    ensures r.Ok? ==> |r.value| == Trials(bootstraps)
    ensures r.Ok? ==> TrialRows(chrs, loci, anno, cfg, trials, r.value)
  {
    trials := [];
    var rows: seq<seq<int>> := [];
    var i := 0;
    while i < bootstraps
      invariant 0 <= i <= Trials(bootstraps) && |rows| == i
      invariant i > 0 ==> AllFit(chrs, loci)
      invariant TrialRows(chrs, loci, anno, cfg, trials, rows)
    {
      var randomizedClusters, ps := RandomizeClusters(loci, chrs);
      if randomizedClusters.Err? {
        return Err(randomizedClusters.error), trials;
      }
      assert RandomizedFrom(chrs, loci, randomizedClusters.value) by {
        assert Placements(chrs, loci, ps);
      }
      var overlaps := OverlapRandomizedClusters(anno, randomizedClusters.value, cfg);
      TrialRowsStep(chrs, loci, anno, cfg, trials, rows, randomizedClusters.value, overlaps);
      rows := rows + [overlaps];
      trials := trials + [randomizedClusters.value];
      i := i + 1;
    }
    return Ok(rows), trials;
  }

  /** The three inputs parse, and every locus fits on some chromosome unless no trial
      is run: exactly the runs that write all their rows. */
  ghost predicate BootstrapSucceeds(lociRows: seq<Row>, fastaLines: seq<string>,
                                    annoRows: seq<Row>, feature: string, bootstraps: int)
  {
    && lociRows != [] && AllOk(lociRows[1..], ParseLociRow)
    && ChromosomeLengths(fastaLines).Ok?
    && AllOk(annoRows, GtfRows(feature))
    && (bootstraps > 0 ==> forall i :: 1 <= i < |lociRows| ==>
          HasRoom(ChromosomeLengths(fastaLines).value, ParseLociRow(lociRows[i]).value.length))
  }

  /** Fitting, stated on the parsed loci or on the rows they come from. */
  lemma AllFitRows(lociRows: seq<Row>, loci: seq<LocusLength>, chrs: seq<ChromLength>)
    requires lociRows != [] && AllOk(lociRows[1..], ParseLociRow)
    requires |loci| == |lociRows| - 1
    requires forall i :: 0 <= i < |loci| ==> loci[i] == ParseLociRow(lociRows[i + 1]).value
    ensures AllFit(chrs, loci) <==>
      forall i :: 1 <= i < |lociRows| ==> HasRoom(chrs, ParseLociRow(lociRows[i]).value.length)
  {
    if AllFit(chrs, loci) {
      forall i | 1 <= i < |lociRows| ensures HasRoom(chrs, ParseLociRow(lociRows[i]).value.length) {
        assert lociRows[1..][i - 1] == lociRows[i];
        assert loci[i - 1] == ParseLociRow(lociRows[i]).value;
      }
    }
  }

  /** `bootstrapper`: read the loci, the chromosome lengths and the annotation once,
      then run `bootstraps` trials, each a fresh randomization counted against the
      annotation, writing one row per trial in trial order. */
  method Bootstrapper(lociRows: seq<Row>, fastaLines: seq<string>, annoRows: seq<Row>,
                      feature: string, cfg: ZoneConfig, bootstraps: int)
    returns (r: Result<seq<seq<int>>>, ghost loci: seq<LocusLength>,
             ghost anno: NestedMap<Interval>, ghost trials: seq<NestedMap<RandomCluster>>)
    ensures r.Ok? <==> BootstrapSucceeds(lociRows, fastaLines, annoRows, feature, bootstraps)
    ensures r.Ok? ==>
      && |loci| == |lociRows| - 1
      && (forall i :: 0 <= i < |loci| ==> loci[i] == ParseLociRow(lociRows[i + 1]).value)
      && LastWins(Kept(annoRows, GtfRows(feature)), anno)
      && |r.value| == Trials(bootstraps)
      && TrialRows(ChromosomeLengths(fastaLines).value, loci, anno, cfg, trials, r.value)
    ensures lociRows == [] ==> r == Err(EmptyInput)
    ensures lociRows != [] && !AllOk(lociRows[1..], ParseLociRow) ==>
      r.Err? && FirstFailure(lociRows[1..], ParseLociRow, r.error)
    ensures lociRows != [] && AllOk(lociRows[1..], ParseLociRow) ==>
      && |loci| == |lociRows| - 1
      && forall i :: 0 <= i < |loci| ==> loci[i] == ParseLociRow(lociRows[i + 1]).value
    ensures lociRows != [] && AllOk(lociRows[1..], ParseLociRow) &&
            ChromosomeLengths(fastaLines).Err? ==>
      r == Err(ChromosomeLengths(fastaLines).error)
    ensures lociRows != [] && AllOk(lociRows[1..], ParseLociRow) &&
            ChromosomeLengths(fastaLines).Ok? && !AllOk(annoRows, GtfRows(feature)) ==>
      r.Err? && FirstFailure(annoRows, GtfRows(feature), r.error)
    ensures lociRows != [] && AllOk(lociRows[1..], ParseLociRow) &&
            ChromosomeLengths(fastaLines).Ok? && AllOk(annoRows, GtfRows(feature)) && r.Err? ==>
      FirstMisfit(ChromosomeLengths(fastaLines).value, loci, r.error)
  {
    loci, anno, trials := [], map[], [];
    var shortstackLoci := GetShortstackClusters(lociRows);
    if shortstackLoci.Err? {
      return Err(shortstackLoci.error), loci, anno, trials;
    }
    loci := shortstackLoci.value;
    var chrLengths := GetChromosomeLengths(fastaLines);
    if chrLengths.Err? {
      return Err(chrLengths.error), loci, anno, trials;
    }
    var gtfFeatures := ParseGtf(annoRows, feature);
    if gtfFeatures.Err? {
      return Err(gtfFeatures.error), loci, anno, trials;
    }
    anno := gtfFeatures.value;
    AllFitRows(lociRows, loci, chrLengths.value);
    r, trials := RunTrials(shortstackLoci.value, chrLengths.value, gtfFeatures.value, cfg, bootstraps);
  }
}
