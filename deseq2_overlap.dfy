/** The script that counts how many cluster starts of a ShortStack full report fall
    upstream of, in the body of, or downstream of the features of a DESeq2 results file
    annotated with coordinates. Both files are comma-delimited with a header row. */
module Deseq2Overlap {
  import opened Results
  import opened Text
  import opened Loci
  import opened Records
  import opened Overlap

  /** `[cluster_start, cluster_stop] + shortstack_info`: what the report table stores
      for a cluster. */
  datatype ClusterInfo = ClusterInfo(start: int, stop: int, info: seq<string>)

  /** `[feature_start, feature_stop, feature_type] + deseq2_info`: what the results
      table stores for a feature. */
  datatype FeatureInfo = FeatureInfo(start: int, stop: int, featureType: string,
                                     info: seq<string>)

  /** Element `[0]` of a stored cluster: the only coordinate the overlap test reads. */
  function ClusterStart(c: ClusterInfo): int { c.start }

  /** Elements `[0]` and `[1]` of a stored feature. */
  function FeatureSpan(f: FeatureInfo): Interval { Interval(f.start, f.stop) }

  /** One report row: the locus string in column 0 gives the chromosome and the
      coordinates, column 1 the cluster name, and the columns after them are carried
      along. The locus is read before the name, as the source does. */
  function ParseReportRow(row: Row): (r: Result<Option<Entry<ClusterInfo>>>)
    ensures |row| == 0 ==> r == Err(MissingColumn(0))
    ensures |row| >= 1 && ParseLocus(row[0]).Err? ==> r == Err(ParseLocus(row[0]).error)
    ensures |row| == 1 && ParseLocus(row[0]).Ok? ==> r == Err(MissingColumn(1))
    ensures r.Ok? <==> |row| >= 2 && ParseLocus(row[0]).Ok?
    ensures r.Ok? ==> r.value.Some? && r.value.value.key == row[1] &&
                      r.value.value.value.info == row[2..]
    ensures r.Ok? ==> |row| >= 2 && ParseLocus(row[0]).Ok? &&
                      var l := ParseLocus(row[0]).value;
                      r.value.value == Entry(l.chrom, row[1], ClusterInfo(l.start, l.stop, row[2..]))
  {
    if |row| == 0 then Err(MissingColumn(0))
    else
      match ParseLocus(row[0])
      case Err(e) => Err(e)
      case Ok(locus) =>
        if |row| < 2 then Err(MissingColumn(1))
        else Ok(Some(Entry(locus.chrom, row[1], ClusterInfo(locus.start, locus.stop, row[2..]))))
  }

  /** A report row written from a locus, a name and extra columns is read back as that
      locus under that name. */
  lemma ParseReportRowOfLocus(l: Locus, name: string, info: seq<string>)
    requires ':' !in l.chrom && l.start >= 0 && l.stop >= 0
    ensures ParseReportRow([FormatLocus(l), name] + info) ==
            Ok(Some(Entry(l.chrom, name, ClusterInfo(l.start, l.stop, info))))
  {
    var row := [FormatLocus(l), name] + info;
    ParseFormatLocus(l);
    assert row[0] == FormatLocus(l) && row[1] == name && row[2..] == info;
  }

  /** One results row: chromosome, feature id and feature type in columns 0 to 2, the
      coordinates in columns 3 and 4, column 5 skipped, the rest carried along. */
  function ParseResultsRow(row: Row): (r: Result<Option<Entry<FeatureInfo>>>)
    ensures |row| < 4 ==> r == Err(MissingColumn(|row|))
    ensures |row| >= 4 && ParseInt(row[3]).None? ==> r == Err(InvalidInteger(row[3]))
    ensures r.Ok? <==> |row| >= 5 && ParseInt(row[3]).Some? && ParseInt(row[4]).Some?
    ensures r.Ok? ==> r.value.Some? && r.value.value.chrom == row[0] &&
                      r.value.value.key == row[1] &&
                      r.value.value.value.featureType == row[2] &&
                      ParseInt(row[3]) == Some(r.value.value.value.start) &&
                      ParseInt(row[4]) == Some(r.value.value.value.stop)
    ensures |row| == 4 && ParseInt(row[3]).Some? ==> r == Err(MissingColumn(4))
    ensures |row| >= 5 && ParseInt(row[3]).Some? && ParseInt(row[4]).None? ==>
              r == Err(InvalidInteger(row[4]))
    ensures r.Ok? ==> r.value.Some? && r.value.value.value.info == DropPrefix(row, 6)
  {
    if |row| < 4 then Err(MissingColumn(|row|))
    else
      match ParseInt(row[3])
      case None => Err(InvalidInteger(row[3]))
      case Some(start) =>
        if |row| < 5 then Err(MissingColumn(4))
        else
          match ParseInt(row[4])
          case None => Err(InvalidInteger(row[4]))
          case Some(stop) =>
            Ok(Some(Entry(row[0], row[1], FeatureInfo(start, stop, row[2], DropPrefix(row, 6)))))
  }

  /** A results row with written coordinates is read back with those coordinates, and
      whatever column 5 holds is dropped. */
  lemma ParseResultsRowOfFeature(chrom: string, id: string, featureType: string,
                                 start: int, stop: int, skipped: string, info: seq<string>)
    ensures ParseResultsRow([chrom, id, featureType, IntToString(start), IntToString(stop),
                             skipped] + info) ==
            Ok(Some(Entry(chrom, id, FeatureInfo(start, stop, featureType, info))))
  {
    var row := [chrom, id, featureType, IntToString(start), IntToString(stop), skipped] + info;
    ParseIntOfString(start);
    ParseIntOfString(stop);
    assert row[3] == IntToString(start) && row[4] == IntToString(stop);
    assert DropPrefix(row, 6) == info;
  }

  /** `parse_shortstack_full_report`: skip the header, then file every row's cluster
      under its chromosome and name, keeping the first of each pair. */
  method ParseShortstackFullReport(rows: seq<Row>) returns (r: Result<NestedMap<ClusterInfo>>)
    ensures rows == [] ==> r == Err(EmptyInput)
    ensures rows != [] ==> (r.Ok? <==> AllOk(rows[1..], ParseReportRow))
    ensures rows != [] && r.Err? ==> FirstFailure(rows[1..], ParseReportRow, r.error)
    ensures r.Ok? ==> FirstWins(Kept(rows[1..], ParseReportRow), r.value)
  {
    if rows == [] {
      return Err(EmptyInput);
    }
    r := CollectFirstWins(rows[1..], ParseReportRow);
  }

  /** `parse_deseq2_results`: skip the header, then file every row's feature under its
      chromosome and id, keeping the first of each pair. */
  method ParseDeseq2Results(rows: seq<Row>) returns (r: Result<NestedMap<FeatureInfo>>)
    ensures rows == [] ==> r == Err(EmptyInput)
    ensures rows != [] ==> (r.Ok? <==> AllOk(rows[1..], ParseResultsRow))
    ensures rows != [] && r.Err? ==> FirstFailure(rows[1..], ParseResultsRow, r.error)
    ensures r.Ok? ==> FirstWins(Kept(rows[1..], ParseResultsRow), r.value)
  {
    if rows == [] {
      return Err(EmptyInput);
    }
    r := CollectFirstWins(rows[1..], ParseResultsRow);
  }

  /** In the report table, a cluster whose chromosome and name no earlier row has keeps
      the coordinates of its own row; later rows with the same pair change nothing. */
  lemma ReportKeepsFirst(rows: seq<Row>, table: NestedMap<ClusterInfo>, i: nat)
    requires AllOk(rows, ParseReportRow) && FirstWins(Kept(rows, ParseReportRow), table)
    requires i < |rows|
    requires forall j :: 0 <= j < i ==>
      !SameKey(ParseReportRow(rows[j]).value.value, ParseReportRow(rows[i]).value.value)
    ensures var e := ParseReportRow(rows[i]).value.value;
      e.chrom in table && e.key in table[e.chrom] && table[e.chrom][e.key] == e.value
  {
    KeptEvery(rows, ParseReportRow);
    assert IsFirst(Kept(rows, ParseReportRow), i);
  }

  /** In the results table, a feature whose chromosome and id no earlier row has keeps
      the coordinates of its own row, read from columns 3 and 4. */
  lemma ResultsKeepsFirst(rows: seq<Row>, table: NestedMap<FeatureInfo>, i: nat)
    requires AllOk(rows, ParseResultsRow) && FirstWins(Kept(rows, ParseResultsRow), table)
    requires i < |rows|
    requires forall j :: 0 <= j < i ==>
      !SameKey(ParseResultsRow(rows[j]).value.value, ParseResultsRow(rows[i]).value.value)
    ensures rows[i][0] in table && rows[i][1] in table[rows[i][0]]
    ensures Some(table[rows[i][0]][rows[i][1]].start) == ParseInt(rows[i][3])
    ensures Some(table[rows[i][0]][rows[i][1]].stop) == ParseInt(rows[i][4])
  {
    KeptEvery(rows, ParseResultsRow);
    assert IsFirst(Kept(rows, ParseResultsRow), i);
  }

  /** The counting part of `overlap_shortstack_results`: every feature of the results
      table against every cluster of the report table on the same chromosome, giving
      the single output row `[upstream, body, downstream]`. */
  method OverlapShortstackResults(results: NestedMap<FeatureInfo>,
                                  shortstack: NestedMap<ClusterInfo>, cfg: ZoneConfig)
    returns (rows: seq<seq<int>>)
    ensures |rows| == 1
    ensures rows[0] == AsRow(OverlapCounts(cfg, results, FeatureSpan, shortstack, ClusterStart))
  {
    var overlaps := CountOverlaps(cfg, results, FeatureSpan, shortstack, ClusterStart);
    rows := [AsRow(overlaps)];
  }

  /** The script end to end on the rows of the two files: the report is parsed first,
      then the results; a parse error stops the run, otherwise one row is written. */
  method FullReportOverlap(reportRows: seq<Row>, resultsRows: seq<Row>, cfg: ZoneConfig)
    returns (r: Result<seq<seq<int>>>, ghost shortstack: NestedMap<ClusterInfo>,
             ghost results: NestedMap<FeatureInfo>)
    ensures reportRows == [] ==> r == Err(EmptyInput)
    ensures r.Ok? <==> reportRows != [] && resultsRows != [] &&
                       AllOk(reportRows[1..], ParseReportRow) &&
                       AllOk(resultsRows[1..], ParseResultsRow)
    ensures r.Ok? ==> FirstWins(Kept(reportRows[1..], ParseReportRow), shortstack) &&
                      FirstWins(Kept(resultsRows[1..], ParseResultsRow), results) &&
                      r.value == [AsRow(OverlapCounts(cfg, results, FeatureSpan, shortstack,
                                                      ClusterStart))]
    ensures reportRows != [] && !AllOk(reportRows[1..], ParseReportRow) ==>
      r.Err? && FirstFailure(reportRows[1..], ParseReportRow, r.error)
    ensures reportRows != [] && AllOk(reportRows[1..], ParseReportRow) && resultsRows == [] ==>
      r == Err(EmptyInput)
    ensures reportRows != [] && AllOk(reportRows[1..], ParseReportRow) && resultsRows != [] &&
            !AllOk(resultsRows[1..], ParseResultsRow) ==>
      r.Err? && FirstFailure(resultsRows[1..], ParseResultsRow, r.error)
  {
    shortstack, results := map[], map[];
    var report := ParseShortstackFullReport(reportRows);
    if report.Err? {
      return Err(report.error), shortstack, results;
    }
    shortstack := report.value;
    var deseq2 := ParseDeseq2Results(resultsRows);
    if deseq2.Err? {
      return Err(deseq2.error), shortstack, results;
    }
    results := deseq2.value;
    var rows := OverlapShortstackResults(deseq2.value, report.value, cfg);
    return Ok(rows), shortstack, results;
  }
}
