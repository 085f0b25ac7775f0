# ShortStack cluster / feature overlap counts, modelled in Dafny

Two Python scripts count where the start positions of small-RNA clusters fall
relative to genomic features.

- `shortstack_full_report_deseq2_results_overlap.py` reads the clusters of a
  ShortStack full report and the features of an annotated DESeq2 results file. It
  writes one row `[upstream, body, downstream]`.
- `shortstack_full_report_randomize_feature_overlaps.py` reads ShortStack loci, the
  chromosome lengths of a genome FASTA file and the features of a GTF annotation.
  On each bootstrap trial it places every locus at random on a chromosome that is
  long enough, keeping its length. It then counts the placed loci against the
  features, writing one row per trial.

Both scripts use the same rule. For every feature and every cluster on a
chromosome that both tables hold, the cluster's start is tested against three
zones. The upstream zone is `[start - up, start]` and needs `up > 0`. The body zone
is `[start, stop]` and needs the body flag. The downstream zone is
`[stop, stop + down]` and needs `down > 0`. All bounds are inclusive. Each zone
that holds adds one to its counter.

Layout, one module per file:

- `results.dfy` (module `Results`): `Option`, `Result`, and the errors the scripts raise
- `text.dfy` (module `Text`): `str.split`, `strip`, `rstrip`, `s[k:]`, `int(s)`, `str(n)`
- `loci.dfy` (module `Loci`): the `chrom:start-stop` locus string
- `records.dfy` (module `Records`): chromosome -> id -> value tables, first-wins and last-wins filing, the row loops
- `fasta.dfy` (module `Fasta`): `get_chromosome_lengths`
- `overlap.dfy` (module `Overlap`): the zone test, the three nested counting loops, and their specification
- `deseq2_overlap.dfy` (module `Deseq2Overlap`): the report and results parsers and `overlap_shortstack_results`
- `randomize_overlaps.dfy` (module `RandomizeOverlaps`): loci, GTF and GFF3 parsers, `randomize_clusters`, `overlap_randomized_clusters`, `bootstrapper`

Python dictionaries are Dafny maps. The counting loops visit the keys of a map in
an unspecified order. They are specified by sums over key sets, proved independent
of the visiting order (`ClusterSumRemove` and its siblings). Random draws are
nondeterministic choices (`:|`) restricted to the ranges the source draws from. An
input file is a sequence of rows already split into columns; a FASTA file is a
sequence of lines, each with its end-of-line character. Errors the source raises
are `Err` values, produced in the order Python evaluates the failing expressions.

Notes on the scripts' behaviour:

- `parse_gtf` and `parse_gff` keep the last row of a duplicate id, not the first.
- In a locus string the start is converted before the stop is looked for. A
  non-integer start is `InvalidInteger` even when there is no `-`; with an integer
  start, a missing `-` is `MalformedLocus` (the `IndexError` of `split('-')[1]`).
- In `get_chromosome_lengths`, `groupby` alternates runs of header lines and runs of
  sequence lines. A header with no sequence lines after it gives no record. Of two
  header lines in a row, only the first is read (`next(group)`): the second name is
  lost, and the first takes the sequence that follows (`Fasta.ConsecutiveHeaders`).
- The loop in `randomize_clusters` does not detect a locus that fits nowhere.
  It draws forever, or raises `IndexError` on an empty length table. Both are modelled
  as `NoSuitableChromosome`.
- The randomize script uses three names it never defines: `gtf_dict`, `anno_dict`
  and `get_randomized_clusters`. The model uses what they evidently mean: the
  annotation table that was passed in, and `randomize_clusters`.

## Model

| member | source | states |
|---|---|---|
| `Loci.ParseLocus` | shortstack_full_report_deseq2_results_overlap.py:21-23 | a locus without `:` is `MalformedLocus`; otherwise a non-integer start is `InvalidInteger`, an integer start without `-` is `MalformedLocus`, a non-integer stop is `InvalidInteger`, and else parsing succeeds; on success the chromosome is the text before the first `:`, and start and stop are `int()` of the first two `-` pieces after it |
| `Loci.ParseFormatLocus` | shortstack_full_report_deseq2_results_overlap.py:21-23 | reading back `chrom:start-stop` written from non-negative coordinates gives the chromosome, start and stop |
| `Text.Split` | shortstack_full_report_deseq2_results_overlap.py:21 | `split` on one character gives at least one piece, no piece holds the separator, joining the pieces gives the input back, and there are two or more pieces exactly when the separator occurs |
| `Text.SplitJoin` | shortstack_full_report_deseq2_results_overlap.py:21-23 | splitting undoes joining pieces that hold no separator |
| `Text.ParseIntOfString` | shortstack_full_report_deseq2_results_overlap.py:22-23 | `int(str(n)) == n` for every integer |
| `Deseq2Overlap.ParseReportRow` | shortstack_full_report_deseq2_results_overlap.py:20-25 | an empty row misses column 0; a bad locus gives its error before the name is read; a one-column row misses column 1; a parsed row is filed under the locus chromosome and column 1, with the locus start and stop, and carries columns 2 onward |
| `Deseq2Overlap.ParseReportRowOfLocus` | shortstack_full_report_deseq2_results_overlap.py:21-25 | a row written from a locus and a name is filed under the locus chromosome and that name, with the locus start and stop |
| `Deseq2Overlap.ParseShortstackFullReport` | shortstack_full_report_deseq2_results_overlap.py:15-32 | no header row is `EmptyInput`; otherwise the result is the first failing row's error, or the table in which the first row of each (chromosome, name) pair wins |
| `Deseq2Overlap.ReportKeepsFirst` | shortstack_full_report_deseq2_results_overlap.py:26-31 | a row whose chromosome and name no earlier row has is stored as read; later duplicates change nothing |
| `Deseq2Overlap.ParseResultsRow` | shortstack_full_report_deseq2_results_overlap.py:40-46 | a short row misses its first absent column (column 4 only once column 3 is an integer); a non-integer column 3 or 4 is `InvalidInteger`; a parsed row files the integers of columns 3 and 4 as start and stop, under columns 0 and 1, with the type from column 2 and columns 6 onward carried along |
| `Deseq2Overlap.ParseResultsRowOfFeature` | shortstack_full_report_deseq2_results_overlap.py:40-52 | a row written from a feature gives that feature back, and column 5 is dropped |
| `Deseq2Overlap.ParseDeseq2Results` | shortstack_full_report_deseq2_results_overlap.py:35-53 | no header row is `EmptyInput`; otherwise the result is the first failing row's error, or the table in which the first row of each (chromosome, id) pair wins |
| `Deseq2Overlap.ResultsKeepsFirst` | shortstack_full_report_deseq2_results_overlap.py:44-52 | the first row of a (chromosome, id) pair is stored with the coordinates of its columns 3 and 4 |
| `Deseq2Overlap.OverlapShortstackResults` | shortstack_full_report_deseq2_results_overlap.py:56-81 | exactly one output row, `[upstream, body, downstream]` of the tally of the results table against the report table |
| `Deseq2Overlap.FullReportOverlap` | shortstack_full_report_deseq2_results_overlap.py:122-126 | the report is parsed first: no report rows is `EmptyInput`, a bad report row gives the first failing row's error; then no results rows is `EmptyInput` and a bad results row gives the first failing row's error; the run succeeds exactly when both files parse, and then writes the one row of the first-wins tables |
| `Overlap.Classify` | shortstack_full_report_deseq2_results_overlap.py:72-77 | a pair adds 1 to a zone's counter exactly when the cluster start lies in that zone, and 0 otherwise |
| `Overlap.ZonesIndependent` | shortstack_full_report_deseq2_results_overlap.py:72-77 | each zone's outcome depends only on its own setting: the body test ignores `up` and `down` |
| `Overlap.BoundsInclusive` | shortstack_full_report_deseq2_results_overlap.py:72-77 | a start at the feature start is upstream and body; a start at the feature stop is body and downstream; both outer ends of the windows count |
| `Overlap.CountClusters` | shortstack_full_report_deseq2_results_overlap.py:70-77 | the innermost loop adds to the counters it is given the sum of the pair outcomes of one feature and every cluster |
| `Overlap.CountFeatures` | shortstack_full_report_deseq2_results_overlap.py:67-77 | the middle loop adds the sum over every feature of a chromosome |
| `Overlap.CountChromosome` | shortstack_full_report_deseq2_results_overlap.py:66-77 | a chromosome adds its features' sums only when the cluster table has it |
| `Overlap.CountOverlaps` | shortstack_full_report_randomize_feature_overlaps.py:108-124 | the three nested loops, from counters at zero, compute the specified tally |
| `Overlap.OverlapCountsBounds` | shortstack_full_report_deseq2_results_overlap.py:67-77 | no counter exceeds the number of visited pairs, the three add up to at most three per pair, and a switched-off zone's counter stays 0 |
| `Overlap.MissingChromosome` | shortstack_full_report_deseq2_results_overlap.py:65-66 | a chromosome that only the feature table holds adds nothing |
| `Overlap.DisjointChromosomes` | shortstack_full_report_deseq2_results_overlap.py:65-66 | tables without a common chromosome give `[0, 0, 0]` |
| `Overlap.ClusterStopsIgnored` | shortstack_full_report_deseq2_results_overlap.py:71 | cluster tables that agree on every cluster start give the same tally, whatever their stops |
| `Overlap.WorkedExample` | shortstack_full_report_deseq2_results_overlap.py:65-78 | feature `[90, 120]`, cluster starts 100 and 500, `up = 20`, `down = 0`, body on: the tally is `[0, 1, 0]` |
| `Fasta.GetChromosomeLengths` | shortstack_full_report_randomize_feature_overlaps.py:16-29 | the single pass over header runs and sequence runs gives the records of the grouping specification |
| `Fasta.ChromosomeLengthsOfLayout` | shortstack_full_report_randomize_feature_overlaps.py:19-28 | for a file of `>name` lines each followed by sequence lines, each name is paired with the number of non-newline characters before the next header |
| `Fasta.ConsecutiveHeaders` | shortstack_full_report_randomize_feature_overlaps.py:19-23 | of two header lines in a row, the first names the sequence that follows |
| `RandomizeOverlaps.ParseLociRow` | shortstack_full_report_randomize_feature_overlaps.py:37-43 | a row with fewer than two columns misses column 1; otherwise a bad locus gives its error; a parsed row keeps the name from column 1 and its length is the parsed stop minus the parsed start |
| `RandomizeOverlaps.ParseLociRowOfLocus` | shortstack_full_report_randomize_feature_overlaps.py:39-41 | the locus length is the stop minus the start written after `:` |
| `RandomizeOverlaps.GetShortstackClusters` | shortstack_full_report_randomize_feature_overlaps.py:32-44 | no header row is `EmptyInput`; otherwise one (name, length) per row, in file order, or the first failing row's error |
| `RandomizeOverlaps.AttributeIdOfKey` | shortstack_full_report_randomize_feature_overlaps.py:79 | slicing off `k` characters of the first `;` field gives the value of a first attribute whose key takes exactly `k` characters |
| `RandomizeOverlaps.ParseGtfRow` | shortstack_full_report_randomize_feature_overlaps.py:74-82 | column 2 is read on every row; rows of another type are dropped; a row of the requested type is kept exactly when it parses; its errors come in the source's order: column 3 missing, column 3 not an integer, column 4 missing, column 4 not an integer, column 8 missing; a kept row is filed under column 0 and the column-8 id after 8 characters, with the integers of columns 3 and 4 |
| `RandomizeOverlaps.ParseGtf` | shortstack_full_report_randomize_feature_overlaps.py:70-83 | the first failing row's error, or the table of the kept rows in which a later duplicate id overwrites |
| `RandomizeOverlaps.ParseGffRow` | shortstack_full_report_randomize_feature_overlaps.py:89-102 | comment rows and rows of another type are dropped; a non-comment row of the requested type is kept exactly when it parses; its errors come in the source's order: column 3 missing, column 3 not an integer, column 4 missing, column 4 not an integer, strand column 6 missing, column 8 missing; its id drops 3 characters |
| `RandomizeOverlaps.ParseGff` | shortstack_full_report_randomize_feature_overlaps.py:86-103 | the first failing row's error, or the last-wins table of the kept rows |
| `RandomizeOverlaps.RandomizeClusters` | shortstack_full_report_randomize_feature_overlaps.py:47-67 | fails exactly when some locus fits on no chromosome, naming the first such locus; otherwise each locus gets an admissible placement, and the table is their last-wins table holding every locus under its chromosome |
| `RandomizeOverlaps.PlaceStep` | shortstack_full_report_randomize_feature_overlaps.py:52-66 | a chromosome longer than the locus, a start in `[0, len - L]` and `stop = start + L` make an admissible placement, filed by overwriting |
| `RandomizeOverlaps.RandomizedContained` | shortstack_full_report_randomize_feature_overlaps.py:58-66 | every cluster of a randomized table has `stop - start == length`, the length of a locus of its name, and `0 <= start`, `stop <= len` on a chromosome of its name longer than it |
| `RandomizeOverlaps.OverlapRandomizedClusters` | shortstack_full_report_randomize_feature_overlaps.py:106-124 | the row is the tally of the annotation table against the randomized table |
| `RandomizeOverlaps.RunTrials` | shortstack_full_report_randomize_feature_overlaps.py:136-143 | with `n` trials requested, exactly `max(n, 0)` rows, in trial order, each the tally of a fresh admissible randomization; failure only when some locus fits nowhere, and then the error names the first such locus |
| `RandomizeOverlaps.TrialRowsBounds` | shortstack_full_report_randomize_feature_overlaps.py:139-143 | every bootstrap row has three counters bounded by its trial's pair count, and switched-off zones give 0 |
| `RandomizeOverlaps.Bootstrapper` | shortstack_full_report_randomize_feature_overlaps.py:127-144 | the steps fail in the source's order, each with its own error: an empty loci file is `EmptyInput`, a bad loci row gives the first failing row's error, then the FASTA error, then the first failing GTF row's error, then `NoSuitableChromosome` of the first locus that fits nowhere; the run succeeds exactly when loci, FASTA and GTF parse and, if any trial runs, every locus fits, and then it writes one row per trial for the parsed loci and the last-wins annotation table |
| `Records.CollectFirstWins` | shortstack_full_report_deseq2_results_overlap.py:26-31 | the row loop with guarded inserts gives the first failure, or the table where the first entry of each pair wins |
| `Records.CollectLastWins` | shortstack_full_report_randomize_feature_overlaps.py:80-82 | the row loop with overwriting inserts gives the first failure, or the table where the last entry of each pair wins |
| `Records.CollectAll` | shortstack_full_report_randomize_feature_overlaps.py:37-43 | the append loop keeps one record per row, in order, or stops at the first failing row |
| `Records.InsertLastInPlace` | shortstack_full_report_randomize_feature_overlaps.py:61-63 | creating the inner dictionary when needed and then assigning is the overwriting insert |
| `Records.FirstWinsUnique` | shortstack_full_report_deseq2_results_overlap.py:26-31 | the first-wins table of a sequence of entries is unique |
| `Records.LastWinsUnique` | shortstack_full_report_randomize_feature_overlaps.py:80-82 | the last-wins table of a sequence of entries is unique |
| `Text.LStripSuffix` | shortstack_full_report_randomize_feature_overlaps.py:23 | `strip('>')` on the left drops exactly the leading `>` characters, leaving a suffix that does not start with one |
| `Text.RStripPrefix` | shortstack_full_report_randomize_feature_overlaps.py:23 | `rstrip('\n')` drops exactly the trailing newlines, leaving a prefix that does not end with one |
| `Records.FillLastWins` | shortstack_full_report_randomize_feature_overlaps.py:61-66 | filing entries in order with overwriting gives their last-wins table |

## Left out

- Command-line parsing and output file names (`ArgumentParser`, `parse_args`, the
  names built from the inputs) are configuration and are not modelled.
- Opening files, `csv.reader`, `csv.writer` and `print` are not modelled. Inputs are
  rows already split into columns, and outputs are the returned data rows; the header
  row `upstream,body,downstream` written before them is not modelled.
- CSV quoting is not modelled. `IsComment` tests the first column of a split row,
  while the source tests the raw line; they differ only for a line that starts with a
  quote.
- Python's `random` module is not modelled. `random.choice` and `random.randint` are
  nondeterministic choices within their ranges, so uniformity is not stated.
- `RandomizeOverlaps.RandomizeClusters`: when no chromosome is longer than a locus,
  the source never returns, or raises `IndexError` on an empty table. The model
  returns `NoSuitableChromosome` for that locus instead.
- `RandomizeOverlaps.Bootstrapper`: the source script passes both annotation kinds to
  `parse_gtf`, so the model does the same. `RandomizeOverlaps.ParseGff` is modelled
  on its own, and it is never called by the bootstrap.
- Undefined names in the randomize script (`gtf_dict`, `anno_dict`,
  `get_randomized_clusters`) would raise `NameError` at run time. That behaviour is
  not modelled; the evident meaning is.
- The order in which Python visits dictionary keys is not modelled. The counters are
  sums, so the order does not change them.
- `Text.ParseInt` accepts what `int()` accepts except underscores between digits and
  non-ASCII digits.
