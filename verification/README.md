# mingo core, modelled in Dafny

mingo links a LIMS (SLIMS) to nanopore sequencing runs. This project models four
parts of it and proves properties about each:

- **The LIMS client** (`slims.dfy`, module `Slims`):
  - flattening an entity's `columns` list into a record;
  - normalising the base URL;
  - the lineage trace from a run input back to its original content records. The
    trace has a depth bound and copies the metadata per branch, and DNA Library
    nodes pick up barcodes on the way;
  - the run details: traced inputs over every step, deduplicated by `pk`;
  - the queued runs: a step-status filter, then a sort by creation date, newest
    first.

  The REST layer is replaced by a store (`Slims.Lims`) that answers each kind of
  request. A key missing from one of its maps is a request that raised.
- **The sample-sheet generator** (`samplesheet.dfy`, module `SampleSheet`): a fixed
  19-column header, then one line per traced sample. Each line has:
  - the barcode label, derived from the `NB`/`BC` i7 barcode;
  - copied fields and constant columns;
  - the lower-cased flags.
- **The coverage report** (`coverage.dfy`, module `Coverage`):
  - sample-sheet reading, keyed by barcode;
  - two yield adapters:
    - the per-read sequencing summary, with its pass filter and short/long buckets;
    - the run report, which takes the last snapshot of every barcode entry of the
      first SplitByBarcode plot and sums across acquisitions;
  - the lenient experiment-id check;
  - the output rows: coverage, the coverage filter, average lengths, the shortened
    alias, and ascending barcode order.
- **The older coverage script** (`legacy.dfy`, module `LegacyCoverage`):
  - the same walk over the run report, but bases only;
  - a strict experiment-id check;
  - a display rule that shows a whole number from 1x up;
  - the command-line argument check.

  A lemma shows that both scripts find the same barcodes with the same base totals
  in any report the coverage report accepts.

Shared helpers:
- `values.dfy` (module `Values`): Python values and truthiness, `dict.get`, `int()` on
  text, `str()`, `str.lower()`.
- `text.dfy` (module `Text`): prefix and suffix tests, `rstrip`, and Python's string
  order with `sorted()` over dictionary keys.
- `sorting.dfy` (module `Sorting`): a stable descending sort, as `list.sort(reverse=True)`
  performs it.

Each loop of the source is a method proved against a specification function:
- `FlattenEntity`, `FetchRunDetails`, `FetchQueuedRuns`;
- `Generate`;
- `ReadSheet`, `SummaryYields`, `JsonYields`, `OutputRows`, `RunCoverageAnalysis`;
- `LegacyYields`, `LegacyRows`, `CalculateCoverage`.

The lemmas then state what the source promises about those functions. Nested loops
become one method per level: entry, entries, outputs, acquisitions.

`bin/calculate_coverage.py:86-89` shows coverage from 1x up as a whole number (rounding
half to even) and below 1x with one decimal. `mingo/coverage.py:149` always shows one
decimal. Each model follows its own script: the whole-number rule is
`LegacyCoverage.DisplayOf`.

## Model

| member | source | states |
|---|---|---|
| Slims.FlattenEntity | mingo/slims.py:31-42 | the loop builds exactly the flat record of the entity (pk, then each column's value and non-null display value) |
| Slims.FlattenLastWriteWins | mingo/slims.py:36-41 | a key is in the flat record iff it is "pk" or some column writes it; the last column writing a key decides its value; pk keeps the entity's pk unless a column overwrites it |
| Slims.FlattenHasPk | mingo/slims.py:36 | every flat record has a "pk" key |
| Slims.NormalizeUrl | mingo/slims.py:11-13 | the normalised base URL is a prefix of the given URL |
| Slims.NormalizeUrlDropsRest | mingo/slims.py:11-18 | a URL ending in "/rest" plus any number of slashes becomes the bare base, so requests go to base/rest/endpoint, never base/rest/rest/endpoint |
| Slims.NormalizeUrlKeepsPlain | mingo/slims.py:11-13 | a URL without the "/rest" suffix only loses its trailing slashes |
| Slims.Trace | mingo/slims.py:111-176 | no contract; specified by Slims.TraceCases, Slims.TraceShape, Slims.TraceKeepsMeta, Slims.LibraryStampsBarcode and Slims.TraceWithinReach |
| Slims.TraceAll | mingo/slims.py:160-166 | no contract; specified by Slims.TraceAllAppend, Slims.TraceAllKeepsMeta and Slims.TraceAllWithinReach |
| Slims.Branch | mingo/slims.py:161-166 | no contract; specified by Slims.BranchCases and Slims.SiblingIsolation |
| Slims.BranchCases | mingo/slims.py:162-166 | a relation with a falsy corl_fk_from contributes nothing; otherwise its ancestor is traced one level deeper with the metadata handed down |
| Slims.CaptureSpec | mingo/slims.py:135-140 | visiting content adds exactly the barcode keys a DNA Library with a truthy field sets, with the library's values, and leaves every other metadata key unchanged |
| Slims.TraceCases | mingo/slims.py:120-176 | past depth 5 or for missing content the trace is empty; terminal types return the record with the metadata merged over it; a failed relation query returns the node with metadata; a library or pool without ingredients returns itself; any other non-terminal content returns the ingredients of its relations, so one without ingredients yields [] |
| Slims.TraceAllAppend | mingo/slims.py:160-166 | the ingredients of a concatenation of relations are the ingredients of each part, concatenated in order |
| Slims.TraceKeepsMeta | mingo/slims.py:143-146 | a metadata key passed in reaches every traced record with its value, unless some DNA Library visited below sets it again |
| Slims.TraceAllKeepsMeta | mingo/slims.py:161-166 | the same over a list of relations: a key no branch sets reaches every ingredient unchanged |
| Slims.SiblingIsolation | mingo/slims.py:161-166 | a sibling relation's records are exactly what that branch traces alone, and they carry the inherited value of a key whatever the other siblings capture |
| Slims.LibraryStampsBarcode | mingo/slims.py:135-140 | a DNA Library with a truthy i7 barcode (barcode_i7) or adapter set (barcode_adapter) stamps that value on every record traced through it, unless a deeper library sets the same key again |
| Slims.TraceShape | mingo/slims.py:143-176 | every traced record is the visited content with the metadata merged over it, or, for non-terminal content, an ingredient of its relations |
| Slims.TraceWithinReach | mingo/slims.py:120-121 | every traced record carries a pk and is the content of a node at most 5 - depth relation edges upstream of the start |
| Slims.TraceAllWithinReach | mingo/slims.py:161-166 | every ingredient of a relation list comes from a node reachable from one of the relations' truthy corl_fk_from within the remaining depth |
| Slims.DedupByPk | mingo/slims.py:209-212 | no contract; specified by Slims.DedupByPkSpec |
| Slims.DedupByPkSpec | mingo/slims.py:209-212 | the deduplicated inputs have pairwise distinct pks, every input pk is represented, each kept record is the first occurrence of its pk, and kept records keep the order of first occurrences |
| Slims.KeepUnseen | mingo/slims.py:209-212 | appending one input's ingredients with the seen set continues the deduplication of everything traced so far, and the seen set stays the set of kept pks |
| Slims.MergeInputs | mingo/slims.py:205-212 | tracing every input of one step in turn extends the deduplicated samples by that step's traced records |
| Slims.FetchRunDetails | mingo/slims.py:178-220 | a run without a record gives None; otherwise the run's flat record and the deduplication of everything traced from every input of every step, in order, stopping at the first failed input request |
| Slims.KeepQueuedFilters | mingo/slims.py:88-101 | the step-status filter succeeds iff every step request succeeds, and then keeps exactly the queued runs in input order |
| Slims.QueuedOnlyMembers | mingo/slims.py:100-101 | a run passes the filter iff it has no step or some step is not DONE |
| Slims.FetchQueuedRuns | mingo/slims.py:44-109 | the method returns the reported queued runs: [] without templates, open runs, or when a request raises; otherwise the queued runs sorted newest first |
| Slims.QueuedRuns | mingo/slims.py:56-109 | no contract; specified by Slims.QueuedRunsAreQueued and Slims.QueuedRunsOrdered |
| Slims.QueuedRunsAreQueued | mingo/slims.py:88-105 | every reported run is queued: its steps were fetched and it has none or one not DONE |
| Slims.QueuedRunsOrdered | mingo/slims.py:100-105 | with every request succeeding and a numeric creation date on every queued run, the report is a permutation of the queued open runs, non-increasing by xprn_createdOn, ties in LIMS order |
| Sorting.SortDescSpec | mingo/slims.py:104 | the descending sort is a permutation, non-increasing by key, and stable (the runs with each key keep their order) |
| Text.RStripChar | mingo/slims.py:11 | rstrip gives a prefix that does not end in the character, and only that character was dropped |
| Text.SortedKeys | mingo/coverage.py:134 | sorted() over dictionary keys has every key exactly once, in strictly ascending Python string order |
| Text.SortedKeysFirst | mingo/coverage.py:134 | the sorted keys start with the least key, followed by the sorted remaining keys |
| Values.NatToString | mingo/samplesheet.py:52 | str(n) is a non-empty digit string without a leading zero, one digit exactly below 10 |
| Values.NatRoundTrip | mingo/samplesheet.py:51 | int(str(n)) == n for every natural number |
| Values.ParseInt | mingo/samplesheet.py:51 | no contract; specified by Values.ParseIntDigits, Values.ParseIntSigned and Values.NatRoundTrip |
| Values.ParseIntDigits | mingo/samplesheet.py:51 | int() of a plain digit string is the number the digits denote |
| Values.ParseIntSigned | mingo/samplesheet.py:51 | int() of a minus or plus sign followed by digits is the signed number the digits denote |
| Values.PyInt | mingo/coverage.py:92-93 | no contract; specified by Values.PyIntReads |
| Values.PyIntReads | mingo/coverage.py:92-93 | int() of a report value: an integer is itself, a digit string its number, a boolean 0 or 1, and null raises |
| Values.Lower | mingo/samplesheet.py:82-83 | on ASCII text, lower() keeps the length, leaves no upper-case letter, and changes only upper-case letters, each to its lower-case form |
| Values.LowerBool | mingo/samplesheet.py:82-83 | str(b).lower() is "true" or "false" |
| SampleSheet.Line | mingo/samplesheet.py:64-85 | a sample's line has one cell per header column, and it fails iff its barcode_i7 is not text |
| SampleSheet.Generate | mingo/samplesheet.py:17-87 | the loop builds the sheet the generator writes: the header, then each sample's line, failing at the first sample whose line cannot be built |
| SampleSheet.SheetShape | mingo/samplesheet.py:27-85 | the sheet is the header followed by exactly one line per sample in input order, and it fails iff some barcode_i7 is not text |
| SampleSheet.LineRunColumns | mingo/samplesheet.py:65-70 | flow cell, position, product code and kit are the caller's, sample_id is empty, and experiment_id is the run's name on every line |
| SampleSheet.LineBarcodeColumns | mingo/samplesheet.py:73-74 | the barcode column holds the derived label and the i7 column holds the raw barcode_i7 |
| SampleSheet.LineSampleColumns | mingo/samplesheet.py:71-83 | alias and cntn_id both hold the sample's cntn_id, type is test_sample, and both flags are rendered lower-case |
| SampleSheet.LineCopiesFields | mingo/samplesheet.py:76-81 | the six copied columns hold the sample's field of the same name ("" when absent) |
| SampleSheet.Pad2 | mingo/samplesheet.py:52 | no contract; specified by SampleSheet.Pad2RoundTrip and SampleSheet.Pad2Negative |
| SampleSheet.Pad2RoundTrip | mingo/samplesheet.py:52 | "{:02d}" of n has at least two digits and int() reads n back |
| SampleSheet.Pad2Negative | mingo/samplesheet.py:52 | "{:02d}" of a negative number is the minus sign and the magnitude, unpadded, and int() reads it back |
| SampleSheet.BarcodeLabel | mingo/samplesheet.py:47-62 | no contract; specified by SampleSheet.BarcodeNumbering, SampleSheet.BarcodeSigned, SampleSheet.BarcodeUnparsable and SampleSheet.BarcodeFromField |
| SampleSheet.BarcodeNumbering | mingo/samplesheet.py:49-58 | NB or BC followed by digits is labelled "barcode" plus the number zero-padded to two digits (NB7 gives barcode07, BC123 gives barcode123) |
| SampleSheet.BarcodeLabelNumber | mingo/samplesheet.py:49-58 | the label's number reads back as the barcode's number |
| SampleSheet.BarcodeSigned | mingo/samplesheet.py:49-58 | NB or BC followed by a sign and digits is labelled "barcode" and "{:02d}" of the signed number (NB+7 gives barcode07, NB-5 gives barcode-5) |
| SampleSheet.BarcodeUnparsable | mingo/samplesheet.py:49-58 | NB or BC followed by text int() rejects is its own label |
| SampleSheet.BarcodeUnparsableExamples | mingo/samplesheet.py:49-58 | "NB" alone and "NBx" are each their own label |
| SampleSheet.BarcodeFromField | mingo/samplesheet.py:61-62 | an i7 barcode without the NB/BC prefix (the empty default included) leaves the label to cntn_barCode, "" when absent |
| SampleSheet.Flag | mingo/samplesheet.py:82-83 | no contract; specified by SampleSheet.FlagRendering |
| SampleSheet.FlagRendering | mingo/samplesheet.py:82-83 | an absent flag renders "false" and a boolean renders "true" or "false" |
| SampleSheet.ExampleSheet | tests/test_samplesheet.py:11-37 | the worked sheet has one line with the run name, flow cell, alias, taxon and "true" for urgency |
| Coverage.IndexOf | mingo/coverage.py:17 | the first position of the character, or the length when it does not occur |
| Coverage.ParseFloat | mingo/coverage.py:17 | no contract; specified by Coverage.ParseFloatDecimal and Coverage.ParseFloatDigits |
| Coverage.ParseFloatDecimal | mingo/coverage.py:17 | float() of digits, a point and digits is their decimal value |
| Coverage.ParseFloatDigits | mingo/coverage.py:17 | float() of plain digits is the whole number they denote |
| Coverage.ReadSheet | mingo/coverage.py:8-26 | the loop reads the sheet row by row into the barcode-keyed samples and the first experiment id |
| Coverage.ReadSheetFails | mingo/coverage.py:10-26 | reading fails, with the CSV error, iff some row lacks a column or has a genome size float() rejects |
| Coverage.ReadSheetKeys | mingo/coverage.py:14-19 | a barcode is a key iff some row carries it |
| Coverage.ReadSheetLastRowWins | mingo/coverage.py:14-19 | a barcode maps to the sample of the last row carrying it |
| Coverage.ReadSheetExperiment | mingo/coverage.py:20-23 | the recorded experiment id is the first row's, none for an empty sheet |
| Coverage.SampleOfFields | mingo/coverage.py:15-19 | an empty genome size reads as 0, and the alias and experiment id are copied |
| Coverage.Counted | mingo/coverage.py:37-42 | no contract; specified by Coverage.SummaryCounts |
| Coverage.LengthOf | mingo/coverage.py:43-46 | no contract; specified by Coverage.SummaryCounts |
| Coverage.AddRead | mingo/coverage.py:51-59 | a read adds its length and one read to the totals and to the short bucket iff it is below the threshold, to the long bucket otherwise |
| Coverage.SummaryYields | mingo/coverage.py:32-62 | the loop computes the counters of the summary rows folded in file order |
| Coverage.SummaryFromTotals | mingo/coverage.py:36-59 | folding rows adds, per barcode, exactly the sum of the rows' contributions |
| Coverage.SummaryFromKeys | mingo/coverage.py:37-49 | a barcode gets counters iff it had them or some counted row names it |
| Coverage.TotalsBalanced | mingo/coverage.py:51-59 | the summed contributions keep short plus long equal to the totals, for bases and reads |
| Coverage.SummaryCounts | mingo/coverage.py:36-59 | each barcode's counters are the sums over the counted rows naming it (non-empty arrangement, passes_filtering exactly TRUE, bad length as 0), present iff such a row exists |
| Coverage.SummaryBalanced | mingo/coverage.py:51-59 | every barcode's short and long buckets add up to its bases and reads |
| Coverage.FindBarcodeName | mingo/coverage.py:82-86 | the loop finds the barcode_name of the first filtering record carrying one |
| Coverage.BarcodeNameFirst | mingo/coverage.py:83-86 | the name is that of the first filtering record with the key |
| Coverage.BarcodeNameAbsent | mingo/coverage.py:82-87 | without any barcode_name the entry has no name |
| Coverage.EntryHits | mingo/coverage.py:82-93 | no contract; specified by Coverage.AddEntry, Coverage.BarcodeNameFirst and Coverage.JsonCounts |
| Coverage.JsonFromAppend | mingo/coverage.py:74-99 | folding a concatenation of hits folds the first part and carries its result over the second |
| Coverage.AddEntry | mingo/coverage.py:82-99 | one barcode entry adds its hit (skipped without a truthy name or without snapshots) to the counters |
| Coverage.AddEntries | mingo/coverage.py:81-99 | the entries loop folds the hits of every entry of the plot, in order |
| Coverage.AddOutputs | mingo/coverage.py:75-99 | the outputs loop folds the hits of every SplitByBarcode output's first plot |
| Coverage.JsonYields | mingo/coverage.py:74-102 | the acquisitions loop folds every hit of the report, in document order |
| Coverage.JsonStepTotals | mingo/coverage.py:95-99 | one hit adds its pass bases and reads to its barcode's counters only |
| Coverage.JsonFromOk | mingo/coverage.py:92-102 | the report reads iff every hit's bases and reads pass int(); otherwise it fails with the JSON error |
| Coverage.JsonFromTotals | mingo/coverage.py:95-99 | folding adds, per barcode, the sums of the pass bases and reads of the hits naming it |
| Coverage.JsonFromKeys | mingo/coverage.py:95-97 | a barcode gets counters iff it had them or some hit names it |
| Coverage.HitTotalsBuckets | mingo/coverage.py:95-99 | the run report never fills the short and long buckets |
| Coverage.HitTotalsAppend | mingo/coverage.py:74-99 | totals over concatenated hits add up |
| Coverage.AcquisitionsHitsAppend | mingo/coverage.py:74 | the hits of concatenated acquisitions are the hits of each, in order |
| Coverage.JsonCounts | mingo/coverage.py:74-102 | the report reads iff every hit parses (else the JSON error); each barcode's counters are the sums over its hits, present iff some hit names it |
| Coverage.AcquisitionsAddUp | mingo/coverage.py:74-99 | totals over acquisitions are the sum of the totals over each part |
| Coverage.CoverageOf | mingo/coverage.py:137-139 | with a positive genome, coverage times genome is the yield in megabases; otherwise coverage is 0 |
| Coverage.AverageLength | mingo/coverage.py:150-154 | no contract; specified by Coverage.AverageLengthBounds |
| Coverage.AverageLengthBounds | mingo/coverage.py:150-154 | the average length is 0 without reads, and otherwise the quotient truncated toward zero (bounds on both sides for either sign) |
| Coverage.ShortAlias | mingo/coverage.py:145 | the shown alias is at most 15 characters; up to 14 it is kept whole, longer ones are the first 12 characters and "..." |
| Coverage.RowsFirst | mingo/coverage.py:134-142 | walking the keys in order: the least barcode's row when kept, then the rows of the rest |
| Coverage.OutputRows | mingo/coverage.py:134-142 | the output loop produces the filtered rows in ascending barcode order |
| Coverage.RowsFromSound | mingo/coverage.py:134-142 | every produced row belongs to a remaining barcode, is that barcode's row, and passes the filter |
| Coverage.RowsFromComplete | mingo/coverage.py:134-142 | every remaining barcode whose row passes the filter has its row produced |
| Coverage.RowsFromSorted | mingo/coverage.py:134 | the produced rows are strictly ascending by barcode |
| Coverage.OutputRowsSpec | mingo/coverage.py:134-142 | the rows are strictly ascending by barcode; each is its sample's row and has coverage below the filter; every such sample has its row |
| Coverage.RowWithoutYield | mingo/coverage.py:135-154 | a sample the counters do not mention gets 0 Mb, coverage 0 and average lengths 0 |
| Coverage.RunCoverageAnalysis | mingo/coverage.py:6-155 | the analysis method computes the whole analysis: sheet, then counters from the chosen report, then columns and rows |
| Coverage.AnalysisSheetFirst | mingo/coverage.py:24-26 | an unreadable sheet stops the analysis with the CSV error, whatever the reports |
| Coverage.AnalysisNeedsReport | mingo/coverage.py:103-105 | without either report the analysis fails, with the missing-report error when the sheet reads |
| Coverage.SummaryRowsBalanced | mingo/coverage.py:151-153 | with summary counters every row's short and long yields add up to its total yield |
| Coverage.BalancedRow | mingo/coverage.py:147-153 | balanced counters give a row whose short and long megabases add up to the total |
| Coverage.ReportRowsUnbucketed | mingo/coverage.py:151-153 | with run-report counters every row's bucket yields are 0 |
| Coverage.AnalysisSummary | mingo/coverage.py:32-62 | with a summary the run report is ignored, the analysis succeeds, the bucket columns are shown and every row is balanced |
| Coverage.LenientMismatch | mingo/coverage.py:70 | no contract; specified by Coverage.AnalysisReport and LegacyCoverage.StrictCheck |
| Coverage.AnalysisReport | mingo/coverage.py:64-102 | on the run-report path a lenient mismatch is fatal; otherwise the analysis succeeds iff every yield value parses; only base columns are shown and every row's buckets are 0 |
| LegacyCoverage.StrictMismatch | bin/calculate_coverage.py:40 | no contract; specified by LegacyCoverage.StrictCheck and LegacyCoverage.StrictStricterThanLenient |
| LegacyCoverage.StrictCheck | bin/calculate_coverage.py:37-42 | both ids absent pass, exactly one absent fails, present ids must be equal; every lenient mismatch is also a strict one |
| LegacyCoverage.StrictStricterThanLenient | bin/calculate_coverage.py:40-42 | a report id against a missing or empty sheet id passes the lenient check and fails the strict one |
| LegacyCoverage.LegacyFromAppend | bin/calculate_coverage.py:46-70 | folding a concatenation of hits folds the first part and carries its result over the second |
| LegacyCoverage.AddEntryBases | bin/calculate_coverage.py:56-70 | one barcode entry adds its pass bases (skipped without a truthy name or snapshots) |
| LegacyCoverage.AddEntriesBases | bin/calculate_coverage.py:54-70 | the entries loop folds the hits of every entry of the plot |
| LegacyCoverage.AddOutputBases | bin/calculate_coverage.py:47-70 | the outputs loop folds the hits of every SplitByBarcode output's first plot |
| LegacyCoverage.LegacyYields | bin/calculate_coverage.py:45-70 | the acquisitions loop folds every hit of the report into bases per barcode |
| LegacyCoverage.LegacyFromTotals | bin/calculate_coverage.py:66-70 | each barcode's bases grow by the sum of the pass bases of the hits naming it; a barcode is a key iff it was or some hit names it |
| LegacyCoverage.LegacyCounts | bin/calculate_coverage.py:45-70 | each barcode's bases are the sum of the last-snapshot pass bases over all SplitByBarcode hits naming it |
| LegacyCoverage.AgreeFrom | bin/calculate_coverage.py:45-70 | from agreeing counters, whenever the coverage fold reads hits the bases fold reads them too and still agrees on keys and bases |
| LegacyCoverage.SameBaseTotals | bin/calculate_coverage.py:45-70 | whenever the coverage report reads a run report, the older script reads it too and finds the same barcodes with the same base totals |
| LegacyCoverage.ReadCountOnlyBreaksCoverage | bin/calculate_coverage.py:66-70 | the converse fails: a report whose read count is not a number gives the older script bases, while the coverage report fails |
| LegacyCoverage.RoundHalfEven | bin/calculate_coverage.py:87 | round() gives an integer within one half of x, and the even one on a tie |
| LegacyCoverage.DisplayOf | bin/calculate_coverage.py:86-89 | from 1x up the coverage is shown as its rounded whole number (at least 1); below 1x as one decimal |
| LegacyCoverage.LegacyRowsIndex | bin/calculate_coverage.py:78-91 | one row per key, the i-th being the row of the i-th key |
| LegacyCoverage.LegacyRows | bin/calculate_coverage.py:78-91 | the output loop produces one row per sample in sorted barcode order |
| LegacyCoverage.CalculateCoverage | bin/calculate_coverage.py:7-91 | the script computes the sheet, the strict check, the bases and then the rows, stopping at the first error |
| LegacyCoverage.LegacyRowsSpec | bin/calculate_coverage.py:78-91 | every sample gets exactly one row, in strictly ascending barcode order, with the report's summed bases (0 when absent) and the coverage shown by the display rule |
| LegacyCoverage.InvokeCases | bin/calculate_coverage.py:93-108 | fewer than two arguments is a usage error; a missing sheet is reported before a missing report; the script runs iff both files exist; further arguments are ignored |

## Left out

- HTTP: the transport is replaced by the `Lims` store. This covers `_get`, `_post`, authentication, headers, status checks and JSON decoding. Every failed request counts as a `requests` exception, so `fetch_run_details` catches it, stops its walk and keeps the inputs found so far.
- `fetch_content_by_pk` (mingo/slims.py:222-230) is not part of this model. It fetches and flattens, and the model covers flattening through `Slims.FlattenEntity`.
- Malformed LIMS entities are not modelled: a column without a `name`, or a `columns` entry that is not a dictionary. Entities always have the `Column` shape.
- Slims.QueuedRuns: a sort key that is neither a number nor a boolean makes the model report `[]` as soon as two runs are kept. In Python, runs whose keys are all strings would sort. The model treats every non-numeric key as incomparable.
- Slims.FetchRunDetails: a missing run record gives `None` here. In Python the `IndexError` propagates to the caller.
- SampleSheet: the CSV writer's quoting and line endings are left out, and so is the `StringIO` buffer. The sheet is the list of its lines, each a list of cells. LIMS values are null, booleans, integers or text; floats are not modelled.
- Values.ParseInt: `int()` is modelled on text and handles white space, a sign and underscores. Digits other than ASCII `0`-`9` are not modelled.
- Values.Lower, Values.IsSpace: ASCII only. `str.lower()` and the white space that `strip()`, `int()` and `float()` skip are modelled on ASCII characters. Python also lower-cases non-ASCII letters and skips Unicode white space; a non-ASCII barcode, flag or number differs here.
- Coverage.ParseFloat: `float()` is modelled on plain decimals only: no exponent, `inf`, `nan` or underscores. A genome size in those forms fails the sheet here, where Python would read it.
- Coverage.ReadSheet: CSV rows are maps from column name to text. A short row, where the reader gives `None` for missing fields, is not modelled. The warning about several experiment ids is only printed, so it is left out.
- Coverage.SummaryYields: a summary row whose field is `None` (a short row) is not modelled. The summary file's read errors are left out.
- Coverage.JsonYields: the run report is a typed structure, with absent lists empty and absent values null. Reports of the wrong JSON shape are left out, as are values that are JSON floats, lists or objects.
- Coverage.JsonYields, Slims.DedupByPk, Slims.Lims: Python treats `True` and `1` as the same dictionary key or set member. The model compares `Value`s, where they differ. This affects three places:
  - the counters keyed by barcode name;
  - the `seen_pks` set of `fetch_run_details` (mingo/slims.py:210);
  - the keys of the `Lims` store. In the source, `Int(5)` and `Str("5")` build the same request URL; here they are different keys.
- Coverage.AverageLength: the average is computed exactly as an integer quotient truncated toward zero. Python divides in binary floating point first, which differs only for very large totals.
- Coverage.CoverageOf: coverage, megabases and genome sizes are `real`. Python's binary floating point and its rounding are not modelled.
- Float-to-string formatting is left out: `:.2f`, `:.1f`, `:g`, padding and table versus CSV output. So are the threshold label in the headers and the `output_csv` switch; the model produces the columns and rows. LegacyCoverage.DisplayOf shows a value below 1x as `OneDecimal(coverage)` without rounding it to one decimal.
- Coverage.RunCoverageAnalysis:
  - the default threshold of 7000 is not modelled; the threshold is a parameter;
  - which report is given is an `Option`, so an empty path string counts as given;
  - the command-line parsing that calls this function lives outside the core.
- File I/O (`open`, existence checks), `print`, `sys.exit` and logging are left out. The files arrive already read; errors become `Err` results carrying the message's subject; `Invoke` receives the set of existing paths.
- LegacyCoverage.CalculateCoverage: an `int()` that rejects a yield value is not caught by the script. Here it ends the run as `Err(Uncaught)`.
- `mingo/run_manager.py`, `mingo/minknow_utils.py`, `mingo/watch_gridion.py` and `mingo/flowcell_health.py` are not part of this model. They handle user interaction, gRPC calls to MinKNOW and Slack notifications.
