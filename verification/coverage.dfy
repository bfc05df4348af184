/** The coverage report: the sample sheet keyed by barcode, the per-barcode
    yield from either a per-read sequencing summary or the structured run
    report, and one output row per sample in barcode order. */
module Coverage {
  import opened Values
  import opened Text

  // ---------------------------------------------------------------------
  // float() on the sheet's genome size

  function Pow10(n: nat): (r: nat)
    ensures r >= 1
  {
    if n == 0 then 1 else 10 * Pow10(n - 1)
  }

  /** The first position of c in s, |s| when there is none. */
  function IndexOf(s: string, c: char): (i: nat)
    ensures i <= |s|
    ensures i < |s| ==> s[i] == c
    ensures forall j :: 0 <= j < i ==> s[j] != c
  {
    if s == [] then 0 else if s[0] == c then 0 else 1 + IndexOf(s[1..], c)
  }

  /** The number a decimal numeral with whole part w and fraction digits f denotes. */
  function DecimalValue(w: string, f: string): real
    requires AllDigits(w) && AllDigits(f)
  {
    DigitsValue(w) as real + DigitsValue(f) as real / Pow10(|f|) as real
  }

  /** An unsigned decimal: digits, optionally a point and more digits, at least one digit. */
  function ParseUnsigned(t: string): Option<real> {
    var i := IndexOf(t, '.');
    var w := t[..i];
    var f := if i < |t| then t[i + 1..] else [];
    if AllDigits(w) && AllDigits(f) && |w| + |f| > 0 then Some(DecimalValue(w, f)) else None
  }

  /** float(s) on plain decimal text: surrounding white space, an optional sign, a decimal. */
  function ParseFloat(s: string): Option<real> {
    var t := Strip(s);
    if |t| > 0 && (t[0] == '+' || t[0] == '-') then
      match ParseUnsigned(t[1..])
      case None => None
      case Some(x) => Some(if t[0] == '-' then -x else x)
    else ParseUnsigned(t)
  }

  /** A numeral with a whole part and a fraction reads as its decimal value. */
  lemma ParseFloatDecimal(w: string, f: string)
    requires |w| > 0 && AllDigits(w) && AllDigits(f)
    ensures ParseFloat(w + ['.'] + f) == Some(DecimalValue(w, f))
  {
    var t := w + ['.'] + f;
    assert t[0] == w[0];
    assert t[|t| - 1] == if f == [] then '.' else f[|f| - 1];
    StripUnspaced(t);
    assert IndexOf(t, '.') == |w| by {
      assert t[|w|] == '.';
      assert forall j :: 0 <= j < |w| ==> t[j] == w[j];
    }
    assert t[..|w|] == w;
    assert t[|w| + 1..] == f;
  }

  /** Plain digits read as the whole number they denote. */
  lemma ParseFloatDigits(w: string)
    requires |w| > 0 && AllDigits(w)
    ensures ParseFloat(w) == Some(DigitsValue(w) as real)
  {
    StripUnspaced(w);
    UnsignedDigits(w);
  }

  lemma UnsignedDigits(w: string)
    requires |w| > 0 && AllDigits(w)
    ensures ParseUnsigned(w) == Some(DigitsValue(w) as real)
  {
    assert IndexOf(w, '.') == |w| by {
      assert forall j :: 0 <= j < |w| ==> w[j] != '.';
    }
    assert w[..|w|] == w;
  }

  // ---------------------------------------------------------------------
  // The sample sheet

  /** A CSV row as the dictionary reader counts it: column name to text. */
  type CsvRow = map<string, string>

  datatype SampleInfo = SampleInfo(alias: string, genomeMb: real, experimentId: string)

  /** The samples keyed by barcode, and the experiment id the first row carries. */
  datatype Sheet = Sheet(samples: map<string, SampleInfo>, experimentId: Option<string>)

  const CsvError := "Error reading CSV"

  /** The genome size: an empty field counts as 0, anything else goes through float(). */
  function GenomeOf(text: string): Option<real> {
    if text == "" then Some(0.0) else ParseFloat(text)
  }

  predicate HasColumns(row: CsvRow) {
    "barcode" in row && "alias" in row && "cntn_cf_genomeSizeMb" in row && "experiment_id" in row
  }

  function Barcode(row: CsvRow): string {
    if "barcode" in row then row["barcode"] else ""
  }

  /** The sample a row describes; None where reading it raises (a missing column, a
      genome size float() rejects). */
  function SampleOf(row: CsvRow): Option<SampleInfo> {
    if !HasColumns(row) then None
    else
      match GenomeOf(row["cntn_cf_genomeSizeMb"])
      case None => None
      case Some(g) => Some(SampleInfo(row["alias"], g, row["experiment_id"]))
  }

  /** The remaining rows read into acc; the first unreadable row fails the whole sheet. */
  function SheetFrom(acc: Sheet, rows: seq<CsvRow>): Result<Sheet, string>
    decreases |rows|
  {
    if rows == [] then Ok(acc)
    else
      match SampleOf(rows[0])
      case None => Err(CsvError)
      case Some(info) =>
        var id := if acc.experimentId == None then Some(info.experimentId) else acc.experimentId;
        SheetFrom(Sheet(acc.samples[Barcode(rows[0]) := info], id), rows[1..])
  }

  function ReadSheetOf(rows: seq<CsvRow>): Result<Sheet, string> {
    SheetFrom(Sheet(map[], None), rows)
  }

  method ReadSheet(rows: seq<CsvRow>) returns (r: Result<Sheet, string>)
    ensures r == ReadSheetOf(rows)
  {
    var samples: map<string, SampleInfo> := map[];
    var experimentId: Option<string> := None;
    for i := 0 to |rows|
      invariant SheetFrom(Sheet(samples, experimentId), rows[i..]) == ReadSheetOf(rows)
    {
      assert rows[i..][1..] == rows[i + 1..];
      var row := rows[i];
      if !HasColumns(row) {
        return Err(CsvError);
      }
      var genome := GenomeOf(row["cntn_cf_genomeSizeMb"]);
      if genome.None? {
        return Err(CsvError);
      }
      samples := samples[row["barcode"] := SampleInfo(row["alias"], genome.value, row["experiment_id"])];
      if experimentId.None? {
        experimentId := Some(row["experiment_id"]);
      }
    }
    assert rows[|rows|..] == [];
    return Ok(Sheet(samples, experimentId));
  }

  predicate Readable(rows: seq<CsvRow>) {
    forall i :: 0 <= i < |rows| ==> SampleOf(rows[i]).Some?
  }

  /** Row i is the last row carrying its barcode. */
  predicate LastFor(rows: seq<CsvRow>, i: nat)
    requires i < |rows|
  {
    forall j :: i < j < |rows| ==> Barcode(rows[j]) != Barcode(rows[i])
  }

  lemma {:induction false} SheetFromOk(acc: Sheet, rows: seq<CsvRow>)
    ensures SheetFrom(acc, rows).Ok? <==> Readable(rows)
    ensures SheetFrom(acc, rows).Err? ==> SheetFrom(acc, rows).error == CsvError
    decreases |rows|
  {
    if rows != [] {
      assert forall i :: 1 <= i < |rows| ==> rows[1..][i - 1] == rows[i];
      if SampleOf(rows[0]).Some? {
        var info := SampleOf(rows[0]).value;
        var id := if acc.experimentId == None then Some(info.experimentId) else acc.experimentId;
        SheetFromOk(Sheet(acc.samples[Barcode(rows[0]) := info], id), rows[1..]);
      }
    }
  }

  lemma {:induction false} SheetFromKeys(acc: Sheet, rows: seq<CsvRow>, b: string)
    requires SheetFrom(acc, rows).Ok?
    ensures b in SheetFrom(acc, rows).value.samples <==>
              b in acc.samples || exists i :: 0 <= i < |rows| && Barcode(rows[i]) == b
    ensures (forall i :: 0 <= i < |rows| ==> Barcode(rows[i]) != b) && b in acc.samples ==>
              SheetFrom(acc, rows).value.samples[b] == acc.samples[b]
    decreases |rows|
  {
    if rows != [] {
      var info := SampleOf(rows[0]).value;
      var id := if acc.experimentId == None then Some(info.experimentId) else acc.experimentId;
      SheetFromKeys(Sheet(acc.samples[Barcode(rows[0]) := info], id), rows[1..], b);
      assert forall i :: 1 <= i < |rows| ==> rows[1..][i - 1] == rows[i];
      if exists i :: 1 <= i < |rows| && Barcode(rows[i]) == b {
        var i :| 1 <= i < |rows| && Barcode(rows[i]) == b;
        assert Barcode(rows[1..][i - 1]) == b;
      }
    }
  }

  lemma {:induction false} SheetFromLast(acc: Sheet, rows: seq<CsvRow>, i: nat)
    requires SheetFrom(acc, rows).Ok? && i < |rows| && LastFor(rows, i)
    ensures SampleOf(rows[i]).Some?
    ensures Barcode(rows[i]) in SheetFrom(acc, rows).value.samples
    ensures SheetFrom(acc, rows).value.samples[Barcode(rows[i])] == SampleOf(rows[i]).value
    decreases |rows|
  {
    var info := SampleOf(rows[0]).value;
    var id := if acc.experimentId == None then Some(info.experimentId) else acc.experimentId;
    var acc' := Sheet(acc.samples[Barcode(rows[0]) := info], id);
    assert forall j :: 1 <= j < |rows| ==> rows[1..][j - 1] == rows[j];
    if i == 0 {
      SheetFromKeys(acc', rows[1..], Barcode(rows[0]));
    } else {
      SheetFromLast(acc', rows[1..], i - 1);
    }
  }

  lemma {:induction false} SheetFromExperiment(acc: Sheet, rows: seq<CsvRow>)
    requires SheetFrom(acc, rows).Ok?
    ensures SheetFrom(acc, rows).value.experimentId ==
              if acc.experimentId.Some? || rows == [] then acc.experimentId
              else Some(SampleOf(rows[0]).value.experimentId)
    decreases |rows|
  {
    if rows != [] {
      var info := SampleOf(rows[0]).value;
      var id := if acc.experimentId == None then Some(info.experimentId) else acc.experimentId;
      SheetFromExperiment(Sheet(acc.samples[Barcode(rows[0]) := info], id), rows[1..]);
    }
  }

  /** Reading fails, with the CSV error, exactly when some row lacks a column or has a
      genome size float() rejects. */
  lemma ReadSheetFails(rows: seq<CsvRow>)
    ensures ReadSheetOf(rows).Err? <==> exists i :: 0 <= i < |rows| && SampleOf(rows[i]).None?
    ensures ReadSheetOf(rows).Err? ==> ReadSheetOf(rows).error == CsvError
  {
    SheetFromOk(Sheet(map[], None), rows);
  }

  /** The samples are keyed by barcode: a barcode is present exactly when some row carries
      it, and it maps to the sample of the last such row. */
  lemma ReadSheetKeys(rows: seq<CsvRow>, b: string)
    requires ReadSheetOf(rows).Ok?
    ensures b in ReadSheetOf(rows).value.samples <==> exists i :: 0 <= i < |rows| && Barcode(rows[i]) == b
  {
    SheetFromKeys(Sheet(map[], None), rows, b);
  }

  lemma ReadSheetLastRowWins(rows: seq<CsvRow>, i: nat)
    requires ReadSheetOf(rows).Ok? && i < |rows| && LastFor(rows, i)
    ensures SampleOf(rows[i]).Some? && Barcode(rows[i]) in ReadSheetOf(rows).value.samples
    ensures ReadSheetOf(rows).value.samples[Barcode(rows[i])] == SampleOf(rows[i]).value
  {
    SheetFromLast(Sheet(map[], None), rows, i);
  }

  /** The recorded experiment id is the first row's, None for an empty sheet. */
  lemma ReadSheetExperiment(rows: seq<CsvRow>)
    requires ReadSheetOf(rows).Ok?
    ensures ReadSheetOf(rows).value.experimentId ==
              if rows == [] then None else Some(rows[0]["experiment_id"])
  {
    SheetFromExperiment(Sheet(map[], None), rows);
  }

  /** An empty genome field reads as 0 and the alias and experiment id are copied. */
  lemma SampleOfFields(row: CsvRow)
    requires HasColumns(row) && row["cntn_cf_genomeSizeMb"] == ""
    ensures SampleOf(row) == Some(SampleInfo(row["alias"], 0.0, row["experiment_id"]))
  {
  }

  // ---------------------------------------------------------------------
  // Yields from the sequencing summary

  /** A row of the tab-separated sequencing summary: column name to text. */
  type SummaryRow = map<string, string>

  /** Per-barcode counters: every counted read, then the reads shorter than the
      threshold and the rest. */
  datatype Yield = Yield(bases: int, readCount: int, shortBases: int, shortReads: int, longBases: int, longReads: int)

  const NoYield := Yield(0, 0, 0, 0, 0, 0)

  /** counts.get(k, zeros) */
  function YieldOr(counts: map<Value, Yield>, k: Value): Yield {
    if k in counts then counts[k] else NoYield
  }

  function Plus(a: Yield, b: Yield): Yield {
    Yield(a.bases + b.bases, a.readCount + b.readCount, a.shortBases + b.shortBases, a.shortReads + b.shortReads,
          a.longBases + b.longBases, a.longReads + b.longReads)
  }

  /** The buckets add up to the totals. */
  predicate Balanced(y: Yield) {
    y.shortBases + y.longBases == y.bases && y.shortReads + y.longReads == y.readCount
  }

  /** A read counts when its barcode_arrangement is non-empty and passes_filtering is exactly TRUE. */
  predicate Counted(row: SummaryRow) {
    && "barcode_arrangement" in row && row["barcode_arrangement"] != ""
    && "passes_filtering" in row && row["passes_filtering"] == "TRUE"
  }

  /** int() of the read length: 0 when the column is absent or int() rejects it. */
  function LengthOf(row: SummaryRow): int {
    if "sequence_length_template" !in row then 0
    else
      match ParseInt(row["sequence_length_template"])
      case Some(n) => n
      case None => 0
  }

  /** One read of the given length added: to the totals, and to the short bucket when
      it is below the threshold, to the long bucket otherwise. */
  function AddRead(y: Yield, length: int, threshold: int): (r: Yield)
    ensures r.bases == y.bases + length && r.readCount == y.readCount + 1
    ensures (length < threshold) == (r.shortReads == y.shortReads + 1)
    ensures (length < threshold) != (r.longReads == y.longReads + 1)
  {
    if length < threshold then
      Yield(y.bases + length, y.readCount + 1, y.shortBases + length, y.shortReads + 1, y.longBases, y.longReads)
    else
      Yield(y.bases + length, y.readCount + 1, y.shortBases, y.shortReads, y.longBases + length, y.longReads + 1)
  }

  /** The barcode a summary row names ("" when the column is absent). */
  function Arrangement(row: SummaryRow): Value {
    Str(if "barcode_arrangement" in row then row["barcode_arrangement"] else "")
  }

  /** One summary row applied to the counters. */
  function SummaryStep(acc: map<Value, Yield>, row: SummaryRow, threshold: int): map<Value, Yield> {
    if Counted(row) then acc[Arrangement(row) := AddRead(YieldOr(acc, Arrangement(row)), LengthOf(row), threshold)]
    else acc
  }

  /** The summary rows folded into the counters, in file order. */
  function SummaryFrom(acc: map<Value, Yield>, rows: seq<SummaryRow>, threshold: int): map<Value, Yield>
    decreases |rows|
  {
    if rows == [] then acc else SummaryFrom(SummaryStep(acc, rows[0], threshold), rows[1..], threshold)
  }

  method SummaryYields(rows: seq<SummaryRow>, threshold: int) returns (counts: map<Value, Yield>)
    ensures counts == SummaryFrom(map[], rows, threshold)
  {
    counts := map[];
    for i := 0 to |rows|
      invariant SummaryFrom(counts, rows[i..], threshold) == SummaryFrom(map[], rows, threshold)
    {
      assert rows[i..][1..] == rows[i + 1..];
      var row := rows[i];
      if "barcode_arrangement" !in row || row["barcode_arrangement"] == "" {
        continue;
      }
      if "passes_filtering" !in row || row["passes_filtering"] != "TRUE" {
        continue;
      }
      var length := 0;
      if "sequence_length_template" in row {
        var parsed := ParseInt(row["sequence_length_template"]);
        if parsed.Some? {
          length := parsed.value;
        }
      }
      var k := Str(row["barcode_arrangement"]);
      ghost var before := counts;
      if k !in counts {
        counts := counts[k := NoYield];
      }
      var y := counts[k];
      y := y.(bases := y.bases + length, readCount := y.readCount + 1);
      if length < threshold {
        y := y.(shortBases := y.shortBases + length, shortReads := y.shortReads + 1);
      } else {
        y := y.(longBases := y.longBases + length, longReads := y.longReads + 1);
      }
      counts := counts[k := y];
      SummaryStepUpdate(before, row, threshold, length, y);
    }
  }

  lemma SummaryStepUpdate(before: map<Value, Yield>, row: SummaryRow, threshold: int, length: int, y: Yield)
    requires Counted(row) && length == LengthOf(row)
    requires y == AddRead(YieldOr(before, Arrangement(row)), length, threshold)
    ensures (if Arrangement(row) in before then before else before[Arrangement(row) := NoYield])[Arrangement(row) := y]
            == SummaryStep(before, row, threshold)
  {
  }

  /** What one row contributes to barcode k's counters. */
  function Contribution(row: SummaryRow, k: Value, threshold: int): Yield {
    if Counted(row) && Arrangement(row) == k then AddRead(NoYield, LengthOf(row), threshold)
    else NoYield
  }

  /** Barcode k's counters summed row by row: the reference the fold is checked against. */
  function Totals(rows: seq<SummaryRow>, k: Value, threshold: int): Yield
    decreases |rows|
  {
    if rows == [] then NoYield else Plus(Contribution(rows[0], k, threshold), Totals(rows[1..], k, threshold))
  }

  lemma StepTotals(acc: map<Value, Yield>, row: SummaryRow, threshold: int, k: Value)
    ensures YieldOr(SummaryStep(acc, row, threshold), k) == Plus(YieldOr(acc, k), Contribution(row, k, threshold))
  {
  }

  lemma StepKeys(acc: map<Value, Yield>, row: SummaryRow, threshold: int, k: Value)
    ensures k in SummaryStep(acc, row, threshold) <==> k in acc || (Counted(row) && Arrangement(row) == k)
  {
  }

  lemma {:induction false} SummaryFromTotals(acc: map<Value, Yield>, rows: seq<SummaryRow>, threshold: int, k: Value)
    ensures YieldOr(SummaryFrom(acc, rows, threshold), k) == Plus(YieldOr(acc, k), Totals(rows, k, threshold))
    decreases |rows|
  {
    if rows == [] {
      PlusNoneRight(YieldOr(acc, k));
    } else {
      StepTotals(acc, rows[0], threshold, k);
      SummaryFromTotals(SummaryStep(acc, rows[0], threshold), rows[1..], threshold, k);
      PlusAssociative(YieldOr(acc, k), Contribution(rows[0], k, threshold), Totals(rows[1..], k, threshold));
    }
  }

  lemma PlusNoneRight(y: Yield)
    ensures Plus(y, NoYield) == y
  {
  }

  lemma PlusAssociative(a: Yield, b: Yield, c: Yield)
    ensures Plus(Plus(a, b), c) == Plus(a, Plus(b, c))
  {
  }

  lemma {:induction false} SummaryFromKeys(acc: map<Value, Yield>, rows: seq<SummaryRow>, threshold: int, k: Value)
    ensures k in SummaryFrom(acc, rows, threshold) <==>
              k in acc || exists i :: 0 <= i < |rows| && Counted(rows[i]) && Arrangement(rows[i]) == k
    decreases |rows|
  {
    if rows != [] {
      StepKeys(acc, rows[0], threshold, k);
      SummaryFromKeys(SummaryStep(acc, rows[0], threshold), rows[1..], threshold, k);
      if exists i :: 1 <= i < |rows| && Counted(rows[i]) && Arrangement(rows[i]) == k {
        var i :| 1 <= i < |rows| && Counted(rows[i]) && Arrangement(rows[i]) == k;
        assert rows[1..][i - 1] == rows[i];
      }
      if exists i :: 0 <= i < |rows[1..]| && Counted(rows[1..][i]) && Arrangement(rows[1..][i]) == k {
        var i :| 0 <= i < |rows[1..]| && Counted(rows[1..][i]) && Arrangement(rows[1..][i]) == k;
        assert rows[1..][i] == rows[i + 1];
      }
    }
  }

  lemma {:induction false} TotalsBalanced(rows: seq<SummaryRow>, k: Value, threshold: int)
    ensures Balanced(Totals(rows, k, threshold))
    decreases |rows|
  {
    if rows != [] {
      TotalsBalanced(rows[1..], k, threshold);
    }
  }

  /** Each barcode's counters are the sums over the counted rows carrying it, and a
      barcode has counters exactly when some counted row carries it. */
  lemma SummaryCounts(rows: seq<SummaryRow>, threshold: int, k: Value)
    ensures YieldOr(SummaryFrom(map[], rows, threshold), k) == Totals(rows, k, threshold)
    ensures k in SummaryFrom(map[], rows, threshold) <==>
              exists i :: 0 <= i < |rows| && Counted(rows[i]) && Arrangement(rows[i]) == k
  {
    var none: map<Value, Yield> := map[];
    SummaryFromTotals(none, rows, threshold, k);
    SummaryFromKeys(none, rows, threshold, k);
    assert YieldOr(none, k) == NoYield;
    PlusNone(Totals(rows, k, threshold));
  }

  lemma PlusNone(y: Yield)
    ensures Plus(NoYield, y) == y
  {
  }

  /** Every read lands in exactly one bucket: short plus long is the total, for bases and reads. */
  lemma SummaryBalanced(rows: seq<SummaryRow>, threshold: int, k: Value)
    ensures Balanced(YieldOr(SummaryFrom(map[], rows, threshold), k))
  {
    SummaryCounts(rows, threshold, k);
    TotalsBalanced(rows, k, threshold);
  }

  // ---------------------------------------------------------------------
  // Yields from the structured run report

  /** One snapshot of a barcode's yield: its yield_summary fields ({} when absent). */
  datatype Snapshot = Snapshot(yieldSummary: Record)

  /** A barcode entry of the first plot: its filtering records and its snapshots. */
  datatype BarcodeEntry = BarcodeEntry(filtering: seq<Record>, snapshots: seq<Snapshot>)

  /** A plot: the barcode entries listed under its snapshots key. */
  datatype Plot = Plot(entries: seq<BarcodeEntry>)

  /** An acquisition output: its type field (Null when absent) and its plots. */
  datatype Output = Output(kind: Value, plot: seq<Plot>)

  datatype Acquisition = Acquisition(outputs: seq<Output>)

  /** The run report: protocol_run_info.user_info.protocol_group_id (Null when absent) and
      the acquisitions. Absent lists are empty. */
  datatype Report = Report(groupId: Value, acquisitions: seq<Acquisition>)

  /** What one barcode entry reports: the barcode name and the last snapshot's pass bases
      and pass read count, still as report values. */
  datatype Hit = Hit(name: Value, bases: Value, readCount: Value)

  const JsonError := "Error reading JSON"

  /** The barcode_name of the first filtering record that has one; Null when none has. */
  function BarcodeName(filtering: seq<Record>): Value
    decreases |filtering|
  {
    if filtering == [] then Null
    else if "barcode_name" in filtering[0] then filtering[0]["barcode_name"]
    else BarcodeName(filtering[1..])
  }

  method FindBarcodeName(filtering: seq<Record>) returns (name: Value)
    ensures name == BarcodeName(filtering)
  {
    name := Null;
    var i := 0;
    while i < |filtering|
      invariant 0 <= i <= |filtering|
      invariant BarcodeName(filtering[i..]) == BarcodeName(filtering)
    {
      assert filtering[i..][1..] == filtering[i + 1..];
      if "barcode_name" in filtering[i] {
        name := filtering[i]["barcode_name"];
        return;
      }
      i := i + 1;
    }
    assert filtering[i..] == [];
  }

  /** The name comes from the first filtering record carrying the key. */
  lemma {:induction false} BarcodeNameFirst(filtering: seq<Record>, i: nat)
    requires i < |filtering| && "barcode_name" in filtering[i]
    requires forall j :: 0 <= j < i ==> "barcode_name" !in filtering[j]
    ensures BarcodeName(filtering) == filtering[i]["barcode_name"]
    decreases i
  {
    if i > 0 {
      assert filtering[1..][i - 1] == filtering[i];
      BarcodeNameFirst(filtering[1..], i - 1);
    }
  }

  /** Without any barcode_name the entry has no name. */
  lemma {:induction false} BarcodeNameAbsent(filtering: seq<Record>)
    requires forall j :: 0 <= j < |filtering| ==> "barcode_name" !in filtering[j]
    ensures BarcodeName(filtering) == Null
    decreases |filtering|
  {
    if filtering != [] {
      BarcodeNameAbsent(filtering[1..]);
    }
  }

  /** An entry reports a hit when its name is truthy and it has snapshots; the values
      default to "0" when the last snapshot lacks them. */
  function EntryHits(entry: BarcodeEntry): seq<Hit> {
    var name := BarcodeName(entry.filtering);
    if !Truthy(name) || entry.snapshots == [] then []
    else
      var last := entry.snapshots[|entry.snapshots| - 1].yieldSummary;
      [Hit(name, GetOr(last, "basecalled_pass_bases", Str("0")), GetOr(last, "basecalled_pass_read_count", Str("0")))]
  }

  function EntriesHits(entries: seq<BarcodeEntry>): seq<Hit>
    decreases |entries|
  {
    if entries == [] then [] else EntryHits(entries[0]) + EntriesHits(entries[1..])
  }

  /** Only SplitByBarcode outputs with a plot count, and only their first plot. */
  function OutputHits(output: Output): seq<Hit> {
    if output.kind == Str("SplitByBarcode") && output.plot != [] then EntriesHits(output.plot[0].entries) else []
  }

  function OutputsHits(outputs: seq<Output>): seq<Hit>
    decreases |outputs|
  {
    if outputs == [] then [] else OutputHits(outputs[0]) + OutputsHits(outputs[1..])
  }

  function AcquisitionsHits(acquisitions: seq<Acquisition>): seq<Hit>
    decreases |acquisitions|
  {
    if acquisitions == [] then [] else OutputsHits(acquisitions[0].outputs) + AcquisitionsHits(acquisitions[1..])
  }

  /** Every hit of the report, acquisition by acquisition, in document order. */
  function ReportHits(report: Report): seq<Hit> {
    AcquisitionsHits(report.acquisitions)
  }

  /** One hit added into the counters: bases and reads go through int(), and a value
      int() rejects fails the report. The buckets are left alone. */
  function JsonStep(acc: map<Value, Yield>, h: Hit): Result<map<Value, Yield>, string> {
    match PyInt(h.bases)
    case None => Err(JsonError)
    case Some(b) =>
      match PyInt(h.readCount)
      case None => Err(JsonError)
      case Some(n) =>
        var y := YieldOr(acc, h.name);
        Ok(acc[h.name := y.(bases := y.bases + b, readCount := y.readCount + n)])
  }

  /** The hits added into the counters in order; the first failure fails the whole report. */
  function JsonFrom(acc: map<Value, Yield>, hits: seq<Hit>): Result<map<Value, Yield>, string>
    decreases |hits|
  {
    if hits == [] then Ok(acc)
    else
      match JsonStep(acc, hits[0])
      case Err(e) => Err(e)
      case Ok(m) => JsonFrom(m, hits[1..])
  }

  /** A fold result carried on over more hits; an error stays. */
  function JsonThen(r: Result<map<Value, Yield>, string>, hits: seq<Hit>): Result<map<Value, Yield>, string> {
    match r
    case Err(e) => Err(e)
    case Ok(m) => JsonFrom(m, hits)
  }

  /** Folding a concatenation folds the first part, then the second. */
  lemma {:induction false} JsonFromAppend(acc: map<Value, Yield>, xs: seq<Hit>, ys: seq<Hit>)
    ensures JsonFrom(acc, xs + ys) == JsonThen(JsonFrom(acc, xs), ys)
    decreases |xs|
  {
    if xs == [] {
      assert xs + ys == ys;
    } else {
      var zs := xs + ys;
      assert zs[0] == xs[0];
      assert zs[1..] == xs[1..] + ys;
      var step := JsonStep(acc, xs[0]);
      if step.Ok? {
        JsonFromAppend(step.value, xs[1..], ys);
        assert JsonFrom(acc, zs) == JsonFrom(step.value, xs[1..] + ys);
        assert JsonFrom(acc, xs) == JsonFrom(step.value, xs[1..]);
      } else {
        assert JsonFrom(acc, zs) == step;
        assert JsonFrom(acc, xs) == step;
      }
    }
  }

  lemma JsonFromOne(acc: map<Value, Yield>, h: Hit)
    ensures JsonFrom(acc, [h]) == JsonStep(acc, h)
  {
    assert [h][1..] == [];
  }

  /** One barcode entry: skipped without a truthy name or without snapshots, otherwise
      the last snapshot's pass bases and reads added. */
  method AddEntry(counts: map<Value, Yield>, entry: BarcodeEntry) returns (r: Result<map<Value, Yield>, string>)
    ensures r == JsonFrom(counts, EntryHits(entry))
  {
    var name := FindBarcodeName(entry.filtering);
    var snaps := entry.snapshots;
    if !Truthy(name) || snaps == [] {
      assert EntryHits(entry) == [];
      return Ok(counts);
    }
    var last := snaps[|snaps| - 1].yieldSummary;
    ghost var h := Hit(name, GetOr(last, "basecalled_pass_bases", Str("0")), GetOr(last, "basecalled_pass_read_count", Str("0")));
    assert EntryHits(entry) == [h];
    JsonFromOne(counts, h);
    var bases := PyInt(GetOr(last, "basecalled_pass_bases", Str("0")));
    var readCount := PyInt(GetOr(last, "basecalled_pass_read_count", Str("0")));
    if bases.None? || readCount.None? {
      return Err(JsonError);
    }
    var acc := counts;
    if name !in acc {
      acc := acc[name := NoYield];
    }
    var y := acc[name];
    y := y.(bases := y.bases + bases.value, readCount := y.readCount + readCount.value);
    acc := acc[name := y];
    JsonStepUpdate(counts, h, y);
    return Ok(acc);
  }

  method AddEntries(counts: map<Value, Yield>, entries: seq<BarcodeEntry>) returns (r: Result<map<Value, Yield>, string>)
    ensures r == JsonFrom(counts, EntriesHits(entries))
  {
    var acc := counts;
    for j := 0 to |entries|
      invariant JsonFrom(acc, EntriesHits(entries[j..])) == JsonFrom(counts, EntriesHits(entries))
    {
      assert entries[j..][1..] == entries[j + 1..];
      JsonFromAppend(acc, EntryHits(entries[j]), EntriesHits(entries[j + 1..]));
      var step := AddEntry(acc, entries[j]);
      if step.Err? {
        return step;
      }
      acc := step.value;
    }
    assert entries[|entries|..] == [];
    return Ok(acc);
  }

  lemma JsonStepUpdate(before: map<Value, Yield>, h: Hit, y: Yield)
    requires PyInt(h.bases).Some? && PyInt(h.readCount).Some?
    requires y == YieldOr(before, h.name).(bases := YieldOr(before, h.name).bases + PyInt(h.bases).value,
                                           readCount := YieldOr(before, h.name).readCount + PyInt(h.readCount).value)
    ensures JsonStep(before, h) == Ok((if h.name in before then before else before[h.name := NoYield])[h.name := y])
  {
    assert JsonStep(before, h) == Ok(before[h.name := y]);
    assert (if h.name in before then before else before[h.name := NoYield])[h.name := y] == before[h.name := y];
  }

  method AddOutputs(counts: map<Value, Yield>, outputs: seq<Output>) returns (r: Result<map<Value, Yield>, string>)
    ensures r == JsonFrom(counts, OutputsHits(outputs))
  {
    var acc := counts;
    for o := 0 to |outputs|
      invariant JsonFrom(acc, OutputsHits(outputs[o..])) == JsonFrom(counts, OutputsHits(outputs))
    {
      assert outputs[o..][1..] == outputs[o + 1..];
      JsonFromAppend(acc, OutputHits(outputs[o]), OutputsHits(outputs[o + 1..]));
      var out := outputs[o];
      if out.kind == Str("SplitByBarcode") {
        var plot := out.plot;
        if plot == [] {
          continue;
        }
        var step := AddEntries(acc, plot[0].entries);
        if step.Err? {
          return step;
        }
        acc := step.value;
      }
    }
    assert outputs[|outputs|..] == [];
    return Ok(acc);
  }

  /** The structured report read into per-barcode counters, acquisition by acquisition. */
  method JsonYields(report: Report) returns (r: Result<map<Value, Yield>, string>)
    ensures r == JsonFrom(map[], ReportHits(report))
  {
    var acquisitions := report.acquisitions;
    var counts: map<Value, Yield> := map[];
    for a := 0 to |acquisitions|
      invariant JsonFrom(counts, AcquisitionsHits(acquisitions[a..])) == JsonFrom(map[], ReportHits(report))
    {
      assert acquisitions[a..][1..] == acquisitions[a + 1..];
      JsonFromAppend(counts, OutputsHits(acquisitions[a].outputs), AcquisitionsHits(acquisitions[a + 1..]));
      var step := AddOutputs(counts, acquisitions[a].outputs);
      if step.Err? {
        return step;
      }
      counts := step.value;
    }
    assert acquisitions[|acquisitions|..] == [];
    return Ok(counts);
  }

  /** The sum of the bases and reads of the hits named k; the buckets stay 0. The
      reference the fold is checked against. */
  function HitTotals(hits: seq<Hit>, k: Value): Yield
    decreases |hits|
  {
    if hits == [] then NoYield else Plus(HitYield(hits[0], k), HitTotals(hits[1..], k))
  }

  /** What one hit adds to barcode k's counters. */
  function HitYield(h: Hit, k: Value): Yield {
    if h.name == k then Yield(GetInt(h.bases), GetInt(h.readCount), 0, 0, 0, 0) else NoYield
  }

  lemma JsonStepTotals(acc: map<Value, Yield>, h: Hit, k: Value)
    requires JsonStep(acc, h).Ok?
    ensures YieldOr(JsonStep(acc, h).value, k) == Plus(YieldOr(acc, k), HitYield(h, k))
  {
  }

  function GetInt(v: Value): int {
    match PyInt(v)
    case Some(n) => n
    case None => 0
  }

  /** Every value int() accepts. */
  predicate Parsable(hits: seq<Hit>) {
    forall i :: 0 <= i < |hits| ==> PyInt(hits[i].bases).Some? && PyInt(hits[i].readCount).Some?
  }

  lemma {:induction false} JsonFromOk(acc: map<Value, Yield>, hits: seq<Hit>)
    ensures JsonFrom(acc, hits).Ok? <==> Parsable(hits)
    ensures JsonFrom(acc, hits).Err? ==> JsonFrom(acc, hits).error == JsonError
    decreases |hits|
  {
    if hits != [] {
      assert forall i :: 1 <= i < |hits| ==> hits[1..][i - 1] == hits[i];
      match JsonStep(acc, hits[0])
      case Err(e) =>
      case Ok(m) => JsonFromOk(m, hits[1..]);
    }
  }

  lemma {:induction false} JsonFromTotals(acc: map<Value, Yield>, hits: seq<Hit>, k: Value)
    requires JsonFrom(acc, hits).Ok?
    ensures YieldOr(JsonFrom(acc, hits).value, k) == Plus(YieldOr(acc, k), HitTotals(hits, k))
    decreases |hits|
  {
    if hits == [] {
      PlusNoneRight(YieldOr(acc, k));
    } else {
      var m := JsonStep(acc, hits[0]).value;
      JsonStepTotals(acc, hits[0], k);
      JsonFromTotals(m, hits[1..], k);
      PlusAssociative(YieldOr(acc, k), HitYield(hits[0], k), HitTotals(hits[1..], k));
    }
  }

  lemma {:induction false} JsonFromKeys(acc: map<Value, Yield>, hits: seq<Hit>, k: Value)
    requires JsonFrom(acc, hits).Ok?
    ensures k in JsonFrom(acc, hits).value <==> k in acc || exists i :: 0 <= i < |hits| && hits[i].name == k
    decreases |hits|
  {
    if hits != [] {
      var m := JsonStep(acc, hits[0]).value;
      assert k in m <==> k in acc || hits[0].name == k;
      JsonFromKeys(m, hits[1..], k);
      if exists i :: 1 <= i < |hits| && hits[i].name == k {
        var i :| 1 <= i < |hits| && hits[i].name == k;
        assert hits[1..][i - 1] == hits[i];
      }
      if exists i :: 0 <= i < |hits[1..]| && hits[1..][i].name == k {
        var i :| 0 <= i < |hits[1..]| && hits[1..][i].name == k;
        assert hits[1..][i] == hits[i + 1];
      }
    }
  }

  lemma {:induction false} HitTotalsBuckets(hits: seq<Hit>, k: Value)
    ensures HitTotals(hits, k).shortBases == 0 && HitTotals(hits, k).shortReads == 0
    ensures HitTotals(hits, k).longBases == 0 && HitTotals(hits, k).longReads == 0
    decreases |hits|
  {
    if hits != [] {
      HitTotalsBuckets(hits[1..], k);
    }
  }

  lemma {:induction false} HitTotalsAppend(xs: seq<Hit>, ys: seq<Hit>, k: Value)
    ensures HitTotals(xs + ys, k) == Plus(HitTotals(xs, k), HitTotals(ys, k))
    decreases |xs|
  {
    if xs == [] {
      assert xs + ys == ys;
      PlusNone(HitTotals(ys, k));
    } else {
      assert (xs + ys)[0] == xs[0];
      assert (xs + ys)[1..] == xs[1..] + ys;
      HitTotalsAppend(xs[1..], ys, k);
      PlusAssociative(HitYield(xs[0], k), HitTotals(xs[1..], k), HitTotals(ys, k));
    }
  }

  lemma {:induction false} AcquisitionsHitsAppend(xs: seq<Acquisition>, ys: seq<Acquisition>)
    ensures AcquisitionsHits(xs + ys) == AcquisitionsHits(xs) + AcquisitionsHits(ys)
    decreases |xs|
  {
    if xs == [] {
      assert xs + ys == ys;
    } else {
      assert (xs + ys)[0] == xs[0];
      assert (xs + ys)[1..] == xs[1..] + ys;
      AcquisitionsHitsAppend(xs[1..], ys);
    }
  }

  /** When the report reads, each barcode's counters hold the sums of the pass bases and
      pass reads over all its hits, and its buckets stay 0; a barcode has counters
      exactly when some hit names it. The report fails, with the JSON error, exactly when
      some hit carries a value int() rejects. */
  lemma JsonCounts(report: Report, k: Value)
    ensures JsonFrom(map[], ReportHits(report)).Ok? <==> Parsable(ReportHits(report))
    ensures JsonFrom(map[], ReportHits(report)).Err? ==> JsonFrom(map[], ReportHits(report)).error == JsonError
    ensures JsonFrom(map[], ReportHits(report)).Ok? ==>
              YieldOr(JsonFrom(map[], ReportHits(report)).value, k) == HitTotals(ReportHits(report), k)
    ensures JsonFrom(map[], ReportHits(report)).Ok? ==>
              (k in JsonFrom(map[], ReportHits(report)).value <==>
               exists i :: 0 <= i < |ReportHits(report)| && ReportHits(report)[i].name == k)
  {
    var none: map<Value, Yield> := map[];
    var hits := ReportHits(report);
    JsonFromOk(none, hits);
    if JsonFrom(none, hits).Ok? {
      JsonFromTotals(none, hits, k);
      JsonFromKeys(none, hits, k);
      assert YieldOr(none, k) == NoYield;
      PlusNone(HitTotals(hits, k));
    }
  }

  /** Acquisitions add up: the totals over a report are the totals over its first
      acquisitions plus those over the rest. */
  lemma AcquisitionsAddUp(xs: seq<Acquisition>, ys: seq<Acquisition>, k: Value)
    ensures HitTotals(AcquisitionsHits(xs + ys), k) ==
              Plus(HitTotals(AcquisitionsHits(xs), k), HitTotals(AcquisitionsHits(ys), k))
  {
    AcquisitionsHitsAppend(xs, ys);
    HitTotalsAppend(AcquisitionsHits(xs), AcquisitionsHits(ys), k);
  }

  // ---------------------------------------------------------------------
  // Per-sample rows

  const Million: real := 1000000.0

  /** Coverage: the yield in megabases over the genome size, 0 when the genome size is
      not positive (no division then). */
  function CoverageOf(bases: int, genomeMb: real): (c: real)
    ensures genomeMb > 0.0 ==> c * genomeMb == bases as real / Million
    ensures genomeMb <= 0.0 ==> c == 0.0
  {
    if genomeMb > 0.0 then (bases as real / Million) / genomeMb else 0.0
  }

  /** A bucket's average read length: int() of the total over the count, which drops the
      fraction toward zero; 0 without reads. */
  function AverageLength(total: int, count: int): int {
    if count <= 0 then 0
    else if total >= 0 then total / count
    else -((-total) / count)
  }

  lemma QuotientBounds(n: nat, d: int)
    requires d > 0
    ensures 0 <= (n / d) * d <= n < (n / d) * d + d
  {
  }

  /** The average is the whole number of times the count fits in the total, toward zero. */
  lemma AverageLengthBounds(total: int, count: int)
    ensures count <= 0 ==> AverageLength(total, count) == 0
    ensures count > 0 && total >= 0 ==>
              0 <= AverageLength(total, count) * count <= total < (AverageLength(total, count) + 1) * count
    ensures count > 0 && total < 0 ==>
              (AverageLength(total, count) - 1) * count < total <= AverageLength(total, count) * count <= 0
  {
    if count > 0 {
      var a := AverageLength(total, count);
      if total >= 0 {
        QuotientBounds(total, count);
        assert a == total / count;
        assert (a + 1) * count == a * count + count;
      } else {
        QuotientBounds(-total, count);
        var q := (-total) / count;
        assert a == -q;
        assert a * count == -(q * count);
        assert (a - 1) * count == a * count - count;
      }
    }
  }

  /** An alias longer than 14 characters is cut to its first 12 and "..."; so the shown
      alias is at most 15 characters and a short one is kept whole. */
  function ShortAlias(alias: string): (r: string)
    ensures |r| <= 15
    ensures |alias| <= 14 ==> r == alias
    ensures |alias| > 14 ==> |r| == 15 && r[..12] == alias[..12] && r[12..] == "..."
  {
    if |alias| > 14 then alias[..12] + ['.', '.', '.'] else alias
  }

  /** One output row: the shown alias, the barcode, the yields in megabases, the genome
      size, the coverage and the average lengths overall and per bucket. */
  datatype Row = Row(alias: string, barcode: string, totalMb: real, genomeMb: real, coverage: real,
                     avgLen: int, shortTotalMb: real, shortAvgLen: int, longTotalMb: real, longAvgLen: int)

  function RowOf(barcode: string, info: SampleInfo, y: Yield): Row {
    Row(ShortAlias(info.alias), barcode, y.bases as real / Million, info.genomeMb, CoverageOf(y.bases, info.genomeMb),
        AverageLength(y.bases, y.readCount),
        y.shortBases as real / Million, AverageLength(y.shortBases, y.shortReads),
        y.longBases as real / Million, AverageLength(y.longBases, y.longReads))
  }

  /** The row of a sample: its counters, all zeros when the report has none. */
  function RowFor(barcode: string, samples: map<string, SampleInfo>, counts: map<Value, Yield>): Row
    requires barcode in samples
  {
    RowOf(barcode, samples[barcode], YieldOr(counts, Str(barcode)))
  }

  /** With a filter, rows whose coverage reaches it are dropped. */
  predicate Kept(coverage: real, filter: Option<real>) {
    filter.None? || coverage < filter.value
  }

  /** The rows of the given samples in ascending barcode order, filtered: what
      iterating over sorted(samples.items()) produces. */
  ghost function RowsFrom(remaining: set<string>, samples: map<string, SampleInfo>, counts: map<Value, Yield>, filter: Option<real>): seq<Row>
    requires remaining <= samples.Keys
    decreases remaining
  {
    if remaining == {} then []
    else
      LeastExists(remaining);
      var barcode :| IsLeast(barcode, remaining);
      var row := RowFor(barcode, samples, counts);
      (if Kept(row.coverage, filter) then [row] else []) + RowsFrom(remaining - {barcode}, samples, counts, filter)
  }

  /** Walking the keys in order: the least barcode's row (when kept), then the rest. */
  lemma RowsFirst(remaining: set<string>, barcode: string, samples: map<string, SampleInfo>,
                  counts: map<Value, Yield>, filter: Option<real>)
    requires remaining <= samples.Keys && IsLeast(barcode, remaining)
    ensures Kept(RowFor(barcode, samples, counts).coverage, filter) ==>
              RowsFrom(remaining, samples, counts, filter) ==
              [RowFor(barcode, samples, counts)] + RowsFrom(remaining - {barcode}, samples, counts, filter)
    ensures !Kept(RowFor(barcode, samples, counts).coverage, filter) ==>
              RowsFrom(remaining, samples, counts, filter) == RowsFrom(remaining - {barcode}, samples, counts, filter)
  {
    var m :| IsLeast(m, remaining) && RowsFrom(remaining, samples, counts, filter) ==
               (if Kept(RowFor(m, samples, counts).coverage, filter) then [RowFor(m, samples, counts)] else [])
               + RowsFrom(remaining - {m}, samples, counts, filter);
    LeastUnique(m, barcode, remaining);
    if !Kept(RowFor(barcode, samples, counts).coverage, filter) {
      var later := RowsFrom(remaining - {m}, samples, counts, filter);
      assert [] + later == later;
    }
  }

  lemma PrefixStep<T>(done: seq<T>, x: T, later: seq<T>, whole: seq<T>)
    requires whole == [x] + later
    ensures done + whole == (done + [x]) + later
  {
  }

  /** The rows of all samples in ascending barcode order. */
  method OutputRows(samples: map<string, SampleInfo>, counts: map<Value, Yield>, filter: Option<real>) returns (rows: seq<Row>)
    ensures rows == RowsFrom(samples.Keys, samples, counts, filter)
  {
    rows := [];
    var remaining := samples.Keys;
    while remaining != {}
      invariant remaining <= samples.Keys
      invariant rows + RowsFrom(remaining, samples, counts, filter) == RowsFrom(samples.Keys, samples, counts, filter)
      decreases remaining
    {
      LeastExists(remaining);
      var barcode :| barcode in remaining && IsLeast(barcode, remaining);
      RowsFirst(remaining, barcode, samples, counts, filter);
      var row := RowOf(barcode, samples[barcode], YieldOr(counts, Str(barcode)));
      if Kept(row.coverage, filter) {
        PrefixStep(rows, row, RowsFrom(remaining - {barcode}, samples, counts, filter), RowsFrom(remaining, samples, counts, filter));
        rows := rows + [row];
      }
      remaining := remaining - {barcode};
    }
  }

  /** Strictly ascending by barcode. */
  predicate SortedByBarcode(rows: seq<Row>) {
    forall i, j :: 0 <= i < j < |rows| ==> Le(rows[i].barcode, rows[j].barcode) && rows[i].barcode != rows[j].barcode
  }

  lemma {:induction false} RowsFromSound(remaining: set<string>, samples: map<string, SampleInfo>, counts: map<Value, Yield>,
                                         filter: Option<real>, i: nat)
    requires remaining <= samples.Keys && i < |RowsFrom(remaining, samples, counts, filter)|
    ensures RowsFrom(remaining, samples, counts, filter)[i].barcode in remaining
    ensures RowsFrom(remaining, samples, counts, filter)[i] == RowFor(RowsFrom(remaining, samples, counts, filter)[i].barcode, samples, counts)
    ensures Kept(RowsFrom(remaining, samples, counts, filter)[i].coverage, filter)
    decreases remaining
  {
    LeastExists(remaining);
    var m :| IsLeast(m, remaining);
    RowsStep(remaining, m, samples, counts, filter, i);
    if i == 0 && Kept(RowFor(m, samples, counts).coverage, filter) {
    } else if Kept(RowFor(m, samples, counts).coverage, filter) {
      RowsFromSound(remaining - {m}, samples, counts, filter, i - 1);
    } else {
      RowsFromSound(remaining - {m}, samples, counts, filter, i);
    }
  }

  /** The i-th row of a walk: the least barcode's row when it is kept and i is 0, otherwise
      a row of the walk over the remaining keys, one position earlier when the least was kept. */
  lemma RowsStep(remaining: set<string>, m: string, samples: map<string, SampleInfo>, counts: map<Value, Yield>,
                 filter: Option<real>, i: nat)
    requires remaining <= samples.Keys && IsLeast(m, remaining) && i < |RowsFrom(remaining, samples, counts, filter)|
    ensures var rows := RowsFrom(remaining, samples, counts, filter);
      var rest := RowsFrom(remaining - {m}, samples, counts, filter);
      var row := RowFor(m, samples, counts);
      && (Kept(row.coverage, filter) && i == 0 ==> rows[i] == row && row.barcode == m)
      && (Kept(row.coverage, filter) && i > 0 ==> i - 1 < |rest| && rows[i] == rest[i - 1])
      && (!Kept(row.coverage, filter) ==> i < |rest| && rows[i] == rest[i])
  {
    var rows := RowsFrom(remaining, samples, counts, filter);
    var rest := RowsFrom(remaining - {m}, samples, counts, filter);
    var row := RowFor(m, samples, counts);
    RowsFirst(remaining, m, samples, counts, filter);
    if Kept(row.coverage, filter) {
      assert rows == [row] + rest;
      assert row.barcode == m;
    } else {
      assert rows == rest;
    }
  }

  lemma {:induction false} RowsFromComplete(remaining: set<string>, samples: map<string, SampleInfo>, counts: map<Value, Yield>,
                                            filter: Option<real>, barcode: string)
    requires remaining <= samples.Keys && barcode in remaining
    requires Kept(RowFor(barcode, samples, counts).coverage, filter)
    ensures RowFor(barcode, samples, counts) in RowsFrom(remaining, samples, counts, filter)
    decreases remaining
  {
    LeastExists(remaining);
    var m :| IsLeast(m, remaining);
    RowsFirst(remaining, m, samples, counts, filter);
    var rest := RowsFrom(remaining - {m}, samples, counts, filter);
    if Kept(RowFor(m, samples, counts).coverage, filter) {
    }
    if barcode != m {
      RowsFromComplete(remaining - {m}, samples, counts, filter, barcode);
    }
  }

  lemma SortedCons(row: Row, rest: seq<Row>)
    requires SortedByBarcode(rest)
    requires forall j :: 0 <= j < |rest| ==> Le(row.barcode, rest[j].barcode) && row.barcode != rest[j].barcode
    ensures SortedByBarcode([row] + rest)
  {
    var rows := [row] + rest;
    forall i, j | 0 <= i < j < |rows|
      ensures Le(rows[i].barcode, rows[j].barcode) && rows[i].barcode != rows[j].barcode
    {
      assert rows[j] == rest[j - 1];
      if i > 0 {
        assert rows[i] == rest[i - 1];
      }
    }
  }

  lemma {:induction false} RowsFromSorted(remaining: set<string>, samples: map<string, SampleInfo>, counts: map<Value, Yield>,
                                          filter: Option<real>)
    requires remaining <= samples.Keys
    ensures SortedByBarcode(RowsFrom(remaining, samples, counts, filter))
    decreases remaining
  {
    if remaining != {} {
      LeastExists(remaining);
      var m :| IsLeast(m, remaining);
      RowsFirst(remaining, m, samples, counts, filter);
      var rest := RowsFrom(remaining - {m}, samples, counts, filter);
      RowsFromSorted(remaining - {m}, samples, counts, filter);
      if Kept(RowFor(m, samples, counts).coverage, filter) {
        forall j | 0 <= j < |rest|
          ensures Le(m, rest[j].barcode) && m != rest[j].barcode
        {
          RowsFromSound(remaining - {m}, samples, counts, filter, j);
        }
        SortedCons(RowFor(m, samples, counts), rest);
      }
    }
  }

  /** The rows come in strictly ascending barcode order; every row is the row of a sample
      that passes the filter, and every such sample has its row. */
  lemma OutputRowsSpec(samples: map<string, SampleInfo>, counts: map<Value, Yield>, filter: Option<real>, barcode: string)
    ensures SortedByBarcode(RowsFrom(samples.Keys, samples, counts, filter))
    ensures forall i :: 0 <= i < |RowsFrom(samples.Keys, samples, counts, filter)| ==>
              var row := RowsFrom(samples.Keys, samples, counts, filter)[i];
              row.barcode in samples && row == RowFor(row.barcode, samples, counts) && Kept(row.coverage, filter)
    ensures barcode in samples && Kept(RowFor(barcode, samples, counts).coverage, filter) ==>
              RowFor(barcode, samples, counts) in RowsFrom(samples.Keys, samples, counts, filter)
  {
    RowsFromSorted(samples.Keys, samples, counts, filter);
    forall i | 0 <= i < |RowsFrom(samples.Keys, samples, counts, filter)|
      ensures var row := RowsFrom(samples.Keys, samples, counts, filter)[i];
              row.barcode in samples && row == RowFor(row.barcode, samples, counts) && Kept(row.coverage, filter)
    {
      RowsFromSound(samples.Keys, samples, counts, filter, i);
    }
    if barcode in samples && Kept(RowFor(barcode, samples, counts).coverage, filter) {
      RowsFromComplete(samples.Keys, samples, counts, filter, barcode);
    }
  }

  /** A sample the report does not mention gets all-zero counters: no yield, coverage 0,
      average lengths 0. */
  lemma RowWithoutYield(barcode: string, samples: map<string, SampleInfo>, counts: map<Value, Yield>)
    requires barcode in samples && Str(barcode) !in counts
    ensures RowFor(barcode, samples, counts).totalMb == 0.0 && RowFor(barcode, samples, counts).coverage == 0.0
    ensures RowFor(barcode, samples, counts).avgLen == 0
    ensures RowFor(barcode, samples, counts).shortAvgLen == 0 && RowFor(barcode, samples, counts).longAvgLen == 0
  {
    assert YieldOr(counts, Str(barcode)) == NoYield;
  }

  // ---------------------------------------------------------------------
  // The analysis

  const BaseColumns: seq<string> := ["alias", "barcode", "total_mb", "genome_mb", "coverage"]
  const BucketColumns: seq<string> := ["avg_len", "short_total_mb", "short_avg_len", "long_total_mb", "long_avg_len"]

  const MismatchError := "Run mismatch"
  const NoReportError := "Either --json or --summary must be provided"

  /** The columns shown and the rows, in output order. */
  datatype Analysis = Analysis(columns: seq<string>, rows: seq<Row>)

  /** The lenient id check: a mismatch is fatal only when both ids are truthy and differ. */
  predicate LenientMismatch(csvId: Option<string>, jsonId: Value) {
    csvId.Some? && csvId.value != "" && Truthy(jsonId) && Str(csvId.value) != jsonId
  }

  /** The counters from whichever report is given; the summary wins over the run report. */
  function CountsOf(csvId: Option<string>, summary: Option<seq<SummaryRow>>, report: Option<Report>, threshold: int)
    : Result<map<Value, Yield>, string>
  {
    if summary.Some? then Ok(SummaryFrom(map[], summary.value, threshold))
    else if report.Some? then
      if LenientMismatch(csvId, report.value.groupId) then Err(MismatchError) else JsonFrom(map[], ReportHits(report.value))
    else Err(NoReportError)
  }

  /** The whole analysis: the sheet, then the counters, then the rows. */
  ghost function AnalysisOf(csvRows: seq<CsvRow>, summary: Option<seq<SummaryRow>>, report: Option<Report>,
                            filter: Option<real>, threshold: int): Result<Analysis, string>
  {
    match ReadSheetOf(csvRows)
    case Err(e) => Err(e)
    case Ok(sheet) =>
      match CountsOf(sheet.experimentId, summary, report, threshold)
      case Err(e) => Err(e)
      case Ok(counts) =>
        Ok(Analysis(if summary.Some? then BaseColumns + BucketColumns else BaseColumns,
                    RowsFrom(sheet.samples.Keys, sheet.samples, counts, filter)))
  }

  method RunCoverageAnalysis(csvRows: seq<CsvRow>, summary: Option<seq<SummaryRow>>, report: Option<Report>,
                             filter: Option<real>, threshold: int) returns (r: Result<Analysis, string>)
    ensures r == AnalysisOf(csvRows, summary, report, filter, threshold)
  {
    var sheet := ReadSheet(csvRows);
    if sheet.Err? {
      return Err(sheet.error);
    }
    var counts: map<Value, Yield>;
    if summary.Some? {
      counts := SummaryYields(summary.value, threshold);
    } else if report.Some? {
      var csvId := sheet.value.experimentId;
      var jsonId := report.value.groupId;
      if csvId.Some? && csvId.value != "" && Truthy(jsonId) && Str(csvId.value) != jsonId {
        return Err(MismatchError);
      }
      var read := JsonYields(report.value);
      if read.Err? {
        return Err(read.error);
      }
      counts := read.value;
    } else {
      return Err(NoReportError);
    }
    var columns := BaseColumns;
    if summary.Some? {
      columns := columns + BucketColumns;
    }
    var rows := OutputRows(sheet.value.samples, counts, filter);
    return Ok(Analysis(columns, rows));
  }

  /** An unreadable sheet stops the analysis first, with the CSV error. */
  lemma AnalysisSheetFirst(csvRows: seq<CsvRow>, summary: Option<seq<SummaryRow>>, report: Option<Report>,
                           filter: Option<real>, threshold: int)
    requires exists i :: 0 <= i < |csvRows| && SampleOf(csvRows[i]).None?
    ensures AnalysisOf(csvRows, summary, report, filter, threshold) == Err(CsvError)
  {
    ReadSheetFails(csvRows);
  }

  /** Without either report the analysis fails. */
  lemma AnalysisNeedsReport(csvRows: seq<CsvRow>, filter: Option<real>, threshold: int)
    ensures AnalysisOf(csvRows, None, None, filter, threshold).Err?
    ensures Readable(csvRows) ==> AnalysisOf(csvRows, None, None, filter, threshold) == Err(NoReportError)
  {
    SheetFromOk(Sheet(map[], None), csvRows);
  }

  /** With summary counters every row's short and long yields add up to its total. */
  lemma SummaryRowsBalanced(samples: map<string, SampleInfo>, summary: seq<SummaryRow>, threshold: int, filter: Option<real>)
    ensures forall i :: 0 <= i < |RowsFrom(samples.Keys, samples, SummaryFrom(map[], summary, threshold), filter)| ==>
              var row := RowsFrom(samples.Keys, samples, SummaryFrom(map[], summary, threshold), filter)[i];
              row.shortTotalMb + row.longTotalMb == row.totalMb
  {
    var counts := SummaryFrom(map[], summary, threshold);
    var rows := RowsFrom(samples.Keys, samples, counts, filter);
    forall i | 0 <= i < |rows|
      ensures rows[i].shortTotalMb + rows[i].longTotalMb == rows[i].totalMb
    {
      RowsFromSound(samples.Keys, samples, counts, filter, i);
      var b := rows[i].barcode;
      SummaryBalanced(summary, threshold, Str(b));
      BalancedRow(b, samples[b], YieldOr(counts, Str(b)));
    }
  }

  lemma BalancedRow(barcode: string, info: SampleInfo, y: Yield)
    requires Balanced(y)
    ensures RowOf(barcode, info, y).shortTotalMb + RowOf(barcode, info, y).longTotalMb == RowOf(barcode, info, y).totalMb
  {
    assert y.shortBases as real + y.longBases as real == y.bases as real;
  }

  /** With run-report counters every row's buckets are empty. */
  lemma ReportRowsUnbucketed(samples: map<string, SampleInfo>, report: Report, filter: Option<real>)
    requires JsonFrom(map[], ReportHits(report)).Ok?
    ensures forall i :: 0 <= i < |RowsFrom(samples.Keys, samples, JsonFrom(map[], ReportHits(report)).value, filter)| ==>
              var row := RowsFrom(samples.Keys, samples, JsonFrom(map[], ReportHits(report)).value, filter)[i];
              row.shortTotalMb == 0.0 && row.longTotalMb == 0.0
  {
    var counts := JsonFrom(map[], ReportHits(report)).value;
    var rows := RowsFrom(samples.Keys, samples, counts, filter);
    forall i | 0 <= i < |rows|
      ensures rows[i].shortTotalMb == 0.0 && rows[i].longTotalMb == 0.0
    {
      RowsFromSound(samples.Keys, samples, counts, filter, i);
      JsonCounts(report, Str(rows[i].barcode));
      HitTotalsBuckets(ReportHits(report), Str(rows[i].barcode));
    }
  }

  /** With a summary the run report is ignored, the bucket columns are shown, and every
      row's short and long yields add up to its total yield. */
  lemma AnalysisSummary(csvRows: seq<CsvRow>, summary: seq<SummaryRow>, report: Option<Report>,
                        filter: Option<real>, threshold: int)
    requires ReadSheetOf(csvRows).Ok?
    ensures AnalysisOf(csvRows, Some(summary), report, filter, threshold) == AnalysisOf(csvRows, Some(summary), None, filter, threshold)
    ensures AnalysisOf(csvRows, Some(summary), report, filter, threshold).Ok?
    ensures AnalysisOf(csvRows, Some(summary), report, filter, threshold).value.columns == BaseColumns + BucketColumns
    ensures forall i :: 0 <= i < |AnalysisOf(csvRows, Some(summary), report, filter, threshold).value.rows| ==>
              var row := AnalysisOf(csvRows, Some(summary), report, filter, threshold).value.rows[i];
              row.shortTotalMb + row.longTotalMb == row.totalMb
  {
    var sheet := ReadSheetOf(csvRows).value;
    var counts := SummaryFrom(map[], summary, threshold);
    assert AnalysisOf(csvRows, Some(summary), report, filter, threshold) ==
           Ok(Analysis(BaseColumns + BucketColumns, RowsFrom(sheet.samples.Keys, sheet.samples, counts, filter)));
    SummaryRowsBalanced(sheet.samples, summary, threshold, filter);
  }

  /** On the run report path: a lenient mismatch is fatal; otherwise the analysis fails
      exactly when a yield value does not read as an integer, and every shown row has
      empty buckets. */
  lemma AnalysisReport(csvRows: seq<CsvRow>, report: Report, filter: Option<real>, threshold: int)
    requires ReadSheetOf(csvRows).Ok?
    ensures LenientMismatch(ReadSheetOf(csvRows).value.experimentId, report.groupId) ==>
              AnalysisOf(csvRows, None, Some(report), filter, threshold) == Err(MismatchError)
    ensures !LenientMismatch(ReadSheetOf(csvRows).value.experimentId, report.groupId) ==>
              (AnalysisOf(csvRows, None, Some(report), filter, threshold).Ok? <==> Parsable(ReportHits(report)))
    ensures AnalysisOf(csvRows, None, Some(report), filter, threshold).Ok? ==>
              AnalysisOf(csvRows, None, Some(report), filter, threshold).value.columns == BaseColumns
    ensures AnalysisOf(csvRows, None, Some(report), filter, threshold).Ok? ==>
              forall i :: 0 <= i < |AnalysisOf(csvRows, None, Some(report), filter, threshold).value.rows| ==>
                var row := AnalysisOf(csvRows, None, Some(report), filter, threshold).value.rows[i];
                row.shortTotalMb == 0.0 && row.longTotalMb == 0.0
  {
    var sheet := ReadSheetOf(csvRows).value;
    if !LenientMismatch(sheet.experimentId, report.groupId) {
      JsonCounts(report, Null);
      if Parsable(ReportHits(report)) {
        var counts := JsonFrom(map[], ReportHits(report)).value;
        assert AnalysisOf(csvRows, None, Some(report), filter, threshold) ==
               Ok(Analysis(BaseColumns, RowsFrom(sheet.samples.Keys, sheet.samples, counts, filter)));
        ReportRowsUnbucketed(sheet.samples, report, filter);
      }
    }
  }
}
