/** The older coverage script: the same sample sheet and the same walk over the run
    report, but bases only, a strict experiment-id check, a value int() rejects left
    uncaught, and a coverage display that switches to a whole number at 1x. */
module LegacyCoverage {
  import opened Values
  import opened Text
  import opened Coverage

  /** What an int() the script does not catch ends the run with. */
  const Uncaught := "uncaught exception"

  // ---------------------------------------------------------------------
  // The strict experiment-id check

  /** The CSV's experiment id as the value it is compared with: None stays None. */
  function CsvIdValue(csvId: Option<string>): Value {
    match csvId
    case None => Null
    case Some(s) => Str(s)
  }

  /** Any inequality is fatal, an absent id included. */
  predicate StrictMismatch(csvId: Option<string>, jsonId: Value) {
    CsvIdValue(csvId) != jsonId
  }

  /** Both ids absent passes; exactly one absent fails; equal ids pass. Every mismatch
      the lenient check rejects, the strict one rejects too. */
  lemma StrictCheck(csvId: Option<string>, jsonId: Value)
    ensures csvId.None? ==> (StrictMismatch(csvId, jsonId) <==> jsonId != Null)
    ensures csvId.Some? ==> (StrictMismatch(csvId, jsonId) <==> jsonId != Str(csvId.value))
    ensures LenientMismatch(csvId, jsonId) ==> StrictMismatch(csvId, jsonId)
  {
  }

  /** The two checks differ: a report with an id against a sheet without one passes the
      lenient check and fails the strict one. */
  lemma StrictStricterThanLenient()
    ensures !LenientMismatch(None, Str("run1")) && StrictMismatch(None, Str("run1"))
    ensures !LenientMismatch(Some(""), Str("run1")) && StrictMismatch(Some(""), Str("run1"))
  {
    assert Str("") != Str("run1") by {
      assert |""| != |"run1"|;
    }
  }

  // ---------------------------------------------------------------------
  // Bases per barcode

  /** bases.get(k, 0) */
  function BasesOr(bases: map<Value, int>, k: Value): int {
    if k in bases then bases[k] else 0
  }

  /** One hit's pass bases added; a value int() rejects ends the run. */
  function LegacyStep(acc: map<Value, int>, h: Hit): Result<map<Value, int>, string> {
    match PyInt(h.bases)
    case None => Err(Uncaught)
    case Some(b) => Ok(acc[h.name := BasesOr(acc, h.name) + b])
  }

  function LegacyFrom(acc: map<Value, int>, hits: seq<Hit>): Result<map<Value, int>, string>
    decreases |hits|
  {
    if hits == [] then Ok(acc)
    else
      match LegacyStep(acc, hits[0])
      case Err(e) => Err(e)
      case Ok(m) => LegacyFrom(m, hits[1..])
  }

  function LegacyThen(r: Result<map<Value, int>, string>, hits: seq<Hit>): Result<map<Value, int>, string> {
    match r
    case Err(e) => Err(e)
    case Ok(m) => LegacyFrom(m, hits)
  }

  lemma {:induction false} LegacyFromAppend(acc: map<Value, int>, xs: seq<Hit>, ys: seq<Hit>)
    ensures LegacyFrom(acc, xs + ys) == LegacyThen(LegacyFrom(acc, xs), ys)
    decreases |xs|
  {
    if xs == [] {
      assert xs + ys == ys;
    } else {
      var zs := xs + ys;
      assert zs[0] == xs[0];
      assert zs[1..] == xs[1..] + ys;
      var step := LegacyStep(acc, xs[0]);
      if step.Ok? {
        LegacyFromAppend(step.value, xs[1..], ys);
        assert LegacyFrom(acc, zs) == LegacyFrom(step.value, xs[1..] + ys);
        assert LegacyFrom(acc, xs) == LegacyFrom(step.value, xs[1..]);
      } else {
        assert LegacyFrom(acc, zs) == step;
        assert LegacyFrom(acc, xs) == step;
      }
    }
  }

  lemma LegacyFromOne(acc: map<Value, int>, h: Hit)
    ensures LegacyFrom(acc, [h]) == LegacyStep(acc, h)
  {
    assert [h][1..] == [];
  }

  /** One barcode entry: skipped without a truthy name or without snapshots, otherwise
      the last snapshot's pass bases added. */
  method AddEntryBases(bases: map<Value, int>, entry: BarcodeEntry) returns (r: Result<map<Value, int>, string>)
    ensures r == LegacyFrom(bases, EntryHits(entry))
  {
    var name := FindBarcodeName(entry.filtering);
    var snaps := entry.snapshots;
    if !Truthy(name) || snaps == [] {
      assert EntryHits(entry) == [];
      return Ok(bases);
    }
    var last := snaps[|snaps| - 1].yieldSummary;
    ghost var h := Hit(name, GetOr(last, "basecalled_pass_bases", Str("0")), GetOr(last, "basecalled_pass_read_count", Str("0")));
    assert EntryHits(entry) == [h];
    LegacyFromOne(bases, h);
    var n := PyInt(GetOr(last, "basecalled_pass_bases", Str("0")));
    if n.None? {
      return Err(Uncaught);
    }
    LegacyStepUpdate(bases, h, n.value);
    return Ok(bases[name := (if name in bases then bases[name] else 0) + n.value]);
  }

  method AddEntriesBases(bases: map<Value, int>, entries: seq<BarcodeEntry>) returns (r: Result<map<Value, int>, string>)
    ensures r == LegacyFrom(bases, EntriesHits(entries))
  {
    var acc := bases;
    for j := 0 to |entries|
      invariant LegacyFrom(acc, EntriesHits(entries[j..])) == LegacyFrom(bases, EntriesHits(entries))
    {
      assert entries[j..][1..] == entries[j + 1..];
      LegacyFromAppend(acc, EntryHits(entries[j]), EntriesHits(entries[j + 1..]));
      var step := AddEntryBases(acc, entries[j]);
      if step.Err? {
        return step;
      }
      acc := step.value;
    }
    assert entries[|entries|..] == [];
    return Ok(acc);
  }

  lemma LegacyStepUpdate(before: map<Value, int>, h: Hit, n: int)
    requires PyInt(h.bases) == Some(n)
    ensures LegacyStep(before, h) == Ok(before[h.name := (if h.name in before then before[h.name] else 0) + n])
  {
  }

  method AddOutputBases(bases: map<Value, int>, outputs: seq<Output>) returns (r: Result<map<Value, int>, string>)
    ensures r == LegacyFrom(bases, OutputsHits(outputs))
  {
    var acc := bases;
    for o := 0 to |outputs|
      invariant LegacyFrom(acc, OutputsHits(outputs[o..])) == LegacyFrom(bases, OutputsHits(outputs))
    {
      assert outputs[o..][1..] == outputs[o + 1..];
      LegacyFromAppend(acc, OutputHits(outputs[o]), OutputsHits(outputs[o + 1..]));
      var out := outputs[o];
      if out.kind == Str("SplitByBarcode") {
        var plot := out.plot;
        if plot == [] {
          continue;
        }
        var step := AddEntriesBases(acc, plot[0].entries);
        if step.Err? {
          return step;
        }
        acc := step.value;
      }
    }
    assert outputs[|outputs|..] == [];
    return Ok(acc);
  }

  /** The run report's pass bases summed per barcode over all acquisitions. */
  method LegacyYields(report: Report) returns (r: Result<map<Value, int>, string>)
    ensures r == LegacyFrom(map[], ReportHits(report))
  {
    var acquisitions := report.acquisitions;
    var bases: map<Value, int> := map[];
    for a := 0 to |acquisitions|
      invariant LegacyFrom(bases, AcquisitionsHits(acquisitions[a..])) == LegacyFrom(map[], ReportHits(report))
    {
      assert acquisitions[a..][1..] == acquisitions[a + 1..];
      LegacyFromAppend(bases, OutputsHits(acquisitions[a].outputs), AcquisitionsHits(acquisitions[a + 1..]));
      var step := AddOutputBases(bases, acquisitions[a].outputs);
      if step.Err? {
        return step;
      }
      bases := step.value;
    }
    assert acquisitions[|acquisitions|..] == [];
    return Ok(bases);
  }

  /** The pass bases of the hits named k, summed. */
  function BaseTotal(hits: seq<Hit>, k: Value): int
    decreases |hits|
  {
    if hits == [] then 0 else (if hits[0].name == k then GetInt(hits[0].bases) else 0) + BaseTotal(hits[1..], k)
  }

  lemma {:induction false} LegacyFromTotals(acc: map<Value, int>, hits: seq<Hit>, k: Value)
    requires LegacyFrom(acc, hits).Ok?
    ensures BasesOr(LegacyFrom(acc, hits).value, k) == BasesOr(acc, k) + BaseTotal(hits, k)
    ensures k in LegacyFrom(acc, hits).value <==> k in acc || exists i :: 0 <= i < |hits| && hits[i].name == k
    decreases |hits|
  {
    if hits != [] {
      var m := LegacyStep(acc, hits[0]).value;
      assert BasesOr(m, k) == BasesOr(acc, k) + (if hits[0].name == k then GetInt(hits[0].bases) else 0);
      LegacyFromTotals(m, hits[1..], k);
      if exists i :: 1 <= i < |hits| && hits[i].name == k {
        var i :| 1 <= i < |hits| && hits[i].name == k;
        assert hits[1..][i - 1] == hits[i];
      }
      if exists i :: 0 <= i < |hits[1..]| && hits[1..][i].name == k {
        var i :| 0 <= i < |hits[1..]| && hits[1..][i].name == k;
        assert hits[1..][i] == hits[i + 1];
      }
    }
  }

  /** Each barcode's bases are the sum of the pass bases of the hits naming it. */
  lemma LegacyCounts(report: Report, k: Value)
    requires LegacyFrom(map[], ReportHits(report)).Ok?
    ensures BasesOr(LegacyFrom(map[], ReportHits(report)).value, k) == BaseTotal(ReportHits(report), k)
  {
    var none: map<Value, int> := map[];
    LegacyFromTotals(none, ReportHits(report), k);
  }

  // ---------------------------------------------------------------------
  // Agreement with the coverage report's run-report path

  /** Bases-only counters that agree with full counters on keys and bases. */
  predicate Agree(legacy: map<Value, int>, full: map<Value, Yield>) {
    legacy.Keys == full.Keys && forall k :: k in full ==> legacy[k] == full[k].bases
  }

  lemma AgreeStep(legacy: map<Value, int>, full: map<Value, Yield>, h: Hit)
    requires Agree(legacy, full) && JsonStep(full, h).Ok?
    ensures LegacyStep(legacy, h).Ok? && Agree(LegacyStep(legacy, h).value, JsonStep(full, h).value)
  {
    var m := JsonStep(full, h).value;
    var l := LegacyStep(legacy, h).value;
    assert l.Keys == m.Keys;
    forall k | k in m
      ensures l[k] == m[k].bases
    {
      if k != h.name {
        assert l[k] == legacy[k] && m[k] == full[k];
      }
    }
  }

  lemma {:induction false} AgreeFrom(legacy: map<Value, int>, full: map<Value, Yield>, hits: seq<Hit>)
    requires Agree(legacy, full) && JsonFrom(full, hits).Ok?
    ensures LegacyFrom(legacy, hits).Ok? && Agree(LegacyFrom(legacy, hits).value, JsonFrom(full, hits).value)
    decreases |hits|
  {
    if hits != [] {
      AgreeStep(legacy, full, hits[0]);
      AgreeFrom(LegacyStep(legacy, hits[0]).value, JsonStep(full, hits[0]).value, hits[1..]);
    }
  }

  /** Whenever the coverage report reads a run report, the legacy script reads it too and
      finds the same barcodes with the same base totals. */
  lemma SameBaseTotals(report: Report)
    requires JsonFrom(map[], ReportHits(report)).Ok?
    ensures LegacyFrom(map[], ReportHits(report)).Ok?
    ensures LegacyFrom(map[], ReportHits(report)).value.Keys == JsonFrom(map[], ReportHits(report)).value.Keys
    ensures forall k :: k in JsonFrom(map[], ReportHits(report)).value ==>
              LegacyFrom(map[], ReportHits(report)).value[k] == JsonFrom(map[], ReportHits(report)).value[k].bases
  {
    var none: map<Value, int> := map[];
    var empty: map<Value, Yield> := map[];
    AgreeFrom(none, empty, ReportHits(report));
  }

  /** The converse fails: the legacy script never reads the read counts, so a report whose
      read count is not a number still gives it bases while the coverage report fails. */
  lemma ReadCountOnlyBreaksCoverage()
    ensures var report := Report(Null, [Acquisition([Output(Str("SplitByBarcode"), [Plot([
              BarcodeEntry([map["barcode_name" := Str("barcode01")]],
                           [Snapshot(map["basecalled_pass_bases" := Int(5), "basecalled_pass_read_count" := Null])])])])])]);
            LegacyFrom(map[], ReportHits(report)).Ok? && JsonFrom(map[], ReportHits(report)).Err?
  {
    var entry := BarcodeEntry([map["barcode_name" := Str("barcode01")]],
                              [Snapshot(map["basecalled_pass_bases" := Int(5), "basecalled_pass_read_count" := Null])]);
    var output := Output(Str("SplitByBarcode"), [Plot([entry])]);
    var report := Report(Null, [Acquisition([output])]);
    var h := Hit(Str("barcode01"), Int(5), Null);
    assert BarcodeName(entry.filtering) == Str("barcode01");
    assert EntryHits(entry) == [h];
    assert EntriesHits([entry]) == [h] + EntriesHits([]);
    assert OutputHits(output) == [h];
    assert OutputsHits([output]) == [h] + OutputsHits([]);
    assert AcquisitionsHits(report.acquisitions) == [h] + AcquisitionsHits([]);
    assert ReportHits(report) == [h];
    LegacyFromOne(map[], h);
    JsonFromOne(map[], h);
  }

  // ---------------------------------------------------------------------
  // Coverage display

  /** round(): the nearest integer, ties to the even one. */
  function RoundHalfEven(x: real): (n: int)
    ensures n as real - 0.5 <= x <= n as real + 0.5
    ensures (x == n as real - 0.5 || x == n as real + 0.5) ==> n % 2 == 0
  {
    var f := x.Floor;
    var d := x - f as real;
    if d < 0.5 then f
    else if d > 0.5 then f + 1
    else if f % 2 == 0 then f
    else f + 1
  }

  /** The shown coverage: a whole number from 1x up, one decimal below. */
  datatype Display = Whole(n: int) | OneDecimal(x: real)

  function DisplayOf(coverage: real): (d: Display)
    ensures coverage >= 1.0 ==> d.Whole? && d.n >= 1 && d.n as real - 0.5 <= coverage <= d.n as real + 0.5
    ensures coverage < 1.0 ==> d == OneDecimal(coverage)
  {
    if coverage >= 1.0 then Whole(RoundHalfEven(coverage)) else OneDecimal(coverage)
  }

  // ---------------------------------------------------------------------
  // Rows

  /** One printed row: the alias in full, the barcode, the yield and genome size in
      megabases, and the coverage as displayed. */
  datatype LegacyRow = LegacyRow(alias: string, barcode: string, totalMb: real, genomeMb: real, shown: Display)

  function LegacyRowFor(barcode: string, samples: map<string, SampleInfo>, bases: map<Value, int>): LegacyRow
    requires barcode in samples
  {
    var info := samples[barcode];
    var total := BasesOr(bases, Str(barcode));
    LegacyRow(info.alias, barcode, total as real / Million, info.genomeMb, DisplayOf(CoverageOf(total, info.genomeMb)))
  }

  /** One row per barcode, in the order given. */
  function LegacyRowsOf(keys: seq<string>, samples: map<string, SampleInfo>, bases: map<Value, int>): seq<LegacyRow>
    requires forall k :: k in keys ==> k in samples
    decreases |keys|
  {
    if keys == [] then [] else [LegacyRowFor(keys[0], samples, bases)] + LegacyRowsOf(keys[1..], samples, bases)
  }

  lemma {:induction false} LegacyRowsIndex(keys: seq<string>, samples: map<string, SampleInfo>, bases: map<Value, int>)
    requires forall k :: k in keys ==> k in samples
    ensures |LegacyRowsOf(keys, samples, bases)| == |keys|
    ensures forall i :: 0 <= i < |keys| ==> LegacyRowsOf(keys, samples, bases)[i] == LegacyRowFor(keys[i], samples, bases)
    decreases |keys|
  {
    if keys != [] {
      LegacyRowsIndex(keys[1..], samples, bases);
      forall i | 1 <= i < |keys|
        ensures LegacyRowsOf(keys, samples, bases)[i] == LegacyRowFor(keys[i], samples, bases)
      {
        assert keys[1..][i - 1] == keys[i];
      }
    }
  }

  lemma LegacyRowsStep(done: seq<LegacyRow>, remaining: set<string>, barcode: string,
                       samples: map<string, SampleInfo>, bases: map<Value, int>)
    requires remaining <= samples.Keys && IsLeast(barcode, remaining)
    ensures done + LegacyRowsOf(SortedKeys(remaining), samples, bases) ==
            (done + [LegacyRowFor(barcode, samples, bases)]) + LegacyRowsOf(SortedKeys(remaining - {barcode}), samples, bases)
  {
    SortedKeysFirst(remaining, barcode);
    var rest := SortedKeys(remaining - {barcode});
    assert ([barcode] + rest)[1..] == rest;
    PrefixStep(done, LegacyRowFor(barcode, samples, bases), LegacyRowsOf(rest, samples, bases),
               LegacyRowsOf(SortedKeys(remaining), samples, bases));
  }

  /** The rows of all samples in ascending barcode order. */
  method LegacyRows(samples: map<string, SampleInfo>, bases: map<Value, int>) returns (rows: seq<LegacyRow>)
    ensures rows == LegacyRowsOf(SortedKeys(samples.Keys), samples, bases)
  {
    rows := [];
    var remaining := samples.Keys;
    while remaining != {}
      invariant remaining <= samples.Keys
      invariant rows + LegacyRowsOf(SortedKeys(remaining), samples, bases) == LegacyRowsOf(SortedKeys(samples.Keys), samples, bases)
      decreases remaining
    {
      LeastExists(remaining);
      var barcode :| barcode in remaining && IsLeast(barcode, remaining);
      LegacyRowsStep(rows, remaining, barcode, samples, bases);
      var info := samples[barcode];
      var total := if Str(barcode) in bases then bases[Str(barcode)] else 0;
      var coverage := CoverageOf(total, info.genomeMb);
      var shown := if coverage >= 1.0 then Whole(RoundHalfEven(coverage)) else OneDecimal(coverage);
      rows := rows + [LegacyRow(info.alias, barcode, total as real / Million, info.genomeMb, shown)];
      remaining := remaining - {barcode};
    }
  }

  // ---------------------------------------------------------------------
  // The script

  /** The sheet, the strict check, the bases, then one row per sample. */
  ghost function LegacyOf(csvRows: seq<CsvRow>, report: Report): Result<seq<LegacyRow>, string> {
    match ReadSheetOf(csvRows)
    case Err(e) => Err(e)
    case Ok(sheet) =>
      if StrictMismatch(sheet.experimentId, report.groupId) then Err(MismatchError)
      else
        match LegacyFrom(map[], ReportHits(report))
        case Err(e) => Err(e)
        case Ok(bases) => Ok(LegacyRowsOf(SortedKeys(sheet.samples.Keys), sheet.samples, bases))
  }

  method CalculateCoverage(csvRows: seq<CsvRow>, report: Report) returns (r: Result<seq<LegacyRow>, string>)
    ensures r == LegacyOf(csvRows, report)
  {
    var sheet := ReadSheet(csvRows);
    if sheet.Err? {
      return Err(sheet.error);
    }
    var csvId := sheet.value.experimentId;
    if (if csvId.None? then Null else Str(csvId.value)) != report.groupId {
      return Err(MismatchError);
    }
    var bases := LegacyYields(report);
    if bases.Err? {
      return Err(bases.error);
    }
    var rows := LegacyRows(sheet.value.samples, bases.value);
    return Ok(rows);
  }

  /** The script's output: every sample once, in ascending barcode order, with the bases
      the report gives it (0 when the report has none) and the coverage shown by the
      display rule. */
  lemma LegacyRowsSpec(csvRows: seq<CsvRow>, report: Report)
    requires LegacyOf(csvRows, report).Ok?
    ensures |LegacyOf(csvRows, report).value| == |ReadSheetOf(csvRows).value.samples|
    ensures forall i, j :: 0 <= i < j < |LegacyOf(csvRows, report).value| ==>
              Le(LegacyOf(csvRows, report).value[i].barcode, LegacyOf(csvRows, report).value[j].barcode) &&
              LegacyOf(csvRows, report).value[i].barcode != LegacyOf(csvRows, report).value[j].barcode
    ensures forall i :: 0 <= i < |LegacyOf(csvRows, report).value| ==>
              var row := LegacyOf(csvRows, report).value[i];
              var samples := ReadSheetOf(csvRows).value.samples;
              row.barcode in samples &&
              row.totalMb == BaseTotal(ReportHits(report), Str(row.barcode)) as real / Million &&
              row.shown == DisplayOf(CoverageOf(BaseTotal(ReportHits(report), Str(row.barcode)), samples[row.barcode].genomeMb))
  {
    var samples := ReadSheetOf(csvRows).value.samples;
    var keys := SortedKeys(samples.Keys);
    var bases := LegacyFrom(map[], ReportHits(report)).value;
    var rows := LegacyOf(csvRows, report).value;
    assert rows == LegacyRowsOf(keys, samples, bases);
    LegacyRowsIndex(keys, samples, bases);
    assert |keys| == |samples.Keys| == |samples|;
    forall i | 0 <= i < |rows|
      ensures rows[i].barcode in samples
      ensures rows[i].totalMb == BaseTotal(ReportHits(report), Str(rows[i].barcode)) as real / Million
      ensures rows[i].shown == DisplayOf(CoverageOf(BaseTotal(ReportHits(report), Str(rows[i].barcode)), samples[rows[i].barcode].genomeMb))
    {
      LegacyCounts(report, Str(keys[i]));
    }
  }

  // ---------------------------------------------------------------------
  // The command line

  /** What the script does with its arguments: argv[0] is the script, then the sheet
      and the report; the first missing file is reported. */
  datatype Invocation = Usage | CsvNotFound(csvPath: string) | JsonNotFound(jsonPath: string) | Run(csvPath: string, jsonPath: string)

  function Invoke(argv: seq<string>, existing: set<string>): Invocation {
    if |argv| < 3 then Usage
    else if argv[1] !in existing then CsvNotFound(argv[1])
    else if argv[2] !in existing then JsonNotFound(argv[2])
    else Run(argv[1], argv[2])
  }

  /** Fewer than two arguments is a usage error; otherwise a missing sheet is reported
      before a missing report, the script runs on the first two exactly when both files
      exist, and further arguments are ignored. */
  lemma InvokeCases(argv: seq<string>, existing: set<string>)
    ensures Invoke(argv, existing) == Usage <==> |argv| < 3
    ensures Invoke(argv, existing).Run? <==> |argv| >= 3 && argv[1] in existing && argv[2] in existing
    ensures Invoke(argv, existing).Run? ==> Invoke(argv, existing) == Run(argv[1], argv[2])
    ensures |argv| >= 3 && argv[1] !in existing ==> Invoke(argv, existing) == CsvNotFound(argv[1])
    ensures |argv| >= 3 && argv[1] in existing && argv[2] !in existing ==> Invoke(argv, existing) == JsonNotFound(argv[2])
    ensures |argv| >= 3 ==> Invoke(argv, existing) == Invoke(argv[..3], existing)
  {
  }
}
