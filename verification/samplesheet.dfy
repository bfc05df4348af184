/** The MinKNOW sample sheet: one CSV row per traced sample under a fixed header,
    with the barcode label derived from the i7 barcode the trace collected. */
module SampleSheet {
  import opened Values
  import opened Text

  /** The sheet's columns, in order. */
  const Headers: seq<string> := [
    "flow_cell_id", "position_id", "sample_id", "experiment_id",
    "flow_cell_product_code", "kit", "alias", "type", "barcode",
    "cntn_cf_fk_barcode_i7", "cntn_id", "cntn_cf_taxon",
    "cntn_cf_genomeSizeMb", "cntn_cf_gcContent", "cntn_cf_orderName",
    "cntn_cf_stockConcentration", "cntn_cf_stockConcentration_unit",
    "cntn_cf_isUrgent", "cntn_cf_lowMaterial"
  ]

  const DefaultProductCode: string := "FLO-PRO114"

  /** The caller's choices for the run: flow cell, position, kit and product code. */
  datatype Settings = Settings(flowCellId: string, positionId: string, kit: string, productCode: string)

  /** A rendered sheet: the header line, then one line of cells per sample. */
  type Sheet = seq<seq<string>>

  // ---------------------------------------------------------------------
  // Cells

  /** The i7 barcode a sample carries ("" when absent); None when it is not text, where
      the prefix test raises. */
  function I7Of(sample: Record): Option<string> {
    match GetOr(sample, "barcode_i7", Str(""))
    case Str(s) => Some(s)
    case _ => None
  }

  /** An integer formatted with at least two digits, zero-padded ("{:02d}"). */
  function Pad2(n: int): string {
    if 0 <= n < 10 then ['0'] + IntToString(n) else IntToString(n)
  }

  /** The barcode label: NBnn and BCnn become barcodenn, an unparsable number keeps the
      i7 text, anything else takes the sample's own barcode field. */
  function BarcodeLabel(sample: Record, i7: string): string {
    if StartsWith(i7, "NB") || StartsWith(i7, "BC") then
      match ParseInt(i7[2..])
      case Some(n) => "barcode" + Pad2(n)
      case None => i7
    else CsvCell(GetOr(sample, "cntn_barCode", Str("")))
  }

  /** A copied field: the sample's value, "" when absent. */
  function Field(sample: Record, key: string): string {
    CsvCell(GetOr(sample, key, Str("")))
  }

  /** A flag field: str() of the value (default 'false'), lower-cased. */
  function Flag(sample: Record, key: string): string {
    Lower(PyStr(GetOr(sample, key, Str("false"))))
  }

  /** The cell a sample's line holds in column k, the column headed Headers[k]. */
  function Cell(experimentId: Value, s: Settings, sample: Record, i7: string, k: nat): string {
    if k == 0 then s.flowCellId
    else if k == 1 then s.positionId
    else if k == 2 then ""
    else if k == 3 then CsvCell(experimentId)
    else if k == 4 then s.productCode
    else if k == 5 then s.kit
    else if k == 6 then Field(sample, "cntn_id")
    else if k == 7 then "test_sample"
    else if k == 8 then BarcodeLabel(sample, i7)
    else if k == 9 then i7
    else if k == 10 then Field(sample, "cntn_id")
    else if k == 11 then Field(sample, "cntn_cf_taxon")
    else if k == 12 then Field(sample, "cntn_cf_genomeSizeMb")
    else if k == 13 then Field(sample, "cntn_cf_gcContent")
    else if k == 14 then Field(sample, "cntn_cf_orderName")
    else if k == 15 then Field(sample, "cntn_cf_stockConcentration")
    else if k == 16 then Field(sample, "cntn_cf_stockConcentration_unit")
    else if k == 17 then Flag(sample, "cntn_cf_isUrgent")
    else Flag(sample, "cntn_cf_lowMaterial")
  }

  /** The line written for one sample: its cells in header order (the row dictionary's
      keys are exactly the header, so the writer emits each value under its column). */
  function Line(experimentId: Value, s: Settings, sample: Record): (r: Result<seq<string>, string>)
    ensures r.Ok? ==> |r.value| == |Headers|
    ensures r.Err? <==> I7Of(sample).None?
  {
    match I7Of(sample)
    case None => Err("barcode_i7 is not text")
    case Some(i7) => Ok(seq(|Headers|, k requires 0 <= k < |Headers| => Cell(experimentId, s, sample, i7, k)))
  }

  // ---------------------------------------------------------------------
  // The sheet

  /** The rows of the remaining samples appended to acc; the first failing sample fails all. */
  function SheetFrom(acc: Sheet, experimentId: Value, s: Settings, samples: seq<Record>): Result<Sheet, string>
    decreases |samples|
  {
    if samples == [] then Ok(acc)
    else
      match Line(experimentId, s, samples[0])
      case Err(e) => Err(e)
      case Ok(line) => SheetFrom(acc + [line], experimentId, s, samples[1..])
  }

  /** The experiment id every row carries: the run's name, 'Unknown_Run' when absent. */
  function ExperimentId(run: Record): Value {
    GetOr(run, "xprn_name", Str("Unknown_Run"))
  }

  function SheetOf(run: Record, samples: seq<Record>, s: Settings): Result<Sheet, string> {
    SheetFrom([Headers], ExperimentId(run), s, samples)
  }

  method Generate(run: Record, samples: seq<Record>, s: Settings) returns (r: Result<Sheet, string>)
    ensures r == SheetOf(run, samples, s)
  {
    var lines: Sheet := [Headers];
    var experimentId := ExperimentId(run);
    for i := 0 to |samples|
      invariant SheetFrom(lines, experimentId, s, samples[i..]) == SheetOf(run, samples, s)
    {
      assert samples[i..][1..] == samples[i + 1..];
      var line := Line(experimentId, s, samples[i]);
      if line.Err? {
        return Err(line.error);
      }
      lines := lines + [line.value];
    }
    assert samples[|samples|..] == [];
    return Ok(lines);
  }

  // ---------------------------------------------------------------------
  // Properties

  lemma {:induction false} SheetFromShape(acc: Sheet, experimentId: Value, s: Settings, samples: seq<Record>)
    ensures SheetFrom(acc, experimentId, s, samples).Ok? <==> forall i :: 0 <= i < |samples| ==> I7Of(samples[i]).Some?
    ensures SheetFrom(acc, experimentId, s, samples).Ok? ==>
              var sheet := SheetFrom(acc, experimentId, s, samples).value;
              && |sheet| == |acc| + |samples|
              && sheet[..|acc|] == acc
              && forall i :: 0 <= i < |samples| ==>
                   Line(experimentId, s, samples[i]).Ok? && sheet[|acc| + i] == Line(experimentId, s, samples[i]).value
    decreases |samples|
  {
    if samples != [] {
      var line := Line(experimentId, s, samples[0]);
      assert forall i :: 1 <= i < |samples| ==> samples[1..][i - 1] == samples[i];
      if line.Ok? {
        var acc' := acc + [line.value];
        SheetFromShape(acc', experimentId, s, samples[1..]);
        if SheetFrom(acc, experimentId, s, samples).Ok? {
          var sheet := SheetFrom(acc, experimentId, s, samples).value;
          assert sheet[..|acc|] == acc'[..|acc|];
          assert sheet[|acc|] == acc'[|acc|];
        }
      }
    }
  }

  /** The sheet is the header followed by exactly one line per sample, in order; it
      fails exactly when some sample's i7 barcode is not text. */
  lemma SheetShape(run: Record, samples: seq<Record>, s: Settings)
    ensures SheetOf(run, samples, s).Ok? <==> forall i :: 0 <= i < |samples| ==> I7Of(samples[i]).Some?
    ensures SheetOf(run, samples, s).Ok? ==>
              var sheet := SheetOf(run, samples, s).value;
              && |sheet| == |samples| + 1
              && sheet[0] == Headers
              && forall i :: 0 <= i < |samples| ==>
                   Line(ExperimentId(run), s, samples[i]).Ok? && sheet[i + 1] == Line(ExperimentId(run), s, samples[i]).value
  {
    SheetFromShape([Headers], ExperimentId(run), s, samples);
    if SheetOf(run, samples, s).Ok? {
      var sheet := SheetOf(run, samples, s).value;
      assert sheet[0] == sheet[..1][0];
    }
  }

  /** The run-level columns: every line carries the flow cell, position, product code
      and kit the caller chose, an empty sample_id and the run's experiment id. */
  lemma LineRunColumns(experimentId: Value, s: Settings, sample: Record)
    requires I7Of(sample).Some?
    ensures Line(experimentId, s, sample).Ok?
    ensures var line := Line(experimentId, s, sample).value;
      && Headers[0] == "flow_cell_id" && line[0] == s.flowCellId
      && Headers[1] == "position_id" && line[1] == s.positionId
      && Headers[2] == "sample_id" && line[2] == ""
      && Headers[3] == "experiment_id" && line[3] == CsvCell(experimentId)
      && Headers[4] == "flow_cell_product_code" && line[4] == s.productCode
      && Headers[5] == "kit" && line[5] == s.kit
  {
  }

  /** The barcode columns: the barcode column holds the label derived from the i7
      barcode, which the i7 column carries unchanged. */
  lemma LineBarcodeColumns(experimentId: Value, s: Settings, sample: Record)
    requires I7Of(sample).Some?
    ensures Line(experimentId, s, sample).Ok?
    ensures var line := Line(experimentId, s, sample).value;
      && Headers[8] == "barcode" && line[8] == BarcodeLabel(sample, I7Of(sample).value)
      && Headers[9] == "cntn_cf_fk_barcode_i7" && line[9] == I7Of(sample).value
  {
  }

  /** The sample's own columns: alias and cntn_id both carry the sample's id, the type is
      test_sample, and the two flags are rendered lower-case. */
  lemma LineSampleColumns(experimentId: Value, s: Settings, sample: Record)
    requires I7Of(sample).Some?
    ensures Line(experimentId, s, sample).Ok?
    ensures var line := Line(experimentId, s, sample).value;
      && Headers[6] == "alias" && line[6] == Field(sample, "cntn_id")
      && Headers[7] == "type" && line[7] == "test_sample"
      && Headers[10] == "cntn_id" && line[10] == Field(sample, "cntn_id")
      && Headers[17] == "cntn_cf_isUrgent" && line[17] == Flag(sample, "cntn_cf_isUrgent")
      && Headers[18] == "cntn_cf_lowMaterial" && line[18] == Flag(sample, "cntn_cf_lowMaterial")
  {
  }

  /** The copied fields: columns 11 to 16 carry the sample's field of the same name. */
  lemma LineCopiesFields(experimentId: Value, s: Settings, sample: Record)
    requires I7Of(sample).Some?
    ensures Line(experimentId, s, sample).Ok?
    ensures forall i :: 11 <= i <= 16 ==> Line(experimentId, s, sample).value[i] == Field(sample, Headers[i])
  {
  }

  lemma {:induction false} DigitsValueLeadingZero(d: char)
    requires IsDigit(d)
    ensures AllDigits(['0', d]) && DigitsValue(['0', d]) == DigitVal(d)
  {
    assert ['0', d][..1] == ['0'];
    assert ['0'][..0] == [];
  }

  /** "{:02d}" is read back by int(): every natural number survives the padding. */
  lemma Pad2RoundTrip(n: nat)
    ensures ParseInt(Pad2(n)) == Some(n as int)
    ensures |Pad2(n)| >= 2 && AllDigits(Pad2(n))
  {
    if n < 10 {
      var d := DigitChar(n);
      assert IntToString(n) == [d];
      var p := Pad2(n);
      assert p == ['0', d];
      DigitsValueLeadingZero(d);
      ParseIntDigits(p);
    } else {
      assert Pad2(n) == NatToString(n);
      NatRoundTrip(n);
    }
  }

  /** A native (NB) or PCR (BC) barcode followed by decimal digits is labelled with its
      number, zero-padded to two digits: NB01 and NB1 both give barcode01, BC12 gives barcode12. */
  lemma BarcodeNumbering(sample: Record, prefix: string, digits: string)
    requires prefix == "NB" || prefix == "BC"
    requires |digits| > 0 && AllDigits(digits)
    ensures BarcodeLabel(sample, prefix + digits) == "barcode" + Pad2(DigitsValue(digits))
  {
    var i7 := prefix + digits;
    assert i7[..2] == prefix;
    assert i7[2..] == digits;
    ParseIntDigits(digits);
  }

  /** A label's number reads back as the barcode's number. */
  lemma BarcodeLabelNumber(sample: Record, prefix: string, n: nat)
    requires prefix == "NB" || prefix == "BC"
    ensures var tag := BarcodeLabel(sample, prefix + NatToString(n));
      StartsWith(tag, "barcode") && ParseInt(tag[7..]) == Some(n)
  {
    NatToStringValue(n);
    BarcodeNumbering(sample, prefix, NatToString(n));
    Pad2RoundTrip(n);
    var tag := "barcode" + Pad2(n);
    assert tag[..7] == "barcode";
    assert tag[7..] == Pad2(n);
  }

  /** A signed number after the prefix is read with its sign: "NB+7" gives "barcode07" and
      "NB-5" gives "barcode" + Pad2(-5), which Pad2Negative shows is "barcode-5". */
  lemma BarcodeSigned(sample: Record, i7: string)
    requires StartsWith(i7, "NB") || StartsWith(i7, "BC")
    requires |i7| >= 4 && (i7[2] == '-' || i7[2] == '+') && AllDigits(i7[3..])
    ensures BarcodeLabel(sample, i7) ==
              "barcode" + Pad2(if i7[2] == '-' then -(DigitsValue(i7[3..]) as int) else DigitsValue(i7[3..]))
  {
    var t := i7[2..];
    assert t[0] == i7[2] && t[1..] == i7[3..];
    ParseIntSigned(t);
  }

  /** "{:02d}" does not pad a negative number: it is the minus sign and the magnitude. */
  lemma Pad2Negative(n: int)
    requires n < 0
    ensures Pad2(n) == ['-'] + NatToString(-n)
    ensures ParseInt(Pad2(n)) == Some(n)
  {
    var v: nat := -n;
    var t := Pad2(n);
    assert t[1..] == NatToString(v);
    NatToStringValue(v);
    ParseIntSigned(t);
  }

  /** An NB/BC barcode whose remainder int() rejects is used as the label unchanged. */
  lemma BarcodeUnparsable(sample: Record, i7: string)
    requires StartsWith(i7, "NB") || StartsWith(i7, "BC")
    requires ParseInt(i7[2..]).None?
    ensures BarcodeLabel(sample, i7) == i7
  {
  }

  /** "NB" alone and "NBx" are such barcodes: each is its own label. */
  lemma BarcodeUnparsableExamples(sample: Record)
    ensures BarcodeLabel(sample, "NB") == "NB"
    ensures BarcodeLabel(sample, "NBx") == "NBx"
  {
    var e := "NB"[2..];
    assert e == [];
    assert !WellFormedDigits(e);
    BarcodeUnparsable(sample, "NB");
    var x := "NBx"[2..];
    assert x == ['x'];
    assert Strip(x) == x;
    assert !WellFormedDigits(x);
    BarcodeUnparsable(sample, "NBx");
  }

  /** An i7 barcode with another prefix leaves the label to the sample's barcode field. */
  lemma BarcodeFromField(sample: Record, i7: string)
    requires !StartsWith(i7, "NB") && !StartsWith(i7, "BC")
    ensures BarcodeLabel(sample, i7) == CsvCell(GetOr(sample, "cntn_barCode", Str("")))
  {
  }

  /** A flag renders as lower-case text: a boolean as "true" or "false", an absent flag as "false". */
  lemma FlagRendering(sample: Record, key: string)
    ensures key !in sample ==> Flag(sample, key) == "false"
    ensures key in sample && sample[key].Bool? ==> Flag(sample, key) == (if sample[key].b then "true" else "false")
  {
    if key in sample && sample[key].Bool? {
      LowerBool(sample[key].b);
    }
    if key !in sample {
      var r := Flag(sample, key);
      assert r[0] == 'f' && r[1] == 'a' && r[2] == 'l' && r[3] == 's' && r[4] == 'e';
    }
  }

  /** A worked sheet: one urgent sample of run TEST_RUN_01 on flow cell FLOWCELL_123
      yields a header and one line carrying the run, the flow cell, the sample's id, its
      taxon and "true" for urgency. */
  lemma ExampleSheet()
    ensures var sample := map["cntn_id" := Str("SAMPLE_01"), "cntn_cf_fk_barcode_i7" := Str("NB01"),
                              "cntn_cf_taxon" := Str("E. coli"), "cntn_cf_isUrgent" := Bool(true)];
      var r := SheetOf(map["xprn_name" := Str("TEST_RUN_01")], [sample], Settings("FLOWCELL_123", "P1", "KIT_123", DefaultProductCode));
      && r.Ok? && |r.value| == 2
      && r.value[1][3] == "TEST_RUN_01" && r.value[1][0] == "FLOWCELL_123"
      && r.value[1][6] == "SAMPLE_01" && r.value[1][17] == "true" && r.value[1][11] == "E. coli"
  {
    var sample := map["cntn_id" := Str("SAMPLE_01"), "cntn_cf_fk_barcode_i7" := Str("NB01"),
                      "cntn_cf_taxon" := Str("E. coli"), "cntn_cf_isUrgent" := Bool(true)];
    var run := map["xprn_name" := Str("TEST_RUN_01")];
    var s := Settings("FLOWCELL_123", "P1", "KIT_123", DefaultProductCode);
    assert I7Of(sample) == Some("");
    SheetShape(run, [sample], s);
    LineRunColumns(ExperimentId(run), s, sample);
    LineSampleColumns(ExperimentId(run), s, sample);
    LineCopiesFields(ExperimentId(run), s, sample);
    FlagRendering(sample, "cntn_cf_isUrgent");
  }
}
