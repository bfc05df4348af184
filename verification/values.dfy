/** Python-level values as they flow through the LIMS records, the sample
    sheet and the yield reports, with the few built-ins the core relies on:
    truthiness, str(), int() on text, and str.lower(). */
module Values {

  datatype Option<+T> = None | Some(value: T)

  datatype Result<+T, +E> = Ok(value: T) | Err(error: E)

  /** A JSON-like field value: what a flattened LIMS column or a report field can hold. */
  datatype Value = Null | Bool(b: bool) | Int(i: int) | Str(s: string)

  /** A flat record: field name to value (a Python dict with string keys). */
  type Record = map<string, Value>

  /** Python truthiness of a value. */
  predicate Truthy(v: Value) {
    match v
    case Null => false
    case Bool(b) => b
    case Int(i) => i != 0
    case Str(s) => s != ""
  }

  /** dict.get(key, default) */
  function GetOr(r: Record, key: string, default: Value): Value {
    if key in r then r[key] else default
  }

  // ---------------------------------------------------------------------
  // Decimal digits

  predicate IsDigit(c: char) { '0' <= c <= '9' }

  predicate AllDigits(s: string) { forall i :: 0 <= i < |s| ==> IsDigit(s[i]) }

  function DigitChar(d: nat): char
    requires d < 10
  {
    ('0' as int + d) as char
  }

  function DigitVal(c: char): nat
    requires IsDigit(c)
  {
    c as int - '0' as int
  }

  /** The number a string of decimal digits denotes (leading zeros allowed). */
  function DigitsValue(s: string): nat
    requires AllDigits(s)
  {
    if s == [] then 0 else DigitsValue(s[..|s| - 1]) * 10 + DigitVal(s[|s| - 1])
  }

  /** str(n) for a natural number: shortest decimal, "0" for zero. */
  function NatToString(n: nat): (s: string)
    ensures |s| >= 1 && AllDigits(s)
    ensures |s| >= 2 ==> s[0] != '0'
    ensures n < 10 <==> |s| == 1
  {
    if n < 10 then [DigitChar(n)] else NatToString(n / 10) + [DigitChar(n % 10)]
  }

  /** str(i) for a Python int. */
  function IntToString(i: int): string {
    if i < 0 then ['-'] + NatToString(-i) else NatToString(i)
  }

  lemma {:induction false} NatToStringValue(n: nat)
    ensures DigitsValue(NatToString(n)) == n
  {
    if n >= 10 {
      var s := NatToString(n);
      assert s[..|s| - 1] == NatToString(n / 10);
      NatToStringValue(n / 10);
    }
  }

  // ---------------------------------------------------------------------
  // int() on text

  /** The ASCII characters str.strip() and int() treat as white space. */
  predicate IsSpace(c: char) {
    c == ' ' || 9 <= c as int <= 13 || 28 <= c as int <= 31
  }

  function LStrip(s: string): string {
    if s != [] && IsSpace(s[0]) then LStrip(s[1..]) else s
  }

  function RStrip(s: string): string {
    if s != [] && IsSpace(s[|s| - 1]) then RStrip(s[..|s| - 1]) else s
  }

  function Strip(s: string): string { LStrip(RStrip(s)) }

  /** Digits with single underscores between them (PEP 515), as int() accepts: a digit,
      then either nothing or, after an optional underscore, another well-formed run. */
  predicate WellFormedDigits(s: string)
    decreases |s|
  {
    && |s| > 0 && IsDigit(s[0])
    && (|s| == 1 || if s[1] == '_' then WellFormedDigits(s[2..]) else WellFormedDigits(s[1..]))
  }

  lemma {:induction false} DigitsWellFormed(s: string)
    requires |s| > 0 && AllDigits(s)
    ensures WellFormedDigits(s)
    decreases |s|
  {
    if |s| > 1 {
      DigitsWellFormed(s[1..]);
    }
  }

  function KeepDigits(s: string): (r: string)
    ensures AllDigits(r)
  {
    if s == [] then [] else (if IsDigit(s[0]) then [s[0]] else []) + KeepDigits(s[1..])
  }

  function ParseNat(s: string): Option<nat> {
    if WellFormedDigits(s) then Some(DigitsValue(KeepDigits(s))) else None
  }

  /** int(s) for a str argument: None where Python raises ValueError. */
  function ParseInt(s: string): Option<int> {
    ParseSigned(Strip(s))
  }

  /** An optional sign, then digits: int() once the surrounding white space is gone. */
  function ParseSigned(t: string): Option<int> {
    if |t| > 0 && (t[0] == '+' || t[0] == '-') then
      match ParseNat(t[1..])
      case None => None
      case Some(n) =>
        var m: int := n;
        Some(if t[0] == '-' then -m else m)
    else
      match ParseNat(t)
      case None => None
      case Some(n) => Some(n)
  }

  /** int(v) for a JSON value: None where Python raises (ValueError or TypeError). */
  function PyInt(v: Value): Option<int> {
    match v
    case Null => None
    case Bool(b) => Some(if b then 1 else 0)
    case Int(i) => Some(i)
    case Str(s) => ParseInt(s)
  }

  lemma {:induction false} KeepDigitsOfDigits(s: string)
    requires AllDigits(s)
    ensures KeepDigits(s) == s
  {
    if s != [] {
      KeepDigitsOfDigits(s[1..]);
    }
  }

  lemma StripUnspaced(s: string)
    requires s != [] && !IsSpace(s[0]) && !IsSpace(s[|s| - 1])
    ensures Strip(s) == s
  {
  }

  lemma ParseNatDigits(s: string)
    requires |s| > 0 && AllDigits(s)
    ensures ParseNat(s) == Some(DigitsValue(s))
  {
    DigitsWellFormed(s);
    KeepDigitsOfDigits(s);
  }

  /** int() of a plain string of digits is the number the digits denote. */
  lemma ParseIntDigits(s: string)
    requires |s| > 0 && AllDigits(s)
    ensures ParseInt(s) == Some(DigitsValue(s))
  {
    StripUnspaced(s);
    assert ParseInt(s) == ParseSigned(s);
    ParseNatDigits(s);
  }

  /** A sign followed by text int() reads as n gives n with that sign. */
  lemma ParseSignedSign(t: string, n: nat)
    requires |t| > 0 && (t[0] == '-' || t[0] == '+')
    requires ParseNat(t[1..]) == Some(n)
    ensures ParseSigned(t) == Some(if t[0] == '-' then -(n as int) else n)
  {
  }

  /** int() of a minus or plus sign followed by plain digits is the signed number. */
  lemma ParseIntSigned(t: string)
    requires |t| >= 2 && (t[0] == '-' || t[0] == '+') && AllDigits(t[1..])
    ensures ParseInt(t) == Some(if t[0] == '-' then -(DigitsValue(t[1..]) as int) else DigitsValue(t[1..]))
  {
    assert IsDigit(t[1..][|t| - 2]);
    StripUnspaced(t);
    ParseNatDigits(t[1..]);
    ParseSignedSign(t, DigitsValue(t[1..]));
  }

  /** int() of a report value: a JSON integer is itself, a digit string its number, a
      boolean 0 or 1, and null raises. */
  lemma PyIntReads(v: Value)
    ensures v.Int? ==> PyInt(v) == Some(v.i)
    ensures v.Str? && |v.s| > 0 && AllDigits(v.s) ==> PyInt(v) == Some(DigitsValue(v.s))
    ensures v.Bool? ==> PyInt(v) == Some(if v.b then 1 else 0)
    ensures v.Null? ==> PyInt(v).None?
  {
    if v.Str? && |v.s| > 0 && AllDigits(v.s) {
      ParseIntDigits(v.s);
    }
  }

  /** int(str(n)) == n: the printed form of every natural number parses back to it. */
  lemma NatRoundTrip(n: nat)
    ensures ParseInt(NatToString(n)) == Some(n as int)
  {
    NatToStringValue(n);
    ParseIntDigits(NatToString(n));
  }

  // ---------------------------------------------------------------------
  // str() and str.lower()

  /** str(v) */
  function PyStr(v: Value): string {
    match v
    case Null => "None"
    case Bool(b) => if b then "True" else "False"
    case Int(i) => IntToString(i)
    case Str(s) => s
  }

  /** The text csv.writer puts in a cell for a value: None becomes empty, anything else str(). */
  function CsvCell(v: Value): string {
    if v == Null then "" else PyStr(v)
  }

  predicate IsUpper(c: char) { 'A' <= c <= 'Z' }

  function LowerChar(c: char): char {
    if IsUpper(c) then (c as int + 32) as char else c
  }

  /** str.lower() on ASCII letters. */
  function Lower(s: string): (r: string)
    ensures |r| == |s|
    ensures forall i :: 0 <= i < |s| ==> !IsUpper(r[i])
    ensures forall i :: 0 <= i < |s| ==> r[i] == s[i] || (IsUpper(s[i]) && r[i] as int == s[i] as int + 32)
  {
    seq(|s|, i requires 0 <= i < |s| => LowerChar(s[i]))
  }

  /** str(flag).lower(): a Python boolean renders as "true" or "false". */
  lemma LowerBool(b: bool)
    ensures Lower(PyStr(Bool(b))) == (if b then "true" else "false")
  {
    var r := Lower(PyStr(Bool(b)));
    if b {
      assert r[0] == 't' && r[1] == 'r' && r[2] == 'u' && r[3] == 'e';
    } else {
      assert r[0] == 'f' && r[1] == 'a' && r[2] == 'l' && r[3] == 's' && r[4] == 'e';
    }
  }
}
