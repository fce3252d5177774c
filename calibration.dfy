/**
 * src/callibration_value.rs: the calibration value of a line is the two-digit number made of
 * its first and its last decimal digit.
 */
module Calibration {
  import opened Results
  import opened Strings

  /** `CalibrationValue`: the line, the two digits as a string, and their value. */
  datatype CalibrationValue = CalibrationValue(rawValue: string, stringValue: string, value: nat)

  /** `CalibrationValueFromStrError`: declared, never produced. */
  datatype CalibrationValueFromStrError = Generic

  predicate HasDigit(s: string) {
    exists k :: 0 <= k < |s| && IsDigit(s[k])
  }

  /** `find_first_number_in_string`: `chars().find(|c| c.is_digit(10))`. */
  function FindFirstDigit(s: string): (r: Option<char>)
    ensures r.None? <==> !HasDigit(s)
    ensures r.Some? ==> IsDigit(r.value)
  {
    if s == [] then None
    else if IsDigit(s[0]) then Some(s[0])
    else
      assert forall j :: 1 <= j < |s| ==> s[j] == s[1..][j - 1];
      FindFirstDigit(s[1..])
  }

  /** `s.chars().rev().collect::<String>()`. */
  function Reverse(s: string): (r: string)
    ensures |r| == |s|
    ensures forall i :: 0 <= i < |s| ==> r[i] == s[|s| - 1 - i]
  {
    if s == [] then [] else Reverse(s[1..]) + [s[0]]
  }

  // ---------------------------------------------------------------- positions of the digits

  /** `p` is a digit with no digit before it. */
  predicate IsFirstDigitAt(s: string, p: nat) {
    p < |s| && IsDigit(s[p]) && forall j :: 0 <= j < p ==> !IsDigit(s[j])
  }

  /** `p` is a digit with no digit after it. */
  predicate IsLastDigitAt(s: string, p: nat) {
    p < |s| && IsDigit(s[p]) && forall j :: p < j < |s| ==> !IsDigit(s[j])
  }

  lemma FirstDigitUnique(s: string, p: nat, q: nat)
    requires IsFirstDigitAt(s, p) && IsFirstDigitAt(s, q)
    ensures p == q
  {
  }

  lemma LastDigitUnique(s: string, p: nat, q: nat)
    requires IsLastDigitAt(s, p) && IsLastDigitAt(s, q)
    ensures p == q
  {
  }

  /** `find` returns the character at the first digit position. */
  lemma {:induction false} FindFirstDigitAt(s: string, p: nat)
    requires IsFirstDigitAt(s, p)
    ensures FindFirstDigit(s) == Some(s[p])
  {
    if p > 0 {
      assert forall j :: 1 <= j < |s| ==> s[j] == s[1..][j - 1];
      FindFirstDigitAt(s[1..], p - 1);
    }
  }

  /** The first digit of the reverse is the last digit of the line. */
  lemma FindLastDigitAt(s: string, p: nat)
    requires IsLastDigitAt(s, p)
    ensures FindFirstDigit(Reverse(s)) == Some(s[p])
  {
    var r := Reverse(s);
    var q := |s| - 1 - p;
    assert r[q] == s[p];
    forall j | 0 <= j < q ensures !IsDigit(r[j]) {
      assert r[j] == s[|s| - 1 - j];
    }
    FindFirstDigitAt(r, q);
  }

  /** A line with a digit has a first and a last digit position. */
  lemma DigitPositions(s: string) returns (first: nat, last: nat)
    requires HasDigit(s)
    ensures IsFirstDigitAt(s, first) && IsLastDigitAt(s, last) && first <= last
  {
    var k :| 0 <= k < |s| && IsDigit(s[k]);
    first := k;
    while first > 0 && exists j :: 0 <= j < first && IsDigit(s[j])
      invariant first <= k && IsDigit(s[first])
      decreases first
    {
      var j :| 0 <= j < first && IsDigit(s[j]);
      first := j;
    }
    last := k;
    while last < |s| - 1 && exists j :: last < j < |s| && IsDigit(s[j])
      invariant k <= last < |s| && IsDigit(s[last])
      decreases |s| - last
    {
      var j :| last < j < |s| && IsDigit(s[j]);
      last := j;
    }
  }

  // ---------------------------------------------------------------- the value

  /** `CalibrationValue::new`: the first digit, the first digit of the reversed line, and the
      two-character string they make parsed as a number. A line without a digit panics. */
  function NewCalibrationValue(raw: string): (c: CalibrationValue)
    requires HasDigit(raw)
  {
    var first := FindFirstDigit(raw).value;
    assert HasDigit(Reverse(raw)) by {
      var k :| 0 <= k < |raw| && IsDigit(raw[k]);
      assert Reverse(raw)[|raw| - 1 - k] == raw[k];
    }
    var second := FindFirstDigit(Reverse(raw)).value;
    var stringValue := [first, second];
    assert stringValue[..1] == [first] && [first][..0] == [];
    assert DecimalValue([first]) == DigitValue(first);
    assert DecimalValue(stringValue) == 10 * DigitValue(first) + DigitValue(second) <= 99;
    ParseDigits(stringValue);
    CalibrationValue(raw, stringValue, ParseUsize(stringValue).value)
  }

  /** The value is ten times the first digit plus the last digit, so at most 99. */
  lemma CalibrationValueIs(raw: string, first: nat, last: nat)
    requires IsFirstDigitAt(raw, first) && IsLastDigitAt(raw, last)
    ensures HasDigit(raw)
    ensures NewCalibrationValue(raw).rawValue == raw
    ensures NewCalibrationValue(raw).stringValue == [raw[first], raw[last]]
    ensures NewCalibrationValue(raw).value == 10 * DigitValue(raw[first]) + DigitValue(raw[last])
    ensures NewCalibrationValue(raw).value <= 99
  {
    FindFirstDigitAt(raw, first);
    FindLastDigitAt(raw, last);
    var ds := [raw[first], raw[last]];
    assert ds[..1] == [ds[0]];
    assert DecimalValue(ds) == 10 * DecimalValue(ds[..1]) + DigitValue(ds[1]);
  }

  /** A line with a single digit uses that digit twice. */
  lemma SingleDigitTwice(raw: string, k: nat)
    requires k < |raw| && IsDigit(raw[k])
    requires forall j :: 0 <= j < |raw| && j != k ==> !IsDigit(raw[j])
    ensures HasDigit(raw)
    ensures NewCalibrationValue(raw).value == 11 * DigitValue(raw[k])
  {
    CalibrationValueIs(raw, k, k);
  }

  /** Non-digits before and after move the first digit position by the length of the
      prefix. */
  lemma FirstDigitShift(x: string, raw: string, y: string, first: nat)
    requires IsFirstDigitAt(raw, first)
    requires forall i :: 0 <= i < |x| ==> !IsDigit(x[i])
    ensures IsFirstDigitAt(x + raw + y, |x| + first)
  {
    var s := x + raw + y;
    forall j | 0 <= j < |x| + first ensures !IsDigit(s[j]) {
      if j >= |x| {
        assert s[j] == raw[j - |x|];
      } else {
        assert s[j] == x[j];
      }
    }
    assert s[|x| + first] == raw[first];
  }

  /** And the last digit position likewise. */
  lemma LastDigitShift(x: string, raw: string, y: string, last: nat)
    requires IsLastDigitAt(raw, last)
    requires forall i :: 0 <= i < |y| ==> !IsDigit(y[i])
    ensures IsLastDigitAt(x + raw + y, |x| + last)
  {
    var s := x + raw + y;
    forall j | |x| + last < j < |s| ensures !IsDigit(s[j]) {
      if j < |x| + |raw| {
        assert s[j] == raw[j - |x|];
      } else {
        assert s[j] == y[j - |x| - |raw|];
      }
    }
    assert s[|x| + last] == raw[last];
  }

  /** Characters that are not digits, before or after, do not change the value. */
  lemma NonDigitsIgnored(x: string, raw: string, y: string)
    requires HasDigit(raw)
    requires forall i :: 0 <= i < |x| ==> !IsDigit(x[i])
    requires forall i :: 0 <= i < |y| ==> !IsDigit(y[i])
    ensures HasDigit(x + raw + y)
    ensures NewCalibrationValue(x + raw + y).value == NewCalibrationValue(raw).value
  {
    var first, last := DigitPositions(raw);
    FirstDigitShift(x, raw, y, first);
    LastDigitShift(x, raw, y, last);
    var s := x + raw + y;
    assert s[|x| + first] == raw[first] && s[|x| + last] == raw[last];
    CalibrationValueIs(raw, first, last);
    CalibrationValueIs(s, |x| + first, |x| + last);
  }

  /** `CalibrationValue::from_str`: never an error. */
  function ParseCalibrationValue(s: string): (r: Result<CalibrationValue, CalibrationValueFromStrError>)
    requires HasDigit(s)
    ensures r.Ok? && r.value.rawValue == s
  {
    Ok(NewCalibrationValue(s))
  }

  /** Every line with a digit parses, to a value of at most two digits whose string is the
      first digit followed by the last one. */
  lemma ParsedValueBounded(s: string)
    requires HasDigit(s)
    ensures ParseCalibrationValue(s).Ok?
    ensures ParseCalibrationValue(s).value.value <= 99
    ensures |ParseCalibrationValue(s).value.stringValue| == 2
  {
    var first, last := DigitPositions(s);
    CalibrationValueIs(s, first, last);
  }

  /** "1abc2" has the value 12 and "treb7uchet" the value 77. */
  lemma ExampleLines(s: string, t: string)
    requires s == "1abc2" && t == "treb7uchet"
    ensures HasDigit(s) && NewCalibrationValue(s).value == 12
    ensures HasDigit(t) && NewCalibrationValue(t).value == 77
  {
    CalibrationValueIs(s, 0, 4);
    SingleDigitTwice(t, 4);
  }
}
