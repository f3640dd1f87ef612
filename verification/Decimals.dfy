/**
 Decimal numerals, and the job timeouts written with them: `_format_timeout` in
 scripts/submit_market_data_stage_job.py and `_parse_duration_seconds` in scripts/lightgbm_wave1.py.
 */
module Decimals {
  import opened Wrappers

  predicate IsDigit(c: char) { '0' <= c <= '9' }

  predicate AllDigits(s: string) { s != "" && forall i :: 0 <= i < |s| ==> IsDigit(s[i]) }

  function Digit(d: nat): char
    requires d < 10
  {
    '0' + d as char
  }

  function Decimal(n: nat): string {
    if n < 10 then [Digit(n)] else Decimal(n / 10) + [Digit(n % 10)]
  }

  /** int(s) of a string of decimal digits. */
  function Value(s: string): nat
    requires forall i :: 0 <= i < |s| ==> IsDigit(s[i])
  {
    if s == "" then 0 else assert IsDigit(s[|s| - 1]); 10 * Value(s[..|s| - 1]) + (s[|s| - 1] as int - '0' as int)
  }

  lemma {:induction false} ValueOfDecimal(n: nat)
    ensures AllDigits(Decimal(n)) && Value(Decimal(n)) == n
  {
    var s := Decimal(n);
    if n < 10 {
      assert s[..0] == "";
    } else {
      ValueOfDecimal(n / 10);
      assert s[..|s| - 1] == Decimal(n / 10);
    }
  }

  function FormatTimeout(seconds: nat): string {
    if seconds % 3600 == 0 then Decimal(seconds / 3600) + "h" else Decimal(seconds) + "s"
  }

  function Multiplier(unit: char): Option<nat> {
    if unit == 'h' || unit == 'H' then Some(3600)
    else if unit == 'm' || unit == 'M' then Some(60)
    else if unit == 's' || unit == 'S' then Some(1)
    else None
  }

  /** The long s, which matches s when case is ignored and has no lower case of its own. */
  const LONG_S: char := 0x17F as char

  /** Some number of seconds, or None; `Crash` is a KeyError. */
  datatype Duration = Seconds(value: nat) | NoDuration | Crash

  /** A bare number of seconds, or a number with a unit that matches one of h, m and s in either case. */
  function ParseDuration(text: string): Duration {
    if AllDigits(text) then Seconds(Value(text))
    else if |text| < 2 || !AllDigits(text[..|text| - 1]) then NoDuration
    else
      var scale := Multiplier(text[|text| - 1]);
      if text[|text| - 1] == LONG_S then Crash
      else if scale.None? then NoDuration else Seconds(Value(text[..|text| - 1]) * scale.value)
  }

  /** Every timeout a job is submitted with is read back as itself. */
  lemma TimeoutRoundTrip(seconds: nat)
    ensures ParseDuration(FormatTimeout(seconds)) == Seconds(seconds)
  {
    var count := if seconds % 3600 == 0 then seconds / 3600 else seconds;
    ValueOfDecimal(count);
    var text := FormatTimeout(seconds);
    assert text[..|text| - 1] == Decimal(count);
    assert !IsDigit(text[|text| - 1]);
  }

  /** `text` is the digits followed by one more character. */
  predicate WithUnit(text: string, digits: string, unit: char) { AllDigits(digits) && text == digits + [unit] }

  /** How many seconds the unit stands for. */
  predicate Worth(unit: char, seconds: nat) {
    || (unit in {'s', 'S'} && seconds == 1) || (unit in {'m', 'M'} && seconds == 60)
    || (unit in {'h', 'H'} && seconds == 60 * 60)
  }

  lemma UnitIs(unit: char, seconds: nat)
    ensures Worth(unit, seconds) <==> Multiplier(unit) == Some(seconds)
  {
  }

  /** A text of digits and one more character is parsed by them; no other text with a unit is. */
  lemma UnitText(text: string, digits: string, unit: char)
    requires WithUnit(text, digits, unit)
    ensures digits == text[..|text| - 1] && unit == text[|text| - 1] && |text| >= 2
    ensures !IsDigit(unit) ==>
      ParseDuration(text) ==
        if unit == LONG_S then Crash
        else if Multiplier(unit).None? then NoDuration else Seconds(Value(digits) * Multiplier(unit).value)
    ensures IsDigit(unit) ==> ParseDuration(text) == Seconds(Value(text))
  {
  }

  lemma LongSIsNoUnit()
    ensures !IsDigit(LONG_S) && forall seconds :: !Worth(LONG_S, seconds)
  {
  }

  lemma UnitIsNoDigit(unit: char, seconds: nat)
    requires Worth(unit, seconds)
    ensures !IsDigit(unit) && unit != LONG_S
  {
  }

  lemma ParsedIs(text: string)
    ensures AllDigits(text) ==> ParseDuration(text) == Seconds(Value(text))
    ensures !AllDigits(text) && (|text| < 2 || !AllDigits(text[..|text| - 1])) ==> ParseDuration(text) == NoDuration
    ensures |text| >= 2 && AllDigits(text[..|text| - 1]) ==> WithUnit(text, text[..|text| - 1], text[|text| - 1])
  {
  }

  /** What a duration means, for every text: seconds are digits alone, or digits with one of the units h, m and s in
      either case, and their number is the numeral times the unit; digits with a long s crash; and anything else is
      no duration. */
  lemma DurationMeaning(text: string, n: nat)
    ensures ParseDuration(text) == Seconds(n) <==>
      || (AllDigits(text) && n == Value(text))
      || (exists digits, unit, seconds :: WithUnit(text, digits, unit) && Worth(unit, seconds)
                                          && n == Value(digits) * seconds)
    ensures ParseDuration(text).Crash? <==> exists digits :: WithUnit(text, digits, LONG_S)
  {
    hide ParseDuration, Multiplier, Value, Worth, IsDigit;
    ParsedIs(text);
    LongSIsNoUnit();
    forall digits, unit, seconds | WithUnit(text, digits, unit) && Worth(unit, seconds)
      ensures ParseDuration(text) == Seconds(Value(digits) * seconds)
    {
      UnitText(text, digits, unit);
      UnitIs(unit, seconds);
      UnitIsNoDigit(unit, seconds);
    }
    forall digits | WithUnit(text, digits, LONG_S) ensures ParseDuration(text) == Crash {
      UnitText(text, digits, LONG_S);
    }
    if |text| >= 2 && AllDigits(text[..|text| - 1]) && !AllDigits(text) {
      var digits, unit := text[..|text| - 1], text[|text| - 1];
      UnitText(text, digits, unit);
      NoDigitLast(text);
      if Multiplier(unit).Some? { UnitIs(unit, Multiplier(unit).value); }
    }
  }

  lemma NoDigitLast(text: string)
    requires |text| >= 2 && AllDigits(text[..|text| - 1]) && !AllDigits(text)
    ensures !IsDigit(text[|text| - 1])
  {
    assert forall i :: 0 <= i < |text| - 1 ==> text[i] == text[..|text| - 1][i];
  }
}
