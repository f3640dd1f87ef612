/**
 What the explanation text says of the two scores: its numerals are read back by the grammar of decimal numerals, with
 no use of how they were printed, and each is the score to nine significant digits.
 (`factual_text` in backend/app/ceo_journey_evidence.py.)
 */
module FactualReading {
  import opened Wrappers
  import opened Evidence
  import opened Decimals
  import opened FactualText

  // ---------------------------------------------------------------- reading a numeral

  predicate Digits(s: string) { forall i :: 0 <= i < |s| ==> IsDigit(s[i]) }

  /** Where `c` first occurs, or the length. */
  function Find(s: string, c: char): (i: nat)
    ensures i <= |s|
  {
    if s == "" || s[0] == c then 0 else 1 + Find(s[1..], c)
  }

  function TenTo(k: nat): (x: real)
    ensures x >= 1.0
  {
    if k == 0 then 1.0 else 10.0 * TenTo(k - 1)
  }

  function Over(n: nat, k: nat): real { n as real / TenTo(k) }

  /** The number a numeral stands for: digits, then perhaps a point and digits, then perhaps e, a minus sign and the
      digits of a power of ten. */
  function Reading(s: string): Option<real> {
    var e := Find(s, 'e');
    var mantissa, power := s[..e], s[e..];
    var point := Find(mantissa, '.');
    var whole, fraction := mantissa[..point], mantissa[point..];
    if !AllDigits(whole) || (fraction != "" && !AllDigits(fraction[1..])) then None
    else if power != "" && (|power| < 3 || power[1] != '-' || !AllDigits(power[2..])) then None
    else
      var places := if fraction == "" then "" else fraction[1..];
      var scale := if power == "" then "" else power[2..];
      Some(Over(Value(whole + places), |places| + Value(scale)))
  }

  lemma {:induction false} FindIn(a: string, c: char, b: string)
    requires c !in a && (b != "" ==> b[0] == c)
    ensures Find(a + b, c) == |a|
  {
    if a == "" {
      assert a + b == b;
    } else {
      assert (a + b)[1..] == a[1..] + b;
      assert c !in a[1..];
      FindIn(a[1..], c, b);
    }
  }

  /** A text falls apart where `c` first occurs. */
  lemma FindSplits(a: string, c: char, b: string)
    requires c !in a && (b != "" ==> b[0] == c)
    ensures var s := a + b; s[..Find(s, c)] == a && s[Find(s, c)..] == b
  {
    FindIn(a, c, b);
    assert (a + b)[..|a|] == a && (a + b)[|a|..] == b;
  }

  function PointPart(places: string): string { if places == "" then "" else ['.'] + places }

  function PowerPart(scale: string): string { if scale == "" then "" else ['e', '-'] + scale }

  function Pointed(whole: string, places: string): string { whole + PointPart(places) }

  function Powered(mantissa: string, scale: string): string { mantissa + PowerPart(scale) }

  lemma PartsAre(places: string, scale: string)
    ensures var f, p := PointPart(places), PowerPart(scale);
      && (places == "" ==> f == "") && (places != "" ==> f != "" && f[0] == '.' && f[1..] == places)
      && (scale == "" ==> p == "")
      && (scale != "" ==> |p| >= 3 && p[0] == 'e' && p[1] == '-' && p[2..] == scale)
  {
  }

  lemma ReadingOf(whole: string, places: string, scale: string)
    requires AllDigits(whole) && Digits(places) && Digits(scale)
    ensures Digits(whole + places)
    ensures Reading(Powered(Pointed(whole, places), scale)) ==
      Some(Over(Value(whole + places), |places| + Value(scale)))
  {
    hide Value, Over, Find, PointPart, PowerPart;
    PartsAre(places, scale);
    assert 'e' !in Pointed(whole, places) by { NoE(whole, places); }
    FindSplits(Pointed(whole, places), 'e', PowerPart(scale));
    FindSplits(whole, '.', PointPart(places));
  }

  lemma NoE(whole: string, places: string)
    requires Digits(whole) && Digits(places)
    ensures 'e' !in Pointed(whole, places)
  {
    var s := Pointed(whole, places);
    forall i | 0 <= i < |s| ensures s[i] != 'e' {
      if i > |whole| { assert s[i] == places[i - |whole| - 1]; }
    }
  }

  // ---------------------------------------------------------------- values

  lemma ValueStep(s: string, c: char)
    requires Digits(s) && IsDigit(c)
    ensures Digits(s + [c]) && Value(s + [c]) == 10 * Value(s) + (c as int - '0' as int)
  {
    assert (s + [c])[..|s|] == s;
  }

  lemma {:induction false} ValueAppend(a: string, b: string)
    requires Digits(a) && Digits(b)
    ensures Digits(a + b) && Value(a + b) == Value(a) * Power(|b|) + Value(b)
  {
    hide Value, Power;
    PowerStep(|b|);
    if b == "" {
      assert a + b == a;
      ValueOfNothing();
    } else {
      var n := |b| - 1;
      var front, c := b[..n], b[n];
      assert b == front + [c] && a + b == (a + front) + [c];
      ValueAppend(a, front);
      ValueStep(a + front, c);
      ValueStep(front, c);
      TenTimes(Value(a), Power(n));
    }
  }

  lemma ValueOfNothing()
    ensures Value("") == 0
  {
  }

  lemma PowerStep(n: nat)
    ensures Power(n) == if n == 0 then 1 else 10 * Power(n - 1)
  {
  }

  lemma TenTimes(x: int, p: int)
    ensures x * (10 * p) == 10 * (x * p)
  {
  }

  lemma {:induction false} ValueOfZeros(n: nat)
    ensures Digits(Zeros(n)) && Value(Zeros(n)) == 0
  {
    if n > 0 {
      ValueOfZeros(n - 1);
      assert Zeros(n)[..n - 1] == Zeros(n - 1);
    }
  }

  /** Only zeros at the end are dropped. */
  lemma {:induction false} StrippedKeeps(s: string)
    ensures s == Stripped(s) + Zeros(|s| - |Stripped(s)|)
  {
    if s != "" && s[|s| - 1] == '0' {
      var rest := s[..|s| - 1];
      StrippedKeeps(rest);
      assert s == rest + ['0'];
    }
  }

  /** No zero is left at the end. */
  lemma {:induction false} StrippedEnds(s: string)
    ensures var r := Stripped(s); r <= s && (r != "" ==> r[|r| - 1] != '0')
  {
    if s != "" && s[|s| - 1] == '0' { StrippedEnds(s[..|s| - 1]); }
  }

  lemma {:induction false} TenIsPower(k: nat)
    ensures TenTo(k) == Power(k) as real
  {
    if k > 0 { TenIsPower(k - 1); }
  }

  lemma {:induction false} TenAdds(a: nat, b: nat)
    ensures TenTo(a + b) == TenTo(a) * TenTo(b)
  {
    if a > 0 {
      TenAdds(a - 1, b);
      assert 10.0 * (TenTo(a - 1) * TenTo(b)) == (10.0 * TenTo(a - 1)) * TenTo(b);
    }
  }

  lemma Cancel(a: real, b: real, c: real)
    requires b > 0.0 && c > 0.0
    ensures b * c > 0.0 && a / b == (a * c) / (b * c)
  {
    var q := a / b;
    assert q * b == a;
    assert q * (b * c) == a * c;
  }

  lemma AsReals(a: nat, b: nat)
    ensures (a * b) as real == a as real * b as real
  {
  }

  /** Zeros after the last digit do not change the number. */
  lemma SameNumber(short: nat, n: nat, k: nat, zeros: nat)
    requires n == short * Power(zeros)
    ensures Over(short, k) == Over(n, k + zeros)
  {
    hide TenTo, Power;
    TenIsPower(zeros);
    TenAdds(k, zeros);
    AsReals(short, Power(zeros));
    Cancel(short as real, TenTo(k), TenTo(zeros));
  }

  /** Dropping zeros after a point: `before` and `digits` together say n. */
  lemma StrippedSays(before: string, digits: string, k: nat)
    requires Digits(before) && Digits(digits)
    ensures var rest := Stripped(digits);
      && Digits(rest) && Digits(before + rest) && Digits(before + digits)
      && Over(Value(before + rest), |rest| + k) == Over(Value(before + digits), |digits| + k)
  {
    hide Stripped, Value, Over, Zeros;
    var rest := Stripped(digits);
    var zeros := |digits| - |rest|;
    StrippedKeeps(digits);
    assert forall i :: 0 <= i < |rest| ==> rest[i] == digits[i];
    ValueOfZeros(zeros);
    ValueAppend(before + rest, Zeros(zeros));
    assert before + digits == (before + rest) + Zeros(zeros);
    SameNumber(Value(before + rest), Value(before + digits), |rest| + k, zeros);
  }

  lemma {:induction false} DecimalIsLong(n: nat, k: nat)
    requires n >= Power(k)
    ensures |Decimal(n)| > k
  {
    if k > 0 { DecimalIsLong(n / 10, k - 1); }
  }

  lemma NineDecimals(n: nat)
    requires 100_000_000 <= n < NINE_DIGITS
    ensures AllDigits(Decimal(n)) && |Decimal(n)| == 9 && Value(Decimal(n)) == n
  {
    ValueOfDecimal(n);
    assert Power(8) == 100_000_000 && Power(9) == NINE_DIGITS;
    DecimalLength(n, 9);
    DecimalIsLong(n, 8);
  }

  /** The first digit, and the point, and the other digits. */
  lemma MantissaSays(digits: string, k: nat)
    requires AllDigits(digits)
    ensures var rest := Stripped(digits[1..]);
      && Digits(rest) && Digits(digits[..1] + rest) && digits[..1] + Fraction(digits) == Pointed(digits[..1], rest)
      && Over(Value(digits[..1] + rest), |rest| + k) == Over(Value(digits), |digits| - 1 + k)
  {
    hide Value, Over;
    StrippedSays(digits[..1], digits[1..], k);
    assert digits[..1] + digits[1..] == digits;
  }

  /** The digits of `n`, then a power of ten, perhaps none. */
  lemma MantissaReads(n: nat, scale: string)
    requires 100_000_000 <= n < NINE_DIGITS && Digits(scale)
    ensures var digits := Decimal(n);
      digits != "" && Reading(Powered(digits[..1] + Fraction(digits), scale)) == Some(Over(n, 8 + Value(scale)))
  {
    hide Reading, Value, Over, Stripped, Fraction;
    var digits := Decimal(n);
    NineDecimals(n);
    MantissaSays(digits, Value(scale));
    ReadingOf(digits[..1], Stripped(digits[1..]), scale);
  }

  lemma LeadingZeros(k: nat, digits: string)
    requires AllDigits(digits)
    ensures var before := ['0'] + Zeros(k);
      && Digits(before) && Digits(before + digits)
      && Value(before + digits) == Value(digits)
  {
    ValueOfZeros(k);
    assert ['0'] + Zeros(k) == Zeros(k) + ['0'] by { ZerosTurn(k); }
    ValueOfZeros(k + 1);
    ValueAppend(Zeros(k + 1), digits);
  }

  lemma {:induction false} ZerosTurn(k: nat)
    ensures ['0'] + Zeros(k) == Zeros(k) + ['0']
  {
    if k > 0 {
      ZerosTurn(k - 1);
      assert ['0'] + (Zeros(k - 1) + ['0']) == (['0'] + Zeros(k - 1)) + ['0'];
    }
  }

  lemma SomeDigitStays(digits: string)
    requires Digits(digits) && Value(digits) > 0
    ensures Stripped(digits) != ""
  {
    StrippedKeeps(digits);
    ValueOfZeros(|digits|);
  }

  lemma SmallReads(n: nat, e: nat)
    requires 100_000_000 <= n < NINE_DIGITS && 0 < e
    ensures Reading(['0', '.'] + Zeros(e - 1) + Stripped(Decimal(n))) == Some(Over(n, 8 + e))
  {
    hide Reading, Value, Over, Stripped, Zeros, Decimal, Pointed, Powered;
    var digits := Decimal(n);
    NineDecimals(n);
    LeadingZeros(e - 1, digits);
    var before := ['0'] + Zeros(e - 1);
    StrippedSays(before, digits, e - 1);
    var rest := Stripped(digits);
    var places := Zeros(e - 1) + rest;
    ValueOfZeros(e - 1);
    ReadingOf(['0'], places, "");
    ValueOfNothing();
    assert ['0'] + places == before + rest;
    assert Over(Value(before + rest), |rest| + (e - 1)) == Over(n, 9 + (e - 1));
    SomeDigitStays(digits);
    SmallShape(Zeros(e - 1), rest);
  }

  lemma SmallShape(zeros: string, rest: string)
    requires rest != ""
    ensures Powered(Pointed(['0'], zeros + rest), "") == ['0', '.'] + zeros + rest
  {
    assert ['0'] + (['.'] + (zeros + rest)) == ['0', '.'] + zeros + rest;
  }

  lemma ScaleSays(e: nat)
    ensures var scale := (if e < 10 then ['0'] else "") + Decimal(e);
      AllDigits(scale) && Value(scale) == e
  {
    hide Decimal, Zeros;
    ValueOfDecimal(e);
    if e < 10 {
      LeadingZeros(0, Decimal(e));
      ValueOfZeros(0);
      assert Zeros(0) == "" by { ZerosNone(); }
      assert ['0'] + Zeros(0) == ['0'];
    } else {
      assert "" + Decimal(e) == Decimal(e);
    }
  }

  lemma ZerosNone()
    ensures Zeros(0) == ""
  {
  }

  /** The digits of `n` over 10^(8 + e) are read back as that number, however they are written. */
  lemma WrittenReads(n: nat, e: nat)
    requires 100_000_000 <= n < NINE_DIGITS
    ensures Reading(Written(n, e)) == Some(Over(n, 8 + e))
  {
    hide Reading, Value, Over, Stripped, Fraction, Zeros, Decimal;
    var digits := Decimal(n);
    if e == 0 {
      ValueOfNothing();
      MantissaReads(n, "");
      assert Powered(digits[..1] + Fraction(digits), "") == digits[..1] + Fraction(digits);
    } else if e <= 4 {
      SmallReads(n, e);
      NineDecimals(n);
    } else {
      ScaleSays(e);
      var scale := (if e < 10 then ['0'] else "") + Decimal(e);
      MantissaReads(n, scale);
      WrittenWithPower(n, e, scale);
    }
  }

  lemma WrittenWithPower(n: nat, e: nat, scale: string)
    requires 4 < e && Decimal(n) != "" && scale == (if e < 10 then ['0'] else "") + Decimal(e) && scale != ""
    ensures Written(n, e) == Powered(Decimal(n)[..1] + Fraction(Decimal(n)), scale)
  {
    hide Fraction, Decimal;
    var mantissa := Decimal(n)[..1] + Fraction(Decimal(n));
    assert mantissa + ['e', '-'] + (if e < 10 then ['0'] else "") + Decimal(e) == mantissa + (['e', '-'] + scale);
  }

  // ---------------------------------------------------------------- nine significant digits

  /** A number scaled to its first digit. */
  lemma {:induction false} NormalizeScales(p: real, e: nat)
    requires 0.0 <= p <= 10.0 && e <= EXPONENTS && p * TenTo(EXPONENTS - e) >= 1.0
    ensures var (m, f) := Normalize(p, e); m == p * TenTo(f - e) && m >= 1.0 && (f > e ==> m < 10.0)
    decreases EXPONENTS - e
  {
    if p < 1.0 && e < EXPONENTS {
      var k := EXPONENTS - e - 1;
      assert p * TenTo(k + 1) == (10.0 * p) * TenTo(k);
      NormalizeScales(10.0 * p, e + 1);
      var f := Normalize(p, e).1;
      assert p * TenTo(f - e) == (10.0 * p) * TenTo(f - e - 1);
    }
  }

  /** Zero, or no smaller than 10^-400, as every binary64 number of the unit interval is. */
  predicate Printable(p: real) { 0.0 <= p <= 1.0 && (p == 0.0 || p * TenTo(EXPONENTS) >= 1.0) }

  /** Right to nine significant digits: the relative error is at most 5 / 10^9. */
  predicate Near(x: real, p: real) {
    && (x - p) * 200_000_000.0 <= p
    && (p - x) * 200_000_000.0 <= p
  }

  lemma RoundingIsNear(m: real)
    requires 1.0 <= m <= 10.0
    ensures var n := Rounded(m * 100_000_000.0);
      && 100_000_000 <= n <= NINE_DIGITS && Near(n as real, m * 100_000_000.0)
      && (m == 1.0 ==> n == 100_000_000)
      && (n == NINE_DIGITS ==> n / 10 == 100_000_000 && Near(100_000_000.0, m * 10_000_000.0))
  {
    RoundedBelow(m);
    var x := m * 100_000_000.0;
    assert x >= 100_000_000.0;
    assert m == 1.0 ==> x == 100_000_000.0;
    assert m * 10_000_000.0 * 10.0 == x;
  }

  /** The number of which nine digits are kept. */
  function Kept(p: real, e: nat): real { p * TenTo(8 + e) }

  lemma KeptIs(p: real, e: nat)
    ensures Kept(p, e) == (p * TenTo(e)) * 100_000_000.0
    ensures Kept(p, e + 1) == 10.0 * Kept(p, e)
  {
    TenAdds(e, 8);
    TenEight();
    Product(p, TenTo(e), TenTo(8));
    TenStep(8 + e);
    Product(10.0, p, TenTo(8 + e));
  }

  lemma SignificantIsNear(p: real)
    requires 0.0 < p <= 1.0 && Printable(p)
    ensures var (n, e) := Significant(p);
      100_000_000 <= n < NINE_DIGITS && Near(n as real, Kept(p, e))
  {
    hide Normalize, TenTo, Rounded, Near, Kept;
    NormalizeScales(p, 0);
    var (m, e) := Normalize(p, 0);
    KeptIs(p, e);
    RoundingIsNear(m);
    var n := Rounded(m * 100_000_000.0);
    assert m * 100_000_000.0 == Kept(p, e);
    if e > 0 && n == NINE_DIGITS {
      KeptIs(p, e - 1);
      assert m * 10_000_000.0 == Kept(p, e - 1);
      assert Significant(p) == (n / 10, e - 1);
      assert (n / 10) as real == 100_000_000.0;
    } else {
      if e == 0 { TenStep(0); }
      assert Significant(p) == (n, e);
    }
  }

  lemma Product(a: real, b: real, c: real)
    ensures a * b * c == a * (b * c)
  {
  }

  lemma TenEight()
    ensures TenTo(8) == 100_000_000.0
  {
  }

  lemma TenStep(k: nat)
    ensures TenTo(0) == 1.0 && TenTo(k + 1) == 10.0 * TenTo(k)
  {
  }

  /** Every printed score is a numeral that stands for the score to nine significant digits. */
  lemma NineGReads(p: real)
    requires Printable(p)
    ensures Reading(NineG(p)).Some? && Near(Reading(NineG(p)).value, p)
  {
    hide Reading, Normalize, Significant, Rounded, Written, Near, TenTo;
    if p == 0.0 {
      ZeroReads();
      NearItself();
    } else {
      var (n, e) := Significant(p);
      SignificantIsNear(p);
      WrittenReads(n, e);
      NearScales(n, e, p);
    }
  }

  lemma ZeroReads()
    ensures Reading("0") == Some(0.0)
  {
    ReadingOf("0", "", "");
  }

  lemma NearItself()
    ensures Near(0.0, 0.0)
  {
  }

  lemma NearScales(n: nat, e: nat, p: real)
    requires Near(n as real, Kept(p, e))
    ensures Near(Over(n, 8 + e), p)
  {
    hide TenTo;
    var x, scale := Over(n, 8 + e), TenTo(8 + e);
    assert n as real == x * scale;
    assert ((x - p) * 200_000_000.0 - p) * scale <= 0.0;
    assert ((p - x) * 200_000_000.0 - p) * scale <= 0.0;
  }

  // ---------------------------------------------------------------- the sentences about the scores

  /** `text` is a numeral that stands for `p` to nine significant digits. */
  predicate Says(text: string, p: real) { Reading(text).Some? && Near(Reading(text).value, p) }

  /** The sentence about one detector. */
  ghost predicate Reports(sentence: string, name: string, probability: real, threshold: real) {
    exists p, t :: Says(p, probability) && Says(t, threshold)
      && sentence == name + ": probability " + p + ", frozen balanced threshold " + t + ", recorded decision "
                     + (if probability >= threshold then "alert" else "no alert") + "."
  }

  lemma ScoreReports(d: Detector, s: Scored)
    requires Printable(s.probability) && Printable(s.threshold) && s.alert == (s.probability >= s.threshold)
    ensures Reports(ScoreText(d, s), DetectorName(d), s.probability, s.threshold)
  {
    hide Reading, Near, NineG, Printable;
    PrintableIsUnit(s.probability);
    PrintableIsUnit(s.threshold);
    NineGReads(s.probability);
    NineGReads(s.threshold);
    assert Says(NineG(s.probability), s.probability) && Says(NineG(s.threshold), s.threshold);
  }

  lemma PrintableIsUnit(p: real)
    requires Printable(p)
    ensures 0.0 <= p <= 1.0
  {
  }

  lemma LargeIsPrintable(p: real)
    requires 0.001 <= p <= 1.0
    ensures Printable(p)
  {
    hide TenTo;
    TenAdds(397, 3);
    TenThree();
    assert p * TenTo(EXPONENTS) == (p * TenTo(3)) * TenTo(397);
  }

  lemma TenThree()
    ensures TenTo(3) == 1000.0
  {
  }

  /** Both sentences, one right after the other, within the text. */
  ghost predicate SideBySide(text: string, first: string, second: string) {
    exists before, after :: text == before + [' '] + first + [' '] + second + [' '] + after
  }

  /** The text reports both detectors, each under its own name, with its own probability and frozen threshold, and with
      the decision that those two numbers give. */
  ghost predicate ReportsBoth(text: string, transformer: real, lightgbm: real) {
    exists first, second :: SideBySide(text, first, second)
      && Reports(first, "transformer", transformer, 0.996423148187864)
      && Reports(second, "lightgbm", lightgbm, 0.5769230769230769)
  }

  /** The text of every accepted snapshot reports the pair of scores that the snapshot holds. */
  lemma FactualTextReports(s: Snapshot, id: string)
    requires SnapshotOk(s, id)
    requires Printable(s.body.paired.transformer.probability) && Printable(s.body.paired.lightgbm.probability)
    ensures ReportsBoth(FactualText.FactualText(s), s.body.paired.transformer.probability,
                        s.body.paired.lightgbm.probability)
  {
    hide Reports, Printable, ScoreText, Opening, LabelText, Closing, ContextOk;
    var b := s.body;
    var (t, l) := (b.paired.transformer, b.paired.lightgbm);
    LargeIsPrintable(t.threshold);
    LargeIsPrintable(l.threshold);
    ScoreReports(Transformer, t);
    ScoreReports(LightGbm, l);
    var first, second := ScoreText(Transformer, t), ScoreText(LightGbm, l);
    var after := LabelText(b) + [' '] + Closing();
    Regroup(Opening(b.row) + [' '] + first + [' '] + second + [' '], LabelText(b), Closing());
    assert SideBySide(BodyText(b), first, second);
  }

  lemma Regroup(before: string, a: string, b: string)
    ensures before + a + [' '] + b == before + (a + [' '] + b)
  {
  }
}
