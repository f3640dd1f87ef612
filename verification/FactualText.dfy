/**
 The deterministic explanation of a snapshot: `factual_text` in backend/app/ceo_journey_evidence.py.

 A number printed with `.9g` is rounded to nine significant digits, ties to even; its trailing zeros are
 dropped; and below 0.0001 it is written with an exponent of at least two digits.
 */
module FactualText {
  import opened Evidence
  import opened Decimals
  import opened Journey
  import opened JourneyPromises

  const NINE_DIGITS: nat := 1_000_000_000
  /** No binary64 number other than zero needs as many steps. */
  const EXPONENTS: nat := 400

  // ---------------------------------------------------------------- numbers

  /** `p` as a number of at least 1 over a power of ten. */
  function Normalize(p: real, e: nat): (r: (real, nat))
    requires 0.0 <= p <= 10.0 && e <= EXPONENTS
    ensures 0.0 <= r.0 <= 10.0 && e <= r.1 <= EXPONENTS
    decreases EXPONENTS - e
  {
    if p >= 1.0 || e == EXPONENTS then (p, e) else Normalize(10.0 * p, e + 1)
  }

  /** The nearest integer, ties to even. */
  function Rounded(x: real): (n: nat)
    requires x >= 0.0
    ensures n as real <= x + 0.5 && x - 0.5 <= n as real
    ensures n as real == x + 0.5 || n as real == x - 0.5 ==> n % 2 == 0
  {
    var low := x.Floor;
    var rest := x - low as real;
    if rest < 0.5 || (rest == 0.5 && low % 2 == 0) then low else low + 1
  }

  function Stripped(s: string): (r: string)
    ensures |r| <= |s|
  {
    if s != "" && s[|s| - 1] == '0' then Stripped(s[..|s| - 1]) else s
  }

  function Zeros(n: nat): (s: string)
    ensures |s| == n
  {
    if n == 0 then "" else Zeros(n - 1) + ['0']
  }

  /** The digits after the first, with their point, unless there is none left. */
  function Fraction(digits: string): string
    requires digits != ""
  {
    var rest := Stripped(digits[1..]);
    if rest == "" then "" else ['.'] + rest
  }

  /** A number whose nine digits are those of `n`, over `10^e` times 10^8. */
  function Written(n: nat, e: nat): string {
    var digits := Decimal(n);
    if digits == "" then ""
    else if e == 0 then digits[..1] + Fraction(digits)
    else if e <= 4 then ['0', '.'] + Zeros(e - 1) + Stripped(digits)
    else digits[..1] + Fraction(digits) + ['e', '-'] + (if e < 10 then ['0'] else "") + Decimal(e)
  }

  /** The nine significant digits of a number, and the power of ten of the first. */
  function Significant(p: real): (r: (nat, nat))
    requires 0.0 <= p <= 1.0
    ensures r.0 <= NINE_DIGITS && r.1 <= EXPONENTS
  {
    var (m, e) := Normalize(p, 0);
    RoundedBelow(m);
    var n := Rounded(m * 100_000_000.0);
    if n >= NINE_DIGITS && e > 0 then (n / 10, e - 1) else (n, e)
  }

  lemma RoundedBelow(m: real)
    requires 0.0 <= m <= 10.0
    ensures Rounded(m * 100_000_000.0) <= NINE_DIGITS
  {
    assert m * 100_000_000.0 <= 1_000_000_000.0;
  }

  /** f"{p:.9g}". */
  function NineG(p: real): string
    requires 0.0 <= p <= 1.0
  {
    if p == 0.0 then "0" else Written(Significant(p).0, Significant(p).1)
  }

  // ---------------------------------------------------------------- text

  function SymbolName(s: Symbol): string { match s case AAPL => "AAPL" case MSFT => "MSFT" case NVDA => "NVDA" }

  function FamilyName(f: Family): string {
    match f
    case Control => "control"
    case LayeringLike => "layering_like"
    case QuoteStuffing => "quote_stuffing"
    case SpoofingLikeWall => "spoofing_like_wall"
  }

  function DetectorName(d: Detector): string { if d.Transformer? then "transformer" else "lightgbm" }

  function Opening(row: PageRow): string {
    "Recorded " + SymbolName(row.symbol) + " saved research prediction at timestamp " + Decimal(row.timestamp) + "."
  }

  function ScoreText(d: Detector, s: Scored): string {
    if !(0.0 <= s.probability <= 1.0 && 0.0 <= s.threshold <= 1.0) then ""
    else
      DetectorName(d) + ": probability " + NineG(s.probability) + ", frozen balanced threshold "
      + NineG(s.threshold) + ", recorded decision " + (if s.alert then "alert" else "no alert") + "."
  }

  function LabelText(b: SnapshotBody): string {
    "Synthetic research label: " + Decimal(b.row.synthetic) + "; scenario family: " + FamilyName(b.row.family)
    + ". The snapshot retains " + Decimal(|b.context|) + " preceding paired score rows."
  }

  function Closing(): string {
    "Deterministic factual fallback; no LLM call or fresh inference was performed. "
    + "These saved scores and synthetic labels contain no order-book or trade evidence "
    + "and do not establish adjudicated market abuse."
  }

  /** " ".join of the five sentences. */
  function Sentences(a: string, b: string, c: string, d: string, e: string): (text: string)
    ensures |text| == |a| + |b| + |c| + |d| + |e| + 4
  {
    a + [' '] + b + [' '] + c + [' '] + d + [' '] + e
  }

  function BodyText(b: SnapshotBody): string {
    Sentences(Opening(b.row), ScoreText(Transformer, b.paired.transformer), ScoreText(LightGbm, b.paired.lightgbm),
              LabelText(b), Closing())
  }

  /** `factual_text`. */
  function FactualText(s: Snapshot): string {
    BodyText(s.body)
  }

  // ---------------------------------------------------------------- length

  function Power(k: nat): nat { if k == 0 then 1 else 10 * Power(k - 1) }

  lemma {:induction false} DecimalLength(n: nat, k: nat)
    requires 0 < k && n < Power(k)
    ensures 0 < |Decimal(n)| <= k
  {
    if n >= 10 {
      assert k > 1;
      DecimalLength(n / 10, k - 1);
    }
  }

  lemma WrittenLength(n: nat, e: nat)
    requires n <= NINE_DIGITS && e <= EXPONENTS
    ensures |Written(n, e)| <= 20
  {
    assert Power(10) == 10_000_000_000;
    DecimalLength(n, 10);
    assert Power(3) == 1000;
    DecimalLength(e, 3);
  }

  /** A number printed with nine significant digits takes at most twenty characters. */
  lemma NineGLength(p: real)
    requires 0.0 <= p <= 1.0
    ensures |NineG(p)| <= 20
  {
    if p > 0.0 { WrittenLength(Significant(p).0, Significant(p).1); }
  }

  lemma OpeningLength(row: PageRow)
    requires row.timestamp < TIMESTAMP_LIMIT
    ensures |Opening(row)| <= 100
  {
    ThirtyDigits();
    DecimalLength(row.timestamp, 30);
  }

  lemma ThirtyDigits()
    ensures Power(30) == TIMESTAMP_LIMIT
  {
    assert Power(10) == 10_000_000_000;
    assert Power(20) == 100_000_000_000_000_000_000;
  }

  lemma ScoreLength(d: Detector, s: Scored)
    ensures |ScoreText(d, s)| <= 150
  {
    if 0.0 <= s.probability <= 1.0 && 0.0 <= s.threshold <= 1.0 {
      NineGLength(s.probability);
      NineGLength(s.threshold);
    }
  }

  lemma LabelLength(b: SnapshotBody)
    requires b.row.synthetic <= 1 && |b.context| <= CONTEXT_ROWS
    ensures |LabelText(b)| <= 150
  {
    assert Power(2) == 100;
    DecimalLength(b.row.synthetic, 2);
    DecimalLength(|b.context|, 2);
  }

  lemma BodyTextFits(b: SnapshotBody)
    requires b.row.timestamp < TIMESTAMP_LIMIT && b.row.synthetic <= 1 && |b.context| <= CONTEXT_ROWS
    ensures |BodyText(b)| <= 1000
  {
    hide Opening, ScoreText, LabelText, Closing;
    OpeningLength(b.row);
    ScoreLength(Transformer, b.paired.transformer);
    ScoreLength(LightGbm, b.paired.lightgbm);
    LabelLength(b);
    ClosingLength();
  }

  /** The text of every accepted snapshot is far below the limit of `verify_explanation`. */
  lemma FactualTextFits(s: Snapshot, id: string)
    requires SnapshotOk(s, id)
    ensures |FactualText(s)| <= 1000 < MAX_TEXT
  {
    hide BodyText;
    BodyTextFits(s.body);
  }

  lemma ClosingLength()
    ensures |Closing()| <= 300
  {
  }

  lemma EveryTextFits()
    ensures TextFits(FactualText)
  {
    hide FactualText, SnapshotOk;
    forall s, id | SnapshotOk(s, id) ensures |FactualText(s)| <= MAX_TEXT { FactualTextFits(s, id); }
  }

  /** In every run whose losses of power keep the stages in order, and so in every run without one, `explain` and
      `save` refuse no artifact that a journey has stored: the next store call of such a call gives an artifact,
      finds one missing, or goes on. */
  lemma ExplainAndSaveNeverRefuse(trace: seq<Event>, p: Pid, clock: string)
    requires After(FactualText, trace).Some? && Orderly(trace)
    requires var s := After(FactualText, trace).value;
      && p in s.procs && !Terminal(s.procs[p].phase)
      && (s.procs[p].call.ExplainCall? || s.procs[p].call.SaveCall?)
    ensures var s := After(FactualText, trace).value; !Next(FactualText, s.store, s.procs[p], clock).1.Refused?
  {
    hide FactualText;
    EveryTextFits();
    OrderlyCallsAreNotRefused(FactualText, trace, p, clock);
  }
}
