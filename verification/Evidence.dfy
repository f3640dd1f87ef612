/**
 The prepared window, the capture of a selected alert and its verifier:
 backend/app/ceo_journey_evidence.py, the paging of backend/app/research/saved_scores.py and
 `CEOJourney.capture`.

 SHA-256 of canonical JSON is the free, hence injective, constructor of `Digest`.
 `shortHash` is the truncated session hash, which may collide.
 */
module Evidence {
  import opened Wrappers

  const CONTEXT_ROWS: nat := 16
  const WINDOW_ROWS: nat := 64
  const PAGE_ROWS: nat := 100
  const MAX_TEXT: nat := 4096
  /** A timestamp is stored as a decimal string of at most thirty digits. */
  const TIMESTAMP_LIMIT: nat := 1_000_000_000_000_000_000_000_000_000_000

  datatype Detector = Transformer | LightGbm
  datatype Symbol = AAPL | MSFT | NVDA
  datatype Family = Control | LayeringLike | QuoteStuffing | SpoofingLikeWall

  function Threshold(d: Detector): real {
    match d case Transformer => 0.996423148187864 case LightGbm => 0.5769230769230769
  }

  // ---------------------------------------------------------------- the saved campaign

  datatype SavedRow = SavedRow(target: string, runId: string, timestamp: nat, synthetic: nat,
                               probability: real, baseline: real, symbol: Symbol, family: Family)

  function Score(row: SavedRow, d: Detector): real {
    if d.Transformer? then row.probability else row.baseline
  }

  predicate IsHex(s: string) {
    forall i :: 0 <= i < |s| ==> '0' <= s[i] <= '9' || 'a' <= s[i] <= 'f'
  }

  /** What `validate_rows` has established of a loaded campaign. */
  predicate ValidRows(rows: seq<SavedRow>) {
    && (forall i :: 0 <= i < |rows| ==>
          && |rows[i].target| == 64 && IsHex(rows[i].target) && rows[i].synthetic <= 1
          && 0.0 <= rows[i].probability <= 1.0 && 0.0 <= rows[i].baseline <= 1.0)
    && (forall i, j :: 0 <= i < j < |rows| ==> rows[i].target != rows[j].target)
  }

  /** Two runs share a truncated session hash: `grouped` refuses the campaign. */
  predicate Collides(shortHash: string -> string, rows: seq<SavedRow>) {
    exists i, j :: 0 <= i < j < |rows| && shortHash(rows[i].runId) == shortHash(rows[j].runId)
                   && rows[i].runId != rows[j].runId
  }

  /** The source ordinals of a session's rows, in campaign order. */
  function Group(shortHash: string -> string, rows: seq<SavedRow>, session: string): seq<nat> {
    if rows == [] then []
    else
      var n := |rows| - 1;
      Group(shortHash, rows[..n], session) + (if shortHash(rows[n].runId) == session then [n] else [])
  }

  /** `g` is exactly the session's rows, in strictly increasing source order. */
  ghost predicate Lists(shortHash: string -> string, rows: seq<SavedRow>, session: string, g: seq<nat>) {
    && (forall a, b :: 0 <= a < b < |g| ==> g[a] < g[b])
    && (forall a :: 0 <= a < |g| ==> g[a] < |rows| && shortHash(rows[g[a]].runId) == session)
    && (forall i :: 0 <= i < |rows| && shortHash(rows[i].runId) == session ==> i in g)
  }

  lemma {:induction false} GroupIsSession(shortHash: string -> string, rows: seq<SavedRow>, session: string)
    ensures Lists(shortHash, rows, session, Group(shortHash, rows, session))
  {
    if rows != [] {
      var n := |rows| - 1;
      GroupIsSession(shortHash, rows[..n], session);
      var g, h := Group(shortHash, rows, session), Group(shortHash, rows[..n], session);
      forall i | 0 <= i < |rows| && shortHash(rows[i].runId) == session ensures i in g {
        if i < n {
          assert rows[..n][i] == rows[i];
          var a :| 0 <= a < |h| && h[a] == i;
          assert g[a] == i;
        } else {
          assert g[|h|] == n;
        }
      }
    }
  }

  lemma SameTargetSameRow(rows: seq<SavedRow>, i: nat, j: nat)
    requires ValidRows(rows) && i < |rows| && j < |rows| && rows[i].target == rows[j].target
    ensures i == j
  {
  }

  // ---------------------------------------------------------------- pages and windows

  datatype PageRow = PageRow(ordinal: nat, source: nat, target: string, timestamp: nat,
                             symbol: Symbol, family: Family, synthetic: nat, probability: real, alert: bool)
  datatype Window = Window(session: string, offset: nat, limit: nat)
  datatype Refusal = NotAvailable | BadSelection | BadPage | Collision

  function RowAt(rows: seq<SavedRow>, d: Detector, ordinal: nat, source: nat): PageRow
    requires source < |rows|
  {
    var row := rows[source];
    PageRow(ordinal, source, row.target, row.timestamp, row.symbol, row.family, row.synthetic,
            Score(row, d), Score(row, d) >= Threshold(d))
  }

  function RowsFrom(rows: seq<SavedRow>, d: Detector, g: seq<nat>, offset: nat, n: nat): (page: seq<PageRow>)
    requires offset + n <= |g| && forall a :: 0 <= a < |g| ==> g[a] < |rows|
    ensures |page| == n
    ensures forall i :: 0 <= i < n ==> page[i] == RowAt(rows, d, offset + i, g[offset + i])
  {
    seq(n, i requires 0 <= i < n => RowAt(rows, d, offset + i, g[offset + i]))
  }

  /** `SavedCampaign.page`: the rows of one session from `offset`, at most `limit` of them. */
  function Page(shortHash: string -> string, rows: seq<SavedRow>, w: Window, d: Detector)
      : (page: Result<seq<PageRow>, Refusal>)
    ensures page.Ok? ==> |page.value| <= w.limit
  {
    var g := Group(shortHash, rows, w.session);
    if Collides(shortHash, rows) then Err(Collision)
    else if g == [] || w.offset > |g| || !(1 <= w.limit <= PAGE_ROWS) then Err(BadPage)
    else
      GroupIsSession(shortHash, rows, w.session);
      var n := if w.offset + w.limit <= |g| then w.limit else |g| - w.offset;
      Ok(RowsFrom(rows, d, g, w.offset, n))
  }

  /** The first row of the campaign whose transformer score reaches the frozen threshold. */
  ghost predicate FirstAlert(rows: seq<SavedRow>, i: nat) {
    && i < |rows| && rows[i].probability >= Threshold(Transformer)
    && (forall j :: 0 <= j < i ==> rows[j].probability < Threshold(Transformer))
  }

  /** Where `w` lies when its session's row `k` is the first alert, campaign row `i`. */
  ghost predicate PlacedAround(shortHash: string -> string, rows: seq<SavedRow>, w: Window, i: nat, k: nat) {
    var g := Group(shortHash, rows, w.session);
    && FirstAlert(rows, i) && k < |g| && g[k] == i
    && w.offset == (if k >= CONTEXT_ROWS then k - CONTEXT_ROWS else 0)
    && w.limit == (if |g| - w.offset < WINDOW_ROWS then |g| - w.offset else WINDOW_ROWS)
  }

  predicate NoAlert(rows: seq<SavedRow>, n: nat)
    requires n <= |rows|
  {
    forall i :: 0 <= i < n ==> rows[i].probability < Threshold(Transformer)
  }

  /** `next(...)` over the session: the position of the row carrying the target of row `i`. */
  method PositionOf(shortHash: string -> string, rows: seq<SavedRow>, i: nat) returns (k: nat)
    requires ValidRows(rows) && i < |rows|
    ensures var g := Group(shortHash, rows, shortHash(rows[i].runId)); k < |g| && g[k] == i
  {
    var selected := Group(shortHash, rows, shortHash(rows[i].runId));
    GroupIsSession(shortHash, rows, shortHash(rows[i].runId));
    assert i in selected;
    ghost var at :| 0 <= at < |selected| && selected[at] == i;
    k := 0;
    while rows[selected[k]].target != rows[i].target
      invariant k <= at
      decreases at - k
    {
      k := k + 1;
    }
    SameTargetSameRow(rows, selected[k], i);
  }

  /** `prepared`: scan for the first alert, then place the window around it in its session. */
  method Prepared(shortHash: string -> string, rows: seq<SavedRow>) returns (r: Result<Window, Refusal>)
    requires ValidRows(rows)
    ensures r == Err(Collision) <==> Collides(shortHash, rows)
    ensures r == Err(NotAvailable) <==> !Collides(shortHash, rows) && NoAlert(rows, |rows|)
    ensures r.Ok? <==> !Collides(shortHash, rows) && !NoAlert(rows, |rows|)
    ensures r.Ok? ==> exists i: nat, k: nat :: PlacedAround(shortHash, rows, r.value, i, k)
  {
    if Collides(shortHash, rows) { return Err(Collision); }
    for i := 0 to |rows|
      invariant NoAlert(rows, i)
    {
      if rows[i].probability >= Threshold(Transformer) {
        var session := shortHash(rows[i].runId);
        var total := |Group(shortHash, rows, session)|;
        var index := PositionOf(shortHash, rows, i);
        var offset := if index >= CONTEXT_ROWS then index - CONTEXT_ROWS else 0;
        var w := Window(session, offset, if total - offset < WINDOW_ROWS then total - offset else WINDOW_ROWS);
        assert PlacedAround(shortHash, rows, w, i, index);
        return Ok(w);
      }
    }
    r := Err(NotAvailable);
  }

  /** The prepared window can always be paged, and shows the campaign's first transformer alert at
      page index sixteen or less, below the window's limit. */
  lemma WindowShowsFirstAlert(shortHash: string -> string, rows: seq<SavedRow>, w: Window, i: nat, k: nat, d: Detector)
    requires PlacedAround(shortHash, rows, w, i, k) && !Collides(shortHash, rows)
    ensures 1 <= w.limit <= WINDOW_ROWS && w.offset <= k && k - w.offset <= CONTEXT_ROWS && k - w.offset < w.limit
    ensures var page := Page(shortHash, rows, w, d);
      && page.Ok? && |page.value| == w.limit
      && page.value[k - w.offset].source == i && page.value[k - w.offset].target == rows[i].target
      && (d.Transformer? ==> page.value[k - w.offset].alert)
  {
    GroupIsSession(shortHash, rows, w.session);
  }

  // ---------------------------------------------------------------- snapshots

  datatype Scored = Scored(probability: real, threshold: real, alert: bool)
  datatype Pair = Pair(transformer: Scored, lightgbm: Scored)
  datatype ContextRow = ContextRow(ordinal: nat, source: nat, target: string, timestamp: nat,
                                   symbol: Symbol, family: Family, synthetic: nat, paired: Pair)

  datatype SnapshotBody = SnapshotBody(id: string, detector: Detector, threshold: real, row: PageRow,
                                       paired: Pair, context: seq<ContextRow>, provenance: string, createdAt: string)
  datatype Snapshot = Snapshot(body: SnapshotBody, sha: Digest)
  datatype ExplanationBody = ExplanationBody(inputSha: Digest, input: Snapshot, text: string, createdAt: string)
  datatype Explanation = Explanation(body: ExplanationBody, sha: Digest)
  datatype RecordBody = RecordBody(id: string, snapshot: Snapshot, explanation: Explanation, savedAt: string)
  datatype Record = Record(body: RecordBody, sha: Digest)
  datatype Digest =
    | OfSnapshot(s: SnapshotBody) | OfExplanation(e: ExplanationBody) | OfRecord(r: RecordBody) | OtherDigest(n: nat)

  function PairAt(pt: seq<PageRow>, pl: seq<PageRow>, i: nat): Pair
    requires i < |pt| && i < |pl|
  {
    Pair(Scored(pt[i].probability, Threshold(Transformer), pt[i].alert),
         Scored(pl[i].probability, Threshold(LightGbm), pl[i].alert))
  }

  function ContextAt(pt: seq<PageRow>, pl: seq<PageRow>, i: nat): ContextRow
    requires i < |pt| && i < |pl|
  {
    var r := pt[i];
    ContextRow(r.ordinal, r.source, r.target, r.timestamp, r.symbol, r.family, r.synthetic, PairAt(pt, pl, i))
  }

  function ContextFrom(pt: seq<PageRow>, pl: seq<PageRow>, first: nat, last: nat): (context: seq<ContextRow>)
    requires first <= last <= |pt| && last <= |pl|
    ensures |context| == last - first
    ensures forall j :: 0 <= j < last - first ==> context[j] == ContextAt(pt, pl, first + j)
  {
    seq(last - first, j requires 0 <= j < last - first => ContextAt(pt, pl, first + j))
  }

  function IndexOf(page: seq<PageRow>, target: string): (i: Option<nat>)
    ensures i.Some? ==> i.value < |page| && page[i.value].target == target
                        && forall j :: 0 <= j < i.value ==> page[j].target != target
    ensures i.None? ==> forall j :: 0 <= j < |page| ==> page[j].target != target
  {
    if page == [] then None
    else
      var before := IndexOf(page[..|page| - 1], target);
      if before.Some? then before
      else if page[|page| - 1].target == target then Some(|page| - 1) else None
  }

  function FirstContext(i: nat): nat { if i >= CONTEXT_ROWS then i - CONTEXT_ROWS else 0 }

  /** The evidence for row `i` of the paired pages. */
  function BodyAt(pt: seq<PageRow>, pl: seq<PageRow>, d: Detector, i: nat,
                  id: string, provenance: string, createdAt: string): SnapshotBody
    requires i < |pt| && i < |pl|
  {
    SnapshotBody(id, d, Threshold(d), if d.Transformer? then pt[i] else pl[i], PairAt(pt, pl, i),
                 ContextFrom(pt, pl, FirstContext(i), i), provenance, createdAt)
  }

  /** The snapshot `capture` assembles before verifying it. */
  function Assemble(shortHash: string -> string, rows: seq<SavedRow>, w: Window, d: Detector, target: string,
                    id: string, provenance: string, createdAt: string): Result<Snapshot, Refusal>
  {
    var pt, pl := Page(shortHash, rows, w, Transformer), Page(shortHash, rows, w, LightGbm);
    if pt.Err? || pl.Err? then Err(BadPage)
    else
      var page := if d.Transformer? then pt.value else pl.value;
      var at := IndexOf(page, target);
      if at.None? || !page[at.value].alert then Err(BadSelection)
      else
        var body := BodyAt(pt.value, pl.value, d, at.value, id, provenance, createdAt);
        Ok(Snapshot(body, OfSnapshot(body)))
  }

  // ---------------------------------------------------------------- verification

  predicate IsIdentifier(id: string) { |id| == 32 && IsHex(id) }

  predicate TargetOk(target: string) { |target| == 64 && IsHex(target) }

  predicate SelectedOk(row: PageRow) {
    TargetOk(row.target) && row.timestamp < TIMESTAMP_LIMIT && row.synthetic <= 1 && 0.0 <= row.probability <= 1.0
  }

  predicate ScoredOk(d: Detector, s: Scored) {
    0.0 <= s.probability <= 1.0 && s.threshold == Threshold(d) && s.alert == (s.probability >= s.threshold)
  }

  predicate PairOk(p: Pair) { ScoredOk(Transformer, p.transformer) && ScoredOk(LightGbm, p.lightgbm) }

  predicate ContextRowOk(row: ContextRow) {
    TargetOk(row.target) && row.timestamp < TIMESTAMP_LIMIT && row.synthetic <= 1 && PairOk(row.paired)
  }

  function For(p: Pair, d: Detector): Scored { if d.Transformer? then p.transformer else p.lightgbm }

  /** Everything `verify_snapshot` checks apart from the hash and the context. */
  predicate HeadOk(b: SnapshotBody, id: string) {
    && IsIdentifier(id) && b.id == id && b.threshold == Threshold(b.detector) && |b.context| <= CONTEXT_ROWS
    && SelectedOk(b.row) && PairOk(b.paired)
    && b.row.probability == For(b.paired, b.detector).probability
    && b.row.alert && For(b.paired, b.detector).alert
  }

  /** The context is the rows directly before the selected one, all earlier in the source. */
  predicate ContextOk(b: SnapshotBody) {
    forall j :: 0 <= j < |b.context| ==>
      && ContextRowOk(b.context[j])
      && b.context[j].ordinal + (|b.context| - j) == b.row.ordinal
      && b.context[j].source < b.row.source
  }

  predicate SnapshotOk(s: Snapshot, id: string) {
    s.sha == OfSnapshot(s.body) && HeadOk(s.body, id) && ContextOk(s.body)
  }

  /** `verify_snapshot`: its running `previous` ordinal decides that the context is the run of rows
      that ends just before the selected row. */
  method VerifySnapshot(s: Snapshot, id: string) returns (accepted: bool)
    ensures accepted <==> SnapshotOk(s, id)
  {
    var b := s.body;
    if s.sha != OfSnapshot(b) || !HeadOk(b, id) { return false; }
    var previous := b.row.ordinal - |b.context|;
    for j := 0 to |b.context|
      invariant previous == b.row.ordinal - |b.context| + j
      invariant forall m :: 0 <= m < j ==>
        && ContextRowOk(b.context[m]) && b.context[m].ordinal + (|b.context| - m) == b.row.ordinal
        && b.context[m].source < b.row.source
    {
      var row := b.context[j];
      if !ContextRowOk(row) { return false; }
      if row.ordinal != previous || row.source >= b.row.source { return false; }
      previous := previous + 1;
    }
    accepted := true;
  }

  // ---------------------------------------------------------------- the producer meets the verifier

  /** Any row of any page of a valid campaign satisfies the verifier, but for its timestamp. */
  lemma PageRowOk(shortHash: string -> string, rows: seq<SavedRow>, w: Window, d: Detector, i: nat)
    requires ValidRows(rows) && Page(shortHash, rows, w, d).Ok? && i < |Page(shortHash, rows, w, d).value|
    ensures var row := Page(shortHash, rows, w, d).value[i];
      && TargetOk(row.target) && row.synthetic <= 1 && row.ordinal == w.offset + i
      && ScoredOk(d, Scored(row.probability, Threshold(d), row.alert))
      && w.offset + i < |Group(shortHash, rows, w.session)|
        && row.source == Group(shortHash, rows, w.session)[w.offset + i]
  {
    GroupIsSession(shortHash, rows, w.session);
  }

  /** Both detectors page the same rows. */
  lemma PagesAlign(shortHash: string -> string, rows: seq<SavedRow>, w: Window, i: nat)
    requires Page(shortHash, rows, w, Transformer).Ok? && Page(shortHash, rows, w, LightGbm).Ok?
    requires i < |Page(shortHash, rows, w, Transformer).value| || i < |Page(shortHash, rows, w, LightGbm).value|
    ensures |Page(shortHash, rows, w, Transformer).value| == |Page(shortHash, rows, w, LightGbm).value|
    ensures var t, l := Page(shortHash, rows, w, Transformer).value[i], Page(shortHash, rows, w, LightGbm).value[i];
      l == t.(probability := l.probability, alert := l.alert)
  {
  }

  predicate ShortTimestamps(b: SnapshotBody) {
    && b.row.timestamp < TIMESTAMP_LIMIT
    && (forall j :: 0 <= j < |b.context| ==> b.context[j].timestamp < TIMESTAMP_LIMIT)
  }

  lemma CapturedContextRow(shortHash: string -> string, rows: seq<SavedRow>, w: Window, i: nat, j: nat)
    requires ValidRows(rows) && Page(shortHash, rows, w, Transformer).Ok? && Page(shortHash, rows, w, LightGbm).Ok?
    requires j < i < |Page(shortHash, rows, w, Transformer).value|
    requires i < |Page(shortHash, rows, w, LightGbm).value|
    ensures var pt, pl := Page(shortHash, rows, w, Transformer).value, Page(shortHash, rows, w, LightGbm).value;
      var c := ContextAt(pt, pl, j);
      && (ContextRowOk(c) <==> c.timestamp < TIMESTAMP_LIMIT)
      && c.ordinal + (i - j) == pt[i].ordinal && c.source < pt[i].source
  {
    PageRowOk(shortHash, rows, w, Transformer, j);
    PageRowOk(shortHash, rows, w, LightGbm, j);
    PageRowOk(shortHash, rows, w, Transformer, i);
    GroupIsSession(shortHash, rows, w.session);
  }

  lemma CapturedHead(shortHash: string -> string, rows: seq<SavedRow>, w: Window, d: Detector, i: nat, b: SnapshotBody)
    requires ValidRows(rows) && Page(shortHash, rows, w, Transformer).Ok? && Page(shortHash, rows, w, LightGbm).Ok?
    requires var pt, pl := Page(shortHash, rows, w, Transformer).value, Page(shortHash, rows, w, LightGbm).value;
      && i < |pt| && i < |pl| && b == BodyAt(pt, pl, d, i, b.id, b.provenance, b.createdAt) && b.row.alert
    requires IsIdentifier(b.id)
    ensures HeadOk(b, b.id) <==> b.row.timestamp < TIMESTAMP_LIMIT
    ensures b.row.ordinal == w.offset + i && |b.context| == i - FirstContext(i)
  {
    PageRowOk(shortHash, rows, w, Transformer, i);
    PageRowOk(shortHash, rows, w, LightGbm, i);
  }

  lemma CapturedContext(shortHash: string -> string, rows: seq<SavedRow>, w: Window, d: Detector, i: nat,
                        b: SnapshotBody)
    requires ValidRows(rows) && Page(shortHash, rows, w, Transformer).Ok? && Page(shortHash, rows, w, LightGbm).Ok?
    requires var pt, pl := Page(shortHash, rows, w, Transformer).value, Page(shortHash, rows, w, LightGbm).value;
      && i < |pt| && i < |pl| && b == BodyAt(pt, pl, d, i, b.id, b.provenance, b.createdAt)
    ensures ContextOk(b) <==> forall j :: 0 <= j < |b.context| ==> b.context[j].timestamp < TIMESTAMP_LIMIT
  {
    PagesAlign(shortHash, rows, w, i);
    forall j | 0 <= j < |b.context|
      ensures ContextRowOk(b.context[j]) <==> b.context[j].timestamp < TIMESTAMP_LIMIT
      ensures b.context[j].ordinal + (|b.context| - j) == b.row.ordinal
      ensures b.context[j].source < b.row.source
    {
      CapturedContextRow(shortHash, rows, w, i, FirstContext(i) + j);
    }
  }

  /** What `capture` assembles from a valid campaign passes `verify_snapshot` exactly when no
      timestamp it copies is longer than thirty digits, a bound the campaign itself does not have.
      The selected row is the requested one, and its context is as much as the window holds. */
  lemma CapturedIsAccepted(shortHash: string -> string, rows: seq<SavedRow>, w: Window, d: Detector,
                           target: string, id: string, provenance: string, createdAt: string)
    requires ValidRows(rows) && IsIdentifier(id)
    requires Assemble(shortHash, rows, w, d, target, id, provenance, createdAt).Ok?
    ensures var s := Assemble(shortHash, rows, w, d, target, id, provenance, createdAt).value;
      && (SnapshotOk(s, id) <==> ShortTimestamps(s.body))
      && s.body.row.target == target && s.body.row.ordinal >= w.offset
      && |s.body.context| == (if s.body.row.ordinal - w.offset >= CONTEXT_ROWS then CONTEXT_ROWS
                              else s.body.row.ordinal - w.offset)
  {
    var s := Assemble(shortHash, rows, w, d, target, id, provenance, createdAt).value;
    var pt, pl := Page(shortHash, rows, w, Transformer).value, Page(shortHash, rows, w, LightGbm).value;
    var i := IndexOf(if d.Transformer? then pt else pl, target).value;
    PagesAlign(shortHash, rows, w, i);
    assert s.body == BodyAt(pt, pl, d, i, id, provenance, createdAt);
    CapturedHead(shortHash, rows, w, d, i, s.body);
    CapturedContext(shortHash, rows, w, d, i, s.body);
  }

  // ---------------------------------------------------------------- the capture is a copy of the campaign

  /** One detector's score of a saved row: its own column, its own frozen threshold, and their comparison. */
  predicate CopiesScores(rows: seq<SavedRow>, source: nat, p: Pair) {
    && source < |rows|
    && p.transformer.probability == rows[source].probability && p.lightgbm.probability == rows[source].baseline
    && p.transformer.threshold == 0.996423148187864 && p.lightgbm.threshold == 0.5769230769230769
    && (p.transformer.alert <==> rows[source].probability >= 0.996423148187864)
    && (p.lightgbm.alert <==> rows[source].baseline >= 0.5769230769230769)
  }

  predicate CopiesContext(rows: seq<SavedRow>, c: ContextRow) {
    && CopiesScores(rows, c.source, c.paired)
    && c.target == rows[c.source].target && c.timestamp == rows[c.source].timestamp
    && c.symbol == rows[c.source].symbol && c.family == rows[c.source].family
    && c.synthetic == rows[c.source].synthetic
  }

  predicate CopiesSelected(rows: seq<SavedRow>, b: SnapshotBody) {
    && CopiesScores(rows, b.row.source, b.paired)
    && b.row.target == rows[b.row.source].target && b.row.timestamp == rows[b.row.source].timestamp
    && b.row.symbol == rows[b.row.source].symbol && b.row.family == rows[b.row.source].family
    && b.row.synthetic == rows[b.row.source].synthetic
    && b.row.probability == (if b.detector.Transformer? then rows[b.row.source].probability
                             else rows[b.row.source].baseline)
    && b.threshold == (if b.detector.Transformer? then 0.996423148187864 else 0.5769230769230769)
    && b.row.alert && b.row.probability >= b.threshold
  }

  /** `later` is the session's next row after `earlier`. */
  ghost predicate NextInSession(shortHash: string -> string, rows: seq<SavedRow>, session: string, earlier: nat,
                                later: nat) {
    && earlier < later < |rows|
    && shortHash(rows[earlier].runId) == session && shortHash(rows[later].runId) == session
    && (forall i :: earlier < i < later ==> shortHash(rows[i].runId) != session)
  }

  /** The source of context row `j`, or of the selected row after the last one. */
  function SourceAt(b: SnapshotBody, j: nat): nat
    requires j <= |b.context|
  {
    if j < |b.context| then b.context[j].source else b.row.source
  }

  lemma NotBetween(g: seq<nat>, k: nat, a: nat)
    requires k + 1 < |g| && a < |g| && forall x, y :: 0 <= x < y < |g| ==> g[x] < g[y]
    ensures !(g[k] < g[a] < g[k + 1])
  {
    if a <= k { assert g[a] <= g[k]; } else { assert g[k + 1] <= g[a]; }
  }

  lemma ConsecutiveInGroup(shortHash: string -> string, rows: seq<SavedRow>, session: string, k: nat)
    requires k + 1 < |Group(shortHash, rows, session)|
    ensures var g := Group(shortHash, rows, session); NextInSession(shortHash, rows, session, g[k], g[k + 1])
  {
    GroupIsSession(shortHash, rows, session);
    var g := Group(shortHash, rows, session);
    forall i | g[k] < i < g[k + 1] ensures shortHash(rows[i].runId) != session {
      if shortHash(rows[i].runId) == session {
        var a :| 0 <= a < |g| && g[a] == i;
        NotBetween(g, k, a);
      }
    }
  }

  lemma PageIsOfGroup(shortHash: string -> string, rows: seq<SavedRow>, w: Window, d: Detector, i: nat)
    requires Page(shortHash, rows, w, d).Ok? && i < |Page(shortHash, rows, w, d).value|
    ensures var g := Group(shortHash, rows, w.session);
      && w.offset + i < |g| && g[w.offset + i] < |rows|
      && Page(shortHash, rows, w, d).value[i] == RowAt(rows, d, w.offset + i, g[w.offset + i])
  {
    GroupIsSession(shortHash, rows, w.session);
  }

  lemma ContextCopies(shortHash: string -> string, rows: seq<SavedRow>, w: Window, i: nat)
    requires Page(shortHash, rows, w, Transformer).Ok? && Page(shortHash, rows, w, LightGbm).Ok?
    requires i < |Page(shortHash, rows, w, Transformer).value| && i < |Page(shortHash, rows, w, LightGbm).value|
    ensures var pt, pl := Page(shortHash, rows, w, Transformer).value, Page(shortHash, rows, w, LightGbm).value;
      var g := Group(shortHash, rows, w.session);
      && CopiesContext(rows, ContextAt(pt, pl, i)) && CopiesScores(rows, pt[i].source, PairAt(pt, pl, i))
      && w.offset + i < |g| && pt[i].source == pl[i].source == g[w.offset + i]
      && pt[i].ordinal == pl[i].ordinal == w.offset + i
  {
    PageIsOfGroup(shortHash, rows, w, Transformer, i);
    PageIsOfGroup(shortHash, rows, w, LightGbm, i);
  }

  predicate PagesOk(shortHash: string -> string, rows: seq<SavedRow>, w: Window, i: nat) {
    && Page(shortHash, rows, w, Transformer).Ok? && Page(shortHash, rows, w, LightGbm).Ok?
    && i < |Page(shortHash, rows, w, Transformer).value| && i < |Page(shortHash, rows, w, LightGbm).value|
  }

  /** The body assembled from page row `i`. */
  function BodyOf(shortHash: string -> string, rows: seq<SavedRow>, w: Window, d: Detector, i: nat, id: string,
                  provenance: string, createdAt: string): SnapshotBody
    requires PagesOk(shortHash, rows, w, i)
  {
    BodyAt(Page(shortHash, rows, w, Transformer).value, Page(shortHash, rows, w, LightGbm).value, d, i, id, provenance,
           createdAt)
  }

  lemma Assembled(shortHash: string -> string, rows: seq<SavedRow>, w: Window, d: Detector, target: string,
                  id: string, provenance: string, createdAt: string) returns (i: nat)
    requires Assemble(shortHash, rows, w, d, target, id, provenance, createdAt).Ok?
    ensures PagesOk(shortHash, rows, w, i)
    ensures var b := Assemble(shortHash, rows, w, d, target, id, provenance, createdAt).value.body;
      && b == BodyOf(shortHash, rows, w, d, i, id, provenance, createdAt)
      && b.row.target == target && b.row.alert
  {
    var pt, pl := Page(shortHash, rows, w, Transformer).value, Page(shortHash, rows, w, LightGbm).value;
    i := IndexOf(if d.Transformer? then pt else pl, target).value;
    PagesAlign(shortHash, rows, w, i);
  }

  lemma SelectedCopies(shortHash: string -> string, rows: seq<SavedRow>, w: Window, d: Detector, i: nat, id: string,
                       provenance: string, createdAt: string)
    requires PagesOk(shortHash, rows, w, i) && BodyOf(shortHash, rows, w, d, i, id, provenance, createdAt).row.alert
    ensures var b := BodyOf(shortHash, rows, w, d, i, id, provenance, createdAt);
      && CopiesSelected(rows, b) && shortHash(rows[b.row.source].runId) == w.session
      && b.row.source == Page(shortHash, rows, w, Transformer).value[i].source
  {
    ContextCopies(shortHash, rows, w, i);
    PageIsOfGroup(shortHash, rows, w, d, i);
    GroupIsSession(shortHash, rows, w.session);
  }

  lemma ContextOfBody(shortHash: string -> string, rows: seq<SavedRow>, w: Window, d: Detector, i: nat, j: nat,
                      id: string, provenance: string, createdAt: string)
    requires PagesOk(shortHash, rows, w, i) && j < |BodyOf(shortHash, rows, w, d, i, id, provenance, createdAt).context|
    ensures var b := BodyOf(shortHash, rows, w, d, i, id, provenance, createdAt);
      && CopiesContext(rows, b.context[j])
      && NextInSession(shortHash, rows, w.session, SourceAt(b, j), SourceAt(b, j + 1))
  {
    hide CopiesContext, CopiesScores, NextInSession, Page, Group;
    var k := FirstContext(i) + j;
    ContextCopies(shortHash, rows, w, k);
    ContextCopies(shortHash, rows, w, k + 1);
    ConsecutiveInGroup(shortHash, rows, w.session, w.offset + k);
  }

  /** What a capture holds, in terms of the saved rows alone: the selected row and every context row carry the fields of
      the campaign row they name as their source, both detectors' scores of that very row, and the comparisons of those
      scores with the frozen thresholds; and the context is the run of the session's rows that ends just before the
      selected one. */
  lemma CaptureCopiesTheCampaign(shortHash: string -> string, rows: seq<SavedRow>, w: Window, d: Detector,
                                 target: string, id: string, provenance: string, createdAt: string)
    requires Assemble(shortHash, rows, w, d, target, id, provenance, createdAt).Ok?
    ensures var b := Assemble(shortHash, rows, w, d, target, id, provenance, createdAt).value.body;
      && b.id == id && b.detector == d && b.provenance == provenance && b.createdAt == createdAt
      && b.row.target == target && CopiesSelected(rows, b)
      && (forall j :: 0 <= j < |b.context| ==> CopiesContext(rows, b.context[j]))
      && (forall j :: 0 <= j < |b.context| ==>
            NextInSession(shortHash, rows, w.session, SourceAt(b, j), SourceAt(b, j + 1)))
      && shortHash(rows[b.row.source].runId) == w.session
  {
    var b := Assemble(shortHash, rows, w, d, target, id, provenance, createdAt).value.body;
    var i := Assembled(shortHash, rows, w, d, target, id, provenance, createdAt);
    SelectedCopies(shortHash, rows, w, d, i, id, provenance, createdAt);
    hide Assemble, Page, Group, CopiesContext, NextInSession, SourceAt;
    forall j | 0 <= j < |b.context|
      ensures CopiesContext(rows, b.context[j])
      ensures NextInSession(shortHash, rows, w.session, SourceAt(b, j), SourceAt(b, j + 1))
    {
      ContextOfBody(shortHash, rows, w, d, i, j, id, provenance, createdAt);
    }
  }

  /** A row of the window that the detector alerts on and that carries the target. */
  ghost predicate Selectable(shortHash: string -> string, rows: seq<SavedRow>, w: Window, d: Detector, target: string,
                             k: nat) {
    var g := Group(shortHash, rows, w.session);
    && w.offset <= k < w.offset + w.limit && k < |g| && g[k] < |rows| && rows[g[k]].target == target
    && (if d.Transformer? then rows[g[k]].probability >= 0.996423148187864
        else rows[g[k]].baseline >= 0.5769230769230769)
  }

  lemma SelectableIff(shortHash: string -> string, rows: seq<SavedRow>, w: Window, d: Detector, target: string, i: nat)
    requires Page(shortHash, rows, w, d).Ok? && i < |Page(shortHash, rows, w, d).value|
    ensures var row := Page(shortHash, rows, w, d).value[i];
      Selectable(shortHash, rows, w, d, target, w.offset + i) <==> row.target == target && row.alert
  {
    PageIsOfGroup(shortHash, rows, w, d, i);
  }

  lemma PageTargetsDiffer(shortHash: string -> string, rows: seq<SavedRow>, w: Window, d: Detector, i: nat, j: nat)
    requires ValidRows(rows) && Page(shortHash, rows, w, d).Ok?
    requires i < |Page(shortHash, rows, w, d).value| && j < |Page(shortHash, rows, w, d).value|
    requires Page(shortHash, rows, w, d).value[i].target == Page(shortHash, rows, w, d).value[j].target
    ensures i == j
  {
    PageIsOfGroup(shortHash, rows, w, d, i);
    PageIsOfGroup(shortHash, rows, w, d, j);
    GroupIsSession(shortHash, rows, w.session);
    var g := Group(shortHash, rows, w.session);
    SameTargetSameRow(rows, g[w.offset + i], g[w.offset + j]);
  }

  /** Exactly when a capture succeeds: the window can be paged, and one of its rows carries the target and is an alert
      of the selected detector. */
  lemma CaptureSucceedsIff(shortHash: string -> string, rows: seq<SavedRow>, w: Window, d: Detector,
                           target: string, id: string, provenance: string, createdAt: string)
    requires ValidRows(rows)
    ensures Assemble(shortHash, rows, w, d, target, id, provenance, createdAt).Ok? <==>
      Page(shortHash, rows, w, d).Ok? && exists k: nat :: Selectable(shortHash, rows, w, d, target, k)
  {
    if Page(shortHash, rows, w, d).Ok? {
      var page := Page(shortHash, rows, w, d).value;
      var at := IndexOf(page, target);
      if at.Some? { SelectableIff(shortHash, rows, w, d, target, at.value); }
      if k: nat :| Selectable(shortHash, rows, w, d, target, k) {
        SelectableIff(shortHash, rows, w, d, target, k - w.offset);
        PageTargetsDiffer(shortHash, rows, w, d, at.value, k - w.offset);
      }
    }
  }

  /** A valid campaign whose only alert cannot be captured: its timestamp has thirty-one digits. */
  lemma LongTimestampIsRefused(shortHash: string -> string, id: string)
    requires IsIdentifier(id)
    ensures var row := SavedRow(seq(64, _ => 'a'), "run", TIMESTAMP_LIMIT, 1, 1.0, 1.0, AAPL, Control);
      var w := Window(shortHash("run"), 0, 1);
      && ValidRows([row]) && PlacedAround(shortHash, [row], w, 0, 0)
      && Assemble(shortHash, [row], w, Transformer, row.target, id, "", "").Ok?
      && !SnapshotOk(Assemble(shortHash, [row], w, Transformer, row.target, id, "", "").value, id)
  {
    var row := SavedRow(seq(64, _ => 'a'), "run", TIMESTAMP_LIMIT, 1, 1.0, 1.0, AAPL, Control);
    var w := Window(shortHash("run"), 0, 1);
    assert [row][..0] == [];
    assert Group(shortHash, [row], w.session) == [0];
    var page := Page(shortHash, [row], w, Transformer).value;
    assert page == [RowAt([row], Transformer, 0, 0)];
    assert page[..0] == [];
    assert IndexOf(page, row.target) == Some(0);
    CapturedIsAccepted(shortHash, [row], w, Transformer, row.target, id, "", "");
  }

  // ---------------------------------------------------------------- explanations and records

  /** `verify_explanation`, where `factual` is the deterministic text of a snapshot. */
  predicate ExplanationOk(factual: Snapshot -> string, e: Explanation, s: Snapshot) {
    && e.sha == OfExplanation(e.body) && e.body.inputSha == s.sha && e.body.input == s
    && e.body.text == factual(s) && |e.body.text| <= MAX_TEXT
  }

  /** `CEOJourney.record`, once the artifact has been read. */
  predicate RecordOk(factual: Snapshot -> string, r: Record, id: string) {
    && r.sha == OfRecord(r.body) && r.body.id == id
    && SnapshotOk(r.body.snapshot, id) && ExplanationOk(factual, r.body.explanation, r.body.snapshot)
  }

  function Explain(factual: Snapshot -> string, s: Snapshot, createdAt: string): Explanation {
    var body := ExplanationBody(s.sha, s, factual(s), createdAt);
    Explanation(body, OfExplanation(body))
  }

  function Bundle(id: string, s: Snapshot, e: Explanation, savedAt: string): Record {
    var body := RecordBody(id, s, e, savedAt);
    Record(body, OfRecord(body))
  }
}
