/**
 What the verifiers of backend/app/ceo_journey_evidence.py accept, field by field, and when a window can be paged: with
 the constants written out, and with no use of the verifiers' own predicates.
 */
module EvidenceChecks {
  import opened Evidence

  // ---------------------------------------------------------------- snapshots

  const HEX: string := "0123456789abcdef"

  predicate HexDigits(s: string, n: nat) { |s| == n && forall i :: 0 <= i < |s| ==> s[i] in HEX }

  lemma HexIff(s: string)
    ensures IsHex(s) <==> forall i :: 0 <= i < |s| ==> s[i] in HEX
  {
    forall c: char ensures ('0' <= c <= '9' || 'a' <= c <= 'f') <==> c in HEX { HexDigitIff(c); }
  }

  lemma HexDigitIff(c: char)
    ensures ('0' <= c <= '9' || 'a' <= c <= 'f') <==> c in HEX
  {
    if '0' <= c <= '9' {
      assert HEX[c as int - '0' as int] == c;
    } else if 'a' <= c <= 'f' {
      assert HEX[10 + (c as int - 'a' as int)] == c;
    }
  }

  /** One detector's score, its frozen threshold, and the alert that follows from the two. */
  predicate ScoreSays(s: Scored, threshold: real) {
    0.0 <= s.probability <= 1.0 && s.threshold == threshold && (s.alert <==> s.probability >= threshold)
  }

  predicate PairSays(p: Pair) {
    ScoreSays(p.transformer, 0.996423148187864) && ScoreSays(p.lightgbm, 0.5769230769230769)
  }

  predicate RowSays(target: string, timestamp: nat, synthetic: nat) {
    && HexDigits(target, 64) && timestamp < 1_000_000_000_000_000_000_000_000_000_000
    && (synthetic == 0 || synthetic == 1)
  }

  /** The selected row is an alert of the selected detector, by the pair's own numbers. */
  predicate SelectionSays(b: SnapshotBody) {
    var own := if b.detector.Transformer? then b.paired.transformer else b.paired.lightgbm;
    && RowSays(b.row.target, b.row.timestamp, b.row.synthetic) && PairSays(b.paired)
    && b.row.probability == own.probability && b.threshold == own.threshold && b.row.alert && own.alert
  }

  /** The context is a run of consecutive rows that ends just before the selected one, at most sixteen, none of them
      from the selected row's place in the campaign or a later one. */
  predicate ContextSays(b: SnapshotBody) {
    && |b.context| <= 16
    && (b.context != [] ==> b.context[|b.context| - 1].ordinal == b.row.ordinal - 1)
    && (forall j :: 0 < j < |b.context| ==> b.context[j].ordinal == b.context[j - 1].ordinal + 1)
    && (forall j :: 0 <= j < |b.context| ==>
          && RowSays(b.context[j].target, b.context[j].timestamp, b.context[j].synthetic)
          && PairSays(b.context[j].paired) && b.context[j].source < b.row.source)
  }

  lemma {:induction false} OrdinalsCount(b: SnapshotBody, j: nat)
    requires ContextSays(b) && j < |b.context|
    ensures b.context[j].ordinal + (|b.context| - j) == b.row.ordinal
    decreases |b.context| - j
  {
    if j + 1 < |b.context| { OrdinalsCount(b, j + 1); }
  }

  /** Exactly which snapshots `verify_snapshot` accepts under an identifier. */
  lemma AcceptedSnapshotIff(s: Snapshot, id: string)
    ensures SnapshotOk(s, id) <==>
      && s.sha == OfSnapshot(s.body) && HexDigits(id, 32) && s.body.id == id
      && SelectionSays(s.body) && ContextSays(s.body)
  {
    HexIff(id);
    HexIff(s.body.row.target);
    HeadIff(s.body, id);
    hide HexDigits, HeadOk, SelectionSays;
    if |s.body.context| <= 16 { ContextIff(s.body); }
  }

  lemma HeadIff(b: SnapshotBody, id: string)
    ensures HeadOk(b, id) <==>
      HexDigits(id, 32) && b.id == id && SelectionSays(b) && |b.context| <= 16
  {
    HexIff(id);
    HexIff(b.row.target);
  }

  lemma ContextIff(b: SnapshotBody)
    requires |b.context| <= 16
    ensures ContextOk(b) <==> ContextSays(b)
  {
    forall j | 0 <= j < |b.context|
      ensures ContextRowOk(b.context[j]) <==>
        RowSays(b.context[j].target, b.context[j].timestamp, b.context[j].synthetic) && PairSays(b.context[j].paired)
    {
      HexIff(b.context[j].target);
    }
    hide ContextRowOk, RowSays, PairSays;
    if ContextSays(b) {
      forall j | 0 <= j < |b.context| ensures b.context[j].ordinal + (|b.context| - j) == b.row.ordinal {
        OrdinalsCount(b, j);
      }
    }
  }

  // ---------------------------------------------------------------- explanations and records

  /** An explanation is accepted for a snapshot if and only if it is the one `explain` makes at some time, and its text
      has at most 4096 characters. */
  lemma AcceptedExplanationIff(factual: Snapshot -> string, e: Explanation, s: Snapshot)
    ensures ExplanationOk(factual, e, s) <==>
      |factual(s)| <= 4096 && exists clock :: e == Explain(factual, s, clock)
  {
    if ExplanationOk(factual, e, s) { assert e == Explain(factual, s, e.body.createdAt); }
  }

  /** A record is accepted under an identifier if and only if it is the bundle, made at some time, of an accepted
      snapshot of that identifier and an accepted explanation of that snapshot. */
  lemma AcceptedRecordIff(factual: Snapshot -> string, r: Record, id: string)
    ensures RecordOk(factual, r, id) <==>
      exists s, e, clock :: SnapshotOk(s, id) && ExplanationOk(factual, e, s) && r == Bundle(id, s, e, clock)
  {
    if RecordOk(factual, r, id) { assert r == Bundle(id, r.body.snapshot, r.body.explanation, r.body.savedAt); }
  }

  /** The explanation of a snapshot is determined by the time at which it was made. */
  lemma ExplainMeans(factual: Snapshot -> string, s: Snapshot, clock: string)
    ensures var e := Explain(factual, s, clock);
      && e.body.createdAt == clock && e.body.input == s && e.body.inputSha == s.sha && e.body.text == factual(s)
      && e.sha == OfExplanation(e.body)
  {
  }

  // ---------------------------------------------------------------- pages

  /** Runs of different sessions have different hashes. */
  predicate HashesDiffer(shortHash: string -> string, rows: seq<SavedRow>) {
    forall i, j :: 0 <= i < |rows| && 0 <= j < |rows| && rows[i].runId != rows[j].runId ==>
      shortHash(rows[i].runId) != shortHash(rows[j].runId)
  }

  /** A window can be paged exactly when no two runs share a hash, its session has a row, it starts no later than the
      session ends, and its limit is 1 to 100; the page is then the session's rows from the offset on, up to the limit,
      in the order of the campaign. */
  lemma PageIff(shortHash: string -> string, rows: seq<SavedRow>, w: Window, d: Detector, g: seq<nat>)
    requires Lists(shortHash, rows, w.session, g)
    ensures Page(shortHash, rows, w, d).Ok? <==>
      HashesDiffer(shortHash, rows) && g != [] && w.offset <= |g| && 1 <= w.limit <= 100
    ensures Page(shortHash, rows, w, d).Err? && Page(shortHash, rows, w, d).error == Collision <==>
      !HashesDiffer(shortHash, rows)
    ensures Page(shortHash, rows, w, d).Ok? ==> var page := Page(shortHash, rows, w, d).value;
      && |page| == (if w.limit < |g| - w.offset then w.limit else |g| - w.offset)
      && forall i :: 0 <= i < |page| ==> page[i].ordinal == w.offset + i && page[i].source == g[w.offset + i]
  {
    GroupIsSession(shortHash, rows, w.session);
    ListsAgree(shortHash, rows, w.session, g, Group(shortHash, rows, w.session));
    CollidesIff(shortHash, rows);
  }

  lemma CollidesIff(shortHash: string -> string, rows: seq<SavedRow>)
    ensures Collides(shortHash, rows) <==> !HashesDiffer(shortHash, rows)
  {
    if !HashesDiffer(shortHash, rows) {
      var i, j :| 0 <= i < |rows| && 0 <= j < |rows| && rows[i].runId != rows[j].runId
                  && shortHash(rows[i].runId) == shortHash(rows[j].runId);
      var a, b := if i < j then i else j, if i < j then j else i;
      assert 0 <= a < b < |rows| && shortHash(rows[a].runId) == shortHash(rows[b].runId);
    }
  }

  /** There is one increasing list of a session's rows. */
  lemma {:induction false} ListsAgree(shortHash: string -> string, rows: seq<SavedRow>, session: string, g: seq<nat>,
                                      h: seq<nat>)
    requires Lists(shortHash, rows, session, g) && Lists(shortHash, rows, session, h)
    ensures g == h
  {
    assert forall x :: x in g <==> x in h;
    SortedAgree(g, h);
  }

  predicate Increasing(g: seq<nat>) { forall a, b :: 0 <= a < b < |g| ==> g[a] < g[b] }

  lemma HasOne(g: seq<nat>)
    requires g != []
    ensures exists x :: x in g
  {
    assert g[0] in g;
  }

  lemma LastIsGreatest(g: seq<nat>, x: nat)
    requires Increasing(g) && x in g
    ensures x <= g[|g| - 1]
  {
  }

  lemma FrontIs(g: seq<nat>)
    requires Increasing(g) && g != []
    ensures var front, last := g[..|g| - 1], g[|g| - 1];
      Increasing(front) && forall x :: x in front <==> x in g && x != last
  {
    var front, last := g[..|g| - 1], g[|g| - 1];
    forall x ensures x in front <==> x in g && x != last {
      if x in g && x != last {
        var i :| 0 <= i < |g| && g[i] == x;
        assert front[i] == x;
      }
      if x in front {
        var i :| 0 <= i < |front| && front[i] == x;
        assert g[i] == x;
      }
    }
  }

  lemma {:induction false} SortedAgree(g: seq<nat>, h: seq<nat>)
    requires Increasing(g) && Increasing(h) && forall x :: x in g <==> x in h
    ensures g == h
    decreases |g|
  {
    hide Increasing;
    if g != [] { HasOne(g); }
    if h != [] { HasOne(h); }
    if g != [] {
      LastIsGreatest(h, g[|g| - 1]);
      LastIsGreatest(g, h[|h| - 1]);
      FrontIs(g);
      FrontIs(h);
      SortedAgree(g[..|g| - 1], h[..|h| - 1]);
      assert g == g[..|g| - 1] + [g[|g| - 1]] && h == h[..|h| - 1] + [h[|h| - 1]];
    }
  }
}
