/**
 What each call of the journey answers when it runs alone, from the stored artifacts and nothing else: `capture`,
 `explain`, `save` and `record` on any sound store, whatever is missing or does not fit.
 */
module JourneyAnswers {
  import opened Registers
  import opened Evidence
  import opened Journey
  import opened JourneyPromises

  /** A call alone, undisturbed: its store calls one after the other, all at time `clock`. */
  function Alone(factual: Snapshot -> string, t: Table<Artifact>, p: Proc, clock: string, calls: nat)
      : (Table<Artifact>, Phase)
    decreases calls
  {
    if calls == 0 || Terminal(p.phase) then (t, p.phase)
    else
      var (next, ph) := Next(factual, t, p, clock);
      Alone(factual, next, p.(phase := ph), clock, calls - 1)
  }

  /** A call that has just been made, and enough store calls for it to end. */
  function Answer(factual: Snapshot -> string, t: Table<Artifact>, subject: string, id: string, call: Call,
                  clock: string): (Table<Artifact>, Phase)
  {
    Alone(factual, t, Proc(subject, id, call, FirstPhase(call)), clock, 6)
  }

  /** What is stored is sound by itself. */
  predicate Sound(factual: Snapshot -> string, t: Table<Artifact>) {
    forall k :: k in t.values ==> SelfOk(factual, k, t.values[k])
  }

  lemma AloneStep(factual: Snapshot -> string, t: Table<Artifact>, p: Proc, clock: string, calls: nat)
    requires calls > 0 && !Terminal(p.phase)
    ensures Alone(factual, t, p, clock, calls)
         == Alone(factual, Next(factual, t, p, clock).0, p.(phase := Next(factual, t, p, clock).1), clock, calls - 1)
  {
  }

  lemma AloneEnds(factual: Snapshot -> string, t: Table<Artifact>, p: Proc, clock: string, calls: nat)
    requires Terminal(p.phase)
    ensures Alone(factual, t, p, clock, calls) == (t, p.phase)
  {
  }

  /** The table once `a` has been written under `k` and its directory synced. */
  function Written(t: Table<Artifact>, k: Key, a: Artifact): Table<Artifact> { Synced(Step(t, Fill(k, a)), k.subject) }

  /** `capture` stores its snapshot and gives it, unless another one is stored under its identifier: then it refuses
      and stores nothing. */
  lemma CaptureAnswers(factual: Snapshot -> string, t: Table<Artifact>, subject: string, id: string, built: Snapshot,
                       clock: string)
    requires SnapshotOk(built, id)
    ensures var k := Key(subject, id, SnapshotKind);
      var (after, ph) := Answer(factual, t, subject, id, Capture(built), clock);
      if k !in t.values then ph == Gave(ASnapshot(built)) && after == Written(t, k, ASnapshot(built))
      else after == Synced(t, subject) && ph == if t.values[k] == ASnapshot(built) then Gave(t.values[k]) else Refused
  {
    var p := Proc(subject, id, Capture(built), CaptureWrite(built));
    AloneStep(factual, t, p, clock, 6);
    var (next, ph) := Next(factual, t, p, clock);
    var q := p.(phase := ph);
    AloneStep(factual, next, q, clock, 5);
    var (last, end) := Next(factual, next, q, clock);
    AloneEnds(factual, last, q.(phase := end), clock, 4);
  }

  /** Reading the snapshot, the first step of `explain` and `save`. */
  lemma SnapshotRead(factual: Snapshot -> string, t: Table<Artifact>, p: Proc, clock: string)
    requires Sound(factual, t) && p.phase.ReadSnapshot?
    ensures var k := KeyOf(p, SnapshotKind);
      && Next(factual, t, p, clock).0 == t
      && (k !in t.values ==> Next(factual, t, p, clock).1 == Missing)
      && (k in t.values ==> t.values[k].ASnapshot? && SnapshotOk(t.values[k].snapshot, p.id)
                            && Next(factual, t, p, clock).1 == ReadExplanation(t.values[k].snapshot))
  {
    var k := KeyOf(p, SnapshotKind);
    assert k in t.values ==> SelfOk(factual, k, t.values[k]);
  }

  lemma StoredExplanationOk(factual: Snapshot -> string, t: Table<Artifact>, k: Key, snapshot: Snapshot)
    requires Sound(factual, t) && TextFits(factual) && k.kind.ExplanationKind? && k in t.values
    requires SnapshotOk(snapshot, k.id)
    ensures t.values[k].AExplanation?
    ensures ExplanationOk(factual, t.values[k].explanation, snapshot)
        <==> t.values[k].explanation.body.input == snapshot
  {
    assert SelfOk(factual, k, t.values[k]);
  }

  lemma FreshExplanationOk(factual: Snapshot -> string, snapshot: Snapshot, id: string, clock: string)
    requires TextFits(factual) && SnapshotOk(snapshot, id)
    ensures ExplanationOk(factual, Explain(factual, snapshot, clock), snapshot)
  {
  }

  /** `explain` from its second store call on. */
  lemma ExplanationAnswers(factual: Snapshot -> string, t: Table<Artifact>, p: Proc, clock: string)
    requires Sound(factual, t) && TextFits(factual) && p.call.ExplainCall? && p.phase.ReadExplanation?
    requires SnapshotOk(p.phase.snapshot, p.id)
    ensures var k := KeyOf(p, ExplanationKind); var (after, ph) := Alone(factual, t, p, clock, 5);
      if k !in t.values then
        var e := AExplanation(Explain(factual, p.phase.snapshot, clock)); ph == Gave(e) && after == Written(t, k, e)
      else
        && after == t && t.values[k].AExplanation?
        && ph == if t.values[k].explanation.body.input == p.phase.snapshot then Gave(t.values[k]) else Refused
  {
    var k, snapshot := KeyOf(p, ExplanationKind), p.phase.snapshot;
    FreshExplanationOk(factual, snapshot, p.id, clock);
    if k in t.values { StoredExplanationOk(factual, t, k, snapshot); }
    hide SnapshotOk, ExplanationOk, Explain, TextFits, Sound;
    AloneStep(factual, t, p, clock, 5);
    var q := p.(phase := Next(factual, t, p, clock).1);
    if k in t.values {
      AloneEnds(factual, t, q, clock, 4);
    } else {
      AloneStep(factual, t, q, clock, 4);
      var (filled, wrote) := Next(factual, t, q, clock);
      var r := q.(phase := wrote);
      AloneStep(factual, filled, r, clock, 3);
      var (last, end) := Next(factual, filled, r, clock);
      AloneEnds(factual, last, r.(phase := end), clock, 2);
    }
  }

  /** `explain` finds nothing exactly when no snapshot is stored. Otherwise it gives the stored explanation if it is one
      of the stored snapshot, and refuses any other; and if there is none, it stores a fresh one and gives it. */
  lemma ExplainAnswers(factual: Snapshot -> string, t: Table<Artifact>, subject: string, id: string, clock: string)
    requires Sound(factual, t) && TextFits(factual)
    ensures var s, e := Key(subject, id, SnapshotKind), Key(subject, id, ExplanationKind);
      var (after, ph) := Answer(factual, t, subject, id, ExplainCall, clock);
      if s !in t.values then after == t && ph == Missing
      else
        && t.values[s].ASnapshot?
        && if e !in t.values then
             var made := AExplanation(Explain(factual, t.values[s].snapshot, clock));
             after == Written(t, e, made) && ph == Gave(made)
           else
             && after == t && t.values[e].AExplanation?
             && ph == if t.values[e].explanation.body.input == t.values[s].snapshot then Gave(t.values[e]) else Refused
  {
    var p := Proc(subject, id, ExplainCall, ReadSnapshot);
    SnapshotRead(factual, t, p, clock);
    hide SnapshotOk, Sound, TextFits, Next;
    AloneStep(factual, t, p, clock, 6);
    var q := p.(phase := Next(factual, t, p, clock).1);
    if KeyOf(p, SnapshotKind) in t.values {
      ExplanationAnswers(factual, t, q, clock);
    } else {
      AloneEnds(factual, t, q, clock, 5);
    }
  }

  /** The record of a journey embeds the two artifacts. */
  predicate Embeds(r: Record, snapshot: Snapshot, explanation: Explanation) {
    r.body.snapshot == snapshot && r.body.explanation == explanation
  }

  lemma FreshRecordOk(factual: Snapshot -> string, snapshot: Snapshot, explanation: Explanation, id: string,
                      clock: string)
    requires SnapshotOk(snapshot, id) && ExplanationOk(factual, explanation, snapshot)
    ensures RecordOk(factual, Bundle(id, snapshot, explanation, clock), id)
    ensures Embeds(Bundle(id, snapshot, explanation, clock), snapshot, explanation)
  {
  }

  /** `save` from its third store call on. */
  lemma RecordAnswers(factual: Snapshot -> string, t: Table<Artifact>, p: Proc, clock: string)
    requires Sound(factual, t) && p.call.SaveCall? && p.phase.ReadRecord?
    requires SnapshotOk(p.phase.snapshot, p.id) && ExplanationOk(factual, p.phase.explanation, p.phase.snapshot)
    ensures var k := KeyOf(p, SavedKind); var (after, ph) := Alone(factual, t, p, clock, 4);
      if k !in t.values then
        var r := ARecord(Bundle(p.id, p.phase.snapshot, p.phase.explanation, clock));
        ph == Gave(r) && after == Written(t, k, r)
      else
        && after == t && t.values[k].ARecord?
        && ph ==
           if Embeds(t.values[k].record, p.phase.snapshot, p.phase.explanation) then Gave(t.values[k]) else Refused
  {
    var k, snapshot, explanation := KeyOf(p, SavedKind), p.phase.snapshot, p.phase.explanation;
    FreshRecordOk(factual, snapshot, explanation, p.id, clock);
    assert k in t.values ==> SelfOk(factual, k, t.values[k]);
    hide SnapshotOk, ExplanationOk, RecordOk, Bundle, Sound;
    AloneStep(factual, t, p, clock, 4);
    var q := p.(phase := Next(factual, t, p, clock).1);
    if k in t.values {
      AloneEnds(factual, t, q, clock, 3);
    } else {
      AloneStep(factual, t, q, clock, 3);
      var (filled, wrote) := Next(factual, t, q, clock);
      var r := q.(phase := wrote);
      AloneStep(factual, filled, r, clock, 2);
      var (last, end) := Next(factual, filled, r, clock);
      AloneEnds(factual, last, r.(phase := end), clock, 1);
    }
  }

  /** `save` finds nothing exactly when the snapshot or the explanation is not stored. Otherwise it refuses an
      explanation of another snapshot and a record of other parts, gives the stored record if it embeds both, and
      stores and gives a fresh one if there is none. */
  lemma SaveAnswers(factual: Snapshot -> string, t: Table<Artifact>, subject: string, id: string, clock: string)
    requires Sound(factual, t) && TextFits(factual)
    ensures var s, e := Key(subject, id, SnapshotKind), Key(subject, id, ExplanationKind);
      var k := Key(subject, id, SavedKind);
      var (after, ph) := Answer(factual, t, subject, id, SaveCall, clock);
      if s !in t.values || e !in t.values then after == t && ph == Missing
      else
        && t.values[s].ASnapshot? && t.values[e].AExplanation?
        && var snapshot, explanation := t.values[s].snapshot, t.values[e].explanation;
        && if explanation.body.input != snapshot then after == t && ph == Refused
           else if k !in t.values then
             var made := ARecord(Bundle(id, snapshot, explanation, clock));
             after == Written(t, k, made) && ph == Gave(made)
           else
             && after == t && t.values[k].ARecord?
             && ph == if Embeds(t.values[k].record, snapshot, explanation) then Gave(t.values[k]) else Refused
  {
    var p := Proc(subject, id, SaveCall, ReadSnapshot);
    SnapshotRead(factual, t, p, clock);
    AloneStep(factual, t, p, clock, 6);
    var q := p.(phase := Next(factual, t, p, clock).1);
    if KeyOf(p, SnapshotKind) !in t.values {
      AloneEnds(factual, t, q, clock, 5);
    } else {
      ExplanationForSave(factual, t, q, clock);
      hide SnapshotOk, ExplanationOk, Sound, TextFits, Next;
      AloneStep(factual, t, q, clock, 5);
      var r := q.(phase := Next(factual, t, q, clock).1);
      if r.phase.ReadRecord? { RecordAnswers(factual, t, r, clock); } else { AloneEnds(factual, t, r, clock, 4); }
    }
  }

  lemma ExplanationForSave(factual: Snapshot -> string, t: Table<Artifact>, p: Proc, clock: string)
    requires Sound(factual, t) && TextFits(factual) && p.call.SaveCall? && p.phase.ReadExplanation?
    requires SnapshotOk(p.phase.snapshot, p.id)
    ensures var k := KeyOf(p, ExplanationKind); var (after, ph) := Next(factual, t, p, clock);
      && after == t && (k !in t.values ==> ph == Missing)
      && (k in t.values ==>
            && t.values[k].AExplanation?
            && if t.values[k].explanation.body.input == p.phase.snapshot
               then ph == ReadRecord(p.phase.snapshot, t.values[k].explanation)
                    && ExplanationOk(factual, t.values[k].explanation, p.phase.snapshot)
               else ph == Refused)
  {
    var k := KeyOf(p, ExplanationKind);
    if k in t.values { StoredExplanationOk(factual, t, k, p.phase.snapshot); }
    hide SnapshotOk, ExplanationOk, Sound, TextFits;
  }

  /** `record` gives the stored record, whatever else is stored, and finds nothing exactly when there is none. */
  lemma RecordCallAnswers(factual: Snapshot -> string, t: Table<Artifact>, subject: string, id: string, clock: string)
    requires Sound(factual, t)
    ensures var k := Key(subject, id, SavedKind);
      Answer(factual, t, subject, id, RecordCall, clock) == (t, if k in t.values then Gave(t.values[k]) else Missing)
  {
    var k := Key(subject, id, SavedKind);
    assert k in t.values ==> SelfOk(factual, k, t.values[k]);
    var p := Proc(subject, id, RecordCall, ReadOnlyRecord);
    AloneStep(factual, t, p, clock, 6);
    AloneEnds(factual, t, p.(phase := Next(factual, t, p, clock).1), clock, 5);
  }

  /** Every reachable store is sound, so these are the answers in every run, after any losses. */
  lemma ReachableIsSound(factual: Snapshot -> string, trace: seq<Event>)
    requires After(factual, trace).Some?
    ensures Sound(factual, After(factual, trace).value.store)
  {
    ReachableInv(factual, trace);
  }
}
