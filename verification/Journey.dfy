/**
 The three-stage evidence journey of backend/app/ceo_journey.py, run by any number of callers.

 The store underneath is a table of write-once registers that a loss of power may empty, which is what
 JourneyStoreRuns proves of the files. A `write` is two steps: it publishes its artifact or finds one, and then syncs
 the subject's directory and reads back. Any other store call is one step. A caller may fail or be killed before any
 step, and syncs by callers that are killed afterwards happen at any time.
 */
module Journey {
  import opened Wrappers
  import opened Registers
  import opened Evidence

  type Pid = nat

  datatype Artifact = ASnapshot(snapshot: Snapshot) | AExplanation(explanation: Explanation) | ARecord(record: Record)

  datatype Call = Capture(built: Snapshot) | ExplainCall | SaveCall | RecordCall
  /** Where a call stands between two store calls, and what it remembers. */
  datatype Phase =
    | CaptureWrite(wanted: Snapshot) | CaptureWrote(wanted: Snapshot)
    | ReadSnapshot
    | ReadExplanation(snapshot: Snapshot)
    | WriteExplanation(snapshot: Snapshot, draft: Explanation)
    | WroteExplanation(snapshot: Snapshot)
    | ReadRecord(snapshot: Snapshot, explanation: Explanation)
    | WriteRecord(snapshot: Snapshot, explanation: Explanation, bundle: Record)
    | WroteRecord(snapshot: Snapshot, explanation: Explanation)
    | ReadOnlyRecord
    | Gave(artifact: Artifact)
    | Missing
    | Refused
    | Stopped

  datatype Proc = Proc(subject: string, id: string, call: Call, phase: Phase)
  datatype State = State(store: Table<Artifact>, procs: map<Pid, Proc>)

  const INIT: State := State(Empty<Artifact>(), map[])

  /** `Storage` is what happens to the store besides the callers' own steps: a sync, or a loss of power. */
  datatype Event =
    | Begin(pid: Pid, subject: string, id: string, call: Call)
    | Advance(pid: Pid, clock: string)
    | Abort(pid: Pid)
    | Storage(op: Op<Artifact>)

  predicate Terminal(ph: Phase) { ph.Gave? || ph.Missing? || ph.Refused? || ph.Stopped? }

  function KeyOf(p: Proc, kind: Kind): Key { Key(p.subject, p.id, kind) }

  function Fetch(t: Table<Artifact>, p: Proc, kind: Kind): Option<Artifact> {
    if KeyOf(p, kind) in t.values then Some(t.values[KeyOf(p, kind)]) else None
  }

  /** The write-once register: the first value written stays. */
  function Publish(t: Table<Artifact>, k: Key, a: Artifact): Table<Artifact> {
    if k in t.values then t else Step(t, Fill(k, a))
  }

  function FirstPhase(call: Call): Phase {
    match call
    case Capture(built) => CaptureWrite(built)
    case ExplainCall => ReadSnapshot
    case SaveCall => ReadSnapshot
    case RecordCall => ReadOnlyRecord
  }

  /** What a read of the store moves the caller to. */
  function Read(factual: Snapshot -> string, t: Table<Artifact>, p: Proc, clock: string): Phase {
    match p.phase
    case CaptureWrote(wanted) =>
      if Fetch(t, p, SnapshotKind) == Some(ASnapshot(wanted)) then Gave(ASnapshot(wanted)) else Refused
    case ReadSnapshot => OnSnapshot(Fetch(t, p, SnapshotKind), p.id)
    case ReadExplanation(snapshot) =>
      var found := Fetch(t, p, ExplanationKind);
      if p.call.ExplainCall? then
        if found.None? then WriteExplanation(snapshot, Explain(factual, snapshot, clock))
        else OnExplanation(factual, found, snapshot)
      else ForSave(factual, found, snapshot)
    case WroteExplanation(snapshot) => OnExplanation(factual, Fetch(t, p, ExplanationKind), snapshot)
    case ReadRecord(snapshot, explanation) =>
      var found := Fetch(t, p, SavedKind);
      if found.None? then WriteRecord(snapshot, explanation, Bundle(p.id, snapshot, explanation, clock))
      else Checked(factual, found, p.id, snapshot, explanation)
    case WroteRecord(snapshot, explanation) => Checked(factual, Fetch(t, p, SavedKind), p.id, snapshot, explanation)
    case ReadOnlyRecord =>
      var found := Fetch(t, p, SavedKind);
      if found.None? then Missing
      else if found.value.ARecord? && RecordOk(factual, found.value.record, p.id) then Gave(found.value) else Refused
    case _ => p.phase
  }

  function OnSnapshot(found: Option<Artifact>, id: string): Phase {
    if found.None? then Missing
    else if found.value.ASnapshot? && SnapshotOk(found.value.snapshot, id) then ReadExplanation(found.value.snapshot)
    else Refused
  }

  function OnExplanation(factual: Snapshot -> string, found: Option<Artifact>, snapshot: Snapshot): Phase {
    if found.Some? && found.value.AExplanation? && ExplanationOk(factual, found.value.explanation, snapshot)
    then Gave(found.value) else Refused
  }

  function ForSave(factual: Snapshot -> string, found: Option<Artifact>, snapshot: Snapshot): Phase {
    if found.None? then Missing
    else if found.value.AExplanation? && ExplanationOk(factual, found.value.explanation, snapshot)
    then ReadRecord(snapshot, found.value.explanation) else Refused
  }

  /** `record`, then the comparison with the artifacts read earlier in `save`. */
  function Checked(factual: Snapshot -> string, found: Option<Artifact>, id: string,
                   snapshot: Snapshot, explanation: Explanation): Phase {
    if found.Some? && found.value.ARecord? && RecordOk(factual, found.value.record, id)
       && found.value.record.body.snapshot == snapshot && found.value.record.body.explanation == explanation
    then Gave(found.value) else Refused
  }

  /** The artifact a caller is about to publish. */
  function Draft(p: Proc): Option<(Kind, Artifact)> {
    match p.phase
    case CaptureWrite(wanted) => Some((SnapshotKind, ASnapshot(wanted)))
    case WriteExplanation(_, draft) => Some((ExplanationKind, AExplanation(draft)))
    case WriteRecord(_, _, bundle) => Some((SavedKind, ARecord(bundle)))
    case _ => None
  }

  function AfterDraft(ph: Phase): Phase {
    match ph
    case CaptureWrite(wanted) => CaptureWrote(wanted)
    case WriteExplanation(snapshot, _) => WroteExplanation(snapshot)
    case WriteRecord(snapshot, explanation, _) => WroteRecord(snapshot, explanation)
    case _ => ph
  }

  predicate Wrote(ph: Phase) { ph.CaptureWrote? || ph.WroteExplanation? || ph.WroteRecord? }

  /** The store and the caller after the caller's next store call, at time `clock`. */
  function Next(factual: Snapshot -> string, t: Table<Artifact>, p: Proc, clock: string): (Table<Artifact>, Phase) {
    var draft := Draft(p);
    if draft.Some? then (Publish(t, KeyOf(p, draft.value.0), draft.value.1), AfterDraft(p.phase))
    else (if Wrote(p.phase) then Synced(t, p.subject) else t, Read(factual, t, p, clock))
  }

  predicate Enabled(s: State, e: Event) {
    match e
    // `capture` verifies the snapshot it has built before its only write
    case Begin(p, _, id, call) => p !in s.procs && (call.Capture? ==> SnapshotOk(call.built, id))
    case Advance(p, _) => p in s.procs && !Terminal(s.procs[p].phase)
    case Abort(p) => p in s.procs && !Terminal(s.procs[p].phase)
    case Storage(op) => !op.Fill? && Can(s.store, op)
  }

  /** A loss of power stops every caller. */
  function AllStopped(procs: map<Pid, Proc>): map<Pid, Proc> {
    map p | p in procs :: if Terminal(procs[p].phase) then procs[p] else procs[p].(phase := Stopped)
  }

  function Apply(factual: Snapshot -> string, s: State, e: Event): State
    requires Enabled(s, e)
  {
    match e
    case Begin(p, subject, id, call) => s.(procs := s.procs[p := Proc(subject, id, call, FirstPhase(call))])
    case Advance(p, clock) =>
      var (next, ph) := Next(factual, s.store, s.procs[p], clock);
      State(next, s.procs[p := s.procs[p].(phase := ph)])
    case Abort(p) => s.(procs := s.procs[p := s.procs[p].(phase := Stopped)])
    case Storage(op) => State(Step(s.store, op), if op.Loss? then AllStopped(s.procs) else s.procs)
  }

  function After(factual: Snapshot -> string, trace: seq<Event>): Option<State> {
    if trace == [] then Some(INIT)
    else
      var before := After(factual, trace[..|trace| - 1]);
      if before.Some? && Enabled(before.value, trace[|trace| - 1])
      then Some(Apply(factual, before.value, trace[|trace| - 1]))
      else None
  }

  predicate IsLoss(e: Event) { e.Storage? && e.op.Loss? }

  // ---------------------------------------------------------------- the journey as operations on the registers

  /** What an event does to the registers: the operations that JourneyStoreRuns shows the files to carry out. */
  function OpsOf(s: State, e: Event): seq<Op<Artifact>> {
    if e.Storage? then [e.op]
    else if !e.Advance? || e.pid !in s.procs then []
    else
      var p := s.procs[e.pid];
      var draft := Draft(p);
      if draft.Some? && KeyOf(p, draft.value.0) !in s.store.values then [Fill(KeyOf(p, draft.value.0), draft.value.1)]
      else if draft.None? && Wrote(p.phase) then [SyncHome(p.subject)]
      else []
  }

  /** Each event of the journey is at most one operation on the registers. */
  lemma StepIsRegisterOp(factual: Snapshot -> string, s: State, e: Event)
    requires Enabled(s, e)
    ensures Run(s.store, OpsOf(s, e)) == Some(Apply(factual, s, e).store)
  {
    var ops := OpsOf(s, e);
    if ops != [] { assert ops[..|ops| - 1] == []; }
  }

  // ---------------------------------------------------------------- what every run keeps

  /** The explanation is the factual explanation of the snapshot. */
  predicate Explains(factual: Snapshot -> string, e: Explanation, s: Snapshot) {
    && e.sha == OfExplanation(e.body) && e.body.inputSha == s.sha && e.body.input == s && e.body.text == factual(s)
  }

  predicate Holds(t: Table<Artifact>, subject: string, id: string, kind: Kind, a: Artifact) {
    Key(subject, id, kind) in t.values && t.values[Key(subject, id, kind)] == a
  }

  /** What a stored artifact is by itself. */
  predicate SelfOk(factual: Snapshot -> string, k: Key, a: Artifact) {
    match k.kind
    case SnapshotKind => a.ASnapshot? && SnapshotOk(a.snapshot, k.id)
    case ExplanationKind =>
      && a.AExplanation? && Explains(factual, a.explanation, a.explanation.body.input)
      && SnapshotOk(a.explanation.body.input, k.id)
    case SavedKind => a.ARecord? && RecordOk(factual, a.record, k.id)
  }

  /** It rests on the stored earlier stages of its journey. */
  predicate Rests(t: Table<Artifact>, k: Key, a: Artifact) {
    match k.kind
    case SnapshotKind => true
    case ExplanationKind =>
      a.AExplanation? && Holds(t, k.subject, k.id, SnapshotKind, ASnapshot(a.explanation.body.input))
    case SavedKind =>
      && a.ARecord?
      && Holds(t, k.subject, k.id, SnapshotKind, ASnapshot(a.record.body.snapshot))
      && Holds(t, k.subject, k.id, ExplanationKind, AExplanation(a.record.body.explanation))
  }

  predicate PhaseOk(factual: Snapshot -> string, t: Table<Artifact>, p: Proc) {
    match p.phase
    case CaptureWrite(wanted) => p.call.Capture? && SnapshotOk(wanted, p.id)
    case CaptureWrote(wanted) => p.call.Capture? && KeyOf(p, SnapshotKind) in t.values
    case ReadSnapshot => p.call.ExplainCall? || p.call.SaveCall?
    case ReadExplanation(snap) =>
      (p.call.ExplainCall? || p.call.SaveCall?) && Holds(t, p.subject, p.id, SnapshotKind, ASnapshot(snap))
    case WriteExplanation(snap, draft) =>
      && p.call.ExplainCall? && Holds(t, p.subject, p.id, SnapshotKind, ASnapshot(snap))
      && Explains(factual, draft, snap)
    case WroteExplanation(snap) =>
      && p.call.ExplainCall? && Holds(t, p.subject, p.id, SnapshotKind, ASnapshot(snap))
      && KeyOf(p, ExplanationKind) in t.values
    case ReadRecord(snap, expl) => p.call.SaveCall? && Stages(factual, t, p, snap, expl)
    case WriteRecord(snap, expl, bundle) =>
      && p.call.SaveCall? && Stages(factual, t, p, snap, expl)
      && RecordOk(factual, bundle, p.id) && bundle.body.snapshot == snap && bundle.body.explanation == expl
    case WroteRecord(snap, expl) =>
      p.call.SaveCall? && Stages(factual, t, p, snap, expl) && KeyOf(p, SavedKind) in t.values
    case ReadOnlyRecord => p.call.RecordCall?
    case Gave(_) => true
    case Missing => true
    case Refused => true
    case Stopped => true
  }

  predicate Stages(factual: Snapshot -> string, t: Table<Artifact>, p: Proc, snap: Snapshot, expl: Explanation) {
    && SnapshotOk(snap, p.id) && ExplanationOk(factual, expl, snap)
    && Holds(t, p.subject, p.id, SnapshotKind, ASnapshot(snap))
    && Holds(t, p.subject, p.id, ExplanationKind, AExplanation(expl))
  }

  /** Kept by every event. */
  predicate Inv(factual: Snapshot -> string, s: State) {
    && Valid(s.store)
    && (forall k :: k in s.store.values ==> SelfOk(factual, k, s.store.values[k]))
    && (forall p :: p in s.procs ==> PhaseOk(factual, s.store, s.procs[p]))
  }

  /** Every stored artifact rests on the stored earlier stages. */
  predicate InOrder(s: State) {
    forall k :: k in s.store.values ==> Rests(s.store, k, s.store.values[k])
  }

  predicate Grows(t: Table<Artifact>, after: Table<Artifact>) {
    forall k :: k in t.values ==> k in after.values && after.values[k] == t.values[k]
  }

  /** The artifact a caller publishes is sound, and rests on what is stored. */
  lemma DraftIsSound(factual: Snapshot -> string, s: State, p: Proc)
    requires Inv(factual, s) && PhaseOk(factual, s.store, p) && Draft(p).Some?
    ensures var (kind, a) := Draft(p).value;
      SelfOk(factual, KeyOf(p, kind), a) && Rests(s.store, KeyOf(p, kind), a)
  {
    var k := KeyOf(p, SnapshotKind);
    if k in s.store.values { assert SelfOk(factual, k, s.store.values[k]); }
  }

  lemma AfterDraftIsSound(factual: Snapshot -> string, t: Table<Artifact>, after: Table<Artifact>, p: Proc)
    requires PhaseOk(factual, t, p) && Draft(p).Some? && Grows(t, after) && KeyOf(p, Draft(p).value.0) in after.values
    ensures PhaseOk(factual, after, p.(phase := AfterDraft(p.phase)))
  {
  }

  lemma ReadSnapshotIsSound(factual: Snapshot -> string, t: Table<Artifact>, p: Proc, clock: string)
    requires PhaseOk(factual, t, p) && p.phase.ReadSnapshot?
    ensures PhaseOk(factual, t, p.(phase := Read(factual, t, p, clock)))
  {
  }

  lemma ReadExplanationIsSound(factual: Snapshot -> string, t: Table<Artifact>, p: Proc, clock: string)
    requires PhaseOk(factual, t, p) && p.phase.ReadExplanation? && SnapshotOk(p.phase.snapshot, p.id)
    ensures PhaseOk(factual, t, p.(phase := Read(factual, t, p, clock)))
  {
  }

  lemma ReadRecordIsSound(factual: Snapshot -> string, t: Table<Artifact>, p: Proc, clock: string)
    requires PhaseOk(factual, t, p) && p.phase.ReadRecord?
    ensures PhaseOk(factual, t, p.(phase := Read(factual, t, p, clock)))
  {
  }

  /** The reads that end a call. */
  lemma LastReadIsSound(factual: Snapshot -> string, t: Table<Artifact>, p: Proc, clock: string)
    requires PhaseOk(factual, t, p) && (Wrote(p.phase) || p.phase.ReadOnlyRecord? || Terminal(p.phase))
    ensures PhaseOk(factual, t, p.(phase := Read(factual, t, p, clock)))
    ensures Terminal(Read(factual, t, p, clock))
  {
  }

  lemma ReadIsSound(factual: Snapshot -> string, s: State, p: Proc, clock: string)
    requires Inv(factual, s) && PhaseOk(factual, s.store, p) && Draft(p).None?
    ensures PhaseOk(factual, s.store, p.(phase := Read(factual, s.store, p, clock)))
  {
    if p.phase.ReadSnapshot? {
      ReadSnapshotIsSound(factual, s.store, p, clock);
    } else if p.phase.ReadExplanation? {
      var k := KeyOf(p, SnapshotKind);
      assert SelfOk(factual, k, s.store.values[k]);
      ReadExplanationIsSound(factual, s.store, p, clock);
    } else if p.phase.ReadRecord? {
      ReadRecordIsSound(factual, s.store, p, clock);
    } else {
      LastReadIsSound(factual, s.store, p, clock);
    }
  }

  /** A store that only grows disturbs no caller and no stored artifact. */
  lemma GrowthIsHarmless(factual: Snapshot -> string, t: Table<Artifact>, after: Table<Artifact>, p: Proc)
    requires PhaseOk(factual, t, p) && Grows(t, after)
    ensures PhaseOk(factual, after, p)
  {
  }

  lemma GrowthKeepsRests(t: Table<Artifact>, after: Table<Artifact>, k: Key, a: Artifact)
    requires Rests(t, k, a) && Grows(t, after)
    ensures Rests(after, k, a)
  {
  }

  /** One store call of a caller: the store grows by its own draft or not at all, and the caller is sound. */
  lemma NextIsSound(factual: Snapshot -> string, s: State, p: Proc, clock: string)
    requires Inv(factual, s) && PhaseOk(factual, s.store, p)
    ensures var (next, ph) := Next(factual, s.store, p, clock);
      && Grows(s.store, next) && Valid(next)
      && (forall k :: k in next.values && k !in s.store.values ==>
            SelfOk(factual, k, next.values[k]) && Rests(s.store, k, next.values[k]))
      && PhaseOk(factual, next, p.(phase := ph))
  {
    hide SelfOk, PhaseOk, Rests;
    var (next, ph) := Next(factual, s.store, p, clock);
    if Draft(p).Some? {
      DraftIsSound(factual, s, p);
      AfterDraftIsSound(factual, s.store, next, p);
    } else {
      ReadIsSound(factual, s, p, clock);
      GrowthIsHarmless(factual, s.store, next, p.(phase := ph));
    }
  }

  lemma AdvanceKeeps(factual: Snapshot -> string, s: State, p: Pid, clock: string)
    requires Inv(factual, s) && Enabled(s, Advance(p, clock))
    ensures Inv(factual, Apply(factual, s, Advance(p, clock)))
    ensures InOrder(s) ==> InOrder(Apply(factual, s, Advance(p, clock)))
  {
    hide SelfOk, PhaseOk, Rests, Next;
    NextIsSound(factual, s, s.procs[p], clock);
    var after := Apply(factual, s, Advance(p, clock));
    forall q | q in after.procs ensures PhaseOk(factual, after.store, after.procs[q]) {
      if q != p { GrowthIsHarmless(factual, s.store, after.store, s.procs[q]); }
    }
    if InOrder(s) {
      forall k | k in after.store.values ensures Rests(after.store, k, after.store.values[k]) {
        GrowthKeepsRests(s.store, after.store, k, after.store.values[k]);
      }
    }
  }

  lemma SyncKeeps(factual: Snapshot -> string, s: State, op: Op<Artifact>)
    requires Inv(factual, s) && Enabled(s, Storage(op)) && !op.Loss?
    ensures var after := Apply(factual, s, Storage(op));
      Inv(factual, after) && after.store.values == s.store.values && after.procs == s.procs
    ensures InOrder(s) ==> InOrder(Apply(factual, s, Storage(op)))
  {
    hide SelfOk, PhaseOk, Rests;
    var after := Apply(factual, s, Storage(op));
    forall q | q in after.procs ensures PhaseOk(factual, after.store, after.procs[q]) {
      GrowthIsHarmless(factual, s.store, after.store, s.procs[q]);
    }
    if InOrder(s) {
      forall k | k in after.store.values ensures Rests(after.store, k, after.store.values[k]) {
        GrowthKeepsRests(s.store, after.store, k, after.store.values[k]);
      }
    }
  }

  lemma BeginKeeps(factual: Snapshot -> string, s: State, e: Event)
    requires Inv(factual, s) && Enabled(s, e) && (e.Begin? || e.Abort?)
    ensures Inv(factual, Apply(factual, s, e)) && Apply(factual, s, e).store == s.store
  {
    hide SelfOk, Holds, Stages, SnapshotOk;
  }

  lemma LossKeeps(factual: Snapshot -> string, s: State, e: Event)
    requires Inv(factual, s) && Enabled(s, e) && IsLoss(e)
    ensures Inv(factual, Apply(factual, s, e))
  {
    hide SelfOk, Holds, Stages, SnapshotOk;
  }

  lemma StepKeepsInv(factual: Snapshot -> string, s: State, e: Event)
    requires Inv(factual, s) && Enabled(s, e)
    ensures Inv(factual, Apply(factual, s, e))
    ensures InOrder(s) && !IsLoss(e) ==> InOrder(Apply(factual, s, e))
  {
    hide Inv, InOrder, Apply;
    match e
    case Begin(_, _, _, _) => StartKeeps(factual, s, e);
    case Abort(_) => StartKeeps(factual, s, e);
    case Advance(p, clock) => AdvanceKeeps(factual, s, p, clock);
    case Storage(op) => if op.Loss? { LossKeeps(factual, s, e); } else { SyncKeeps(factual, s, op); }
  }

  lemma StartKeeps(factual: Snapshot -> string, s: State, e: Event)
    requires Inv(factual, s) && Enabled(s, e) && (e.Begin? || e.Abort?)
    ensures Inv(factual, Apply(factual, s, e))
    ensures InOrder(s) ==> InOrder(Apply(factual, s, e))
  {
    hide Rests;
    BeginKeeps(factual, s, e);
  }

  lemma {:induction false} ReachableInv(factual: Snapshot -> string, trace: seq<Event>)
    requires After(factual, trace).Some?
    ensures Inv(factual, After(factual, trace).value)
  {
    if trace != [] {
      ReachableInv(factual, trace[..|trace| - 1]);
      StepKeepsInv(factual, After(factual, trace[..|trace| - 1]).value, trace[|trace| - 1]);
    }
  }

  // ---------------------------------------------------------------- losses that keep the stages in order

  /** The earlier stages of a journey. */
  function Earlier(k: Key): set<Key> {
    match k.kind
    case SnapshotKind => {}
    case ExplanationKind => {Key(k.subject, k.id, SnapshotKind)}
    case SavedKind => {Key(k.subject, k.id, SnapshotKind), Key(k.subject, k.id, ExplanationKind)}
  }

  /** A loss of power that takes no stage from under a later one. */
  predicate KeepsOrder(e: Event) {
    IsLoss(e) ==> forall k :: k in e.op.kept ==> Earlier(k) <= e.op.kept
  }

  /** A loss leaves the journeys in order exactly when it takes no stage from under a later one. */
  lemma LossKeepsOrderIff(factual: Snapshot -> string, s: State, e: Event)
    requires InOrder(s) && Enabled(s, e) && IsLoss(e)
    ensures InOrder(Apply(factual, s, e)) <==> KeepsOrder(e)
  {
    var after := Apply(factual, s, e);
    var kept := if e.op.gone then {} else e.op.kept;
    assert after.store.values.Keys == kept;
    forall k | k in kept
      ensures Rests(after.store, k, after.store.values[k]) <==> Earlier(k) <= kept
    {
      assert Rests(s.store, k, s.store.values[k]);
    }
  }

  /** Every possible loss leaves the journeys in order exactly when each stored artifact's earlier stages have been
      synced: a caller can see to that by building only on artifacts whose `write` has returned. */
  lemma EveryLossKeepsOrderIff(s: State)
    requires Valid(s.store) && InOrder(s)
    ensures (forall e :: IsLoss(e) && Enabled(s, e) ==> KeepsOrder(e))
            <==> (forall k :: k in s.store.values ==> Earlier(k) <= s.store.durable)
  {
    if k :| k in s.store.values && !(Earlier(k) <= s.store.durable) {
      var j :| j in Earlier(k) && j !in s.store.durable;
      var e := Storage(Loss(false, s.store.values.Keys - {j}));
      assert IsLoss(e) && Enabled(s, e) && k in e.op.kept && !(Earlier(k) <= e.op.kept);
      assert !KeepsOrder(e);
    } else {
      forall e | IsLoss(e) && Enabled(s, e) ensures KeepsOrder(e) {
        forall k, j | k in e.op.kept && j in Earlier(k) ensures j in e.op.kept {
          assert k in s.store.values && j.subject == k.subject;
        }
      }
    }
  }

  /** Every loss in the run keeps the stages in order. */
  predicate Orderly(trace: seq<Event>) { forall i :: 0 <= i < |trace| ==> KeepsOrder(trace[i]) }

  predicate NoLoss(trace: seq<Event>) { forall i :: 0 <= i < |trace| ==> !IsLoss(trace[i]) }

  lemma {:induction false} ReachableOrder(factual: Snapshot -> string, trace: seq<Event>)
    requires After(factual, trace).Some? && Orderly(trace)
    ensures InOrder(After(factual, trace).value)
  {
    if trace != [] {
      var before, last := trace[..|trace| - 1], trace[|trace| - 1];
      ReachableOrder(factual, before);
      ReachableInv(factual, before);
      StepKeepsInv(factual, After(factual, before).value, last);
      if IsLoss(last) { LossKeepsOrderIff(factual, After(factual, before).value, last); }
    }
  }

  /** The caller publishes only on artifacts that have been synced. */
  predicate BuildsOnSynced(s: State, e: Event) {
    e.Advance? && e.pid in s.procs && Draft(s.procs[e.pid]).Some? ==>
      Earlier(KeyOf(s.procs[e.pid], Draft(s.procs[e.pid]).value.0)) <= s.store.durable
  }

  predicate EarlierSynced(s: State) { forall k :: k in s.store.values ==> Earlier(k) <= s.store.durable }

  lemma StepKeepsEarlierSynced(factual: Snapshot -> string, s: State, e: Event)
    requires Valid(s.store) && EarlierSynced(s) && Enabled(s, e) && BuildsOnSynced(s, e)
    ensures EarlierSynced(Apply(factual, s, e)) && KeepsOrder(e)
  {
    if IsLoss(e) {
      forall k, j | k in e.op.kept && j in Earlier(k) ensures j in e.op.kept {
        assert k in s.store.values && j.subject == k.subject;
      }
    }
  }

  /** If every explanation and record is published on synced earlier stages, no loss of power ever takes a stage from
      under a later one: such a run is orderly, however often power fails. */
  lemma {:induction false} BuildingOnSyncedIsOrderly(factual: Snapshot -> string, trace: seq<Event>)
    requires After(factual, trace).Some?
    requires forall n :: 0 <= n < |trace| && After(factual, trace[..n]).Some? ==>
      BuildsOnSynced(After(factual, trace[..n]).value, trace[n])
    ensures Orderly(trace) && EarlierSynced(After(factual, trace).value)
  {
    if trace != [] {
      var before, last := trace[..|trace| - 1], |trace| - 1;
      forall n | 0 <= n < |before| && After(factual, before[..n]).Some?
        ensures BuildsOnSynced(After(factual, before[..n]).value, before[n])
      {
        assert before[..n] == trace[..n];
      }
      BuildingOnSyncedIsOrderly(factual, before);
      ReachableInv(factual, before);
      StepKeepsEarlierSynced(factual, After(factual, before).value, trace[last]);
      forall i | 0 <= i < |trace| ensures KeepsOrder(trace[i]) {
        if i < last { assert before[i] == trace[i]; }
      }
    }
  }
}
