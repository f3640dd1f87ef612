/** What the three-stage journey promises its callers over whole runs, and what a loss of power does to it. */
module JourneyPromises {
  import opened Wrappers
  import opened Registers
  import opened Evidence
  import opened Journey

  // ---------------------------------------------------------------- runs whose losses keep the stages in order

  /** In every orderly run, whatever else goes on: a saved record exists only over a stored explanation of a stored
      snapshot, and it embeds exactly those two artifacts. */
  lemma SavedEmbedsItsJourney(factual: Snapshot -> string, trace: seq<Event>, subject: string, id: string)
    requires After(factual, trace).Some? && Orderly(trace)
    requires Key(subject, id, SavedKind) in After(factual, trace).value.store.values
    ensures var t := After(factual, trace).value.store;
      && var saved := t.values[Key(subject, id, SavedKind)];
      && saved.ARecord? && RecordOk(factual, saved.record, id)
      && Holds(t, subject, id, ExplanationKind, AExplanation(saved.record.body.explanation))
      && Holds(t, subject, id, SnapshotKind, ASnapshot(saved.record.body.snapshot))
      && saved.record.body.explanation.body.input == saved.record.body.snapshot
  {
    ReachableInv(factual, trace);
    ReachableOrder(factual, trace);
    var t, k := After(factual, trace).value.store, Key(subject, id, SavedKind);
    assert SelfOk(factual, k, t.values[k]) && Rests(t, k, t.values[k]);
  }

  lemma ExplanationNeedsSnapshot(factual: Snapshot -> string, trace: seq<Event>, subject: string, id: string)
    requires After(factual, trace).Some? && Orderly(trace)
    requires Key(subject, id, ExplanationKind) in After(factual, trace).value.store.values
    ensures var t := After(factual, trace).value.store;
      && var e := t.values[Key(subject, id, ExplanationKind)];
      && e.AExplanation? && Holds(t, subject, id, SnapshotKind, ASnapshot(e.explanation.body.input))
      && e.explanation.body.text == factual(e.explanation.body.input)
  {
    ReachableInv(factual, trace);
    ReachableOrder(factual, trace);
    var t, k := After(factual, trace).value.store, Key(subject, id, ExplanationKind);
    assert SelfOk(factual, k, t.values[k]) && Rests(t, k, t.values[k]);
  }

  // ---------------------------------------------------------------- what calls refuse

  /** Every saved identifier can be listed, in every run and after any losses: `record` refuses no saved artifact. */
  lemma ListingNeverRefuses(factual: Snapshot -> string, trace: seq<Event>, p: Pid, clock: string)
    requires After(factual, trace).Some?
    requires var s := After(factual, trace).value; p in s.procs && s.procs[p].phase.ReadOnlyRecord?
    ensures var s := After(factual, trace).value;
      var k := KeyOf(s.procs[p], SavedKind);
      Next(factual, s.store, s.procs[p], clock).1 ==
        if k in s.store.values then Gave(s.store.values[k]) else Missing
  {
    ReachableInv(factual, trace);
    hide After, PhaseOk, SnapshotOk, ExplanationOk;
    var s := After(factual, trace).value;
    var k := KeyOf(s.procs[p], SavedKind);
    if k in s.store.values { assert SelfOk(factual, k, s.store.values[k]); }
  }

  /** The stored explanation is not the one of the snapshot the caller has read, or the stored record does not embed
      the snapshot and the explanation it has read. */
  predicate Misfit(t: Table<Artifact>, p: Proc) {
    match p.phase
    case ReadExplanation(snapshot) => OtherInput(t, p, snapshot)
    case WroteExplanation(snapshot) => OtherInput(t, p, snapshot)
    case ReadRecord(snapshot, explanation) => OtherParts(t, p, snapshot, explanation)
    case WroteRecord(snapshot, explanation) => OtherParts(t, p, snapshot, explanation)
    case _ => false
  }

  predicate OtherInput(t: Table<Artifact>, p: Proc, snapshot: Snapshot) {
    var k := KeyOf(p, ExplanationKind);
    k in t.values && t.values[k].AExplanation? && t.values[k].explanation.body.input != snapshot
  }

  predicate OtherParts(t: Table<Artifact>, p: Proc, snapshot: Snapshot, explanation: Explanation) {
    var k := KeyOf(p, SavedKind);
    && k in t.values && t.values[k].ARecord?
    && (t.values[k].record.body.snapshot != snapshot || t.values[k].record.body.explanation != explanation)
  }

  /** Every text that `explain` can produce fits. */
  ghost predicate TextFits(factual: Snapshot -> string) { forall s,
                           id :: SnapshotOk(s, id) ==> |factual(s)| <= MAX_TEXT }

  lemma ExplanationRefusedIff(factual: Snapshot -> string, t: Table<Artifact>, p: Proc, clock: string)
    requires TextFits(factual) && PhaseOk(factual, t, p) && (p.phase.ReadExplanation? || p.phase.WroteExplanation?)
    requires SnapshotOk(p.phase.snapshot, p.id)
    requires var k := KeyOf(p, ExplanationKind); k in t.values ==> SelfOk(factual, k, t.values[k])
    ensures Read(factual, t, p, clock).Refused? <==> Misfit(t, p)
  {
    var k := KeyOf(p, ExplanationKind);
    if k in t.values {
      var e := t.values[k].explanation;
      assert ExplanationOk(factual, e, p.phase.snapshot) <==> e.body.input == p.phase.snapshot;
    }
  }

  lemma RecordRefusedIff(factual: Snapshot -> string, t: Table<Artifact>, p: Proc, clock: string)
    requires PhaseOk(factual, t, p) && (p.phase.ReadRecord? || p.phase.WroteRecord?)
    requires var k := KeyOf(p, SavedKind); k in t.values ==> SelfOk(factual, k, t.values[k])
    ensures Read(factual, t, p, clock).Refused? <==> Misfit(t, p)
  {
  }

  /** In every run, after any losses, a store call of `explain` or `save` ends in a refusal exactly when the stored
      artifacts of the journey do not belong together. */
  lemma RefusesIffMisfit(factual: Snapshot -> string, trace: seq<Event>, p: Pid, clock: string)
    requires TextFits(factual) && After(factual, trace).Some?
    requires var s := After(factual, trace).value;
      && p in s.procs && !Terminal(s.procs[p].phase) && (s.procs[p].call.ExplainCall? || s.procs[p].call.SaveCall?)
    ensures var s := After(factual, trace).value;
      Next(factual, s.store, s.procs[p], clock).1.Refused? <==> Misfit(s.store, s.procs[p])
  {
    ReachableInv(factual, trace);
    RefusalStep(factual, After(factual, trace).value, After(factual, trace).value.procs[p], clock);
  }

  lemma RefusalStep(factual: Snapshot -> string, s: State, p: Proc, clock: string)
    requires TextFits(factual) && Inv(factual, s) && PhaseOk(factual, s.store, p) && !Terminal(p.phase)
    requires p.call.ExplainCall? || p.call.SaveCall?
    ensures Next(factual, s.store, p, clock).1.Refused? <==> Misfit(s.store, p)
  {
    hide TextFits, SnapshotOk;
    var t := s.store;
    var snap, expl, saved := KeyOf(p, SnapshotKind), KeyOf(p, ExplanationKind), KeyOf(p, SavedKind);
    assert snap in t.values ==> SelfOk(factual, snap, t.values[snap]);
    assert expl in t.values ==> SelfOk(factual, expl, t.values[expl]);
    assert saved in t.values ==> SelfOk(factual, saved, t.values[saved]);
    if p.phase.ReadExplanation? || p.phase.WroteExplanation? {
      ExplanationRefusedIff(factual, t, p, clock);
      ReadIgnoresSyncs(factual, t, p, clock);
    } else if p.phase.ReadRecord? || p.phase.WroteRecord? {
      RecordRefusedIff(factual, t, p, clock);
      ReadIgnoresSyncs(factual, t, p, clock);
    }
  }

  lemma ReadIgnoresSyncs(factual: Snapshot -> string, t: Table<Artifact>, p: Proc, clock: string)
    requires Draft(p).None?
    ensures Next(factual, t, p, clock).1 == Read(factual, t, p, clock)
  {
  }

  /** In orderly runs `explain` and `save` refuse nothing that a journey has stored. */
  lemma OrderlyCallsAreNotRefused(factual: Snapshot -> string, trace: seq<Event>, p: Pid, clock: string)
    requires TextFits(factual) && After(factual, trace).Some? && Orderly(trace)
    requires var s := After(factual, trace).value;
      && p in s.procs && !Terminal(s.procs[p].phase) && (s.procs[p].call.ExplainCall? || s.procs[p].call.SaveCall?)
    ensures var s := After(factual, trace).value; !Next(factual, s.store, s.procs[p], clock).1.Refused?
  {
    RefusesIffMisfit(factual, trace, p, clock);
    ReachableInv(factual, trace);
    ReachableOrder(factual, trace);
    OrderHasNoMisfit(factual, After(factual, trace).value, After(factual, trace).value.procs[p]);
  }

  lemma OrderHasNoMisfit(factual: Snapshot -> string, s: State, p: Proc)
    requires InOrder(s) && PhaseOk(factual, s.store, p)
    ensures !Misfit(s.store, p)
  {
    var expl, saved := KeyOf(p, ExplanationKind), KeyOf(p, SavedKind);
    if expl in s.store.values { assert Rests(s.store, expl, s.store.values[expl]); }
    if saved in s.store.values { assert Rests(s.store, saved, s.store.values[saved]); }
  }

  // ---------------------------------------------------------------- what calls give

  /** The stage whose artifact a successful call returns. */
  function StageOf(call: Call): Kind {
    match call
    case Capture(_) => SnapshotKind
    case ExplainCall => ExplanationKind
    case SaveCall => SavedKind
    case RecordCall => SavedKind
  }

  function Wanted(p: Proc): Key { KeyOf(p, StageOf(p.call)) }

  predicate StandsFor(t: Table<Artifact>, k: Key, a: Artifact) { k in t.values && t.values[k] == a }

  lemma WroteGives(factual: Snapshot -> string, t: Table<Artifact>, p: Proc, clock: string)
    requires PhaseOk(factual, t, p) && Wrote(p.phase) && Read(factual, t, p, clock).Gave?
    ensures StandsFor(t, Wanted(p), Read(factual, t, p, clock).artifact)
  {
    hide SnapshotOk, RecordOk, ExplanationOk;
  }

  lemma ReadGives(factual: Snapshot -> string, t: Table<Artifact>, p: Proc, clock: string)
    requires PhaseOk(factual, t, p) && !Wrote(p.phase) && !Terminal(p.phase) && Read(factual, t, p, clock).Gave?
    ensures StandsFor(t, Wanted(p), Read(factual, t, p, clock).artifact)
  {
    hide SnapshotOk, RecordOk, ExplanationOk;
  }

  /** A call that gives an artifact gives the one that is stored; one that wrote before has synced it. */
  lemma StepGives(factual: Snapshot -> string, s: State, p: Pid, clock: string)
    requires Inv(factual, s) && Enabled(s, Advance(p, clock))
    ensures var after := Apply(factual, s, Advance(p, clock));
      && p in after.procs && Wanted(after.procs[p]) == Wanted(s.procs[p])
      && (after.procs[p].phase.Gave? ==>
            && StandsFor(after.store, Wanted(after.procs[p]), after.procs[p].phase.artifact)
            && (Wrote(s.procs[p].phase) ==> Wanted(after.procs[p]) in after.store.durable))
  {
    assert PhaseOk(factual, s.store, s.procs[p]);
    hide PhaseOk, SelfOk, Read;
    var proc, ph := s.procs[p], Read(factual, s.store, s.procs[p], clock);
    if Draft(proc).None? && ph.Gave? {
      if Wrote(proc.phase) { WroteGives(factual, s.store, proc, clock); }
      else { ReadGives(factual, s.store, proc, clock); }
    }
  }

  predicate GivenIsStored(s: State) {
    forall p :: p in s.procs && s.procs[p].phase.Gave? ==>
      StandsFor(s.store, Wanted(s.procs[p]), s.procs[p].phase.artifact)
  }

  lemma StepGrows(factual: Snapshot -> string, s: State, e: Event)
    requires Inv(factual, s) && Enabled(s, e) && !IsLoss(e)
    ensures Grows(s.store, Apply(factual, s, e).store)
    ensures forall p :: p in s.procs && Terminal(s.procs[p].phase) ==>
      p in Apply(factual, s, e).procs && Apply(factual, s, e).procs[p] == s.procs[p]
    ensures forall p :: p in Apply(factual, s, e).procs && Apply(factual, s, e).procs[p].phase.Gave? ==>
      (p in s.procs && Apply(factual, s, e).procs[p] == s.procs[p]) || (e.Advance? && e.pid == p)
  {
  }

  lemma {:induction false} WithoutLossGivenIsStored(factual: Snapshot -> string, trace: seq<Event>)
    requires After(factual, trace).Some? && NoLoss(trace)
    ensures GivenIsStored(After(factual, trace).value)
  {
    if trace != [] {
      var before, last := trace[..|trace| - 1], trace[|trace| - 1];
      WithoutLossGivenIsStored(factual, before);
      ReachableInv(factual, before);
      StepGrows(factual, After(factual, before).value, last);
      if last.Advance? { StepGives(factual, After(factual, before).value, last.pid, last.clock); }
      hide Apply, Enabled, Inv;
    }
  }

  /** Without power loss, all `explain` calls for one identifier that succeed agree, and so do all `save` and
      `record` calls, whatever their clocks and however their steps interleave. */
  lemma SuccessfulCallsAgree(factual: Snapshot -> string, trace: seq<Event>, p: Pid, q: Pid)
    requires After(factual, trace).Some? && NoLoss(trace)
    requires var s := After(factual, trace).value;
      && p in s.procs && q in s.procs && s.procs[p].phase.Gave? && s.procs[q].phase.Gave?
      && Wanted(s.procs[p]) == Wanted(s.procs[q])
    ensures var s := After(factual, trace).value; s.procs[p].phase.artifact == s.procs[q].phase.artifact
  {
    WithoutLossGivenIsStored(factual, trace);
  }

  /** Without power loss, an explanation that was given explains the very snapshot that the capture of that
      identifier gave, and a record that was given bundles both. */
  lemma GivenArtifactsFit(factual: Snapshot -> string, trace: seq<Event>, p: Pid, q: Pid)
    requires After(factual, trace).Some? && NoLoss(trace)
    requires var s := After(factual, trace).value;
      && p in s.procs && q in s.procs && s.procs[p].phase.Gave? && s.procs[q].phase.Gave?
      && s.procs[p].subject == s.procs[q].subject && s.procs[p].id == s.procs[q].id
    ensures var s := After(factual, trace).value;
      var a, b := s.procs[p].phase.artifact, s.procs[q].phase.artifact;
      && (a.ASnapshot? && b.AExplanation? ==> b.explanation.body.input == a.snapshot)
      && (a.ASnapshot? && b.ARecord? ==> b.record.body.snapshot == a.snapshot)
      && (a.AExplanation? && b.ARecord? ==> b.record.body.explanation == a.explanation)
  {
    ReachableInv(factual, trace);
    assert Orderly(trace);
    ReachableOrder(factual, trace);
    WithoutLossGivenIsStored(factual, trace);
    var s := After(factual, trace).value;
    var k, j := Wanted(s.procs[p]), Wanted(s.procs[q]);
    assert SelfOk(factual, k, s.store.values[k]) && SelfOk(factual, j, s.store.values[j]);
    assert Rests(s.store, k, s.store.values[k]) && Rests(s.store, j, s.store.values[j]);
  }

  // ---------------------------------------------------------------- what a loss of power leaves of it

  lemma Prefixes(factual: Snapshot -> string, trace: seq<Event>, n: nat)
    requires After(factual, trace).Some? && n <= |trace|
    ensures After(factual, trace[..n]).Some? && Inv(factual, After(factual, trace[..n]).value)
    ensures n > 0 ==>
      && After(factual, trace[..n - 1]).Some? && Inv(factual, After(factual, trace[..n - 1]).value)
      && Enabled(After(factual, trace[..n - 1]).value, trace[n - 1])
      && After(factual, trace[..n]).value == Apply(factual, After(factual, trace[..n - 1]).value, trace[n - 1])
    decreases |trace|
  {
    hide Apply, Enabled, Inv;
    if n < |trace| {
      Prefixes(factual, trace[..|trace| - 1], n);
      assert trace[..|trace| - 1][..n] == trace[..n];
      if n > 0 { assert trace[..|trace| - 1][..n - 1] == trace[..n - 1]; }
    } else {
      assert trace[..n] == trace;
      ReachableInv(factual, trace);
      if n > 0 { ReachableInv(factual, trace[..n - 1]); }
    }
  }

  lemma NoLossWithin(trace: seq<Event>, m: nat, l: nat, n: nat)
    requires m <= l <= n <= |trace| && NoLoss(trace[m..n])
    ensures NoLoss(trace[m..l])
    ensures m < n ==> !IsLoss(trace[n - 1])
  {
    assert trace[m..l] == trace[m..n][..l - m];
    if m < n { assert trace[n - 1] == trace[m..n][n - 1 - m]; }
  }

  lemma StepKeepsStored(factual: Snapshot -> string, s: State, e: Event, k: Key)
    requires Inv(factual, s) && Enabled(s, e) && k in s.store.values && (!IsLoss(e) || Safe(s.store, k))
    ensures var t := Apply(factual, s, e).store;
      && k in t.values && t.values[k] == s.store.values[k]
      && (k in s.store.durable ==> k in t.durable)
      && (Safe(s.store, k) ==> Safe(t, k))
  {
    StepIsRegisterOp(factual, s, e);
    RunKeepsSafe(s.store, OpsOf(s, e), k);
    if !IsLoss(e) { StepGrows(factual, s, e); }
  }

  lemma {:induction false} StoredUntilLoss(factual: Snapshot -> string, trace: seq<Event>, m: nat, l: nat, k: Key)
    requires After(factual, trace).Some? && m <= l <= |trace| && NoLoss(trace[m..l])
    requires After(factual, trace[..m]).Some? && k in After(factual, trace[..m]).value.store.values
    ensures After(factual, trace[..l]).Some?
    ensures var t, u := After(factual, trace[..m]).value.store, After(factual, trace[..l]).value.store;
      k in u.values && u.values[k] == t.values[k] && (k in t.durable ==> k in u.durable)
    decreases l
  {
    hide Inv, Apply, Enabled, After, Safe;
    Prefixes(factual, trace, l);
    if m < l {
      NoLossWithin(trace, m, l - 1, l);
      StoredUntilLoss(factual, trace, m, l - 1, k);
      StepKeepsStored(factual, After(factual, trace[..l - 1]).value, trace[l - 1], k);
    }
  }

  lemma {:induction false} SafeStays(factual: Snapshot -> string, trace: seq<Event>, n: nat, l: nat, k: Key)
    requires After(factual, trace).Some? && n <= l <= |trace|
    requires After(factual, trace[..n]).Some? && k in After(factual, trace[..n]).value.store.values
    requires Safe(After(factual, trace[..n]).value.store, k)
    ensures After(factual, trace[..l]).Some?
    ensures var t, u := After(factual, trace[..n]).value.store, After(factual, trace[..l]).value.store;
      k in u.values && u.values[k] == t.values[k] && Safe(u, k)
    decreases l
  {
    hide Inv, Apply, Enabled, After, Safe;
    Prefixes(factual, trace, l);
    if n < l {
      SafeStays(factual, trace, n, l - 1, k);
      StepKeepsStored(factual, After(factual, trace[..l - 1]).value, trace[l - 1], k);
    }
  }

  /** A stored artifact keeps its value until the first loss of power, and for good if it was safe by then. */
  lemma StoredStays(factual: Snapshot -> string, trace: seq<Event>, m: nat, n: nat, l: nat, k: Key)
    requires After(factual, trace).Some? && m <= n <= |trace| && m <= l <= |trace|
    requires After(factual, trace[..m]).Some? && After(factual, trace[..n]).Some?
    requires k in After(factual, trace[..m]).value.store.values && NoLoss(trace[m..n])
    requires n < l ==> Safe(After(factual, trace[..n]).value.store, k)
    ensures After(factual, trace[..l]).Some?
    ensures var t, u := After(factual, trace[..m]).value.store, After(factual, trace[..l]).value.store;
      k in u.values && u.values[k] == t.values[k]
  {
    if l <= n {
      NoLossWithin(trace, m, l, n);
      StoredUntilLoss(factual, trace, m, l, k);
    } else {
      StoredUntilLoss(factual, trace, m, n, k);
      SafeStays(factual, trace, n, l, k);
    }
  }

  /** Call `p` gave its artifact with event `m - 1`. */
  predicate GaveAt(factual: Snapshot -> string, trace: seq<Event>, m: nat, p: Pid) {
    && 0 < m <= |trace| && trace[m - 1].Advance? && trace[m - 1].pid == p
    && After(factual, trace[..m]).Some? && p in After(factual, trace[..m]).value.procs
    && After(factual, trace[..m]).value.procs[p].phase.Gave?
  }

  lemma GivenWasStored(factual: Snapshot -> string, trace: seq<Event>, m: nat, p: Pid)
    requires After(factual, trace).Some? && GaveAt(factual, trace, m, p)
    ensures var s := After(factual, trace[..m]).value;
      StandsFor(s.store, Wanted(s.procs[p]), s.procs[p].phase.artifact)
  {
    Prefixes(factual, trace, m);
    StepGives(factual, After(factual, trace[..m - 1]).value, p, trace[m - 1].clock);
  }

  /** Once a call has given an artifact that is safe before the first loss of power, every later call for the same
      stage of the same identifier that succeeds gives that artifact, however often power fails. */
  lemma GivenAndSafeIsGivenAgain(factual: Snapshot -> string, trace: seq<Event>, m: nat, p: Pid, n: nat, l: nat,
                                 q: Pid)
    requires After(factual, trace).Some? && GaveAt(factual, trace, m, p) && GaveAt(factual, trace, l, q)
    requires m <= n <= |trace| && m <= l && NoLoss(trace[m..n]) && After(factual, trace[..n]).Some?
    requires var k := Wanted(After(factual, trace[..m]).value.procs[p]);
      Wanted(After(factual, trace[..l]).value.procs[q]) == k && Safe(After(factual, trace[..n]).value.store, k)
    ensures After(factual, trace[..m]).value.procs[p].phase.artifact
         == After(factual, trace[..l]).value.procs[q].phase.artifact
  {
    GivenWasStored(factual, trace, m, p);
    GivenWasStored(factual, trace, l, q);
    StoredStays(factual, trace, m, n, l, Wanted(After(factual, trace[..m]).value.procs[p]));
  }

  predicate StillStands(factual: Snapshot -> string, trace: seq<Event>, k: Key, a: Artifact) {
    After(factual, trace).Some? ==> StandsFor(After(factual, trace).value.store, k, a)
  }

  lemma Extend(factual: Snapshot -> string, trace: seq<Event>, e: Event)
    requires After(factual, trace).Some? && Enabled(After(factual, trace).value, e)
    ensures After(factual, trace + [e]) == Some(Apply(factual, After(factual, trace).value, e))
  {
    var more := trace + [e];
    assert more[..|more| - 1] == trace && more[|more| - 1] == e;
  }

  lemma LossTakes(factual: Snapshot -> string, s: State, k: Key)
    requires Valid(s.store) && !Safe(s.store, k)
    ensures var e := Storage(Loss(!s.store.anchored, Without(s.store, k)));
      Enabled(s, e) && k !in Apply(factual, s, e).store.values
  {
    UnsafeMayGo(s.store, k);
  }

  /** Until the first loss of power, what a call gave stands for good, whatever follows, exactly when it is safe: its
      directory has been synced since it was published, and so have the two entries above. */
  lemma GivenForGoodIff(factual: Snapshot -> string, trace: seq<Event>, m: nat, p: Pid)
    requires After(factual, trace).Some? && GaveAt(factual, trace, m, p) && NoLoss(trace[m..])
    ensures var s := After(factual, trace[..m]).value; var k := Wanted(s.procs[p]);
      (forall more :: StillStands(factual, trace + more, k, s.procs[p].phase.artifact))
      <==> Safe(After(factual, trace).value.store, k)
  {
    hide Inv, Apply, Next, Safe;
    var s, t := After(factual, trace[..m]).value, After(factual, trace).value;
    var k, a, n := Wanted(s.procs[p]), s.procs[p].phase.artifact, |trace|;
    assert trace[..n] == trace && trace[m..n] == trace[m..];
    GivenWasStored(factual, trace, m, p);
    StoredUntilLoss(factual, trace, m, n, k);
    if Safe(t.store, k) {
      forall more ensures StillStands(factual, trace + more, k, a) {
        if After(factual, trace + more).Some? {
          assert (trace + more)[..n] == trace && (trace + more)[..|trace + more|] == trace + more;
          SafeStays(factual, trace + more, n, |trace + more|, k);
        }
      }
    } else {
      ReachableInv(factual, trace);
      var e := Storage(Loss(!t.store.anchored, Without(t.store, k)));
      LossTakes(factual, t, k);
      Extend(factual, trace, e);
      assert !StillStands(factual, trace + [e], k, a);
    }
  }

  /** A call that wrote and then gave its artifact has synced it together with every earlier stage of its journey.
      Once the two entries above are synced too, all of them stand for good. */
  lemma AcknowledgedStagesStay(factual: Snapshot -> string, trace: seq<Event>, m: nat, p: Pid, n: nat, k: Key)
    requires After(factual, trace).Some? && GaveAt(factual, trace, m, p) && After(factual, trace[..m - 1]).Some?
    requires p in After(factual, trace[..m - 1]).value.procs
      && Wrote(After(factual, trace[..m - 1]).value.procs[p].phase)
    requires m <= n <= |trace| && NoLoss(trace[m..n]) && After(factual, trace[..n]).Some?
    requires var t := After(factual, trace[..n]).value.store; t.anchored && k.subject in t.rooted
    requires var s := After(factual, trace[..m]).value;
      k in s.store.values && k.subject == s.procs[p].subject
    ensures var t, u := After(factual, trace[..m]).value.store, After(factual, trace).value.store;
      Safe(u, k) && k in u.values && u.values[k] == t.values[k]
  {
    var before := After(factual, trace[..m - 1]).value;
    Prefixes(factual, trace, m);
    WroteSyncs(factual, before, p, trace[m - 1].clock, k);
    StoredUntilLoss(factual, trace, m, n, k);
    assert trace[..|trace|] == trace;
    SafeStays(factual, trace, n, |trace|, k);
  }

  lemma WroteSyncs(factual: Snapshot -> string, s: State, p: Pid, clock: string, k: Key)
    requires Inv(factual, s) && Enabled(s, Advance(p, clock)) && Wrote(s.procs[p].phase)
    requires k in Apply(factual, s, Advance(p, clock)).store.values && k.subject == s.procs[p].subject
    ensures k in Apply(factual, s, Advance(p, clock)).store.durable
  {
  }

  /** What a `save` that wrote gives bundles the stored snapshot and explanation. */
  lemma SaveGivesStages(factual: Snapshot -> string, s: State, p: Pid, clock: string)
    requires Inv(factual, s) && Enabled(s, Advance(p, clock)) && s.procs[p].phase.WroteRecord?
    requires Apply(factual, s, Advance(p, clock)).procs[p].phase.Gave?
    ensures var after := Apply(factual, s, Advance(p, clock)); var a := after.procs[p].phase.artifact;
      && a.ARecord? && after.procs[p].subject == s.procs[p].subject && after.procs[p].id == s.procs[p].id
      && WholeJourney(after.store, s.procs[p], a.record)
  {
    assert PhaseOk(factual, s.store, s.procs[p]);
    hide SelfOk, SnapshotOk, RecordOk, ExplanationOk;
  }

  /** The record, the explanation and the snapshot it bundles are stored under their three names. */
  predicate WholeJourney(t: Table<Artifact>, p: Proc, r: Record) {
    && StandsFor(t, KeyOf(p, SavedKind), ARecord(r))
    && StandsFor(t, KeyOf(p, ExplanationKind), AExplanation(r.body.explanation))
    && StandsFor(t, KeyOf(p, SnapshotKind), ASnapshot(r.body.snapshot))
  }

  /** A `save` that wrote its record and gave it is for good, with the whole journey under it, once the two entries
      above its subject's directory are synced. */
  lemma AcknowledgedSaveIsForGood(factual: Snapshot -> string, trace: seq<Event>, m: nat, p: Pid, n: nat)
    requires After(factual, trace).Some? && GaveAt(factual, trace, m, p) && After(factual, trace[..m - 1]).Some?
    requires p in After(factual, trace[..m - 1]).value.procs
      && After(factual, trace[..m - 1]).value.procs[p].phase.WroteRecord?
    requires m <= n <= |trace| && NoLoss(trace[m..n]) && After(factual, trace[..n]).Some?
    requires var s, t := After(factual, trace[..m]).value, After(factual, trace[..n]).value.store;
      t.anchored && s.procs[p].subject in t.rooted
    ensures var proc := After(factual, trace[..m]).value.procs[p];
      proc.phase.artifact.ARecord? && WholeJourney(After(factual, trace).value.store, proc, proc.phase.artifact.record)
  {
    Prefixes(factual, trace, m);
    SaveGivesStages(factual, After(factual, trace[..m - 1]).value, p, trace[m - 1].clock);
    var proc := After(factual, trace[..m]).value.procs[p];
    AcknowledgedStagesStay(factual, trace, m, p, n, KeyOf(proc, SavedKind));
    AcknowledgedStagesStay(factual, trace, m, p, n, KeyOf(proc, ExplanationKind));
    AcknowledgedStagesStay(factual, trace, m, p, n, KeyOf(proc, SnapshotKind));
  }

  // ---------------------------------------------------------------- a journey out of order

  /** The stored record embeds another explanation than the stored one. */
  predicate Mismatched(t: Table<Artifact>, subject: string, id: string) {
    var r, e := Key(subject, id, SavedKind), Key(subject, id, ExplanationKind);
    && r in t.values && e in t.values && t.values[r].ARecord?
    && t.values[e] != AExplanation(t.values[r].record.body.explanation)
  }

  lemma MismatchRead(factual: Snapshot -> string, t: Table<Artifact>, p: Proc, clock: string)
    requires PhaseOk(factual, t, p) && p.call.SaveCall? && !Terminal(p.phase) && Mismatched(t, p.subject, p.id)
    ensures !Read(factual, t, p, clock).Gave?
  {
    hide SnapshotOk, RecordOk, ExplanationOk;
  }

  lemma MismatchStep(factual: Snapshot -> string, s: State, p: Pid, clock: string)
    requires Inv(factual, s) && Enabled(s, Advance(p, clock)) && s.procs[p].call.SaveCall?
    requires Mismatched(s.store, s.procs[p].subject, s.procs[p].id)
    ensures !Apply(factual, s, Advance(p, clock)).procs[p].phase.Gave?
  {
    assert PhaseOk(factual, s.store, s.procs[p]);
    hide PhaseOk, SelfOk, Read, Mismatched;
    MismatchRead(factual, s.store, s.procs[p], clock);
  }

  /** From then on, without a further loss, no `save` of that identifier ever succeeds. */
  lemma {:induction false} MismatchIsForGood(factual: Snapshot -> string, trace: seq<Event>, n: nat, subject: string,
                                             id: string)
    requires After(factual, trace).Some? && n <= |trace| && NoLoss(trace[n..]) && After(factual, trace[..n]).Some?
    requires Mismatched(After(factual, trace[..n]).value.store, subject, id)
    ensures var s, t := After(factual, trace[..n]).value, After(factual, trace).value;
      && Mismatched(t.store, subject, id)
      && (forall p :: p in t.procs && t.procs[p].call.SaveCall? && t.procs[p].phase.Gave?
                      && t.procs[p].subject == subject && t.procs[p].id == id ==>
            p in s.procs && s.procs[p] == t.procs[p])
    decreases |trace|
  {
    if n == |trace| {
      assert trace[..n] == trace;
    } else {
      var before, last := trace[..|trace| - 1], trace[|trace| - 1];
      assert before[..n] == trace[..n] && before[n..] == trace[n..][..|before| - n];
      assert last == trace[n..][|trace| - 1 - n];
      MismatchIsForGood(factual, before, n, subject, id);
      ReachableInv(factual, before);
      var mid := After(factual, before).value;
      StepGrows(factual, mid, last);
      MismatchGives(factual, mid, last, subject, id);
      hide Apply, Inv, Enabled;
    }
  }

  lemma MismatchGives(factual: Snapshot -> string, s: State, e: Event, subject: string, id: string)
    requires Inv(factual, s) && Enabled(s, e) && Mismatched(s.store, subject, id) && !IsLoss(e)
    ensures Mismatched(Apply(factual, s, e).store, subject, id)
    ensures var after := Apply(factual, s, e);
      forall p :: p in after.procs && after.procs[p].call.SaveCall? && after.procs[p].phase.Gave?
                  && after.procs[p].subject == subject && after.procs[p].id == id ==>
        p in s.procs && s.procs[p] == after.procs[p]
  {
    StepGrows(factual, s, e);
    if e.Advance? {
      var p := s.procs[e.pid];
      if p.call.SaveCall? && p.subject == subject && p.id == id { MismatchStep(factual, s, e.pid, e.clock); }
      KeepsCall(factual, s, e.pid, e.clock);
    }
    hide Apply, Inv, Enabled;
  }

  lemma KeepsCall(factual: Snapshot -> string, s: State, p: Pid, clock: string)
    requires Enabled(s, Advance(p, clock))
    ensures var after := Apply(factual, s, Advance(p, clock));
      p in after.procs && after.procs[p] == s.procs[p].(phase := after.procs[p].phase)
  {
  }
}
