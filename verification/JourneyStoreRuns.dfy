/** What the store promises its callers, over whole runs. */
module JourneyStoreRuns {
  import opened Wrappers
  import opened Registers
  import opened JourneyStore
  import opened JourneyStoreSafety

  ghost predicate NoLoss(trace: seq<Event>) {
    forall i :: 0 <= i < |trace| ==> !trace[i].PowerLoss?
  }

  // ---------------------------------------------------------------- one value per name

  /** A step moves one process and keeps its call; only the end of a read makes it return, and only
      finding no artifact makes it raise Missing. */
  lemma StepMoves(canon: Bytes -> bool, s: State, p: Pid, a: Action)
    requires Enabled(canon, s, Do(p, a))
    ensures var after := Apply(canon, s, Do(p, a));
      && p in after.procs && after.procs == s.procs[p := after.procs[p]] && after.procs[p].call == s.procs[p].call
      && (after.procs[p].phase.Returned? ==> a.Finish?)
      && (after.procs[p].phase == Raised(Missing) ==> a == Fail(Missing))
  {
  }

  lemma FinishReturns(canon: Bytes -> bool, s: State, p: Pid)
    requires Inv(canon, s) && Enabled(canon, s, Do(p, Finish))
    ensures var after := Apply(canon, s, Do(p, Finish));
      && after.procs[p].phase.Returned? && after.bound == s.bound && s.procs[p].call.key in s.bound
      && after.procs[p].phase.value == s.bound[s.procs[p].call.key] && after.durable == s.durable
      && (s.procs[p].call.Write? ==> s.procs[p].call.key in s.durable)
  {
    assert PhaseOk(canon, s, s.procs[p].call, s.procs[p].phase);
  }

  lemma BindingsGrow(canon: Bytes -> bool, s: State, e: Event)
    requires Inv(canon, s) && Enabled(canon, s, e) && !e.PowerLoss?
    ensures forall k :: k in s.bound ==> k in Apply(canon, s, e).bound && Apply(canon, s, e).bound[k] == s.bound[k]
  {
    hide Inv, Enabled, Apply;
    StepKeepsInv(canon, s, e);
  }

  lemma OtherEventsReturnNothing(canon: Bytes -> bool, s: State, e: Event)
    requires Enabled(canon, s, e) && !e.PowerLoss? && !e.Do?
    ensures forall p :: p in Apply(canon, s, e).procs && Apply(canon, s, e).procs[p].phase.Returned? ==>
      p in s.procs && s.procs[p] == Apply(canon, s, e).procs[p]
  {
  }

  lemma DoKeepsReads(canon: Bytes -> bool, s: State, p: Pid, a: Action)
    requires Inv(canon, s) && ReadsCurrent(s) && Enabled(canon, s, Do(p, a))
    ensures ReadsCurrent(Apply(canon, s, Do(p, a)))
  {
    hide Inv, CanDo, Effect, Apply;
    BindingsGrow(canon, s, Do(p, a));
    StepMoves(canon, s, p, a);
    if a.Finish? { FinishReturns(canon, s, p); }
  }

  lemma StepKeepsReads(canon: Bytes -> bool, s: State, e: Event)
    requires Inv(canon, s) && ReadsCurrent(s) && Enabled(canon, s, e) && !e.PowerLoss?
    ensures ReadsCurrent(Apply(canon, s, e))
  {
    hide Inv, Enabled, Apply;
    if e.Do? {
      DoKeepsReads(canon, s, e.pid, e.action);
    } else {
      BindingsGrow(canon, s, e);
      OtherEventsReturnNothing(canon, s, e);
    }
  }

  lemma {:induction false} ReachableReads(canon: Bytes -> bool, trace: seq<Event>)
    requires After(canon, trace).Some? && NoLoss(trace)
    ensures ReadsCurrent(After(canon, trace).value)
  {
    if trace != [] {
      var before := trace[..|trace| - 1];
      ReachableInv(canon, before);
      ReachableReads(canon, before);
      StepKeepsReads(canon, After(canon, before).value, trace[|trace| - 1]);
    }
  }

  /** In every interleaving of any number of `read` and `write` calls, with callers killed at any
      step, all calls on one name that succeed return the same value, and it is whole. */
  lemma OneValuePerName(canon: Bytes -> bool, trace: seq<Event>, p: Pid, q: Pid)
    requires After(canon, trace).Some? && NoLoss(trace)
    requires var s := After(canon, trace).value;
      && p in s.procs && q in s.procs && s.procs[p].call.key == s.procs[q].call.key
      && s.procs[p].phase.Returned? && s.procs[q].phase.Returned?
    ensures var s := After(canon, trace).value;
      && s.procs[p].phase.value == s.procs[q].phase.value
      && GoodBytes(canon, s.procs[p].phase.value)
  {
    ReachableInv(canon, trace);
    ReachableReads(canon, trace);
  }

  lemma {:induction false} Continue(canon: Bytes -> bool, trace: seq<Event>, n: nat)
    requires After(canon, trace).Some? && n <= |trace|
    ensures After(canon, trace[..n]).Some?
    decreases |trace|
  {
    if n < |trace| {
      Continue(canon, trace[..|trace| - 1], n);
      assert trace[..|trace| - 1][..n] == trace[..n];
    } else {
      assert trace[..n] == trace;
    }
  }

  /** A published name is bound once: later in the run it names the same inode with the same bytes. */
  lemma {:induction false} BoundForGood(canon: Bytes -> bool, trace: seq<Event>, n: nat, k: Key)
    requires After(canon, trace).Some? && n <= |trace| && NoLoss(trace[n..])
    requires After(canon, trace[..n]).Some? && Final(k) in After(canon, trace[..n]).value.dir
    ensures var s, t := After(canon, trace[..n]).value, After(canon, trace).value;
      && Final(k) in t.dir && t.dir[Final(k)] == s.dir[Final(k)] < |t.files| && s.dir[Final(k)] < |s.files|
      && t.files[t.dir[Final(k)]].bytes == s.files[s.dir[Final(k)]].bytes
    decreases |trace|
  {
    ReachableInv(canon, trace);
    ReachableInv(canon, trace[..n]);
    BindingKept(canon, trace, n, k);
  }

  lemma {:induction false} BindingKept(canon: Bytes -> bool, trace: seq<Event>, n: nat, k: Key)
    requires After(canon, trace).Some? && n <= |trace| && NoLoss(trace[n..])
    requires After(canon, trace[..n]).Some? && Final(k) in After(canon, trace[..n]).value.dir
    ensures var s, t := After(canon, trace[..n]).value, After(canon, trace).value;
      && k in s.bound && k in t.bound && t.bound[k] == s.bound[k]
      && Final(k) in t.dir && t.dir[Final(k)] == s.dir[Final(k)]
    decreases |trace|
  {
    ReachableInv(canon, trace[..n]);
    if n < |trace| {
      var before, last := trace[..|trace| - 1], trace[|trace| - 1];
      assert before[..n] == trace[..n];
      assert NoLoss(before[n..]) by {
        forall i | 0 <= i < |before[n..]| ensures !before[n..][i].PowerLoss? {
          assert before[n..][i] == trace[n..][i];
        }
      }
      assert !last.PowerLoss? by { assert last == trace[n..][|trace| - 1 - n]; }
      BindingKept(canon, before, n, k);
      ReachableInv(canon, before);
      StepKeepsInv(canon, After(canon, before).value, last);
    } else {
      assert trace[..n] == trace;
    }
  }

  // ---------------------------------------------------------------- the store as a table of registers

  function TableOf(s: State): Table<Bytes> { Table(s.bound, s.durable, s.rooted, s.root.Anchored?) }

  /** What an event does to the table of registers: at most one operation. */
  function OpsOf(s: State, e: Event): seq<Op<Bytes>> {
    if e.PowerLoss? then [Loss(e.gone, Survivors(s, e.dir))]
    else if e.SyncParent? then [Anchor]
    else if !e.Do? || e.pid !in s.procs then []
    else
      var call, ph := s.procs[e.pid].call, s.procs[e.pid].phase;
      match e.action
      case SyncRootOfHome => [SyncRoot(s.homes)]
      case SyncExisting => [SyncHome(call.key.subject)]
      case SyncAndRelease => [SyncHome(call.key.subject)]
      case Link => if call.Write? && Final(call.key) !in s.dir then [Fill(call.key, call.raw)] else []
      case _ => []
  }

  lemma RunOne(t: Table<Bytes>, op: Op<Bytes>)
    requires Can(t, op)
    ensures Run(t, [op]) == Some(Step(t, op))
  {
    var ops: seq<Op<Bytes>> := [op];
    assert ops[..|ops| - 1] == [];
  }

  /** Steps that are no operation on the table. */
  predicate Silent(a: Action) { !a.SyncRootOfHome? && !a.SyncExisting? && !a.SyncAndRelease? && !a.Link? }

  lemma SilentIsNoOp(canon: Bytes -> bool, s: State, p: Pid, a: Action)
    requires Enabled(canon, s, Do(p, a)) && Silent(a)
    ensures TableOf(Apply(canon, s, Do(p, a))) == TableOf(s) && OpsOf(s, Do(p, a)) == []
  {
  }

  lemma SyncIsOp(canon: Bytes -> bool, s: State, p: Pid, a: Action)
    requires Inv(canon, s) && Enabled(canon, s, Do(p, a)) && !Silent(a) && !a.Link?
    ensures Run(TableOf(s), OpsOf(s, Do(p, a))) == Some(TableOf(Apply(canon, s, Do(p, a))))
  {
    var t, after := TableOf(s), TableOf(Apply(canon, s, Do(p, a)));
    if a.SyncRootOfHome? {
      RunOne(t, SyncRoot(s.homes));
      assert t.rooted + s.homes == after.rooted;
    } else {
      RunOne(t, SyncHome(s.procs[p].call.key.subject));
      assert Synced(t, s.procs[p].call.key.subject).durable == after.durable;
    }
  }

  lemma LinkIsOp(canon: Bytes -> bool, s: State, p: Pid, a: Action)
    requires Inv(canon, s) && Enabled(canon, s, Do(p, a)) && a.Link?
    ensures Run(TableOf(s), OpsOf(s, Do(p, a))) == Some(TableOf(Apply(canon, s, Do(p, a))))
  {
    assert PhaseOk(canon, s, s.procs[p].call, s.procs[p].phase);
    if Final(s.procs[p].call.key) !in s.dir { RunOne(TableOf(s), OpsOf(s, Do(p, a))[0]); }
  }

  function Survivors(s: State, dir: map<Name, nat>): set<Key> { set k | k in s.bound && Final(k) in dir }

  lemma SurvivorsMayStay(s: State, e: Event)
    requires e.PowerLoss? && LossAllowed(s, e.gone, e.homes, e.dir, e.files) && Valid(TableOf(s))
    ensures MayKeep(TableOf(s), e.gone, Survivors(s, e.dir))
  {
    var kept := Survivors(s, e.dir);
    forall k | k in kept ensures k.subject in e.homes { assert HomeOf(Final(k)) in e.homes; }
  }

  lemma LossIsOp(canon: Bytes -> bool, s: State, e: Event)
    requires Inv(canon, s) && Enabled(canon, s, e) && e.PowerLoss?
    ensures Run(TableOf(s), OpsOf(s, e)) == Some(TableOf(Apply(canon, s, e)))
  {
    SurvivorsMayStay(s, e);
    hide LossAllowed, PhaseOk, Links, Housed, Locked;
    RunOne(TableOf(s), Loss(e.gone, Survivors(s, e.dir)));
    assert Step(TableOf(s), Loss(e.gone, Survivors(s, e.dir))) == TableOf(Apply(canon, s, e));
  }

  lemma StepRefinesRegisters(canon: Bytes -> bool, s: State, e: Event)
    requires Inv(canon, s) && Enabled(canon, s, e)
    ensures Run(TableOf(s), OpsOf(s, e)) == Some(TableOf(Apply(canon, s, e)))
  {
    match e
    case MakeRoot =>
    case KillMaker =>
    case SyncParent => RunOne(TableOf(s), Anchor);
    case Spawn(_, _) =>
    case PowerLoss(_, _, _, _) => LossIsOp(canon, s, e);
    case Do(p, a) =>
      if Silent(a) { SilentIsNoOp(canon, s, p, a); }
      else if a.Link? { LinkIsOp(canon, s, p, a); }
      else { SyncIsOp(canon, s, p, a); }
  }

  /** The operations of the part of a run that follows its first `n` events. */
  ghost function OpsFrom(canon: Bytes -> bool, trace: seq<Event>, n: nat): seq<Op<Bytes>>
    requires n <= |trace| && After(canon, trace).Some?
    decreases |trace|
  {
    if n == |trace| then []
    else
      var before := trace[..|trace| - 1];
      OpsFrom(canon, before, n) + OpsOf(After(canon, before).value, trace[|trace| - 1])
  }

  /** Simulation: a run of any number of concurrent, crashing and power-cut calls is, from any of its moments on,
      a run of operations on a table of write-once registers. */
  lemma {:induction false} FilesRefineRegisters(canon: Bytes -> bool, trace: seq<Event>, n: nat)
    requires After(canon, trace).Some? && n <= |trace|
    ensures After(canon, trace[..n]).Some?
    ensures Run(TableOf(After(canon, trace[..n]).value), OpsFrom(canon, trace, n))
         == Some(TableOf(After(canon, trace).value))
    decreases |trace|
  {
    if n == |trace| {
      assert trace[..n] == trace;
    } else {
      var before, last := trace[..|trace| - 1], trace[|trace| - 1];
      assert before[..n] == trace[..n];
      FilesRefineRegisters(canon, before, n);
      ReachableInv(canon, before);
      var s := After(canon, before).value;
      StepRefinesRegisters(canon, s, last);
      RunConcat(TableOf(After(canon, trace[..n]).value), OpsFrom(canon, before, n), OpsOf(s, last));
    }
  }

  /** In particular every run of the files, from before the root is made, is a run of the registers from the empty
      table that the journey starts on. */
  lemma WholeRunRefinesRegisters(canon: Bytes -> bool, trace: seq<Event>)
    requires After(canon, trace).Some?
    ensures Run(Empty(), OpsFrom(canon, trace, 0)) == Some(TableOf(After(canon, trace).value))
  {
    FilesRefineRegisters(canon, trace, 0);
    assert trace[..0] == [];
    assert TableOf(INIT) == Empty();
  }

  ghost predicate FinishedAt(trace: seq<Event>, m: nat, p: Pid) { 0 < m <= |trace| && trace[m - 1] == Do(p, Finish) }

  lemma Prefixes(canon: Bytes -> bool, trace: seq<Event>, m: nat)
    requires After(canon, trace).Some? && 0 < m <= |trace|
    ensures After(canon, trace[..m - 1]).Some? && After(canon, trace[..m]).Some?
    ensures Enabled(canon, After(canon, trace[..m - 1]).value, trace[m - 1])
    ensures After(canon, trace[..m]).value == Apply(canon, After(canon, trace[..m - 1]).value, trace[m - 1])
    ensures Inv(canon, After(canon, trace[..m - 1]).value) && Inv(canon, After(canon, trace[..m]).value)
  {
    Continue(canon, trace, m);
    Continue(canon, trace, m - 1);
    assert trace[..m][..m - 1] == trace[..m - 1];
    ReachableInv(canon, trace[..m - 1]);
    ReachableInv(canon, trace[..m]);
  }

  /** The answer of a call that succeeds is the content of its register at that moment; the answer of a `write` is
      then covered by a sync of its directory. */
  lemma AnswerIsRegister(canon: Bytes -> bool, trace: seq<Event>, m: nat, p: Pid)
    requires After(canon, trace).Some? && FinishedAt(trace, m, p)
    ensures After(canon, trace[..m]).Some?
    ensures var s := After(canon, trace[..m]).value;
      && p in s.procs && s.procs[p].phase.Returned? && GoodBytes(canon, s.procs[p].phase.value)
      && var k := s.procs[p].call.key;
      && k in s.bound && s.procs[p].phase.value == s.bound[k] && (s.procs[p].call.Write? ==> k in s.durable)
  {
    hide After, Effect, CanDo, PhaseOk, Links, Locked, Housed;
    Prefixes(canon, trace, m);
    var before := After(canon, trace[..m - 1]).value;
    FinishReturns(canon, before, p);
    StepMoves(canon, before, p, Finish);
  }

  predicate Publication(a: Action) { a.SeeExisting? || a.Link? }
  predicate HomeSync(a: Action) { a.SyncExisting? || a.SyncAndRelease? }

  predicate PastSync(ph: Phase) { ph.Opening? || ph.Opened? || ph.Reading? || ph.Returned? }
  predicate PastPublication(ph: Phase) { ph.ExistsSync? || ph.Unlinking? || ph.Syncing? || PastSync(ph) }

  /** How a process in a phase past its publication, or past its sync, got there. */
  lemma PublicationHistory(canon: Bytes -> bool, s: State, p: Pid, a: Action)
    requires Enabled(canon, s, Do(p, a)) && s.procs[p].call.Write?
    requires PastPublication(Apply(canon, s, Do(p, a)).procs[p].phase)
    ensures Publication(a) || PastPublication(s.procs[p].phase)
  {
  }

  lemma SyncHistory(canon: Bytes -> bool, s: State, p: Pid, a: Action)
    requires Enabled(canon, s, Do(p, a)) && s.procs[p].call.Write?
    requires PastSync(Apply(canon, s, Do(p, a)).procs[p].phase)
    ensures HomeSync(a) || PastSync(s.procs[p].phase)
  {
  }

  /** The publication, or the sync, of a write. */
  predicate Milestone(e: Event, p: Pid, sync: bool) {
    e.Do? && e.pid == p && if sync then HomeSync(e.action) else Publication(e.action)
  }

  predicate Past(s: State, p: Pid, sync: bool) {
    && p in s.procs && s.procs[p].call.Write?
    && if sync then PastSync(s.procs[p].phase) else PastPublication(s.procs[p].phase)
  }

  lemma StepHistory(canon: Bytes -> bool, s: State, e: Event, p: Pid, sync: bool)
    requires Enabled(canon, s, e) && Past(Apply(canon, s, e), p, sync)
    ensures Milestone(e, p, sync) || Past(s, p, sync)
  {
    if e.Do? {
      StepMoves(canon, s, e.pid, e.action);
      if e.pid == p {
        if sync { SyncHistory(canon, s, p, e.action); } else { PublicationHistory(canon, s, p, e.action); }
      }
    }
  }

  lemma {:induction false} FindMilestone(canon: Bytes -> bool, trace: seq<Event>, p: Pid, sync: bool)
      returns (i: nat)
    requires After(canon, trace).Some? && Past(After(canon, trace).value, p, sync)
    ensures i < |trace| && Milestone(trace[i], p, sync)
  {
    i := |trace| - 1;
    StepHistory(canon, After(canon, trace[..i]).value, trace[i], p, sync);
    if !Milestone(trace[i], p, sync) { i := FindMilestone(canon, trace[..i], p, sync); }
  }

  lemma SyncFollowsPublication(canon: Bytes -> bool, s: State, e: Event, p: Pid)
    requires Inv(canon, s) && Enabled(canon, s, e) && Milestone(e, p, true)
    ensures Past(s, p, false) && OpsOf(s, e) == [SyncHome(s.procs[p].call.key.subject)]
  {
    assert PhaseOk(canon, s, s.procs[p].call, s.procs[p].phase);
  }

  /** A `write` that succeeds has acted on the table three times: it published its artifact or found one, then
      synced its directory, then read its register. */
  lemma WriteIsFillSyncRead(canon: Bytes -> bool, trace: seq<Event>, m: nat, p: Pid) returns (i: nat, j: nat)
    requires After(canon, trace).Some? && FinishedAt(trace, m, p) && After(canon, trace[..m]).Some?
    requires p in After(canon, trace[..m]).value.procs && After(canon, trace[..m]).value.procs[p].call.Write?
    ensures i < j < m && Milestone(trace[i], p, false) && Milestone(trace[j], p, true)
    ensures After(canon, trace[..j]).Some?
    ensures OpsOf(After(canon, trace[..j]).value, trace[j])
         == [SyncHome(After(canon, trace[..m]).value.procs[p].call.key.subject)]
  {
    hide After, Enabled, Apply, OpsOf, Inv;
    AnswerIsRegister(canon, trace, m, p);
    j := FindMilestone(canon, trace[..m], p, true);
    Prefixes(canon, trace, j + 1);
    SyncFollowsPublication(canon, After(canon, trace[..j]).value, trace[j], p);
    assert trace[..m][..j] == trace[..j];
    CallKept(canon, trace[..m], j, p);
    i := FindMilestone(canon, trace[..j], p, false);
  }

  /** A process keeps its call. */
  lemma {:induction false} CallKept(canon: Bytes -> bool, trace: seq<Event>, n: nat, p: Pid)
    requires After(canon, trace).Some? && n <= |trace| && After(canon, trace[..n]).Some?
    requires p in After(canon, trace[..n]).value.procs
    ensures var s, t := After(canon, trace[..n]).value, After(canon, trace).value;
      p in t.procs && t.procs[p].call == s.procs[p].call
    decreases |trace|
  {
    if n == |trace| {
      assert trace[..n] == trace;
    } else {
      var before, last := trace[..|trace| - 1], trace[|trace| - 1];
      assert before[..n] == trace[..n];
      CallKept(canon, before, n, p);
      if last.Do? { StepMoves(canon, After(canon, before).value, last.pid, last.action); }
    }
  }

  // ---------------------------------------------------------------- power loss

  lemma NoLossWithin(trace: seq<Event>, m: nat, l: nat, n: nat)
    requires m <= l <= n <= |trace| && NoLoss(trace[m..n])
    ensures NoLoss(trace[m..l])
    ensures m < n ==> !trace[n - 1].PowerLoss?
  {
    assert trace[m..l] == trace[m..n][..l - m];
    if m < n { assert trace[n - 1] == trace[m..n][n - 1 - m]; }
  }

  lemma StepKeepsSynced(canon: Bytes -> bool, s: State, e: Event, k: Key)
    requires Inv(canon, s) && Enabled(canon, s, e) && !e.PowerLoss? && k in s.durable
    ensures var after := Apply(canon, s, e);
      k in s.bound && k in after.durable && k in after.bound && after.bound[k] == s.bound[k]
  {
    StepKeepsInv(canon, s, e);
  }

  lemma {:induction false} SyncedStays(canon: Bytes -> bool, trace: seq<Event>, m: nat, n: nat, k: Key)
    requires After(canon, trace).Some? && m <= n <= |trace| && NoLoss(trace[m..n])
    requires After(canon, trace[..m]).Some? && k in After(canon, trace[..m]).value.durable
    ensures After(canon, trace[..n]).Some?
    ensures var s, t := After(canon, trace[..m]).value, After(canon, trace[..n]).value;
      k in s.bound && k in t.durable && k in t.bound && t.bound[k] == s.bound[k]
    decreases n
  {
    ReachableInv(canon, trace[..m]);
    if m < n {
      NoLossWithin(trace, m, n - 1, n);
      SyncedStays(canon, trace, m, n - 1, k);
      Prefixes(canon, trace, n);
      StepKeepsSynced(canon, After(canon, trace[..n - 1]).value, trace[n - 1], k);
    }
  }

  /** An artifact covered by all three syncs keeps its value through everything that follows, power losses included. */
  lemma SafeForGood(canon: Bytes -> bool, trace: seq<Event>, n: nat, k: Key)
    requires After(canon, trace).Some? && n <= |trace| && After(canon, trace[..n]).Some?
    requires Safe(TableOf(After(canon, trace[..n]).value), k)
    ensures var s, t := After(canon, trace[..n]).value, After(canon, trace).value;
      Safe(TableOf(t), k) && k in s.bound && k in t.bound && t.bound[k] == s.bound[k]
  {
    FilesRefineRegisters(canon, trace, n);
    ReachableInv(canon, trace[..n]);
    RunKeepsSafe(TableOf(After(canon, trace[..n]).value), OpsFrom(canon, trace, n), k);
  }

  /** The two syncs above a subject's directory: of its entry in the root, and of the root's in its parent. */
  predicate Grounded(s: State, subject: string) { subject in s.rooted && s.root.Anchored? }

  /** Once a write of `k` has been acknowledged, and both syncs above its directory are done before any loss of
      power, the name stands for the acknowledged value at every later moment. */
  lemma AcknowledgedStays(canon: Bytes -> bool, trace: seq<Event>, m: nat, p: Pid, n: nat, l: nat)
    requires After(canon, trace).Some? && FinishedAt(trace, m, p) && m <= n <= |trace| && m <= l <= |trace|
    requires After(canon, trace[..m]).Some? && After(canon, trace[..n]).Some?
    requires p in After(canon, trace[..m]).value.procs && After(canon, trace[..m]).value.procs[p].call.Write?
    requires NoLoss(trace[m..n])
    requires Grounded(After(canon, trace[..n]).value, After(canon, trace[..m]).value.procs[p].call.key.subject)
    ensures After(canon, trace[..l]).Some?
    ensures var s, t := After(canon, trace[..m]).value, After(canon, trace[..l]).value;
      && s.procs[p].phase.Returned? && s.procs[p].call.key in t.bound
      && t.bound[s.procs[p].call.key] == s.procs[p].phase.value
  {
    var k := After(canon, trace[..m]).value.procs[p].call.key;
    AnswerIsRegister(canon, trace, m, p);
    Continue(canon, trace, l);
    if l <= n {
      NoLossWithin(trace, m, l, n);
      SyncedStays(canon, trace, m, l, k);
    } else {
      SyncedStays(canon, trace, m, n, k);
      assert trace[..l][..n] == trace[..n];
      SafeForGood(canon, trace[..l], n, k);
    }
  }

  /** Power may fail any number of times: once a write of a name has been acknowledged, and both syncs above its
      directory are done before the first loss, every later call on that name that succeeds, read or write,
      returns the value of that write. */
  lemma AcknowledgedWritesAgree(canon: Bytes -> bool, trace: seq<Event>, m: nat, p: Pid, n: nat, l: nat, q: Pid)
    requires After(canon, trace).Some? && FinishedAt(trace, m, p) && FinishedAt(trace, l, q)
    requires m <= n <= |trace| && m <= l
    requires After(canon, trace[..m]).Some? && After(canon, trace[..n]).Some? && After(canon, trace[..l]).Some?
    requires var s, t := After(canon, trace[..m]).value, After(canon, trace[..l]).value;
      && p in s.procs && q in t.procs && s.procs[p].call.Write? && t.procs[q].call.key == s.procs[p].call.key
      && NoLoss(trace[m..n]) && Grounded(After(canon, trace[..n]).value, s.procs[p].call.key.subject)
    ensures var s, t := After(canon, trace[..m]).value, After(canon, trace[..l]).value;
      && s.procs[p].phase.Returned? && t.procs[q].phase.Returned?
      && s.procs[p].phase.value == t.procs[q].phase.value
  {
    AcknowledgedStays(canon, trace, m, p, n, l);
    AnswerIsRegister(canon, trace, l, q);
  }

  /** The loss of power that leaves exactly the published names in `kept`, or no store at all. */
  function HomesKept(s: State, gone: bool, kept: set<Key>): set<string> {
    if gone then {} else s.rooted + set k | k in kept :: k.subject
  }

  ghost function DirKept(s: State, kept: set<Key>): map<Name, nat> {
    map n | n in s.dir && n.Final? && n.key in kept :: s.dir[n]
  }

  ghost function FilesKept(s: State, kept: set<Key>): seq<File> {
    seq(|s.files|, i requires 0 <= i < |s.files| => s.files[i].(nlink := |NamesOf(DirKept(s, kept), i)|))
  }

  ghost function LossOf(s: State, gone: bool, kept: set<Key>): Event {
    PowerLoss(gone, HomesKept(s, gone, kept), DirKept(s, kept), FilesKept(s, kept))
  }

  lemma DirKeptIs(canon: Bytes -> bool, s: State, gone: bool, kept: set<Key>)
    requires Inv(canon, s) && MayKeep(TableOf(s), gone, kept)
    ensures forall k :: Final(k) in DirKept(s, kept) <==> k in kept
    ensures forall n :: n in DirKept(s, kept) ==> HomeOf(n) in HomesKept(s, gone, kept) && s.dir[n] < |s.files|
    ensures HomesKept(s, gone, kept) <= s.homes && (!gone ==> s.rooted <= HomesKept(s, gone, kept))
  {
    forall k | k in kept ensures k.subject in s.homes { assert HomeOf(Final(k)) in s.homes; }
  }

  lemma LossIsAllowed(canon: Bytes -> bool, s: State, gone: bool, kept: set<Key>)
    requires Inv(canon, s) && MayKeep(TableOf(s), gone, kept)
    ensures LossAllowed(s, gone, HomesKept(s, gone, kept), DirKept(s, kept), FilesKept(s, kept))
  {
    DirKeptIs(canon, s, gone, kept);
    forall k | k in s.durable && k.subject in HomesKept(s, gone, kept) ensures Final(k) in s.dir && k in kept {
    }
  }

  lemma TableAfterLoss(canon: Bytes -> bool, s: State, gone: bool, homes: set<string>, dir: map<Name, nat>,
                       files: seq<File>, kept: set<Key>)
    requires Inv(canon, s) && Enabled(canon, s, PowerLoss(gone, homes, dir, files))
    requires forall k :: Final(k) in dir <==> k in kept
    ensures TableOf(Apply(canon, s, PowerLoss(gone, homes, dir, files))) == Step(TableOf(s), Loss(gone, kept))
  {
  }

  /** Every loss that the registers allow can happen to the files. */
  lemma EveryLossIsPossible(canon: Bytes -> bool, s: State, gone: bool, kept: set<Key>)
    requires Inv(canon, s) && MayKeep(TableOf(s), gone, kept)
    ensures Enabled(canon, s, LossOf(s, gone, kept))
    ensures TableOf(Apply(canon, s, LossOf(s, gone, kept))) == Step(TableOf(s), Loss(gone, kept))
  {
    LossIsAllowed(canon, s, gone, kept);
    DirKeptIs(canon, s, gone, kept);
    hide Inv, LossAllowed, DirKept, HomesKept, FilesKept, Apply;
    TableAfterLoss(canon, s, gone, HomesKept(s, gone, kept), DirKept(s, kept), FilesKept(s, kept), kept);
  }

  /** A published name outlives every possible loss of power exactly when a sync of its directory has covered it, a
      sync of the root the directory, and a sync of the parent the root. */
  lemma SurvivesLossIffSafe(canon: Bytes -> bool, trace: seq<Event>, k: Key)
    requires After(canon, trace).Some? && k in After(canon, trace).value.bound
    ensures var s := After(canon, trace).value;
      (forall e: Event :: e.PowerLoss? && Enabled(canon, s, e) ==> k in Apply(canon, s, e).bound)
      <==> Safe(TableOf(s), k)
  {
    ReachableInv(canon, trace);
    var s := After(canon, trace).value;
    if !Safe(TableOf(s), k) {
      UnsafeMayGo(TableOf(s), k);
      var gone, kept := !s.root.Anchored?, Without(TableOf(s), k);
      EveryLossIsPossible(canon, s, gone, kept);
      var e := LossOf(s, gone, kept);
      assert k !in Apply(canon, s, e).bound;
    } else {
      forall e: Event | e.PowerLoss? && Enabled(canon, s, e) ensures k in Apply(canon, s, e).bound {
        StepRefinesRegisters(canon, s, e);
        RunKeepsSafe(TableOf(s), OpsOf(s, e), k);
      }
    }
  }

  ghost predicate StandsFor(canon: Bytes -> bool, trace: seq<Event>, k: Key, value: Bytes) {
    After(canon, trace).Some? ==> k in After(canon, trace).value.bound && After(canon, trace).value.bound[k] == value
  }

  /** From its acknowledgement to the first loss of power, a write is acknowledged for good, whatever follows,
      exactly when both syncs above its directory are done. */
  lemma AcknowledgedForGoodIff(canon: Bytes -> bool, trace: seq<Event>, m: nat, p: Pid)
    requires After(canon, trace).Some? && FinishedAt(trace, m, p) && NoLoss(trace[m..])
    requires After(canon, trace[..m]).Some?
    requires p in After(canon, trace[..m]).value.procs && After(canon, trace[..m]).value.procs[p].call.Write?
    ensures var s := After(canon, trace[..m]).value; var k := s.procs[p].call.key;
      && s.procs[p].phase.Returned?
      && ((forall more :: StandsFor(canon, trace + more, k, s.procs[p].phase.value))
          <==> Grounded(After(canon, trace).value, k.subject))
  {
    AnswerIsRegister(canon, trace, m, p);
    var s, t := After(canon, trace[..m]).value, After(canon, trace).value;
    var k, n := s.procs[p].call.key, |trace|;
    assert trace[..n] == trace && trace[m..n] == trace[m..];
    SyncedStays(canon, trace, m, n, k);
    if Grounded(t, k.subject) {
      forall more ensures StandsFor(canon, trace + more, k, s.procs[p].phase.value) {
        if After(canon, trace + more).Some? {
          assert (trace + more)[..n] == trace;
          SafeForGood(canon, trace + more, n, k);
        }
      }
    } else {
      ReachableInv(canon, trace);
      var gone, kept := !t.root.Anchored?, Without(TableOf(t), k);
      UnsafeMayGo(TableOf(t), k);
      EveryLossIsPossible(canon, t, gone, kept);
      var more := [LossOf(t, gone, kept)];
      Extend(canon, trace, more[0]);
      assert !StandsFor(canon, trace + more, k, s.procs[p].phase.value);
    }
  }

  lemma Extend(canon: Bytes -> bool, trace: seq<Event>, e: Event)
    requires After(canon, trace).Some? && Enabled(canon, After(canon, trace).value, e)
    ensures After(canon, trace + [e]) == Some(Apply(canon, After(canon, trace).value, e))
  {
    var more := trace + [e];
    assert more[..|more| - 1] == trace && more[|more| - 1] == e;
  }

  /** A directory's entry in the root is covered exactly when, at some moment when the directory was there, a
      `write` that had just made its own subject's directory synced the root, and the root was not lost since. */
  lemma {:induction false} RootedIff(canon: Bytes -> bool, trace: seq<Event>, subject: string)
    requires After(canon, trace).Some?
    ensures subject in After(canon, trace).value.rooted <==>
      exists i :: 0 <= i < |trace| && SyncsRootOf(canon, trace, i, subject) && RootStays(trace, i)
  {
    hide Inv, Enabled, Apply;
    if trace != [] {
      var before, last := trace[..|trace| - 1], |trace| - 1;
      RootedIff(canon, before, subject);
      ReachableInv(canon, before);
      var s := After(canon, before).value;
      forall i | 0 <= i < last
        ensures SyncsRootOf(canon, trace, i, subject) <==> SyncsRootOf(canon, before, i, subject)
        ensures RootStays(trace, i) <==> RootStays(before, i) && !RootLost(trace[last])
      {
        assert before[..i] == trace[..i];
      }
      RootedStep(canon, s, trace[last], subject);
      assert SyncsRootOf(canon, trace, last, subject) <==>
        trace[last].Do? && trace[last].action.SyncRootOfHome? && subject in s.homes;
      if subject in s.rooted {
        var i :| 0 <= i < |before| && SyncsRootOf(canon, before, i, subject) && RootStays(before, i);
        assert SyncsRootOf(canon, trace, i, subject);
      }
    }
  }

  ghost predicate SyncsRootOf(canon: Bytes -> bool, trace: seq<Event>, i: nat, subject: string)
    requires i < |trace|
  {
    && trace[i].Do? && trace[i].action.SyncRootOfHome?
    && After(canon, trace[..i]).Some? && subject in After(canon, trace[..i]).value.homes
  }

  predicate RootLost(e: Event) { e.PowerLoss? && e.gone }

  ghost predicate RootStays(trace: seq<Event>, i: nat) { forall j :: i < j < |trace| ==> !RootLost(trace[j]) }

  lemma RootSyncStep(canon: Bytes -> bool, s: State, p: Pid, a: Action)
    requires Enabled(canon, s, Do(p, a))
    ensures Apply(canon, s, Do(p, a)).rooted == if a.SyncRootOfHome? then s.homes else s.rooted
  {
  }

  lemma RootedStep(canon: Bytes -> bool, s: State, e: Event, subject: string)
    requires Inv(canon, s) && Enabled(canon, s, e)
    ensures subject in Apply(canon, s, e).rooted <==>
      !RootLost(e) && (subject in s.rooted || (e.Do? && e.action.SyncRootOfHome? && subject in s.homes))
  {
    hide Effect, CanDo, PhaseOk, Published, Links;
    if e.Do? { RootSyncStep(canon, s, e.pid, e.action); }
  }

  // ---------------------------------------------------------------- a crash between link and unlink

  /** Inode `i` has two names and nobody is left to remove one; whoever holds the lock is still
      scanning and has not come to name `n` of that inode. */
  ghost predicate Stuck(s: State, i: nat, n: Name) {
    && i < |s.files| && s.files[i].nlink != 1 && n in s.dir && s.dir[n] == i
    && (forall p :: p in s.procs && HoldsLock(s.procs[p].phase) ==>
          s.procs[p].phase.Scanning? && n !in s.procs[p].phase.seen)
    && (forall p :: p in s.procs && s.procs[p].phase.Reading? ==> s.procs[p].phase.ino != i)
  }

  /** Killing a writer between its link and its unlink leaves the store stuck. */
  lemma KilledBeforeUnlink(canon: Bytes -> bool, s: State, p: Pid)
    requires Inv(canon, s) && p in s.procs && s.procs[p].phase.Unlinking?
    requires Final(s.procs[p].call.key) in s.dir && s.dir[Final(s.procs[p].call.key)] == s.procs[p].phase.ino
    ensures Enabled(canon, s, Do(p, Kill))
    ensures Stuck(Apply(canon, s, Do(p, Kill)), s.procs[p].phase.ino, Final(s.procs[p].call.key))
  {
    var call, ph := s.procs[p].call, s.procs[p].phase;
    assert PhaseOk(canon, s, call, ph);
    var temp := Partial(call.key.subject, ph.token);
    assert {temp, Final(call.key)} <= NamesOf(s.dir, ph.ino);
    if s.files[ph.ino].nlink == 1 { SoleName(s, ph.ino, temp); }
    forall q | q in s.procs && s.procs[q].phase.Reading?
      ensures s.procs[q].phase.ino != ph.ino
    {
      assert PhaseOk(canon, s, s.procs[q].call, s.procs[q].phase);
    }
  }

  /** A step of a stuck store is a quiet one, and no scan passes the name. */
  lemma StuckStep(canon: Bytes -> bool, s: State, p: Pid, a: Action, i: nat, n: Name)
    requires Inv(canon, s) && Stuck(s, i, n) && Enabled(canon, s, Do(p, a))
    ensures Quiet(a) && !a.ScanDone? && a != ScanEntry(n)
    ensures a.Stat? ==> s.procs[p].phase.ino != i
  {
  }

  /** What the next phase of a process may be in a stuck store. */
  predicate StuckPhase(ph: Phase, i: nat, n: Name) {
    && (HoldsLock(ph) ==> ph.Scanning? && n !in ph.seen)
    && (ph.Reading? ==> ph.ino != i)
  }

  lemma StuckReadPhase(canon: Bytes -> bool, s: State, p: Pid, a: Action, i: nat, n: Name)
    requires Enabled(canon, s, Do(p, a)) && Reads(a) && StuckPhase(s.procs[p].phase, i, n)
    requires a.Stat? ==> s.procs[p].phase.ino != i
    ensures StuckPhase(Apply(canon, s, Do(p, a)).procs[p].phase, i, n)
  {
  }

  lemma StuckOwnPhase(canon: Bytes -> bool, s: State, p: Pid, a: Action, i: nat, n: Name)
    requires Enabled(canon, s, Do(p, a)) && Quiet(a) && !Reads(a) && !a.ScanDone? && a != ScanEntry(n)
    requires StuckPhase(s.procs[p].phase, i, n)
    ensures StuckPhase(Apply(canon, s, Do(p, a)).procs[p].phase, i, n)
  {
  }

  lemma DoStaysStuck(canon: Bytes -> bool, s: State, p: Pid, a: Action, i: nat, n: Name)
    requires Inv(canon, s) && Stuck(s, i, n) && Enabled(canon, s, Do(p, a))
    ensures Stuck(Apply(canon, s, Do(p, a)), i, n)
    ensures Apply(canon, s, Do(p, a)).dir == s.dir && Apply(canon, s, Do(p, a)).files == s.files
  {
    hide Inv, CanDo, Effect, Apply;
    StuckStep(canon, s, p, a, i, n);
    QuietMoves(canon, s, p, a);
    assert StuckPhase(s.procs[p].phase, i, n);
    if Reads(a) { StuckReadPhase(canon, s, p, a, i, n); } else { StuckOwnPhase(canon, s, p, a, i, n); }
  }

  /** From then on no step changes a file or a name, in particular the store never grows again,
      and no reader ever gets past the link-count check of that inode. */
  lemma StuckStays(canon: Bytes -> bool, s: State, e: Event, i: nat, n: Name)
    requires Inv(canon, s) && Stuck(s, i, n) && Enabled(canon, s, e) && !e.PowerLoss?
    ensures Stuck(Apply(canon, s, e), i, n)
    ensures Apply(canon, s, e).dir == s.dir && Apply(canon, s, e).files == s.files
  {
    if e.Do? { DoStaysStuck(canon, s, e.pid, e.action, i, n); }
  }

  lemma {:induction false} StuckForever(canon: Bytes -> bool, trace: seq<Event>, from: nat, i: nat, n: Name)
    requires After(canon, trace).Some? && from <= |trace| && NoLoss(trace[from..])
    requires After(canon, trace[..from]).Some? && Stuck(After(canon, trace[..from]).value, i, n)
    ensures var s, t := After(canon, trace[..from]).value, After(canon, trace).value;
      && Stuck(t, i, n) && t.dir == s.dir && t.files == s.files && t.bound == s.bound
      && (forall p :: p in t.procs && n == Final(t.procs[p].call.key) && t.procs[p].phase.Returned? ==>
            p in s.procs && s.procs[p] == t.procs[p])
    decreases |trace|
  {
    if from == |trace| {
      assert trace[..from] == trace;
    } else {
      var before, last := trace[..|trace| - 1], trace[|trace| - 1];
      assert before[..from] == trace[..from];
      assert NoLoss(before[from..]) by {
        forall j | 0 <= j < |before[from..]| ensures !before[from..][j].PowerLoss? {
          assert before[from..][j] == trace[from..][j];
        }
      }
      assert !last.PowerLoss? by { assert last == trace[from..][|trace| - 1 - from]; }
      StuckForever(canon, before, from, i, n);
      ReachableInv(canon, before);
      var mid := After(canon, before).value;
      StuckStays(canon, mid, last, i, n);
      StuckReturnsNothing(canon, mid, last, i, n);
    }
  }

  lemma StuckReturnsNothing(canon: Bytes -> bool, s: State, e: Event, i: nat, n: Name)
    requires Inv(canon, s) && Stuck(s, i, n) && Enabled(canon, s, e) && !e.PowerLoss?
    ensures Apply(canon, s, e).bound == s.bound
    ensures var after := Apply(canon, s, e);
      forall p :: p in after.procs && n == Final(after.procs[p].call.key) && after.procs[p].phase.Returned? ==>
        p in s.procs && s.procs[p] == after.procs[p]
  {
    if e.Do? {
      var p, a := e.pid, e.action;
      assert PhaseOk(canon, s, s.procs[p].call, s.procs[p].phase);
      StuckStep(canon, s, p, a, i, n);
      QuietMoves(canon, s, p, a);
      StepMoves(canon, s, p, a);
    }
  }

  /** While a writer stands between its link and its unlink, a reader that has opened the new name
      can only be refused (or killed): the next thing it learns is that the file is unavailable. */
  lemma ReaderBetweenLinkAndUnlink(canon: Bytes -> bool, s: State, w: Pid, r: Pid, a: Action)
    requires Inv(canon, s) && w in s.procs && r in s.procs
    requires s.procs[w].phase.Unlinking? && s.procs[r].call.key == s.procs[w].call.key
    requires Final(s.procs[w].call.key) in s.dir && s.dir[Final(s.procs[w].call.key)] == s.procs[w].phase.ino
    requires s.procs[r].phase.Opened? || s.procs[r].phase.Reading?
    requires Enabled(canon, s, Do(r, a))
    ensures s.procs[r].phase.Opened? && (a == Fail(Unavailable) || a == Kill)
  {
    var call, ph := s.procs[w].call, s.procs[w].phase;
    assert PhaseOk(canon, s, call, ph);
    assert PhaseOk(canon, s, s.procs[r].call, s.procs[r].phase);
    assert {Partial(call.key.subject, ph.token), Final(call.key)} <= NamesOf(s.dir, ph.ino);
    if s.files[ph.ino].nlink == 1 { SoleName(s, ph.ino, Final(call.key)); }
  }

  // ---------------------------------------------------------------- refinement

  /** A `write` fills its own empty register with its own value. */
  ghost predicate FillsOwn(s: State, after: State, p: Pid) {
    && p in s.procs && s.procs[p].call.Write? && s.procs[p].call.key !in s.bound
    && after.bound == s.bound[s.procs[p].call.key := s.procs[p].call.raw]
  }

  /** A call returns the content of its register; a `read` reports Missing only when it is empty. */
  ghost predicate Answers(s: State, after: State, p: Pid)
    requires p in s.procs && p in after.procs
  {
    var call, ph := s.procs[p].call, after.procs[p].phase;
    && (ph.Returned? ==> call.key in s.bound && ph.value == s.bound[call.key])
    && (ph == Raised(Missing) ==> call.Read? && call.key !in s.bound)
  }

  lemma StepBinds(canon: Bytes -> bool, s: State, p: Pid, a: Action)
    requires Inv(canon, s) && Enabled(canon, s, Do(p, a))
    ensures var after := Apply(canon, s, Do(p, a)); after.bound == s.bound || FillsOwn(s, after, p)
  {
    assert PhaseOk(canon, s, s.procs[p].call, s.procs[p].phase);
    if Quiet(a) { QuietMoves(canon, s, p, a); }
  }

  /** The store is a table of write-once registers: a step either leaves every register alone, or
      a `write` fills its own empty register with its own value, and every call answers from the table. */
  lemma RefinesRegisters(canon: Bytes -> bool, s: State, p: Pid, a: Action)
    requires Inv(canon, s) && Enabled(canon, s, Do(p, a))
    ensures var after := Apply(canon, s, Do(p, a));
      && (after.bound == s.bound || FillsOwn(s, after, p))
      && p in after.procs && Answers(s, after, p)
  {
    StepBinds(canon, s, p, a);
    StepMoves(canon, s, p, a);
    if a.Finish? { FinishReturns(canon, s, p); }
    if a == Fail(Missing) { assert PhaseOk(canon, s, s.procs[p].call, s.procs[p].phase); }
  }
}
