/**
 At-most-once submission of the holdout job: scripts/watch_transformer_holdout.py.

 Any number of runs, concurrent or one after another, share one execution directory. A run checks that
 the four records of an earlier attempt are absent, records that it supervises, and may then call
 `create_once` as often as the watcher asks. Each system call is one step; a run may raise or be killed
 before any step, and the machine may lose power, which ends every run and drops any record whose
 directory entry was not synced.
 */
module HoldoutCreation {
  import opened Wrappers

  const CREATION_SECONDS: int := 90
  const ACCESS_RESERVE: real := 300.0
  const OBSERVATION_RESERVE: real := 30.0

  datatype Name = Supervision | Attempt | Outcome | Receipt
  const CHECKED: seq<Name> := [Supervision, Attempt, Outcome, Receipt]

  /** A record in the directory: the run that created it, whether its content was flushed, and whether a
      directory sync has made the entry survive a power loss. */
  datatype Entry = Entry(owner: nat, whole: bool, durable: bool)

  /** One invocation of `create_once`: its start on the monotonic clock and its admission budget. */
  datatype Call = NoCall | Call(started: real, remaining: real)

  /** The decision taken after the intent is durable: the timeout and the clock readings it used. */
  datatype Decision = Decision(timeout: int, mono: real, now: real)

  datatype Phase =
    | Checking(next: nat)
    | Watching
    | Reserving(call: Call)
    | Opening(name: Name, call: Call)
    | Writing(name: Name, call: Call)
    | SyncingDir(name: Name, call: Call)
    | Confirming(call: Call)
    | Issuing(call: Call, decision: Decision)
    | Running(call: Call, decision: Decision)
    | Gone

  datatype Proc = Proc(submit: bool, expires: real, phase: Phase)

  /** A command that was given to the provider. */
  datatype Issue = Issue(pid: nat, call: Call, decision: Decision, expires: real, at: real)

  datatype State = State(files: map<Name, Entry>, procs: map<nat, Proc>, mono: real, now: real, issued: seq<Issue>)

  datatype Event =
    | Spawn(pid: nat, submit: bool)
    | Check(pid: nat)
    | Access(pid: nat, expires: real)
    | Begin(pid: nat, remaining: real)
    | Reserve(pid: nat)
    | Open(pid: nat)
    | Flush(pid: nat)
    | SyncDir(pid: nat)
    | Confirm(pid: nat)
    | Submit(pid: nat)
    | Return(pid: nat)
    | WriteReceipt(pid: nat)
    | Raise(pid: nat, caught: bool)
    | Tick(passed: real, now: real)
    | PowerLoss(kept: set<Name>, mono: real)

  // ---------------------------------------------------------------- reserves

  /** Python's int() on a float: truncation toward zero. */
  function Truncate(x: real): int { if x >= 0.0 then x.Floor else -((-x).Floor) }

  function Timeout(call: Call, mono: real): int
    requires call.Call?
  {
    var left := Truncate(call.remaining - (mono - call.started) - OBSERVATION_RESERVE);
    if left < CREATION_SECONDS then left else CREATION_SECONDS
  }

  /** `terminal` is the proposal's create_to_terminal_seconds. */
  predicate AccessLeft(terminal: real, expires: real, now: real) { expires - now >= terminal + ACCESS_RESERVE }

  predicate MayProceed(terminal: real, call: Call, expires: real, mono: real, now: real) {
    call.Call? && Timeout(call, mono) >= 1 && AccessLeft(terminal, expires, now)
  }

  // ---------------------------------------------------------------- steps

  predicate At(s: State, p: nat, ph: Phase) { p in s.procs && s.procs[p].phase == ph }

  /** Inside `create_once` an exception may be caught by the watcher; after the command has been given a
      failed outcome record always is. */
  predicate Catchable(ph: Phase) {
    match ph
    case Reserving(_) => true
    case Confirming(_) => true
    case Opening(n, c) => c.Call?
    case Writing(n, c) => c.Call?
    case SyncingDir(n, c) => c.Call?
    case _ => false
  }

  predicate Enabled(terminal: real, s: State, e: Event) {
    match e
    case Spawn(p, _) => p !in s.procs
    case Check(p) => p in s.procs && s.procs[p].phase.Checking? && s.procs[p].phase.next < |CHECKED|
    case Access(p, expires) => At(s, p, Checking(|CHECKED|))
      && (s.procs[p].submit ==> AccessLeft(terminal, expires, s.now))
    case Begin(p, _) => At(s, p, Watching) && s.procs[p].submit
    case Reserve(p) =>
      p in s.procs && s.procs[p].phase.Reserving?
      && MayProceed(terminal, s.procs[p].phase.call, s.procs[p].expires, s.mono, s.now)
    case Open(p) => p in s.procs && s.procs[p].phase.Opening? && s.procs[p].phase.name !in s.files
    case Flush(p) => p in s.procs && s.procs[p].phase.Writing?
    case SyncDir(p) => p in s.procs && s.procs[p].phase.SyncingDir?
    case Confirm(p) =>
      p in s.procs && s.procs[p].phase.Confirming?
      && MayProceed(terminal, s.procs[p].phase.call, s.procs[p].expires, s.mono, s.now)
    case Submit(p) => p in s.procs && s.procs[p].phase.Issuing?
    case Return(p) => p in s.procs && s.procs[p].phase.Running?
    case WriteReceipt(p) => At(s, p, Watching)
    case Raise(p, caught) => p in s.procs && !s.procs[p].phase.Gone? && (caught ==> Catchable(s.procs[p].phase))
    case Tick(passed, _) => passed >= 0.0
    case PowerLoss(kept, _) =>
      && (forall n :: n in s.files && s.files[n].durable ==> n in kept)
      && (forall n :: n in kept ==> n in s.files)
  }

  function Move(s: State, p: nat, ph: Phase): State
    requires p in s.procs
  {
    s.(procs := s.procs[p := s.procs[p].(phase := ph)])
  }

  function AllDurable(files: map<Name, Entry>): map<Name, Entry> {
    map n | n in files :: files[n].(durable := true)
  }

  /** Where a run continues once a record is durable. */
  function Recorded(name: Name, call: Call): Phase {
    if name == Attempt then Confirming(call) else Watching
  }

  function Apply(terminal: real, s: State, e: Event): State
    requires Enabled(terminal, s, e)
  {
    match e
    case Spawn(p, submit) => s.(procs := s.procs[p := Proc(submit, 0.0, Checking(0))])
    case Check(p) =>
      var k := s.procs[p].phase.next;
      Move(s, p, if CHECKED[k] in s.files then Gone else Checking(k + 1))
    case Access(p, expires) => s.(procs := s.procs[p := Proc(s.procs[p].submit, expires, Opening(Supervision, NoCall))])
    case Begin(p, remaining) => Move(s, p, Reserving(Call(s.mono, remaining)))
    case Reserve(p) => Move(s, p, Opening(Attempt, s.procs[p].phase.call))
    case Open(p) =>
      var ph := s.procs[p].phase;
      Move(s.(files := s.files[ph.name := Entry(p, false, false)]), p, Writing(ph.name, ph.call))
    case Flush(p) => Flushed(s, p)
    case SyncDir(p) =>
      var ph := s.procs[p].phase;
      Move(s.(files := AllDurable(s.files)), p, Recorded(ph.name, ph.call))
    case Confirm(p) =>
      var c := s.procs[p].phase.call;
      Move(s, p, Issuing(c, Decision(Timeout(c, s.mono), s.mono, s.now)))
    case Submit(p) =>
      var ph := s.procs[p].phase;
      Move(s.(issued := s.issued + [Issue(p, ph.call, ph.decision, s.procs[p].expires, s.mono)]), p,
           Running(ph.call, ph.decision))
    case Return(p) => Move(s, p, Opening(Outcome, s.procs[p].phase.call))
    case WriteReceipt(p) =>
      if Receipt in s.files then s else s.(files := s.files[Receipt := Entry(p, false, false)])
    case Raise(p, caught) => Move(s, p, if caught then Watching else Gone)
    case Tick(passed, now) => s.(mono := s.mono + passed, now := now)
    case PowerLoss(kept, mono) =>
      State(map n | n in s.files && n in kept :: s.files[n],
            map p | p in s.procs :: s.procs[p].(phase := Gone), mono, s.now, s.issued)
  }

  /** The stream is flushed; the file may have been lost from the directory in no other way than by a
      power loss, which ends the run. */
  function Flushed(s: State, p: nat): State
    requires p in s.procs && s.procs[p].phase.Writing?
  {
    var ph := s.procs[p].phase;
    var files := if ph.name in s.files then s.files[ph.name := s.files[ph.name].(whole := true)] else s.files;
    Move(s.(files := files), p, SyncingDir(ph.name, ph.call))
  }

  ghost predicate CanRun(terminal: real, s: State, trace: seq<Event>)
    decreases |trace|
  {
    trace == [] || (Enabled(terminal, s, trace[0]) && CanRun(terminal, Apply(terminal, s, trace[0]), trace[1..]))
  }

  ghost function Run(terminal: real, s: State, trace: seq<Event>): State
    requires CanRun(terminal, s, trace)
    decreases |trace|
  {
    if trace == [] then s else Run(terminal, Apply(terminal, s, trace[0]), trace[1..])
  }

  predicate Fresh(s: State) { s.files == map[] && s.procs == map[] && s.issued == [] }

  // ---------------------------------------------------------------- invariant

  /** The run has created the intent record and has not yet given the command. */
  predicate HoldsIntent(ph: Phase) {
    (ph.Writing? && ph.name == Attempt) || (ph.SyncingDir? && ph.name == Attempt) || ph.Confirming? || ph.Issuing?
  }

  predicate IntentIs(s: State, p: nat) { Attempt in s.files && s.files[Attempt].owner == p }

  predicate IntentDurable(s: State) { Attempt in s.files && s.files[Attempt].whole && s.files[Attempt].durable }

  /** What the clocks said when the command was decided. */
  predicate DecisionOk(terminal: real, call: Call, d: Decision, expires: real) {
    && call.Call? && d.timeout == Timeout(call, d.mono) && 1 <= d.timeout <= CREATION_SECONDS
    && AccessLeft(terminal, expires, d.now)
  }

  predicate ProcOk(terminal: real, s: State, p: nat)
    requires p in s.procs
  {
    var ph := s.procs[p].phase;
    && (HoldsIntent(ph) ==> IntentIs(s, p) && s.issued == [])
    && (ph.SyncingDir? && ph.name == Attempt ==> s.files[Attempt].whole)
    && (ph.Confirming? || ph.Issuing? ==> IntentDurable(s))
    && (ph.Issuing? ==> DecisionOk(terminal, ph.call, ph.decision, s.procs[p].expires) && ph.decision.mono <= s.mono)
  }

  predicate IssueOk(terminal: real, s: State, i: Issue) {
    && IntentDurable(s) && IntentIs(s, i.pid)
    && DecisionOk(terminal, i.call, i.decision, i.expires) && i.decision.mono <= i.at
  }

  ghost predicate Inv(terminal: real, s: State) {
    && (forall p :: p in s.procs ==> ProcOk(terminal, s, p))
    && |s.issued| <= 1
    && (|s.issued| == 1 ==> IssueOk(terminal, s, s.issued[0]))
  }

  /** The run that an event belongs to. */
  predicate Acts(e: Event, p: nat) {
    match e
    case Spawn(q, _) => p == q
    case Check(q) => p == q
    case Access(q, _) => p == q
    case Begin(q, _) => p == q
    case Reserve(q) => p == q
    case Open(q) => p == q
    case Flush(q) => p == q
    case SyncDir(q) => p == q
    case Confirm(q) => p == q
    case Submit(q) => p == q
    case Return(q) => p == q
    case WriteReceipt(q) => p == q
    case Raise(q, _) => p == q
    case Tick(_, _) => false
    case PowerLoss(_, _) => false
  }

  /** The run that takes a step is left in a phase it may be in. */
  lemma OwnStepOk(terminal: real, s: State, e: Event, p: nat)
    requires Inv(terminal, s) && Enabled(terminal, s, e) && p in Apply(terminal, s, e).procs && Acts(e, p)
    ensures ProcOk(terminal, Apply(terminal, s, e), p)
  {
    if p in s.procs { assert ProcOk(terminal, s, p); }
  }

  /** So is every other run: only the owner of the intent record can be about to submit. */
  lemma OtherStepOk(terminal: real, s: State, e: Event, p: nat)
    requires Inv(terminal, s) && Enabled(terminal, s, e) && p in Apply(terminal, s, e).procs && !Acts(e, p)
    ensures ProcOk(terminal, Apply(terminal, s, e), p)
  {
    assert ProcOk(terminal, s, p);
    if e.Submit? { assert ProcOk(terminal, s, e.pid); }
  }

  lemma IssuesStayOk(terminal: real, s: State, e: Event)
    requires Inv(terminal, s) && Enabled(terminal, s, e)
    ensures var t := Apply(terminal, s, e); |t.issued| <= 1 && (|t.issued| == 1 ==> IssueOk(terminal, t, t.issued[0]))
  {
    if e.Submit? { assert ProcOk(terminal, s, e.pid); }
  }

  lemma StepKeepsInv(terminal: real, s: State, e: Event)
    requires Inv(terminal, s) && Enabled(terminal, s, e)
    ensures Inv(terminal, Apply(terminal, s, e))
  {
    forall p | p in Apply(terminal, s, e).procs ensures ProcOk(terminal, Apply(terminal, s, e), p) {
      if Acts(e, p) { OwnStepOk(terminal, s, e, p); } else { OtherStepOk(terminal, s, e, p); }
    }
    IssuesStayOk(terminal, s, e);
  }

  lemma {:induction false} RunKeepsInv(terminal: real, s: State, trace: seq<Event>)
    requires Inv(terminal, s) && CanRun(terminal, s, trace)
    ensures Inv(terminal, Run(terminal, s, trace))
    decreases |trace|
  {
    if trace != [] {
      StepKeepsInv(terminal, s, trace[0]);
      RunKeepsInv(terminal, Apply(terminal, s, trace[0]), trace[1..]);
    }
  }

  // ---------------------------------------------------------------- theorems

  /** Over all runs, crashes and restarts in one directory the command is given at most once, and only by
      the run whose intent record is complete and safe from power loss. */
  lemma AtMostOneCommand(terminal: real, s: State, trace: seq<Event>)
    requires Fresh(s) && CanRun(terminal, s, trace)
    ensures var t := Run(terminal, s, trace);
      |t.issued| <= 1 && (|t.issued| == 1 ==> IntentDurable(t) && IntentIs(t, t.issued[0].pid))
  {
    RunKeepsInv(terminal, s, trace);
  }

  lemma TruncateBelow(x: real, n: int)
    requires n >= 1 && Truncate(x) >= n
    ensures n as real <= x
  {
  }

  /** When the command was decided enough access was left, and if the subprocess is back within its
      timeout, 30 seconds of the admission budget are left, less the time between reading the clock and
      starting the command. */
  lemma IssuedWithinReserves(terminal: real, s: State, trace: seq<Event>, back: real)
    requires Fresh(s) && CanRun(terminal, s, trace) && |Run(terminal, s, trace).issued| == 1
    ensures var i := Run(terminal, s, trace).issued[0];
      && i.expires - i.decision.now >= terminal + ACCESS_RESERVE
      && 1 <= i.decision.timeout <= CREATION_SECONDS
      && i.call.Call?
      && (back <= i.at + i.decision.timeout as real ==>
            i.call.remaining - (back - i.call.started) >= OBSERVATION_RESERVE - (i.at - i.decision.mono))
  {
    RunKeepsInv(terminal, s, trace);
    var i := Run(terminal, s, trace).issued[0];
    TruncateBelow(i.call.remaining - (i.decision.mono - i.call.started) - OBSERVATION_RESERVE, i.decision.timeout);
  }

  /** The seconds that a call may still spend at `mono`, keeping the observation reserve. */
  function Spare(call: Call, mono: real): real
    requires call.Call?
  {
    call.remaining - (mono - call.started) - 30.0
  }

  /** The timeout is the longest whole number of seconds that the spare time holds, up to 90. */
  lemma TimeoutIsLongest(call: Call, mono: real, t: int)
    requires call.Call? && t >= 1
    ensures t <= Timeout(call, mono) <==> t <= 90 && t as real <= Spare(call, mono)
  {
  }

  /** Exactly when the reserves let a call go on, before its intent and again after it. */
  lemma ProceedsIff(terminal: real, call: Call, expires: real, mono: real, now: real)
    ensures MayProceed(terminal, call, expires, mono, now) <==>
      call.Call? && Spare(call, mono) >= 1.0 && expires - now >= terminal + 300.0
  {
    if call.Call? { TimeoutIsLongest(call, mono, 1); }
  }

  /** Whoever gave a command gave it the longest timeout of at most 90 seconds that kept the reserve when it decided. */
  lemma IssuedTimeoutIsLongest(terminal: real, s: State, trace: seq<Event>, t: int)
    requires Fresh(s) && CanRun(terminal, s, trace) && |Run(terminal, s, trace).issued| == 1 && t >= 1
    ensures var i := Run(terminal, s, trace).issued[0];
      i.call.Call? && (t <= i.decision.timeout <==> t <= 90 && t as real <= Spare(i.call, i.decision.mono))
  {
    RunKeepsInv(terminal, s, trace);
    var i := Run(terminal, s, trace).issued[0];
    TimeoutIsLongest(i.call, i.decision.mono, t);
  }

  // ---------------------------------------------------------------- what came before

  /** The run has created the intent, or is about to. */
  predicate TookIntent(s: State, p: nat) {
    IntentIs(s, p) || (p in s.procs && s.procs[p].phase.Opening? && s.procs[p].phase.name == Attempt)
  }

  /** The run submits and has been let past its checks. */
  predicate LetIn(s: State, p: nat) {
    p in s.procs && s.procs[p].submit && !s.procs[p].phase.Checking? && !s.procs[p].phase.Gone?
  }

  /** At this moment of the run, `p` is in a call that has a second to spare, and its access lasts. */
  ghost predicate ReserveLeft(terminal: real, s: State, trace: seq<Event>, k: nat, p: nat) {
    && k <= |trace| && CanRun(terminal, s, trace[..k])
    && var t := Run(terminal, s, trace[..k]);
    && p in t.procs && t.procs[p].phase.Reserving? && t.procs[p].phase.call.Call?
    && Spare(t.procs[p].phase.call, t.mono) >= 1.0 && t.procs[p].expires - t.now >= terminal + 300.0
  }

  lemma TakesIntentByReserve(terminal: real, s: State, e: Event, p: nat)
    requires Enabled(terminal, s, e) && !TookIntent(s, p) && TookIntent(Apply(terminal, s, e), p)
    ensures e == Reserve(p)
  {
  }

  lemma PrefixStep(terminal: real, s: State, trace: seq<Event>, k: nat)
    requires trace != [] && k < |trace| && CanRun(terminal, s, trace)
      && CanRun(terminal, Apply(terminal, s, trace[0]), trace[1..][..k])
    ensures CanRun(terminal, s, trace[..k + 1])
    ensures Run(terminal, s, trace[..k + 1]) == Run(terminal, Apply(terminal, s, trace[0]), trace[1..][..k])
  {
    assert trace[..k + 1][1..] == trace[1..][..k];
  }

  /** Nobody takes the intent, in any run, without having had both reserves when it did. */
  lemma {:induction false} IntentHadReserve(terminal: real, s: State, trace: seq<Event>, p: nat) returns (k: nat)
    requires CanRun(terminal, s, trace) && !TookIntent(s, p) && TookIntent(Run(terminal, s, trace), p)
    ensures k < |trace| && trace[k] == Reserve(p) && ReserveLeft(terminal, s, trace, k, p)
    decreases |trace|
  {
    var t := Apply(terminal, s, trace[0]);
    if TookIntent(t, p) {
      k := 0;
      TakesIntentByReserve(terminal, s, trace[0], p);
      ProceedsIff(terminal, s.procs[p].phase.call, s.procs[p].expires, s.mono, s.now);
    } else {
      k := IntentHadReserve(terminal, t, trace[1..], p);
      PrefixStep(terminal, s, trace, k);
      k := k + 1;
    }
  }

  /** Nobody who may submit gets past its checks without enough access left at that moment. */
  lemma {:induction false} LetInHadAccess(terminal: real, s: State, trace: seq<Event>, p: nat) returns (k: nat)
    requires CanRun(terminal, s, trace) && !LetIn(s, p) && LetIn(Run(terminal, s, trace), p)
    ensures k < |trace| && CanRun(terminal, s, trace[..k]) && trace[k].Access? && trace[k].pid == p
    ensures trace[k].expires - Run(terminal, s, trace[..k]).now >= terminal + 300.0
    decreases |trace|
  {
    var t := Apply(terminal, s, trace[0]);
    if LetIn(t, p) {
      k := 0;
      LetsIn(terminal, s, trace[0], p);
    } else {
      k := LetInHadAccess(terminal, t, trace[1..], p);
      PrefixStep(terminal, s, trace, k);
      k := k + 1;
    }
  }

  lemma LetsIn(terminal: real, s: State, e: Event, p: nat)
    requires Enabled(terminal, s, e) && !LetIn(s, p) && LetIn(Apply(terminal, s, e), p)
    ensures e.Access? && e.pid == p && e.expires - s.now >= terminal + 300.0
  {
  }

  /** How far a run has come on its way to the command. */
  function Stage(s: State, p: nat): nat {
    if p !in s.procs then 0
    else
      match s.procs[p].phase
      case Opening(n, _) => if n == Attempt then 1 else 0
      case Writing(n, _) => if n == Attempt then 2 else 0
      case SyncingDir(n, _) => if n == Attempt then 3 else 0
      case Confirming(_) => 4
      case Issuing(_, _) => 5
      case _ => 0
  }

  /** The event that takes a run to a stage. */
  function Towards(k: nat, p: nat): Event
    requires 1 <= k <= 5
  {
    match k
    case 1 => Reserve(p)
    case 2 => Open(p)
    case 3 => Flush(p)
    case 4 => SyncDir(p)
    case _ => Confirm(p)
  }

  lemma StageUp(terminal: real, s: State, e: Event, p: nat)
    requires Enabled(terminal, s, e) && Stage(Apply(terminal, s, e), p) > Stage(s, p)
    ensures Stage(Apply(terminal, s, e), p) == Stage(s, p) + 1 <= 5
    ensures e == Towards(Stage(s, p) + 1, p)
  {
  }

  predicate Rising(at: seq<nat>) { forall a, b :: 0 <= a < b < |at| ==> at[a] < at[b] }

  /** The steps towards stage `first` and the following ones are at these places. */
  predicate Takes(trace: seq<Event>, at: seq<nat>, p: nat, first: nat)
    requires 1 <= first && first + |at| <= 6
  {
    Rising(at) && forall m :: 0 <= m < |at| ==> at[m] < |trace| && trace[at[m]] == Towards(first + m, p)
  }

  /** The same places from `from` on, seen one event earlier. */
  function Delayed(at: seq<nat>, from: nat): (later: seq<nat>)
    requires from <= |at|
    ensures |later| == |at| - from && forall m :: 0 <= m < |later| ==> later[m] == at[from + m] + 1
  {
    seq(|at| - from, m requires 0 <= m < |at| - from => at[from + m] + 1)
  }

  lemma DelayedTakes(trace: seq<Event>, at: seq<nat>, p: nat, first: nat, from: nat)
    requires trace != [] && 1 <= first && first + |at| <= 6 && from <= |at| && Takes(trace[1..], at, p, first)
    ensures Takes(trace, Delayed(at, from), p, first + from)
  {
    var later := Delayed(at, from);
    forall m | 0 <= m < |later| ensures later[m] < |trace| && trace[later[m]] == Towards(first + from + m, p) {
      assert trace[1..][at[from + m]] == Towards(first + (from + m), p);
    }
  }

  lemma FirstTakes(trace: seq<Event>, at: seq<nat>, p: nat, first: nat)
    requires 1 <= first && first + |at| <= 5 && Takes(trace, at, p, first + 1) && (at != [] ==> at[0] > 0)
    requires trace != [] && trace[0] == Towards(first, p)
    ensures Takes(trace, [0] + at, p, first)
  {
    var all := [0] + at;
    forall m | 0 <= m < |all| ensures all[m] < |trace| && trace[all[m]] == Towards(first + m, p) {
      if m > 0 { assert trace[at[m - 1]] == Towards(first + 1 + (m - 1), p); }
    }
    assert forall b :: 0 <= b < |at| ==> at[b] >= at[0];
  }

  /** From one stage to a later one a run takes every step between, in order. */
  lemma {:induction false} StepsBetween(terminal: real, s: State, trace: seq<Event>, p: nat, k: nat)
      returns (at: seq<nat>)
    requires CanRun(terminal, s, trace) && Stage(s, p) < k <= Stage(Run(terminal, s, trace), p) && k <= 5
    ensures |at| == k - Stage(s, p) && Takes(trace, at, p, Stage(s, p) + 1)
    decreases |trace|
  {
    var j, t := Stage(s, p), Apply(terminal, s, trace[0]);
    var j' := Stage(t, p);
    if j' > j { StageUp(terminal, s, trace[0], p); }
    hide Apply, Enabled, Takes, Stage, Towards;
    if j' >= k {
      at := [0];
      OneTakes(trace, p, k);
    } else {
      var rest := StepsBetween(terminal, t, trace[1..], p, k);
      at := OneEarlier(trace, rest, p, j, j');
    }
  }

  lemma OneEarlier(trace: seq<Event>, rest: seq<nat>, p: nat, j: nat, j': nat) returns (at: seq<nat>)
    requires trace != [] && j' + 1 + |rest| <= 6 && j <= j' + |rest| && Takes(trace[1..], rest, p, j' + 1)
    requires j' > j ==> j' == j + 1 && trace[0] == Towards(j + 1, p)
    ensures |at| == j' + |rest| - j && Takes(trace, at, p, j + 1)
  {
    hide Takes, Towards;
    if j' > j {
      DelayedTakes(trace, rest, p, j' + 1, 0);
      FirstTakes(trace, Delayed(rest, 0), p, j + 1);
      at := [0] + Delayed(rest, 0);
    } else {
      DelayedTakes(trace, rest, p, j' + 1, j - j');
      at := Delayed(rest, j - j');
    }
  }

  lemma OneTakes(trace: seq<Event>, p: nat, k: nat)
    requires 1 <= k <= 5 && trace != [] && trace[0] == Towards(k, p)
    ensures Takes(trace, [0], p, k)
  {
  }

  /** In every run, a command is given only after its own process has, in this order, found its reserves, created the
      intent, flushed it, synced the directory, and found its reserves again. */
  lemma {:induction false} IssuedInOrder(terminal: real, s: State, trace: seq<Event>, p: nat)
      returns (n: nat, at: seq<nat>)
    requires CanRun(terminal, s, trace) && Stage(s, p) == 0
    requires |Run(terminal, s, trace).issued| > |s.issued|
      && Run(terminal, s, trace).issued[|Run(terminal, s, trace).issued| - 1].pid == p
    ensures n < |trace| && trace[n] == Submit(p)
    ensures |at| == 5 && Takes(trace[..n], at, p, 1)
  {
    n := LastIssue(terminal, s, trace);
    at := StepsBetween(terminal, s, trace[..n], p, 5);
  }

  /** The last command was given by some step of the run, by a process about to issue. */
  lemma {:induction false} LastIssue(terminal: real, s: State, trace: seq<Event>) returns (n: nat)
    requires CanRun(terminal, s, trace) && |Run(terminal, s, trace).issued| > |s.issued|
    ensures n < |trace| && CanRun(terminal, s, trace[..n])
    ensures var last := Run(terminal, s, trace).issued[|Run(terminal, s, trace).issued| - 1];
      trace[n] == Submit(last.pid) && Stage(Run(terminal, s, trace[..n]), last.pid) == 5
    decreases |trace|
  {
    var t := Apply(terminal, s, trace[0]);
    if |Run(terminal, s, trace).issued| > |t.issued| {
      n := LastIssue(terminal, t, trace[1..]);
      PrefixStep(terminal, s, trace, n);
      n := n + 1;
    } else {
      n := 0;
      IssuedOnlyGrows(terminal, t, trace[1..]);
    }
  }

  /** The call that a phase belongs to. */
  function CallOf(ph: Phase): Call {
    match ph
    case Reserving(c) => c
    case Opening(_, c) => c
    case Writing(_, c) => c
    case SyncingDir(_, c) => c
    case Confirming(c) => c
    case Issuing(c, _) => c
    case Running(c, _) => c
    case _ => NoCall
  }

  /** A run that does not submit: it has begun no call. */
  predicate OnlySupervises(s: State, p: nat) {
    p in s.procs && !s.procs[p].submit && CallOf(s.procs[p].phase).NoCall? && Stage(s, p) == 0
    && !s.procs[p].phase.Reserving? && !s.procs[p].phase.Running?
  }

  /** A run that was not asked to submit takes no intent and gives no command, whatever happens. */
  lemma {:induction false} SupervisorNeverSubmits(terminal: real, s: State, trace: seq<Event>, p: nat)
    requires CanRun(terminal, s, trace) && OnlySupervises(s, p)
    ensures OnlySupervises(Run(terminal, s, trace), p)
    ensures forall i :: |s.issued| <= i < |Run(terminal, s, trace).issued| ==>
      Run(terminal, s, trace).issued[i].pid != p
    decreases |trace|
  {
    if trace != [] {
      var t := Apply(terminal, s, trace[0]);
      SupervisorNeverSubmits(terminal, t, trace[1..], p);
      IssuedOnlyGrows(terminal, t, trace[1..]);
    }
  }

  /** Whoever checks its reserves has begun a call. */
  predicate CallsBegun(s: State) {
    forall p :: p in s.procs && (s.procs[p].phase.Reserving? || s.procs[p].phase.Confirming?) ==>
      CallOf(s.procs[p].phase).Call?
  }

  predicate IntentsBegun(s: State) { forall p :: p in s.procs && Stage(s, p) > 0 ==> CallOf(s.procs[p].phase).Call? }

  lemma {:induction false} BegunThroughout(terminal: real, s: State, trace: seq<Event>)
    requires CanRun(terminal, s, trace) && CallsBegun(s) && IntentsBegun(s)
    ensures CallsBegun(Run(terminal, s, trace)) && IntentsBegun(Run(terminal, s, trace))
    decreases |trace|
  {
    if trace != [] { BegunThroughout(terminal, Apply(terminal, s, trace[0]), trace[1..]); }
  }

  /** At every moment of every run, the watcher can catch an error exactly within a call that has not decided yet;
      anywhere else an error ends the run. */
  lemma CaughtIff(terminal: real, start: State, trace: seq<Event>, p: nat)
    requires Fresh(start) && CanRun(terminal, start, trace)
    ensures var s := Run(terminal, start, trace);
      Enabled(terminal, s, Raise(p, true)) <==>
        && p in s.procs && CallOf(s.procs[p].phase).Call?
        && !s.procs[p].phase.Issuing? && !s.procs[p].phase.Running?
  {
    BegunThroughout(terminal, start, trace);
  }

  /** A durable intent that no run holds any more. */
  predicate Consumed(s: State) {
    Attempt in s.files && s.files[Attempt].durable && forall p :: p in s.procs ==> !HoldsIntent(s.procs[p].phase)
  }

  /** Once the intent is durable and its run has given the command, raised or died, no command is ever
      given again: the attempt is spent even if it was never made. */
  lemma {:induction false} ConsumedForGood(terminal: real, s: State, trace: seq<Event>)
    requires Consumed(s) && CanRun(terminal, s, trace)
    ensures Consumed(Run(terminal, s, trace)) && Run(terminal, s, trace).issued == s.issued
    decreases |trace|
  {
    if trace != [] {
      ConsumedForGood(terminal, Apply(terminal, s, trace[0]), trace[1..]);
    }
  }

  lemma LossConsumes(terminal: real, s: State, kept: set<Name>, mono: real)
    requires Enabled(terminal, s, PowerLoss(kept, mono)) && Attempt in s.files && s.files[Attempt].durable
    ensures Consumed(Apply(terminal, s, PowerLoss(kept, mono)))
  {
  }

  /** At most the checks before record `k` have been passed. */
  predicate Stopped(s: State, p: nat, k: nat) {
    p in s.procs ==> s.procs[p].phase.Gone? || (s.procs[p].phase.Checking? && s.procs[p].phase.next <= k)
  }

  /** A retained record consumes the directory: a run that starts after any of the four records is durable
      never gets past its checks, so it records nothing and submits nothing. */
  lemma {:induction false} RetainedRecordStopsLaterRuns(terminal: real, s: State, trace: seq<Event>, p: nat, k: nat)
    requires CanRun(terminal, s, trace) && k < |CHECKED| && CHECKED[k] in s.files && s.files[CHECKED[k]].durable
    requires Stopped(s, p, k)
    ensures Stopped(Run(terminal, s, trace), p, k)
    ensures forall i :: |s.issued| <= i < |Run(terminal, s, trace).issued| ==>
      Run(terminal, s, trace).issued[i].pid != p
    ensures |s.issued| <= |Run(terminal, s, trace).issued|
    decreases |trace|
  {
    if trace != [] {
      var t := Apply(terminal, s, trace[0]);
      RetainedRecordStopsLaterRuns(terminal, t, trace[1..], p, k);
      forall i | |s.issued| <= i < |Run(terminal, s, trace).issued|
        ensures Run(terminal, s, trace).issued[i].pid != p
      {
        IssuedOnlyGrows(terminal, t, trace[1..]);
      }
    }
  }

  lemma {:induction false} IssuedOnlyGrows(terminal: real, s: State, trace: seq<Event>)
    requires CanRun(terminal, s, trace)
    ensures s.issued <= Run(terminal, s, trace).issued
    decreases |trace|
  {
    if trace != [] { IssuedOnlyGrows(terminal, Apply(terminal, s, trace[0]), trace[1..]); }
  }

  // ---------------------------------------------------------------- the protocol does submit

  lemma {:induction false} CanRunAppend(terminal: real, s: State, a: seq<Event>, b: seq<Event>)
    requires CanRun(terminal, s, a) && CanRun(terminal, Run(terminal, s, a), b)
    ensures CanRun(terminal, s, a + b) && Run(terminal, s, a + b) == Run(terminal, Run(terminal, s, a), b)
    decreases |a|
  {
    if a == [] {
      assert a + b == b;
    } else {
      assert (a + b)[1..] == a[1..] + b;
      CanRunAppend(terminal, Apply(terminal, s, a[0]), a[1..], b);
    }
  }

  lemma Extend(terminal: real, s: State, trace: seq<Event>, e: Event)
    requires CanRun(terminal, s, trace) && Enabled(terminal, Run(terminal, s, trace), e)
    ensures CanRun(terminal, s, trace + [e])
    ensures Run(terminal, s, trace + [e]) == Apply(terminal, Run(terminal, s, trace), e)
  {
    var t := Run(terminal, s, trace);
    assert CanRun(terminal, t, [e]) by { assert CanRun(terminal, Apply(terminal, t, e), [e][1..]); }
    assert Run(terminal, t, [e]) == Apply(terminal, t, e) by { assert [e][1..] == []; }
    CanRunAppend(terminal, s, trace, [e]);
  }

  /** From an opened record name that is free, three steps make the record durable. */
  lemma RecordSteps(terminal: real, s: State, trace: seq<Event>, name: Name, call: Call) returns (more: seq<Event>)
    requires CanRun(terminal, s, trace) && At(Run(terminal, s, trace), 0, Opening(name, call))
    requires name !in Run(terminal, s, trace).files
    ensures CanRun(terminal, s, more) && trace <= more
    ensures var t, u := Run(terminal, s, trace), Run(terminal, s, more);
      && u.procs == t.procs[0 := t.procs[0].(phase := Recorded(name, call))]
      && u.files.Keys == t.files.Keys + {name} && u.issued == t.issued && u.mono == t.mono && u.now == t.now
  {
    Extend(terminal, s, trace, Open(0));
    Extend(terminal, s, trace + [Open(0)], Flush(0));
    Extend(terminal, s, trace + [Open(0)] + [Flush(0)], SyncDir(0));
    more := trace + [Open(0)] + [Flush(0)] + [SyncDir(0)];
  }

  lemma ChecksPass(terminal: real, s: State) returns (trace: seq<Event>)
    requires Fresh(s)
    ensures CanRun(terminal, s, trace)
    ensures Run(terminal, s, trace) == s.(procs := map[0 := Proc(true, 0.0, Checking(4))])
  {
    trace := [];
    Extend(terminal, s, trace, Spawn(0, true));
    trace := trace + [Spawn(0, true)];
    assert Run(terminal, s, trace) == s.(procs := map[0 := Proc(true, 0.0, Checking(0))]);
    for k := 0 to |CHECKED|
      invariant CanRun(terminal, s, trace)
      invariant Run(terminal, s, trace) == s.(procs := map[0 := Proc(true, 0.0, Checking(k))])
    {
      Extend(terminal, s, trace, Check(0));
      trace := trace + [Check(0)];
    }
  }

  /** In an unused directory, a run whose reserves suffice can give the command, record its outcome and write its
      receipt, with clocks that stand still: the guarantees above are not met by never submitting. */
  lemma LoneRunSubmits(terminal: real, s: State, expires: real, remaining: real) returns (trace: seq<Event>)
    requires Fresh(s) && MayProceed(terminal, Call(s.mono, remaining), expires, s.mono, s.now)
    ensures CanRun(terminal, s, trace) && |Run(terminal, s, trace).issued| == 1
    ensures Run(terminal, s, trace).files.Keys == {Supervision, Attempt, Outcome, Receipt}
  {
    trace := LoneRunWatches(terminal, s, expires);
    trace := LoneCallSubmits(terminal, s, trace, expires, remaining);
    Extend(terminal, s, trace, WriteReceipt(0));
    trace := trace + [WriteReceipt(0)];
  }

  lemma LoneRunWatches(terminal: real, s: State, expires: real) returns (trace: seq<Event>)
    requires Fresh(s) && AccessLeft(terminal, expires, s.now)
    ensures CanRun(terminal, s, trace)
    ensures var t := Run(terminal, s, trace);
      && t.procs == map[0 := Proc(true, expires, Watching)] && t.files.Keys == {Supervision} && t.issued == []
      && t.mono == s.mono && t.now == s.now
  {
    trace := ChecksPass(terminal, s);
    Extend(terminal, s, trace, Access(0, expires));
    trace := RecordSteps(terminal, s, trace + [Access(0, expires)], Supervision, NoCall);
  }

  lemma LoneCallTakesIntent(terminal: real, s: State, before: seq<Event>, expires: real, call: Call)
      returns (trace: seq<Event>)
    requires CanRun(terminal, s, before)
    requires var t := Run(terminal, s, before);
      && t.procs == map[0 := Proc(true, expires, Watching)] && t.files.Keys == {Supervision} && t.issued == []
      && call.Call? && call.started == t.mono && MayProceed(terminal, call, expires, t.mono, t.now)
    ensures CanRun(terminal, s, trace) && before <= trace
    ensures var t, u := Run(terminal, s, before), Run(terminal, s, trace);
      && u.procs == map[0 := Proc(true, expires, Confirming(call))] && u.files.Keys == {Supervision, Attempt}
      && u.issued == [] && u.mono == t.mono && u.now == t.now
  {
    Extend(terminal, s, before, Begin(0, call.remaining));
    trace := before + [Begin(0, call.remaining)];
    Extend(terminal, s, trace, Reserve(0));
    trace := RecordSteps(terminal, s, trace + [Reserve(0)], Attempt, call);
  }

  /** A watching run whose call finds its reserves gives the command, if no intent is there. */
  lemma LoneCallSubmits(terminal: real, s: State, before: seq<Event>, expires: real, remaining: real)
      returns (trace: seq<Event>)
    requires CanRun(terminal, s, before)
    requires var t := Run(terminal, s, before);
      && t.procs == map[0 := Proc(true, expires, Watching)] && t.files.Keys == {Supervision} && t.issued == []
      && MayProceed(terminal, Call(t.mono, remaining), expires, t.mono, t.now)
    ensures CanRun(terminal, s, trace) && before <= trace && |Run(terminal, s, trace).issued| == 1
    ensures Run(terminal, s, trace).files.Keys == {Supervision, Attempt, Outcome}
    ensures At(Run(terminal, s, trace), 0, Watching)
    ensures var issue := Run(terminal, s, trace).issued[0];
      issue.at == Run(terminal, s, before).mono && issue.decision.now == Run(terminal, s, before).now
  {
    var call := Call(Run(terminal, s, before).mono, remaining);
    trace := LoneCallTakesIntent(terminal, s, before, expires, call);
    Extend(terminal, s, trace, Confirm(0));
    trace := trace + [Confirm(0)];
    Extend(terminal, s, trace, Submit(0));
    trace := trace + [Submit(0)];
    Extend(terminal, s, trace, Return(0));
    trace := RecordSteps(terminal, s, trace + [Return(0)], Outcome, call);
  }

  /** A call that is refused before it takes the intent spends nothing: after any time, the same run can call again, and
      submit if the reserves then suffice. */
  lemma RefusedCallMayRetry(terminal: real, s: State, expires: real, first: real, passed: real, now: real,
                            remaining: real) returns (trace: seq<Event>)
    requires Fresh(s) && AccessLeft(terminal, expires, s.now) && passed >= 0.0
    requires MayProceed(terminal, Call(s.mono + passed, remaining), expires, s.mono + passed, now)
    ensures CanRun(terminal, s, trace) && |Run(terminal, s, trace).issued| == 1
    ensures Begin(0, first) in trace && Raise(0, true) in trace && Tick(passed, now) in trace
    ensures var issue := Run(terminal, s, trace).issued[0]; issue.at == s.mono + passed && issue.decision.now == now
  {
    trace := LoneRunWatches(terminal, s, expires);
    Extend(terminal, s, trace, Begin(0, first));
    trace := trace + [Begin(0, first)];
    Extend(terminal, s, trace, Raise(0, true));
    trace := trace + [Raise(0, true)];
    Extend(terminal, s, trace, Tick(passed, now));
    trace := trace + [Tick(passed, now)];
    var refused := trace;
    assert Run(terminal, s, refused).procs == map[0 := Proc(true, expires, Watching)];
    var n := |refused|;
    assert refused[n - 3] == Begin(0, first) && refused[n - 2] == Raise(0, true) && refused[n - 1] == Tick(passed, now);
    trace := LoneCallSubmits(terminal, s, refused, expires, remaining);
    assert trace[n - 3] == refused[n - 3] && trace[n - 2] == refused[n - 2] && trace[n - 1] == refused[n - 1];
  }

  // ---------------------------------------------------------------- access_deadline

  /** A policy observation: whether its resource version is the expected one, and when access began
      (None when the time has no zone). */
  datatype Bucket = Bucket(name: string, versionFits: bool, began: Option<real>)
  datatype Refusal = NotExact | Incomplete | WrongVersion | BadStart | NoAccess

  predicate BothNamed(buckets: seq<Bucket>) {
    (set i | 0 <= i < |buckets| :: buckets[i].name) == {"final", "results"}
  }

  predicate BucketOk(b: Bucket, now: real) { b.versionFits && b.began.Some? && b.began.value <= now + 5.0 }

  predicate AllOk(buckets: seq<Bucket>, clock: seq<real>, n: nat)
    requires n <= |buckets| <= |clock|
  {
    forall i :: 0 <= i < n ==> BucketOk(buckets[i], clock[i])
  }

  /** `access_deadline`: the deadline is the earliest end of access of the two buckets, so at the last
      clock reading neither has less than the reserve left. */
  method AccessDeadline(exact: bool, terminal: real, access: real, buckets: seq<Bucket>, clock: seq<real>)
      returns (r: Result<real, Refusal>)
    requires |clock| == |buckets| + 1
    ensures r.Ok? ==> exact && BothNamed(buckets) && AllOk(buckets, clock, |buckets|)
    ensures r.Ok? ==> forall i :: 0 <= i < |buckets| ==>
      buckets[i].began.Some? && r.value <= buckets[i].began.value + access
      && buckets[i].began.value + access - clock[|buckets|] >= terminal + ACCESS_RESERVE
    ensures r.Ok? ==> exists i :: 0 <= i < |buckets| && buckets[i].began == Some(r.value - access)
    ensures r == Err(NoAccess) ==>
      exists i :: 0 <= i < |buckets| && buckets[i].began.Some?
                  && buckets[i].began.value + access - clock[|buckets|] < terminal + ACCESS_RESERVE
    ensures r.Err? && r.error != NoAccess ==> !(exact && BothNamed(buckets) && AllOk(buckets, clock, |buckets|))
  {
    if !exact { return Err(NotExact); }
    if !BothNamed(buckets) { return Err(Incomplete); }
    assert |buckets| > 0 by {
      assert "final" in (set i | 0 <= i < |buckets| :: buckets[i].name);
    }
    var first: Option<real> := None;
    for i := 0 to |buckets|
      invariant AllOk(buckets, clock, i) && (first.None? <==> i == 0)
      invariant i > 0 ==> exists k :: 0 <= k < i && buckets[k].began == first
      invariant first.Some? ==> forall k :: 0 <= k < i ==> first.value <= buckets[k].began.value
    {
      if !buckets[i].versionFits { return Err(WrongVersion); }
      if !BucketOk(buckets[i], clock[i]) { return Err(BadStart); }
      if first.None? || buckets[i].began.value < first.value { first := buckets[i].began; }
    }
    var expires := first.value + access;
    if expires - clock[|buckets|] < terminal + ACCESS_RESERVE { return Err(NoAccess); }
    r := Ok(expires);
  }
}
