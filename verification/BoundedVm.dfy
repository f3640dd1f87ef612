/**
 The parent and the detached stop watchdog of scripts/nebius_mlflow_watchdog.py.

 `bounded_vm` arms a watchdog process, starts the machine, runs the caller's body and tries to read back
 a stopped machine; the watchdog stops the machine when asked or at its deadline. The model starts when
 the watchdog has been spawned. Each statement of either process is one step; it may fail, or never
 happen because the process died. An interruption is caught where the code's `try` statements catch it;
 between them, and in their handlers, it escapes. Provider calls are answered arbitrarily.
 */
module BoundedVm {
  const ARMED_SECONDS: real := 600.0
  const START_RESERVE: real := 590.0
  const ATTEMPTS: nat := 3

  /** `Interrupt` is an exception that is not an `Exception`, such as KeyboardInterrupt. */
  datatype Fault = Fine | Error | Interrupt

  /** A stop receipt: none, one whose read-back verifies the stop, or one that does not. */
  datatype Receipt = NoReceipt | Verified | NotVerified

  datatype Moment = Never | Moment(at: real)

  /** How the block is left; `Escaped` is an interruption that no `try` of the cleanup caught. */
  datatype Exit = Normal | BodyError | StopUnverified | Interruption | EvidenceLost | Escaped

  /** `backed` says whether the machine had been read back as stopped when the block was left. */
  datatype Parent =
    | Entering
    | Awaiting | Requesting | Starting | Recording | Body
    | Touching | Waiting | Reading | Judging
    | Emergency(attempt: nat) | Confirming(attempt: nat)
    | RetainingEmergency | RetainingErrors | Leaving
    | Exited(exit: Exit, backed: bool)
    | Dead

  datatype Watchdog =
    | Spawned | Watching | Stopping(attempt: nat) | Checking(attempt: nat) | Saving(verified: bool) | Ended(code: bool)

  /** What the `finally` block has collected. */
  datatype Ledger = Ledger(
    inflight: bool, errors: nat, interrupted: bool, receipt: Receipt, emergency: Receipt, retained: bool)

  /** `armed`, `requested` and `result` are the files of the session directory. `seen` says that the right
      machine has been read back as STOPPED since the start call, if one was made. */
  datatype State = State(
    now: real, expires: real, parent: Parent, watchdog: Watchdog,
    armed: bool, requested: bool, result: Receipt,
    handshake: Moment, started: Moment, seen: bool, stopCalls: nat, ledger: Ledger)

  predicate Initial(s: State) {
    && s.expires == s.now + ARMED_SECONDS && s.parent == Entering && s.watchdog == Spawned
    && !s.armed && !s.requested && s.result.NoReceipt? && s.handshake.Never? && s.started.Never?
    && !s.seen && s.stopCalls == 0 && s.ledger == Ledger(false, 0, false, NoReceipt, NoReceipt, true)
  }

  // ---------------------------------------------------------------- the watchdog's steps

  datatype GuardStep = Arm | Begin | Stop(fine: bool) | Get(stopped: bool) | GiveUp | Save(clean: bool) | Die

  predicate CanGuard(s: State, g: GuardStep) {
    match g
    case Arm => s.watchdog.Spawned? && 0.0 < s.expires - s.now <= ARMED_SECONDS
    case Begin => s.watchdog.Watching? && (s.requested || s.now >= s.expires)
    case Stop(_) => s.watchdog.Stopping? && s.watchdog.attempt < ATTEMPTS
    case Get(_) => s.watchdog.Checking?
    case GiveUp => s.watchdog.Stopping? && s.watchdog.attempt >= ATTEMPTS
    case Save(_) => s.watchdog.Saving?
    case Die => !s.watchdog.Ended?
  }

  function Guard(s: State, g: GuardStep): State
    requires CanGuard(s, g)
  {
    match g
    case Arm => s.(watchdog := Watching, armed := true)
    case Begin => s.(watchdog := Stopping(0))
    case Stop(fine) =>
      var attempt := s.watchdog.attempt;
      s.(watchdog := if fine then Checking(attempt) else Stopping(attempt + 1), stopCalls := s.stopCalls + 1)
    case Get(stopped) =>
      if stopped then s.(watchdog := Saving(true), seen := true)
      else s.(watchdog := Stopping(s.watchdog.attempt + 1))
    case GiveUp => s.(watchdog := Saving(false))
    case Save(clean) =>
      s.(result := if s.watchdog.verified then Verified else NotVerified,
         watchdog := Ended(s.watchdog.verified && clean))
    case Die => s.(watchdog := Ended(false))
  }

  // ---------------------------------------------------------------- the parent's `try`

  datatype SessionStep = Enter | Handshake | RequestSaved | Start | StartRecorded | BodyDone | BodyFails

  predicate InBody(p: Parent) { p.Awaiting? || p.Requesting? || p.Starting? || p.Recording? || p.Body? }

  predicate CanProceed(s: State, x: SessionStep) {
    match x
    case Enter => s.parent.Entering?
    case Handshake => s.parent.Awaiting? && s.armed && s.expires - s.now >= START_RESERVE
    case RequestSaved => s.parent.Requesting?
    case Start => s.parent.Starting?
    case StartRecorded => s.parent.Recording?
    case BodyDone => s.parent.Body?
    case BodyFails => InBody(s.parent)
  }

  function Proceed(s: State, x: SessionStep): State
    requires CanProceed(s, x)
  {
    match x
    case Enter => s.(parent := Awaiting)
    case Handshake => s.(parent := Requesting, handshake := Moment(s.now))
    case RequestSaved => s.(parent := Starting)
    case Start => s.(parent := Recording, started := Moment(s.now), seen := false)
    case StartRecorded => s.(parent := Body)
    case BodyDone => s.(parent := Touching)
    case BodyFails => s.(parent := Touching, ledger := s.ledger.(inflight := true))
  }

  // ---------------------------------------------------------------- the parent's `finally`

  /** The statements that a `try` protects say how they went. */
  datatype CleanupStep =
    | Touch(fault: Fault) | Wait(fault: Fault) | Read(fault: Fault)
    | Judge | RetainEmergency(fault: Fault) | RetainErrors(fault: Fault) | Leave

  /** The wait returns without a fault only when the watchdog ended with code 0, reading needs a file, and
      there is nothing to retain when there were no errors. */
  predicate CanClean(s: State, c: CleanupStep) {
    match c
    case Touch(_) => s.parent.Touching?
    case Wait(fault) => s.parent.Waiting? && (fault.Fine? ==> s.watchdog == Ended(true))
    case Read(fault) => s.parent.Reading? && (fault.Fine? ==> !s.result.NoReceipt?)
    case Judge => s.parent.Judging?
    case RetainEmergency(_) => s.parent.RetainingEmergency?
    case RetainErrors(fault) => s.parent.RetainingErrors? && (s.ledger.errors == 0 ==> fault.Fine?)
    case Leave => s.parent.Leaving?
  }

  /** `failed`: remember the error, and the exception itself when it is not an `Exception`. */
  function Noted(l: Ledger, fault: Fault): Ledger {
    if fault.Fine? then l else l.(errors := l.errors + 1, interrupted := l.interrupted || fault.Interrupt?)
  }

  /** The order in which the end of `finally` chooses what leaves the block. */
  function ExitOf(l: Ledger): Exit {
    if l.emergency.NotVerified? then StopUnverified
    else if l.interrupted then Interruption
    else if !l.retained && !l.inflight then EvidenceLost
    else if l.inflight then BodyError
    else Normal
  }

  function Clean(s: State, c: CleanupStep): State
    requires CanClean(s, c)
  {
    var l := s.ledger;
    match c
    case Touch(fault) => s.(parent := Waiting, requested := s.requested || fault.Fine?, ledger := Noted(l, fault))
    case Wait(fault) => s.(parent := Reading, ledger := Noted(l, fault))
    case Read(fault) =>
      s.(parent := Judging, ledger := Noted(l, fault).(receipt := if fault.Fine? then s.result else NoReceipt))
    case Judge => s.(parent := if l.errors > 0 || !l.receipt.Verified? then Emergency(0) else RetainingErrors)
    case RetainEmergency(fault) => s.(parent := RetainingErrors, ledger := Noted(l, fault))
    case RetainErrors(fault) =>
      s.(parent := Leaving, ledger := Noted(l, fault).(retained := l.errors == 0 || fault.Fine?))
    case Leave => s.(parent := Exited(ExitOf(l), s.seen))
  }

  /** `stop_verified` run by the parent: an error costs one attempt, an interruption ends it. */
  datatype RescueStep = RescueStop(fault: Fault) | RescueGet(fault: Fault, stopped: bool) | RescueGivesUp

  predicate CanRescue(s: State, r: RescueStep) {
    match r
    case RescueStop(_) => s.parent.Emergency? && s.parent.attempt < ATTEMPTS
    case RescueGet(_, _) => s.parent.Confirming?
    case RescueGivesUp => s.parent.Emergency? && s.parent.attempt >= ATTEMPTS
  }

  function Abandon(s: State, fault: Fault): State {
    s.(parent := RetainingEmergency, ledger := Noted(s.ledger, fault).(emergency := NotVerified))
  }

  function Rescue(s: State, r: RescueStep): State
    requires CanRescue(s, r)
  {
    match r
    case RescueStop(fault) =>
      if fault.Interrupt? then Abandon(s, fault)
      else s.(parent := if fault.Fine? then Confirming(s.parent.attempt) else Emergency(s.parent.attempt + 1))
    case RescueGet(fault, stopped) =>
      if fault.Interrupt? then Abandon(s, fault)
      else if fault.Fine? && stopped then
        s.(parent := RetainingEmergency, seen := true, ledger := s.ledger.(emergency := Verified))
      else s.(parent := Emergency(s.parent.attempt + 1))
    case RescueGivesUp => Abandon(s, Fine)
  }

  /** The places outside every protected `try`: before the first one, between them, and in their handlers,
      where a second interruption can land. Only while the emergency stop runs is there none. */
  predicate Unprotected(p: Parent) {
    p.Entering? || p.Touching? || p.Waiting? || p.Reading? || p.Judging?
    || p.RetainingEmergency? || p.RetainingErrors? || p.Leaving?
  }

  // ---------------------------------------------------------------- runs

  datatype Event =
    | Tick(passed: real)
    | OfWatchdog(guard: GuardStep)
    | OfSession(session: SessionStep)
    | OfCleanup(cleanup: CleanupStep)
    | OfRescue(rescue: RescueStep)
    | Escape
    | ParentDies

  predicate Enabled(s: State, e: Event) {
    match e
    case Tick(passed) => passed >= 0.0
    case OfWatchdog(g) => CanGuard(s, g)
    case OfSession(x) => CanProceed(s, x)
    case OfCleanup(c) => CanClean(s, c)
    case OfRescue(r) => CanRescue(s, r)
    case Escape => Unprotected(s.parent)
    case ParentDies => !s.parent.Exited? && !s.parent.Dead?
  }

  function Apply(s: State, e: Event): State
    requires Enabled(s, e)
  {
    match e
    case Tick(passed) => s.(now := s.now + passed)
    case OfWatchdog(g) => Guard(s, g)
    case OfSession(x) => Proceed(s, x)
    case OfCleanup(c) => Clean(s, c)
    case OfRescue(r) => Rescue(s, r)
    case Escape => s.(parent := Exited(Escaped, s.seen))
    case ParentDies => s.(parent := Dead)
  }

  predicate CanRun(s: State, trace: seq<Event>)
    decreases |trace|
  {
    trace == [] || (Enabled(s, trace[0]) && CanRun(Apply(s, trace[0]), trace[1..]))
  }

  function Run(s: State, trace: seq<Event>): State
    requires CanRun(s, trace)
    decreases |trace|
  {
    if trace == [] then s else Run(Apply(s, trace[0]), trace[1..])
  }

  // ---------------------------------------------------------------- invariant

  /** The watchdog has left its waiting loop. */
  predicate Began(s: State) {
    s.watchdog.Stopping? || s.watchdog.Checking? || s.watchdog.Saving? || !s.result.NoReceipt?
  }

  /** The start call, if one was made, was made before the watchdog's deadline. */
  predicate OnTime(s: State) { s.started.Moment? ==> s.started.at < s.expires }

  predicate ClaimsStopped(s: State) {
    s.watchdog == Saving(true) || s.result.Verified? || s.ledger.receipt.Verified? || s.ledger.emergency.Verified?
  }

  predicate Judged(p: Parent) {
    p.Emergency? || p.Confirming? || p.RetainingEmergency? || p.RetainingErrors? || p.Leaving? || p.Exited?
  }

  /** Left at the end of the cleanup, not by an interruption that escaped it. */
  predicate LeftOrderly(p: Parent) { p.Exited? && p.exit != Escaped }

  predicate BeforeCleanup(p: Parent) { p.Entering? || InBody(p) }

  /** Who may already have stopped what. */
  predicate OrderOk(s: State) {
    && (Began(s) ==> s.requested || s.now >= s.expires)
    && (s.requested ==> !BeforeCleanup(s.parent) && !s.parent.Touching?)
    && (BeforeCleanup(s.parent) ==> s.ledger.receipt.NoReceipt? && s.ledger.emergency.NoReceipt?)
    && (s.parent.Entering? || s.parent.Awaiting? || s.parent.Requesting? || s.parent.Starting? ==> s.started.Never?)
  }

  /** Where the parent's verdicts come from. */
  predicate VerdictOk(s: State) {
    && (!s.parent.Dead? && !Judged(s.parent) ==> s.ledger.emergency.NoReceipt?)
    && (s.parent.Emergency? || s.parent.Confirming? ==> s.ledger.emergency.NoReceipt?)
    && (s.parent.RetainingEmergency? ==> !s.ledger.emergency.NoReceipt?)
    && (s.parent.RetainingErrors? || s.parent.Leaving? || LeftOrderly(s.parent) ==>
          !s.ledger.emergency.NoReceipt? || s.ledger.receipt.Verified?)
    && (LeftOrderly(s.parent) ==> s.parent.exit == ExitOf(s.ledger))
  }

  predicate SeenOk(s: State) {
    && (OnTime(s) && ClaimsStopped(s) ==> s.seen)
    && (OnTime(s) && LeftOrderly(s.parent) && s.parent.exit != StopUnverified ==> s.parent.backed)
  }

  predicate HandshakeOk(s: State) {
    && (s.parent.Requesting? || s.parent.Starting? || s.started.Moment? ==>
          s.armed && s.handshake.Moment? && s.expires - s.handshake.at >= START_RESERVE)
    && (s.handshake.Moment? ==> s.handshake.at <= s.now)
    && (s.handshake.Moment? && s.started.Moment? ==> s.handshake.at <= s.started.at <= s.now)
  }

  predicate Inv(s: State) { OrderOk(s) && VerdictOk(s) && SeenOk(s) && HandshakeOk(s) }

  lemma GuardKeeps(s: State, g: GuardStep)
    requires Inv(s) && CanGuard(s, g)
    ensures Inv(Guard(s, g))
  {
  }

  lemma ProceedKeeps(s: State, x: SessionStep)
    requires Inv(s) && CanProceed(s, x)
    ensures Inv(Proceed(s, x))
  {
  }

  lemma CleanKeeps(s: State, c: CleanupStep)
    requires Inv(s) && CanClean(s, c)
    ensures Inv(Clean(s, c))
  {
  }

  lemma AbandonKeeps(s: State, fault: Fault)
    requires Inv(s) && (s.parent.Emergency? || s.parent.Confirming?)
    ensures Inv(Abandon(s, fault))
  {
  }

  lemma RescueKeeps(s: State, r: RescueStep)
    requires Inv(s) && CanRescue(s, r)
    ensures Inv(Rescue(s, r))
  {
    match r
    case RescueStop(fault) => if fault.Interrupt? { AbandonKeeps(s, fault); }
    case RescueGet(fault, _) => if fault.Interrupt? { AbandonKeeps(s, fault); }
    case RescueGivesUp => AbandonKeeps(s, Fine);
  }

  lemma StepKeepsInv(s: State, e: Event)
    requires Inv(s) && Enabled(s, e)
    ensures Inv(Apply(s, e))
  {
    match e
    case Tick(_) =>
    case OfWatchdog(g) => GuardKeeps(s, g);
    case OfSession(x) => ProceedKeeps(s, x);
    case OfCleanup(c) => CleanKeeps(s, c);
    case OfRescue(r) => RescueKeeps(s, r);
    case Escape =>
    case ParentDies =>
  }

  lemma {:induction false} RunKeepsInv(s: State, trace: seq<Event>)
    requires Inv(s) && CanRun(s, trace)
    ensures Inv(Run(s, trace))
    decreases |trace|
  {
    if trace != [] {
      StepKeepsInv(s, trace[0]);
      RunKeepsInv(Apply(s, trace[0]), trace[1..]);
    }
  }

  // ---------------------------------------------------------------- theorems

  /** Unless an interruption escapes the cleanup, a session that began its start on time leaves `bounded_vm`
      only with a STOPPED read-back made after that start, or with the stop-unverified error; and that error
      is raised exactly when the emergency stop could not be verified, whatever else went wrong. */
  lemma NeverLeftUnverified(s: State, trace: seq<Event>)
    requires Initial(s) && CanRun(s, trace)
    ensures var t := Run(s, trace); LeftOrderly(t.parent) ==>
      && (t.parent.exit == StopUnverified <==> t.ledger.emergency.NotVerified?)
      && (OnTime(t) && t.parent.exit != StopUnverified ==> t.parent.backed)
  {
    RunKeepsInv(s, trace);
  }

  /** An interruption lands outside a protected `try` while the machine has not been read back as stopped. */
  predicate EscapesUnseen(s: State, trace: seq<Event>)
    requires CanRun(s, trace)
    decreases |trace|
  {
    trace != [] && ((trace[0] == Escape && !s.seen) || EscapesUnseen(Apply(s, trace[0]), trace[1..]))
  }

  /** Nothing happens to a parent that has left, and nothing escapes any more. */
  lemma {:induction false} StaysLeft(s: State, trace: seq<Event>)
    requires CanRun(s, trace) && s.parent.Exited?
    ensures var t := Run(s, trace); t.parent == s.parent && t.started == s.started && t.expires == s.expires
    ensures !EscapesUnseen(s, trace)
    decreases |trace|
  {
    if trace != [] { StaysLeft(Apply(s, trace[0]), trace[1..]); }
  }

  lemma LeavingStep(s: State, e: Event)
    requires Inv(s) && !s.parent.Exited? && Enabled(s, e) && Apply(s, e).parent.Exited?
    ensures var p := Apply(s, e).parent;
      p.exit != StopUnverified && OnTime(Apply(s, e)) ==> (p.backed <==> !(e == Escape && !s.seen))
  {
    StepKeepsInv(s, e);
  }

  lemma StayingStep(s: State, e: Event)
    requires Enabled(s, e) && !Apply(s, e).parent.Exited?
    ensures e != Escape
  {
  }

  /** Exactly when the block is left without a read-back. Of a session that began its start on time and did
      not raise the stop-unverified error, the machine had been read back as stopped if and only if no
      interruption landed outside a protected `try` before that. */
  lemma {:induction false} BackedIffNothingEscaped(s: State, trace: seq<Event>)
    requires Inv(s) && !s.parent.Exited? && CanRun(s, trace)
    ensures var t := Run(s, trace);
      t.parent.Exited? && t.parent.exit != StopUnverified && OnTime(t) ==>
        (t.parent.backed <==> !EscapesUnseen(s, trace))
    decreases |trace|
  {
    if trace != [] {
      var next := Apply(s, trace[0]);
      StepKeepsInv(s, trace[0]);
      if next.parent.Exited? {
        LeavingStep(s, trace[0]);
        StaysLeft(next, trace[1..]);
      } else {
        StayingStep(s, trace[0]);
        BackedIffNothingEscaped(next, trace[1..]);
      }
    }
  }

  // ---------------------------------------------------------------- what leaves the block

  predicate Occurs(trace: seq<Event>, what: Event -> bool) { exists i :: 0 <= i < |trace| && what(trace[i]) }

  lemma OccursFirst(trace: seq<Event>, what: Event -> bool)
    requires trace != []
    ensures Occurs(trace, what) <==> what(trace[0]) || Occurs(trace[1..], what)
  {
    if i :| 0 <= i < |trace[1..]| && what(trace[1..][i]) { assert what(trace[i + 1]); }
    if i :| 0 < i < |trace| && what(trace[i]) { assert what(trace[1..][i - 1]); }
  }

  /** The caller's body, or a statement before it in the same `try`, raises. */
  predicate BodyFailure(e: Event) { e == OfSession(BodyFails) }

  /** The fault of a cleanup statement. */
  function FaultOf(e: Event): Fault {
    match e
    case OfCleanup(Touch(fault)) => fault
    case OfCleanup(Wait(fault)) => fault
    case OfCleanup(Read(fault)) => fault
    case OfCleanup(RetainEmergency(fault)) => fault
    case OfCleanup(RetainErrors(fault)) => fault
    case OfRescue(RescueStop(fault)) => fault
    case OfRescue(RescueGet(fault, _)) => fault
    case _ => Fine
  }

  predicate Interrupted(e: Event) { FaultOf(e).Interrupt? }

  /** A statement before the verdict on the watchdog's receipt fails. */
  predicate EarlyFault(e: Event) {
    e.OfCleanup? && (e.cleanup.Touch? || e.cleanup.Wait? || e.cleanup.Read?) && !FaultOf(e).Fine?
  }

  /** The emergency stop is given up, or interrupted. */
  predicate FailedStop(e: Event) { e == OfRescue(RescueGivesUp) || (e.OfRescue? && FaultOf(e).Interrupt?) }

  /** The record of the errors cannot be saved. */
  predicate LostEvidence(e: Event) { e.OfCleanup? && e.cleanup.RetainErrors? && !FaultOf(e).Fine? }

  /** Evidence counts as retained until its saving has been tried. */
  predicate LedgerOk(s: State) { !s.ledger.retained ==> s.parent.Leaving? || s.parent.Exited? || s.parent.Dead? }

  /** What one event adds to the ledger. */
  predicate LedgerAdds(s: State, e: Event, after: State) {
    var l, m := s.ledger, after.ledger;
    && LedgerOk(after)
    && (m.inflight <==> l.inflight || BodyFailure(e))
    && (m.interrupted <==> l.interrupted || Interrupted(e))
    && (m.emergency.NotVerified? <==> l.emergency.NotVerified? || FailedStop(e))
    && (!m.retained <==> !l.retained || LostEvidence(e))
  }

  lemma CleanAdds(s: State, c: CleanupStep)
    requires LedgerOk(s) && CanClean(s, c)
    ensures LedgerAdds(s, OfCleanup(c), Clean(s, c))
  {
  }

  lemma RescueAdds(s: State, r: RescueStep)
    requires VerdictOk(s) && LedgerOk(s) && CanRescue(s, r)
    ensures LedgerAdds(s, OfRescue(r), Rescue(s, r))
  {
  }

  lemma LedgerStep(s: State, e: Event)
    requires Inv(s) && LedgerOk(s) && Enabled(s, e)
    ensures LedgerAdds(s, e, Apply(s, e))
  {
    match e
    case OfCleanup(c) => CleanAdds(s, c);
    case OfRescue(r) => RescueAdds(s, r);
    case Tick(_) =>
    case OfWatchdog(_) =>
    case OfSession(_) =>
    case Escape =>
    case ParentDies =>
  }

  /** What the cleanup has collected, from the events alone. */
  lemma {:induction false} LedgerOfTrace(s: State, trace: seq<Event>)
    requires Inv(s) && LedgerOk(s) && CanRun(s, trace)
    ensures var l, m := s.ledger, Run(s, trace).ledger;
      && (m.inflight <==> l.inflight || Occurs(trace, BodyFailure))
      && (m.interrupted <==> l.interrupted || Occurs(trace, Interrupted))
      && (m.emergency.NotVerified? <==> l.emergency.NotVerified? || Occurs(trace, FailedStop))
      && (!m.retained <==> !l.retained || Occurs(trace, LostEvidence))
    decreases |trace|
  {
    if trace != [] {
      StepKeepsInv(s, trace[0]);
      LedgerStep(s, trace[0]);
      LedgerOfTrace(Apply(s, trace[0]), trace[1..]);
      OccursFirst(trace, BodyFailure);
      OccursFirst(trace, Interrupted);
      OccursFirst(trace, FailedStop);
      OccursFirst(trace, LostEvidence);
    }
  }

  /** The emergency stop has run, is running, or is bound to run. */
  predicate NeedsStop(s: State) {
    if Judged(s.parent) then !s.ledger.emergency.NoReceipt? || s.parent.Emergency? || s.parent.Confirming?
    else s.ledger.errors > 0
  }

  /** What one event makes of the need. */
  predicate NeedMoves(s: State, e: Event, t: State) {
    && (Judged(s.parent) ==> Judged(t.parent) && t.ledger.receipt == s.ledger.receipt && !EarlyFault(e))
    && (NeedsStop(t) <==> NeedsStop(s) || EarlyFault(e)
                          || (!Judged(s.parent) && Judged(t.parent) && !t.ledger.receipt.Verified?))
  }

  lemma CleanNeeds(s: State, c: CleanupStep)
    requires VerdictOk(s) && CanClean(s, c)
    ensures NeedMoves(s, OfCleanup(c), Clean(s, c))
  {
  }

  lemma RescueNeeds(s: State, r: RescueStep)
    requires VerdictOk(s) && CanRescue(s, r)
    ensures NeedMoves(s, OfRescue(r), Rescue(s, r))
  {
  }

  lemma SessionNeeds(s: State, x: SessionStep)
    requires CanProceed(s, x)
    ensures NeedMoves(s, OfSession(x), Proceed(s, x))
  {
  }

  lemma NeedStep(s: State, e: Event)
    requires Inv(s) && Enabled(s, e) && e != Escape && e != ParentDies
    ensures NeedMoves(s, e, Apply(s, e))
  {
    hide Clean, Rescue, Proceed, CanClean, CanRescue, CanProceed, OrderOk, SeenOk, HandshakeOk;
    match e
    case OfCleanup(c) => CleanNeeds(s, c);
    case OfRescue(r) => RescueNeeds(s, r);
    case OfSession(x) => SessionNeeds(s, x);
    case Tick(_) =>
    case OfWatchdog(g) =>
  }

  lemma {:induction false} DeadStaysDead(s: State, trace: seq<Event>)
    requires CanRun(s, trace) && (s.parent.Dead? || s.parent.Exited?)
    ensures Run(s, trace).parent == s.parent && Run(s, trace).ledger == s.ledger && !Occurs(trace, EarlyFault)
    decreases |trace|
  {
    if trace != [] {
      DeadStaysDead(Apply(s, trace[0]), trace[1..]);
      OccursFirst(trace, EarlyFault);
    }
  }

  lemma {:induction false} StopNeeded(s: State, trace: seq<Event>)
    requires Inv(s) && CanRun(s, trace) && LeftOrderly(Run(s, trace).parent)
    ensures var l := Run(s, trace).ledger;
      !l.emergency.NoReceipt? <==>
        NeedsStop(s) || Occurs(trace, EarlyFault) || (!Judged(s.parent) && !l.receipt.Verified?)
    decreases |trace|
  {
    if s.parent.Dead? || s.parent.Exited? {
      DeadStaysDead(s, trace);
    } else {
      var next := Apply(s, trace[0]);
      StepKeepsInv(s, trace[0]);
      if next.parent.Dead? || next.parent.Exited? { DeadStaysDead(next, trace[1..]); }
      OccursFirst(trace, EarlyFault);
      hide Apply, Enabled, Inv, NeedsStop, OrderOk, VerdictOk, SeenOk, HandshakeOk;
      if trace[0] != Escape && trace[0] != ParentDies {
        NeedStep(s, trace[0]);
        StopNeeded(next, trace[1..]);
        if Judged(next.parent) { ReceiptKept(next, trace[1..]); }
      }
    }
  }

  /** Once the parent has judged the watchdog's receipt it does not read another. */
  lemma {:induction false} ReceiptKept(s: State, trace: seq<Event>)
    requires Inv(s) && CanRun(s, trace) && Judged(s.parent)
    ensures Run(s, trace).ledger.receipt == s.ledger.receipt
    decreases |trace|
  {
    if trace != [] {
      var next := Apply(s, trace[0]);
      StepKeepsInv(s, trace[0]);
      if trace[0] == Escape || trace[0] == ParentDies {
        DeadStaysDead(next, trace[1..]);
      } else {
        NeedStep(s, trace[0]);
        hide Apply, Enabled, Inv, NeedsStop;
        ReceiptKept(next, trace[1..]);
      }
    }
  }

  /** The parent stops the machine itself exactly when touching, waiting or reading went wrong, or the receipt it read
      does not verify the stop. */
  lemma EmergencyIff(s: State, trace: seq<Event>)
    requires Initial(s) && CanRun(s, trace) && LeftOrderly(Run(s, trace).parent)
    ensures var l := Run(s, trace).ledger;
      !l.emergency.NoReceipt? <==> Occurs(trace, EarlyFault) || !l.receipt.Verified?
  {
    StopNeeded(s, trace);
  }

  /** What leaves the block when the cleanup runs to its end, from the events of the run alone, in the order of
      precedence: an emergency stop that was given up or interrupted; the first interruption of the cleanup; the
      error of the body; errors that could not be recorded; and nothing. */
  lemma ExitIs(s: State, trace: seq<Event>)
    requires Initial(s) && CanRun(s, trace) && LeftOrderly(Run(s, trace).parent)
    ensures Run(s, trace).parent.exit ==
      if Occurs(trace, FailedStop) then StopUnverified
      else if Occurs(trace, Interrupted) then Interruption
      else if Occurs(trace, BodyFailure) then BodyError
      else if Occurs(trace, LostEvidence) then EvidenceLost
      else Normal
  {
    RunKeepsInv(s, trace);
    LedgerOfTrace(s, trace);
  }

  /** The machine is started only after the armed watchdog's handshake with at least 590 seconds left, so a
      parent that takes less than 590 seconds from there to its start call starts on time. */
  lemma StartedAfterHandshake(s: State, trace: seq<Event>)
    requires Initial(s) && CanRun(s, trace)
    ensures var t := Run(s, trace); t.started.Moment? ==>
      && t.armed && t.handshake.Moment? && t.handshake.at <= t.started.at
      && t.expires - t.handshake.at >= START_RESERVE
      && (t.started.at - t.handshake.at < START_RESERVE ==> OnTime(t))
  {
    RunKeepsInv(s, trace);
  }

  lemma {:induction false} Extend(s: State, trace: seq<Event>, e: Event)
    requires CanRun(s, trace) && Enabled(Run(s, trace), e)
    ensures CanRun(s, trace + [e]) && Run(s, trace + [e]) == Apply(Run(s, trace), e)
    decreases |trace|
  {
    if trace == [] {
      assert trace + [e] == [e] && [e][1..] == [];
    } else {
      assert (trace + [e])[1..] == trace[1..] + [e];
      Extend(Apply(s, trace[0]), trace[1..], e);
    }
  }

  /** At its deadline the watchdog can stop, verify and end while the parent has not moved. */
  lemma WatchdogFirst(s: State) returns (trace: seq<Event>)
    requires s.watchdog == Watching && s.now >= s.expires
    ensures CanRun(s, trace)
    ensures Run(s, trace) ==
      s.(watchdog := Ended(true), result := Verified, seen := true, stopCalls := s.stopCalls + 1)
  {
    trace := [];
    Extend(s, trace, OfWatchdog(Begin));
    trace := trace + [OfWatchdog(Begin)];
    Extend(s, trace, OfWatchdog(Stop(true)));
    trace := trace + [OfWatchdog(Stop(true))];
    Extend(s, trace, OfWatchdog(Get(true)));
    trace := trace + [OfWatchdog(Get(true))];
    Extend(s, trace, OfWatchdog(Save(true)));
    trace := trace + [OfWatchdog(Save(true))];
  }

  /** From the end of the body, with a verified receipt on disk, the parent leaves normally without
      looking at the machine. */
  lemma LeavesQuietly(s: State, start: seq<Event>) returns (trace: seq<Event>)
    requires CanRun(s, start)
    requires var t := Run(s, start);
      t.parent == Body && t.watchdog == Ended(true) && t.result.Verified? && t.ledger.errors == 0
      && !t.ledger.interrupted && !t.ledger.inflight && t.ledger.emergency.NoReceipt?
    ensures CanRun(s, trace)
    ensures var t, u := Run(s, start), Run(s, trace);
      u.parent == Exited(Normal, t.seen) && u.started == t.started
  {
    trace := start;
    Extend(s, trace, OfSession(BodyDone));
    trace := trace + [OfSession(BodyDone)];
    Extend(s, trace, OfCleanup(Touch(Fine)));
    trace := trace + [OfCleanup(Touch(Fine))];
    Extend(s, trace, OfCleanup(Wait(Fine)));
    trace := trace + [OfCleanup(Wait(Fine))];
    Extend(s, trace, OfCleanup(Read(Fine)));
    trace := trace + [OfCleanup(Read(Fine))];
    Extend(s, trace, OfCleanup(Judge));
    trace := trace + [OfCleanup(Judge)];
    Extend(s, trace, OfCleanup(RetainErrors(Fine)));
    trace := trace + [OfCleanup(RetainErrors(Fine))];
    Extend(s, trace, OfCleanup(Leave));
    trace := trace + [OfCleanup(Leave)];
  }

  /** Being on time is needed: from any state in which the deadline has passed before the start call, the
      parent can still leave normally although nothing was read back after the start. The watchdog stops
      and verifies first, the start follows, and the receipt of the earlier stop is accepted. */
  lemma LateStartEscapes(s: State) returns (trace: seq<Event>)
    requires Inv(s) && s.parent == Starting && s.watchdog == Watching && s.now >= s.expires
    requires s.ledger.errors == 0 && !s.ledger.inflight && !s.ledger.interrupted
    ensures CanRun(s, trace)
    ensures Run(s, trace).parent == Exited(Normal, false) && Run(s, trace).started == Moment(s.now)
  {
    trace := WatchdogFirst(s);
    Extend(s, trace, OfSession(Start));
    trace := trace + [OfSession(Start)];
    Extend(s, trace, OfSession(StartRecorded));
    trace := LeavesQuietly(s, trace + [OfSession(StartRecorded)]);
  }

  /** The first steps of a session that goes well: the watchdog arms, and the parent is about to start. */
  lemma ReachesStart(s: State) returns (trace: seq<Event>)
    requires Initial(s)
    ensures CanRun(s, trace)
    ensures Run(s, trace) ==
      s.(parent := Starting, watchdog := Watching, armed := true, handshake := Moment(s.now))
  {
    trace := [];
    Extend(s, trace, OfSession(Enter));
    trace := trace + [OfSession(Enter)];
    Extend(s, trace, OfWatchdog(Arm));
    trace := trace + [OfWatchdog(Arm)];
    Extend(s, trace, OfSession(Handshake));
    trace := trace + [OfSession(Handshake)];
    Extend(s, trace, OfSession(RequestSaved));
    trace := trace + [OfSession(RequestSaved)];
  }

  lemma {:induction false} Joined(s: State, a: seq<Event>, b: seq<Event>)
    requires CanRun(s, a) && CanRun(Run(s, a), b)
    ensures CanRun(s, a + b) && Run(s, a + b) == Run(Run(s, a), b)
    decreases |a|
  {
    if a == [] {
      assert a + b == b;
    } else {
      assert (a + b)[1..] == a[1..] + b;
      Joined(Apply(s, a[0]), a[1..], b);
    }
  }

  /** Such a late start happens: ten minutes pass between the handshake and the start call. */
  lemma LateStartHappens(s: State) returns (trace: seq<Event>)
    requires Initial(s)
    ensures CanRun(s, trace) && Run(s, trace).parent == Exited(Normal, false)
    ensures Run(s, trace).started == Moment(s.now + ARMED_SECONDS)
  {
    var start := ReachesStart(s);
    Extend(s, start, Tick(ARMED_SECONDS));
    start := start + [Tick(ARMED_SECONDS)];
    RunKeepsInv(s, start);
    var rest := LateStartEscapes(Run(s, start));
    Joined(s, start, rest);
    trace := start + rest;
  }

  /** So does an escape: a machine started in time is left running by an interruption that lands before the
      first `try` of the cleanup, with no read-back and no emergency stop. */
  lemma EscapeHappens(s: State) returns (trace: seq<Event>)
    requires Initial(s)
    ensures CanRun(s, trace) && Run(s, trace).parent == Exited(Escaped, false)
    ensures Run(s, trace).started == Moment(s.now) && OnTime(Run(s, trace)) && Run(s, trace).stopCalls == 0
  {
    trace := ReachesStart(s);
    Extend(s, trace, OfSession(Start));
    trace := trace + [OfSession(Start)];
    Extend(s, trace, OfSession(StartRecorded));
    trace := trace + [OfSession(StartRecorded)];
    Extend(s, trace, OfSession(BodyDone));
    trace := trace + [OfSession(BodyDone)];
    Extend(s, trace, Escape);
    trace := trace + [Escape];
  }

  // ---------------------------------------------------------------- the surviving watchdog

  /** Stop calls are counted by the attempts made, and the watchdog ends only after one. */
  predicate Counted(s: State) {
    match s.watchdog
    case Spawned => false
    case Watching => s.stopCalls == 0
    case Stopping(k) => s.stopCalls == k <= ATTEMPTS
    case Checking(k) => s.stopCalls == k + 1 <= ATTEMPTS
    case Saving(_) => 0 < s.stopCalls <= ATTEMPTS
    case Ended(_) => 0 < s.stopCalls <= ATTEMPTS
  }

  predicate NoDeath(trace: seq<Event>) { forall i :: 0 <= i < |trace| ==> trace[i] != OfWatchdog(Die) }

  lemma CountedKept(s: State, e: Event)
    requires Counted(s) && Enabled(s, e) && e != OfWatchdog(Die)
    ensures Counted(Apply(s, e))
  {
    if e.OfWatchdog? { assert e.guard != Die; }
  }

  /** The step that the watchdog takes next, once it may leave its waiting loop. */
  function Next(w: Watchdog): GuardStep
    requires !w.Ended? && !w.Spawned?
  {
    match w
    case Watching => Begin
    case Stopping(k) => if k < ATTEMPTS then Stop(true) else GiveUp
    case Checking(_) => Get(true)
    case Saving(_) => Save(true)
  }

  /** How many steps the watchdog has left. */
  function Rank(w: Watchdog): int {
    match w
    case Spawned => 10
    case Watching => 9
    case Stopping(k) => 8 - 2 * k
    case Checking(k) => 7 - 2 * k
    case Saving(_) => 1
    case Ended(_) => 0
  }

  function WatchdogSteps(trace: seq<Event>): nat {
    if trace == [] then 0 else (if trace[0].OfWatchdog? then 1 else 0) + WatchdogSteps(trace[1..])
  }

  lemma StepRanks(s: State, e: Event)
    requires Counted(s) && Enabled(s, e) && e != OfWatchdog(Die)
    ensures Rank(Apply(s, e).watchdog) <= Rank(s.watchdog) - (if e.OfWatchdog? then 1 else 0)
  {
    if e.OfWatchdog? { assert e.guard != Die; }
  }

  /** An armed watchdog that is not killed stops the machine whatever becomes of the parent: from its deadline
      on it can always take its next step, its second step at the latest is a stop call, it ends within nine
      steps, and only after one to three stop calls. */
  lemma {:induction false} ArmedWatchdogStops(s: State, trace: seq<Event>)
    requires Counted(s) && CanRun(s, trace) && NoDeath(trace)
    ensures var t := Run(s, trace);
      && Counted(t) && 0 <= Rank(t.watchdog) <= Rank(s.watchdog) - WatchdogSteps(trace)
      && (WatchdogSteps(trace) >= 2 ==> t.stopCalls > 0)
      && (WatchdogSteps(trace) >= 9 ==> t.watchdog.Ended?)
      && (t.watchdog.Ended? ==> 0 < t.stopCalls <= ATTEMPTS)
      && (t.now >= t.expires && !t.watchdog.Ended? ==> CanGuard(t, Next(t.watchdog)))
    decreases |trace|
  {
    if trace != [] {
      CountedKept(s, trace[0]);
      StepRanks(s, trace[0]);
      assert forall i :: 0 <= i < |trace| - 1 ==> trace[1..][i] == trace[i + 1];
      ArmedWatchdogStops(Apply(s, trace[0]), trace[1..]);
    }
  }
}
