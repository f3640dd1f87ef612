/**
 What the parent and the watchdog of scripts/nebius_mlflow_watchdog.py hold at any moment, from the events of the run
 alone; and that both stop attempts come to the end that the provider's answers give them.
 */
module BoundedVmHistory {
  import opened BoundedVm

  // ---------------------------------------------------------------- events

  /** The watchdog reads the machine back as stopped. */
  predicate StoppedRead(e: Event) { e == OfWatchdog(Get(true)) }

  /** The parent does. */
  predicate OwnRead(e: Event) { e == OfRescue(RescueGet(Fine, true)) }

  predicate ReadsBack(e: Event) { StoppedRead(e) || OwnRead(e) }
  predicate Saved(e: Event) { e.OfWatchdog? && e.guard.Save? }
  predicate SavedClean(e: Event) { e == OfWatchdog(Save(true)) }
  predicate Asked(e: Event) { e == OfCleanup(Touch(Fine)) }
  predicate GaveUp(e: Event) { e == OfRescue(RescueGivesUp) }
  predicate OwnStop(e: Event) { e.OfRescue? && e.rescue.RescueStop? }

  function Count(trace: seq<Event>, what: Event -> bool): nat {
    if trace == [] then 0
    else Count(trace[..|trace| - 1], what) + (if what(trace[|trace| - 1]) then 1 else 0)
  }

  /** The machine has been read back as stopped and no start call was made after that. */
  predicate SeenSinceStart(trace: seq<Event>) {
    exists i :: 0 <= i < |trace| && ReadsBack(trace[i]) && forall j :: i < j < |trace| ==> trace[j] != OfSession(Start)
  }

  // ---------------------------------------------------------------- one more event

  lemma {:induction false} LastStep(s: State, trace: seq<Event>)
    requires trace != [] && CanRun(s, trace)
    ensures var before, e := trace[..|trace| - 1], trace[|trace| - 1];
      && CanRun(s, before) && Enabled(Run(s, before), e) && Run(s, trace) == Apply(Run(s, before), e)
    decreases |trace|
  {
    if |trace| > 1 {
      LastStep(Apply(s, trace[0]), trace[1..]);
      assert trace[1..][..|trace| - 2] == trace[..|trace| - 1][1..];
    }
  }

  lemma OccursLast(trace: seq<Event>, what: Event -> bool)
    requires trace != []
    ensures Occurs(trace, what) <==> Occurs(trace[..|trace| - 1], what) || what(trace[|trace| - 1])
  {
    var before := trace[..|trace| - 1];
    if i :| 0 <= i < |before| && what(before[i]) { assert what(trace[i]); }
    if i :| 0 <= i < |before| && what(trace[i]) { assert what(before[i]); }
  }

  lemma SeenLast(trace: seq<Event>)
    requires trace != []
    ensures var e := trace[|trace| - 1];
      SeenSinceStart(trace) <==>
        ReadsBack(e) || (SeenSinceStart(trace[..|trace| - 1]) && e != OfSession(Start))
  {
    var before, e := trace[..|trace| - 1], trace[|trace| - 1];
    if i :| 0 <= i < |before| && ReadsBack(before[i])
            && forall j :: i < j < |before| ==> before[j] != OfSession(Start) {
      assert ReadsBack(trace[i]);
      assert forall j :: i < j < |before| ==> trace[j] == before[j];
    }
    if i :| 0 <= i < |trace| && ReadsBack(trace[i])
            && forall j :: i < j < |trace| ==> trace[j] != OfSession(Start) {
      if i < |before| {
        assert ReadsBack(before[i]);
        assert forall j :: i < j < |before| ==> before[j] == trace[j];
      }
    }
  }

  // ---------------------------------------------------------------- the watchdog

  predicate AtWork(w: Watchdog) { w.Spawned? || w.Watching? || w.Stopping? || w.Checking? }

  predicate WatchdogFits(s: State, saved: bool, clean: bool, read: bool) {
    && (AtWork(s.watchdog) ==> !read && !saved)
    && (s.watchdog.Saving? ==> (s.watchdog.verified <==> read) && !saved)
    && (clean ==> saved) && (s.watchdog == Ended(true) <==> clean && read)
    && (!s.result.NoReceipt? <==> saved) && (s.result.Verified? <==> saved && read)
  }

  lemma WatchdogStep(s: State, e: Event, saved: bool, clean: bool, read: bool)
    requires WatchdogFits(s, saved, clean, read) && Enabled(s, e)
    ensures WatchdogFits(Apply(s, e), saved || Saved(e), clean || SavedClean(e), read || StoppedRead(e))
  {
    if e.OfWatchdog? {
      assert Apply(s, e) == Guard(s, e.guard);
    } else {
      assert Apply(s, e).watchdog == s.watchdog && Apply(s, e).result == s.result;
    }
  }

  /** The watchdog's receipt says that the stop is verified exactly when it read the machine back as stopped before it
      saved the receipt, and it ends with code 0 exactly when, besides, nothing went wrong in saving it. */
  lemma {:induction false} ReceiptIs(s: State, trace: seq<Event>)
    requires Initial(s) && CanRun(s, trace)
    ensures WatchdogFits(Run(s, trace), Occurs(trace, Saved), Occurs(trace, SavedClean), Occurs(trace, StoppedRead))
    decreases |trace|
  {
    if trace != [] {
      var before, e := trace[..|trace| - 1], trace[|trace| - 1];
      LastStep(s, trace);
      ReceiptIs(s, before);
      WatchdogStep(Run(s, before), e, Occurs(before, Saved), Occurs(before, SavedClean), Occurs(before, StoppedRead));
      OccursLast(trace, Saved);
      OccursLast(trace, SavedClean);
      OccursLast(trace, StoppedRead);
    }
  }

  // ---------------------------------------------------------------- the parent

  predicate ParentFits(s: State, asked: bool, seen: bool, calls: nat, own: bool, gaveUp: bool) {
    && (s.requested <==> asked) && (s.seen <==> seen)
    && calls <= 3 && (s.ledger.emergency.Verified? <==> own) && (gaveUp ==> calls == 3 && !own)
    && (s.parent.Emergency? ==> calls == s.parent.attempt) && (s.parent.Confirming? ==> calls == s.parent.attempt + 1)
    && (!s.parent.Dead? && !Judged(s.parent) ==> calls == 0)
    && (s.parent.Emergency? || s.parent.Confirming? || (!s.parent.Dead? && !Judged(s.parent)) ==> !own && !gaveUp)
  }

  /** What one event makes of it. */
  predicate StillFits(t: State, e: Event, asked: bool, seen: bool, calls: nat, own: bool, gaveUp: bool) {
    ParentFits(t, asked || Asked(e), ReadsBack(e) || (seen && e != OfSession(Start)),
               calls + (if OwnStop(e) then 1 else 0), own || OwnRead(e), gaveUp || GaveUp(e))
  }

  lemma CleanFits(s: State, c: CleanupStep, asked: bool, seen: bool, calls: nat, own: bool, gaveUp: bool)
    requires ParentFits(s, asked, seen, calls, own, gaveUp) && VerdictOk(s) && CanClean(s, c)
    ensures StillFits(Clean(s, c), OfCleanup(c), asked, seen, calls, own, gaveUp)
  {
  }

  lemma RescueFits(s: State, r: RescueStep, asked: bool, seen: bool, calls: nat, own: bool, gaveUp: bool)
    requires ParentFits(s, asked, seen, calls, own, gaveUp) && VerdictOk(s) && CanRescue(s, r)
    ensures StillFits(Rescue(s, r), OfRescue(r), asked, seen, calls, own, gaveUp)
  {
  }

  lemma SessionFits(s: State, x: SessionStep, asked: bool, seen: bool, calls: nat, own: bool, gaveUp: bool)
    requires ParentFits(s, asked, seen, calls, own, gaveUp) && CanProceed(s, x)
    ensures StillFits(Proceed(s, x), OfSession(x), asked, seen, calls, own, gaveUp)
  {
  }

  lemma GuardFits(s: State, g: GuardStep, asked: bool, seen: bool, calls: nat, own: bool, gaveUp: bool)
    requires ParentFits(s, asked, seen, calls, own, gaveUp) && CanGuard(s, g)
    ensures StillFits(Guard(s, g), OfWatchdog(g), asked, seen, calls, own, gaveUp)
  {
  }

  lemma ParentStep(s: State, e: Event, asked: bool, seen: bool, calls: nat, own: bool, gaveUp: bool)
    requires ParentFits(s, asked, seen, calls, own, gaveUp) && VerdictOk(s) && Enabled(s, e)
    ensures StillFits(Apply(s, e), e, asked, seen, calls, own, gaveUp)
  {
    hide Clean, Rescue, Proceed, Guard, CanClean, CanRescue, CanProceed, CanGuard;
    match e
    case OfWatchdog(g) => GuardFits(s, g, asked, seen, calls, own, gaveUp);
    case OfSession(x) => SessionFits(s, x, asked, seen, calls, own, gaveUp);
    case OfCleanup(c) => CleanFits(s, c, asked, seen, calls, own, gaveUp);
    case OfRescue(r) => RescueFits(s, r, asked, seen, calls, own, gaveUp);
    case Tick(_) =>
    case Escape =>
    case ParentDies =>
  }

  /** The stop is requested exactly when the marker was touched; the machine counts as seen stopped exactly when
      somebody read it back after the last start call; the parent makes at most three stop calls of its own, gives up
      only after three, and holds its own stop for verified exactly when it read the machine back as stopped. */
  lemma {:induction false} ParentIs(s: State, trace: seq<Event>)
    requires Initial(s) && CanRun(s, trace)
    ensures ParentFits(Run(s, trace), Occurs(trace, Asked), SeenSinceStart(trace), Count(trace, OwnStop),
                       Occurs(trace, OwnRead), Occurs(trace, GaveUp))
    decreases |trace|
  {
    if trace != [] {
      var before, e := trace[..|trace| - 1], trace[|trace| - 1];
      LastStep(s, trace);
      ParentIs(s, before);
      RunKeepsInv(s, before);
      ParentStep(Run(s, before), e, Occurs(before, Asked), SeenSinceStart(before), Count(before, OwnStop),
                 Occurs(before, OwnRead), Occurs(before, GaveUp));
      OccursLast(trace, Asked);
      OccursLast(trace, OwnRead);
      OccursLast(trace, GaveUp);
      SeenLast(trace);
    }
  }

  // ---------------------------------------------------------------- stop attempts

  /** How one attempt to stop fails: the stop call, the read-back call, or a machine that is not stopped. */
  datatype Failure = StopFails | GetFails | StillRunning

  lemma OwnAttemptFails(s: State, start: seq<Event>, f: Failure) returns (trace: seq<Event>)
    requires CanRun(s, start) && Run(s, start).parent.Emergency? && Run(s, start).parent.attempt < 3
    ensures CanRun(s, trace)
    ensures Run(s, trace) == Run(s, start).(parent := Emergency(Run(s, start).parent.attempt + 1))
  {
    if f.StopFails? {
      Extend(s, start, OfRescue(RescueStop(Error)));
      trace := start + [OfRescue(RescueStop(Error))];
    } else {
      Extend(s, start, OfRescue(RescueStop(Fine)));
      trace := start + [OfRescue(RescueStop(Fine))];
      var get := if f.GetFails? then RescueGet(Error, true) else RescueGet(Fine, false);
      Extend(s, trace, OfRescue(get));
      trace := trace + [OfRescue(get)];
    }
  }

  /** The parent's own stop ends verified if it succeeds after fewer than three failed attempts, and is given up after
      three, whatever failed in them. */
  lemma OwnStopEnds(s: State, start: seq<Event>, failures: seq<Failure>) returns (trace: seq<Event>)
    requires CanRun(s, start) && Run(s, start).parent == Emergency(0) && |failures| <= 3
    ensures CanRun(s, trace)
    ensures var t, u := Run(s, start), Run(s, trace);
      u == t.(parent := RetainingEmergency, seen := t.seen || |failures| < 3,
              ledger := t.ledger.(emergency := if |failures| < 3 then Verified else NotVerified))
  {
    trace := start;
    for k := 0 to |failures|
      invariant CanRun(s, trace) && Run(s, trace) == Run(s, start).(parent := Emergency(k))
    {
      trace := OwnAttemptFails(s, trace, failures[k]);
    }
    if |failures| < 3 {
      Extend(s, trace, OfRescue(RescueStop(Fine)));
      trace := trace + [OfRescue(RescueStop(Fine))];
      Extend(s, trace, OfRescue(RescueGet(Fine, true)));
      trace := trace + [OfRescue(RescueGet(Fine, true))];
    } else {
      Extend(s, trace, OfRescue(RescueGivesUp));
      trace := trace + [OfRescue(RescueGivesUp)];
    }
  }

  lemma WatchdogAttemptFails(s: State, start: seq<Event>, f: Failure) returns (trace: seq<Event>)
    requires f != GetFails && CanRun(s, start)
    requires Run(s, start).watchdog.Stopping? && Run(s, start).watchdog.attempt < 3
    ensures CanRun(s, trace)
    ensures var t := Run(s, start);
      Run(s, trace) == t.(watchdog := Stopping(t.watchdog.attempt + 1), stopCalls := t.stopCalls + 1)
  {
    Extend(s, start, OfWatchdog(Stop(!f.StopFails?)));
    trace := start + [OfWatchdog(Stop(!f.StopFails?))];
    if !f.StopFails? {
      Extend(s, trace, OfWatchdog(Get(false)));
      trace := trace + [OfWatchdog(Get(false))];
    }
  }

  /** The watchdog, once asked or at its deadline, ends in the same way: a failed stop call costs an attempt without a
      read-back, and the receipt says what came of it. */
  lemma WatchdogStopEnds(s: State, start: seq<Event>, failures: seq<Failure>, clean: bool) returns (trace: seq<Event>)
    requires CanRun(s, start) && |failures| <= 3 && GetFails !in failures
    requires var t := Run(s, start); t.watchdog.Watching? && (t.requested || t.now >= t.expires)
    ensures CanRun(s, trace)
    ensures var t, stopped := Run(s, start), |failures| < 3;
      Run(s, trace) == t.(watchdog := Ended(stopped && clean), seen := t.seen || stopped,
                          result := if stopped then Verified else NotVerified,
                          stopCalls := t.stopCalls + |failures| + (if stopped then 1 else 0))
  {
    Extend(s, start, OfWatchdog(Begin));
    trace := start + [OfWatchdog(Begin)];
    for k := 0 to |failures|
      invariant CanRun(s, trace)
      invariant Run(s, trace) ==
        Run(s, start).(watchdog := Stopping(k), stopCalls := Run(s, start).stopCalls + k)
    {
      trace := WatchdogAttemptFails(s, trace, failures[k]);
    }
    if |failures| < 3 {
      Extend(s, trace, OfWatchdog(Stop(true)));
      trace := trace + [OfWatchdog(Stop(true))];
      Extend(s, trace, OfWatchdog(Get(true)));
      trace := trace + [OfWatchdog(Get(true))];
    } else {
      Extend(s, trace, OfWatchdog(GiveUp));
      trace := trace + [OfWatchdog(GiveUp)];
    }
    Extend(s, trace, OfWatchdog(Save(clean)));
    trace := trace + [OfWatchdog(Save(clean))];
  }

  /** The parent alone: its watchdog dies at once after arming, and the machine is started. Whether the body fails or
      not, the cleanup goes through its own stop, and leaves with the body's error, normally, or with the stop
      unverified after three failures. */
  lemma ParentAloneLeaves(s: State, bodyFails: bool, failures: seq<Failure>) returns (trace: seq<Event>)
    requires Initial(s) && |failures| <= 3
    ensures CanRun(s, trace)
    ensures var t := Run(s, trace);
      && t.started == Moment(s.now) && t.watchdog == Ended(false)
      && t.parent == Exited(if |failures| == 3 then StopUnverified else if bodyFails then BodyError else Normal,
                            |failures| < 3)
  {
    var start := ReachesStart(s);
    Extend(s, start, OfWatchdog(Die));
    start := start + [OfWatchdog(Die)];
    Extend(s, start, OfSession(Start));
    start := start + [OfSession(Start)];
    Extend(s, start, OfSession(StartRecorded));
    start := start + [OfSession(StartRecorded)];
    var last := if bodyFails then BodyFails else BodyDone;
    Extend(s, start, OfSession(last));
    start := start + [OfSession(last)];
    start := CleansUp(s, start);
    trace := OwnStopEnds(s, start, failures);
    Extend(s, trace, OfCleanup(RetainEmergency(Fine)));
    trace := trace + [OfCleanup(RetainEmergency(Fine))];
    Extend(s, trace, OfCleanup(RetainErrors(Fine)));
    trace := trace + [OfCleanup(RetainErrors(Fine))];
    Extend(s, trace, OfCleanup(Leave));
    trace := trace + [OfCleanup(Leave)];
  }

  /** Without a receipt to read the cleanup comes to its own stop. */
  lemma CleansUp(s: State, start: seq<Event>) returns (trace: seq<Event>)
    requires CanRun(s, start) && Run(s, start).parent == Touching && Run(s, start).ledger.receipt.NoReceipt?
    ensures CanRun(s, trace)
    ensures var t, u := Run(s, start), Run(s, trace);
      && u.parent == Emergency(0) && u.requested
      && u == t.(parent := Emergency(0), requested := true, ledger := t.ledger.(errors := u.ledger.errors))
      && u.ledger.errors > 0
  {
    Extend(s, start, OfCleanup(Touch(Fine)));
    trace := start + [OfCleanup(Touch(Fine))];
    Extend(s, trace, OfCleanup(Wait(Error)));
    trace := trace + [OfCleanup(Wait(Error))];
    Extend(s, trace, OfCleanup(Read(Error)));
    trace := trace + [OfCleanup(Read(Error))];
    Extend(s, trace, OfCleanup(Judge));
    trace := trace + [OfCleanup(Judge)];
  }

  /** The watchdog alone: whenever the parent dies after starting the machine, its watchdog stops the machine from the
      deadline on, and its receipt says whether that was verified. */
  lemma WatchdogAloneStops(s: State, failures: seq<Failure>) returns (trace: seq<Event>)
    requires Initial(s) && |failures| <= 3 && GetFails !in failures
    ensures CanRun(s, trace)
    ensures var t := Run(s, trace);
      && t.parent.Dead? && t.started == Moment(s.now) && t.watchdog.Ended? && t.now == s.now + 600.0
      && t.result == (if |failures| < 3 then Verified else NotVerified) && (t.seen <==> |failures| < 3)
      && t.stopCalls > 0
  {
    var start := ReachesStart(s);
    Extend(s, start, OfSession(Start));
    start := start + [OfSession(Start)];
    Extend(s, start, ParentDies);
    start := start + [ParentDies];
    Extend(s, start, Tick(600.0));
    start := start + [Tick(600.0)];
    trace := WatchdogStopEnds(s, start, failures, true);
  }

  /** In every run, a watchdog that has armed did so before its deadline. */
  lemma {:induction false} ArmedInTime(s: State, trace: seq<Event>) returns (i: nat)
    requires Initial(s) && CanRun(s, trace) && Run(s, trace).armed
    ensures i < |trace| && trace[i] == OfWatchdog(Arm) && CanRun(s, trace[..i])
    ensures Run(s, trace[..i]).now < Run(s, trace[..i]).expires
    decreases |trace|
  {
    var n := |trace| - 1;
    LastStep(s, trace);
    if Run(s, trace[..n]).armed {
      i := ArmedInTime(s, trace[..n]);
      assert trace[..n][..i] == trace[..i];
    } else {
      i := n;
    }
  }
}
