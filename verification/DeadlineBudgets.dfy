/**
 Nested deadlines on the one process timer: `budget` in scripts/mlflow_readiness_window.py.

 A program is a tree of budget blocks, pieces of work of arbitrary length, `try`/`finally`
 sections and failures. Time is real. An armed timer raises TimeoutError in the middle of the
 work that reaches its deadline, and is then disarmed; entering and leaving a block takes no time.
 */
module DeadlineBudgets {
  import opened Wrappers

  type Span = x: real | 0.0 <= x witness 0.0

  datatype Prog =
    | Done
    | Work(span: Span, rest: Prog)
    | Fail
    | Budget(seconds: Span, body: Prog, rest: Prog)
    | Finally(body: Prog, cleanup: Prog, rest: Prog)

  datatype How = Completed | Expired | Failed
  /** How a run ended, when, and what it left the process timer set to. */
  datatype Outcome = Outcome(how: How, now: real, timer: Option<real>)

  // ---------------------------------------------------------------- the single timer

  /** setitimer(seconds): zero disarms. */
  function Arm(now: real, seconds: Span): Option<real> {
    if seconds == 0.0 then None else Some(now + seconds)
  }

  /** Leaving a block: disarm, then re-arm the saved timer for what is left of it, or raise. */
  function Leave(saved: Option<real>, inner: Outcome): Outcome {
    if saved.None? then inner.(timer := None)
    else if saved.value - inner.now <= 0.0 then Outcome(Expired, inner.now, None)
    else inner.(timer := Some(inner.now + (saved.value - inner.now)))
  }

  function Run(p: Prog, now: real, timer: Option<real>): Outcome {
    match p
    case Done => Outcome(Completed, now, timer)
    case Work(span, rest) =>
      if timer.Some? && now + span >= timer.value then Outcome(Expired, timer.value, None)
      else Run(rest, now + span, timer)
    case Fail => Outcome(Failed, now, timer)
    case Budget(seconds, body, rest) =>
      var left := Leave(timer, Run(body, now, Arm(now, seconds)));
      if left.how.Completed? then Run(rest, left.now, left.timer) else left
    case Finally(body, cleanup, rest) =>
      var tried := Run(body, now, timer);
      var cleaned := Run(cleanup, tried.now, tried.timer);
      if !cleaned.how.Completed? then cleaned
      else if tried.how.Completed? then Run(rest, cleaned.now, cleaned.timer)
      else cleaned.(how := tried.how)
  }

  // ---------------------------------------------------------------- independent deadlines

  /** How long the program takes when nothing interrupts it. */
  function Duration(p: Prog): Span {
    match p
    case Done => 0.0
    case Work(span, rest) => span + Duration(rest)
    case Fail => 0.0
    case Budget(_, body, rest) => Duration(body) + Duration(rest)
    case Finally(body, cleanup, rest) => Duration(body) + Duration(cleanup) + Duration(rest)
  }

  /** The simple form: every block has its own absolute deadline, all of them are watched all the
      time, and every piece of work ends before each deadline on the stack. */
  predicate InTime(p: Prog, now: real, deadlines: seq<real>) {
    match p
    case Done => true
    case Work(span, rest) =>
      (forall i :: 0 <= i < |deadlines| ==> now + span < deadlines[i]) && InTime(rest, now + span, deadlines)
    case Fail => false
    case Budget(seconds, body, rest) =>
      && InTime(body, now, if seconds == 0.0 then deadlines else deadlines + [now + seconds])
      && InTime(rest, now + Duration(body), deadlines)
    case Finally(body, cleanup, rest) =>
      && InTime(body, now, deadlines)
      && InTime(cleanup, now + Duration(body), deadlines)
      && InTime(rest, now + Duration(body) + Duration(cleanup), deadlines)
  }

  /** Watching a deadline all the time is the same as looking at it once, at the end. */
  lemma {:induction false} EnclosingDeadline(p: Prog, now: real, d: real, inner: seq<real>)
    requires now < d
    ensures InTime(p, now, [d] + inner) <==> InTime(p, now, inner) && now + Duration(p) < d
  {
    match p
    case Done =>
    case Fail =>
    case Work(span, rest) =>
      var all := [d] + inner;
      assert all[0] == d;
      assert forall i :: 0 <= i < |inner| ==> all[i + 1] == inner[i];
      if now + span < d { EnclosingDeadline(rest, now + span, d, inner); }
    case Budget(seconds, body, rest) =>
      if seconds == 0.0 {
        EnclosingDeadline(body, now, d, inner);
      } else {
        assert [d] + inner + [now + seconds] == [d] + (inner + [now + seconds]);
        EnclosingDeadline(body, now, d, inner + [now + seconds]);
      }
      if now + Duration(body) < d { EnclosingDeadline(rest, now + Duration(body), d, inner); }
    case Finally(body, cleanup, rest) =>
      EnclosingDeadline(body, now, d, inner);
      if now + Duration(body) < d {
        EnclosingDeadline(cleanup, now + Duration(body), d, inner);
        if now + Duration(body) + Duration(cleanup) < d {
          EnclosingDeadline(rest, now + Duration(body) + Duration(cleanup), d, inner);
        }
      }
  }

  function Stack(timer: Option<real>): seq<real> { if timer.Some? then [timer.value] else [] }

  /** The save and restore of one timer refines the stack of independent deadlines: a program
      completes exactly when it is in time for its own and every enclosing deadline, and then it has
      taken its full duration and the timer is armed for precisely the deadline it was before. */
  lemma {:induction false} CompletesIffInTime(p: Prog, now: real, timer: Option<real>)
    requires timer.Some? ==> now < timer.value
    ensures Run(p, now, timer).how.Completed? <==> InTime(p, now, Stack(timer))
    ensures Run(p, now, timer).how.Completed? ==>
              Run(p, now, timer) == Outcome(Completed, now + Duration(p), timer)
              && (timer.Some? ==> now + Duration(p) < timer.value)
    decreases p, 2
  {
    match p
    case Done =>
    case Fail =>
    case Work(span, rest) => WorkCompletes(span, rest, now, timer);
    case Budget(seconds, body, rest) => BlockThenRestCompletes(seconds, body, rest, now, timer);
    case Finally(body, cleanup, rest) => SectionCompletes(body, cleanup, rest, now, timer);
  }

  lemma {:induction false} WorkCompletes(span: Span, rest: Prog, now: real, timer: Option<real>)
    requires timer.Some? ==> now < timer.value
    ensures var r := Run(Work(span, rest), now, timer);
      && (r.how.Completed? <==> InTime(Work(span, rest), now, Stack(timer)))
      && (r.how.Completed? ==>
            r == Outcome(Completed, now + (span + Duration(rest)), timer) && (timer.Some? ==> r.now < timer.value))
    decreases Work(span, rest), 1
  {
    if timer.Some? { assert Stack(timer)[0] == timer.value; }
    if !(timer.Some? && now + span >= timer.value) { CompletesIffInTime(rest, now + span, timer); }
  }

  lemma {:induction false} BlockThenRestCompletes(seconds: Span, body: Prog, rest: Prog, now: real, timer: Option<real>)
    requires timer.Some? ==> now < timer.value
    ensures var r := Run(Budget(seconds, body, rest), now, timer);
      && (r.how.Completed? <==> InTime(Budget(seconds, body, rest), now, Stack(timer)))
      && (r.how.Completed? ==>
            r == Outcome(Completed, now + (Duration(body) + Duration(rest)), timer)
            && (timer.Some? ==> r.now < timer.value))
    decreases Budget(seconds, body, rest), 1
  {
    BlockCompletes(seconds, body, now, timer);
    var left := Leave(timer, Run(body, now, Arm(now, seconds)));
    if left.how.Completed? { CompletesIffInTime(rest, left.now, timer); }
  }

  lemma {:induction false} SectionCompletes(body: Prog, cleanup: Prog, rest: Prog, now: real, timer: Option<real>)
    requires timer.Some? ==> now < timer.value
    ensures var r := Run(Finally(body, cleanup, rest), now, timer);
      && (r.how.Completed? <==> InTime(Finally(body, cleanup, rest), now, Stack(timer)))
      && (r.how.Completed? ==>
            r == Outcome(Completed, now + Duration(body) + Duration(cleanup) + Duration(rest), timer)
            && (timer.Some? ==> r.now < timer.value))
    decreases Finally(body, cleanup, rest), 1
  {
    CompletesIffInTime(body, now, timer);
    var tried := Run(body, now, timer);
    if tried.how.Completed? {
      CompletesIffInTime(cleanup, tried.now, timer);
      var cleaned := Run(cleanup, tried.now, timer);
      if cleaned.how.Completed? { CompletesIffInTime(rest, cleaned.now, timer); }
    }
  }

  /** One block: it completes exactly when its body meets the new deadline and every enclosing one,
      and leaving it re-arms the enclosing deadline. */
  lemma {:induction false} BlockCompletes(seconds: Span, body: Prog, now: real, timer: Option<real>)
    requires timer.Some? ==> now < timer.value
    ensures var left := Leave(timer, Run(body, now, Arm(now, seconds)));
      && (left.how.Completed? <==>
            InTime(body, now, if seconds == 0.0 then Stack(timer) else Stack(timer) + [now + seconds]))
      && (left.how.Completed? ==>
            left == Outcome(Completed, now + Duration(body), timer)
            && (timer.Some? ==> now + Duration(body) < timer.value))
    decreases body, 3
  {
    var armed := Arm(now, seconds);
    CompletesIffInTime(body, now, armed);
    assert Stack(None) + [now + seconds] == [now + seconds];
    if timer.Some? {
      EnclosingDeadline(body, now, timer.value, Stack(armed));
      assert [timer.value] + [] == [timer.value];
    }
  }

  // ---------------------------------------------------------------- after an interruption

  /** However a run ends, it leaves the timer as it found it, or disarmed with that deadline passed. */
  lemma {:induction false} TimerKeptOrSpent(p: Prog, now: real, timer: Option<real>)
    requires timer.Some? ==> now < timer.value
    ensures var r := Run(p, now, timer);
      && now <= r.now
      && ((r.timer == timer && (timer.Some? ==> r.now < timer.value))
          || (r.timer.None? && timer.Some? && timer.value <= r.now))
  {
    match p
    case Done =>
    case Fail =>
    case Work(span, rest) =>
      if !(timer.Some? && now + span >= timer.value) { TimerKeptOrSpent(rest, now + span, timer); }
    case Budget(seconds, body, rest) =>
      TimerKeptOrSpent(body, now, Arm(now, seconds));
      var left := Leave(timer, Run(body, now, Arm(now, seconds)));
      if left.how.Completed? { TimerKeptOrSpent(rest, left.now, left.timer); }
    case Finally(body, cleanup, rest) =>
      TimerKeptOrSpent(body, now, timer);
      var tried := Run(body, now, timer);
      TimerKeptOrSpent(cleanup, tried.now, tried.timer);
      var cleaned := Run(cleanup, tried.now, tried.timer);
      if cleaned.how.Completed? && tried.how.Completed? { TimerKeptOrSpent(rest, cleaned.now, cleaned.timer); }
  }

  function Max(a: Span, b: Span): Span { if a < b then b else a }

  /** How far past an enclosing deadline a program may run before it gives way. */
  function Overrun(p: Prog): Span {
    match p
    case Done => 0.0
    case Fail => 0.0
    case Work(_, rest) => Overrun(rest)
    case Budget(seconds, body, rest) =>
      Max(if seconds == 0.0 then Duration(body) else seconds + Overrun(body), Overrun(rest))
    case Finally(body, cleanup, rest) =>
      Max(Overrun(body) + Duration(cleanup), Max(Overrun(cleanup), Overrun(rest)))
  }

  /** Without a timer a run takes at most its duration; with one it ends no later than the deadline
      plus the overrun: the budgets nested below it add up, and so does cleanup after the deadline. */
  lemma {:induction false} LateByAtMost(p: Prog, now: real, timer: Option<real>)
    requires timer.Some? ==> now < timer.value
    ensures Run(p, now, timer).now <= now + Duration(p)
    ensures timer.Some? ==> Run(p, now, timer).now <= timer.value + Overrun(p)
  {
    match p
    case Done =>
    case Fail =>
    case Work(span, rest) =>
      if !(timer.Some? && now + span >= timer.value) { LateByAtMost(rest, now + span, timer); }
    case Budget(seconds, body, rest) =>
      LateByAtMost(body, now, Arm(now, seconds));
      TimerKeptOrSpent(body, now, Arm(now, seconds));
      var left := Leave(timer, Run(body, now, Arm(now, seconds)));
      if left.how.Completed? { LateByAtMost(rest, left.now, left.timer); }
    case Finally(body, cleanup, rest) =>
      LateByAtMost(body, now, timer);
      TimerKeptOrSpent(body, now, timer);
      var tried := Run(body, now, timer);
      LateByAtMost(cleanup, tried.now, tried.timer);
      TimerKeptOrSpent(cleanup, tried.now, tried.timer);
      var cleaned := Run(cleanup, tried.now, tried.timer);
      if cleaned.how.Completed? && tried.how.Completed? {
        CompletesIffInTime(body, now, timer);
        CompletesIffInTime(cleanup, tried.now, tried.timer);
        LateByAtMost(rest, cleaned.now, timer);
      }
  }

  /** A block that is not disarmed and holds plain work delays an enclosing deadline by at most its own
      budget; with a second block inside, that bound is wrong. */
  lemma OneInnerBudget(outer: Span, before: Span, inner: Span, work: Span, now: real)
    requires 0.0 < inner && before < outer
    ensures Run(Budget(outer, Work(before, Budget(inner, Work(work, Done), Done)), Done), now, None).now
            <= now + outer + inner
    ensures Run(Budget(10.0, Work(9.0, Budget(5.0, Work(4.0, Budget(5.0, Work(100.0, Done), Done)), Done)), Done),
                now, None)
            == Outcome(Expired, now + 18.0, None)
  {
    var body := Work(before, Budget(inner, Work(work, Done), Done));
    assert Overrun(Work(work, Done)) == 0.0;
    assert Overrun(Budget(inner, Work(work, Done), Done)) == inner;
    LateByAtMost(body, now, Some(now + outer));

    var innermost := Budget(5.0, Work(100.0, Done), Done);
    var middle := Budget(5.0, Work(4.0, innermost), Done);
    assert Run(Work(100.0, Done), now + 13.0, Some(now + 18.0)) == Outcome(Expired, now + 18.0, None);
    assert Run(innermost, now + 13.0, Some(now + 14.0)) == Outcome(Expired, now + 18.0, None);
    assert Run(Work(4.0, innermost), now + 9.0, Some(now + 14.0)) == Outcome(Expired, now + 18.0, None);
    assert Run(middle, now + 9.0, Some(now + 10.0)) == Outcome(Expired, now + 18.0, None);
    assert Run(Work(9.0, middle), now, Some(now + 10.0)) == Outcome(Expired, now + 18.0, None);
  }

  /** A budget of zero seconds is no deadline at all. */
  lemma ZeroBudgetNeverExpires(body: Prog, now: real)
    ensures Run(Budget(0.0, body, Done), now, None) == Run(body, now, None).(timer := None)
    ensures InTime(Budget(0.0, body, Done), now, []) <==> InTime(body, now, [])
  {
    TimerKeptOrSpent(body, now, None);
  }

  // ---------------------------------------------------------------- the code's own form

  /** The process: its clock, its one timer and its SIGALRM handler. */
  class Process {
    var now: real
    var timer: Option<real>
    var handler: int

    constructor (start: real, handler: int)
      ensures now == start && timer == None && this.handler == handler
    {
      now, timer, this.handler := start, None, handler;
    }

    predicate Armed() reads this { timer.Some? ==> now < timer.value }

    /** Work until it is done or the timer goes off. */
    method Advance(span: Span) returns (ok: bool)
      requires Armed()
      modifies this`now, this`timer
      ensures var r := Run(Work(span, Done), old(now), old(timer));
        ok == r.how.Completed? && now == r.now && timer == r.timer
    {
      if timer.Some? && now + span >= timer.value {
        now, timer, ok := timer.value, None, false;
      } else {
        now, ok := now + span, true;
      }
    }

    /** Execute a program with the handler and timer saved and restored around each block. The handler
        is always back in place, and the timer, the clock and the outcome are those of `Run`. */
    method Execute(p: Prog) returns (how: How)
      requires Armed()
      modifies this
      ensures Run(p, old(now), old(timer)) == Outcome(how, now, timer)
      ensures handler == old(handler) && Armed()
      decreases p
    {
      TimerKeptOrSpent(p, now, timer);
      match p
      case Done => how := Completed;
      case Fail => how := Failed;
      case Work(span, rest) =>
        var ok := Advance(span);
        if !ok { return Expired; }
        how := Execute(rest);
      case Budget(seconds, body, rest) =>
        TimerKeptOrSpent(body, now, Arm(now, seconds));
        var previous, saved, start := handler, timer, now;
        handler, timer := previous + 1, Arm(now, seconds);
        how := Execute(body);
        timer, handler := None, previous;
        if saved.Some? {
          var remaining := (saved.value - start) - (now - start);
          if remaining <= 0.0 { return Expired; }
          timer := Some(now + remaining);
        }
        if how.Completed? { how := Execute(rest); }
      case Finally(body, cleanup, rest) =>
        var tried := Execute(body);
        var cleaned := Execute(cleanup);
        if !cleaned.Completed? { return cleaned; }
        if !tried.Completed? { return tried; }
        how := Execute(rest);
    }
  }
}
