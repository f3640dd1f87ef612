/**
 How late an enclosing deadline of `budget` in scripts/mlflow_readiness_window.py can be, exactly.

 Programs have the same shape when they differ only in how long their pieces of work take. Which shapes
 keep the promise that a block delays an enclosing deadline by no more than its own budget, whatever the
 work takes, is decided by looking at the shape.
 */
module DeadlineShapes {
  import opened Wrappers
  import opened DeadlineBudgets

  // ---------------------------------------------------------------- shapes

  predicate SameShape(p: Prog, q: Prog) {
    match p
    case Done => q.Done?
    case Fail => q.Fail?
    case Work(_, rest) => q.Work? && SameShape(rest, q.rest)
    case Budget(seconds, body, rest) =>
      q.Budget? && q.seconds == seconds && SameShape(body, q.body) && SameShape(rest, q.rest)
    case Finally(body, cleanup, rest) =>
      q.Finally? && SameShape(body, q.body) && SameShape(cleanup, q.cleanup) && SameShape(rest, q.rest)
  }

  /** Whether the program can be completed. */
  predicate CanComplete(p: Prog) {
    match p
    case Done => true
    case Fail => false
    case Work(_, rest) => CanComplete(rest)
    case Budget(_, body, rest) => CanComplete(body) && CanComplete(rest)
    case Finally(body, cleanup, rest) => CanComplete(body) && CanComplete(cleanup) && CanComplete(rest)
  }

  /** Whether some work can be reached. */
  predicate TakesTime(p: Prog) {
    match p
    case Done => false
    case Fail => false
    case Work(_, _) => true
    case Budget(_, body, rest) => TakesTime(body) || (CanComplete(body) && TakesTime(rest))
    case Finally(body, cleanup, rest) =>
      TakesTime(body) || TakesTime(cleanup) || (CanComplete(body) && CanComplete(cleanup) && TakesTime(rest))
  }

  /** No nested block can spend time, and no cleanup can after time was spent. */
  predicate Prompt(p: Prog) {
    match p
    case Done => true
    case Fail => true
    case Work(_, rest) => Prompt(rest)
    case Budget(_, body, rest) => !TakesTime(body) && (CanComplete(body) ==> Prompt(rest))
    case Finally(body, cleanup, rest) =>
      && Prompt(body) && (if TakesTime(body) then !TakesTime(cleanup) else Prompt(cleanup))
      && (CanComplete(body) && CanComplete(cleanup) ==> Prompt(rest))
  }

  lemma {:induction false} ShapeDecides(p: Prog, q: Prog)
    requires SameShape(p, q)
    ensures CanComplete(p) == CanComplete(q) && TakesTime(p) == TakesTime(q) && Prompt(p) == Prompt(q)
  {
    match p
    case Done =>
    case Fail =>
    case Work(_, rest) => ShapeDecides(rest, q.rest);
    case Budget(_, body, rest) =>
      ShapeDecides(body, q.body);
      ShapeDecides(rest, q.rest);
    case Finally(body, cleanup, rest) =>
      ShapeDecides(body, q.body);
      ShapeDecides(cleanup, q.cleanup);
      ShapeDecides(rest, q.rest);
  }

  /** The program with every piece of work taking `span`. */
  function WithSpans(p: Prog, span: Span): (q: Prog)
    ensures SameShape(p, q)
  {
    match p
    case Done => Done
    case Fail => Fail
    case Work(_, rest) => Work(span, WithSpans(rest, span))
    case Budget(seconds, body, rest) => Budget(seconds, WithSpans(body, span), WithSpans(rest, span))
    case Finally(body, cleanup, rest) =>
      Finally(WithSpans(body, span), WithSpans(cleanup, span), WithSpans(rest, span))
  }

  lemma {:induction false} ShapeOfItself(p: Prog)
    ensures SameShape(p, p)
  {
    match p
    case Done =>
    case Fail =>
    case Work(_, rest) => ShapeOfItself(rest);
    case Budget(_, body, rest) =>
      ShapeOfItself(body);
      ShapeOfItself(rest);
    case Finally(body, cleanup, rest) =>
      ShapeOfItself(body);
      ShapeOfItself(cleanup);
      ShapeOfItself(rest);
  }

  function Ending(p: Prog): How { if CanComplete(p) then Completed else Failed }

  /** A program that reaches no work, or whose work takes no time, ends at once with the timer untouched. */
  lemma {:induction false} Instant(p: Prog, now: real, timer: Option<real>)
    requires !TakesTime(p) && (timer.Some? ==> now < timer.value)
    ensures Run(p, now, timer) == Outcome(Ending(p), now, timer)
  {
    match p
    case Done =>
    case Fail =>
    case Work(_, _) =>
    case Budget(seconds, body, rest) =>
      Instant(body, now, Arm(now, seconds));
      if CanComplete(body) { Instant(rest, now, timer); }
    case Finally(body, cleanup, rest) =>
      Instant(body, now, timer);
      Instant(cleanup, now, timer);
      if CanComplete(body) && CanComplete(cleanup) { Instant(rest, now, timer); }
  }

  lemma {:induction false} NoTime(p: Prog, now: real, timer: Option<real>)
    requires timer.Some? ==> now < timer.value
    ensures Run(WithSpans(p, 0.0), now, timer) == Outcome(Ending(p), now, timer)
  {
    match p
    case Done =>
    case Fail =>
    case Work(_, rest) => NoTime(rest, now, timer);
    case Budget(seconds, body, rest) =>
      NoTime(body, now, Arm(now, seconds));
      if CanComplete(body) { NoTime(rest, now, timer); }
    case Finally(body, cleanup, rest) =>
      NoTime(body, now, timer);
      NoTime(cleanup, now, timer);
      if CanComplete(body) && CanComplete(cleanup) { NoTime(rest, now, timer); }
  }

  // ---------------------------------------------------------------- prompt shapes are never late

  /** A prompt program never runs past the deadline it was entered with. */
  lemma {:induction false} PromptEndsInTime(p: Prog, now: real, deadline: real)
    requires Prompt(p) && now < deadline
    ensures Run(p, now, Some(deadline)).now <= deadline
    decreases p, 1
  {
    match p
    case Done =>
    case Fail =>
    case Work(span, rest) => if now + span < deadline { PromptEndsInTime(rest, now + span, deadline); }
    case Budget(seconds, body, rest) =>
      Instant(body, now, Arm(now, seconds));
      if CanComplete(body) { PromptEndsInTime(rest, now, deadline); }
    case Finally(body, cleanup, rest) => PromptSection(body, cleanup, rest, now, deadline);
  }

  lemma {:induction false} PromptSection(body: Prog, cleanup: Prog, rest: Prog, now: real, deadline: real)
    requires Prompt(Finally(body, cleanup, rest)) && now < deadline
    ensures Run(Finally(body, cleanup, rest), now, Some(deadline)).now <= deadline
    decreases Finally(body, cleanup, rest), 0
  {
    var tried := Run(body, now, Some(deadline));
    PromptEndsInTime(body, now, deadline);
    TimerKeptOrSpent(body, now, Some(deadline));
    CompletesIffInTime(body, now, Some(deadline));
    if !TakesTime(body) { Instant(body, now, Some(deadline)); }
    if TakesTime(body) {
      Instant(cleanup, tried.now, tried.timer);
    } else {
      PromptEndsInTime(cleanup, now, deadline);
      TimerKeptOrSpent(cleanup, now, Some(deadline));
    }
    var cleaned := Run(cleanup, tried.now, tried.timer);
    if tried.how.Completed? && cleaned.how.Completed? {
      CompletesIffInTime(cleanup, tried.now, Some(deadline));
      Reaches(body, now, Some(deadline));
      Reaches(cleanup, tried.now, Some(deadline));
      PromptEndsInTime(rest, cleaned.now, deadline);
    }
  }

  /** What completes can be completed. */
  lemma {:induction false} Reaches(p: Prog, now: real, timer: Option<real>)
    requires Run(p, now, timer).how.Completed?
    ensures CanComplete(p)
  {
    match p
    case Done =>
    case Fail =>
    case Work(span, rest) => Reaches(rest, now + span, timer);
    case Budget(seconds, body, rest) =>
      Reaches(body, now, Arm(now, seconds));
      var left := Leave(timer, Run(body, now, Arm(now, seconds)));
      Reaches(rest, left.now, left.timer);
    case Finally(body, cleanup, rest) =>
      var tried := Run(body, now, timer);
      var cleaned := Run(cleanup, tried.now, tried.timer);
      Reaches(body, now, timer);
      Reaches(cleanup, tried.now, tried.timer);
      Reaches(rest, cleaned.now, cleaned.timer);
  }

  // ---------------------------------------------------------------- other shapes can be late

  function Min(a: Span, b: Span): Span { if a < b then a else b }

  /** A time shorter than every budget of the program. */
  function Least(p: Prog): (least: Span)
    ensures 0.0 < least <= 1.0
  {
    match p
    case Done => 1.0
    case Fail => 1.0
    case Work(_, rest) => Least(rest)
    case Budget(seconds, body, rest) =>
      Min(if seconds == 0.0 then 1.0 else seconds, Min(Least(body), Least(rest)))
    case Finally(body, cleanup, rest) => Min(Least(body), Min(Least(cleanup), Least(rest)))
  }

  /** With one second for every piece of work, a program that can spend time spends at least the least
      time, or all that is left until its deadline. */
  lemma {:induction false} OneSecondEach(p: Prog, now: real, timer: Option<real>)
    requires TakesTime(p) && (timer.Some? ==> now < timer.value)
    ensures var end := Run(WithSpans(p, 1.0), now, timer).now;
      end >= now + Least(p) || (timer.Some? && end >= timer.value)
    decreases p, 1
  {
    var q := WithSpans(p, 1.0);
    ShapeDecides(p, q);
    match p
    case Done =>
    case Fail =>
    case Work(_, rest) =>
      if !(timer.Some? && now + 1.0 >= timer.value) { TimerKeptOrSpent(q.rest, now + 1.0, timer); }
    case Budget(seconds, body, rest) =>
      ShapeDecides(body, q.body);
      if TakesTime(body) {
        OneSecondEach(body, now, Arm(now, seconds));
        TimerKeptOrSpent(q.body, now, Arm(now, seconds));
        var left := Leave(timer, Run(q.body, now, Arm(now, seconds)));
        if left.how.Completed? { TimerKeptOrSpent(q.rest, left.now, left.timer); }
      } else {
        Instant(q.body, now, Arm(now, seconds));
        OneSecondEach(rest, now, timer);
      }
    case Finally(body, cleanup, rest) => OneSecondSection(body, cleanup, rest, now, timer);
  }

  lemma {:induction false} OneSecondSection(body: Prog, cleanup: Prog, rest: Prog, now: real, timer: Option<real>)
    requires TakesTime(Finally(body, cleanup, rest)) && (timer.Some? ==> now < timer.value)
    ensures var end := Run(WithSpans(Finally(body, cleanup, rest), 1.0), now, timer).now;
      end >= now + Least(Finally(body, cleanup, rest)) || (timer.Some? && end >= timer.value)
    decreases Finally(body, cleanup, rest), 0
  {
    var b, c, r := WithSpans(body, 1.0), WithSpans(cleanup, 1.0), WithSpans(rest, 1.0);
    ShapeDecides(body, b);
    ShapeDecides(cleanup, c);
    SectionOnlyAdds(b, c, r, now, timer);
    if TakesTime(body) {
      OneSecondEach(body, now, timer);
    } else {
      Instant(b, now, timer);
      if TakesTime(cleanup) {
        OneSecondEach(cleanup, now, timer);
      } else {
        Instant(c, now, timer);
        OneSecondEach(rest, now, timer);
      }
    }
  }

  /** A section ends no earlier than its body and its cleanup. */
  lemma SectionOnlyAdds(body: Prog, cleanup: Prog, rest: Prog, now: real, timer: Option<real>)
    requires timer.Some? ==> now < timer.value
    ensures var tried := Run(body, now, timer); var cleaned := Run(cleanup, tried.now, tried.timer);
      now <= tried.now <= cleaned.now <= Run(Finally(body, cleanup, rest), now, timer).now
  {
    TimerKeptOrSpent(body, now, timer);
    var tried := Run(body, now, timer);
    TimerKeptOrSpent(cleanup, tried.now, tried.timer);
    var cleaned := Run(cleanup, tried.now, tried.timer);
    if tried.how.Completed? && cleaned.how.Completed? { TimerKeptOrSpent(rest, cleaned.now, cleaned.timer); }
  }

  /** A shape that is not prompt can run past a near enough deadline. */
  lemma {:induction false} LateShape(p: Prog, now: real, gap: Span) returns (q: Prog)
    requires !Prompt(p) && 0.0 < gap < Least(p)
    ensures SameShape(p, q) && Run(q, now, Some(now + gap)).now > now + gap
    decreases p, 1
  {
    match p
    case Done => q := p;
    case Fail => q := p;
    case Work(_, rest) =>
      var r := LateShape(rest, now, gap);
      q := Work(0.0, r);
    case Budget(seconds, body, rest) => q := LateBlock(seconds, body, rest, now, gap);
    case Finally(body, cleanup, rest) => q := LateSection(body, cleanup, rest, now, gap);
  }

  lemma {:induction false} LateBlock(seconds: Span, body: Prog, rest: Prog, now: real, gap: Span) returns (q: Prog)
    requires !Prompt(Budget(seconds, body, rest)) && 0.0 < gap < Least(Budget(seconds, body, rest))
    ensures SameShape(Budget(seconds, body, rest), q) && Run(q, now, Some(now + gap)).now > now + gap
    decreases Budget(seconds, body, rest), 0
  {
    if TakesTime(body) {
      OneSecondEach(body, now, Arm(now, seconds));
      ShapeOfItself(rest);
      q := Budget(seconds, WithSpans(body, 1.0), rest);
    } else {
      NoTime(body, now, Arm(now, seconds));
      var r := LateShape(rest, now, gap);
      q := Budget(seconds, WithSpans(body, 0.0), r);
    }
  }

  lemma {:induction false} LateSection(body: Prog, cleanup: Prog, rest: Prog, now: real, gap: Span) returns (q: Prog)
    requires !Prompt(Finally(body, cleanup, rest)) && 0.0 < gap < Least(Finally(body, cleanup, rest))
    ensures SameShape(Finally(body, cleanup, rest), q) && Run(q, now, Some(now + gap)).now > now + gap
    decreases Finally(body, cleanup, rest), 0
  {
    var timer := Some(now + gap);
    ShapeOfItself(cleanup);
    ShapeOfItself(rest);
    if !Prompt(body) {
      var b := LateShape(body, now, gap);
      q := Finally(b, cleanup, rest);
      SectionOnlyAdds(b, cleanup, rest, now, timer);
    } else if TakesTime(body) && TakesTime(cleanup) {
      var b, c := WithSpans(body, 1.0), WithSpans(cleanup, 1.0);
      OneSecondEach(body, now, timer);
      TimerKeptOrSpent(b, now, timer);
      OneSecondEach(cleanup, Run(b, now, timer).now, None);
      q := Finally(b, c, rest);
      SectionOnlyAdds(b, c, rest, now, timer);
    } else if !TakesTime(body) && !Prompt(cleanup) {
      NoTime(body, now, timer);
      var c := LateShape(cleanup, now, gap);
      q := Finally(WithSpans(body, 0.0), c, rest);
      SectionOnlyAdds(WithSpans(body, 0.0), c, rest, now, timer);
    } else {
      NoTime(body, now, timer);
      NoTime(cleanup, now, timer);
      var r := LateShape(rest, now, gap);
      q := Finally(WithSpans(body, 0.0), WithSpans(cleanup, 0.0), r);
    }
  }

  // ---------------------------------------------------------------- the promise, exactly

  /** Whatever the work takes, a block whose body starts with some work delays no enclosing deadline by more
      than its own budget. */
  ghost predicate DelaysByItsBudget(seconds: Span, body: Prog) {
    forall first: Span, q: Prog, now: real, deadline: real :: SameShape(body, q) && now < deadline ==>
      Run(Budget(seconds, Work(first, q), Done), now, Some(deadline)).now <= deadline + seconds
  }

  lemma PromptBlockKeepsPromise(seconds: Span, body: Prog, now: real, deadline: real)
    requires 0.0 < seconds && Prompt(body) && now < deadline
    ensures Run(Budget(seconds, body, Done), now, Some(deadline)).now < deadline + seconds
  {
    PromptEndsInTime(body, now, now + seconds);
    TimerKeptOrSpent(body, now, Some(now + seconds));
  }

  /** A late body makes the block later than its budget, under an enclosing deadline close enough. */
  lemma LateBodyBreaksPromise(seconds: Span, inner: Prog, now: real)
    requires 0.0 < seconds && Run(inner, now, Some(now + seconds)).now > now + seconds
    ensures exists deadline :: now < deadline
                               && Run(Budget(seconds, inner, Done), now, Some(deadline)).now > deadline + seconds
  {
    var end := Run(inner, now, Some(now + seconds)).now;
    var deadline := now + (end - now - seconds) / 2.0;
    TimerKeptOrSpent(inner, now, Some(now + seconds));
    assert Run(Budget(seconds, inner, Done), now, Some(deadline)).now == end;
  }

  /** The promise holds of a block exactly when its body nests no block that can spend time and no cleanup
      that can run after time was spent. */
  lemma InnerBudgetBoundIff(seconds: Span, body: Prog)
    requires 0.0 < seconds
    ensures DelaysByItsBudget(seconds, body) <==> Prompt(body)
  {
    if Prompt(body) {
      forall first: Span, q: Prog, now: real, deadline: real | SameShape(body, q) && now < deadline
        ensures Run(Budget(seconds, Work(first, q), Done), now, Some(deadline)).now <= deadline + seconds
      {
        ShapeDecides(body, q);
        PromptBlockKeepsPromise(seconds, Work(first, q), now, deadline);
      }
    } else {
      var gap := Min(seconds, Least(body)) / 2.0;
      var first: Span := seconds - gap;
      var q := LateShape(body, first, gap);
      assert Run(Work(first, q), 0.0, Some(seconds)) == Run(q, first, Some(first + gap));
      LateBodyBreaksPromise(seconds, Work(first, q), 0.0);
    }
  }

  /** The work at the start of the block matters: a nested block that comes first, and is no longer than the
      block around it, keeps the promise. */
  lemma FirstBlockIsHarmless(outer: Span, inner: Span, body: Prog, now: real, deadline: real)
    requires 0.0 < inner <= outer && Prompt(body) && now < deadline
    ensures Run(Budget(outer, Budget(inner, body, Done), Done), now, Some(deadline)).now < deadline + outer
  {
    PromptEndsInTime(body, now, now + inner);
    TimerKeptOrSpent(body, now, Some(now + inner));
    TimerKeptOrSpent(Budget(inner, body, Done), now, Some(now + outer));
  }

  // ---------------------------------------------------------------- the sum of nested budgets is needed

  /** Blocks nested in each other, each entered `early` before the deadline around it. */
  function Tower(seconds: seq<Span>, early: Span): Prog
    requires forall i :: 0 <= i < |seconds| ==> early < seconds[i]
  {
    if seconds == [] then Done
    else if |seconds| == 1 then Budget(seconds[0], Work(seconds[0], Done), Done)
    else Budget(seconds[0], Work(seconds[0] - early, Tower(seconds[1..], early)), Done)
  }

  function Sum(seconds: seq<Span>): Span { if seconds == [] then 0.0 else seconds[0] + Sum(seconds[1..]) }

  /** The tower's last deadline, counted from the deadline around it. */
  function Delay(seconds: seq<Span>, early: Span): real {
    if seconds == [] then 0.0 else seconds[0] - early + Delay(seconds[1..], early)
  }

  lemma {:induction false} TowerDelay(seconds: seq<Span>, early: Span, now: real)
    requires seconds != [] && 0.0 < early && forall i :: 0 <= i < |seconds| ==> early < seconds[i]
    ensures Run(Tower(seconds, early), now, Some(now + early)) ==
      Outcome(Expired, now + early + Delay(seconds, early), None)
    ensures Delay(seconds, early) > 0.0
    decreases |seconds|
  {
    if |seconds| == 1 {
      assert seconds[1..] == [];
    } else {
      var inner := now + seconds[0] - early;
      TowerDelay(seconds[1..], early, inner);
      assert inner + early == now + seconds[0];
    }
  }

  lemma {:induction false} TowerOverrun(seconds: seq<Span>, early: Span)
    requires 0.0 < early && forall i :: 0 <= i < |seconds| ==> early < seconds[i]
    ensures Overrun(Tower(seconds, early)) == Sum(seconds)
    ensures Delay(seconds, early) == Sum(seconds) - |seconds| as real * early
    decreases |seconds|
  {
    if |seconds| > 0 {
      TowerOverrun(seconds[1..], early);
      if |seconds| == 1 { assert seconds[1..] == []; }
      assert |seconds| as real * early == (|seconds| - 1) as real * early + early;
    }
  }

  /** The bound of `LateByAtMost` cannot be improved: blocks nested in each other overrun the deadline around
      them by the sum of their budgets, less as little as one likes. */
  lemma SumIsApproached(seconds: seq<Span>, early: Span, now: real)
    requires seconds != [] && 0.0 < early && forall i :: 0 <= i < |seconds| ==> early < seconds[i]
    ensures var p, deadline := Tower(seconds, early), now + early;
      Run(p, now, Some(deadline)).now == deadline + Overrun(p) - |seconds| as real * early
  {
    TowerDelay(seconds, early, now);
    TowerOverrun(seconds, early);
  }
}
