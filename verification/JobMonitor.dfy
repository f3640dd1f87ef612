/**
 The job watchdog loop `monitor_g4_job` of scripts/lightgbm_wave1.py (lines 696-769).

 Each poll's answer and clock readings are inputs. `process` is the monotonic clock since the monitor
 started and `receipt` the wall clock since submission, both read after the answer arrived.
 */
module JobMonitor {
  import opened Wrappers

  const LIMIT: real := 900.0

  /** `Status.Other` is a status the monitor keeps waiting on. */
  datatype Status = Unknown | Completed | Failed | Other
  type Context = string

  /** `done` is the job's own finishing time since submission, when the answer states one. */
  datatype Answer =
    | QueryFailed
    | Job(status: Status, context: Option<Context>, done: Option<real>)

  datatype Poll = Poll(answer: Answer, process: real, receipt: real)

  datatype Verdict =
    | StatusQueryFailed | ResourceMismatch | EvidenceMissing
    | JobCompleted | WatchdogBreached | JobFailed | WatchdogCancelled | CancelFailed

  /** What the loop did: its verdict, the polls used, the sleeps asked for and the cancel calls made. */
  datatype Outcome = Outcome(verdict: Option<Verdict>, polls: nat, sleeps: seq<real>, cancels: nat)

  function Max(a: real, b: real): real { if a > b then a else b }
  function Min(a: real, b: real): real { if a < b then a else b }

  function Elapsed(p: Poll): real { Max(Max(0.0, p.process), Max(0.0, p.receipt)) }

  // ---------------------------------------------------------------- specification

  /** The last context that the first `n` answers show. */
  function Observed(polls: seq<Poll>, n: nat): Option<Context>
    requires n <= |polls|
  {
    if n == 0 then None
    else
      var a := polls[n - 1].answer;
      if a.Job? && a.context.Some? then a.context else Observed(polls, n - 1)
  }

  predicate Mismatch(polls: seq<Poll>, n: nat, expected: Context)
    requires n <= |polls|
  {
    Observed(polls, n).Some? && Observed(polls, n).value != expected
  }

  /** The elapsed time a completed job is judged by. */
  function Effective(p: Poll): real
    requires p.answer.Job?
  {
    if p.answer.done.Some? then Max(0.0, p.answer.done.value) else Elapsed(p)
  }

  /** What poll `n` settles, if anything; `cancelOk` is the answer a cancel call would get. */
  function Decide(polls: seq<Poll>, n: nat, expected: Context, cancelOk: bool): Option<Verdict>
    requires n < |polls|
  {
    var p := polls[n];
    if p.answer.QueryFailed? then Some(StatusQueryFailed)
    else if Mismatch(polls, n + 1, expected) then Some(ResourceMismatch)
    else match p.answer.status
      case Unknown => Some(StatusQueryFailed)
      case Completed =>
        if Observed(polls, n + 1).None? then Some(EvidenceMissing)
        else if Effective(p) <= LIMIT then Some(JobCompleted) else Some(WatchdogBreached)
      case Failed => Some(JobFailed)
      case Other =>
        if Elapsed(p) < LIMIT then None else Some(if cancelOk then WatchdogCancelled else CancelFailed)
  }

  predicate Undecided(polls: seq<Poll>, n: nat, expected: Context, cancelOk: bool)
    requires n <= |polls|
  {
    forall i :: 0 <= i < n ==> Decide(polls, i, expected, cancelOk) == None
  }

  // ---------------------------------------------------------------- the loop

  /** What the loop promises of its outcome. */
  predicate Settled(polls: seq<Poll>, expected: Context, interval: real, cancelOk: bool, r: Outcome) {
    && r.polls <= |polls|
    && (if r.verdict.Some? then
          r.polls > 0 && Undecided(polls, r.polls - 1, expected, cancelOk)
          && r.verdict == Decide(polls, r.polls - 1, expected, cancelOk)
        else r.polls == |polls| && Undecided(polls, |polls|, expected, cancelOk))
    && r.cancels == (if r.verdict in {Some(WatchdogCancelled), Some(CancelFailed)} then 1 else 0)
    && |r.sleeps| == (if r.verdict.Some? then r.polls - 1 else r.polls)
    && forall i :: 0 <= i < |r.sleeps| ==>
         r.sleeps[i] == Min(interval, LIMIT - Elapsed(polls[i])) && 0.0 < r.sleeps[i] <= interval
  }

  /** `monitor_g4_job` refuses an interval outside (0, 60], and otherwise polls until the job is settled. */
  method Monitor(polls: seq<Poll>, expected: Context, interval: real, cancelOk: bool) returns (r: Option<Outcome>)
    ensures r.Some? <==> 0.0 < interval <= 60.0
    ensures r.Some? ==> Settled(polls, expected, interval, cancelOk, r.value)
    ensures r.Some? && r.value.cancels > 0 ==>
      r.value.polls > 0 && Elapsed(polls[r.value.polls - 1]) >= LIMIT && r.value.cancels == 1
  {
    if !(0.0 < interval <= 60.0) { return None; }
    var outcome := PollUntilSettled(polls, expected, interval, cancelOk);
    r := Some(outcome);
  }

  /** The loop reads answers until one settles the job; `polls` is what the provider and the clocks would
      say, and the verdict is None only if that script ends while the monitor still waits. */
  method PollUntilSettled(polls: seq<Poll>, expected: Context, interval: real, cancelOk: bool) returns (r: Outcome)
    requires 0.0 < interval <= 60.0
    ensures Settled(polls, expected, interval, cancelOk, r)
  {
    var observed: Option<Context> := None;
    var sleeps: seq<real> := [];
    var i: nat := 0;
    while i < |polls|
      invariant i <= |polls| && |sleeps| == i
      invariant observed == Observed(polls, i)
      invariant Undecided(polls, i, expected, cancelOk)
      invariant forall k :: 0 <= k < i ==>
        sleeps[k] == Min(interval, LIMIT - Elapsed(polls[k])) && 0.0 < sleeps[k] <= interval
    {
      var p := polls[i];
      var elapsed := Elapsed(p);
      if p.answer.QueryFailed? { return Outcome(Some(StatusQueryFailed), i + 1, sleeps, 0); }
      if p.answer.context.Some? { observed := p.answer.context; }
      if observed.Some? && observed.value != expected { return Outcome(Some(ResourceMismatch), i + 1, sleeps, 0); }
      if p.answer.status == Unknown { return Outcome(Some(StatusQueryFailed), i + 1, sleeps, 0); }
      if p.answer.status == Completed {
        if observed.None? { return Outcome(Some(EvidenceMissing), i + 1, sleeps, 0); }
        var effective := if p.answer.done.Some? then Max(0.0, p.answer.done.value) else elapsed;
        return Outcome(Some(if effective <= LIMIT then JobCompleted else WatchdogBreached), i + 1, sleeps, 0);
      }
      if p.answer.status == Failed { return Outcome(Some(JobFailed), i + 1, sleeps, 0); }
      if elapsed >= LIMIT {
        return Outcome(Some(if cancelOk then WatchdogCancelled else CancelFailed), i + 1, sleeps, 1);
      }
      sleeps := sleeps + [Min(interval, LIMIT - elapsed)];
      i := i + 1;
    }
    r := Outcome(None, i, sleeps, 0);
  }

  // ---------------------------------------------------------------- soundness

  lemma {:induction false} ObservedIsLast(polls: seq<Poll>, n: nat)
    requires n <= |polls|
    ensures Observed(polls, n).Some? <==>
      exists i :: 0 <= i < n && polls[i].answer.Job? && polls[i].answer.context.Some?
    ensures Observed(polls, n).Some? ==>
      exists i :: 0 <= i < n && polls[i].answer.Job? && polls[i].answer.context == Observed(polls, n)
  {
    if n > 0 { ObservedIsLast(polls, n - 1); }
  }

  /** Every context seen before the verdict was the expected one. */
  lemma {:induction false} UndecidedMatches(polls: seq<Poll>, n: nat, expected: Context, cancelOk: bool, i: nat)
    requires n <= |polls| && Undecided(polls, n, expected, cancelOk) && i < n
    ensures polls[i].answer.Job? && (polls[i].answer.context.Some? ==> polls[i].answer.context.value == expected)
  {
    assert Decide(polls, i, expected, cancelOk) == None;
    assert Observed(polls, i + 1) == if polls[i].answer.Job? && polls[i].answer.context.Some?
        then polls[i].answer.context else Observed(polls, i);
  }

  /** The verdict COMPLETED means, and only it means: the last answer says completed within the limit, at
      least one context was seen, every context seen was the expected one, and nothing earlier was
      decisive. */
  lemma CompletedIff(polls: seq<Poll>, n: nat, expected: Context, cancelOk: bool)
    requires n < |polls| && Undecided(polls, n, expected, cancelOk)
    ensures Decide(polls, n, expected, cancelOk) == Some(JobCompleted) <==>
      && polls[n].answer.Job? && polls[n].answer.status == Completed && Effective(polls[n]) <= LIMIT
      && (exists i :: 0 <= i <= n && polls[i].answer.Job? && polls[i].answer.context.Some?)
      && (forall i :: 0 <= i <= n && polls[i].answer.Job? && polls[i].answer.context.Some? ==>
            polls[i].answer.context.value == expected)
  {
    ObservedIsLast(polls, n + 1);
    forall i | 0 <= i < n
      ensures polls[i].answer.Job? && (polls[i].answer.context.Some? ==> polls[i].answer.context.value == expected)
    {
      UndecidedMatches(polls, n, expected, cancelOk, i);
    }
  }

  predicate ShowsContext(p: Poll) { p.answer.Job? && p.answer.context.Some? }

  /** This answer shows another context than the expected one. */
  predicate WrongContext(p: Poll, expected: Context) { ShowsContext(p) && p.answer.context.value != expected }

  /** This answer is a job's, with no wrong context. */
  predicate Sober(p: Poll, expected: Context, status: Status) {
    p.answer.Job? && !WrongContext(p, expected) && p.answer.status == status
  }

  /** 900 seconds have passed by one of the two clocks. */
  predicate LimitReached(p: Poll) { p.process >= LIMIT || p.receipt >= LIMIT }

  /** When each other verdict is given, by the answers and the clocks alone. A cancel is tried exactly when the job
      goes on at the limit; and the verdict then says whether the provider took it. */
  lemma OtherVerdictsIff(polls: seq<Poll>, n: nat, expected: Context, cancelOk: bool)
    requires n < |polls| && Undecided(polls, n, expected, cancelOk)
    ensures var v, p := Decide(polls, n, expected, cancelOk), polls[n];
      && (v == Some(StatusQueryFailed) <==> p.answer.QueryFailed? || Sober(p, expected, Unknown))
      && (v == Some(ResourceMismatch) <==> WrongContext(p, expected))
      && (v == Some(EvidenceMissing) <==>
            Sober(p, expected, Completed) && forall i :: 0 <= i <= n ==> !ShowsContext(polls[i]))
      && (v == Some(WatchdogBreached) <==>
            && Sober(p, expected, Completed) && (exists i :: 0 <= i <= n && ShowsContext(polls[i]))
            && if p.answer.done.Some? then p.answer.done.value > LIMIT else p.process > LIMIT || p.receipt > LIMIT)
      && (v == Some(JobFailed) <==> Sober(p, expected, Failed))
      && (v == Some(WatchdogCancelled) <==> Sober(p, expected, Other) && LimitReached(p) && cancelOk)
      && (v == Some(CancelFailed) <==> Sober(p, expected, Other) && LimitReached(p) && !cancelOk)
      && (v == None <==> Sober(p, expected, Other) && !LimitReached(p))
  {
    ObservedIsLast(polls, n + 1);
    ObservedIsLast(polls, n);
    forall i | 0 <= i < n ensures polls[i].answer.Job? && !WrongContext(polls[i], expected) {
      UndecidedMatches(polls, n, expected, cancelOk, i);
    }
    if polls[n].answer.Job? { MismatchIsWrong(polls, n, expected); }
  }

  lemma MismatchIsWrong(polls: seq<Poll>, n: nat, expected: Context)
    requires n < |polls| && polls[n].answer.Job? && forall i :: 0 <= i < n ==> !WrongContext(polls[i], expected)
    ensures Mismatch(polls, n + 1, expected) <==> WrongContext(polls[n], expected)
  {
    ObservedIsLast(polls, n);
  }

  // ---------------------------------------------------------------- termination

  /** Between two polls both clocks advance by at least the sleep that was asked for. */
  predicate Honest(polls: seq<Poll>, interval: real, n: nat)
    requires n < |polls|
  {
    var slept := Min(interval, LIMIT - Elapsed(polls[n]));
    n + 1 < |polls| ==>
      polls[n + 1].process >= polls[n].process + slept && polls[n + 1].receipt >= polls[n].receipt + slept
  }

  lemma ElapsedGrows(p: Poll, q: Poll, slept: real)
    requires p.process >= 0.0 && slept >= 0.0 && q.process >= p.process + slept && q.receipt >= p.receipt + slept
    ensures Elapsed(q) >= Elapsed(p) + slept
  {
  }

  /** `n` intervals, added one by one. */
  function Total(n: nat, interval: real): real { if n == 0 then 0.0 else Total(n - 1, interval) + interval }

  lemma {:induction false} TotalIsProduct(n: nat, interval: real)
    ensures Total(n, interval) == n as real * interval
  {
    if n > 0 {
      TotalIsProduct(n - 1, interval);
      Distribute((n - 1) as real, interval);
      assert n as real == (n - 1) as real + 1.0;
    }
  }

  lemma Distribute(a: real, c: real)
    ensures (a + 1.0) * c == a * c + c
  {
  }

  /** After `n` sleeps either the limit is reached or `n` whole intervals have passed. */
  lemma {:induction false} ElapsedAtLeast(polls: seq<Poll>, interval: real, n: nat)
    requires 0.0 < interval <= 60.0 && n < |polls| && polls[0].process >= 0.0
    requires forall i :: 0 <= i < n ==> Honest(polls, interval, i) && Elapsed(polls[i]) < LIMIT
    ensures polls[n].process >= 0.0
    ensures Elapsed(polls[n]) >= Min(LIMIT, Total(n, interval))
  {
    if n > 0 {
      ElapsedAtLeast(polls, interval, n - 1);
      assert Honest(polls, interval, n - 1);
      ElapsedGrows(polls[n - 1], polls[n], Min(interval, LIMIT - Elapsed(polls[n - 1])));
    }
  }

  lemma UndecidedIsEarly(polls: seq<Poll>, n: nat, expected: Context, cancelOk: bool)
    requires n <= |polls| && Undecided(polls, n, expected, cancelOk)
    ensures forall i :: 0 <= i < n ==> Elapsed(polls[i]) < LIMIT
  {
    forall i | 0 <= i < n ensures Elapsed(polls[i]) < LIMIT {
      assert Decide(polls, i, expected, cancelOk) == None;
    }
  }

  /** The number of whole intervals that cover the limit: ceil(900 / interval). */
  function Intervals(interval: real): (k: int)
    requires 0.0 < interval
  {
    -((-(LIMIT / interval)).Floor)
  }

  lemma IntervalsCover(interval: real)
    requires 0.0 < interval
    ensures Intervals(interval) > 0
    ensures (Intervals(interval) as real - 1.0) * interval < LIMIT <= Intervals(interval) as real * interval
  {
    var q, k := LIMIT / interval, Intervals(interval) as real;
    assert q * interval == LIMIT;
    assert k - 1.0 < q <= k;
    Scale(k - 1.0, q, interval);
    Scale(q, k, interval);
    if k <= 0.0 { Scale(k, 0.0, interval); }
  }

  lemma Positive(x: real, c: real)
    requires x > 0.0 && c > 0.0
    ensures x * c > 0.0
  {
  }

  lemma Scale(a: real, b: real, c: real)
    requires c > 0.0
    ensures a < b ==> a * c < b * c
    ensures a <= b ==> a * c <= b * c
  {
    if a < b {
      Positive(b - a, c);
      assert (b - a) * c == b * c - a * c;
    }
  }

  lemma CoversLimit(interval: real)
    requires 0.0 < interval
    ensures Intervals(interval) > 0 && Total(Intervals(interval), interval) >= LIMIT
  {
    IntervalsCover(interval);
    TotalIsProduct(Intervals(interval), interval);
  }

  lemma UndecidedBelow(polls: seq<Poll>, interval: real, expected: Context, cancelOk: bool, n: nat, k: nat)
    requires 0.0 < interval <= 60.0 && n <= |polls| && (|polls| > 0 ==> polls[0].process >= 0.0)
    requires forall i :: 0 <= i < |polls| ==> Honest(polls, interval, i)
    requires Undecided(polls, n, expected, cancelOk) && Total(k, interval) >= LIMIT
    ensures n <= k
  {
    UndecidedIsEarly(polls, n, expected, cancelOk);
    if k < n { ElapsedAtLeast(polls, interval, k); }
  }

  /** With honest clocks the monitor is never left waiting after ceil(900 / interval) + 1 polls. */
  lemma PollsBounded(polls: seq<Poll>, interval: real, expected: Context, cancelOk: bool, n: nat)
    requires 0.0 < interval <= 60.0 && n <= |polls| && (|polls| > 0 ==> polls[0].process >= 0.0)
    requires forall i :: 0 <= i < |polls| ==> Honest(polls, interval, i)
    requires Undecided(polls, n, expected, cancelOk)
    ensures n <= Intervals(interval)
  {
    CoversLimit(interval);
    UndecidedBelow(polls, interval, expected, cancelOk, n, Intervals(interval));
  }

  /** The bound is attained: with clocks that advance by exactly the sleep and a job that never ends, a
      monitor that polls every 60 seconds is still undecided after 15 polls and cancels at the 16th. */
  function Waiting(n: nat): (polls: seq<Poll>)
    ensures |polls| == n && forall i :: 0 <= i < n ==>
      polls[i] == Poll(Job(Other, None, None), 60.0 * i as real, 60.0 * i as real)
  {
    if n == 0 then []
    else Waiting(n - 1) + [Poll(Job(Other, None, None), 60.0 * (n - 1) as real, 60.0 * (n - 1) as real)]
  }

  lemma BoundIsAttained(expected: Context)
    ensures Intervals(60.0) == 15
    ensures forall i :: 0 <= i < 16 ==> Honest(Waiting(16), 60.0, i)
    ensures Undecided(Waiting(16), 15, expected, true)
    ensures Decide(Waiting(16), 15, expected, true) == Some(WatchdogCancelled)
  {
    var polls := Waiting(16);
    forall n | 0 <= n <= 16 ensures Observed(polls, n) == None { NothingSeen(polls, n); }
    forall i | 0 <= i < 15 ensures Decide(polls, i, expected, true) == None {
      assert Elapsed(polls[i]) == 60.0 * i as real;
    }
  }

  lemma {:induction false} NothingSeen(polls: seq<Poll>, n: nat)
    requires n <= |polls| && forall i :: 0 <= i < n ==> polls[i].answer == Job(Other, None, None)
    ensures Observed(polls, n) == None
  {
    if n > 0 { NothingSeen(polls, n - 1); }
  }
}
