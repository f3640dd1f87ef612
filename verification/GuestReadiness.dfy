/**
 The bounded readiness poll of scripts/mlflow_readiness_guest.py (`wait_for_guest`).

 Each poll's answer and every clock reading are inputs. Clocks never run backwards, and a sleep
 lasts at least as long as it was asked to.
 */
module GuestReadiness {
  import opened Wrappers

  const POLLS: nat := 121
  const WAIT_SECONDS: real := 120.0
  const RESERVE_SECONDS: real := 435.0

  datatype Sudo = SudoUnknown | Allowed | Denied | SudoTimedOut
  datatype Docker = DockerUnknown | Available | NotAvailable | DockerTimedOut
  datatype Status = Running | OtherStatus
  datatype Health = HealthUnknown | Absent | Starting | Healthy | Unhealthy
  datatype Container = Container(status: Status, running: bool, health: Health)
  datatype Observed = Observed(reachable: bool, sudo: Sudo, docker: Docker, app: Container, db: Container)

  const BLANK: Observed :=
    Observed(false, SudoUnknown, DockerUnknown, Container(OtherStatus, false, HealthUnknown),
             Container(OtherStatus, false, HealthUnknown))

  /** One ssh call: it may not start; otherwise `code` is None after a timeout, and `parsed` is None when
      the answer does not have the probe's schema. */
  datatype Response =
    | NotStarted
    | Answer(code: Option<int>, hostKeyFailed: bool, authFailed: bool, parsed: Option<Observed>)

  /** The clock readings of one poll: at its top, at the two readiness checks, before its sleep. */
  datatype Poll = Poll(top: real, response: Response, checked: real, reserve: real, paused: real)

  datatype Code =
    | ReserveExhausted | ReadinessTimeout | ProcessUnavailable | HostKey | Authentication
    | InvalidResponse | ProbeFailed | SudoDenied | HealthAbsent | PollLimit

  datatype Verdict = Ready(observed: Observed) | Raised(code: Code)

  function Min(a: real, b: real): real { if a < b then a else b }

  function Deadline(start: real, expires: real): real { Min(start + WAIT_SECONDS, expires - RESERVE_SECONDS) }

  function Or(failure: Option<Code>, code: Code, when: bool): Option<Code> {
    if failure.None? && when then Some(code) else failure
  }

  function Seen(r: Response): Observed
    requires r.Answer?
  {
    if r.parsed.Some? then r.parsed.value else BLANK
  }

  /** The first failure the answer shows, in the order the code looks for them. */
  function FailureOf(r: Response): Option<Code>
    requires r.Answer?
  {
    var o := Seen(r);
    var f0 := if r.hostKeyFailed then Some(HostKey) else if r.authFailed then Some(Authentication) else None;
    var f1 := Or(f0, InvalidResponse, r.parsed.None?);
    var f2 := Or(f1, InvalidResponse, r.code == Some(0) && !o.reachable);
    var f3 := Or(f2, ProbeFailed, r.code.Some? && r.code.value != 0 && r.code.value != 255);
    var f4 := Or(f3, SudoDenied, o.sudo.Denied?);
    Or(f4, HealthAbsent, o.app.health.Absent? || o.db.health.Absent?)
  }

  predicate Up(c: Container) { c.running && c.status.Running? && c.health.Healthy? }

  predicate IsReady(r: Response)
    requires r.Answer?
  {
    var o := Seen(r);
    r.code == Some(0) && o.reachable && o.sudo.Allowed? && o.docker.Available? && Up(o.app) && Up(o.db)
  }

  /** What one poll decides, if it ends the wait. */
  function Decide(start: real, expires: real, p: Poll): Option<Verdict> {
    var deadline := Deadline(start, expires);
    if deadline - p.top <= 0.0 then
      Some(Raised(if deadline == expires - RESERVE_SECONDS then ReserveExhausted else ReadinessTimeout))
    else if p.response.NotStarted? then Some(Raised(ProcessUnavailable))
    else if FailureOf(p.response).Some? then Some(Raised(FailureOf(p.response).value))
    else if IsReady(p.response) && p.checked <= deadline && expires - p.reserve >= RESERVE_SECONDS then
      Some(Ready(Seen(p.response)))
    else None
  }

  predicate Clocks(start: real, expires: real, polls: seq<Poll>) {
    && |polls| >= POLLS && start <= polls[0].top
    && (forall i :: 0 <= i < |polls| ==>
          polls[i].top <= polls[i].checked <= polls[i].reserve <= polls[i].paused)
    && (forall i {:trigger polls[i].paused} :: 0 <= i < |polls| - 1 ==>
          var left := Deadline(start, expires) - polls[i].paused;
          polls[i + 1].top >= polls[i].paused + Min(1.0, if left < 0.0 then 0.0 else left))
  }

  /** Poll k starts at least k seconds after the first one, or after the deadline. */
  lemma SleepPaces(start: real, expires: real, polls: seq<Poll>, k: nat)
    requires Clocks(start, expires, polls) && k + 1 < |polls|
    requires polls[k].top >= Min(start + k as real, Deadline(start, expires))
    ensures polls[k + 1].top >= Min(start + (k + 1) as real, Deadline(start, expires))
  {
    assert polls[k].top <= polls[k].paused;
    assert (k + 1) as real == k as real + 1.0;
  }

  lemma {:induction false} PacedFromStart(start: real, expires: real, polls: seq<Poll>, k: nat)
    requires Clocks(start, expires, polls) && k < |polls|
    ensures polls[k].top >= Min(start + k as real, Deadline(start, expires))
  {
    if k > 0 {
      PacedFromStart(start, expires, polls, k - 1);
      SleepPaces(start, expires, polls, k - 1);
    }
  }

  /** By poll 121 the deadline has passed, however the answers and the clocks went. */
  lemma LastPollIsDecisive(start: real, expires: real, polls: seq<Poll>)
    requires Clocks(start, expires, polls)
    ensures Deadline(start, expires) <= polls[POLLS - 1].top
    ensures Decide(start, expires, polls[POLLS - 1]).Some?
  {
    PacedFromStart(start, expires, polls, POLLS - 1);
  }

  /** A result means that both containers run and are healthy, that everything was reachable and
      permitted, that the wait was over in time and that the rest of the VM window is intact. */
  predicate Sound(start: real, expires: real, p: Poll, o: Observed) {
    && p.response == Answer(Some(0), false, false, Some(o))
    && o.reachable && o.sudo.Allowed? && o.docker.Available?
    && o.app == Container(Running, true, Healthy) && o.db == Container(Running, true, Healthy)
    && p.checked <= start + WAIT_SECONDS && expires - p.reserve >= RESERVE_SECONDS
  }

  /** A result is sound, and an expired wait is reported only at or after the deadline, as exhaustion
      exactly when the reserve set that deadline. */
  lemma VerdictMeans(start: real, expires: real, p: Poll, v: Verdict)
    requires Decide(start, expires, p) == Some(v)
    ensures v.Ready? ==> Sound(start, expires, p, v.observed)
    ensures v == Raised(ReserveExhausted) <==>
      p.top >= Deadline(start, expires) && expires - RESERVE_SECONDS <= start + WAIT_SECONDS
    ensures v == Raised(ReadinessTimeout) <==>
      p.top >= Deadline(start, expires) && expires - RESERVE_SECONDS > start + WAIT_SECONDS
  {
  }

  /** A poll made before the deadline, whose clocks do not run backwards, ends the wait with this result if and only if
      its result is sound. */
  lemma ReadyIff(start: real, expires: real, p: Poll, o: Observed)
    requires p.checked <= p.reserve
    ensures Decide(start, expires, p) == Some(Ready(o)) <==>
      p.top < Deadline(start, expires) && Sound(start, expires, p, o)
  {
  }

  /** What one answer may show at once. */
  predicate Shows(r: Response, code: Code)
    requires r.Answer?
  {
    match code
    case HostKey => r.hostKeyFailed
    case Authentication => r.authFailed
    case InvalidResponse => r.parsed.None? || (r.code == Some(0) && !r.parsed.value.reachable)
    case ProbeFailed => r.code.Some? && r.code.value != 0 && r.code.value != 255
    case SudoDenied => r.parsed.Some? && r.parsed.value.sudo.Denied?
    case HealthAbsent => r.parsed.Some? && (r.parsed.value.app.health.Absent? || r.parsed.value.db.health.Absent?)
    case _ => false
  }

  /** From the most to the least urgent. */
  const URGENCY: seq<Code> := [HostKey, Authentication, InvalidResponse, ProbeFailed, SudoDenied, HealthAbsent]

  predicate MostUrgent(r: Response, k: nat)
    requires r.Answer? && k < |URGENCY|
  {
    Shows(r, URGENCY[k]) && forall i :: 0 <= i < k ==> !Shows(r, URGENCY[i])
  }

  /** A poll made before the deadline raises the most urgent failure that its answer shows, if it shows any, or that
      the process did not start; and it lets the wait go on exactly when it has neither a failure nor a result. */
  lemma RaisedIff(start: real, expires: real, p: Poll)
    requires p.top < Deadline(start, expires) && p.checked <= p.reserve
    ensures Decide(start, expires, p) == Some(Raised(ProcessUnavailable)) <==> p.response.NotStarted?
    ensures p.response.Answer? ==> forall k :: 0 <= k < |URGENCY| ==>
      (Decide(start, expires, p) == Some(Raised(URGENCY[k])) <==> MostUrgent(p.response, k))
    ensures Decide(start, expires, p).None? <==>
      && p.response.Answer? && (forall k :: 0 <= k < |URGENCY| ==> !Shows(p.response, URGENCY[k]))
      && !(p.response.parsed.Some? && Sound(start, expires, p, p.response.parsed.value))
  {
    if p.response.Answer? {
      var r := p.response;
      assert URGENCY == [HostKey, Authentication, InvalidResponse, ProbeFailed, SudoDenied, HealthAbsent];
      assert FailureOf(r) ==
        if Shows(r, URGENCY[0]) then Some(HostKey)
        else if Shows(r, URGENCY[1]) then Some(Authentication)
        else if Shows(r, URGENCY[2]) then Some(InvalidResponse)
        else if Shows(r, URGENCY[3]) then Some(ProbeFailed)
        else if Shows(r, URGENCY[4]) then Some(SudoDenied)
        else if Shows(r, URGENCY[5]) then Some(HealthAbsent) else None;
    }
  }

  /** The loop of `wait_for_guest`. Its last statement, the poll-limit error, is never reached, and the
      verdict is that of the first decisive poll. */
  method WaitForGuest(start: real, expires: real, polls: seq<Poll>) returns (v: Verdict, number: nat)
    requires Clocks(start, expires, polls)
    ensures v != Raised(PollLimit)
    ensures number < POLLS && Decide(start, expires, polls[number]) == Some(v)
    ensures forall i :: 0 <= i < number ==> Decide(start, expires, polls[i]).None?
  {
    LastPollIsDecisive(start, expires, polls);
    assert |polls| >= POLLS;
    hide Clocks;
    var deadline := Deadline(start, expires);
    number := 0;
    while number < POLLS
      invariant number <= POLLS
      invariant forall i :: 0 <= i < number ==> Decide(start, expires, polls[i]).None?
    {
      var p := polls[number];
      var remaining := deadline - p.top;
      if remaining <= 0.0 {
        return Raised(if deadline == expires - RESERVE_SECONDS then ReserveExhausted else ReadinessTimeout), number;
      }
      if p.response.NotStarted? { return Raised(ProcessUnavailable), number; }
      var failure := FailureOf(p.response);
      if failure.Some? { return Raised(failure.value), number; }
      if IsReady(p.response) && p.checked <= deadline && expires - p.reserve >= RESERVE_SECONDS {
        return Ready(Seen(p.response)), number;
      }
      number := number + 1;
    }
    assert false;
    v := Raised(PollLimit);
  }
}
