/**
 The auth store under concurrent requests: every interleaving of the transactions of challenges, logins
 and revocations. A login is two transactions, with the identity check between them; a request that fails
 or raises in between simply takes no further step. Clock readings are arbitrary.
 */
module AuthRuns {
  import opened Wrappers
  import opened AuthStore

  datatype Login = Holding(token: string, nonce: string) | Refused | Finished

  datatype System = System(tables: Tables, logins: map<nat, Login>)

  datatype Event =
    | Challenged(token: string, nonce: string, origin: string, now: real)
    | Consumed(pid: nat, token: string, origin: string, now: real)
    | LoggedIn(pid: nat, claims: Claims, now: real, token: string)
    | Revoked(token: string)

  const START: System := System(Tables(map[], map[]), map[])

  predicate CanLogIn(settings: Settings, s: System, e: Event)
    requires e.LoggedIn?
  {
    && e.pid in s.logins && s.logins[e.pid].Holding?
    && Accepts(settings, e.claims, s.logins[e.pid].nonce, e.now)
    && Open(s.tables, e.token, UserOf(settings, e.claims), Expiry(settings, e.claims, e.now), e.now).Ok?
  }

  predicate Enabled(settings: Settings, s: System, e: Event) {
    match e
    case Challenged(token, nonce, origin, now) => Issue(s.tables, token, nonce, origin, now).Ok?
    case Consumed(pid, token, _, _) => pid !in s.logins && IsToken(token)
    case LoggedIn(_, _, _, _) => CanLogIn(settings, s, e)
    case Revoked(token) => IsToken(token)
  }

  function Apply(settings: Settings, s: System, e: Event): System
    requires Enabled(settings, s, e)
  {
    match e
    case Challenged(token, nonce, origin, now) => s.(tables := Issue(s.tables, token, nonce, origin, now).value)
    case Consumed(pid, token, origin, now) =>
      var worth := Worth(s.tables, token, origin, now);
      System(Spend(s.tables, token),
             s.logins[pid := if worth.Some? then Holding(token, worth.value) else Refused])
    case LoggedIn(pid, claims, now, token) =>
      System(Open(s.tables, token, UserOf(settings, claims), Expiry(settings, claims, now), now).value,
             s.logins[pid := Finished])
    case Revoked(token) => s.(tables := Drop(s.tables, token))
  }

  predicate Step(settings: Settings, s: System, e: Event, t: System) {
    Enabled(settings, s, e) && t == Apply(settings, s, e)
  }

  /** A run: its events and the states before, between and after them, from empty tables. */
  ghost predicate Behaves(settings: Settings, trace: seq<Event>, states: seq<System>) {
    && |states| == |trace| + 1 && states[0] == START
    && (forall i :: 0 <= i < |trace| ==> Step(settings, states[i], trace[i], states[i + 1]))
  }

  // ---------------------------------------------------------------- capacity

  lemma OneStepBounded(settings: Settings, s: System, e: Event)
    requires Enabled(settings, s, e) && Bounded(s.tables)
    ensures Bounded(Apply(settings, s, e).tables)
  {
    var t := s.tables;
    match e
    case Challenged(token, nonce, origin, now) => IssueStaysBounded(t, token, nonce, origin, now);
    case Consumed(_, token, _, _) => RemovalStaysBounded(t, token);
    case LoggedIn(_, claims, now, token) =>
      OpenStaysBounded(t, token, UserOf(settings, claims), Expiry(settings, claims, now), now);
    case Revoked(token) => RemovalStaysBounded(t, token);
  }

  /** Neither table ever holds more than 1000 rows. */
  lemma {:induction false} NeverOverCapacity(settings: Settings, trace: seq<Event>, states: seq<System>, n: nat)
    requires Behaves(settings, trace, states) && n <= |trace|
    ensures Bounded(states[n].tables)
  {
    if n > 0 {
      NeverOverCapacity(settings, trace, states, n - 1);
      assert Step(settings, states[n - 1], trace[n - 1], states[n - 1 + 1]);
      OneStepBounded(settings, states[n - 1], trace[n - 1]);
    }
  }

  // ---------------------------------------------------------------- challenges are spent once

  /** The event lets a login past the nonce stage. */
  predicate Grants(s: System, e: Event) {
    e.Consumed? && Worth(s.tables, e.token, e.origin, e.now).Some?
  }

  /** One step adds a challenge only by issuing it. */
  lemma OneStepIssue(settings: Settings, s: System, e: Event, t: System, token: string)
    requires Step(settings, s, e, t) && token !in s.tables.challenges && token in t.tables.challenges
    ensures e.Challenged? && e.token == token
  {
  }

  /** A presented challenge is gone after the step. */
  lemma PresentedIsGone(settings: Settings, s: System, e: Event, t: System)
    requires Step(settings, s, e, t) && e.Consumed?
    ensures e.token !in t.tables.challenges
  {
  }

  /** A challenge that was absent and is present again was issued in between. */
  lemma {:induction false} IssuedBetween(settings: Settings, trace: seq<Event>, states: seq<System>, m: nat, n: nat,
                                         token: string)
      returns (k: nat)
    requires Behaves(settings, trace, states) && m <= n <= |trace|
    requires token !in states[m].tables.challenges && token in states[n].tables.challenges
    ensures m <= k < n && trace[k].Challenged? && trace[k].token == token
    decreases n
  {
    if token in states[n - 1].tables.challenges {
      k := IssuedBetween(settings, trace, states, m, n - 1, token);
    } else {
      k := n - 1;
      assert Step(settings, states[k], trace[k], states[k + 1]);
      OneStepIssue(settings, states[k], trace[k], states[n], token);
    }
  }

  /** Two logins get past the nonce stage with the same challenge token only if it was issued anew between
      them: each issued challenge admits at most one. */
  lemma EachChallengeAdmitsOne(settings: Settings, trace: seq<Event>, states: seq<System>, i: nat, j: nat)
      returns (k: nat)
    requires Behaves(settings, trace, states) && i < j < |trace|
    requires Grants(states[i], trace[i]) && Grants(states[j], trace[j]) && trace[i].token == trace[j].token
    ensures i < k < j && trace[k].Challenged? && trace[k].token == trace[i].token
  {
    assert Step(settings, states[i], trace[i], states[i + 1]);
    PresentedIsGone(settings, states[i], trace[i], states[i + 1]);
    k := IssuedBetween(settings, trace, states, i + 1, j, trace[i].token);
  }

  // ---------------------------------------------------------------- where a session comes from

  predicate Spends(e: Event, token: string) { e.Consumed? && e.token == token }
  predicate Revokes(e: Event, token: string) { e.Revoked? && e.token == token }
  predicate Issues(e: Event, token: string) { e.Challenged? && e.token == token }
  predicate Opens(e: Event, token: string) { e.LoggedIn? && e.token == token }
  predicate Presents(e: Event, pid: nat) { e.Consumed? && e.pid == pid }

  /** One step leaves a challenge that stays alone, or issues it. */
  lemma OneStepChallenge(settings: Settings, s: System, e: Event, t: System, token: string)
    requires Step(settings, s, e, t) && token in t.tables.challenges
    ensures !Spends(e, token)
    ensures !Issues(e, token) ==>
      token in s.tables.challenges && t.tables.challenges[token] == s.tables.challenges[token]
    ensures Issues(e, token) ==> t.tables.challenges[token] == Challenge(e.nonce, e.origin, e.now + CHALLENGE_SECONDS)
  {
  }

  /** A challenge in the table is the last one issued under its token and has not been presented since. */
  lemma {:induction false} ChallengeSource(settings: Settings, trace: seq<Event>, states: seq<System>, n: nat,
                                           token: string)
      returns (k: nat)
    requires Behaves(settings, trace, states) && n <= |trace| && token in states[n].tables.challenges
    ensures k < n && Issues(trace[k], token)
    ensures states[n].tables.challenges[token] ==
      Challenge(trace[k].nonce, trace[k].origin, trace[k].now + CHALLENGE_SECONDS)
    ensures forall l :: k < l < n ==> !Spends(trace[l], token)
    decreases n
  {
    assert Step(settings, states[n - 1], trace[n - 1], states[n - 1 + 1]);
    OneStepChallenge(settings, states[n - 1], trace[n - 1], states[n], token);
    if Issues(trace[n - 1], token) {
      k := n - 1;
    } else {
      k := ChallengeSource(settings, trace, states, n - 1, token);
    }
  }

  predicate Holds(s: System, pid: nat) { pid in s.logins && s.logins[pid].Holding? }

  /** One step leaves a login that holds a nonce alone, or gives it the nonce for a challenge. */
  lemma OneStepNonce(settings: Settings, s: System, e: Event, t: System, pid: nat)
    requires Step(settings, s, e, t) && Holds(t, pid)
    ensures !Presents(e, pid) ==> Holds(s, pid) && t.logins[pid] == s.logins[pid]
    ensures Presents(e, pid) ==>
      t.logins[pid].token == e.token && Worth(s.tables, e.token, e.origin, e.now) == Some(t.logins[pid].nonce)
  {
  }

  /** A login that holds a nonce got it by presenting a challenge of its origin before it expired. */
  lemma {:induction false} NonceSource(settings: Settings, trace: seq<Event>, states: seq<System>, n: nat, pid: nat)
      returns (j: nat)
    requires Behaves(settings, trace, states) && n <= |trace| && Holds(states[n], pid)
    ensures j < n && Presents(trace[j], pid) && trace[j].token == states[n].logins[pid].token
    ensures Worth(states[j].tables, trace[j].token, trace[j].origin, trace[j].now) == Some(states[n].logins[pid].nonce)
    decreases n
  {
    assert Step(settings, states[n - 1], trace[n - 1], states[n - 1 + 1]);
    OneStepNonce(settings, states[n - 1], trace[n - 1], states[n], pid);
    if Presents(trace[n - 1], pid) {
      j := n - 1;
    } else {
      j := NonceSource(settings, trace, states, n - 1, pid);
    }
  }

  /** One step leaves a session's row alone, or a login writes it. */
  lemma OneStepSession(settings: Settings, s: System, e: Event, t: System, token: string)
    requires Step(settings, s, e, t) && token in t.tables.sessions
    ensures !Revokes(e, token)
    ensures !Opens(e, token) ==> token in s.tables.sessions && t.tables.sessions[token] == s.tables.sessions[token]
    ensures Opens(e, token) ==> CanLogIn(settings, s, e)
    ensures Opens(e, token) ==>
      t.tables.sessions[token] == Row(UserOf(settings, e.claims), Expiry(settings, e.claims, e.now))
  {
  }

  /** A session row was opened by a login under its token and not revoked since. */
  lemma {:induction false} SessionSource(settings: Settings, trace: seq<Event>, states: seq<System>, n: nat,
                                         token: string)
      returns (i: nat)
    requires Behaves(settings, trace, states) && n <= |trace| && token in states[n].tables.sessions
    ensures i < n && Opens(trace[i], token) && CanLogIn(settings, states[i], trace[i])
    ensures states[n].tables.sessions[token] ==
      Row(UserOf(settings, trace[i].claims), Expiry(settings, trace[i].claims, trace[i].now))
    ensures forall l :: i < l < n ==> !Revokes(trace[l], token)
    decreases n
  {
    assert Step(settings, states[n - 1], trace[n - 1], states[n - 1 + 1]);
    OneStepSession(settings, states[n - 1], trace[n - 1], states[n], token);
    if Opens(trace[n - 1], token) {
      i := n - 1;
    } else {
      i := SessionSource(settings, trace, states, n - 1, token);
    }
  }

  /** Every session that is served goes back to a login that presented, before it expired and under the
      origin it was issued for, a challenge that had not been presented before; whose accepted claims carry
      that challenge's nonce; which has not been revoked since; and the session ends no later than the
      claims and the session length allow. */
  lemma ServedSessionIsSound(settings: Settings, trace: seq<Event>, states: seq<System>, token: string, now: real)
      returns (i: nat, j: nat, k: nat)
    requires Behaves(settings, trace, states) && Served(settings, states[|trace|].tables, token, now).Some?
    ensures k < j < i < |trace|
    ensures Opens(trace[i], token) && Presents(trace[j], trace[i].pid)
    ensures Issues(trace[k], trace[j].token) && trace[k].origin == trace[j].origin
    ensures trace[j].now < trace[k].now + CHALLENGE_SECONDS
    ensures Accepts(settings, trace[i].claims, trace[k].nonce, trace[i].now)
    ensures forall l :: k < l < j ==> !Spends(trace[l], trace[k].token)
    ensures forall l :: i < l < |trace| ==> !Revokes(trace[l], token)
    ensures var row := Served(settings, states[|trace|].tables, token, now).value;
      now < row.expires && row.expires <= trace[i].claims.exp.value && row.expires <= trace[i].now + settings.seconds
      && row.user.email in settings.allowed
  {
    i := SessionSource(settings, trace, states, |trace|, token);
    j := NonceSource(settings, trace, states, i, trace[i].pid);
    k := ChallengeSource(settings, trace, states, j, trace[j].token);
  }

  // ---------------------------------------------------------------- one session for a login

  predicate HasFinished(s: System, pid: nat) { pid in s.logins && s.logins[pid].Finished? }

  lemma OneStepFinished(settings: Settings, s: System, e: Event, t: System, pid: nat)
    requires Step(settings, s, e, t)
    ensures HasFinished(s, pid) ==> HasFinished(t, pid) && !(e.LoggedIn? && e.pid == pid)
    ensures e.LoggedIn? && e.pid == pid ==> HasFinished(t, pid)
  {
  }

  lemma {:induction false} FinishedStays(settings: Settings, trace: seq<Event>, states: seq<System>, m: nat, n: nat,
                                         pid: nat)
    requires Behaves(settings, trace, states) && m <= n <= |trace| && HasFinished(states[m], pid)
    ensures HasFinished(states[n], pid)
    decreases n
  {
    if m < n {
      FinishedStays(settings, trace, states, m, n - 1, pid);
      assert Step(settings, states[n - 1], trace[n - 1], states[n - 1 + 1]);
      OneStepFinished(settings, states[n - 1], trace[n - 1], states[n], pid);
    }
  }

  /** A login opens at most one session. */
  lemma OneSessionPerLogin(settings: Settings, trace: seq<Event>, states: seq<System>, i: nat, j: nat)
    requires Behaves(settings, trace, states) && i < j < |trace| && trace[i].LoggedIn? && trace[j].LoggedIn?
    ensures trace[i].pid != trace[j].pid
  {
    var pid := trace[i].pid;
    assert Step(settings, states[i], trace[i], states[i + 1]);
    OneStepFinished(settings, states[i], trace[i], states[i + 1], pid);
    FinishedStays(settings, trace, states, i + 1, j, pid);
    assert Step(settings, states[j], trace[j], states[j + 1]);
    OneStepFinished(settings, states[j], trace[j], states[j + 1], pid);
  }

  // ---------------------------------------------------------------- the service does log in

  predicate RoomToIssue(t: Tables, token: string, nonce: string, now: real) {
    |LiveChallenges(t, now)| < CAPACITY && token !in LiveChallenges(t, now) && IsToken(token) && IsToken(nonce)
  }

  predicate RoomToOpen(t: Tables, token: string, now: real) {
    |LiveSessions(t, now)| < CAPACITY && token !in LiveSessions(t, now) && IsToken(token)
  }

  /** From any state with room, a challenge that is presented within its 300 seconds under its own origin lets accepted
      claims with its nonce log in; the session is served until it expires and is gone once it is revoked. */
  lemma LoneLoginIsServed(settings: Settings, s: System, pid: nat, challenge: string, nonce: string, issued: real,
                          presented: real, claims: Claims, now: real, token: string) returns (trace: seq<Event>,
                          states: seq<System>)
    requires RoomToIssue(s.tables, challenge, nonce, issued) && pid !in s.logins && presented < issued + 300.0
    requires Accepts(settings, claims, nonce, now) && RoomToOpen(s.tables, token, now)
    ensures |trace| == 4 && |states| == 5 && states[0] == s
    ensures trace == [Challenged(challenge, nonce, settings.origin, issued),
                      Consumed(pid, challenge, settings.origin, presented),
                      LoggedIn(pid, claims, now, token), Revoked(token)]
    ensures forall i :: 0 <= i < 4 ==> Step(settings, states[i], trace[i], states[i + 1])
    ensures forall later: real :: later < Expiry(settings, claims, now) ==>
      Served(settings, states[3].tables, token, later) ==
        Some(Row(UserOf(settings, claims), Expiry(settings, claims, now)))
    ensures forall later: real :: Served(settings, states[4].tables, token, later).None?
  {
    var c := Challenged(challenge, nonce, settings.origin, issued);
    var a := Apply(settings, s, c);
    var p := Consumed(pid, challenge, settings.origin, presented);
    var b := Apply(settings, a, p);
    var l := LoggedIn(pid, claims, now, token);
    var d := Apply(settings, b, l);
    var r := Revoked(token);
    trace, states := [c, p, l, r], [s, a, b, d, Apply(settings, d, r)];
  }
}
