/**
 Opaque-token custody: backend/app/ceo_auth_store.py, and the session life cycle of backend/app/ceo_auth.py.

 Each method of the store is one exclusive transaction over two tables, so a transaction that raises
 leaves the tables as they were. A token stands for its SHA-256, which is taken to be injective.
 */
module AuthStore {
  import opened Wrappers

  const CAPACITY: nat := 1000
  const CHALLENGE_SECONDS: real := 300.0

  datatype Challenge = Challenge(nonce: string, origin: string, expires: real)
  datatype User = User(id: string, email: string, name: string)
  datatype Row = Row(user: User, expires: real)
  datatype Tables = Tables(challenges: map<string, Challenge>, sessions: map<string, Row>)

  datatype Failure = BadToken | Full | Duplicate

  predicate IsToken(s: string) { |s| == 43 && forall i :: 0 <= i < |s| ==> TokenChar(s[i]) }

  predicate TokenChar(c: char) { 'A' <= c <= 'Z' || 'a' <= c <= 'z' || '0' <= c <= '9' || c == '_' || c == '-' }

  const UPPER: string := "ABCDEFGHIJKLMNOPQRSTUVWXYZ"
  const LOWER: string := "abcdefghijklmnopqrstuvwxyz"
  const REST: string := "0123456789-_"

  lemma UpperIff(c: char)
    ensures c in UPPER <==> 'A' <= c <= 'Z'
  {
    if 'A' <= c <= 'Z' { assert UPPER[c as int - 'A' as int] == c; }
  }

  lemma LowerIff(c: char)
    ensures c in LOWER <==> 'a' <= c <= 'z'
  {
    if 'a' <= c <= 'z' { assert LOWER[c as int - 'a' as int] == c; }
  }

  lemma RestIff(c: char)
    ensures c in REST <==> '0' <= c <= '9' || c == '-' || c == '_'
  {
    if '0' <= c <= '9' { assert REST[c as int - '0' as int] == c; }
    assert REST[10] == '-' && REST[11] == '_';
  }

  /** A token is 43 letters of the alphabet of section 5 of RFC 4648, whichever they are. */
  lemma TokenIff(s: string)
    ensures IsToken(s) <==>
      |s| == 43 && forall i :: 0 <= i < |s| ==> s[i] in UPPER || s[i] in LOWER || s[i] in REST
  {
    forall c: char ensures TokenChar(c) <==> c in UPPER || c in LOWER || c in REST {
      UpperIff(c);
      LowerIff(c);
      RestIff(c);
    }
  }

  // ---------------------------------------------------------------- the transactions

  function LiveChallenges(t: Tables, now: real): map<string, Challenge> {
    map k | k in t.challenges && t.challenges[k].expires > now :: t.challenges[k]
  }

  function LiveSessions(t: Tables, now: real): map<string, Row> {
    map k | k in t.sessions && t.sessions[k].expires > now :: t.sessions[k]
  }

  function Issue(t: Tables, token: string, nonce: string, origin: string, now: real): Result<Tables, Failure> {
    var live := LiveChallenges(t, now);
    if |live| >= CAPACITY then Err(Full)
    else if !IsToken(token) || !IsToken(nonce) then Err(BadToken)
    else if token in live then Err(Duplicate)
    else Ok(t.(challenges := live[token := Challenge(nonce, origin, now + CHALLENGE_SECONDS)]))
  }

  /** What a presented challenge is worth. */
  function Worth(t: Tables, token: string, origin: string, now: real): Option<string> {
    if token in t.challenges && t.challenges[token].origin == origin && t.challenges[token].expires > now
    then Some(t.challenges[token].nonce) else None
  }

  function Spend(t: Tables, token: string): Tables { t.(challenges := t.challenges - {token}) }

  function Open(t: Tables, token: string, user: User, expires: real, now: real): Result<Tables, Failure> {
    var live := LiveSessions(t, now);
    if |live| >= CAPACITY then Err(Full)
    else if !IsToken(token) then Err(BadToken)
    else if token in live then Err(Duplicate)
    else Ok(t.(sessions := live[token := Row(user, expires)]))
  }

  function Drop(t: Tables, token: string): Tables { t.(sessions := t.sessions - {token}) }

  predicate Bounded(t: Tables) { |t.challenges| <= CAPACITY && |t.sessions| <= CAPACITY }

  lemma FewerKeys<V>(small: map<string, V>, big: map<string, V>)
    requires small.Keys <= big.Keys
    ensures |small| <= |big|
  {
    SmallerSet(small.Keys, big.Keys);
    assert |small| == |small.Keys| && |big| == |big.Keys|;
  }

  lemma {:induction false} SmallerSet(a: set<string>, b: set<string>)
    requires a <= b
    ensures |a| <= |b|
  {
    if a != {} {
      var x :| x in a;
      SmallerSet(a - {x}, b - {x});
    }
  }

  lemma LiveAreFewer(t: Tables, now: real)
    ensures |LiveChallenges(t, now)| <= |t.challenges| && |LiveSessions(t, now)| <= |t.sessions|
  {
    FewerKeys(LiveChallenges(t, now), t.challenges);
    FewerKeys(LiveSessions(t, now), t.sessions);
  }

  lemma OneMore<V>(live: map<string, V>, key: string, value: V)
    ensures |live[key := value]| <= |live| + 1
  {
    FewerKeys(live, live[key := value]);
  }

  /** No transaction takes either table past its capacity. */
  lemma IssueStaysBounded(t: Tables, token: string, nonce: string, origin: string, now: real)
    requires Bounded(t) && Issue(t, token, nonce, origin, now).Ok?
    ensures Bounded(Issue(t, token, nonce, origin, now).value)
  {
    LiveAreFewer(t, now);
    OneMore(LiveChallenges(t, now), token, Challenge(nonce, origin, now + CHALLENGE_SECONDS));
  }

  lemma OpenStaysBounded(t: Tables, token: string, user: User, expires: real, now: real)
    requires Bounded(t) && Open(t, token, user, expires, now).Ok?
    ensures Bounded(Open(t, token, user, expires, now).value)
  {
    LiveAreFewer(t, now);
    OneMore(LiveSessions(t, now), token, Row(user, expires));
  }

  lemma RemovalStaysBounded(t: Tables, token: string)
    requires Bounded(t)
    ensures Bounded(Spend(t, token)) && Bounded(Drop(t, token))
  {
    FewerKeys(Spend(t, token).challenges, t.challenges);
    FewerKeys(Drop(t, token).sessions, t.sessions);
  }

  // ---------------------------------------------------------------- the store

  class Store {
    var challenges: map<string, Challenge>
    var sessions: map<string, Row>

    function Contents(): Tables
      reads this
    {
      Tables(challenges, sessions)
    }

    constructor ()
      ensures Contents() == Tables(map[], map[])
    {
      challenges, sessions := map[], map[];
    }

    /** It fails, changing nothing, exactly when 1000 unexpired challenges are outstanding, a token is no
        token, or the challenge token is still in use. Otherwise the nonce can be claimed under this origin
        for 300 seconds, and what every other token is worth from now on stays the same. */
    method IssueChallenge(token: string, nonce: string, origin: string, now: real) returns (failure: Option<Failure>)
      modifies this
      ensures failure == Some(Full) <==> |LiveChallenges(old(Contents()), now)| >= CAPACITY
      ensures failure == Some(BadToken) <==>
        |LiveChallenges(old(Contents()), now)| < CAPACITY && !(IsToken(token) && IsToken(nonce))
      ensures failure == Some(Duplicate) <==>
        && |LiveChallenges(old(Contents()), now)| < CAPACITY && IsToken(token) && IsToken(nonce)
        && token in old(challenges) && old(challenges)[token].expires > now
      ensures failure.Some? ==> Contents() == old(Contents())
      ensures failure.None? ==> forall o, later {:trigger Worth(Contents(), token, o, later)} ::
        Worth(Contents(), token, o, later) ==
          if o == origin && later < now + CHALLENGE_SECONDS then Some(nonce) else None
      ensures forall k, o, later {:trigger Worth(Contents(), k, o, later)} :: k != token && later >= now ==>
        Worth(Contents(), k, o, later) == Worth(old(Contents()), k, o, later)
      ensures failure.None? ==> forall k :: k in challenges ==> challenges[k].expires > now
      ensures sessions == old(sessions)
      ensures Issue(old(Contents()), token, nonce, origin, now) ==
        if failure.None? then Ok(Contents()) else Err(failure.value)
    {
      var live := LiveChallenges(Contents(), now);
      if |live| >= CAPACITY { return Some(Full); }
      if !IsToken(token) || !IsToken(nonce) { return Some(BadToken); }
      if token in live { return Some(Duplicate); }
      challenges := live[token := Challenge(nonce, origin, now + CHALLENGE_SECONDS)];
      failure := None;
    }

    /** Whatever the challenge is worth, it is spent. */
    method Consume(token: string, origin: string, now: real) returns (nonce: Option<string>)
      modifies this
      ensures nonce == if IsToken(token) then Worth(old(Contents()), token, origin, now) else None
      ensures Contents() == if IsToken(token) then Spend(old(Contents()), token) else old(Contents())
      ensures IsToken(token) ==> forall o, later :: Worth(Contents(), token, o, later).None?
    {
      if !IsToken(token) { return None; }
      nonce := Worth(Contents(), token, origin, now);
      challenges := challenges - {token};
    }

    /** It fails, changing nothing, exactly when 1000 unexpired sessions are open, the token is no token, or it
        is still in use. Otherwise the token stands for this user until `expires`; of the other sessions
        exactly those that had expired are gone. */
    method CreateSession(token: string, user: User, expires: real, now: real) returns (failure: Option<Failure>)
      modifies this
      ensures failure == Some(Full) <==> |LiveSessions(old(Contents()), now)| >= CAPACITY
      ensures failure == Some(BadToken) <==> |LiveSessions(old(Contents()), now)| < CAPACITY && !IsToken(token)
      ensures failure == Some(Duplicate) <==>
        && |LiveSessions(old(Contents()), now)| < CAPACITY && IsToken(token)
        && token in old(sessions) && old(sessions)[token].expires > now
      ensures failure.Some? ==> Contents() == old(Contents())
      ensures failure.None? ==> token in sessions && sessions[token] == Row(user, expires)
      ensures failure.None? ==> forall k :: k != token ==>
        (k in sessions <==> k in old(sessions) && old(sessions)[k].expires > now)
      ensures forall k :: k in sessions && k != token ==> k in old(sessions) && sessions[k] == old(sessions)[k]
      ensures challenges == old(challenges)
      ensures Open(old(Contents()), token, user, expires, now) ==
        if failure.None? then Ok(Contents()) else Err(failure.value)
    {
      var live := LiveSessions(Contents(), now);
      if |live| >= CAPACITY { return Some(Full); }
      if !IsToken(token) { return Some(BadToken); }
      if token in live { return Some(Duplicate); }
      sessions := live[token := Row(user, expires)];
      failure := None;
    }

    /** The token stands for no session any more; no other row changes. */
    method Revoke(token: string)
      modifies this
      ensures IsToken(token) ==> token !in sessions
      ensures !IsToken(token) ==> Contents() == old(Contents())
      ensures forall k :: k != token ==> (k in sessions <==> k in old(sessions))
      ensures forall k :: k in sessions ==> k in old(sessions) && sessions[k] == old(sessions)[k]
      ensures challenges == old(challenges)
    {
      if IsToken(token) { sessions := sessions - {token}; }
    }
  }

  // ---------------------------------------------------------------- sign-in

  /** `lower` is str.lower. */
  datatype Settings = Settings(origin: string, allowed: set<string>, seconds: real, lower: string -> string)

  /** A claim: missing or null, a string, or another JSON value, which Python may take for false. */
  datatype Text = Absent | Text(text: string) | NotText(falsy: bool)

  /** The verifier's answer; `trusted` is the issuer, audience and verified-email check, `exp` is None when it
      is no finite number. */
  datatype Claims = Claims(trusted: bool, exp: Option<real>, sub: Text, email: Text, nonce: Text, name: Text)

  predicate TextOf(t: Text, maximum: nat) { t.Text? && 1 <= |t.text| <= maximum }

  function Email(s: Settings, c: Claims): string { if c.email.Text? then s.lower(c.email.text) else "" }

  /** `claims.get("name") or email`. */
  function NameOf(s: Settings, c: Claims): Text {
    var falsy := match c.name case Absent => true case Text(text) => text == "" case NotText(falsy) => falsy;
    if falsy then Text(Email(s, c)) else c.name
  }

  predicate Accepts(s: Settings, c: Claims, nonce: string, now: real) {
    && c.trusted && c.exp.Some? && c.exp.value > now
    && TextOf(c.sub, 255) && TextOf(c.email, 320) && TextOf(c.nonce, 43)
    && IsToken(c.nonce.text) && c.nonce.text == nonce
    && Email(s, c) in s.allowed
    && NameOf(s, c).Text? && |NameOf(s, c).text| <= 200
  }

  function UserOf(s: Settings, c: Claims): User
    requires c.sub.Text? && NameOf(s, c).Text?
  {
    User(c.sub.text, Email(s, c), NameOf(s, c).text)
  }

  function Expiry(s: Settings, c: Claims, now: real): real
    requires c.exp.Some?
  {
    if c.exp.value < now + s.seconds then c.exp.value else now + s.seconds
  }

  /** The user that the claims speak of: the subject, the address in lower case, which must be allowed, and a name,
      for which the address stands in when the claim is missing or Python takes it for false. */
  predicate Identifies(s: Settings, c: Claims, u: User) {
    && c.sub == Text(u.id) && 1 <= |u.id| <= 255
    && c.email.Text? && 1 <= |c.email.text| <= 320 && s.lower(c.email.text) == u.email && u.email in s.allowed
    && |u.name| <= 200
    && if c.name in {Absent, Text(""), NotText(true)} then u.name == u.email else c.name == Text(u.name)
  }

  lemma IdentifiesOne(s: Settings, c: Claims, u: User)
    requires Identifies(s, c, u)
    ensures NameOf(s, c).Text? && UserOf(s, c) == u
  {
    if c.name in {Absent, Text(""), NotText(true)} { assert NameOf(s, c) == Text(Email(s, c)); }
  }

  /** Claims open a session if and only if they are trusted and unexpired, carry the very nonce that the challenge was
      issued with, and identify a user; and the session is then that user's, until the earlier of two ends. */
  lemma AcceptsIff(s: Settings, c: Claims, nonce: string, now: real)
    ensures Accepts(s, c, nonce, now) <==>
      && c.trusted && c.exp.Some? && now < c.exp.value && c.nonce == Text(nonce) && IsToken(nonce)
      && exists u :: Identifies(s, c, u)
    ensures forall u :: Identifies(s, c, u) ==> NameOf(s, c).Text? && UserOf(s, c) == u
    ensures c.exp.Some? ==> var e := Expiry(s, c, now);
      e <= c.exp.value && e <= now + s.seconds && (e == c.exp.value || e == now + s.seconds)
  {
    forall u | Identifies(s, c, u) ensures NameOf(s, c).Text? && UserOf(s, c) == u { IdentifiesOne(s, c, u); }
    if Accepts(s, c, nonce, now) {
      if c.name.Text? && c.name.text == "" { assert c.name == Text(""); }
      assert Identifies(s, c, UserOf(s, c));
    }
  }

  /** The row that `session` serves for a token, None when it refuses (and then revokes the token). */
  function Served(s: Settings, t: Tables, token: string, now: real): Option<Row> {
    if IsToken(token) && token in t.sessions && t.sessions[token].expires > now
      && t.sessions[token].user.email in s.allowed
    then Some(t.sessions[token]) else None
  }

  class Auth {
    const store: Store
    const settings: Settings

    constructor (store: Store, settings: Settings)
      ensures this.store == store && this.settings == settings
    {
      this.store, this.settings := store, settings;
    }

    /** `login` run alone: the challenge is spent whatever follows, and a session is opened exactly when the
        challenge was worth a nonce, the claims carry it and are accepted, and there is room. */
    method Login(challenge: string, taken: real, claims: Claims, now: real, token: string) returns (row: Option<Row>)
      modifies store
      ensures row.Some? <==>
        && IsToken(challenge) && Worth(old(store.Contents()), challenge, settings.origin, taken).Some?
        && Accepts(settings, claims, Worth(old(store.Contents()), challenge, settings.origin, taken).value, now)
        && Open(Spend(old(store.Contents()), challenge), token, UserOf(settings, claims),
          Expiry(settings, claims, now), now).Ok?
      ensures row.Some? ==>
        Served(settings, store.Contents(), token, now) == if row.value.expires > now then row else None
      ensures row.Some? ==> row == Some(Row(UserOf(settings, claims), Expiry(settings, claims, now)))
      ensures row.Some? ==>
        && Identifies(settings, claims, row.value.user) && token in store.sessions && store.sessions[token] == row.value
        && claims.nonce == Text(Worth(old(store.Contents()), challenge, settings.origin, taken).value)
      ensures row.None? ==>
        store.Contents() ==
          if IsToken(challenge) then Spend(old(store.Contents()), challenge) else old(store.Contents())
    {
      var nonce := store.Consume(challenge, settings.origin, taken);
      if nonce.None? { return None; }
      if !Accepts(settings, claims, nonce.value, now) { return None; }
      AcceptsIff(settings, claims, nonce.value, now);
      var user, expiry := UserOf(settings, claims), Expiry(settings, claims, now);
      var failure := store.CreateSession(token, user, expiry, now);
      if failure.Some? { return None; }
      row := Some(Row(user, expiry));
    }

    /** `session` run alone: it serves, or it makes sure that the token can never be served again. */
    method Session(token: string, now: real) returns (row: Option<Row>)
      modifies store
      ensures row == Served(settings, old(store.Contents()), token, now)
      ensures row.Some? <==>
        && IsToken(token) && token in old(store.sessions) && now < old(store.sessions)[token].expires
        && old(store.sessions)[token].user.email in settings.allowed
      ensures row.Some? ==> store.Contents() == old(store.Contents())
      ensures row.None? ==> forall later: real :: Served(settings, store.Contents(), token, later).None?
      ensures store.challenges == old(store.challenges)
      ensures forall k :: k != token ==> (k in store.sessions <==> k in old(store.sessions))
      ensures forall k :: k in store.sessions ==>
        k in old(store.sessions) && store.sessions[k] == old(store.sessions)[k]
    {
      if !IsToken(token) || token !in store.sessions { return None; }
      row := Served(settings, store.Contents(), token, now);
      if row.None? { store.Revoke(token); }
    }
  }
}
