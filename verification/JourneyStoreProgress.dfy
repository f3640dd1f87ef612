/**
 The artifact store answers: what a call that runs alone, undisturbed, can always come to. The other modules speak of
 what calls that succeed have returned; here the start of a call alone decides that it can succeed, and with what.
 */
module JourneyStoreProgress {
  import opened Wrappers
  import opened Registers
  import opened JourneyStore
  import opened JourneyStoreSafety
  import opened JourneyStoreRuns
  import opened JourneyStoreBudget

  // ---------------------------------------------------------------- steps of one caller

  /** The state after `actions` of caller `p`, if each was possible. */
  ghost function Alone(canon: Bytes -> bool, s: State, p: Pid, actions: seq<Action>): Option<State>
    decreases |actions|
  {
    if actions == [] then Some(s)
    else
      var before := Alone(canon, s, p, actions[..|actions| - 1]);
      if before.Some? && Enabled(canon, before.value, Do(p, actions[|actions| - 1]))
      then Some(Apply(canon, before.value, Do(p, actions[|actions| - 1])))
      else None
  }

  /** The caller neither fails nor is killed. */
  predicate Willing(actions: seq<Action>) { forall i :: 0 <= i < |actions| ==> !actions[i].Fail? && !actions[i].Kill? }

  /** Caller `p`, undisturbed, can bring the store from `s` to `t`. */
  ghost predicate CanReach(canon: Bytes -> bool, s: State, p: Pid, t: State) {
    exists actions :: Willing(actions) && Alone(canon, s, p, actions) == Some(t)
  }

  lemma ReachStep(canon: Bytes -> bool, s: State, p: Pid, t: State, a: Action)
    requires CanReach(canon, s, p, t) && Enabled(canon, t, Do(p, a)) && !a.Fail? && !a.Kill?
    ensures CanReach(canon, s, p, Apply(canon, t, Do(p, a)))
  {
    var actions :| Willing(actions) && Alone(canon, s, p, actions) == Some(t);
    var more := actions + [a];
    assert more[..|more| - 1] == actions;
    assert Willing(more) && Alone(canon, s, p, more) == Some(Apply(canon, t, Do(p, a)));
  }

  lemma ReachSelf(canon: Bytes -> bool, s: State, p: Pid)
    ensures CanReach(canon, s, p, s)
  {
    assert Willing([]) && Alone(canon, s, p, []) == Some(s);
  }

  lemma {:induction false} AloneIsRun(canon: Bytes -> bool, trace: seq<Event>, p: Pid, actions: seq<Action>)
      returns (more: seq<Event>)
    requires After(canon, trace).Some? && Alone(canon, After(canon, trace).value, p, actions).Some?
    ensures After(canon, trace + more) == Alone(canon, After(canon, trace).value, p, actions)
    ensures |more| == |actions| && forall i :: 0 <= i < |more| ==> more[i] == Do(p, actions[i])
    decreases |actions|
  {
    hide Enabled, Apply;
    if actions == [] {
      more := [];
      assert trace + more == trace;
    } else {
      var n := |actions| - 1;
      more := AloneIsRun(canon, trace, p, actions[..n]);
      Extend(canon, trace + more, Do(p, actions[n]));
      assert trace + (more + [Do(p, actions[n])]) == (trace + more) + [Do(p, actions[n])];
      more := more + [Do(p, actions[n])];
    }
  }

  /** What a caller can reach alone is part of a run. */
  lemma ReachIsRun(canon: Bytes -> bool, trace: seq<Event>, p: Pid, t: State) returns (more: seq<Event>)
    requires After(canon, trace).Some? && CanReach(canon, After(canon, trace).value, p, t)
    ensures After(canon, trace + more) == Some(t)
    ensures forall i :: 0 <= i < |more| ==>
      more[i].Do? && more[i].pid == p && !more[i].action.Fail? && !more[i].action.Kill?
  {
    var actions :| Willing(actions) && Alone(canon, After(canon, trace).value, p, actions) == Some(t);
    more := AloneIsRun(canon, trace, p, actions);
  }

  /** Equal part by part. */
  lemma SameState(s: State, t: State)
    requires s.dir == t.dir && s.files == t.files && s.lock == t.lock && s.procs == t.procs && s.bound == t.bound
    requires s.durable == t.durable && s.homes == t.homes && s.rooted == t.rooted && s.root == t.root
    ensures s == t
  {
  }

  lemma GotoTwice(s: State, p: Pid, a: Phase, b: Phase)
    requires p in s.procs
    ensures Goto(Goto(s, p, a), p, b) == Goto(s, p, b)
  {
    assert s.procs[p := s.procs[p].(phase := a)][p := s.procs[p].(phase := b)]
        == s.procs[p := s.procs[p].(phase := b)];
  }

  // ---------------------------------------------------------------- reading back

  /** The artifact that process `p` asks for is published, whole and singly linked. */
  predicate Readable(canon: Bytes -> bool, s: State, p: Pid, i: nat) {
    && p in s.procs && Final(s.procs[p].call.key) in s.dir && s.dir[Final(s.procs[p].call.key)] == i < |s.files|
    && s.files[i].nlink == 1 && GoodBytes(canon, s.files[i].bytes)
  }

  function ReadingAt(s: State, i: nat, buf: Bytes): Phase
    requires i < |s.files|
  {
    Reading(i, |s.files[i].bytes|, s.files[i].stamp, buf)
  }

  lemma StatAlone(canon: Bytes -> bool, start: State, s: State, p: Pid, i: nat)
    requires CanReach(canon, start, p, s) && Readable(canon, s, p, i) && s.procs[p].phase == Opening
    ensures CanReach(canon, start, p, Goto(s, p, ReadingAt(s, i, [])))
  {
    hide CanReach;
    ReachStep(canon, start, p, s, Open);
    ReachStep(canon, start, p, Goto(s, p, Opened(i)), Stat);
    GotoTwice(s, p, Opened(i), ReadingAt(s, i, []));
  }

  lemma ChunkAlone(canon: Bytes -> bool, start: State, s: State, p: Pid, i: nat)
    requires Readable(canon, s, p, i) && CanReach(canon, start, p, Goto(s, p, ReadingAt(s, i, [])))
    ensures CanReach(canon, start, p, Goto(s, p, ReadingAt(s, i, s.files[i].bytes)))
  {
    hide CanReach;
    var bytes, at := s.files[i].bytes, Goto(s, p, ReadingAt(s, i, []));
    assert [] + bytes[0..|bytes|] == bytes;
    ReachStep(canon, start, p, at, ReadChunk(|bytes|));
    GotoTwice(s, p, ReadingAt(s, i, []), ReadingAt(s, i, bytes));
  }

  /** A process about to open a readable artifact can read it and return it. */
  lemma ReadAlone(canon: Bytes -> bool, start: State, s: State, p: Pid, i: nat)
    requires CanReach(canon, start, p, s) && Readable(canon, s, p, i) && s.procs[p].phase == Opening
    ensures CanReach(canon, start, p, Goto(s, p, Returned(s.files[i].bytes)))
  {
    hide CanReach;
    StatAlone(canon, start, s, p, i);
    ChunkAlone(canon, start, s, p, i);
    var bytes := s.files[i].bytes;
    ReachStep(canon, start, p, Goto(s, p, ReadingAt(s, i, bytes)), Finish);
    GotoTwice(s, p, ReadingAt(s, i, bytes), Returned(bytes));
  }

  /** The state in which caller `p` has just made its call. */
  function Called(s: State, p: Pid, call: Call): State { s.(procs := s.procs[p := Proc(call, StartPhase(call))]) }

  /** The inode of a published name has no other name. */
  ghost predicate SinglyLinked(s: State, key: Key) {
    && Final(key) in s.dir && s.dir[Final(key)] < |s.files| && s.files[s.dir[Final(key)]].nlink == 1
  }

  lemma PublishedIsReadable(canon: Bytes -> bool, s: State, t: State, p: Pid, key: Key)
    requires Inv(canon, s) && SinglyLinked(s, key)
    requires t.dir == s.dir && t.files == s.files && p in t.procs && t.procs[p].call.key == key
    ensures Readable(canon, t, p, s.dir[Final(key)])
    ensures key in s.bound && s.files[s.dir[Final(key)]].bytes == s.bound[key] && key.subject in s.homes
  {
    assert HomeOf(Final(key)) in s.homes;
  }

  /** A `read` of a singly linked artifact can always return it. */
  lemma LoneReadAnswers(canon: Bytes -> bool, s: State, p: Pid, key: Key)
    requires Inv(canon, s) && SinglyLinked(s, key) && p !in s.procs
    ensures Enabled(canon, s, Spawn(p, Read(key)))
    ensures key in s.bound
    ensures CanReach(canon, Called(s, p, Read(key)), p, Goto(Called(s, p, Read(key)), p, Returned(s.bound[key])))
  {
    hide CanReach;
    var start := Called(s, p, Read(key));
    PublishedIsReadable(canon, s, start, p, key);
    ReachSelf(canon, start, p);
    ReadAlone(canon, start, start, p, s.dir[Final(key)]);
  }

  /** A `read` of a name that is not published can always say so. */
  lemma LoneReadMisses(canon: Bytes -> bool, s: State, p: Pid, key: Key)
    requires p !in s.procs && Final(key) !in s.dir
    ensures Enabled(canon, Called(s, p, Read(key)), Do(p, Fail(Missing)))
    ensures Apply(canon, Called(s, p, Read(key)), Do(p, Fail(Missing))).procs[p].phase == Raised(Missing)
  {
  }

  // ---------------------------------------------------------------- writing to a published name

  /** The state in which `write` has found its subject's directory. */
  function Arrived(s: State, p: Pid, key: Key, raw: Bytes): State {
    s.(procs := s.procs[p := Proc(Write(key, raw), Started)])
  }

  lemma FindAlone(canon: Bytes -> bool, s: State, p: Pid, key: Key, raw: Bytes)
    requires key.subject in s.homes && p !in s.procs
    ensures CanReach(canon, Called(s, p, Write(key, raw)), p, Arrived(s, p, key, raw))
  {
    hide CanReach;
    var start := Called(s, p, Write(key, raw));
    ReachSelf(canon, start, p);
    ReachStep(canon, start, p, start, FindHome);
    assert Apply(canon, start, Do(p, FindHome)) == Arrived(s, p, key, raw);
  }

  lemma SyncExistingAlone(canon: Bytes -> bool, start: State, s: State, p: Pid, key: Key, raw: Bytes)
    requires CanReach(canon, start, p, Arrived(s, p, key, raw)) && Final(key) in s.dir && GoodSize(raw)
    ensures CanReach(canon, start, p, Goto(HomeSynced(Arrived(s, p, key, raw), key.subject), p, Opening))
  {
    hide CanReach;
    var at := Arrived(s, p, key, raw);
    ReachStep(canon, start, p, at, SeeExisting);
    ReachStep(canon, start, p, Goto(at, p, ExistsSync), SyncExisting);
    var next := Apply(canon, Goto(at, p, ExistsSync), Do(p, SyncExisting));
    GotoTwice(at, p, ExistsSync, Opening);
    SameState(next, Goto(HomeSynced(at, key.subject), p, Opening));
  }

  /** A `write` of any value of good size on a name that is published already, run alone from its start, can return the
      stored value; it changes no file and no name, and syncs the directory first. */
  lemma LoneWriteAnswersStored(canon: Bytes -> bool, s: State, p: Pid, key: Key, raw: Bytes) returns (t: State)
    requires Inv(canon, s) && SinglyLinked(s, key) && p !in s.procs && canon(raw) && 1 <= |raw| <= 262_144
    ensures Enabled(canon, s, Spawn(p, Write(key, raw)))
    ensures CanReach(canon, Called(s, p, Write(key, raw)), p, t)
    ensures key in s.bound && t.procs == s.procs[p := Proc(Write(key, raw), Returned(s.bound[key]))]
    ensures t.dir == s.dir && t.files == s.files && t.bound == s.bound && t.lock == s.lock && key in t.durable
  {
    hide CanReach;
    var start := Called(s, p, Write(key, raw));
    PublishedIsReadable(canon, s, start, p, key);
    FindAlone(canon, s, p, key, raw);
    SyncExistingAlone(canon, start, s, p, key, raw);
    var synced := Goto(HomeSynced(Arrived(s, p, key, raw), key.subject), p, Opening);
    PublishedIsReadable(canon, s, synced, p, key);
    ReadAlone(canon, start, synced, p, s.dir[Final(key)]);
    t := Goto(synced, p, Returned(s.bound[key]));
    assert t.procs == s.procs[p := Proc(Write(key, raw), Returned(s.bound[key]))];
  }

  // ---------------------------------------------------------------- writing to a new name

  /** The store has room for one more file of `added` bytes, and nothing in it would stop the scan. */
  ghost predicate HasRoom(s: State, added: nat) {
    && (forall n :: n in s.dir ==>
          s.dir[n] < |s.files| && s.files[s.dir[n]].nlink == 1 && |s.files[s.dir[n]].bytes| <= MAX_BYTES)
    && (s.dir == map[] || (|LiveInos(s.dir)| < MAX_FILES && StoreBytes(s) + added <= MAX_STORE_BYTES))
  }

  lemma SeenWithinLive(s: State, seen: set<Name>, n: Name)
    requires seen <= s.dir.Keys && n in s.dir
    ensures |Inos(s.dir, seen + {n})| <= |LiveInos(s.dir)|
    ensures SizeIn(s.files, Inos(s.dir, seen + {n}), |s.files|) <= StoreBytes(s)
  {
    Subset(Inos(s.dir, seen + {n}), LiveInos(s.dir));
    SizeMono(s.files, Inos(s.dir, seen + {n}), LiveInos(s.dir), |s.files|);
  }

  lemma NextEntryAllowed(canon: Bytes -> bool, s: State, added: nat, seen: set<Name>, count: nat, size: nat, n: Name)
    requires Links(s) && HasRoom(s, added) && ScanOk(s, added, seen, count, size) && n in s.dir && n !in seen
    ensures count + 1 < MAX_FILES && size + |s.files[s.dir[n]].bytes| + added <= MAX_STORE_BYTES
    ensures ScanOk(s, added, seen + {n}, count + 1, size + |s.files[s.dir[n]].bytes|)
  {
    SoleName(s, s.dir[n], n);
    SoleNameIsNew(s.dir, seen, n);
    SizeAdd(s.files, Inos(s.dir, seen), s.dir[n], |s.files|);
    SeenWithinLive(s, seen, n);
    assert s.dir != map[];
    ScanOkNext(s, added, seen, count, size, n);
  }

  /** Caller `p` holds the lock of an otherwise unchanged store, in phase `ph`. */
  function Holding(s: State, p: Pid, key: Key, raw: Bytes, ph: Phase): State {
    s.(lock := Some(p), procs := s.procs[p := Proc(Write(key, raw), ph)])
  }

  lemma EntryStep(canon: Bytes -> bool, s: State, p: Pid, key: Key, raw: Bytes, seen: set<Name>, count: nat, size: nat,
                  n: Name)
    requires HasRoom(s, |raw|) && n in s.dir && n !in seen
    requires count + 1 < MAX_FILES && size + |s.files[s.dir[n]].bytes| + |raw| <= MAX_STORE_BYTES
    ensures var at := Holding(s, p, key, raw, Scanning(seen, count, size));
      && Enabled(canon, at, Do(p, ScanEntry(n)))
      && Apply(canon, at, Do(p, ScanEntry(n)))
         == Holding(s, p, key, raw, Scanning(seen + {n}, count + 1, size + |s.files[s.dir[n]].bytes|))
  {
    var at := Holding(s, p, key, raw, Scanning(seen, count, size));
    SameState(Apply(canon, at, Do(p, ScanEntry(n))),
      Holding(s, p, key, raw, Scanning(seen + {n}, count + 1, size + |s.files[s.dir[n]].bytes|)));
  }

  lemma EntryAlone(canon: Bytes -> bool, start: State, s: State, p: Pid, key: Key, raw: Bytes, seen: set<Name>,
                   count: nat, size: nat, n: Name)
    requires Links(s) && HasRoom(s, |raw|) && ScanOk(s, |raw|, seen, count, size) && n in s.dir && n !in seen
    requires CanReach(canon, start, p, Holding(s, p, key, raw, Scanning(seen, count, size)))
    ensures CanReach(canon, start, p,
      Holding(s, p, key, raw, Scanning(seen + {n}, count + 1, size + |s.files[s.dir[n]].bytes|)))
  {
    NameIsLinked(s, |raw|, n);
    hide CanReach, Holding, HasRoom, ScanOk, Links, Enabled, Apply;
    NextEntryAllowed(canon, s, |raw|, seen, count, size, n);
    EntryStep(canon, s, p, key, raw, seen, count, size, n);
    ReachStep(canon, start, p, Holding(s, p, key, raw, Scanning(seen, count, size)), ScanEntry(n));
  }

  lemma ScanEnds(canon: Bytes -> bool, start: State, s: State, p: Pid, key: Key, raw: Bytes, count: nat, size: nat)
    requires CanReach(canon, start, p, Holding(s, p, key, raw, Scanning(s.dir.Keys, count, size)))
    ensures CanReach(canon, start, p, Holding(s, p, key, raw, Creating))
  {
    hide CanReach;
    var at := Holding(s, p, key, raw, Scanning(s.dir.Keys, count, size));
    ReachStep(canon, start, p, at, ScanDone);
    SameState(Apply(canon, at, Do(p, ScanDone)), Holding(s, p, key, raw, Creating));
  }

  lemma Unseen(names: set<Name>, seen: set<Name>) returns (n: Name)
    requires seen <= names && seen != names
    ensures n in names && n !in seen && names - (seen + {n}) < names - seen
  {
    assert !(names <= seen);
    n :| n in names && n !in seen;
    assert names - (seen + {n}) <= names - seen && n !in names - (seen + {n});
  }

  /** The scan passes a store with room, in whatever order it meets the entries. */
  lemma {:induction false} ScanAlone(canon: Bytes -> bool, start: State, s: State, p: Pid, key: Key, raw: Bytes,
                                     seen: set<Name>, count: nat, size: nat)
    requires Links(s) && HasRoom(s, |raw|) && seen <= s.dir.Keys && ScanOk(s, |raw|, seen, count, size)
    requires CanReach(canon, start, p, Holding(s, p, key, raw, Scanning(seen, count, size)))
    ensures CanReach(canon, start, p, Holding(s, p, key, raw, Creating))
    decreases s.dir.Keys - seen
  {
    hide CanReach, HasRoom, ScanOk, Links, Holding;
    if seen == s.dir.Keys {
      ScanEnds(canon, start, s, p, key, raw, count, size);
    } else {
      var n := Unseen(s.dir.Keys, seen);
      NameIsLinked(s, |raw|, n);
      NextEntryAllowed(canon, s, |raw|, seen, count, size, n);
      EntryAlone(canon, start, s, p, key, raw, seen, count, size, n);
      ScanAlone(canon, start, s, p, key, raw, seen + {n}, count + 1, size + |s.files[s.dir[n]].bytes|);
    }
  }

  lemma NameIsLinked(s: State, added: nat, n: Name)
    requires HasRoom(s, added) && n in s.dir
    ensures s.dir[n] < |s.files|
  {
  }

  /** The state in which `write` has seen no artifact and waits for the lock. */
  function Waiting(s: State, p: Pid, key: Key, raw: Bytes): State {
    s.(procs := s.procs[p := Proc(Write(key, raw), Locking)])
  }

  lemma LockAlone(canon: Bytes -> bool, start: State, s: State, p: Pid, key: Key, raw: Bytes)
    requires CanReach(canon, start, p, Waiting(s, p, key, raw))
    requires s.lock.None? && Links(s) && HasRoom(s, |raw|)
    ensures CanReach(canon, start, p, Holding(s, p, key, raw, Creating))
  {
    hide CanReach;
    var at := Waiting(s, p, key, raw);
    ReachStep(canon, start, p, at, Acquire);
    SameState(Apply(canon, at, Do(p, Acquire)), Holding(s, p, key, raw, Scanning({}, 0, 0)));
    assert Inos(s.dir, {}) == {};
    SizeNone(s.files, |s.files|);
    ScanAlone(canon, start, s, p, key, raw, {}, 0, 0);
  }

  lemma AcquireAlone(canon: Bytes -> bool, start: State, s: State, p: Pid, key: Key, raw: Bytes)
    requires CanReach(canon, start, p, Arrived(s, p, key, raw)) && Final(key) !in s.dir && GoodSize(raw)
    requires s.lock.None? && Links(s) && HasRoom(s, |raw|)
    ensures CanReach(canon, start, p, Holding(s, p, key, raw, Creating))
  {
    hide CanReach;
    var at := Arrived(s, p, key, raw);
    ReachStep(canon, start, p, at, SeeAbsent);
    SameState(Apply(canon, at, Do(p, SeeAbsent)), Waiting(s, p, key, raw));
    LockAlone(canon, start, s, p, key, raw);
  }

  /** The state in which the temporary file is there and empty. */
  function Created(s: State, p: Pid, key: Key, raw: Bytes, token: nat): State {
    Holding(s, p, key, raw, Writing(token, |s.files|)).(
      dir := s.dir[Partial(key.subject, token) := |s.files|], files := s.files + [File([], 1, 0, false)])
  }

  /** The state in which it is written and flushed. */
  function Flushed(s: State, p: Pid, key: Key, raw: Bytes, token: nat, ph: Phase): State {
    Holding(s, p, key, raw, ph).(
      dir := s.dir[Partial(key.subject, token) := |s.files|], files := s.files + [File(raw, 1, 1, true)])
  }

  /** The state in which the artifact is linked and the temporary name still there. */
  function Linked(s: State, p: Pid, key: Key, raw: Bytes, token: nat): State {
    Holding(s, p, key, raw, Unlinking(token, |s.files|)).(
      dir := s.dir[Partial(key.subject, token) := |s.files|][Final(key) := |s.files|],
      files := s.files + [File(raw, 2, 2, true)], bound := s.bound[key := raw])
  }

  /** The state after the unlink. */
  function Unlinked(s: State, p: Pid, key: Key, raw: Bytes): State {
    Holding(s, p, key, raw, Syncing).(
      dir := s.dir[Final(key) := |s.files|], files := s.files + [File(raw, 1, 3, true)], bound := s.bound[key := raw])
  }

  lemma CreateAlone(canon: Bytes -> bool, start: State, s: State, p: Pid, key: Key, raw: Bytes, token: nat)
    requires CanReach(canon, start, p, Holding(s, p, key, raw, Creating)) && Partial(key.subject, token) !in s.dir
    ensures CanReach(canon, start, p, Created(s, p, key, raw, token))
  {
    hide CanReach;
    var at := Holding(s, p, key, raw, Creating);
    ReachStep(canon, start, p, at, Create(token));
    SameState(Apply(canon, at, Do(p, Create(token))), Created(s, p, key, raw, token));
  }

  lemma AppendAlone(canon: Bytes -> bool, start: State, s: State, p: Pid, key: Key, raw: Bytes, token: nat)
    requires CanReach(canon, start, p, Created(s, p, key, raw, token)) && |raw| > 0
    ensures CanReach(canon, start, p, Flushed(s, p, key, raw, token, Verifying(token, |s.files|)))
  {
    hide CanReach;
    var n, at := |s.files|, Created(s, p, key, raw, token);
    ReachStep(canon, start, p, at, Append(|raw|));
    var written := Apply(canon, at, Do(p, Append(|raw|)));
    assert [] + raw[0..|raw|] == raw;
    assert written.files == s.files + [File(raw, 1, 1, false)];
    ReachStep(canon, start, p, written, Flush);
    SameState(Apply(canon, written, Do(p, Flush)), Flushed(s, p, key, raw, token, Verifying(token, n)));
  }

  lemma VerifyAlone(canon: Bytes -> bool, start: State, s: State, p: Pid, key: Key, raw: Bytes, token: nat)
    requires CanReach(canon, start, p, Flushed(s, p, key, raw, token, Verifying(token, |s.files|)))
    requires GoodBytes(canon, raw) && Final(key) !in s.dir
    ensures CanReach(canon, start, p, Linked(s, p, key, raw, token))
  {
    hide CanReach;
    var n, at := |s.files|, Flushed(s, p, key, raw, token, Verifying(token, |s.files|));
    ReachStep(canon, start, p, at, Verify);
    var verified := Flushed(s, p, key, raw, token, Linking(token, n));
    SameState(Apply(canon, at, Do(p, Verify)), verified);
    ReachStep(canon, start, p, verified, Link);
    SameState(Apply(canon, verified, Do(p, Link)), Linked(s, p, key, raw, token));
  }

  /** A writer that has found its directory can come to have linked its artifact. */
  lemma LinkAlone(canon: Bytes -> bool, start: State, s: State, p: Pid, key: Key, raw: Bytes, token: nat)
    requires CanReach(canon, start, p, Arrived(s, p, key, raw)) && Final(key) !in s.dir && GoodBytes(canon, raw)
    requires s.lock.None? && Links(s) && HasRoom(s, |raw|) && Partial(key.subject, token) !in s.dir
    ensures CanReach(canon, start, p, Linked(s, p, key, raw, token))
  {
    hide CanReach;
    AcquireAlone(canon, start, s, p, key, raw);
    CreateAlone(canon, start, s, p, key, raw, token);
    AppendAlone(canon, start, s, p, key, raw, token);
    VerifyAlone(canon, start, s, p, key, raw, token);
  }

  lemma UnlinkAlone(canon: Bytes -> bool, start: State, s: State, p: Pid, key: Key, raw: Bytes, token: nat)
    requires CanReach(canon, start, p, Linked(s, p, key, raw, token)) && Partial(key.subject, token) !in s.dir
    ensures CanReach(canon, start, p, Unlinked(s, p, key, raw))
  {
    hide CanReach;
    var at := Linked(s, p, key, raw, token);
    ReachStep(canon, start, p, at, Unlink);
    assert at.dir - {Partial(key.subject, token)} == s.dir[Final(key) := |s.files|];
    SameState(Apply(canon, at, Do(p, Unlink)), Unlinked(s, p, key, raw));
  }

  /** The state in which the write has been acknowledged. */
  ghost function Acknowledged(s: State, p: Pid, key: Key, raw: Bytes): State {
    Goto(HomeSynced(Unlinked(s, p, key, raw), key.subject), p, Returned(raw)).(lock := None)
  }

  lemma AcknowledgeAlone(canon: Bytes -> bool, start: State, s: State, p: Pid, key: Key, raw: Bytes)
    requires CanReach(canon, start, p, Unlinked(s, p, key, raw)) && GoodBytes(canon, raw)
    ensures CanReach(canon, start, p, Acknowledged(s, p, key, raw))
  {
    hide CanReach;
    var at := Unlinked(s, p, key, raw);
    ReachStep(canon, start, p, at, SyncAndRelease);
    var synced := Goto(HomeSynced(at, key.subject), p, Opening).(lock := None);
    assert Apply(canon, at, Do(p, SyncAndRelease)) == synced;
    ReadAlone(canon, start, synced, p, |s.files|);
    SameState(Goto(synced, p, Returned(raw)), Acknowledged(s, p, key, raw));
  }

  /** Some temporary name is free. */
  lemma {:induction false} FreeToken(names: set<Name>, home: string) returns (token: nat)
    ensures forall t: nat :: t >= token ==> Partial(home, t) !in names
    decreases names
  {
    if n :| n in names {
      token := FreeToken(names - {n}, home);
      if n.Partial? && n.token >= token { token := n.token + 1; }
    } else {
      token := 0;
    }
  }

  /** Making the subject's directory first, or finding it. */
  lemma ArriveAlone(canon: Bytes -> bool, s: State, p: Pid, key: Key, raw: Bytes) returns (home: State)
    requires p !in s.procs && !s.root.Absent?
    ensures CanReach(canon, Called(s, p, Write(key, raw)), p, Arrived(home, p, key, raw))
    ensures home == if key.subject in s.homes then s
                    else s.(homes := s.homes + {key.subject}, rooted := s.homes + {key.subject})
  {
    hide CanReach;
    if key.subject in s.homes {
      home := s;
      FindAlone(canon, s, p, key, raw);
    } else {
      var start := Called(s, p, Write(key, raw));
      home := s.(homes := s.homes + {key.subject}, rooted := s.homes + {key.subject});
      ReachSelf(canon, start, p);
      ReachStep(canon, start, p, start, MakeHome);
      var made := Apply(canon, start, Do(p, MakeHome));
      ReachStep(canon, start, p, made, SyncRootOfHome);
      SameState(Apply(canon, made, Do(p, SyncRootOfHome)), Arrived(home, p, key, raw));
    }
  }

  lemma OwnAlone(canon: Bytes -> bool, start: State, s: State, p: Pid, key: Key, raw: Bytes, token: nat)
    requires CanReach(canon, start, p, Arrived(s, p, key, raw)) && Final(key) !in s.dir && GoodBytes(canon, raw)
    requires s.lock.None? && Links(s) && HasRoom(s, |raw|) && Partial(key.subject, token) !in s.dir
    ensures CanReach(canon, start, p, Acknowledged(s, p, key, raw))
  {
    hide CanReach, Links, HasRoom, Acknowledged, Unlinked, Linked, Arrived;
    LinkAlone(canon, start, s, p, key, raw, token);
    UnlinkAlone(canon, start, s, p, key, raw, token);
    AcknowledgeAlone(canon, start, s, p, key, raw);
  }

  lemma AcknowledgedIs(s: State, p: Pid, key: Key, raw: Bytes)
    ensures var t := Acknowledged(s, p, key, raw);
      && t.procs == s.procs[p := Proc(Write(key, raw), Returned(raw))] && t.lock.None?
      && t.dir == s.dir[Final(key) := |s.files|] && t.files == s.files + [File(raw, 1, 3, true)]
      && t.bound == s.bound[key := raw] && key in t.durable
      && t.root == s.root && t.homes == s.homes && t.rooted == s.rooted
  {
    var t := Acknowledged(s, p, key, raw);
    assert t.procs == s.procs[p := Proc(Write(key, raw), Returned(raw))];
  }

  lemma SameRoom(s: State, t: State, added: nat)
    requires s.dir == t.dir && s.files == t.files && HasRoom(s, added) && Links(s)
    ensures HasRoom(t, added) && Links(t)
  {
  }

  /** A `write` of any value of good size on a name that is not published, run alone from its start with the lock free
      and the store within its limits, can return its own value; the name then stands for it, synced, and every
      other name, file and value is as before. */
  lemma LoneWriteAnswersOwn(canon: Bytes -> bool, s: State, p: Pid, key: Key, raw: Bytes) returns (t: State)
    requires Inv(canon, s) && Final(key) !in s.dir && p !in s.procs && canon(raw) && 1 <= |raw| <= 262_144
    requires !s.root.Absent? && s.lock.None? && HasRoom(s, |raw|)
    ensures Enabled(canon, s, Spawn(p, Write(key, raw)))
    ensures CanReach(canon, Called(s, p, Write(key, raw)), p, t)
    ensures t.procs == s.procs[p := Proc(Write(key, raw), Returned(raw))] && t.lock.None?
    ensures t.dir == s.dir[Final(key) := |s.files|] && t.files == s.files + [File(raw, 1, 3, true)]
    ensures t.bound == s.bound[key := raw] && key in t.durable
    ensures t.root == s.root && t.homes == s.homes + {key.subject}
    ensures t.rooted == if key.subject in s.homes then s.rooted else s.homes + {key.subject}
  {
    assert Links(s);
    hide CanReach, Inv, Links, HasRoom, Acknowledged, Arrived, Called;
    var home := ArriveAlone(canon, s, p, key, raw);
    SameRoom(s, home, |raw|);
    var token := FreeToken(s.dir.Keys, key.subject);
    OwnAlone(canon, Called(s, p, Write(key, raw)), home, p, key, raw, token);
    AcknowledgedIs(home, p, key, raw);
    assert key.subject in s.homes ==> s.homes + {key.subject} == s.homes;
    t := Acknowledged(home, p, key, raw);
  }

  // ---------------------------------------------------------------- a lost race

  /** The state in which the temporary file is without a name, and nothing was linked. */
  function Discarded(s: State, p: Pid, key: Key, raw: Bytes): State {
    Holding(s, p, key, raw, Syncing).(files := s.files + [File(raw, 0, 2, true)])
  }

  lemma LinkRefusedAlone(canon: Bytes -> bool, start: State, s: State, p: Pid, key: Key, raw: Bytes, token: nat)
    requires CanReach(canon, start, p, Flushed(s, p, key, raw, token, Verifying(token, |s.files|)))
    requires GoodBytes(canon, raw) && Final(key) in s.dir
    ensures CanReach(canon, start, p, Flushed(s, p, key, raw, token, Unlinking(token, |s.files|)))
  {
    hide CanReach;
    var n, at := |s.files|, Flushed(s, p, key, raw, token, Verifying(token, |s.files|));
    ReachStep(canon, start, p, at, Verify);
    var verified := Flushed(s, p, key, raw, token, Linking(token, n));
    SameState(Apply(canon, at, Do(p, Verify)), verified);
    ReachStep(canon, start, p, verified, Link);
    SameState(Apply(canon, verified, Do(p, Link)), Flushed(s, p, key, raw, token, Unlinking(token, n)));
  }

  lemma DiscardAlone(canon: Bytes -> bool, start: State, s: State, p: Pid, key: Key, raw: Bytes, token: nat)
    requires CanReach(canon, start, p, Flushed(s, p, key, raw, token, Unlinking(token, |s.files|)))
    requires Partial(key.subject, token) !in s.dir
    ensures CanReach(canon, start, p, Discarded(s, p, key, raw))
  {
    hide CanReach;
    var at := Flushed(s, p, key, raw, token, Unlinking(token, |s.files|));
    ReachStep(canon, start, p, at, Unlink);
    assert at.dir - {Partial(key.subject, token)} == s.dir;
    SameState(Apply(canon, at, Do(p, Unlink)), Discarded(s, p, key, raw));
  }

  /** The state in which the late writer has been given what was there. */
  ghost function Yielded(s: State, p: Pid, key: Key, raw: Bytes, value: Bytes): State {
    Goto(HomeSynced(Discarded(s, p, key, raw), key.subject), p, Returned(value)).(lock := None)
  }

  /** The state in which the late writer has synced its directory and is about to read. */
  ghost function Resigned(s: State, p: Pid, key: Key, raw: Bytes): State {
    Goto(HomeSynced(Discarded(s, p, key, raw), key.subject), p, Opening).(lock := None)
  }

  lemma ResignAlone(canon: Bytes -> bool, start: State, s: State, p: Pid, key: Key, raw: Bytes)
    requires CanReach(canon, start, p, Discarded(s, p, key, raw))
    ensures CanReach(canon, start, p, Resigned(s, p, key, raw))
  {
    hide CanReach;
    ReachStep(canon, start, p, Discarded(s, p, key, raw), SyncAndRelease);
    assert Apply(canon, Discarded(s, p, key, raw), Do(p, SyncAndRelease)) == Resigned(s, p, key, raw);
  }

  lemma ResignedReads(canon: Bytes -> bool, s: State, p: Pid, key: Key, raw: Bytes)
    requires Inv(canon, s) && SinglyLinked(s, key)
    ensures var t, i := Resigned(s, p, key, raw), s.dir[Final(key)];
      && Readable(canon, t, p, i) && t.procs[p].phase == Opening && key in s.bound && t.files[i].bytes == s.bound[key]
      && Goto(t, p, Returned(s.bound[key])) == Yielded(s, p, key, raw, s.bound[key])
  {
    var i := s.dir[Final(key)];
    PublishedIsReadable(canon, s, Waiting(s, p, key, raw), p, key);
    hide Inv;
    var t := Resigned(s, p, key, raw);
    assert t.files[i] == s.files[i];
    SameState(Goto(t, p, Returned(s.bound[key])), Yielded(s, p, key, raw, s.bound[key]));
  }

  lemma YieldAlone(canon: Bytes -> bool, start: State, s: State, p: Pid, key: Key, raw: Bytes)
    requires CanReach(canon, start, p, Discarded(s, p, key, raw)) && Inv(canon, s) && SinglyLinked(s, key)
    ensures key in s.bound && CanReach(canon, start, p, Yielded(s, p, key, raw, s.bound[key]))
  {
    hide CanReach, Inv, Resigned, Yielded, Discarded;
    ResignAlone(canon, start, s, p, key, raw);
    ResignedReads(canon, s, p, key, raw);
    ReadAlone(canon, start, Resigned(s, p, key, raw), p, s.dir[Final(key)]);
  }

  lemma YieldedIs(s: State, p: Pid, key: Key, raw: Bytes, value: Bytes)
    requires key in s.bound
    ensures var t := Yielded(s, p, key, raw, value);
      && t.procs == s.procs[p := Proc(Write(key, raw), Returned(value))] && t.lock.None?
      && t.dir == s.dir && t.files == s.files + [File(raw, 0, 2, true)] && t.bound == s.bound && key in t.durable
  {
    assert Yielded(s, p, key, raw, value).procs == s.procs[p := Proc(Write(key, raw), Returned(value))];
  }

  /** A `write` that saw no artifact, and comes to the lock after another has published one, can return the other's
      value: its own file loses its only name, and no name and no published value changes. */
  lemma LateWriteAnswersStored(canon: Bytes -> bool, s: State, p: Pid, key: Key, raw: Bytes) returns (t: State)
    requires Inv(canon, s) && SinglyLinked(s, key) && p in s.procs && s.procs[p] == Proc(Write(key, raw), Locking)
    requires canon(raw) && 1 <= |raw| <= 262_144 && s.lock.None? && HasRoom(s, |raw|)
    ensures CanReach(canon, s, p, t)
    ensures key in s.bound && t.procs == s.procs[p := Proc(Write(key, raw), Returned(s.bound[key]))]
    ensures t.dir == s.dir && t.bound == s.bound && t.files == s.files + [File(raw, 0, 2, true)]
    ensures t.lock.None? && key in t.durable
  {
    assert Links(s);
    assert Waiting(s, p, key, raw) == s;
    var token := FreeToken(s.dir.Keys, key.subject);
    ReachSelf(canon, s, p);
    hide CanReach, Inv, Links, HasRoom, Waiting, Yielded, Discarded, Created, Flushed, Holding;
    LockAlone(canon, s, s, p, key, raw);
    CreateAlone(canon, s, s, p, key, raw, token);
    AppendAlone(canon, s, s, p, key, raw, token);
    LinkRefusedAlone(canon, s, s, p, key, raw, token);
    DiscardAlone(canon, s, s, p, key, raw, token);
    YieldAlone(canon, s, s, p, key, raw);
    YieldedIs(s, p, key, raw, s.bound[key]);
    t := Yielded(s, p, key, raw, s.bound[key]);
  }
}
