/** Runs of the artifact store that show what it does not promise. */
module JourneyStoreWitnesses {
  import opened Wrappers
  import opened Registers
  import opened JourneyStore
  import opened JourneyStoreSafety
  import opened JourneyStoreRuns
  import opened JourneyStoreProgress

  /** A store without names, in which nobody is at work. */
  ghost predicate Bare(s: State) {
    s.dir == map[] && s.bound == map[] && s.durable == {} && s.lock.None? && !s.root.Absent?
  }

  /** The first constructor makes the root and syncs its parent. */
  lemma OpenStore(canon: Bytes -> bool) returns (trace: seq<Event>)
    ensures After(canon, trace) == Some(INIT.(root := Anchored))
  {
    Extend(canon, [], MakeRoot);
    trace := [] + [MakeRoot];
    Extend(canon, trace, SyncParent);
    trace := trace + [SyncParent];
  }

  /** A call is made, and comes alone to a state it can reach. */
  lemma CallAlone(canon: Bytes -> bool, trace: seq<Event>, p: Pid, call: Call, t: State) returns (more: seq<Event>)
    requires After(canon, trace).Some? && Enabled(canon, After(canon, trace).value, Spawn(p, call))
    requires CanReach(canon, Called(After(canon, trace).value, p, call), p, t)
    ensures After(canon, more) == Some(t)
  {
    Extend(canon, trace, Spawn(p, call));
    assert After(canon, trace + [Spawn(p, call)]) == Some(Called(After(canon, trace).value, p, call));
    hide CanReach, Called;
    var rest := ReachIsRun(canon, trace + [Spawn(p, call)], p, t);
    more := trace + [Spawn(p, call)] + rest;
  }

  /** In a bare store a writer comes to have linked its artifact, its temporary name still there. */
  lemma WriterLinks(canon: Bytes -> bool, trace: seq<Event>, p: Pid, key: Key, raw: Bytes)
      returns (more: seq<Event>, home: State)
    requires After(canon, trace).Some? && Bare(After(canon, trace).value) && p !in After(canon, trace).value.procs
    requires GoodBytes(canon, raw)
    ensures Bare(home) && home.procs == After(canon, trace).value.procs && home.files == After(canon, trace).value.files
    ensures home.root == After(canon, trace).value.root
    ensures After(canon, more) == Some(Linked(home, p, key, raw, 0))
  {
    var s := After(canon, trace).value;
    ReachableInv(canon, trace);
    assert Links(s) && HasRoom(s, |raw|);
    hide CanReach, HasRoom, Links, Inv;
    home := ArriveAlone(canon, s, p, key, raw);
    SameRoom(s, home, |raw|);
    LinkAlone(canon, Called(s, p, Write(key, raw)), home, p, key, raw, 0);
    more := CallAlone(canon, trace, p, Write(key, raw), Linked(home, p, key, raw, 0));
  }

  /** A writer killed at that point leaves the store stuck: the run exists, for any name and value. */
  lemma StuckHappens(canon: Bytes -> bool, key: Key, raw: Bytes) returns (trace: seq<Event>)
    requires GoodBytes(canon, raw)
    ensures After(canon, trace).Some? && Stuck(After(canon, trace).value, 0, Final(key))
  {
    trace := OpenStore(canon);
    var home;
    trace, home := WriterLinks(canon, trace, 0, key, raw);
    Extend(canon, trace, Do(0, Kill));
    trace := trace + [Do(0, Kill)];
  }

  /** The files of a machine that comes back with no names. */
  function Orphans(files: seq<File>): (orphans: seq<File>)
    ensures |orphans| == |files|
    ensures forall i :: 0 <= i < |files| ==> orphans[i] == files[i].(nlink := 0)
  {
    seq(|files|, i requires 0 <= i < |files| => files[i].(nlink := 0))
  }

  /** Nothing is left of what no sync has covered: no artifact, and of the directories those of the root. */
  lemma LoseUnsynced(canon: Bytes -> bool, trace: seq<Event>) returns (more: seq<Event>)
    requires After(canon, trace).Some? && After(canon, trace).value.root.Anchored?
    requires var s := After(canon, trace).value; forall k :: k in s.durable ==> k.subject !in s.rooted
    ensures After(canon, more).Some? && Bare(After(canon, more).value)
    ensures var s, t := After(canon, trace).value, After(canon, more).value;
      t.procs == AfterLoss(s.procs) && t.homes == s.rooted && t.rooted == s.rooted && t.root == s.root
  {
    ReachableInv(canon, trace);
    var s := After(canon, trace).value;
    var e := PowerLoss(false, s.rooted, map[], Orphans(s.files));
    forall i: nat ensures NamesOf(map[], i) == {} {
    }
    Extend(canon, trace, e);
    more := trace + [e];
  }

  /** In a bare store a writer is acknowledged. */
  lemma WriterReturns(canon: Bytes -> bool, trace: seq<Event>, p: Pid, key: Key, raw: Bytes) returns (more: seq<Event>)
    requires After(canon, trace).Some? && Bare(After(canon, trace).value) && p !in After(canon, trace).value.procs
    requires GoodBytes(canon, raw)
    ensures After(canon, more).Some?
    ensures var s, t := After(canon, trace).value, After(canon, more).value;
      && t.procs == s.procs[p := Proc(Write(key, raw), Returned(raw))] && t.root == s.root
      && t.rooted == (if key.subject in s.homes then s.rooted else s.homes + {key.subject})
      && t.bound == map[key := raw] && key in t.durable
  {
    var s := After(canon, trace).value;
    ReachableInv(canon, trace);
    var t := LoneWriteAnswersOwn(canon, s, p, key, raw);
    hide CanReach;
    more := CallAlone(canon, trace, p, Write(key, raw), t);
  }

  lemma ReaderReturns(canon: Bytes -> bool, trace: seq<Event>, p: Pid, key: Key) returns (more: seq<Event>)
    requires After(canon, trace).Some? && SinglyLinked(After(canon, trace).value, key)
    requires p !in After(canon, trace).value.procs
    ensures After(canon, more).Some? && key in After(canon, trace).value.bound
    ensures var s, t := After(canon, trace).value, After(canon, more).value;
      && t.procs == s.procs[p := Proc(Read(key), Returned(s.bound[key]))]
      && t.root == s.root && t.homes == s.homes && t.rooted == s.rooted && t.durable == s.durable
  {
    var s := After(canon, trace).value;
    ReachableInv(canon, trace);
    LoneReadAnswers(canon, s, p, key);
    hide CanReach;
    more := CallAlone(canon, trace, p, Read(key), Goto(Called(s, p, Read(key)), p, Returned(s.bound[key])));
  }

  /** The value of a `read` may be lost: it returns while the writer has still to sync the directory; the power
      fails; and the same name is then written, acknowledged and returned with another value. */
  lemma ReturnedReadIsLost(canon: Bytes -> bool, key: Key, first: Bytes, second: Bytes) returns (trace: seq<Event>)
    requires GoodBytes(canon, first) && GoodBytes(canon, second)
    ensures After(canon, trace).Some?
    ensures var s := After(canon, trace).value;
      && 1 in s.procs && s.procs[1] == Proc(Read(key), Returned(first))
      && 2 in s.procs && s.procs[2] == Proc(Write(key, second), Returned(second)) && Safe(TableOf(s), key)
  {
    trace := OpenStore(canon);
    var home;
    trace, home := WriterLinks(canon, trace, 0, key, first);
    Extend(canon, trace, Do(0, Unlink));
    trace := trace + [Do(0, Unlink)];
    trace := ReaderReturns(canon, trace, 1, key);
    trace := LoseUnsynced(canon, trace);
    trace := WriterReturns(canon, trace, 2, key, second);
  }

  /** An acknowledged write may be lost: the caller that made the directory is killed before it syncs the root, the
      next write finds the directory, and nobody ever syncs the root for it. After a loss of power another write
      of the same name is acknowledged with another value. */
  lemma AcknowledgedWriteIsLost(canon: Bytes -> bool, key: Key, first: Bytes, second: Bytes)
      returns (trace: seq<Event>)
    requires GoodBytes(canon, first) && GoodBytes(canon, second)
    ensures After(canon, trace).Some?
    ensures var s := After(canon, trace).value;
      && 1 in s.procs && s.procs[1] == Proc(Write(key, first), Returned(first))
      && 2 in s.procs && s.procs[2] == Proc(Write(key, second), Returned(second)) && Safe(TableOf(s), key)
  {
    trace := OpenStore(canon);
    Extend(canon, trace, Spawn(0, Write(key, first)));
    trace := trace + [Spawn(0, Write(key, first))];
    Extend(canon, trace, Do(0, MakeHome));
    trace := trace + [Do(0, MakeHome)];
    Extend(canon, trace, Do(0, Kill));
    trace := trace + [Do(0, Kill)];
    trace := WriterReturns(canon, trace, 1, key, first);
    trace := LoseUnsynced(canon, trace);
    trace := WriterReturns(canon, trace, 2, key, second);
  }
}
