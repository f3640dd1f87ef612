/**
 Safety of the artifact store over every run: one value per published name, whole bytes only,
 acknowledged writes survive power loss.
 */
module JourneyStoreSafety {
  import opened Wrappers
  import opened Registers
  import opened JourneyStore

  // ---------------------------------------------------------------- the invariant

  /** Link counts are exactly the number of names of each inode. */
  ghost predicate Links(s: State) {
    && (forall n :: n in s.dir ==> s.dir[n] < |s.files|)
    && (forall i :: 0 <= i < |s.files| ==> s.files[i].nlink == |NamesOf(s.dir, i)|)
  }

  ghost predicate Locked(s: State) {
    forall p :: p in s.procs && HoldsLock(s.procs[p].phase) ==> s.lock == Some(p)
  }

  /** A published name stands for complete, flushed, canonical bytes. */
  ghost predicate Published(canon: Bytes -> bool, s: State) {
    && (forall k :: Final(k) in s.dir <==> k in s.bound)
    && (forall k :: k in s.bound ==>
          && s.dir[Final(k)] < |s.files|
          && s.files[s.dir[Final(k)]].bytes == s.bound[k]
          && s.files[s.dir[Final(k)]].synced
          && GoodBytes(canon, s.bound[k]))
    && (forall k :: k in s.durable ==> k in s.bound)
  }

  /** Directories lie in the root, every name lies in a directory that exists, and only such directories are synced
      in the root. */
  ghost predicate Housed(s: State) {
    && s.rooted <= s.homes && (s.root.Absent? ==> s.homes == {})
    && (forall n :: n in s.dir ==> HomeOf(n) in s.homes)
  }

  /** Phases of a `write` past the check of its size. */
  predicate Checked(ph: Phase) { !ph.Homing? && !ph.RootSyncing? && !ph.Started? && !Terminal(ph) }

  /** What a process may rely on in each phase, whatever the other processes do. */
  ghost predicate PhaseOk(canon: Bytes -> bool, s: State, call: Call, ph: Phase) {
    && (call.Write? && Checked(ph) ==> GoodBytes(canon, call.raw))
    && (call.Write? && !ph.Homing? && !Terminal(ph) ==> call.key.subject in s.homes)
    && match ph
       case Homing => call.Write? && canon(call.raw)
       case RootSyncing => call.Write? && canon(call.raw)
       case Started => call.Write? && canon(call.raw)
       case ExistsSync => call.Write? && call.key in s.bound
       case Locking => call.Write?
       case Scanning(_, _, _) => call.Write?
       case Creating => call.Write?
       case Writing(t, i) =>
         && call.Write? && i < |s.files| && NamesOf(s.dir, i) == {Partial(call.key.subject, t)}
         && s.files[i].bytes <= call.raw
       case Verifying(t, i) =>
         && call.Write? && i < |s.files| && NamesOf(s.dir, i) == {Partial(call.key.subject, t)}
         && s.files[i].bytes == call.raw && s.files[i].synced
       case Linking(t, i) =>
         && call.Write? && i < |s.files| && NamesOf(s.dir, i) == {Partial(call.key.subject, t)}
         && s.files[i].bytes == call.raw && s.files[i].synced
       case Unlinking(t, i) =>
         && call.Write? && i < |s.files| && Partial(call.key.subject, t) in NamesOf(s.dir, i)
         && call.key in s.bound
       case Syncing => call.Write? && call.key in s.bound
       case Opening => call.Write? ==> call.key in s.durable
       case Opened(i) => OnPublished(s, call, i)
       case Reading(i, _, _, buf) => OnPublished(s, call, i) && buf <= s.bound[call.key]
                                   && NamesOf(s.dir, i) == {Final(call.key)}
       case Returned(v) => true
       case Raised(_) => true
       case Killed => true
  }

  ghost predicate OnPublished(s: State, call: Call, ino: nat) {
    && call.key in s.bound && Final(call.key) in s.dir && s.dir[Final(call.key)] == ino
    && (call.Write? ==> call.key in s.durable)
  }

  ghost predicate Inv(canon: Bytes -> bool, s: State) {
    && Links(s) && Locked(s) && Published(canon, s) && Housed(s)
    && (forall p :: p in s.procs ==> PhaseOk(canon, s, s.procs[p].call, s.procs[p].phase))
  }

  /** Everything any `read` has returned is still what the name stands for. */
  ghost predicate ReadsCurrent(s: State) {
    forall p :: p in s.procs && s.procs[p].phase.Returned? ==>
      s.procs[p].call.key in s.bound && s.procs[p].phase.value == s.bound[s.procs[p].call.key]
  }

  // ---------------------------------------------------------------- directory facts

  lemma NamesAdded(dir: map<Name, nat>, n: Name, i: nat, j: nat)
    requires n !in dir
    ensures NamesOf(dir[n := i], j) == if j == i then NamesOf(dir, j) + {n} else NamesOf(dir, j)
  {
  }

  lemma NamesRemoved(dir: map<Name, nat>, n: Name, j: nat)
    ensures NamesOf(dir - {n}, j) == NamesOf(dir, j) - {n}
  {
  }

  lemma SoleName(s: State, i: nat, n: Name)
    requires Links(s) && i < |s.files| && s.files[i].nlink == 1 && n in s.dir && s.dir[n] == i
    ensures NamesOf(s.dir, i) == {n}
  {
    assert n in NamesOf(s.dir, i);
    assert |NamesOf(s.dir, i) - {n}| == 0;
  }

  // ---------------------------------------------------------------- preservation

  /** `after` keeps every binding of `s` and everything already durable. */
  ghost predicate Extends(s: State, after: State) {
    && (forall k :: k in s.bound ==>
          && k in after.bound && after.bound[k] == s.bound[k]
          && (Final(k) in s.dir ==> Final(k) in after.dir && after.dir[Final(k)] == s.dir[Final(k)]))
    && s.durable <= after.durable && s.homes <= after.homes && s.rooted <= after.rooted
  }

  /** Other processes are undisturbed by a step of `p`: bindings only grow, and only the holder
      of the lock touches the directory or a file. */
  lemma OthersUndisturbed(canon: Bytes -> bool, s: State, after: State, p: Pid, q: Pid)
    requires Inv(canon, s) && Extends(s, after)
    requires p in s.procs && q in s.procs && q != p
    requires (after.dir == s.dir && after.files == s.files) || s.lock == Some(p)
    requires forall i, k :: NamesOf(s.dir, i) == {Final(k)} ==> NamesOf(after.dir, i) == {Final(k)}
    ensures PhaseOk(canon, after, s.procs[q].call, s.procs[q].phase)
  {
    assert PhaseOk(canon, s, s.procs[q].call, s.procs[q].phase);
    assert HoldsLock(s.procs[q].phase) ==> s.lock == Some(q);
  }

  /** A step of `p` that leaves its own phase sound leaves every phase sound. */
  lemma PhasesKept(canon: Bytes -> bool, s: State, after: State, p: Pid)
    requires Inv(canon, s) && Extends(s, after) && p in s.procs && p in after.procs
    requires after.procs == s.procs[p := after.procs[p]]
    requires (after.dir == s.dir && after.files == s.files) || s.lock == Some(p)
    requires forall i, k :: NamesOf(s.dir, i) == {Final(k)} ==> NamesOf(after.dir, i) == {Final(k)}
    requires PhaseOk(canon, after, after.procs[p].call, after.procs[p].phase)
    ensures forall q :: q in after.procs ==> PhaseOk(canon, after, after.procs[q].call, after.procs[q].phase)
  {
    hide PhaseOk;
    forall q | q in after.procs
      ensures PhaseOk(canon, after, after.procs[q].call, after.procs[q].phase)
    {
      if q != p { OthersUndisturbed(canon, s, after, p, q); }
    }
  }

  /** Steps that leave the directory and the files alone. */
  predicate Quiet(a: Action) {
    !(a.Create? || a.Append? || a.Flush? || a.Link? || a.Unlink?)
  }

  /** Quiet steps of the reading half of a call. */
  predicate Reads(a: Action) { a.Open? || a.Stat? || a.ReadChunk? || a.Finish? }

  lemma ChunkOwnPhase(canon: Bytes -> bool, s: State, p: Pid, a: Action)
    requires Inv(canon, s) && Enabled(canon, s, Do(p, a)) && a.ReadChunk?
    ensures PhaseOk(canon, Apply(canon, s, Do(p, a)), s.procs[p].call, Apply(canon, s, Do(p, a)).procs[p].phase)
  {
    var call, ph := s.procs[p].call, s.procs[p].phase;
    assert PhaseOk(canon, s, call, ph);
    var bytes := s.files[ph.ino].bytes;
    assert bytes == s.bound[call.key];
    assert ph.buf + bytes[|ph.buf|..|ph.buf| + a.more] == bytes[..|ph.buf| + a.more];
  }

  lemma StatOwnPhase(canon: Bytes -> bool, s: State, p: Pid, a: Action)
    requires Inv(canon, s) && Enabled(canon, s, Do(p, a)) && a.Stat?
    ensures PhaseOk(canon, Apply(canon, s, Do(p, a)), s.procs[p].call, Apply(canon, s, Do(p, a)).procs[p].phase)
  {
    assert PhaseOk(canon, s, s.procs[p].call, s.procs[p].phase);
    SoleName(s, s.procs[p].phase.ino, Final(s.procs[p].call.key));
  }

  lemma OpenOwnPhase(canon: Bytes -> bool, s: State, p: Pid, a: Action)
    requires Inv(canon, s) && Enabled(canon, s, Do(p, a)) && a.Open?
    ensures PhaseOk(canon, Apply(canon, s, Do(p, a)), s.procs[p].call, Apply(canon, s, Do(p, a)).procs[p].phase)
  {
    assert PhaseOk(canon, s, s.procs[p].call, s.procs[p].phase);
  }

  lemma FinishOwnPhase(canon: Bytes -> bool, s: State, p: Pid, a: Action)
    requires Enabled(canon, s, Do(p, a)) && a.Finish?
    ensures PhaseOk(canon, Apply(canon, s, Do(p, a)), s.procs[p].call, Apply(canon, s, Do(p, a)).procs[p].phase)
  {
  }

  /** Quiet steps of the writing half before the lock is held, and the end of a call. */
  predicate Enters(a: Action) {
    || a.MakeHome? || a.FindHome? || a.SyncRootOfHome? || a.SeeExisting? || a.SeeAbsent? || a.SyncExisting?
    || a.Acquire? || a.Fail? || a.Kill?
  }

  lemma EnterOwnPhase(canon: Bytes -> bool, s: State, p: Pid, a: Action)
    requires Inv(canon, s) && Enabled(canon, s, Do(p, a)) && Enters(a)
    ensures PhaseOk(canon, Apply(canon, s, Do(p, a)), s.procs[p].call, Apply(canon, s, Do(p, a)).procs[p].phase)
  {
    assert PhaseOk(canon, s, s.procs[p].call, s.procs[p].phase);
  }

  lemma HeldOwnPhase(canon: Bytes -> bool, s: State, p: Pid, a: Action)
    requires Inv(canon, s) && Enabled(canon, s, Do(p, a)) && Quiet(a) && !Reads(a) && !Enters(a)
    ensures PhaseOk(canon, Apply(canon, s, Do(p, a)), s.procs[p].call, Apply(canon, s, Do(p, a)).procs[p].phase)
  {
    assert PhaseOk(canon, s, s.procs[p].call, s.procs[p].phase);
  }

  /** A quiet step leaves its own process in a phase it may rely on. */
  lemma QuietOwnPhase(canon: Bytes -> bool, s: State, p: Pid, a: Action)
    requires Inv(canon, s) && Enabled(canon, s, Do(p, a)) && Quiet(a)
    ensures PhaseOk(canon, Apply(canon, s, Do(p, a)), s.procs[p].call, Apply(canon, s, Do(p, a)).procs[p].phase)
  {
    if a.ReadChunk? { ChunkOwnPhase(canon, s, p, a); }
    else if a.Stat? { StatOwnPhase(canon, s, p, a); }
    else if a.Open? { OpenOwnPhase(canon, s, p, a); }
    else if a.Finish? { FinishOwnPhase(canon, s, p, a); }
    else if Enters(a) { EnterOwnPhase(canon, s, p, a); }
    else { HeldOwnPhase(canon, s, p, a); }
  }

  /** A quiet step is a move of one process, perhaps with a new directory, a sync or a change of the lock. */
  ghost predicate Moves(s: State, after: State, p: Pid) {
    && p in s.procs && p in after.procs
    && (s.root.Absent? ==> after.homes == s.homes)
    && after == State(s.root, after.homes, after.rooted, s.dir, s.files, after.lock, s.procs[p := after.procs[p]],
      s.bound,
                      after.durable)
    && after.procs[p].call == s.procs[p].call
    && s.durable <= after.durable && s.homes <= after.homes
    && (s.rooted <= s.homes ==> s.rooted <= after.rooted <= after.homes)
    && (forall k :: k in after.durable ==> k in s.durable || k in s.bound)
  }

  lemma QuietMoves(canon: Bytes -> bool, s: State, p: Pid, a: Action)
    requires Enabled(canon, s, Do(p, a)) && Quiet(a)
    ensures Moves(s, Apply(canon, s, Do(p, a)), p)
  {
  }

  lemma QuietLock(canon: Bytes -> bool, s: State, p: Pid, a: Action)
    requires Enabled(canon, s, Do(p, a)) && Quiet(a)
    ensures var after := Apply(canon, s, Do(p, a));
      var was, now := HoldsLock(s.procs[p].phase), HoldsLock(after.procs[p].phase);
      || (was == now && after.lock == s.lock)
      || (!was && now && s.lock.None? && after.lock == Some(p))
      || (was && !now && after.lock.None?)
  {
  }

  lemma MovesKeep(canon: Bytes -> bool, s: State, after: State, p: Pid)
    requires Inv(canon, s) && Moves(s, after, p)
    requires var was, now := HoldsLock(s.procs[p].phase), HoldsLock(after.procs[p].phase);
      || (was == now && after.lock == s.lock)
      || (!was && now && s.lock.None? && after.lock == Some(p))
      || (was && !now && after.lock.None?)
    ensures Links(after) && Locked(after) && Published(canon, after) && Housed(after) && Extends(s, after)
  {
  }

  lemma QuietKeepsInv(canon: Bytes -> bool, s: State, p: Pid, a: Action)
    requires Inv(canon, s) && Enabled(canon, s, Do(p, a)) && Quiet(a)
    ensures Inv(canon, Apply(canon, s, Do(p, a)))
    ensures Extends(s, Apply(canon, s, Do(p, a)))
  {
    hide CanDo, Effect, PhaseOk, Published, Links;
    QuietMoves(canon, s, p, a);
    QuietLock(canon, s, p, a);
    QuietOwnPhase(canon, s, p, a);
    var after := Apply(canon, s, Do(p, a));
    MovesKeep(canon, s, after, p);
    PhasesKept(canon, s, after, p);
  }

  /** How a new temporary file changes the names of every inode. */
  lemma CreateNames(canon: Bytes -> bool, s: State, p: Pid, a: Action)
    requires Inv(canon, s) && Enabled(canon, s, Do(p, a)) && a.Create?
    ensures var after := Apply(canon, s, Do(p, a));
      && Links(after) && NamesOf(after.dir, |s.files|) == {Partial(s.procs[p].call.key.subject, a.token)}
      && (forall i, k :: NamesOf(s.dir, i) == {Final(k)} ==> NamesOf(after.dir, i) == {Final(k)})
  {
    var after := Apply(canon, s, Do(p, a));
    var name, ino := Partial(s.procs[p].call.key.subject, a.token), |s.files|;
    assert NamesOf(s.dir, ino) == {};
    forall i | 0 <= i < |after.files|
      ensures after.files[i].nlink == |NamesOf(after.dir, i)|
    {
      NamesAdded(s.dir, name, ino, i);
    }
    NamesAdded(s.dir, name, ino, ino);
    forall i, k | NamesOf(s.dir, i) == {Final(k)}
      ensures NamesOf(after.dir, i) == {Final(k)}
    {
      assert Final(k) in NamesOf(s.dir, i);
      NamesAdded(s.dir, name, ino, i);
    }
  }

  lemma CreateKeepsInv(canon: Bytes -> bool, s: State, p: Pid, a: Action)
    requires Inv(canon, s) && Enabled(canon, s, Do(p, a)) && a.Create?
    ensures Inv(canon, Apply(canon, s, Do(p, a)))
    ensures Extends(s, Apply(canon, s, Do(p, a)))
  {
    var after := Apply(canon, s, Do(p, a));
    assert PhaseOk(canon, s, s.procs[p].call, s.procs[p].phase);
    CreateNames(canon, s, p, a);
    assert Published(canon, after) && Extends(s, after);
    PhasesKept(canon, s, after, p);
  }

  /** A file that only one temporary name reaches is not a published one. */
  lemma TempNotPublished(s: State, i: nat, n: Name, k: Key)
    requires NamesOf(s.dir, i) == {n} && n.Partial? && Final(k) in s.dir
    ensures s.dir[Final(k)] != i
  {
    assert Final(k) !in NamesOf(s.dir, i);
  }

  lemma FileStepKeepsInv(canon: Bytes -> bool, s: State, p: Pid, a: Action)
    requires Inv(canon, s) && Enabled(canon, s, Do(p, a)) && (a.Append? || a.Flush?)
    ensures Inv(canon, Apply(canon, s, Do(p, a)))
    ensures Extends(s, Apply(canon, s, Do(p, a)))
  {
    var call, ph := s.procs[p].call, s.procs[p].phase;
    var after := Apply(canon, s, Do(p, a));
    assert PhaseOk(canon, s, call, ph);
    assert s.lock == Some(p);
    forall k | k in s.bound
      ensures after.files[after.dir[Final(k)]] == s.files[s.dir[Final(k)]]
    {
      TempNotPublished(s, ph.ino, Partial(call.key.subject, ph.token), k);
    }
    if a.Append? {
      var f := s.files[ph.ino];
      assert f.bytes + call.raw[|f.bytes|..|f.bytes| + a.more] == call.raw[..|f.bytes| + a.more];
    }
    PhasesKept(canon, s, after, p);
  }

  /** How a link changes the names of every inode. */
  lemma LinkNames(canon: Bytes -> bool, s: State, p: Pid, a: Action)
    requires Inv(canon, s) && Enabled(canon, s, Do(p, a)) && a.Link?
    ensures var after := Apply(canon, s, Do(p, a));
      && Links(after)
      && (forall i, k :: NamesOf(s.dir, i) == {Final(k)} ==> NamesOf(after.dir, i) == {Final(k)})
      && Partial(s.procs[p].call.key.subject, s.procs[p].phase.token) in NamesOf(after.dir, s.procs[p].phase.ino)
  {
    var call, ph := s.procs[p].call, s.procs[p].phase;
    var after := Apply(canon, s, Do(p, a));
    assert PhaseOk(canon, s, call, ph);
    var temp := Partial(call.key.subject, ph.token);
    assert temp in NamesOf(s.dir, ph.ino);
    assert temp in s.dir && after.dir[temp] == ph.ino;
    if Final(call.key) !in s.dir {
      forall i: nat
        ensures i < |after.files| ==> after.files[i].nlink == |NamesOf(after.dir, i)|
        ensures i != ph.ino ==> NamesOf(after.dir, i) == NamesOf(s.dir, i)
      {
        NamesAdded(s.dir, Final(call.key), ph.ino, i);
      }
    }
  }

  lemma LinkExtends(canon: Bytes -> bool, s: State, p: Pid, a: Action)
    requires Inv(canon, s) && Enabled(canon, s, Do(p, a)) && a.Link?
    ensures Extends(s, Apply(canon, s, Do(p, a)))
  {
  }

  lemma LinkPublishes(canon: Bytes -> bool, s: State, p: Pid, a: Action)
    requires Inv(canon, s) && Enabled(canon, s, Do(p, a)) && a.Link?
    ensures Published(canon, Apply(canon, s, Do(p, a)))
    ensures Extends(s, Apply(canon, s, Do(p, a)))
  {
    assert PhaseOk(canon, s, s.procs[p].call, s.procs[p].phase);
    LinkExtends(canon, s, p, a);
  }

  lemma LinkOwnPhase(canon: Bytes -> bool, s: State, p: Pid, a: Action)
    requires Inv(canon, s) && Enabled(canon, s, Do(p, a)) && a.Link?
    ensures PhaseOk(canon, Apply(canon, s, Do(p, a)), s.procs[p].call, Apply(canon, s, Do(p, a)).procs[p].phase)
  {
    assert PhaseOk(canon, s, s.procs[p].call, s.procs[p].phase);
    LinkNames(canon, s, p, a);
  }

  /** Steps on the files are taken under the lock and leave it taken. */
  lemma FileStepHolds(canon: Bytes -> bool, s: State, p: Pid, a: Action)
    requires Enabled(canon, s, Do(p, a)) && !Quiet(a)
    ensures var after := Apply(canon, s, Do(p, a));
      && HoldsLock(s.procs[p].phase) && !s.procs[p].phase.Scanning? && after.lock == s.lock
      && p in after.procs && after.procs == s.procs[p := after.procs[p]] && HoldsLock(after.procs[p].phase)
      && after.procs[p].call == s.procs[p].call
      && after.root == s.root && after.homes == s.homes && after.rooted == s.rooted
      && (forall n :: n in after.dir ==> n in s.dir || HomeOf(n) == s.procs[p].call.key.subject)
  {
  }

  /** What a step on the files keeps besides the names: the lock, the directories and the other calls. */
  lemma FileStepMoves(canon: Bytes -> bool, s: State, p: Pid, a: Action)
    requires Inv(canon, s) && Enabled(canon, s, Do(p, a)) && !Quiet(a)
    ensures var after := Apply(canon, s, Do(p, a));
      && Locked(after) && Housed(after) && s.lock == Some(p)
      && p in after.procs && after.procs == s.procs[p := after.procs[p]]
      && after.procs[p].call == s.procs[p].call
  {
    assert PhaseOk(canon, s, s.procs[p].call, s.procs[p].phase);
    FileStepHolds(canon, s, p, a);
    hide Enabled, Apply;
  }

  lemma LinkKeepsInv(canon: Bytes -> bool, s: State, p: Pid, a: Action)
    requires Inv(canon, s) && Enabled(canon, s, Do(p, a)) && a.Link?
    ensures Inv(canon, Apply(canon, s, Do(p, a)))
    ensures Extends(s, Apply(canon, s, Do(p, a)))
  {
    hide PhaseOk, Published, Extends, Effect, CanDo;
    LinkNames(canon, s, p, a);
    LinkPublishes(canon, s, p, a);
    LinkOwnPhase(canon, s, p, a);
    FileStepMoves(canon, s, p, a);
    PhasesKept(canon, s, Apply(canon, s, Do(p, a)), p);
  }

  /** How an unlink changes the names of every inode. */
  lemma UnlinkNames(canon: Bytes -> bool, s: State, p: Pid, a: Action)
    requires Inv(canon, s) && Enabled(canon, s, Do(p, a)) && a.Unlink?
    ensures var after := Apply(canon, s, Do(p, a));
      && Links(after)
      && (forall i, k :: NamesOf(s.dir, i) == {Final(k)} ==> NamesOf(after.dir, i) == {Final(k)})
  {
    var call, ph := s.procs[p].call, s.procs[p].phase;
    var after := Apply(canon, s, Do(p, a));
    var name := Partial(call.key.subject, ph.token);
    assert PhaseOk(canon, s, call, ph);
    assert name in s.dir && s.dir[name] == ph.ino;
    forall i | 0 <= i < |after.files|
      ensures after.files[i].nlink == |NamesOf(after.dir, i)|
    {
      NamesRemoved(s.dir, name, i);
    }
    forall i, k | NamesOf(s.dir, i) == {Final(k)}
      ensures NamesOf(after.dir, i) == {Final(k)}
    {
      NamesRemoved(s.dir, name, i);
    }
  }

  lemma UnlinkPublished(canon: Bytes -> bool, s: State, p: Pid, a: Action)
    requires Inv(canon, s) && Enabled(canon, s, Do(p, a)) && a.Unlink?
    ensures var after := Apply(canon, s, Do(p, a));
      && Published(canon, after) && Extends(s, after)
      && PhaseOk(canon, after, s.procs[p].call, after.procs[p].phase)
  {
    assert PhaseOk(canon, s, s.procs[p].call, s.procs[p].phase);
  }

  lemma UnlinkKeepsInv(canon: Bytes -> bool, s: State, p: Pid, a: Action)
    requires Inv(canon, s) && Enabled(canon, s, Do(p, a)) && a.Unlink?
    ensures Inv(canon, Apply(canon, s, Do(p, a)))
    ensures Extends(s, Apply(canon, s, Do(p, a)))
  {
    hide PhaseOk, Published, Extends, Effect, CanDo;
    UnlinkNames(canon, s, p, a);
    UnlinkPublished(canon, s, p, a);
    FileStepMoves(canon, s, p, a);
    PhasesKept(canon, s, Apply(canon, s, Do(p, a)), p);
  }

  lemma PowerLossKeepsInv(canon: Bytes -> bool, s: State, e: Event)
    requires Inv(canon, s) && Enabled(canon, s, e) && e.PowerLoss?
    ensures Inv(canon, Apply(canon, s, e))
  {
    var after := Apply(canon, s, e);
    assert Links(after);
    forall p | p in after.procs
      ensures PhaseOk(canon, after, after.procs[p].call, after.procs[p].phase)
    {
      assert PhaseOk(canon, s, s.procs[p].call, s.procs[p].phase);
    }
  }

  lemma RootKeepsInv(canon: Bytes -> bool, s: State, e: Event)
    requires Inv(canon, s) && Enabled(canon, s, e) && (e.MakeRoot? || e.SyncParent? || e.KillMaker?)
    ensures Inv(canon, Apply(canon, s, e)) && Extends(s, Apply(canon, s, e))
  {
    var after := Apply(canon, s, e);
    forall p | p in after.procs ensures PhaseOk(canon, after, after.procs[p].call, after.procs[p].phase) {
      assert PhaseOk(canon, s, s.procs[p].call, s.procs[p].phase);
    }
  }

  lemma StepKeepsInv(canon: Bytes -> bool, s: State, e: Event)
    requires Inv(canon, s) && Enabled(canon, s, e)
    ensures Inv(canon, Apply(canon, s, e))
    ensures !e.PowerLoss? ==> Extends(s, Apply(canon, s, e))
  {
    match e
    case MakeRoot => RootKeepsInv(canon, s, e);
    case SyncParent => RootKeepsInv(canon, s, e);
    case KillMaker => RootKeepsInv(canon, s, e);
    case Spawn(p, call) =>
      var after := Apply(canon, s, e);
      forall q | q in after.procs
        ensures PhaseOk(canon, after, after.procs[q].call, after.procs[q].phase)
      {
        if q != p { assert PhaseOk(canon, s, s.procs[q].call, s.procs[q].phase); }
      }
      assert Links(after) && Locked(after);
    case PowerLoss(_, _, _, _) => PowerLossKeepsInv(canon, s, e);
    case Do(p, a) =>
      if Quiet(a) { QuietKeepsInv(canon, s, p, a); }
      else if a.Create? { CreateKeepsInv(canon, s, p, a); }
      else if a.Append? || a.Flush? { FileStepKeepsInv(canon, s, p, a); }
      else if a.Link? { LinkKeepsInv(canon, s, p, a); }
      else { UnlinkKeepsInv(canon, s, p, a); }
  }

  lemma {:induction false} ReachableInv(canon: Bytes -> bool, trace: seq<Event>)
    requires After(canon, trace).Some?
    ensures Inv(canon, After(canon, trace).value)
  {
    if trace != [] {
      ReachableInv(canon, trace[..|trace| - 1]);
      StepKeepsInv(canon, After(canon, trace[..|trace| - 1]).value, trace[|trace| - 1]);
    }
  }
}
