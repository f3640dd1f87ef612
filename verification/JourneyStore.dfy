/**
 The write-once artifact store of backend/app/ceo_journey_store.py as a transition system.

 The file system is a root holding one directory per subject, whose entries (name -> inode number) lie over
 an inode table with link counts. Making a directory, or the root, and syncing its own entry are two steps. Any
 number of callers run `write` and `read`, one system call per step, in any interleaving. A caller may raise or be
 killed before any of its steps, and the whole machine may lose power.

 A JSON value is represented by its canonical bytes: `read` returns a value only when
 canonical(value) equals the stored bytes, so values and canonical byte strings correspond.
 `canon` says which byte strings are canonical JSON.
 */
module JourneyStore {
  import opened Wrappers
  import opened Registers

  const MAX_BYTES: nat := 262144
  const MAX_FILES: nat := 1000
  const MAX_STORE_BYTES: nat := 268435456

  type Pid = nat

  /** A published artifact, or the temporary file of one write in a subject's directory. */
  datatype Name = Final(key: Key) | Partial(home: string, token: nat)
  /** `stamp` stands for the modification and change times compared by `read`;
      `synced` says that the content has been flushed to the disk. */
  datatype File = File(bytes: Bytes, nlink: nat, stamp: nat, synced: bool)

  datatype Call = Read(key: Key) | Write(key: Key, raw: Bytes)
  datatype Failure = Missing | Unavailable

  datatype Phase =
    | Homing
    | RootSyncing
    | Started
    | ExistsSync
    | Locking
    | Scanning(seen: set<Name>, count: nat, size: nat)
    | Creating
    | Writing(token: nat, ino: nat)
    | Verifying(token: nat, ino: nat)
    | Linking(token: nat, ino: nat)
    | Unlinking(token: nat, ino: nat)
    | Syncing
    | Opening
    | Opened(ino: nat)
    | Reading(ino: nat, size: nat, stamp: nat, buf: Bytes)
    | Returned(value: Bytes)
    | Raised(why: Failure)
    | Killed

  datatype Proc = Proc(call: Call, phase: Phase)

  /** The store's root: absent; made, by a constructor that may be about to sync its parent; or synced there. */
  datatype Root = Absent | Made(syncing: bool) | Anchored

  /** `homes` are the subjects whose directory exists, and `dir` holds the entries of all of them. History:
      `rooted`, the directories whose entry in the root a sync has covered; `bound`, which artifact bytes each
      published name stands for; `durable`, which published names a sync of their directory has covered. */
  datatype State = State(
    root: Root,
    homes: set<string>,
    rooted: set<string>,
    dir: map<Name, nat>,
    files: seq<File>,
    lock: Option<Pid>,
    procs: map<Pid, Proc>,
    bound: map<Key, Bytes>,
    durable: set<Key>)

  const INIT: State := State(Absent, {}, {}, map[], [], None, map[], map[], {})

  datatype Action =
    | MakeHome | FindHome | SyncRootOfHome
    | SeeExisting | SeeAbsent | SyncExisting
    | Acquire
    | ScanEntry(name: Name)
    | ScanDone
    | Create(token: nat)
    | Append(more: nat)
    | Flush
    | Verify
    | Link
    | Unlink
    | SyncAndRelease
    | Open
    | Stat
    | ReadChunk(more: nat)
    | Finish
    | Fail(why: Failure)
    | Kill

  datatype Event =
    | MakeRoot | SyncParent | KillMaker
    | Spawn(pid: Pid, call: Call)
    | Do(pid: Pid, action: Action)
    | PowerLoss(gone: bool, homes: set<string>, dir: map<Name, nat>, files: seq<File>)

  // ---------------------------------------------------------------- the steps

  function HomeOf(n: Name): string { if n.Final? then n.key.subject else n.home }

  predicate Terminal(ph: Phase) { ph.Returned? || ph.Raised? || ph.Killed? }

  /** Phases inside `with self.write_budget(...)`, after flock succeeded. */
  predicate HoldsLock(ph: Phase) {
    ph.Scanning? || ph.Creating? || ph.Writing? || ph.Verifying? || ph.Linking? || ph.Unlinking? || ph.Syncing?
  }

  function NamesOf(dir: map<Name, nat>, ino: nat): set<Name> {
    set n | n in dir && dir[n] == ino
  }

  function Inos(dir: map<Name, nat>, names: set<Name>): set<nat> {
    set n | n in names && n in dir :: dir[n]
  }

  /** Inodes that are reachable by at least one name: the distinct files of the store. */
  function LiveInos(dir: map<Name, nat>): set<nat> { Inos(dir, dir.Keys) }

  /** The bytes held by the files numbered below `n` whose number is in `s`. */
  function SizeIn(files: seq<File>, s: set<nat>, n: nat): nat
    requires n <= |files|
  {
    if n == 0 then 0
    else SizeIn(files, s, n - 1) + (if n - 1 in s then |files[n - 1].bytes| else 0)
  }

  function StoreBytes(s: State): nat { SizeIn(s.files, LiveInos(s.dir), |s.files|) }

  predicate GoodSize(b: Bytes) { 0 < |b| <= MAX_BYTES }

  predicate GoodBytes(canon: Bytes -> bool, b: Bytes) { canon(b) && GoodSize(b) }

  function AfterLoss(procs: map<Pid, Proc>): map<Pid, Proc> {
    map p | p in procs :: if Terminal(procs[p].phase) then procs[p] else procs[p].(phase := Killed)
  }

  function RootAfterLoss(root: Root): Root { if root.Made? then Made(false) else root }

  /** What a lost machine may come back with. If the root was never synced, perhaps nothing (`gone`). Otherwise every
      directory whose entry in the root was synced; in the directories that come back, every synced published
      name; no published name from nowhere or moved; flushed contents. Link counts are repaired. Temporary
      names and unflushed contents are arbitrary. */
  ghost predicate LossAllowed(s: State, gone: bool, homes': set<string>, dir': map<Name, nat>, files': seq<File>) {
    && homes' <= s.homes
    && (if gone then !s.root.Anchored? && homes' == {} else s.rooted <= homes')
    && |files'| == |s.files|
    && (forall k :: k in s.durable && k.subject in homes' ==>
          Final(k) in s.dir && Final(k) in dir' && dir'[Final(k)] == s.dir[Final(k)])
    && (forall k :: Final(k) in dir' ==> Final(k) in s.dir && dir'[Final(k)] == s.dir[Final(k)])
    && (forall i :: 0 <= i < |files'| && s.files[i].synced ==>
          files'[i].synced && files'[i].bytes == s.files[i].bytes)
    && (forall n :: n in dir' ==> HomeOf(n) in homes' && dir'[n] < |files'|)
    && (forall i :: 0 <= i < |files'| ==> files'[i].nlink == |NamesOf(dir', i)|)
  }

  /** When process `p`, running `call` in phase `ph`, can take action `a`. */
  ghost predicate CanDo(canon: Bytes -> bool, s: State, call: Call, ph: Phase, a: Action) {
    match a
    case MakeHome => ph.Homing? && !s.root.Absent? && call.key.subject !in s.homes
    case FindHome => ph.Homing? && call.key.subject in s.homes
    case SyncRootOfHome => ph.RootSyncing?
    // the size of the canonical bytes is checked once the directory is there
    case SeeExisting => call.Write? && ph.Started? && GoodSize(call.raw) && Final(call.key) in s.dir
    case SeeAbsent => call.Write? && ph.Started? && GoodSize(call.raw) && Final(call.key) !in s.dir
    case SyncExisting => ph.ExistsSync?
    case Acquire => ph.Locking? && s.lock.None?
    case ScanEntry(n) =>
      && call.Write? && ph.Scanning? && n in s.dir && n !in ph.seen && s.dir[n] < |s.files|
      && var f := s.files[s.dir[n]];
      && f.nlink == 1 && |f.bytes| <= MAX_BYTES
      && ph.count + 1 < MAX_FILES && ph.size + |f.bytes| + |call.raw| <= MAX_STORE_BYTES
    case ScanDone => ph.Scanning? && ph.seen == s.dir.Keys
    case Create(token) => ph.Creating? && Partial(call.key.subject, token) !in s.dir
    case Append(more) =>
      && call.Write? && ph.Writing? && ph.ino < |s.files| && 0 < more
      && |s.files[ph.ino].bytes| + more <= |call.raw|
    case Flush => call.Write? && ph.Writing? && ph.ino < |s.files| && s.files[ph.ino].bytes == call.raw
    case Verify =>
      && call.Write? && ph.Verifying? && ph.ino < |s.files|
      && var f := s.files[ph.ino];
      && f.nlink == 1 && GoodBytes(canon, f.bytes) && f.bytes == call.raw
    case Link => ph.Linking? && ph.ino < |s.files|
    case Unlink => ph.Unlinking? && ph.ino < |s.files| && 0 < s.files[ph.ino].nlink
    case SyncAndRelease => ph.Syncing?
    case Open => ph.Opening? && Final(call.key) in s.dir
    case Stat =>
      && ph.Opened? && ph.ino < |s.files|
      && s.files[ph.ino].nlink == 1 && 0 < |s.files[ph.ino].bytes| <= MAX_BYTES
    case ReadChunk(more) =>
      && ph.Reading? && ph.ino < |s.files| && 0 < more
      && |ph.buf| + more <= |s.files[ph.ino].bytes| && |ph.buf| + more <= MAX_BYTES + 1
    case Finish =>
      && ph.Reading? && ph.ino < |s.files|
      && var f := s.files[ph.ino];
      && |ph.buf| == ph.size && |ph.buf| <= MAX_BYTES && f.stamp == ph.stamp && |f.bytes| == ph.size
      && canon(ph.buf)
    case Fail(why) => !Terminal(ph) && (why.Missing? ==> ph.Opening? && Final(call.key) !in s.dir)
    case Kill => !Terminal(ph)
  }

  function StartPhase(call: Call): Phase { if call.Write? then Homing else Opening }

  function Goto(s: State, p: Pid, ph: Phase): State
    requires p in s.procs
  {
    s.(procs := s.procs[p := s.procs[p].(phase := ph)])
  }

  function Stop(s: State, p: Pid, ph: Phase): State
    requires p in s.procs
  {
    var held := HoldsLock(s.procs[p].phase);
    Goto(s, p, ph).(lock := if held then None else s.lock)
  }

  function Touch(f: File): File { f.(stamp := f.stamp + 1) }

  ghost function HomeSynced(s: State, home: string): State {
    s.(durable := s.durable + (set k | k in s.bound && k.subject == home))
  }

  ghost function Effect(canon: Bytes -> bool, s: State, p: Pid, call: Call, ph: Phase, a: Action): State
    requires p in s.procs && s.procs[p] == Proc(call, ph) && CanDo(canon, s, call, ph, a)
  {
    match a
    case MakeHome => Goto(s, p, RootSyncing).(homes := s.homes + {call.key.subject})
    case FindHome => Goto(s, p, Started)
    case SyncRootOfHome => Goto(s, p, Started).(rooted := s.homes)
    case SeeExisting => Goto(s, p, ExistsSync)
    case SeeAbsent => Goto(s, p, Locking)
    case SyncExisting => Goto(HomeSynced(s, call.key.subject), p, Opening)
    case Acquire => Goto(s, p, Scanning({}, 0, 0)).(lock := Some(p))
    case ScanEntry(n) =>
      Goto(s, p, Scanning(ph.seen + {n}, ph.count + 1, ph.size + |s.files[s.dir[n]].bytes|))
    case ScanDone => Goto(s, p, Creating)
    case Create(token) =>
      Goto(s, p, Writing(token, |s.files|)).(
        dir := s.dir[Partial(call.key.subject, token) := |s.files|],
        files := s.files + [File([], 1, 0, false)])
    case Append(more) =>
      var f := s.files[ph.ino];
      s.(files := s.files[ph.ino := Touch(f).(bytes := f.bytes + call.raw[|f.bytes|..|f.bytes| + more])])
    case Flush =>
      Goto(s, p, Verifying(ph.token, ph.ino)).(files := s.files[ph.ino := s.files[ph.ino].(synced := true)])
    case Verify => Goto(s, p, Linking(ph.token, ph.ino))
    case Link =>
      var f := s.files[ph.ino];
      if Final(call.key) in s.dir then Goto(s, p, Unlinking(ph.token, ph.ino))
      else Goto(s, p, Unlinking(ph.token, ph.ino)).(
             dir := s.dir[Final(call.key) := ph.ino],
             files := s.files[ph.ino := Touch(f).(nlink := f.nlink + 1)],
             bound := s.bound[call.key := f.bytes])
    case Unlink =>
      var f := s.files[ph.ino];
      Goto(s, p, Syncing).(dir := s.dir - {Partial(call.key.subject, ph.token)},
                           files := s.files[ph.ino := Touch(f).(nlink := f.nlink - 1)])
    case SyncAndRelease => Goto(HomeSynced(s, call.key.subject), p, Opening).(lock := None)
    case Open => Goto(s, p, Opened(s.dir[Final(call.key)]))
    case Stat => Goto(s, p, Reading(ph.ino, |s.files[ph.ino].bytes|, s.files[ph.ino].stamp, []))
    case ReadChunk(more) =>
      Goto(s, p, ph.(buf := ph.buf + s.files[ph.ino].bytes[|ph.buf|..|ph.buf| + more]))
    case Finish => Goto(s, p, Returned(ph.buf))
    case Fail(why) => Stop(s, p, Raised(why))
    case Kill => Stop(s, p, Killed)
  }

  ghost predicate Enabled(canon: Bytes -> bool, s: State, e: Event) {
    match e
    case MakeRoot => s.root.Absent?
    case SyncParent => s.root.Made? && s.root.syncing
    case KillMaker => s.root.Made? && s.root.syncing
    case Spawn(p, call) =>
      // `raw` is canonical(value)
      !s.root.Absent? && p !in s.procs && (call.Write? ==> canon(call.raw))
    case Do(p, a) => p in s.procs && CanDo(canon, s, s.procs[p].call, s.procs[p].phase, a)
    case PowerLoss(gone, homes', dir', files') => LossAllowed(s, gone, homes', dir', files')
  }

  ghost function Apply(canon: Bytes -> bool, s: State, e: Event): State
    requires Enabled(canon, s, e)
  {
    match e
    case MakeRoot => s.(root := Made(true))
    case SyncParent => s.(root := Anchored)
    case KillMaker => s.(root := Made(false))
    case Spawn(p, call) => s.(procs := s.procs[p := Proc(call, StartPhase(call))])
    case Do(p, a) => Effect(canon, s, p, s.procs[p].call, s.procs[p].phase, a)
    case PowerLoss(gone, homes', dir', files') =>
      State(if gone then Absent else RootAfterLoss(s.root), homes', if gone then {} else s.rooted, dir', files', None,
            AfterLoss(s.procs), map k | k in s.bound && Final(k) in dir' :: s.bound[k],
            set k | k in s.durable && Final(k) in dir')
  }

  /** The state after a trace of events from the empty store, if every event was possible. */
  ghost function After(canon: Bytes -> bool, trace: seq<Event>): Option<State> {
    if trace == [] then Some(INIT)
    else
      var before := After(canon, trace[..|trace| - 1]);
      if before.Some? && Enabled(canon, before.value, trace[|trace| - 1])
      then Some(Apply(canon, before.value, trace[|trace| - 1]))
      else None
  }
}
