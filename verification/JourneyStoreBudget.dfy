/** The store's file and byte limits, in every reachable state. */
module JourneyStoreBudget {
  import opened Wrappers
  import opened JourneyStore
  import opened JourneyStoreSafety
  import opened JourneyStoreRuns

  // ---------------------------------------------------------------- sums over inodes

  lemma {:induction false} SizeAgree(f: seq<File>, g: seq<File>, s: set<nat>, n: nat)
    requires n <= |f| && n <= |g|
    requires forall i :: 0 <= i < n && i in s ==> |f[i].bytes| == |g[i].bytes|
    ensures SizeIn(f, s, n) == SizeIn(g, s, n)
  {
    if n > 0 { SizeAgree(f, g, s, n - 1); }
  }

  lemma {:induction false} SizeMono(f: seq<File>, s: set<nat>, t: set<nat>, n: nat)
    requires n <= |f| && s <= t
    ensures SizeIn(f, s, n) <= SizeIn(f, t, n)
  {
    if n > 0 { SizeMono(f, s, t, n - 1); }
  }

  lemma {:induction false} SizeAdd(f: seq<File>, s: set<nat>, i: nat, n: nat)
    requires n <= |f| && i !in s
    ensures SizeIn(f, s + {i}, n) == SizeIn(f, s, n) + (if i < n then |f[i].bytes| else 0)
  {
    if n > 0 { SizeAdd(f, s, i, n - 1); }
  }

  lemma {:induction false} SizeChange(f: seq<File>, g: File, s: set<nat>, i: nat, n: nat)
    requires n <= |f| && i < |f| && i in s
    ensures SizeIn(f[i := g], s, n) == SizeIn(f, s, n) + (if i < n then |g.bytes| - |f[i].bytes| else 0)
  {
    if n > 0 { SizeChange(f, g, s, i, n - 1); }
  }

  lemma {:induction false} SizeNone(f: seq<File>, n: nat)
    requires n <= |f|
    ensures SizeIn(f, {}, n) == 0
  {
    if n > 0 { SizeNone(f, n - 1); }
  }

  // ---------------------------------------------------------------- the invariant

  ghost predicate ScanOk(s: State, added: nat, seen: set<Name>, count: nat, size: nat) {
    && seen <= s.dir.Keys
    && (forall n :: n in seen ==> NamesOf(s.dir, s.dir[n]) == {n})
    && count == |Inos(s.dir, seen)|
    && size == SizeIn(s.files, Inos(s.dir, seen), |s.files|)
    && (seen == {} || (count < MAX_FILES && size + added <= MAX_STORE_BYTES))
  }

  /** What a writer has reserved between the end of its scan and the last byte it writes. */
  ghost predicate Reserved(s: State, call: Call, ph: Phase)
    requires call.Write?
  {
    match ph
    case Scanning(seen, count, size) => ScanOk(s, |call.raw|, seen, count, size)
    case Creating => |LiveInos(s.dir)| + 1 <= MAX_FILES && StoreBytes(s) + |call.raw| <= MAX_STORE_BYTES
    case Writing(_, i) =>
      && i < |s.files| && |s.files[i].bytes| <= |call.raw|
      && StoreBytes(s) + (|call.raw| - |s.files[i].bytes|) <= MAX_STORE_BYTES
    case _ => true
  }

  ghost predicate WithinLimits(s: State) {
    |LiveInos(s.dir)| <= MAX_FILES && StoreBytes(s) <= MAX_STORE_BYTES
  }

  /** Every reservation is covered; `strict` adds that the store is within its limits now. */
  ghost predicate BudgetInv(strict: bool, s: State) {
    && (strict ==> WithinLimits(s))
    && (forall p :: p in s.procs && s.procs[p].call.Write? ==> Reserved(s, s.procs[p].call, s.procs[p].phase))
  }

  // ---------------------------------------------------------------- preservation

  /** A name that is the only one of its inode adds a new inode to those of other such names. */
  lemma SoleNameIsNew(dir: map<Name, nat>, seen: set<Name>, n: Name)
    requires n in dir && n !in seen && NamesOf(dir, dir[n]) == {n}
    requires forall m :: m in seen && m in dir ==> NamesOf(dir, dir[m]) == {m}
    ensures dir[n] !in Inos(dir, seen) && Inos(dir, seen + {n}) == Inos(dir, seen) + {dir[n]}
  {
    forall m | m in seen && m in dir ensures dir[m] != dir[n] {
      assert m in NamesOf(dir, dir[m]);
    }
  }

  lemma ScanEntryIs(canon: Bytes -> bool, s: State, p: Pid, n: Name)
    requires Inv(canon, s) && Enabled(canon, s, Do(p, ScanEntry(n)))
    ensures var ph := s.procs[p].phase;
      && s.procs[p].call.Write? && ph.Scanning? && n in s.dir && n !in ph.seen && s.dir[n] < |s.files|
      && NamesOf(s.dir, s.dir[n]) == {n}
      && ph.count + 1 < MAX_FILES
      && ph.size + |s.files[s.dir[n]].bytes| + |s.procs[p].call.raw| <= MAX_STORE_BYTES
      && Apply(canon, s, Do(p, ScanEntry(n))).procs[p].phase
         == Scanning(ph.seen + {n}, ph.count + 1, ph.size + |s.files[s.dir[n]].bytes|)
  {
    SoleName(s, s.dir[n], n);
  }

  lemma ScanOkNext(s: State, added: nat, seen: set<Name>, count: nat, size: nat, n: Name)
    requires ScanOk(s, added, seen, count, size)
    requires n in s.dir && n !in seen && s.dir[n] < |s.files| && NamesOf(s.dir, s.dir[n]) == {n}
    requires count + 1 < MAX_FILES && size + |s.files[s.dir[n]].bytes| + added <= MAX_STORE_BYTES
    ensures ScanOk(s, added, seen + {n}, count + 1, size + |s.files[s.dir[n]].bytes|)
  {
    SoleNameIsNew(s.dir, seen, n);
    SizeAdd(s.files, Inos(s.dir, seen), s.dir[n], |s.files|);
  }

  /** One entry of the scan: a file not counted yet, since a single-link file has no other name. */
  lemma ScanStep(strict: bool, canon: Bytes -> bool, s: State, p: Pid, n: Name)
    requires Inv(canon, s) && BudgetInv(strict, s) && Enabled(canon, s, Do(p, ScanEntry(n)))
    ensures var ph := Apply(canon, s, Do(p, ScanEntry(n))).procs[p].phase;
      ScanOk(s, |s.procs[p].call.raw|, ph.seen, ph.count, ph.size)
  {
    ScanEntryIs(canon, s, p, n);
    hide Inv, Enabled, Apply, ScanOk;
    var call, ph := s.procs[p].call, s.procs[p].phase;
    assert Reserved(s, call, ph);
    ScanOkNext(s, |call.raw|, ph.seen, ph.count, ph.size, n);
  }

  /** A completed scan is the whole-store check: it has counted every file and every byte.
      An empty store is never checked, and needs no check. */
  lemma ScanComplete(strict: bool, canon: Bytes -> bool, s: State, p: Pid)
    requires Inv(canon, s) && BudgetInv(strict, s) && Enabled(canon, s, Do(p, ScanDone))
    ensures Reserved(s, s.procs[p].call, Creating)
    ensures forall n :: n in s.dir ==> s.files[s.dir[n]].nlink == 1
  {
    var call, ph := s.procs[p].call, s.procs[p].phase;
    assert PhaseOk(canon, s, call, ph);
    assert Reserved(s, call, ph);
    if s.dir.Keys == {} {
      assert LiveInos(s.dir) == {};
      SizeNone(s.files, |s.files|);
    }
    forall n | n in s.dir ensures s.files[s.dir[n]].nlink == 1 {
      assert NamesOf(s.dir, s.dir[n]) == {n};
    }
  }

  /** Quiet steps outside the scan lead to phases that reserve nothing. */
  lemma OtherReservesNothing(canon: Bytes -> bool, s: State, p: Pid, a: Action)
    requires Enabled(canon, s, Do(p, a)) && Quiet(a) && !a.ScanEntry? && !a.ScanDone? && !a.Acquire?
    ensures var ph := Apply(canon, s, Do(p, a)).procs[p].phase; !ph.Scanning? && !ph.Creating? && !ph.Writing?
  {
  }

  lemma QuietOwnReserve(strict: bool, canon: Bytes -> bool, s: State, p: Pid, a: Action)
    requires Inv(canon, s) && BudgetInv(strict, s) && Enabled(canon, s, Do(p, a)) && Quiet(a) && s.procs[p].call.Write?
    ensures Reserved(s, s.procs[p].call, Apply(canon, s, Do(p, a)).procs[p].phase)
  {
    if a.ScanEntry? {
      ScanStep(strict, canon, s, p, a.name);
    } else if a.ScanDone? {
      ScanComplete(strict, canon, s, p);
    } else if a.Acquire? {
      assert Inos(s.dir, {}) == {};
      SizeNone(s.files, |s.files|);
    } else {
      OtherReservesNothing(canon, s, p, a);
    }
  }

  lemma SameReserve(s: State, after: State, call: Call, ph: Phase)
    requires call.Write? && after.dir == s.dir && after.files == s.files && Reserved(s, call, ph)
    ensures Reserved(after, call, ph)
  {
  }

  lemma QuietKeepsBudget(strict: bool, canon: Bytes -> bool, s: State, p: Pid, a: Action)
    requires Inv(canon, s) && BudgetInv(strict, s) && Enabled(canon, s, Do(p, a)) && Quiet(a)
    ensures BudgetInv(strict, Apply(canon, s, Do(p, a)))
  {
    QuietMoves(canon, s, p, a);
    var after := Apply(canon, s, Do(p, a));
    if s.procs[p].call.Write? { QuietOwnReserve(strict, canon, s, p, a); }
    forall q | q in after.procs && after.procs[q].call.Write?
      ensures Reserved(after, after.procs[q].call, after.procs[q].phase)
    {
      SameReserve(s, after, after.procs[q].call, after.procs[q].phase);
    }
  }

  /** A step that changes the directory or a file is taken by the only process holding the lock,
      so nobody else has a reservation. */
  lemma OthersReserveNothing(strict: bool, canon: Bytes -> bool, s: State, after: State, p: Pid)
    requires Inv(canon, s) && BudgetInv(strict, s) && p in s.procs && s.lock == Some(p)
    requires after.procs.Keys == s.procs.Keys && after.procs[p].call == s.procs[p].call
    requires forall q :: q in s.procs && q != p ==> after.procs[q] == s.procs[q]
    requires after.procs[p].call.Write? ==> Reserved(after, after.procs[p].call, after.procs[p].phase)
    requires strict ==> WithinLimits(after)
    ensures BudgetInv(strict, after)
  {
    forall q | q in after.procs && after.procs[q].call.Write?
      ensures Reserved(after, after.procs[q].call, after.procs[q].phase)
    {
      if q != p { assert HoldsLock(s.procs[q].phase) ==> s.lock == Some(q); }
    }
  }

  /** A new directory entry for a new inode adds exactly that inode. */
  lemma NewInode(dir: map<Name, nat>, name: Name, ino: nat)
    requires name !in dir && forall n :: n in dir ==> dir[n] < ino
    ensures LiveInos(dir[name := ino]) == LiveInos(dir) + {ino} && ino !in LiveInos(dir)
  {
    var dir' := dir[name := ino];
    forall i ensures i in LiveInos(dir') <==> i in LiveInos(dir) + {ino} {
      if i in LiveInos(dir) { var n :| n in dir && dir[n] == i; assert n in dir' && dir'[n] == i; }
      assert name in dir' && dir'[name] == ino;
    }
  }

  lemma NewFileSize(files: seq<File>, live: set<nat>, file: File)
    requires |file.bytes| == 0 && |files| !in live
    ensures SizeIn(files + [file], live + {|files|}, |files| + 1) == SizeIn(files, live, |files|)
  {
    SizeAdd(files + [file], live, |files|, |files| + 1);
    SizeAgree(files + [file], files, live, |files|);
  }

  lemma CreateReserves(strict: bool, canon: Bytes -> bool, s: State, p: Pid, a: Action)
    requires Inv(canon, s) && BudgetInv(strict, s) && Enabled(canon, s, Do(p, a)) && a.Create?
    ensures var after := Apply(canon, s, Do(p, a));
      && s.procs[p].call.Write? && Reserved(after, s.procs[p].call, after.procs[p].phase) && WithinLimits(after)
  {
    var call := s.procs[p].call;
    assert PhaseOk(canon, s, call, s.procs[p].phase);
    assert Reserved(s, call, s.procs[p].phase);
    NewInode(s.dir, Partial(call.key.subject, a.token), |s.files|);
    NewFileSize(s.files, LiveInos(s.dir), File([], 1, 0, false));
  }

  lemma CreateKeepsBudget(strict: bool, canon: Bytes -> bool, s: State, p: Pid, a: Action)
    requires Inv(canon, s) && BudgetInv(strict, s) && Enabled(canon, s, Do(p, a)) && a.Create?
    ensures BudgetInv(strict, Apply(canon, s, Do(p, a)))
  {
    hide PhaseOk, Published, Links, Effect, CanDo, Reserved, WithinLimits;
    CreateReserves(strict, canon, s, p, a);
    FileStepMoves(canon, s, p, a);
    OthersReserveNothing(strict, canon, s, Apply(canon, s, Do(p, a)), p);
  }

  lemma FileStepKeepsBudget(strict: bool, canon: Bytes -> bool, s: State, p: Pid, a: Action)
    requires Inv(canon, s) && BudgetInv(strict, s) && Enabled(canon, s, Do(p, a)) && (a.Append? || a.Flush?)
    ensures BudgetInv(strict, Apply(canon, s, Do(p, a)))
  {
    var after := Apply(canon, s, Do(p, a));
    var call, ph := s.procs[p].call, s.procs[p].phase;
    assert PhaseOk(canon, s, call, ph);
    assert Reserved(s, call, ph);
    assert Partial(call.key.subject, ph.token) in NamesOf(s.dir, ph.ino);
    assert ph.ino in LiveInos(s.dir);
    SizeChange(s.files, after.files[ph.ino], LiveInos(s.dir), ph.ino, |s.files|);
    OthersReserveNothing(strict, canon, s, after, p);
  }

  /** A link or an unlink adds no file. */
  lemma LinkStepShrinks(canon: Bytes -> bool, s: State, p: Pid, a: Action)
    requires Inv(canon, s) && Enabled(canon, s, Do(p, a)) && (a.Link? || a.Unlink?)
    ensures var after := Apply(canon, s, Do(p, a));
      && LiveInos(after.dir) <= LiveInos(s.dir) && |after.files| == |s.files|
      && (forall i :: 0 <= i < |s.files| ==> after.files[i].bytes == s.files[i].bytes)
      && !after.procs[p].phase.Scanning? && !after.procs[p].phase.Creating? && !after.procs[p].phase.Writing?
  {
    var after := Apply(canon, s, Do(p, a));
    var call, ph := s.procs[p].call, s.procs[p].phase;
    assert PhaseOk(canon, s, call, ph);
    var temp := Partial(call.key.subject, ph.token);
    assert temp in NamesOf(s.dir, ph.ino);
    forall i | i in LiveInos(after.dir) ensures i in LiveInos(s.dir) {
      var n :| n in after.dir && after.dir[n] == i;
      if n !in s.dir { assert temp in s.dir; }
    }
  }

  lemma LinkStepKeepsBudget(strict: bool, canon: Bytes -> bool, s: State, p: Pid, a: Action)
    requires Inv(canon, s) && BudgetInv(strict, s) && Enabled(canon, s, Do(p, a)) && (a.Link? || a.Unlink?)
    ensures BudgetInv(strict, Apply(canon, s, Do(p, a)))
  {
    hide PhaseOk, Published, Links, Effect, CanDo;
    var after := Apply(canon, s, Do(p, a));
    LinkStepShrinks(canon, s, p, a);
    FileStepMoves(canon, s, p, a);
    Subset(LiveInos(after.dir), LiveInos(s.dir));
    SizeAgree(after.files, s.files, LiveInos(after.dir), |s.files|);
    SizeMono(s.files, LiveInos(after.dir), LiveInos(s.dir), |s.files|);
    OthersReserveNothing(strict, canon, s, after, p);
  }

  lemma Subset(a: set<nat>, b: set<nat>)
    requires a <= b
    ensures |a| <= |b|
  {
    assert b == a + (b - a);
  }

  lemma RootKeepsBudget(strict: bool, canon: Bytes -> bool, s: State, e: Event)
    requires BudgetInv(strict, s) && Enabled(canon, s, e) && (e.MakeRoot? || e.SyncParent? || e.KillMaker?)
    ensures BudgetInv(strict, Apply(canon, s, e))
  {
    var after := Apply(canon, s, e);
    forall q | q in after.procs && after.procs[q].call.Write?
      ensures Reserved(after, after.procs[q].call, after.procs[q].phase)
    {
      SameReserve(s, after, after.procs[q].call, after.procs[q].phase);
    }
  }

  lemma StepKeepsBudget(strict: bool, canon: Bytes -> bool, s: State, e: Event)
    requires Inv(canon, s) && BudgetInv(strict, s) && Enabled(canon, s, e) && !e.PowerLoss?
    ensures BudgetInv(strict, Apply(canon, s, e))
  {
    match e
    case MakeRoot => RootKeepsBudget(strict, canon, s, e);
    case SyncParent => RootKeepsBudget(strict, canon, s, e);
    case KillMaker => RootKeepsBudget(strict, canon, s, e);
    case Spawn(p, call) =>
      var after := Apply(canon, s, e);
      forall q | q in after.procs && after.procs[q].call.Write?
        ensures Reserved(after, after.procs[q].call, after.procs[q].phase)
      {
        if q != p { assert Reserved(s, s.procs[q].call, s.procs[q].phase); }
      }
    case Do(p, a) =>
      assert PhaseOk(canon, s, s.procs[p].call, s.procs[p].phase);
      if Quiet(a) { QuietKeepsBudget(strict, canon, s, p, a); }
      else if a.Create? { CreateKeepsBudget(strict, canon, s, p, a); }
      else if a.Append? || a.Flush? { FileStepKeepsBudget(strict, canon, s, p, a); }
      else { LinkStepKeepsBudget(strict, canon, s, p, a); }
  }

  /** A loss of power ends every reservation with its process. */
  lemma LossKeepsReservations(canon: Bytes -> bool, s: State, e: Event)
    requires Enabled(canon, s, e) && e.PowerLoss?
    ensures BudgetInv(false, Apply(canon, s, e))
  {
  }

  lemma {:induction false} ReachableBudget(strict: bool, canon: Bytes -> bool, trace: seq<Event>)
    requires After(canon, trace).Some? && (strict ==> NoLoss(trace))
    ensures BudgetInv(strict, After(canon, trace).value)
  {
    if trace == [] {
      assert LiveInos(INIT.dir) == {};
    } else {
      var before, last := trace[..|trace| - 1], trace[|trace| - 1];
      ReachableInv(canon, before);
      ReachableBudget(strict, canon, before);
      if last.PowerLoss? {
        LossKeepsReservations(canon, After(canon, before).value, last);
      } else {
        StepKeepsBudget(strict, canon, After(canon, before).value, last);
      }
    }
  }

  /** With any number of power losses, a machine may come back with more than the limits; but no write is
      admitted until the store has room again: whoever is past its scan, about to create a file, leaves the
      store within both limits even when its own bytes are added. */
  lemma AdmittedWithinLimits(canon: Bytes -> bool, trace: seq<Event>)
    requires After(canon, trace).Some?
    ensures var s := After(canon, trace).value;
      forall p :: p in s.procs && s.procs[p].phase.Creating? ==>
        && s.procs[p].call.Write? && |LiveInos(s.dir)| + 1 <= MAX_FILES
        && StoreBytes(s) + |s.procs[p].call.raw| <= MAX_STORE_BYTES
  {
    ReachableInv(canon, trace);
    ReachableBudget(false, canon, trace);
    var s := After(canon, trace).value;
    forall p | p in s.procs && s.procs[p].phase.Creating?
      ensures s.procs[p].call.Write? && |LiveInos(s.dir)| + 1 <= MAX_FILES
      ensures StoreBytes(s) + |s.procs[p].call.raw| <= MAX_STORE_BYTES
    {
      assert PhaseOk(canon, s, s.procs[p].call, s.procs[p].phase);
      assert Reserved(s, s.procs[p].call, s.procs[p].phase);
    }
  }

  /** In every reachable state, in the middle of writes and after any callers were killed, the store
      holds at most MAX_FILES distinct files and at most MAX_STORE_BYTES bytes. */
  lemma NeverOverBudget(canon: Bytes -> bool, trace: seq<Event>)
    requires After(canon, trace).Some? && NoLoss(trace)
    ensures var s := After(canon, trace).value;
      |LiveInos(s.dir)| <= MAX_FILES && StoreBytes(s) <= MAX_STORE_BYTES
  {
    ReachableBudget(true, canon, trace);
  }

  // ---------------------------------------------------------------- the scan as the source writes it

  datatype Entry = Entry(nlink: nat, size: nat)
  /** What iterating over the store's root meets: the lock file, an owner's directory, anything else. */
  datatype RootEntry = LockFile | Home(entries: seq<Entry>) | Foreign

  predicate EntryOk(e: Entry) { e.nlink == 1 && e.size <= MAX_BYTES }

  function EntriesIn(root: seq<RootEntry>): seq<Entry> {
    if root == [] then []
    else EntriesIn(root[..|root| - 1]) +
         (if root[|root| - 1].Home? then root[|root| - 1].entries else [])
  }

  function TotalSize(entries: seq<Entry>): nat {
    if entries == [] then 0 else TotalSize(entries[..|entries| - 1]) + entries[|entries| - 1].size
  }

  /** The whole-store check the budget stands for. */
  predicate Admits(root: seq<RootEntry>, added: nat) {
    var entries := EntriesIn(root);
    && |root| <= MAX_FILES + 1
    && (forall i :: 0 <= i < |root| ==> !root[i].Foreign?)
    && (forall i :: 0 <= i < |entries| ==> EntryOk(entries[i]))
    && (entries == [] || (|entries| < MAX_FILES && TotalSize(entries) + added <= MAX_STORE_BYTES))
  }

  predicate BelowLimits(entries: seq<Entry>, added: nat) {
    entries == [] || (|entries| < MAX_FILES && TotalSize(entries) + added <= MAX_STORE_BYTES)
  }

  lemma {:induction false} TotalSizeConcat(a: seq<Entry>, b: seq<Entry>)
    ensures TotalSize(a + b) == TotalSize(a) + TotalSize(b)
  {
    if b == [] {
      assert a + b == a;
    } else {
      assert (a + b)[..|a + b| - 1] == a + b[..|b| - 1];
      TotalSizeConcat(a, b[..|b| - 1]);
    }
  }

  lemma {:induction false} EntriesSplit(root: seq<RootEntry>, n: nat)
    requires n <= |root|
    ensures exists rest :: EntriesIn(root) == EntriesIn(root[..n]) + rest
    decreases |root| - n
  {
    if n == |root| {
      assert root[..n] == root;
      assert EntriesIn(root) == EntriesIn(root[..n]) + [];
    } else {
      EntriesSplit(root, n + 1);
      var rest :| EntriesIn(root) == EntriesIn(root[..n + 1]) + rest;
      assert root[..n + 1][..n] == root[..n];
      var own := if root[n].Home? then root[n].entries else [];
      assert EntriesIn(root) == EntriesIn(root[..n]) + (own + rest);
    }
  }

  /** The entries met once `k` of home `home` have been looked at. */
  function Met(root: seq<RootEntry>, home: nat, k: nat): seq<Entry>
    requires home < |root| && root[home].Home? && k <= |root[home].entries|
  {
    EntriesIn(root[..home]) + root[home].entries[..k]
  }

  lemma MetIsPrefix(root: seq<RootEntry>, home: nat, k: nat) returns (rest: seq<Entry>)
    requires home < |root| && root[home].Home? && k <= |root[home].entries|
    ensures EntriesIn(root) == Met(root, home, k) + rest
  {
    EntriesSplit(root, home + 1);
    var later :| EntriesIn(root) == EntriesIn(root[..home + 1]) + later;
    assert root[..home + 1][..home] == root[..home];
    var entries := root[home].entries;
    assert entries == entries[..k] + entries[k..];
    rest := entries[k..] + later;
    assert EntriesIn(root[..home]) + (entries[..k] + entries[k..]) + later == Met(root, home, k) + rest;
  }

  lemma LimitsOfPrefix(met: seq<Entry>, rest: seq<Entry>, added: nat)
    requires met != [] && BelowLimits(met + rest, added)
    ensures BelowLimits(met, added)
  {
    TotalSizeConcat(met, rest);
  }

  /** A listing one of whose prefixes is refused is refused as a whole. */
  lemma PrefixRefused(root: seq<RootEntry>, home: nat, k: nat, added: nat)
    requires home < |root| && root[home].Home? && 0 < k <= |root[home].entries|
    requires var met := Met(root, home, k); !EntryOk(met[|met| - 1]) || !BelowLimits(met, added)
    ensures !Admits(root, added)
  {
    var met := Met(root, home, k);
    var rest := MetIsPrefix(root, home, k);
    assert EntriesIn(root)[|met| - 1] == met[|met| - 1];
    hide EntriesIn, Met, TotalSize;
    if BelowLimits(EntriesIn(root), added) { LimitsOfPrefix(met, rest, added); }
  }

  /** What the loops know of the entries they have met. */
  predicate Counted(met: seq<Entry>, count: nat, size: nat, added: nat) {
    && count == |met| && size == TotalSize(met) && BelowLimits(met, added)
    && (forall i :: 0 <= i < |met| ==> EntryOk(met[i]))
  }

  lemma CountOne(met: seq<Entry>, item: Entry, count: nat, size: nat, added: nat)
    requires Counted(met, count, size, added)
    ensures TotalSize(met + [item]) == size + item.size
    ensures Counted(met + [item], count + 1, size + item.size, added) <==>
            EntryOk(item) && count + 1 < MAX_FILES && size + item.size + added <= MAX_STORE_BYTES
  {
    var more := met + [item];
    assert more[..|more| - 1] == met;
    assert more[|more| - 1] == item;
  }

  /** One more entry of a home is within the limits, or the whole store is not. */
  lemma NextEntry(root: seq<RootEntry>, home: nat, k: nat, count: nat, size: nat, added: nat)
    requires home < |root| && root[home].Home? && k < |root[home].entries|
    requires Counted(Met(root, home, k), count, size, added)
    ensures var item := root[home].entries[k];
      if EntryOk(item) && count + 1 < MAX_FILES && size + item.size + added <= MAX_STORE_BYTES
      then Counted(Met(root, home, k + 1), count + 1, size + item.size, added)
      else !Admits(root, added)
  {
    var met, item := Met(root, home, k), root[home].entries[k];
    CountOne(met, item, count, size, added);
    assert met + [item] == Met(root, home, k + 1);
    if !Counted(met + [item], count + 1, size + item.size, added) { PrefixRefused(root, home, k + 1, added); }
  }

  /** `write_budget` up to its `yield`: the short-circuiting loops decide exactly the whole-store check. */
  method WriteBudget(root: seq<RootEntry>, added: nat) returns (admitted: bool)
    ensures admitted <==> Admits(root, added)
  {
    var count: nat, size: nat := 0, 0;
    for home := 0 to |root|
      invariant home <= MAX_FILES + 1
      invariant forall i :: 0 <= i < home ==> !root[i].Foreign?
      invariant Counted(EntriesIn(root[..home]), count, size, added)
    {
      if home > MAX_FILES { return false; }
      assert root[..home + 1][..home] == root[..home];
      match root[home] {
        case LockFile =>
          assert EntriesIn(root[..home + 1]) == EntriesIn(root[..home]);
        case Foreign =>
          return false;
        case Home(entries) =>
          ghost var before := EntriesIn(root[..home]);
          assert before + entries[..0] == before;
          for k := 0 to |entries|
            invariant Counted(Met(root, home, k), count, size, added)
          {
            var item := entries[k];
            NextEntry(root, home, k, count, size, added);
            if item.nlink != 1 || item.size > MAX_BYTES { return false; }
            count, size := count + 1, size + item.size;
            if count >= MAX_FILES || size + added > MAX_STORE_BYTES { return false; }
          }
          assert entries[..|entries|] == entries;
          assert EntriesIn(root[..home + 1]) == before + entries;
      }
    }
    assert root[..|root|] == root;
    admitted := true;
  }
}
