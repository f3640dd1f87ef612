/**
 What bounds the runs of backend/app/ceo_journey_store.py: what goes on after a loss of power, how large an artifact may
 be, and who makes a subject's directory.
 */
module JourneyStoreLosses {
  import opened Wrappers
  import opened Registers
  import opened JourneyStore
  import opened JourneyStoreSafety
  import opened JourneyStoreRuns

  /** A loss of power ends every call and every constructor: whatever happens next is a new root, a new call, or another
      loss. */
  lemma NothingGoesOn(canon: Bytes -> bool, s: State, loss: Event, next: Event)
    requires loss.PowerLoss? && Enabled(canon, s, loss) && Enabled(canon, Apply(canon, s, loss), next)
    ensures next.MakeRoot? || next.Spawn? || next.PowerLoss?
    ensures var t := Apply(canon, s, loss);
      && t.lock.None? && t.procs.Keys == s.procs.Keys && (next.Spawn? ==> !t.root.Absent?)
      && (t.root.Absent? <==> loss.gone || s.root.Absent?) && (t.root.Anchored? <==> s.root.Anchored?)
  {
  }

  /** The calls that had ended keep their answers, and the others are killed. */
  lemma AnswersStay(canon: Bytes -> bool, s: State, loss: Event, p: Pid)
    requires loss.PowerLoss? && Enabled(canon, s, loss) && p in s.procs
    ensures var q := Apply(canon, s, loss).procs[p];
      && q.call == s.procs[p].call
      && q.phase == if Terminal(s.procs[p].phase) then s.procs[p].phase else Killed
  {
  }

  /** In every run, what a name stands for and what a call returns is canonical and has 1 to 262144 bytes. */
  lemma ArtifactsAreSized(canon: Bytes -> bool, trace: seq<Event>, k: Key)
    requires After(canon, trace).Some? && k in After(canon, trace).value.bound
    ensures canon(After(canon, trace).value.bound[k]) && 1 <= |After(canon, trace).value.bound[k]| <= 262_144
  {
    ReachableInv(canon, trace);
  }

  /** Without a loss of power a directory stays. */
  lemma {:induction false} HomeStays(canon: Bytes -> bool, trace: seq<Event>, m: nat, n: nat, subject: string)
    requires After(canon, trace).Some? && m <= n <= |trace| && NoLoss(trace[m..n])
    requires After(canon, trace[..m]).Some? && subject in After(canon, trace[..m]).value.homes
    ensures After(canon, trace[..n]).Some? && subject in After(canon, trace[..n]).value.homes
    decreases n
  {
    hide After, Enabled, Apply, Inv;
    if m < n {
      assert trace[m..n - 1] == trace[m..n][..n - 1 - m];
      HomeStays(canon, trace, m, n - 1, subject);
      Prefixes(canon, trace, n);
      assert trace[m..n][n - 1 - m] == trace[n - 1] && !trace[n - 1].PowerLoss?;
      HomeStep(canon, After(canon, trace[..n - 1]).value, trace[n - 1], subject);
    }
  }

  lemma HomeStep(canon: Bytes -> bool, s: State, e: Event, subject: string)
    requires Enabled(canon, s, e) && !e.PowerLoss? && subject in s.homes
    ensures subject in Apply(canon, s, e).homes
  {
  }

  /** This event makes the subject's directory. */
  ghost predicate Makes(canon: Bytes -> bool, trace: seq<Event>, m: nat, subject: string) {
    && 0 < m <= |trace| && trace[m - 1].Do? && trace[m - 1].action.MakeHome?
    && After(canon, trace[..m - 1]).Some?
    && var before := After(canon, trace[..m - 1]).value;
    && trace[m - 1].pid in before.procs && before.procs[trace[m - 1].pid].call.key.subject == subject
  }

  lemma MakingMakes(canon: Bytes -> bool, s: State, e: Event)
    requires Enabled(canon, s, e) && e.Do? && e.action.MakeHome?
    ensures e.pid in s.procs && s.procs[e.pid].call.key.subject !in s.homes
    ensures s.procs[e.pid].call.key.subject in Apply(canon, s, e).homes
  {
  }

  /** Two makings of one directory have a loss of power between them: everybody else finds it. */
  lemma MadeOnce(canon: Bytes -> bool, trace: seq<Event>, m: nat, n: nat, subject: string)
    requires After(canon, trace).Some? && m < n && Makes(canon, trace, m, subject) && Makes(canon, trace, n, subject)
    ensures !NoLoss(trace[m..n - 1])
  {
    hide After, Enabled, Apply, Inv;
    Prefixes(canon, trace, m);
    Prefixes(canon, trace, n);
    MakingMakes(canon, After(canon, trace[..m - 1]).value, trace[m - 1]);
    MakingMakes(canon, After(canon, trace[..n - 1]).value, trace[n - 1]);
    if NoLoss(trace[m..n - 1]) { HomeStays(canon, trace, m, n - 1, subject); }
  }

  // ---------------------------------------------------------------- the root

  /** At `i` the root is made, and its maker is neither killed nor lost in the events after that, up to `n`. */
  predicate MakerLives(trace: seq<Event>, i: nat, n: nat) {
    && i < n <= |trace| && trace[i].MakeRoot?
    && forall k :: i < k < n ==> !trace[k].KillMaker? && !trace[k].PowerLoss? && !trace[k].MakeRoot?
  }

  /** The entry of the root has been synced by the very constructor that made it. */
  predicate AnchoredByMaker(trace: seq<Event>, i: nat, j: nat) {
    j < |trace| && trace[j].SyncParent? && MakerLives(trace, i, j)
  }

  ghost predicate RootFits(root: Root, trace: seq<Event>) {
    && (root == Made(true) ==> exists i: nat :: MakerLives(trace, i, |trace|))
    && (root.Anchored? ==> exists i: nat, j: nat :: AnchoredByMaker(trace, i, j))
  }

  lemma DoKeepsRoot(canon: Bytes -> bool, s: State, p: Pid, a: Action)
    requires Enabled(canon, s, Do(p, a))
    ensures Apply(canon, s, Do(p, a)).root == s.root
  {
    var t := Effect(canon, s, p, s.procs[p].call, s.procs[p].phase, a);
    assert t.root == s.root by { hide CanDo; }
  }

  lemma RootStep(canon: Bytes -> bool, s: State, e: Event)
    requires Enabled(canon, s, e)
    ensures var t := Apply(canon, s, e);
      && (t.root == Made(true) ==>
            e.MakeRoot? || (s.root == Made(true) && !e.KillMaker? && !e.PowerLoss? && !e.MakeRoot?))
      && (t.root.Anchored? ==> s.root.Anchored? || (e.SyncParent? && s.root == Made(true)))
  {
    if e.Do? { DoKeepsRoot(canon, s, e.pid, e.action); }
    hide Effect, CanDo, LossAllowed, AfterLoss;
  }

  lemma LivesLonger(trace: seq<Event>)
    requires trace != []
    ensures var n := |trace| - 1; var e := trace[n];
      && (e.MakeRoot? ==> MakerLives(trace, n, n + 1))
      && (forall i: nat :: MakerLives(trace[..n], i, n) && !e.KillMaker? && !e.PowerLoss? && !e.MakeRoot? ==>
            MakerLives(trace, i, n + 1))
      && (forall i: nat :: MakerLives(trace[..n], i, n) && e.SyncParent? ==> AnchoredByMaker(trace, i, n))
  {
  }

  lemma StaysAnchored(trace: seq<Event>, i: nat, j: nat)
    requires trace != [] && AnchoredByMaker(trace[..|trace| - 1], i, j)
    ensures AnchoredByMaker(trace, i, j)
  {
  }

  /** In every run, the root's entry is covered only by the constructor that made the root: one that finds it, or comes
      after the maker was killed, syncs nothing above it. */
  lemma {:induction false} AnchoredOnlyByItsMaker(canon: Bytes -> bool, trace: seq<Event>)
    requires After(canon, trace).Some?
    ensures RootFits(After(canon, trace).value.root, trace)
    decreases |trace|
  {
    hide Enabled, Apply, MakerLives, AnchoredByMaker;
    if trace != [] {
      var n := |trace| - 1;
      AnchoredOnlyByItsMaker(canon, trace[..n]);
      RootStep(canon, After(canon, trace[..n]).value, trace[n]);
      LivesLonger(trace);
      if i: nat, j: nat :| AnchoredByMaker(trace[..n], i, j) { StaysAnchored(trace, i, j); }
    }
  }

  /** A maker killed before its sync leaves a root that nobody ever syncs: it stays so until a loss of power. */
  lemma {:induction false} KilledMakerLeavesItUncovered(canon: Bytes -> bool, trace: seq<Event>)
    requires After(canon, [MakeRoot, KillMaker] + trace).Some? && NoLoss(trace)
    ensures After(canon, [MakeRoot, KillMaker] + trace).value.root == Made(false)
    ensures After(canon, [MakeRoot, KillMaker]).Some?
    decreases |trace|
  {
    MakerKilled(canon);
    var all := [MakeRoot, KillMaker] + trace;
    if trace == [] {
      assert all == [MakeRoot, KillMaker];
    } else {
      var n := |trace| - 1;
      assert all[..|all| - 1] == [MakeRoot, KillMaker] + trace[..n];
      KilledMakerLeavesItUncovered(canon, trace[..n]);
      assert all[|all| - 1] == trace[n];
      UncoveredStep(canon, After(canon, all[..|all| - 1]).value, trace[n]);
    }
  }

  lemma MakerKilled(canon: Bytes -> bool)
    ensures After(canon, [MakeRoot, KillMaker]).Some?
    ensures After(canon, [MakeRoot, KillMaker]).value.root == Made(false)
  {
    assert After(canon, []) == Some(INIT);
    assert [MakeRoot][..0] == [];
    assert After(canon, [MakeRoot]) == Some(INIT.(root := Made(true)));
    assert [MakeRoot, KillMaker][..1] == [MakeRoot];
  }

  lemma UncoveredStep(canon: Bytes -> bool, s: State, e: Event)
    requires Enabled(canon, s, e) && s.root == Made(false) && !e.PowerLoss?
    ensures Apply(canon, s, e).root == Made(false)
  {
    if e.Do? { DoKeepsRoot(canon, s, e.pid, e.action); }
    hide Effect, CanDo, LossAllowed, AfterLoss;
  }
}
