/**
 What is pushed and what is refused, in terms of the objects and the trees themselves: chains of parents, advertised and
 replaced objects, paths and sizes. (`outgoing` and `captured` in scripts/publication_secret_scan.py.)
 */
module PublicationMeaning {
  import opened Publication

  // ---------------------------------------------------------------- ancestors

  /** Each commit of the line is a parent of the one before it. */
  predicate Descends(repo: Repo, line: seq<Oid>) {
    && line != [] && (forall i :: 0 <= i < |line| ==> line[i] in repo.commits)
    && forall i :: 0 <= i < |line| - 1 ==> line[i + 1] in repo.commits[line[i]].parents
  }

  predicate Links(repo: Repo, line: seq<Oid>, from: Oid, to: Oid) {
    Descends(repo, line) && line[0] == from && line[|line| - 1] == to
  }

  /** `c` is `from`, or a parent of it, or a parent of one of those, and so on. */
  ghost predicate Ancestor(repo: Repo, c: Oid, from: Oid) { exists line :: Links(repo, line, from, c) }

  lemma {:induction false} LineReaches(repo: Repo, line: seq<Oid>, from: Oid, c: Oid)
    requires Valid(repo) && from in repo.commits && Links(repo, line, from, c)
    ensures c in Reach(repo, from)
    decreases |line|
  {
    if |line| > 1 {
      var parents := repo.commits[from].parents;
      var i :| 0 <= i < |parents| && parents[i] == line[1];
      ParentsReached(repo, from, |parents|, i);
      LineReaches(repo, line[1..], line[1], c);
    }
  }

  lemma {:induction false} ReachHasLine(repo: Repo, from: Oid, c: Oid) returns (line: seq<Oid>)
    requires Valid(repo) && from in repo.commits && c in Reach(repo, from)
    ensures Links(repo, line, from, c)
    decreases repo.commits[from].rank
  {
    if c == from {
      line := [from];
    } else {
      var i := ThroughParent(repo, from, |repo.commits[from].parents|, c);
      var parent := repo.commits[from].parents[i];
      assert IsParent(repo, parent, from);
      var rest := ReachHasLine(repo, parent, c);
      line := [from] + rest;
    }
  }

  /** What is reachable is what a chain of parents leads to. */
  lemma ReachIff(repo: Repo, from: Oid, c: Oid)
    requires Valid(repo) && from in repo.commits
    ensures c in Reach(repo, from) <==> Ancestor(repo, c, from)
  {
    if c in Reach(repo, from) { var line := ReachHasLine(repo, from, c); }
    if line :| Links(repo, line, from, c) { LineReaches(repo, line, from, c); }
  }

  // ---------------------------------------------------------------- outgoing

  /** The object is known here and names a commit from which `c` descends. */
  ghost predicate Brings(repo: Repo, o: Oid, c: Oid) {
    o in repo.objects && repo.objects[o].Peels? && Ancestor(repo, c, repo.objects[o].commit)
  }

  /** The line pushes `c`: its object brings it, and no advertised object that is known here does, nor does the object
      that the line replaces. */
  ghost predicate Pushes(repo: Repo, advertised: seq<Oid>, u: Update, c: Oid) {
    && u.Update? && u.local.Some? && Brings(repo, u.local.value, c)
    && (forall k :: 0 <= k < |advertised| ==> !Brings(repo, advertised[k], c))
    && (u.replaced.Some? ==> !Brings(repo, u.replaced.value, c))
  }

  lemma BringsIff(repo: Repo, o: Oid, c: Oid)
    requires Valid(repo)
    ensures Brings(repo, o, c) <==> c in ReachAny(repo, CommitOf(repo, o))
  {
    if o in repo.objects && repo.objects[o].Peels? { ReachIff(repo, repo.objects[o].commit, c); }
  }

  lemma ReachUnion(repo: Repo, a: set<Oid>, b: set<Oid>)
    requires Valid(repo) && forall c :: c in a + b ==> c in repo.commits
    ensures ReachAny(repo, a + b) == ReachAny(repo, a) + ReachAny(repo, b)
  {
  }

  lemma TipsBring(repo: Repo, advertised: seq<Oid>, c: Oid)
    requires Valid(repo)
    ensures forall t :: t in KnownTips(repo, advertised) ==> t in repo.commits
    ensures c in ReachAny(repo, KnownTips(repo, advertised)) <==>
      exists k :: 0 <= k < |advertised| && Brings(repo, advertised[k], c)
  {
    forall k | 0 <= k < |advertised| ensures Brings(repo, advertised[k], c) <==>
      c in ReachAny(repo, CommitOf(repo, advertised[k]))
    {
      BringsIff(repo, advertised[k], c);
    }
    if c in ReachAny(repo, KnownTips(repo, advertised)) {
      var t :| t in KnownTips(repo, advertised) && c in Reach(repo, t);
      var k :| 0 <= k < |advertised| && t in CommitOf(repo, advertised[k]);
      assert c in ReachAny(repo, CommitOf(repo, advertised[k]));
    }
    if k :| 0 <= k < |advertised| && Brings(repo, advertised[k], c) {
      var t :| t in CommitOf(repo, advertised[k]) && c in Reach(repo, t);
      assert t in KnownTips(repo, advertised);
    }
  }

  lemma PushesIff(repo: Repo, advertised: seq<Oid>, u: Update, c: Oid)
    requires Valid(repo) && Live(u) && Resolvable(repo, u)
    requires forall t :: t in KnownTips(repo, advertised) ==> t in repo.commits
    ensures Pushes(repo, advertised, u, c) <==> c in RevList(repo, KnownTips(repo, advertised), u)
  {
    hide Brings, Valid, Reach;
    var tips := KnownTips(repo, advertised);
    BringsIff(repo, u.local.value, c);
    TipsBring(repo, advertised, c);
    if u.replaced.Some? {
      BringsIff(repo, u.replaced.value, c);
      ObjectsAreCommits(repo, u.replaced.value);
      ReachUnion(repo, tips, CommitOf(repo, u.replaced.value));
    } else {
      assert tips + {} == tips;
    }
  }

  lemma ObjectsAreCommits(repo: Repo, o: Oid)
    requires Valid(repo)
    ensures forall t :: t in CommitOf(repo, o) ==> t in repo.commits
  {
  }

  /** A commit is outgoing exactly when some line pushes it. */
  lemma OutgoingMeans(repo: Repo, advertised: seq<Oid>, updates: seq<Update>, c: Oid)
    requires Valid(repo) && WellFormed(repo, updates)
    ensures forall t :: t in KnownTips(repo, advertised) ==> t in repo.commits
    ensures c in Pushed(repo, KnownTips(repo, advertised), updates) <==>
      exists i :: 0 <= i < |updates| && Pushes(repo, advertised, updates[i], c)
  {
    TipsBring(repo, advertised, c);
    OutgoingIff(repo, KnownTips(repo, advertised), updates, c);
    hide RevList, Brings, Resolvable;
    forall i | 0 <= i < |updates| && Live(updates[i])
      ensures Resolvable(repo, updates[i]) &&
        (Pushes(repo, advertised, updates[i], c) <==> c in RevList(repo, KnownTips(repo, advertised), updates[i]))
    {
      PushesIff(repo, advertised, updates[i], c);
    }
  }

  /** The lines are refused exactly when one is malformed, or pushes or replaces an object that is not known here while
      it pushes something. */
  lemma RefusedIff(repo: Repo, updates: seq<Update>)
    ensures !WellFormed(repo, updates) <==>
      exists i :: 0 <= i < |updates| && (
        || updates[i].Malformed?
        || (updates[i].local.Some? &&
              (updates[i].local.value !in repo.objects
               || (updates[i].replaced.Some? && updates[i].replaced.value !in repo.objects))))
  {
    if !WellFormed(repo, updates) {
      var i :| 0 <= i < |updates| && (updates[i].Malformed? || (Live(updates[i]) && !Resolvable(repo, updates[i])));
    }
  }

  /** A commit leaves a path alone exactly when the path looks the same in it and in each of its parents, and is not
      there if it has none. */
  lemma UnchangedIff(repo: Repo, c: Oid, path: string)
    requires Valid(repo) && c in repo.commits
    ensures !Changes(repo, c, path) <==>
      && (repo.commits[c].parents == [] ==> path !in repo.commits[c].tree)
      && forall p :: p in repo.commits[c].parents ==>
           && p in repo.commits
           && (path in repo.commits[p].tree <==> path in repo.commits[c].tree)
           && (path in repo.commits[c].tree ==> repo.commits[p].tree[path] == repo.commits[c].tree[path])
  {
    var commit := repo.commits[c];
    assert forall i :: 0 <= i < |commit.parents| ==> IsParent(repo, commit.parents[i], c);
  }

  // ---------------------------------------------------------------- captured

  /** What a tree may hold at a changed path: nothing, or a regular file of at most 900000 characters; neither a
      directory, nor a symbolic link or a submodule. */
  predicate MayHold(tree: Tree, path: string) {
    if path in tree then (tree[path].mode.Plain? || tree[path].mode.Executable?) && |tree[path].content| <= 900_000
    else forall q :: q in tree ==> !(path + "/" <= q)
  }

  predicate Small(isText: string -> bool, s: string) { |s| <= 900_000 && isText(s) }

  /** Exactly which versions are captured. */
  lemma CapturedIff(isPublic: string -> bool, isText: string -> bool, versions: seq<Version>, messages: seq<string>)
    ensures AllBlobsFit(versions) <==>
      forall i, k :: 0 <= i < |versions| && 0 <= k < |versions[i].paths| ==>
        MayHold(versions[i].tree, versions[i].paths[k])
    ensures Scannable(isText, WithMessages(GatherAll(versions, |versions|), messages)) <==>
      forall name :: name in WithMessages(GatherAll(versions, |versions|), messages) ==>
        Small(isText, WithMessages(GatherAll(versions, |versions|), messages)[name])
  {
    forall i, k | 0 <= i < |versions| && 0 <= k < |versions[i].paths|
      ensures MayHold(versions[i].tree, versions[i].paths[k]) <==>
        Fits(ListTree(versions[i].tree, versions[i].paths[k]))
    {
    }
    if forall i, k :: 0 <= i < |versions| && 0 <= k < |versions[i].paths| ==>
        MayHold(versions[i].tree, versions[i].paths[k]) {
      assert forall i, k :: 0 <= i < |versions| && 0 <= k < |versions[i].paths| ==>
        Fits(ListTree(versions[i].tree, versions[i].paths[k]));
      forall i | 0 <= i < |versions| ensures BlobsFit(versions[i], |versions[i].paths|) {
      }
    }
  }
}
