/**
 What a push would publish: `outgoing` and `captured` in scripts/publication_secret_scan.py.

 Git's object database is the input. `rev-list`, `diff-tree -m --root` and `ls-tree` are what Git
 documents them to be, functions of that database.
 */
module Publication {
  import opened Wrappers

  const MAX_TEXT_BYTES: nat := 900000

  type Oid = string
  /** `Irregular` is a symbolic link or a submodule. */
  datatype Mode = Plain | Executable | Irregular
  datatype Entry = Entry(mode: Mode, content: string)
  /** The files of a tree by their full paths. */
  type Tree = map<string, Entry>
  /** `rank` is any numbering in which parents come before their children. */
  datatype Commit = Commit(parents: seq<Oid>, tree: Tree, message: string, rank: nat)

  /** What a locally known object is: something that names a commit, or a blob, a tree or a tag of one, with
      the contents it carries. */
  datatype Object = Peels(commit: Oid) | Loose(contents: set<string>)
  datatype Repo = Repo(commits: map<Oid, Commit>, objects: map<Oid, Object>)

  predicate Valid(repo: Repo) {
    && (forall c :: c in repo.commits ==>
          forall i :: 0 <= i < |repo.commits[c].parents| ==> IsParent(repo, repo.commits[c].parents[i], c))
    && (forall o :: o in repo.objects && repo.objects[o].Peels? ==> repo.objects[o].commit in repo.commits)
  }

  predicate IsParent(repo: Repo, p: Oid, c: Oid)
    requires c in repo.commits
  {
    p in repo.commits && repo.commits[p].rank < repo.commits[c].rank
  }

  // ---------------------------------------------------------------- reachability

  /** The commits reachable from `c`, itself included. */
  function Reach(repo: Repo, c: Oid): set<Oid>
    requires Valid(repo) && c in repo.commits
    decreases repo.commits[c].rank, 0, 1
  {
    {c} + ReachParents(repo, c, |repo.commits[c].parents|)
  }

  function ReachParents(repo: Repo, c: Oid, n: nat): set<Oid>
    requires Valid(repo) && c in repo.commits && n <= |repo.commits[c].parents|
    decreases repo.commits[c].rank, 0, 0, n
  {
    if n == 0 then {}
    else
      assert IsParent(repo, repo.commits[c].parents[n - 1], c);
      ReachParents(repo, c, n - 1) + Reach(repo, repo.commits[c].parents[n - 1])
  }

  lemma {:induction false} ParentsReached(repo: Repo, c: Oid, n: nat, i: nat)
    requires Valid(repo) && c in repo.commits && i < n <= |repo.commits[c].parents|
    ensures repo.commits[c].parents[i] in repo.commits
    ensures Reach(repo, repo.commits[c].parents[i]) <= ReachParents(repo, c, n)
  {
    assert IsParent(repo, repo.commits[c].parents[i], c);
    if i < n - 1 { ParentsReached(repo, c, n - 1, i); }
  }

  function ReachAny(repo: Repo, from: set<Oid>): set<Oid>
    requires Valid(repo) && forall c :: c in from ==> c in repo.commits
  {
    set c, d | c in from && d in Reach(repo, c) :: d
  }

  // ---------------------------------------------------------------- outgoing

  /** One line of pre-push input: the object pushed and the object the remote ref had, None for zeros.
      `Malformed` is any other line. */
  datatype Update = Update(local: Option<Oid>, replaced: Option<Oid>) | Malformed

  /** The commit an object names, if it is known and names one. */
  function CommitOf(repo: Repo, o: Oid): set<Oid> {
    if o in repo.objects && repo.objects[o].Peels? then {repo.objects[o].commit} else {}
  }

  /** The advertised objects that are known here, as commits. */
  function KnownTips(repo: Repo, advertised: seq<Oid>): set<Oid> {
    set i, c | 0 <= i < |advertised| && c in CommitOf(repo, advertised[i]) :: c
  }

  predicate Live(u: Update) { u.Update? && u.local.Some? }

  /** rev-list can run for the line: what is pushed and what is replaced are known objects, of any kind. */
  predicate Resolvable(repo: Repo, u: Update)
    requires Live(u)
  {
    u.local.value in repo.objects && (u.replaced.Some? ==> u.replaced.value in repo.objects)
  }

  function Excluded(repo: Repo, tips: set<Oid>, u: Update): set<Oid>
    requires Live(u) && Resolvable(repo, u)
  {
    tips + (if u.replaced.Some? then CommitOf(repo, u.replaced.value) else {})
  }

  /** The commits that the line's object reaches: none for an object that names no commit. */
  function Tip(repo: Repo, u: Update): set<Oid>
    requires Valid(repo) && Live(u) && Resolvable(repo, u)
  {
    ReachAny(repo, CommitOf(repo, u.local.value))
  }

  /** rev-list local --not excluded: it lists commits only, and succeeds on other objects. */
  function RevList(repo: Repo, tips: set<Oid>, u: Update): set<Oid>
    requires Valid(repo) && Live(u) && Resolvable(repo, u) && forall t :: t in tips ==> t in repo.commits
  {
    Tip(repo, u) - ReachAny(repo, Excluded(repo, tips, u))
  }

  predicate WellFormed(repo: Repo, updates: seq<Update>) {
    && (forall i :: 0 <= i < |updates| ==> updates[i].Update?)
    && (forall i :: 0 <= i < |updates| && Live(updates[i]) ==> Resolvable(repo, updates[i]))
  }

  lemma TipsAreCommits(repo: Repo, advertised: seq<Oid>)
    requires Valid(repo)
    ensures forall t :: t in KnownTips(repo, advertised) ==> t in repo.commits
  {
  }

  /** What the lines push, each against the known tips and its own old value. */
  function Pushed(repo: Repo, tips: set<Oid>, updates: seq<Update>): set<Oid>
    requires Valid(repo) && WellFormed(repo, updates) && forall t :: t in tips ==> t in repo.commits
  {
    if updates == [] then {}
    else
      var last := updates[|updates| - 1];
      assert forall i :: 0 <= i < |updates| - 1 ==> updates[..|updates| - 1][i] == updates[i];
      Pushed(repo, tips, updates[..|updates| - 1]) + (if Live(last) then RevList(repo, tips, last) else {})
  }

  lemma LiveFiltered(updates: seq<Update>, i: nat)
    requires i < |updates|
    ensures updates[..i + 1][..i] == updates[..i]
  {
  }

  /** `outgoing`: parse the lines, resolve the live advertisements, and list every pushed commit. */
  method Outgoing(repo: Repo, advertised: seq<Oid>, updates: seq<Update>) returns (r: Option<set<Oid>>)
    requires Valid(repo)
    ensures r.Some? <==> WellFormed(repo, updates)
    ensures r.Some? ==>
      (forall t :: t in KnownTips(repo, advertised) ==> t in repo.commits)
      && r.value == Pushed(repo, KnownTips(repo, advertised), updates)
  {
    TipsAreCommits(repo, advertised);
    for i := 0 to |updates|
      invariant forall k :: 0 <= k < i ==> updates[k].Update?
    {
      if updates[i].Malformed? { return None; }
    }
    var tips: set<Oid> := {};
    for i := 0 to |advertised|
      invariant tips == KnownTips(repo, advertised[..i])
    {
      TipsGrow(repo, advertised, i);
      tips := tips + CommitOf(repo, advertised[i]);
    }
    assert advertised[..|advertised|] == advertised;
    var commits: set<Oid> := {};
    for i := 0 to |updates|
      invariant forall k :: 0 <= k < i && Live(updates[k]) ==> Resolvable(repo, updates[k])
      invariant WellFormed(repo, updates[..i])
      invariant commits == Pushed(repo, tips, updates[..i])
    {
      if Live(updates[i]) {
        if !Resolvable(repo, updates[i]) { return None; }
        commits := commits + RevList(repo, tips, updates[i]);
      }
      LiveFiltered(updates, i);
    }
    assert updates[..|updates|] == updates;
    r := Some(commits);
  }

  lemma TipsGrow(repo: Repo, advertised: seq<Oid>, i: nat)
    requires i < |advertised|
    ensures KnownTips(repo, advertised[..i + 1]) == KnownTips(repo, advertised[..i]) + CommitOf(repo, advertised[i])
  {
    var a, b := advertised[..i], advertised[..i + 1];
    forall t ensures t in KnownTips(repo, b) <==> t in KnownTips(repo, a) + CommitOf(repo, advertised[i]) {
      if t in KnownTips(repo, a) {
        var k :| 0 <= k < |a| && t in CommitOf(repo, a[k]);
        assert b[k] == a[k];
      }
      if t in KnownTips(repo, b) {
        var k :| 0 <= k < |b| && t in CommitOf(repo, b[k]);
        if k < i { assert a[k] == b[k]; }
      }
      assert b[i] == advertised[i];
    }
  }

  /** A commit is outgoing exactly when some live line pushes it and neither a known advertised tip nor
      that line's own old value reaches it. */
  lemma {:induction false} OutgoingIff(repo: Repo, tips: set<Oid>, updates: seq<Update>, c: Oid)
    requires Valid(repo) && WellFormed(repo, updates) && forall t :: t in tips ==> t in repo.commits
    ensures c in Pushed(repo, tips, updates) <==>
      exists i :: 0 <= i < |updates| && Live(updates[i]) && c in RevList(repo, tips, updates[i])
    decreases |updates|
  {
    if updates != [] {
      var n := |updates| - 1;
      var before := updates[..n];
      assert forall i :: 0 <= i < n ==> before[i] == updates[i];
      OutgoingIff(repo, tips, before, c);
    }
  }

  /** Advertised objects that are not known here only ever enlarge what is scanned. */
  lemma UnknownTipsEnlarge(repo: Repo, some: set<Oid>, all: set<Oid>, updates: seq<Update>)
    requires Valid(repo) && WellFormed(repo, updates)
    requires some <= all && forall t :: t in all ==> t in repo.commits
    ensures Pushed(repo, all, updates) <= Pushed(repo, some, updates)
  {
    forall c | c in Pushed(repo, all, updates) ensures c in Pushed(repo, some, updates) {
      OutgoingIff(repo, all, updates, c);
      OutgoingIff(repo, some, updates, c);
      var i :| 0 <= i < |updates| && Live(updates[i]) && c in RevList(repo, all, updates[i]);
      assert Excluded(repo, some, updates[i]) <= Excluded(repo, all, updates[i]);
      assert c in RevList(repo, some, updates[i]);
    }
  }

  // ---------------------------------------------------------------- what a commit changes

  function Lookup(tree: Tree, path: string): Option<Entry> { if path in tree then Some(tree[path]) else None }

  /** diff-tree --root -m: a root commit changes all its paths, another the paths on which it differs from
      at least one parent. */
  predicate Changes(repo: Repo, c: Oid, path: string)
    requires Valid(repo) && c in repo.commits
  {
    var commit := repo.commits[c];
    if commit.parents == [] then path in commit.tree
    else exists i :: 0 <= i < |commit.parents| && IsParent(repo, commit.parents[i], c)
                     && Lookup(repo.commits[commit.parents[i]].tree, path) != Lookup(commit.tree, path)
  }

  // ---------------------------------------------------------------- captured

  /** One version to scan: a tree and the paths it changes. */
  datatype Version = Version(tree: Tree, paths: seq<string>)

  /** Everything the scan reads, in order: the name of a path, or the content of a blob. */
  datatype Action = CheckPath(path: string) | ReadBlob(path: string)

  /** What `ls-tree` lists for a path: a file, or a directory, or nothing. */
  datatype Listed = Nothing | Directory | File(entry: Entry)

  predicate IsDirectory(tree: Tree, path: string) { exists q :: q in tree && path + "/" <= q }

  function ListTree(tree: Tree, path: string): Listed {
    if path in tree then File(tree[path]) else if IsDirectory(tree, path) then Directory else Nothing
  }

  /** A deleted path is passed over; anything but a regular file within the bound is refused. */
  predicate Fits(l: Listed) {
    match l
    case Nothing => true
    case Directory => false
    case File(e) => !e.mode.Irregular? && |e.content| <= MAX_TEXT_BYTES
  }

  predicate BlobsFit(v: Version, n: nat)
    requires n <= |v.paths|
  {
    forall k :: 0 <= k < n ==> Fits(ListTree(v.tree, v.paths[k]))
  }

  function Add(material: map<string, string>, path: string, content: string): map<string, string> {
    material[path := (if path in material then material[path] else "") + content + "\n"]
  }

  /** The material after the first `n` paths of a version. */
  function Gather(material: map<string, string>, v: Version, n: nat): map<string, string>
    requires n <= |v.paths|
  {
    if n == 0 then material
    else
      var before, path := Gather(material, v, n - 1), v.paths[n - 1];
      if path in v.tree then Add(before, path, v.tree[path].content) else before
  }

  function GatherAll(versions: seq<Version>, n: nat): map<string, string>
    requires n <= |versions|
  {
    if n == 0 then map[] else Gather(GatherAll(versions, n - 1), versions[n - 1], |versions[n - 1].paths|)
  }

  predicate AllPublic(isPublic: string -> bool, versions: seq<Version>) {
    forall i, k :: 0 <= i < |versions| && 0 <= k < |versions[i].paths| ==> isPublic(versions[i].paths[k])
  }

  predicate AllBlobsFit(versions: seq<Version>) {
    forall i :: 0 <= i < |versions| ==> BlobsFit(versions[i], |versions[i].paths|)
  }

  function JoinMessages(messages: seq<string>): string {
    if messages == [] then "" else if |messages| == 1 then messages[0]
    else JoinMessages(messages[..|messages| - 1]) + "\n" + messages[|messages| - 1]
  }

  /** The captured paths that are at least `n` long. */
  function LongKeys(keys: set<string>, n: nat): set<string> { set k | k in keys && |k| >= n }

  /** A name for the commit messages that is no captured path: lengthen it until it is none. */
  function FreshName(keys: set<string>, name: string): (unused: string)
    ensures unused !in keys
    decreases LongKeys(keys, |name|)
  {
    if name !in keys then name
    else
      assert name in LongKeys(keys, |name|) && name !in LongKeys(keys, |name| + 1);
      assert LongKeys(keys, |name| + 1) < LongKeys(keys, |name|);
      FreshName(keys, "_" + name)
  }

  function WithMessages(material: map<string, string>, messages: seq<string>): map<string, string> {
    if messages == [] then material
    else material[FreshName(material.Keys, ".publication-commit-messages.txt") := JoinMessages(messages)]
  }

  predicate Scannable(isText: string -> bool, material: map<string, string>) {
    forall k :: k in material ==> |material[k]| <= MAX_TEXT_BYTES && isText(material[k])
  }

  predicate NoRead(log: seq<Action>) { forall i :: 0 <= i < |log| ==> log[i].CheckPath? }

  predicate OnlyReads(log: seq<Action>) { forall i :: 0 <= i < |log| ==> log[i].ReadBlob? }

  predicate AllChecked(log: seq<Action>, versions: seq<Version>) {
    forall i, k :: 0 <= i < |versions| && 0 <= k < |versions[i].paths| ==> CheckPath(versions[i].paths[k]) in log
  }

  /** The first pass of `captured`: every path of every version, before any content is read. */
  method CheckPaths(isPublic: string -> bool, versions: seq<Version>) returns (ok: bool, log: seq<Action>)
    ensures ok <==> AllPublic(isPublic, versions)
    ensures NoRead(log) && (ok ==> AllChecked(log, versions))
  {
    log := [];
    for i := 0 to |versions|
      invariant AllPublic(isPublic, versions[..i]) && NoRead(log) && AllChecked(log, versions[..i])
    {
      var paths := versions[i].paths;
      ghost var before := log;
      for k := 0 to |paths|
        invariant forall m :: 0 <= m < k ==> isPublic(paths[m]) && CheckPath(paths[m]) in log
        invariant NoRead(log) && before <= log
      {
        log := log + [CheckPath(paths[k])];
        if !isPublic(paths[k]) { return false, log; }
      }
    }
    assert versions[..|versions|] == versions;
    ok := true;
  }

  /** The second pass: append the content of every changed regular file, version after version. */
  method ReadBlobs(versions: seq<Version>) returns (r: Option<map<string, string>>, log: seq<Action>)
    ensures r.Some? <==> AllBlobsFit(versions)
    ensures r.Some? ==> r.value == GatherAll(versions, |versions|)
    ensures OnlyReads(log)
  {
    var material: map<string, string> := map[];
    log := [];
    for i := 0 to |versions|
      invariant forall j :: 0 <= j < i ==> BlobsFit(versions[j], |versions[j].paths|)
      invariant material == GatherAll(versions, i) && OnlyReads(log)
    {
      var v := versions[i];
      for k := 0 to |v.paths|
        invariant BlobsFit(v, k) && material == Gather(GatherAll(versions, i), v, k) && OnlyReads(log)
      {
        var listed := ListTree(v.tree, v.paths[k]);
        if !Fits(listed) { return None, log; }
        if listed.File? {
          log := log + [ReadBlob(v.paths[k])];
          material := Add(material, v.paths[k], listed.entry.content);
        }
      }
    }
    r := Some(material);
  }

  /** `captured`: nothing is read before every path was checked and found publishable; then every changed
      regular file is gathered under its path, and the messages beside them, or the scan refuses. What was
      done is `checks` followed by the reads `blobs`. */
  method Captured(isPublic: string -> bool, isText: string -> bool, versions: seq<Version>, messages: seq<string>)
      returns (r: Option<map<string, string>>, checks: seq<Action>, blobs: seq<Action>)
    ensures r.Some? <==>
      && AllPublic(isPublic, versions) && AllBlobsFit(versions)
      && Scannable(isText, WithMessages(GatherAll(versions, |versions|), messages))
    ensures r.Some? ==> r.value == WithMessages(GatherAll(versions, |versions|), messages)
    ensures NoRead(checks) && OnlyReads(blobs)
    ensures blobs != [] ==> AllPublic(isPublic, versions) && AllChecked(checks, versions)
  {
    var ok;
    ok, checks := CheckPaths(isPublic, versions);
    blobs := [];
    if !ok { return None, checks, blobs; }
    var gathered;
    gathered, blobs := ReadBlobs(versions);
    if gathered.None? { return None, checks, blobs; }
    var material := WithMessages(gathered.value, messages);
    r := if Scannable(isText, material) then Some(material) else None;
  }

  /** A file replaced by a directory of the same name is changed, and its old path lists a directory: the scan
      refuses such a commit. */
  lemma ReplacementByDirectoryIsRefused(tree: Tree, path: string, inner: string, versions: seq<Version>, i: nat, k: nat)
    requires path !in tree && path + "/" + inner in tree
    requires i < |versions| && versions[i].tree == tree && k < |versions[i].paths| && versions[i].paths[k] == path
    ensures !AllBlobsFit(versions)
  {
    var q := path + "/" + inner;
    assert path + "/" <= q;
    assert ListTree(tree, path) == Directory;
  }

  // ---------------------------------------------------------------- coverage

  /** `part` lies in `whole` as one piece. */
  ghost predicate Within(part: string, whole: string) {
    exists before, after :: whole == before + part + after
  }

  lemma AppendKeeps(part: string, whole: string, more: string)
    requires Within(part, whole)
    ensures Within(part, whole + more)
  {
    var before, after :| whole == before + part + after;
    assert whole + more == before + part + (after + more);
  }

  lemma {:induction false} GatherKeeps(material: map<string, string>, v: Version, n: nat, path: string, part: string)
    requires n <= |v.paths| && path in material && Within(part, material[path])
    ensures path in Gather(material, v, n) && Within(part, Gather(material, v, n)[path])
  {
    if n > 0 {
      GatherKeeps(material, v, n - 1, path, part);
      var before := Gather(material, v, n - 1);
      if v.paths[n - 1] == path && path in v.tree {
        AppendKeeps(part, before[path], v.tree[path].content);
        AppendKeeps(part, before[path] + v.tree[path].content, "\n");
      }
    }
  }

  lemma {:induction false} GatherHas(material: map<string, string>, v: Version, n: nat, k: nat)
    requires k < n <= |v.paths| && v.paths[k] in v.tree
    ensures v.paths[k] in Gather(material, v, n)
      && Within(v.tree[v.paths[k]].content, Gather(material, v, n)[v.paths[k]])
  {
    var path, content := v.paths[k], v.tree[v.paths[k]].content;
    var before := Gather(material, v, n - 1);
    if k == n - 1 {
      var earlier := if path in before then before[path] else "";
      assert Gather(material, v, n)[path] == earlier + content + "\n";
    } else {
      GatherHas(material, v, n - 1, k);
      if v.paths[n - 1] == path {
        AppendKeeps(content, before[path], v.tree[path].content);
        AppendKeeps(content, before[path] + v.tree[path].content, "\n");
      }
    }
  }

  /** Every changed file of every version is one contiguous piece of what is scanned under its path. */
  lemma {:induction false} PostimageIsScanned(versions: seq<Version>, n: nat, i: nat, k: nat)
    requires i < n <= |versions| && k < |versions[i].paths| && versions[i].paths[k] in versions[i].tree
    ensures var path := versions[i].paths[k];
      path in GatherAll(versions, n) && Within(versions[i].tree[path].content, GatherAll(versions, n)[path])
  {
    if i == n - 1 {
      GatherHas(GatherAll(versions, n - 1), versions[i], |versions[i].paths|, k);
    } else {
      PostimageIsScanned(versions, n - 1, i, k);
      GatherKeeps(GatherAll(versions, n - 1), versions[n - 1], |versions[n - 1].paths|, versions[i].paths[k],
                  versions[i].tree[versions[i].paths[k]].content);
    }
  }

  lemma {:induction false} JoinHas(messages: seq<string>, i: nat)
    requires i < |messages|
    ensures Within(messages[i], JoinMessages(messages))
  {
    var n := |messages| - 1;
    var rest := messages[..n];
    if n == 0 {
      assert messages[0] == "" + messages[0] + "";
    } else if i == n {
      assert JoinMessages(messages) == (JoinMessages(rest) + "\n") + messages[n] + "";
    } else {
      JoinHas(rest, i);
      AppendKeeps(messages[i], JoinMessages(rest), "\n");
      AppendKeeps(messages[i], JoinMessages(rest) + "\n", messages[n]);
    }
  }

  /** `all` is the material and one more entry, of which every message is one contiguous piece. */
  ghost predicate HoldsMessages(all: map<string, string>, material: map<string, string>, messages: seq<string>) {
    exists name :: name !in material && all.Keys == material.Keys + {name}
      && (forall k :: k in material ==> all[k] == material[k])
      && (forall i :: 0 <= i < |messages| ==> Within(messages[i], all[name]))
  }

  /** Whatever was captured, every commit message is scanned, under a name that is no captured path, and no captured
      material is changed by it; without a commit nothing is added. */
  lemma MessagesAreScanned(material: map<string, string>, messages: seq<string>)
    ensures messages != [] ==> HoldsMessages(WithMessages(material, messages), material, messages)
    ensures messages == [] ==> WithMessages(material, messages) == material
  {
    if messages != [] {
      var name := FreshName(material.Keys, ".publication-commit-messages.txt");
      forall i | 0 <= i < |messages| ensures Within(messages[i], JoinMessages(messages)) { JoinHas(messages, i); }
      assert WithMessages(material, messages) == material[name := JoinMessages(messages)];
      assert name !in material;
    }
  }

  /** Where an unchanged file comes from: following parents through outgoing commits, its content is either
      changed by an outgoing commit or held, at the same path, by a commit the remote already has. */
  lemma {:induction false} Provenance(repo: Repo, known: set<Oid>, c: Oid, path: string) returns (from: Oid)
    requires Valid(repo) && c in repo.commits && path in repo.commits[c].tree
    ensures from in Reach(repo, c) && from in repo.commits
    ensures Lookup(repo.commits[from].tree, path) == Lookup(repo.commits[c].tree, path)
    ensures from in known || Changes(repo, from, path)
    decreases repo.commits[c].rank
  {
    if c in known || Changes(repo, c, path) {
      from := c;
    } else {
      var parents := repo.commits[c].parents;
      assert IsParent(repo, parents[0], c);
      from := Provenance(repo, known, parents[0], path);
      ParentsReached(repo, c, |parents|, 0);
    }
  }

  /** The versions `captured` builds for a push: one for each outgoing commit, with all the paths it changes. */
  ghost predicate VersionsOf(repo: Repo, outgoing: set<Oid>, versions: seq<Version>)
    requires Valid(repo)
  {
    forall c, path {:trigger Changes(repo, c, path)} :: c in outgoing && c in repo.commits && Changes(repo, c, path) ==>
      exists i, k :: 0 <= i < |versions| && 0 <= k < |versions[i].paths|
                     && versions[i].tree == repo.commits[c].tree && versions[i].paths[k] == path
  }

  /** The list names every changed path; whatever else it names does no harm. */
  ghost predicate IsDiff(repo: Repo, c: Oid, paths: seq<string>)
    requires Valid(repo) && c in repo.commits
  {
    forall p :: Changes(repo, c, p) ==> p in paths
  }

  /** The first loop of `captured`: one version for every outgoing commit, with the paths `diff-tree` lists. */
  method PushVersions(repo: Repo, commits: seq<Oid>, diff: map<Oid, seq<string>>) returns (versions: seq<Version>)
    requires Valid(repo) && forall i :: 0 <= i < |commits| ==> commits[i] in repo.commits && commits[i] in diff
    requires forall i :: 0 <= i < |commits| ==> IsDiff(repo, commits[i], diff[commits[i]])
    ensures |versions| == |commits|
    ensures forall i :: 0 <= i < |commits| ==>
      versions[i] == Version(repo.commits[commits[i]].tree, diff[commits[i]])
    ensures VersionsOf(repo, (set c | c in commits), versions)
  {
    versions := [];
    for i := 0 to |commits|
      invariant |versions| == i
      invariant forall k :: 0 <= k < i ==> versions[k] == Version(repo.commits[commits[k]].tree, diff[commits[k]])
    {
      versions := versions + [Version(repo.commits[commits[i]].tree, diff[commits[i]])];
    }
    forall c, path | c in commits && c in repo.commits && Changes(repo, c, path)
      ensures exists i, k :: 0 <= i < |versions| && 0 <= k < |versions[i].paths|
                             && versions[i].tree == repo.commits[c].tree && versions[i].paths[k] == path
    {
      var i :| 0 <= i < |commits| && commits[i] == c;
      assert path in diff[c];
      var k :| 0 <= k < |diff[c]| && diff[c][k] == path;
      assert versions[i].paths[k] == path;
    }
  }

  /** The content is one piece of what is scanned under its path. */
  ghost predicate Scanned(versions: seq<Version>, messages: seq<string>, path: string, content: string) {
    var material := WithMessages(GatherAll(versions, |versions|), messages);
    path in material && Within(content, material[path])
  }

  /** One of these commits holds the same file at the same path. */
  ghost predicate HeldBy(repo: Repo, commits: set<Oid>, path: string, entry: Entry) {
    exists k :: k in commits && k in repo.commits && Lookup(repo.commits[k].tree, path) == Some(entry)
  }

  lemma OutgoingChangeIsScanned(repo: Repo, outgoing: set<Oid>, versions: seq<Version>, messages: seq<string>,
                                c: Oid, path: string)
    requires Valid(repo) && VersionsOf(repo, outgoing, versions)
    requires c in outgoing && c in repo.commits && Changes(repo, c, path) && path in repo.commits[c].tree
    ensures Scanned(versions, messages, path, repo.commits[c].tree[path].content)
  {
    var i, k :| 0 <= i < |versions| && 0 <= k < |versions[i].paths|
                && versions[i].tree == repo.commits[c].tree && versions[i].paths[k] == path;
    PostimageIsScanned(versions, |versions|, i, k);
  }

  lemma BeyondKnownIsOutgoing(repo: Repo, tips: set<Oid>, updates: seq<Update>, j: nat, c: Oid)
    requires Valid(repo) && WellFormed(repo, updates) && forall t :: t in tips ==> t in repo.commits
    requires j < |updates| && Live(updates[j]) && c in RevList(repo, tips, updates[j])
    ensures c in Pushed(repo, tips, updates)
  {
    OutgoingIff(repo, tips, updates, c);
  }

  /** For every file of every commit a line pushes, its content is either scanned, as one piece under its
      path, or already held at that path by a commit that a known remote tip or the line's old value
      reaches. */
  lemma EveryPushedFileIsScannedOrKnown(repo: Repo, tips: set<Oid>, updates: seq<Update>, versions: seq<Version>,
                                        messages: seq<string>, j: nat, c: Oid, path: string)
    requires Valid(repo) && WellFormed(repo, updates) && forall t :: t in tips ==> t in repo.commits
    requires VersionsOf(repo, Pushed(repo, tips, updates), versions)
    requires j < |updates| && Live(updates[j])
    requires c in Tip(repo, updates[j]) && c in repo.commits && path in repo.commits[c].tree
    ensures
      || HeldBy(repo, ReachAny(repo, Excluded(repo, tips, updates[j])), path, repo.commits[c].tree[path])
      || Scanned(versions, messages, path, repo.commits[c].tree[path].content)
  {
    var known := ReachAny(repo, Excluded(repo, tips, updates[j]));
    var from := Provenance(repo, known, c, path);
    if from !in known {
      TipTransitive(repo, updates[j], c, from);
      BeyondKnownIsOutgoing(repo, tips, updates, j, from);
      OutgoingChangeIsScanned(repo, Pushed(repo, tips, updates), versions, messages, from, path);
    }
  }

  lemma TipTransitive(repo: Repo, u: Update, b: Oid, c: Oid)
    requires Valid(repo) && Live(u) && Resolvable(repo, u) && b in Tip(repo, u) && b in repo.commits
      && c in Reach(repo, b)
    ensures c in Tip(repo, u)
  {
    var a :| a in CommitOf(repo, u.local.value) && b in Reach(repo, a);
    ReachTransitive(repo, a, b, c);
  }

  lemma {:induction false} ReachTransitive(repo: Repo, a: Oid, b: Oid, c: Oid)
    requires Valid(repo) && a in repo.commits && b in repo.commits && b in Reach(repo, a) && c in Reach(repo, b)
    ensures c in Reach(repo, a)
    decreases repo.commits[a].rank
  {
    if b != a {
      var i := ThroughParent(repo, a, |repo.commits[a].parents|, b);
      assert IsParent(repo, repo.commits[a].parents[i], a);
      ReachTransitive(repo, repo.commits[a].parents[i], b, c);
      ParentsReached(repo, a, |repo.commits[a].parents|, i);
    }
  }

  lemma {:induction false} ThroughParent(repo: Repo, a: Oid, n: nat, b: Oid) returns (i: nat)
    requires Valid(repo) && a in repo.commits && n <= |repo.commits[a].parents| && b in ReachParents(repo, a, n)
    ensures i < n && repo.commits[a].parents[i] in repo.commits && b in Reach(repo, repo.commits[a].parents[i])
  {
    assert IsParent(repo, repo.commits[a].parents[n - 1], a);
    if b in Reach(repo, repo.commits[a].parents[n - 1]) {
      i := n - 1;
    } else {
      i := ThroughParent(repo, a, n - 1, b);
    }
  }

  // ---------------------------------------------------------------- objects that name no commit

  /** One of these commits holds the content at some path. */
  ghost predicate KnownContent(repo: Repo, commits: set<Oid>, content: string) {
    exists k, path :: k in commits && k in repo.commits && path in repo.commits[k].tree
                      && repo.commits[k].tree[path].content == content
  }

  /** Every file the line pushes is scanned, or the remote has it: for an object that names a commit, the files
      of all commits it reaches; for another object, the contents it carries. */
  ghost predicate LineCovered(repo: Repo, tips: set<Oid>, u: Update, versions: seq<Version>, messages: seq<string>)
    requires Valid(repo) && Live(u) && Resolvable(repo, u) && forall t :: t in tips ==> t in repo.commits
  {
    var known, pushed := ReachAny(repo, Excluded(repo, tips, u)), repo.objects[u.local.value];
    && (forall c, path :: c in Tip(repo, u) && c in repo.commits && path in repo.commits[c].tree ==>
          || HeldBy(repo, known, path, repo.commits[c].tree[path])
          || Scanned(versions, messages, path, repo.commits[c].tree[path].content))
    && (pushed.Loose? ==> forall x :: x in pushed.contents ==>
          KnownContent(repo, known, x) || exists path :: Scanned(versions, messages, path, x))
  }

  /** A push of one line is covered, however its versions were listed. */
  ghost predicate AlwaysCovered(repo: Repo, tips: set<Oid>, u: Update)
    requires Valid(repo) && Live(u) && Resolvable(repo, u) && forall t :: t in tips ==> t in repo.commits
  {
    forall versions, messages :: VersionsOf(repo, Pushed(repo, tips, [u]), versions) ==>
      LineCovered(repo, tips, u, versions, messages)
  }

  lemma OneLine(repo: Repo, tips: set<Oid>, u: Update)
    requires Valid(repo) && Live(u) && Resolvable(repo, u) && forall t :: t in tips ==> t in repo.commits
    ensures WellFormed(repo, [u]) && Pushed(repo, tips, [u]) == RevList(repo, tips, u)
  {
    assert [u][..0] == [];
  }

  lemma NothingScanned(path: string, content: string)
    ensures !Scanned([], [], path, content)
  {
  }

  lemma CommitLineCovered(repo: Repo, tips: set<Oid>, u: Update, versions: seq<Version>, messages: seq<string>)
    requires Valid(repo) && Live(u) && Resolvable(repo, u) && forall t :: t in tips ==> t in repo.commits
    requires repo.objects[u.local.value].Peels? && VersionsOf(repo, Pushed(repo, tips, [u]), versions)
    ensures LineCovered(repo, tips, u, versions, messages)
  {
    OneLine(repo, tips, u);
    forall c, path | c in Tip(repo, u) && c in repo.commits && path in repo.commits[c].tree
      ensures HeldBy(repo, ReachAny(repo, Excluded(repo, tips, u)), path, repo.commits[c].tree[path])
              || Scanned(versions, messages, path, repo.commits[c].tree[path].content)
    {
      EveryPushedFileIsScannedOrKnown(repo, tips, [u], versions, messages, 0, c, path);
    }
  }

  /** The push of a line is covered exactly when its object names a commit, or carries nothing that the remote
      does not have already: git lists no commit for a blob or a tree, so nothing of it is ever scanned. */
  lemma CoveredIffCommit(repo: Repo, tips: set<Oid>, u: Update)
    requires Valid(repo) && Live(u) && Resolvable(repo, u) && forall t :: t in tips ==> t in repo.commits
    ensures AlwaysCovered(repo, tips, u) <==>
      || repo.objects[u.local.value].Peels?
      || forall x :: x in repo.objects[u.local.value].contents ==>
           KnownContent(repo, ReachAny(repo, Excluded(repo, tips, u)), x)
  {
    OneLine(repo, tips, u);
    if repo.objects[u.local.value].Peels? {
      forall versions, messages | VersionsOf(repo, Pushed(repo, tips, [u]), versions)
        ensures LineCovered(repo, tips, u, versions, messages)
      {
        CommitLineCovered(repo, tips, u, versions, messages);
      }
    } else {
      assert Tip(repo, u) == {};
      if AlwaysCovered(repo, tips, u) {
        assert LineCovered(repo, tips, u, [], []);
        forall x | x in repo.objects[u.local.value].contents
          ensures KnownContent(repo, ReachAny(repo, Excluded(repo, tips, u)), x)
        {
          forall path ensures !Scanned([], [], path, x) { NothingScanned(path, x); }
        }
      }
    }
  }

  /** A tag on a blob, pushed to an empty remote: the line is accepted, no commit is outgoing, nothing is
      scanned, and the blob leaves. */
  lemma BlobPushEscapes(content: string)
    ensures var repo, u := Repo(map[], map["tag" := Loose({content})]), Update(Some("tag"), None);
      && Valid(repo) && WellFormed(repo, [u]) && Pushed(repo, {}, [u]) == {}
      && VersionsOf(repo, {}, []) && !LineCovered(repo, {}, u, [], [])
  {
    var repo, u := Repo(map[], map["tag" := Loose({content})]), Update(Some("tag"), None);
    OneLine(repo, {}, u);
    forall path ensures !Scanned([], [], path, content) { NothingScanned(path, content); }
    assert content in repo.objects["tag"].contents;
  }
}
