/**
 The CI workload inventory: the builder scripts/prepare_ci_workload_inventory.py, the checker
 scripts/ci_workload_policy.py and the consumer scripts/ci_pytest_guard.py.

 A file is a string of bytes and SHA-256 is the free constructor of `Digest`. Parsing Python, JSON
 encoding and decoding are the fields of `Tools`.
 */
module Inventory {
  import opened Wrappers
  import opened Decimals

  const MAX_FILE: nat := 4194304
  const MAX_CHUNKS: nat := 32
  const CHUNK_ROWS: nat := 128
  const MAX_MODELS: nat := 1000

  datatype Digest = Sha(bytes: string)
  datatype Kind = Inert | ModelWorkload

  /** A test definition: its qualified name and the digest of its syntax tree. */
  datatype Def = Def(name: string, ast: Digest)
  datatype TestRow = TestRow(name: string, ast: Digest, kind: Kind)
  datatype Row = Row(path: string, sha: Digest, tests: seq<TestRow>)
  datatype Ref = Ref(path: string, sha: Digest)
  datatype Index = Index(audit: Digest, chunks: seq<Ref>, models: nat)

  /** The independent audit: the nodes that reach a model, and how many there should be. */
  datatype Audit = Audit(entries: seq<(string, Digest)>, count: nat)

  /** `nodes` is `test_nodes`: None for source that does not parse as Python. */
  datatype Tools = Tools(
    nodes: string -> Option<seq<Def>>,
    decodeAudit: string -> Option<Audit>,
    encodeRows: seq<Row> -> string, decodeRows: string -> Option<seq<Row>>,
    encodeIndex: Index -> string, decodeIndex: string -> Option<Index>)

  predicate DistinctNames(defs: seq<Def>) {
    forall i, j :: 0 <= i < j < |defs| ==> defs[i].name != defs[j].name
  }

  /** A dictionary of definitions has each name once; what is encoded can be decoded. */
  ghost predicate Lawful(t: Tools) {
    && (forall raw: string :: t.nodes(raw).Some? ==> DistinctNames(t.nodes(raw).value))
    && (forall rows: seq<Row> :: t.decodeRows(t.encodeRows(rows)) == Some(rows))
    && (forall index: Index :: t.decodeIndex(t.encodeIndex(index)) == Some(index))
  }

  /** `root`: the contents of every source path. */
  type Tree = map<string, string>

  predicate Readable(raw: string) { 0 < |raw| <= MAX_FILE }

  predicate StartsWith(s: string, p: string) { p <= s }
  predicate EndsWith(s: string, p: string) { |p| <= |s| && s[|s| - |p|..] == p }

  /** The part of a path after its last slash. */
  function BaseName(path: string): string {
    if path == "" || path[|path| - 1] == '/' then "" else BaseName(path[..|path| - 1]) + [path[|path| - 1]]
  }

  predicate HoldsTests(path: string) {
    StartsWith(path, "backend/tests/") && StartsWith(BaseName(path), "test_")
  }

  /** Only files of tests are parsed. */
  predicate Parses(t: Tools, path: string, raw: string) { HoldsTests(path) ==> t.nodes(raw).Some? }

  function Definitions(t: Tools, path: string, raw: string): seq<Def> {
    if HoldsTests(path) && t.nodes(raw).Some? then t.nodes(raw).value else []
  }

  function NodeId(path: string, name: string): string { path + "::" + name }

  // ---------------------------------------------------------------- the builder

  function KindOf(models: map<string, Digest>, node: string): Kind {
    if node in models then ModelWorkload else Inert
  }

  function TestRows(models: map<string, Digest>, path: string, defs: seq<Def>): (rows: seq<TestRow>)
    ensures |rows| == |defs|
    ensures forall i :: 0 <= i < |defs| ==>
      rows[i] == TestRow(defs[i].name, defs[i].ast, KindOf(models, NodeId(path, defs[i].name)))
  {
    seq(|defs|, i requires 0 <= i < |defs| =>
      TestRow(defs[i].name, defs[i].ast, KindOf(models, NodeId(path, defs[i].name))))
  }

  function RowFor(t: Tools, models: map<string, Digest>, tree: Tree, path: string): Row
    requires path in tree
  {
    Row(path, Sha(tree[path]), TestRows(models, path, Definitions(t, path, tree[path])))
  }

  function RowsFor(t: Tools, models: map<string, Digest>, tree: Tree, paths: seq<string>): (rows: seq<Row>)
    requires forall p :: p in paths ==> p in tree
    ensures |rows| == |paths|
    ensures forall i :: 0 <= i < |paths| ==> rows[i] == RowFor(t, models, tree, paths[i])
  {
    seq(|paths|, i requires 0 <= i < |paths| => RowFor(t, models, tree, paths[i]))
  }

  function FileNodes(path: string, defs: seq<Def>): set<string> {
    set j | 0 <= j < |defs| :: NodeId(path, defs[j].name)
  }

  /** The node identifiers defined by the first `n` source paths. */
  function TreeNodes(t: Tools, tree: Tree, paths: seq<string>, n: nat): set<string>
    requires n <= |paths| && forall p :: p in paths ==> p in tree
  {
    if n == 0 then {}
    else TreeNodes(t, tree, paths, n - 1) + FileNodes(paths[n - 1], Definitions(t, paths[n - 1], tree[paths[n - 1]]))
  }

  /** The audited definitions among these are unchanged. */
  predicate FileMatches(models: map<string, Digest>, path: string, defs: seq<Def>) {
    forall j :: 0 <= j < |defs| ==>
      NodeId(path, defs[j].name) in models ==> models[NodeId(path, defs[j].name)] == defs[j].ast
  }

  predicate SourceMatches(t: Tools, models: map<string, Digest>, tree: Tree, path: string)
    requires path in tree
  {
    Readable(tree[path]) && Parses(t, path, tree[path]) && FileMatches(models, path, Definitions(t, path, tree[path]))
  }

  /** When the sources meet the audit: each is readable, parses if it holds tests, and matches the audit, and every
      audited node is defined somewhere. */
  predicate Preparable(t: Tools, models: map<string, Digest>, tree: Tree, paths: seq<string>)
    requires forall p :: p in paths ==> p in tree
  {
    && (forall i :: 0 <= i < |paths| ==> SourceMatches(t, models, tree, paths[i]))
    && models.Keys <= TreeNodes(t, tree, paths, |paths|)
  }

  function ChunkName(k: nat): string {
    "source-" + (if k + 1 < 10 then "0" + Decimal(k + 1) else Decimal(k + 1)) + ".json"
  }

  /** The `k`-th run of 128 rows. */
  function Chunk(rows: seq<Row>, k: nat): seq<Row> {
    var first := k * CHUNK_ROWS;
    if |rows| <= first then []
    else if first + CHUNK_ROWS <= |rows| then rows[first..first + CHUNK_ROWS] else rows[first..]
  }

  function ChunkCount(n: nat): nat { (n + CHUNK_ROWS - 1) / CHUNK_ROWS }

  function ChunkFiles(t: Tools, rows: seq<Row>, n: nat): map<string, string> {
    if n == 0 then map[] else ChunkFiles(t, rows, n - 1)[ChunkName(n - 1) := t.encodeRows(Chunk(rows, n - 1))]
  }

  function ChunkRefs(t: Tools, rows: seq<Row>, n: nat): (refs: seq<Ref>)
    ensures |refs| == n
    ensures forall k :: 0 <= k < n ==> refs[k] == Ref(ChunkName(k), Sha(t.encodeRows(Chunk(rows, k))))
  {
    if n == 0 then []
    else ChunkRefs(t, rows, n - 1) + [Ref(ChunkName(n - 1), Sha(t.encodeRows(Chunk(rows, n - 1))))]
  }

  /** The files written beside each other in the destination directory. */
  datatype Proposal = Proposal(files: map<string, string>, index: string)

  function Proposed(t: Tools, models: map<string, Digest>, rows: seq<Row>, audit: Digest): Proposal {
    var n := ChunkCount(|rows|);
    Proposal(ChunkFiles(t, rows, n), t.encodeIndex(Index(audit, ChunkRefs(t, rows, n), |models|)))
  }

  /** The inner loop of `prepare`: one source file's definitions against the audit. */
  method ClassifyFile(models: map<string, Digest>, path: string, defs: seq<Def>)
      returns (ok: bool, tests: seq<TestRow>, seen: set<string>)
    ensures ok <==> FileMatches(models, path, defs)
    ensures ok ==> tests == TestRows(models, path, defs) && seen == models.Keys * FileNodes(path, defs)
  {
    tests, seen := [], {};
    for j := 0 to |defs|
      invariant tests == TestRows(models, path, defs)[..j]
      invariant seen == models.Keys * FileNodes(path, defs[..j])
      invariant forall k :: 0 <= k < j ==> NodeId(path, defs[k].name) in models ==>
        models[NodeId(path, defs[k].name)] == defs[k].ast
    {
      var node := NodeId(path, defs[j].name);
      NodesGrow(path, defs, j);
      if node in models {
        if models[node] != defs[j].ast { return false, tests, seen; }
        seen := seen + {node};
      }
      tests := tests + [TestRow(defs[j].name, defs[j].ast, KindOf(models, node))];
    }
    assert defs[..|defs|] == defs;
    assert TestRows(models, path, defs)[..|defs|] == TestRows(models, path, defs);
    ok := true;
  }

  method WriteChunks(t: Tools, records: seq<Row>) returns (files: map<string, string>, refs: seq<Ref>)
    ensures files == ChunkFiles(t, records, ChunkCount(|records|))
    ensures refs == ChunkRefs(t, records, ChunkCount(|records|))
  {
    files, refs := map[], [];
    for k := 0 to ChunkCount(|records|)
      invariant files == ChunkFiles(t, records, k) && refs == ChunkRefs(t, records, k)
    {
      var raw := t.encodeRows(Chunk(records, k));
      files := files[ChunkName(k) := raw];
      refs := refs + [Ref(ChunkName(k), Sha(raw))];
    }
  }

  /** One source of `prepare`: its row, and the audited nodes it defines. */
  method ScanSource(t: Tools, tree: Tree, path: string, models: map<string, Digest>)
      returns (ok: bool, row: Row, here: set<string>)
    requires path in tree
    ensures ok <==> SourceMatches(t, models, tree, path)
    ensures ok ==> row == RowFor(t, models, tree, path)
    ensures ok ==> here == models.Keys * FileNodes(path, Definitions(t, path, tree[path]))
  {
    var raw := tree[path];
    row, here := Row(path, Sha(raw), []), {};
    if !Readable(raw) || (HoldsTests(path) && t.nodes(raw).None?) { return false, row, here; }
    var tests;
    ok, tests, here := ClassifyFile(models, path, Definitions(t, path, raw));
    row := Row(path, Sha(raw), tests);
  }

  lemma MetNext(t: Tools, tree: Tree, paths: seq<string>, models: map<string, Digest>, i: nat)
    requires i < |paths| && forall p :: p in paths ==> p in tree
    ensures models.Keys * TreeNodes(t, tree, paths, i + 1) ==
      models.Keys * TreeNodes(t, tree, paths, i) +
        models.Keys * FileNodes(paths[i], Definitions(t, paths[i], tree[paths[i]]))
  {
  }

  /** The rows of the first sources, all of which match the audit. */
  predicate RowsUpTo(t: Tools, tree: Tree, paths: seq<string>, models: map<string, Digest>, rows: seq<Row>)
    requires |rows| <= |paths| && forall p :: p in paths ==> p in tree
  {
    forall k :: 0 <= k < |rows| ==>
      SourceMatches(t, models, tree, paths[k]) && rows[k] == RowFor(t, models, tree, paths[k])
  }

  /** The outer loop of `prepare`: the rows of all sources and the audited nodes met on the way. */
  method ScanSources(t: Tools, tree: Tree, paths: seq<string>, models: map<string, Digest>)
      returns (ok: bool, records: seq<Row>, seen: set<string>)
    requires forall p :: p in paths ==> p in tree
    ensures ok <==> forall i :: 0 <= i < |paths| ==> SourceMatches(t, models, tree, paths[i])
    ensures ok ==> records == RowsFor(t, models, tree, paths)
    ensures ok ==> seen == models.Keys * TreeNodes(t, tree, paths, |paths|)
  {
    records, seen := [], {};
    for i := 0 to |paths|
      invariant |records| == i && RowsUpTo(t, tree, paths, models, records)
      invariant seen == models.Keys * TreeNodes(t, tree, paths, i)
    {
      var matches, row, here := ScanSource(t, tree, paths[i], models);
      if !matches { return false, records, seen; }
      records := records + [row];
      MetNext(t, tree, paths, models, i);
      seen := seen + here;
    }
    RowsAre(t, models, tree, paths, records);
    ok := true;
  }

  lemma RowsAre(t: Tools, models: map<string, Digest>, tree: Tree, paths: seq<string>, rows: seq<Row>)
    requires (forall p :: p in paths ==> p in tree) && |rows| == |paths|
    requires forall k :: 0 <= k < |paths| ==> rows[k] == RowFor(t, models, tree, paths[k])
    ensures rows == RowsFor(t, models, tree, paths)
  {
  }

  /** The dictionary of audited nodes; a repeated node counts once. */
  function ModelsOf(entries: seq<(string, Digest)>): map<string, Digest> {
    if entries == [] then map[]
    else ModelsOf(entries[..|entries| - 1])[entries[|entries| - 1].0 := entries[|entries| - 1].1]
  }

  /** The audit is the one named by its digest, and its nodes are as many as it says. */
  predicate AuditOk(t: Tools, raw: string, sha: Digest) {
    && Readable(raw) && Sha(raw) == sha && t.decodeAudit(raw).Some?
    && |ModelsOf(t.decodeAudit(raw).value.entries)| == t.decodeAudit(raw).value.count
  }

  function AuditedModels(t: Tools, raw: string): map<string, Digest>
    requires t.decodeAudit(raw).Some?
  {
    ModelsOf(t.decodeAudit(raw).value.entries)
  }

  /** `prepare`: authenticate the audit, read every source, classify its definitions by the audit, and write the rows
      in chunks of 128 beside an index, in a directory that must not be there yet. */
  method Prepare(t: Tools, tree: Tree, paths: seq<string>, audit: string, sha: Digest, taken: bool)
      returns (r: Option<Proposal>)
    requires forall p :: p in paths ==> p in tree
    ensures r.Some? <==>
      AuditOk(t, audit, sha) && Preparable(t, AuditedModels(t, audit), tree, paths) && !taken
    ensures r.Some? ==>
      r.value == Proposed(t, AuditedModels(t, audit), RowsFor(t, AuditedModels(t, audit), tree, paths), sha)
  {
    if !Readable(audit) || Sha(audit) != sha { return None; }
    var decoded := t.decodeAudit(audit);
    if decoded.None? { return None; }
    var models := ModelsOf(decoded.value.entries);
    if |models| != decoded.value.count { return None; }
    var ok, records, seen := ScanSources(t, tree, paths, models);
    if !ok { return None; }
    assert seen == models.Keys <==> models.Keys <= TreeNodes(t, tree, paths, |paths|);
    if seen != models.Keys || taken { return None; }
    var files, refs := WriteChunks(t, records);
    r := Some(Proposal(files, t.encodeIndex(Index(sha, refs, |models|))));
  }

  lemma NodesGrow(path: string, defs: seq<Def>, j: nat)
    requires j < |defs|
    ensures FileNodes(path, defs[..j + 1]) == FileNodes(path, defs[..j]) + {NodeId(path, defs[j].name)}
  {
    var a, b := defs[..j], defs[..j + 1];
    forall x | x in FileNodes(path, a) ensures x in FileNodes(path, b) {
      var k :| 0 <= k < |a| && x == NodeId(path, a[k].name);
      assert b[k] == a[k];
    }
    assert b[j] == defs[j];
    forall x | x in FileNodes(path, b) && x != NodeId(path, defs[j].name) ensures x in FileNodes(path, a) {
      var k :| 0 <= k < |b| && x == NodeId(path, b[k].name);
      assert a[k] == b[k];
    }
  }

  // ---------------------------------------------------------------- the checker

  function PathsOf(rows: seq<Row>): set<string> { set i | 0 <= i < |rows| :: rows[i].path }

  predicate DistinctPaths(rows: seq<Row>) {
    forall i, j :: 0 <= i < j < |rows| ==> rows[i].path != rows[j].path
  }

  predicate ChunkNameOk(name: string) {
    StartsWith(name, "source-") && EndsWith(name, ".json") && '/' !in name
  }

  /** One chunk, if its reference is acceptable and its file is there, unchanged and well formed. */
  function ReadChunk(t: Tools, files: map<string, string>, ref: Ref): Option<seq<Row>> {
    if !ChunkNameOk(ref.path) || ref.path !in files then None
    else
      var raw := files[ref.path];
      if !Readable(raw) || Sha(raw) != ref.sha then None
      else
        var rows := t.decodeRows(raw);
        if rows.None? || !(1 <= |rows.value| <= CHUNK_ROWS) then None else rows
  }

  function ReadAll(t: Tools, files: map<string, string>, refs: seq<Ref>): Option<seq<Row>> {
    if refs == [] then Some([])
    else
      var before := ReadAll(t, files, refs[..|refs| - 1]);
      var last := ReadChunk(t, files, refs[|refs| - 1]);
      if before.None? || last.None? then None else Some(before.value + last.value)
  }

  predicate DistinctRefs(refs: seq<Ref>) {
    forall i, j :: 0 <= i < j < |refs| ==> refs[i].path != refs[j].path
  }

  function TestNames(tests: seq<TestRow>): set<string> { set i | 0 <= i < |tests| :: tests[i].name }
  function DefNames(defs: seq<Def>): set<string> { set i | 0 <= i < |defs| :: defs[i].name }

  /** The listed tests are the definitions, each exactly once. */
  predicate TestsOk(tests: seq<TestRow>, defs: seq<Def>) {
    && (forall i :: 0 <= i < |tests| ==> Def(tests[i].name, tests[i].ast) in defs)
    && (forall i, j :: 0 <= i < j < |tests| ==> tests[i].name != tests[j].name)
    && TestNames(tests) == DefNames(defs)
  }

  predicate RowOk(t: Tools, row: Row, raw: string) {
    && Readable(raw) && row.sha == Sha(raw) && Parses(t, row.path, raw)
    && TestsOk(row.tests, Definitions(t, row.path, raw))
  }

  function FileKinds(path: string, tests: seq<TestRow>): map<string, Kind> {
    if tests == [] then map[]
    else FileKinds(path, tests[..|tests| - 1])[NodeId(path, tests[|tests| - 1].name) := tests[|tests| - 1].kind]
  }

  function RecordMap(rows: seq<Row>): map<string, Row> {
    if rows == [] then map[] else RecordMap(rows[..|rows| - 1])[rows[|rows| - 1].path := rows[|rows| - 1]]
  }

  lemma {:induction false} RecordMapHolds(rows: seq<Row>)
    requires DistinctPaths(rows)
    ensures RecordMap(rows).Keys == PathsOf(rows)
    ensures forall i :: 0 <= i < |rows| ==> rows[i].path in RecordMap(rows) && RecordMap(rows)[rows[i].path] == rows[i]
  {
    if rows != [] {
      var n := |rows| - 1;
      RecordMapHolds(rows[..n]);
      PathsGrow(rows[..n], rows[n]);
      assert rows[..n] + [rows[n]] == rows;
    }
  }

  lemma PathsGrow(rows: seq<Row>, row: Row)
    ensures PathsOf(rows + [row]) == PathsOf(rows) + {row.path}
  {
    var all := rows + [row];
    forall p | p in PathsOf(rows) ensures p in PathsOf(all) {
      var i :| 0 <= i < |rows| && rows[i].path == p;
      assert all[i].path == p;
    }
    assert all[|rows|].path == row.path;
  }

  /** The classification: the tests of every source, file by file. */
  function Classified(records: map<string, Row>, paths: seq<string>, n: nat): map<string, Kind>
    requires n <= |paths| && forall p :: p in paths ==> p in records
  {
    if n == 0 then map[]
    else Classified(records, paths, n - 1) + FileKinds(paths[n - 1], records[paths[n - 1]].tests)
  }

  function ModelNodes(c: map<string, Kind>): set<string> { set k | k in c && c[k] == ModelWorkload }

  predicate IndexOk(index: Index) {
    1 <= |index.chunks| <= MAX_CHUNKS && 1 <= index.models <= MAX_MODELS && DistinctRefs(index.chunks)
  }

  /** The rows are one for each source path, each authenticating its content and definitions. */
  predicate RowsOk(t: Tools, tree: Tree, paths: seq<string>, rows: seq<Row>) {
    && DistinctPaths(rows) && PathsOf(rows) == (set p | p in paths)
    && (forall i :: 0 <= i < |rows| ==> rows[i].path in tree && RowOk(t, rows[i], tree[rows[i].path]))
  }

  function Classification(rows: seq<Row>, paths: seq<string>): map<string, Kind>
    requires DistinctPaths(rows) && PathsOf(rows) == (set p | p in paths)
  {
    RecordMapHolds(rows);
    Classified(RecordMap(rows), paths, |paths|)
  }

  predicate IndexAccepted(t: Tools, tree: Tree, paths: seq<string>, files: map<string, string>, index: Index) {
    && IndexOk(index) && ReadAll(t, files, index.chunks).Some?
    && var rows := ReadAll(t, files, index.chunks).value;
    && RowsOk(t, tree, paths, rows) && |ModelNodes(Classification(rows, paths))| == index.models
  }

  /** When `validate_inventory` accepts the inventory `files` and `indexRaw` for a tree, given the pin. */
  predicate Accepted(t: Tools, tree: Tree, paths: seq<string>, files: map<string, string>, indexRaw: string,
                     pin: Digest) {
    && Readable(indexRaw) && Sha(indexRaw) == pin && t.decodeIndex(indexRaw).Some?
    && IndexAccepted(t, tree, paths, files, t.decodeIndex(indexRaw).value)
  }

  function AcceptedRows(t: Tools, tree: Tree, paths: seq<string>, files: map<string, string>, indexRaw: string,
                        pin: Digest): seq<Row>
    requires Accepted(t, tree, paths, files, indexRaw, pin)
  {
    ReadAll(t, files, t.decodeIndex(indexRaw).value.chunks).value
  }

  /** What has been read of the chunks so far is the beginning of what all of them hold. */
  lemma {:induction false} ReadAllPrefix(t: Tools, files: map<string, string>, refs: seq<Ref>, c: nat)
    requires c <= |refs|
    ensures ReadAll(t, files, refs).Some? ==>
              ReadAll(t, files, refs[..c]).Some? && ReadAll(t, files, refs[..c]).value <= ReadAll(t, files, refs).value
    decreases |refs|
  {
    if c == |refs| {
      assert refs[..c] == refs;
    } else {
      ReadAllPrefix(t, files, refs[..|refs| - 1], c);
      assert refs[..|refs| - 1][..c] == refs[..c];
    }
  }

  /** One chunk that cannot be read leaves all of them unread. */
  lemma ReadAllNeedsEach(t: Tools, files: map<string, string>, refs: seq<Ref>, k: nat)
    requires k < |refs| && ReadChunk(t, files, refs[k]).None?
    ensures ReadAll(t, files, refs).None?
  {
    ReadAllPrefix(t, files, refs, k + 1);
    assert refs[..k + 1][k] == refs[k];
  }

  lemma AddOne(met: seq<Row>, row: Row)
    requires DistinctPaths(met)
    ensures DistinctPaths(met + [row]) <==> row.path !in RecordMap(met)
    ensures RecordMap(met + [row]) == RecordMap(met)[row.path := row]
  {
    RecordMapHolds(met);
    var all := met + [row];
    assert all[..|met|] == met && all[|met|] == row;
    if row.path in PathsOf(met) {
      var i :| 0 <= i < |met| && met[i].path == row.path;
      assert all[i].path == all[|met|].path;
    } else {
      forall i | 0 <= i < |met| ensures met[i].path != row.path { assert met[i].path in PathsOf(met); }
    }
  }

  lemma PrefixDistinct(rows: seq<Row>, some: seq<Row>)
    requires DistinctPaths(rows) && some <= rows
    ensures DistinctPaths(some)
  {
    forall i, j | 0 <= i < j < |some| ensures some[i].path != some[j].path {
      assert rows[i] == some[i] && rows[j] == some[j];
    }
  }

  /** One more row keeps the paths distinct exactly when its path is new; if not, no longer list has
      distinct paths either. */
  lemma NextRow(before: seq<Row>, rows: seq<Row>, k: nat)
    requires k < |rows| && DistinctPaths(before + rows[..k])
    ensures DistinctPaths(before + rows[..k + 1]) <==> rows[k].path !in RecordMap(before + rows[..k])
    ensures RecordMap(before + rows[..k + 1]) == RecordMap(before + rows[..k])[rows[k].path := rows[k]]
    ensures rows[k].path in RecordMap(before + rows[..k]) ==> !DistinctPaths(before + rows)
  {
    AddOne(before + rows[..k], rows[k]);
    assert before + rows[..k + 1] == before + rows[..k] + [rows[k]];
    if DistinctPaths(before + rows) { PrefixDistinct(before + rows, before + rows[..k + 1]); }
  }

  /** The row loop: every path of a chunk must be new. */
  method AddRows(records: map<string, Row>, ghost before: seq<Row>, rows: seq<Row>)
      returns (ok: bool, more: map<string, Row>)
    requires DistinctPaths(before) && records == RecordMap(before)
    ensures ok <==> DistinctPaths(before + rows)
    ensures ok ==> more == RecordMap(before + rows)
  {
    more := records;
    assert before + rows[..0] == before;
    for k := 0 to |rows|
      invariant DistinctPaths(before + rows[..k]) && more == RecordMap(before + rows[..k])
    {
      NextRow(before, rows, k);
      if rows[k].path in more { return false, more; }
      more := more[rows[k].path := rows[k]];
    }
    assert rows[..|rows|] == rows;
    ok := true;
  }

  lemma NamesExtend(refs: seq<Ref>, c: nat)
    requires c < |refs| && DistinctRefs(refs[..c])
    ensures DistinctRefs(refs[..c + 1]) <==> refs[c].path !in (set k | 0 <= k < c :: refs[k].path)
  {
    if DistinctRefs(refs[..c + 1]) {
      forall k | 0 <= k < c ensures refs[k].path != refs[c].path {
        assert refs[..c + 1][k].path != refs[..c + 1][c].path;
      }
    }
  }

  /** The first `c` chunks have been read and their rows collected. */
  ghost predicate Collected(t: Tools, files: map<string, string>, refs: seq<Ref>, c: nat, records: map<string, Row>)
    requires c <= |refs|
  {
    var all := ReadAll(t, files, refs[..c]);
    all.Some? && DistinctPaths(all.value) && records == RecordMap(all.value)
  }

  /** The body of the chunk loop: one more chunk, or the reason why all of them cannot be read. */
  method CollectChunk(t: Tools, files: map<string, string>, refs: seq<Ref>, c: nat, records: map<string, Row>)
      returns (ok: bool, more: map<string, Row>)
    requires c < |refs| && Collected(t, files, refs, c, records)
    ensures ok ==> Collected(t, files, refs, c + 1, more)
    ensures !ok ==> ReadAll(t, files, refs[..c + 1]).None? || !DistinctPaths(ReadAll(t, files, refs[..c + 1]).value)
  {
    assert refs[..c + 1][..c] == refs[..c] && refs[..c + 1][c] == refs[c];
    var chunk := ReadChunk(t, files, refs[c]);
    if chunk.None? { return false, records; }
    ok, more := AddRows(records, ReadAll(t, files, refs[..c]).value, chunk.value);
  }

  lemma PrefixCollects(t: Tools, files: map<string, string>, refs: seq<Ref>, c: nat)
    requires c <= |refs| && ReadAll(t, files, refs).Some? && DistinctPaths(ReadAll(t, files, refs).value)
    ensures ReadAll(t, files, refs[..c]).Some? && DistinctPaths(ReadAll(t, files, refs[..c]).value)
  {
    ReadAllPrefix(t, files, refs, c);
    PrefixDistinct(ReadAll(t, files, refs).value, ReadAll(t, files, refs[..c]).value);
  }

  /** The chunk loop: read every referenced chunk and collect its rows by path. */
  method ReadRecords(t: Tools, files: map<string, string>, refs: seq<Ref>) returns (r: Option<map<string, Row>>)
    ensures r.Some? <==>
      DistinctRefs(refs) && ReadAll(t, files, refs).Some? && DistinctPaths(ReadAll(t, files, refs).value)
    ensures r.Some? ==> r.value == RecordMap(ReadAll(t, files, refs).value)
  {
    var records: map<string, Row>, names: set<string> := map[], {};
    for c := 0 to |refs|
      invariant DistinctRefs(refs[..c]) && names == (set k | 0 <= k < c :: refs[k].path)
      invariant Collected(t, files, refs, c, records)
    {
      NamesExtend(refs, c);
      if refs[c].path in names { return None; }
      names := names + {refs[c].path};
      var ok, more := CollectChunk(t, files, refs, c, records);
      if !ok {
        if ReadAll(t, files, refs).Some? && DistinctPaths(ReadAll(t, files, refs).value) {
          PrefixCollects(t, files, refs, c + 1);
        }
        return None;
      }
      records := more;
    }
    assert refs[..|refs|] == refs;
    r := Some(records);
  }

  /** The first `n` listed tests are definitions, each listed once. */
  predicate Listed(tests: seq<TestRow>, defs: seq<Def>, n: nat)
    requires n <= |tests|
  {
    && (forall k :: 0 <= k < n ==> Def(tests[k].name, tests[k].ast) in defs)
    && (forall j, k :: 0 <= j < k < n ==> tests[j].name != tests[k].name)
  }

  lemma ListedNext(tests: seq<TestRow>, defs: seq<Def>, i: nat)
    requires i < |tests| && Listed(tests, defs, i)
    ensures Listed(tests, defs, i + 1) <==>
      Def(tests[i].name, tests[i].ast) in defs && tests[i].name !in TestNames(tests[..i])
    ensures TestNames(tests[..i + 1]) == TestNames(tests[..i]) + {tests[i].name}
  {
    FoundGrows(tests, i);
  }

  lemma KindsNext(path: string, tests: seq<TestRow>, i: nat)
    requires i < |tests|
    ensures FileKinds(path, tests[..i + 1]) == FileKinds(path, tests[..i])[NodeId(path, tests[i].name) := tests[i].kind]
  {
    assert tests[..i + 1][..i] == tests[..i];
  }

  /** The definition loop: the listed tests of one file against what it defines. */
  method CheckTests(path: string, tests: seq<TestRow>, defs: seq<Def>, classified: map<string, Kind>)
      returns (r: Option<map<string, Kind>>)
    ensures r.Some? <==> TestsOk(tests, defs)
    ensures r.Some? ==> r.value == classified + FileKinds(path, tests)
  {
    var found: set<string>, c := {}, classified;
    for i := 0 to |tests|
      invariant found == TestNames(tests[..i]) && Listed(tests, defs, i)
      invariant c == classified + FileKinds(path, tests[..i])
    {
      var node := tests[i];
      ListedNext(tests, defs, i);
      KindsNext(path, tests, i);
      if Def(node.name, node.ast) !in defs || node.name in found { return None; }
      found := found + {node.name};
      c := c[NodeId(path, node.name) := node.kind];
    }
    assert tests[..|tests|] == tests;
    r := if found == DefNames(defs) then Some(c) else None;
  }

  lemma FoundGrows(tests: seq<TestRow>, i: nat)
    requires i < |tests|
    ensures TestNames(tests[..i + 1]) == TestNames(tests[..i]) + {tests[i].name}
    ensures tests[i].name in TestNames(tests[..i]) ==> exists k :: 0 <= k < i && tests[k].name == tests[i].name
    ensures forall k :: 0 <= k < i ==> tests[k].name in TestNames(tests[..i])
  {
    var a, b := tests[..i], tests[..i + 1];
    forall k | 0 <= k < i ensures tests[k].name in TestNames(a) && tests[k].name in TestNames(b) {
      assert a[k].name == tests[k].name && b[k].name == tests[k].name;
    }
    assert b[i].name == tests[i].name;
    forall x | x in TestNames(b) && x != tests[i].name ensures x in TestNames(a) {
      var k :| 0 <= k < |b| && b[k].name == x;
      assert a[k].name == x;
    }
  }

  /** The source loop: every row against the tree, and the classification of its tests. */
  method CheckSources(t: Tools, tree: Tree, paths: seq<string>, records: map<string, Row>)
      returns (r: Option<map<string, Kind>>)
    requires forall p :: p in paths ==> p in tree && p in records && records[p].path == p
    ensures r.Some? <==> forall i :: 0 <= i < |paths| ==> RowOk(t, records[paths[i]], tree[paths[i]])
    ensures r.Some? ==> r.value == Classified(records, paths, |paths|)
  {
    var c: map<string, Kind> := map[];
    for i := 0 to |paths|
      invariant c == Classified(records, paths, i)
      invariant forall k :: 0 <= k < i ==> RowOk(t, records[paths[k]], tree[paths[k]])
    {
      var row, raw := records[paths[i]], tree[paths[i]];
      if !Readable(raw) || Sha(raw) != row.sha || (HoldsTests(paths[i]) && t.nodes(raw).None?) { return None; }
      var more := CheckTests(paths[i], row.tests, Definitions(t, paths[i], raw), c);
      if more.None? { return None; }
      c := more.value;
    }
    r := Some(c);
  }

  /** The checks after the chunks have been read, on records that come from distinct rows. */
  method CheckRecords(t: Tools, tree: Tree, paths: seq<string>, records: map<string, Row>, ghost rows: seq<Row>,
                      models: nat)
      returns (r: Option<map<string, Kind>>)
    requires DistinctPaths(rows) && records == RecordMap(rows) && forall p :: p in paths ==> p in tree
    ensures r.Some? <==> RowsOk(t, tree, paths, rows) && |ModelNodes(Classification(rows, paths))| == models
    ensures r.Some? ==> r.value == Classification(rows, paths)
  {
    RecordMapHolds(rows);
    if records.Keys != (set p | p in paths) { return None; }
    RecordsAreRows(t, tree, paths, rows);
    r := CheckSources(t, tree, paths, records);
    if r.Some? && |ModelNodes(r.value)| != models { return None; }
  }

  method ValidateIndex(t: Tools, tree: Tree, paths: seq<string>, files: map<string, string>, index: Index)
      returns (r: Option<map<string, Kind>>)
    requires forall p :: p in paths ==> p in tree
    ensures r.Some? <==> IndexAccepted(t, tree, paths, files, index)
    ensures r.Some? ==> r.value == Classification(ReadAll(t, files, index.chunks).value, paths)
  {
    if !(1 <= |index.chunks| <= MAX_CHUNKS) || !(1 <= index.models <= MAX_MODELS) { return None; }
    var found := ReadRecords(t, files, index.chunks);
    if found.None? { return None; }
    r := CheckRecords(t, tree, paths, found.value, ReadAll(t, files, index.chunks).value, index.models);
  }

  /** `validate_inventory`: authenticate the index by its pin, every chunk by the index, every source and
      test definition by its row, and classify. */
  method Validate(t: Tools, tree: Tree, paths: seq<string>, files: map<string, string>, indexRaw: string, pin: Digest)
      returns (r: Option<map<string, Kind>>)
    requires forall p :: p in paths ==> p in tree
    ensures r.Some? <==> Accepted(t, tree, paths, files, indexRaw, pin)
    ensures r.Some? ==> r.value == Classification(AcceptedRows(t, tree, paths, files, indexRaw, pin), paths)
  {
    if !Readable(indexRaw) || Sha(indexRaw) != pin { return None; }
    var decoded := t.decodeIndex(indexRaw);
    if decoded.None? { return None; }
    r := ValidateIndex(t, tree, paths, files, decoded.value);
  }

  /** Checking the records path by path is checking the rows one by one. */
  lemma RecordsAreRows(t: Tools, tree: Tree, paths: seq<string>, rows: seq<Row>)
    requires DistinctPaths(rows) && RecordMap(rows).Keys == (set p | p in paths) && forall p :: p in paths ==> p in tree
    ensures forall p :: p in paths ==> RecordMap(rows)[p].path == p
    ensures RowsOk(t, tree, paths, rows) <==>
      forall i :: 0 <= i < |paths| ==>
        paths[i] in RecordMap(rows) && RowOk(t, RecordMap(rows)[paths[i]], tree[paths[i]])
  {
    RecordMapHolds(rows);
    forall i | 0 <= i < |paths|
      ensures paths[i] in RecordMap(rows) && RecordMap(rows)[paths[i]].path == paths[i]
        && RecordMap(rows)[paths[i]] in rows
    {
      RecordIsRow(rows, paths[i]);
    }
    forall i | 0 <= i < |rows|
      ensures rows[i].path in paths && RecordMap(rows)[rows[i].path] == rows[i]
    {
      assert rows[i].path in PathsOf(rows);
    }
  }

  lemma RecordIsRow(rows: seq<Row>, path: string)
    requires DistinctPaths(rows) && path in PathsOf(rows)
    ensures path in RecordMap(rows) && RecordMap(rows)[path] in rows && RecordMap(rows)[path].path == path
  {
    RecordMapHolds(rows);
    var i :| 0 <= i < |rows| && rows[i].path == path;
    assert RecordMap(rows)[rows[i].path] == rows[i];
  }
}
