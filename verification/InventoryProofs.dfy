/** Builder, checker and consumer of the CI workload inventory agree. */
module InventoryProofs {
  import opened Wrappers
  import opened Decimals
  import opened Inventory

  // ---------------------------------------------------------------- chunk names

  function Numeral(k: nat): string { if k + 1 < 10 then "0" + Decimal(k + 1) else Decimal(k + 1) }

  lemma NumeralValue(k: nat)
    ensures AllDigits(Numeral(k)) && Value(Numeral(k)) == k + 1
  {
    ValueOfDecimal(k + 1);
    if k + 1 < 10 {
      var s := Numeral(k);
      assert s[..1] == "0" && s[1] == Digit(k + 1);
      assert "0"[..0] == "";
      assert Value("0") == 0;
    }
  }

  lemma ChunkNamesDiffer(a: nat, b: nat)
    requires ChunkName(a) == ChunkName(b)
    ensures a == b
  {
    NumeralValue(a);
    NumeralValue(b);
    assert ChunkName(a) == "source-" + Numeral(a) + ".json" && ChunkName(b) == "source-" + Numeral(b) + ".json";
    assert ChunkName(a)[7..|ChunkName(a)| - 5] == Numeral(a);
    assert ChunkName(b)[7..|ChunkName(b)| - 5] == Numeral(b);
  }

  lemma ChunkNamesPass(k: nat)
    ensures ChunkNameOk(ChunkName(k))
  {
    NumeralValue(k);
    var name := ChunkName(k);
    assert name == "source-" + Numeral(k) + ".json";
    assert name[|name| - 5..] == ".json";
    assert forall i :: 0 <= i < |Numeral(k)| ==> IsDigit(Numeral(k)[i]);
  }

  // ---------------------------------------------------------------- reading back what was written

  function Min(a: nat, b: nat): nat { if a < b then a else b }

  lemma {:induction false} FilesHoldChunks(t: Tools, rows: seq<Row>, n: nat, k: nat)
    requires k < n
    ensures ChunkName(k) in ChunkFiles(t, rows, n)
      && ChunkFiles(t, rows, n)[ChunkName(k)] == t.encodeRows(Chunk(rows, k))
  {
    if k < n - 1 {
      FilesHoldChunks(t, rows, n - 1, k);
      if ChunkName(k) == ChunkName(n - 1) { ChunkNamesDiffer(k, n - 1); }
    }
  }

  /** The chunks are the rows cut into runs of at most 128, in order and without loss. */
  lemma ChunksCover(rows: seq<Row>, k: nat)
    requires k < ChunkCount(|rows|)
    ensures 1 <= |Chunk(rows, k)| <= CHUNK_ROWS
    ensures rows[..Min((k + 1) * CHUNK_ROWS, |rows|)] == rows[..Min(k * CHUNK_ROWS, |rows|)] + Chunk(rows, k)
  {
    assert k * CHUNK_ROWS < |rows|;
  }

  predicate ChunksFit(t: Tools, rows: seq<Row>) {
    forall k :: 0 <= k < ChunkCount(|rows|) ==> Readable(t.encodeRows(Chunk(rows, k)))
  }

  lemma {:induction false} ReadsBack(t: Tools, rows: seq<Row>, n: nat)
    requires Lawful(t) && n <= ChunkCount(|rows|) && ChunksFit(t, rows)
    ensures ReadAll(t, ChunkFiles(t, rows, ChunkCount(|rows|)), ChunkRefs(t, rows, n)) ==
      Some(rows[..Min(n * CHUNK_ROWS, |rows|)])
  {
    var files, refs := ChunkFiles(t, rows, ChunkCount(|rows|)), ChunkRefs(t, rows, n);
    if n > 0 {
      var k := n - 1;
      ReadsBack(t, rows, k);
      assert refs[..k] == ChunkRefs(t, rows, k);
      FilesHoldChunks(t, rows, ChunkCount(|rows|), k);
      ChunkNamesPass(k);
      ChunksCover(rows, k);
      assert ReadChunk(t, files, refs[k]) == Some(Chunk(rows, k));
    }
  }

  // ---------------------------------------------------------------- the rows pass

  predicate Listing(tree: Tree, paths: seq<string>) {
    (set p | p in paths) == tree.Keys && forall i, j :: 0 <= i < j < |paths| ==> paths[i] != paths[j]
  }

  lemma OwnTestsPass(models: map<string, Digest>, path: string, defs: seq<Def>)
    requires DistinctNames(defs)
    ensures TestsOk(TestRows(models, path, defs), defs)
  {
    var tests := TestRows(models, path, defs);
    forall i | 0 <= i < |tests| ensures Def(tests[i].name, tests[i].ast) in defs {
      assert defs[i] == Def(tests[i].name, tests[i].ast);
    }
    forall x ensures x in TestNames(tests) <==> x in DefNames(defs) {
      if x in TestNames(tests) { var i :| 0 <= i < |tests| && tests[i].name == x; assert defs[i].name == x; }
      if x in DefNames(defs) { var i :| 0 <= i < |defs| && defs[i].name == x; assert tests[i].name == x; }
    }
  }

  lemma OwnRowPasses(t: Tools, models: map<string, Digest>, tree: Tree, path: string)
    requires Lawful(t) && path in tree && SourceMatches(t, models, tree, path)
    ensures RowOk(t, RowFor(t, models, tree, path), tree[path])
  {
    assert t.nodes(tree[path]).Some? ==> DistinctNames(t.nodes(tree[path]).value);
    OwnTestsPass(models, path, Definitions(t, path, tree[path]));
  }

  lemma OwnPaths(t: Tools, models: map<string, Digest>, tree: Tree, paths: seq<string>)
    requires forall p :: p in paths ==> p in tree
    ensures PathsOf(RowsFor(t, models, tree, paths)) == (set p | p in paths)
  {
    var rows := RowsFor(t, models, tree, paths);
    forall p ensures p in PathsOf(rows) <==> p in paths {
      if p in PathsOf(rows) { var i :| 0 <= i < |rows| && rows[i].path == p; assert paths[i] == p; }
      if p in paths { var i :| 0 <= i < |paths| && paths[i] == p; assert rows[i].path == p; }
    }
  }

  lemma OwnRowsPass(t: Tools, models: map<string, Digest>, tree: Tree, paths: seq<string>)
    requires Lawful(t) && Listing(tree, paths) && forall i :: 0 <= i < |paths| ==>
      SourceMatches(t, models, tree, paths[i])
    ensures RowsOk(t, tree, paths, RowsFor(t, models, tree, paths))
  {
    var rows := RowsFor(t, models, tree, paths);
    OwnPaths(t, models, tree, paths);
    forall i | 0 <= i < |rows| ensures rows[i].path in tree && RowOk(t, rows[i], tree[rows[i].path]) {
      assert rows[i] == RowFor(t, models, tree, paths[i]) && paths[i] in paths;
      OwnRowPasses(t, models, tree, paths[i]);
    }
  }

  // ---------------------------------------------------------------- the classification is the audit

  lemma {:induction false} KindsAreAudit(models: map<string, Digest>, path: string, tests: seq<TestRow>, defs: seq<Def>)
    requires tests == TestRows(models, path, defs)
    ensures FileKinds(path, tests).Keys == FileNodes(path, defs)
    ensures forall k :: k in FileKinds(path, tests) ==> FileKinds(path, tests)[k] == KindOf(models, k)
    decreases |defs|
  {
    if defs != [] {
      var n := |defs| - 1;
      assert tests[..n] == TestRows(models, path, defs[..n]);
      KindsAreAudit(models, path, tests[..n], defs[..n]);
      NodesGrow(path, defs, n);
      assert defs[..n + 1] == defs;
    }
  }

  lemma {:induction false} ClassifiedIsAudit(t: Tools, models: map<string, Digest>, tree: Tree, paths: seq<string>,
                                             records: map<string, Row>, n: nat)
    requires n <= |paths| && forall p :: p in paths ==>
      p in tree && p in records && records[p] == RowFor(t, models, tree, p)
    ensures Classified(records, paths, n).Keys == TreeNodes(t, tree, paths, n)
    ensures forall k :: k in Classified(records, paths, n) ==> Classified(records, paths, n)[k] == KindOf(models, k)
  {
    hide Definitions, TestRows, FileKinds, FileNodes, KindOf;
    if n > 0 {
      ClassifiedIsAudit(t, models, tree, paths, records, n - 1);
      var path := paths[n - 1];
      KindsAreAudit(models, path, records[path].tests, Definitions(t, path, tree[path]));
    }
  }

  lemma ClassificationIsAudit(t: Tools, models: map<string, Digest>, tree: Tree, paths: seq<string>)
    requires Listing(tree, paths) && Preparable(t, models, tree, paths)
    requires RowsOk(t, tree, paths, RowsFor(t, models, tree, paths))
    ensures var c := Classification(RowsFor(t, models, tree, paths), paths);
      && ModelNodes(c) == models.Keys
      && c.Keys == TreeNodes(t, tree, paths, |paths|)
      && forall k :: k in c ==> c[k] == KindOf(models, k)
  {
    var rows := RowsFor(t, models, tree, paths);
    RecordMapHolds(rows);
    forall p | p in paths ensures p in RecordMap(rows) && RecordMap(rows)[p] == RowFor(t, models, tree, p) {
      var i :| 0 <= i < |paths| && paths[i] == p;
      assert rows[i].path == p;
    }
    ClassifiedIsAudit(t, models, tree, paths, RecordMap(rows), |paths|);
  }

  // ---------------------------------------------------------------- main results

  /** The bounds the checker sets and the builder does not look at. */
  predicate WithinBounds(t: Tools, models: map<string, Digest>, rows: seq<Row>, audit: Digest) {
    && ChunkCount(|rows|) <= MAX_CHUNKS && 1 <= |models| <= MAX_MODELS && ChunksFit(t, rows)
    && Readable(Proposed(t, models, rows, audit).index)
  }

  lemma OwnRefsDistinct(t: Tools, rows: seq<Row>, n: nat)
    ensures DistinctRefs(ChunkRefs(t, rows, n))
  {
    var refs := ChunkRefs(t, rows, n);
    forall i, j | 0 <= i < j < n ensures refs[i].path != refs[j].path {
      if ChunkName(i) == ChunkName(j) { ChunkNamesDiffer(i, j); }
    }
  }

  /** Whatever `prepare` proposes for a tree within the bounds is accepted by `validate_inventory` once it
      is pinned, and its model nodes are exactly the audited ones. Outside the bounds it is refused. */
  lemma PreparedIsAccepted(t: Tools, tree: Tree, paths: seq<string>, models: map<string, Digest>, audit: Digest)
    requires Lawful(t) && Listing(tree, paths) && Preparable(t, models, tree, paths)
    ensures var rows := RowsFor(t, models, tree, paths); var p := Proposed(t, models, rows, audit);
      && (Accepted(t, tree, paths, p.files, p.index, Sha(p.index)) <==> WithinBounds(t, models, rows, audit))
      && (WithinBounds(t, models, rows, audit) ==>
            && AcceptedRows(t, tree, paths, p.files, p.index, Sha(p.index)) == rows
            && ModelNodes(Classification(rows, paths)) == models.Keys)
  {
    var rows := RowsFor(t, models, tree, paths);
    ProposalIndex(t, models, rows, audit);
    OwnRowsPass(t, models, tree, paths);
    ClassificationIsAudit(t, models, tree, paths);
    var n := ChunkCount(|rows|);
    if |models| > 0 { SomeChunk(t, models, tree, paths); }
    IndexBounds(t, tree, paths, models, rows, Index(audit, ChunkRefs(t, rows, n), |models|));
  }

  lemma IndexBounds(t: Tools, tree: Tree, paths: seq<string>, models: map<string, Digest>, rows: seq<Row>, index: Index)
    requires Lawful(t) && RowsOk(t, tree, paths, rows) && ModelNodes(Classification(rows, paths)) == models.Keys
    requires |models| > 0 ==> ChunkCount(|rows|) >= 1
    requires index.chunks == ChunkRefs(t, rows, ChunkCount(|rows|)) && index.models == |models|
    ensures var files := ChunkFiles(t, rows, ChunkCount(|rows|));
      && (IndexAccepted(t, tree, paths, files, index) <==>
            ChunkCount(|rows|) <= MAX_CHUNKS && 1 <= |models| <= MAX_MODELS && ChunksFit(t, rows))
      && (ChunksFit(t, rows) ==> ReadAll(t, files, index.chunks) == Some(rows))
  {
    OwnRefsDistinct(t, rows, ChunkCount(|rows|));
    assert |models| == |models.Keys|;
    if ChunksFit(t, rows) {
      ReadsBack(t, rows, ChunkCount(|rows|));
      assert rows[..Min(ChunkCount(|rows|) * CHUNK_ROWS, |rows|)] == rows;
    } else {
      UnreadableChunkRefused(t, rows);
    }
  }

  /** `prepare` itself checks no bound: from an audit that names no model definition it writes a proposal,
      for any readable tree whose tests parse, that the checker refuses. */
  lemma EmptyAuditIsRefused(t: Tools, tree: Tree, paths: seq<string>, audit: Digest)
    requires Lawful(t) && Listing(tree, paths) && forall p :: p in tree ==> Readable(tree[p]) && Parses(t, p, tree[p])
    ensures Preparable(t, map[], tree, paths)
    ensures var p := Proposed(t, map[], RowsFor(t, map[], tree, paths), audit);
      !Accepted(t, tree, paths, p.files, p.index, Sha(p.index))
  {
    PreparedIsAccepted(t, tree, paths, map[], audit);
  }

  /** In a tree whose inventory is accepted, every file is readable and every file of tests parses. */
  lemma AcceptedParses(t: Tools, tree: Tree, paths: seq<string>, files: map<string, string>, indexRaw: string,
                       pin: Digest, path: string)
    requires Listing(tree, paths) && path in tree && Accepted(t, tree, paths, files, indexRaw, pin)
    ensures Readable(tree[path]) && Parses(t, path, tree[path])
  {
    var rows := AcceptedRows(t, tree, paths, files, indexRaw, pin);
    assert path in PathsOf(rows);
    var k :| 0 <= k < |rows| && rows[k].path == path;
    assert RowOk(t, rows[k], tree[path]);
  }

  /** A test file that does not parse stops both: `prepare` proposes nothing for its tree, whatever the audit, and
      `validate_inventory` accepts no inventory of it, whatever the pin. */
  lemma UnparsableTestIsRefused(t: Tools, tree: Tree, paths: seq<string>, path: string, models: map<string, Digest>,
                                files: map<string, string>, indexRaw: string, pin: Digest)
    requires Listing(tree, paths) && path in tree && HoldsTests(path) && t.nodes(tree[path]).None?
    ensures !Preparable(t, models, tree, paths) && !Accepted(t, tree, paths, files, indexRaw, pin)
  {
    var i :| 0 <= i < |paths| && paths[i] == path;
    assert !SourceMatches(t, models, tree, paths[i]);
    if Accepted(t, tree, paths, files, indexRaw, pin) { AcceptedParses(t, tree, paths, files, indexRaw, pin, path); }
  }

  // ---------------------------------------------------------------- which files hold tests

  /** Empty, or ending in a slash. */
  predicate IsDirectory(d: string) { d == "" || d[|d| - 1] == '/' }

  lemma BaseNameStep(path: string)
    ensures path == "" || path[|path| - 1] == '/' ==> BaseName(path) == ""
    ensures path != "" && path[|path| - 1] != '/' ==>
      BaseName(path) == BaseName(path[..|path| - 1]) + [path[|path| - 1]]
  {
  }

  lemma {:induction false} BaseNameIs(d: string, name: string)
    requires IsDirectory(d) && '/' !in name
    ensures BaseName(d + name) == name
    decreases |name|
  {
    hide BaseName;
    BaseNameStep(d + name);
    if name == "" {
      assert d + name == d;
    } else {
      var n := |name| - 1;
      assert (d + name)[..|d + name| - 1] == d + name[..n];
      BaseNameIs(d, name[..n]);
      assert name[..n] + [name[n]] == name;
    }
  }

  /** A path holds tests exactly when it lies below backend/tests, in whatever directory, and its file name begins
      with test_. */
  lemma HoldsTestsIff(d: string, name: string)
    requires IsDirectory(d) && '/' !in name
    ensures HoldsTests("backend/tests/" + d + name) <==> "test_" <= name
  {
    var folder := "backend/tests/";
    assert folder[|folder| - 1] == '/';
    assert folder + d + name == (folder + d) + name;
    assert (folder + d + name)[..|folder|] == folder;
    BaseNameIs(folder + d, name);
  }

  lemma OthersHoldNone(path: string)
    requires !("backend/tests/" <= path)
    ensures !HoldsTests(path)
  {
  }

  /** The definitions that parsing a file of tests yields are what its prepared row lists, in order and with their
      digests, and what an accepted inventory lists for it, each exactly once; a file elsewhere has none to list. */
  lemma TestFilesAreListed(t: Tools, models: map<string, Digest>, tree: Tree, paths: seq<string>,
                           files: map<string, string>, indexRaw: string, pin: Digest, d: string, name: string)
    requires Lawful(t) && IsDirectory(d) && '/' !in name && "test_" <= name && Listing(tree, paths)
    requires var path := "backend/tests/" + d + name; path in tree && t.nodes(tree[path]).Some?
    ensures var path := "backend/tests/" + d + name; var defs := t.nodes(tree[path]).value;
      && |RowFor(t, models, tree, path).tests| == |defs|
      && (forall k :: 0 <= k < |defs| ==>
            RowFor(t, models, tree, path).tests[k].name == defs[k].name
            && RowFor(t, models, tree, path).tests[k].ast == defs[k].ast)
      && (Accepted(t, tree, paths, files, indexRaw, pin) ==>
            exists i :: 0 <= i < |AcceptedRows(t, tree, paths, files, indexRaw, pin)|
              && AcceptedRows(t, tree, paths, files, indexRaw, pin)[i].path == path
              && |AcceptedRows(t, tree, paths, files, indexRaw, pin)[i].tests| == |defs|
              && forall def :: def in defs ==>
                   exists j :: ListedOnceAt(AcceptedRows(t, tree, paths, files, indexRaw, pin)[i].tests, def, j))
  {
    var path := "backend/tests/" + d + name;
    HoldsTestsIff(d, name);
    assert DistinctNames(t.nodes(tree[path]).value);
    hide HoldsTests;
    if Accepted(t, tree, paths, files, indexRaw, pin) {
      var i := AcceptedCoversOnce(t, tree, paths, files, indexRaw, pin, path);
    }
  }

  lemma OtherFilesListNone(t: Tools, models: map<string, Digest>, tree: Tree, paths: seq<string>,
                           files: map<string, string>, indexRaw: string, pin: Digest, path: string)
    requires Listing(tree, paths) && path in tree && !("backend/tests/" <= path)
    ensures RowFor(t, models, tree, path).tests == []
    ensures Accepted(t, tree, paths, files, indexRaw, pin) ==>
      forall i :: 0 <= i < |AcceptedRows(t, tree, paths, files, indexRaw, pin)|
                  && AcceptedRows(t, tree, paths, files, indexRaw, pin)[i].path == path ==>
        AcceptedRows(t, tree, paths, files, indexRaw, pin)[i].tests == []
  {
    OthersHoldNone(path);
    if Accepted(t, tree, paths, files, indexRaw, pin) {
      var rows := AcceptedRows(t, tree, paths, files, indexRaw, pin);
      forall i | 0 <= i < |rows| && rows[i].path == path ensures rows[i].tests == [] {
        NoTestsToList(t, rows[i], tree[path]);
      }
    }
  }

  lemma FirstIsNamed(tests: seq<TestRow>)
    ensures tests != [] ==> tests[0].name in TestNames(tests)
  {
  }

  lemma NoTestsToList(t: Tools, row: Row, raw: string)
    requires RowOk(t, row, raw) && !HoldsTests(row.path)
    ensures row.tests == []
  {
    assert DefNames(Definitions(t, row.path, raw)) == {};
    FirstIsNamed(row.tests);
  }

  /** The proposed index decodes to the proposal's own references, which are distinct. */
  lemma ProposalIndex(t: Tools, models: map<string, Digest>, rows: seq<Row>, audit: Digest)
    requires Lawful(t)
    ensures var n := ChunkCount(|rows|); var index := t.decodeIndex(Proposed(t, models, rows, audit).index);
      && index == Some(Index(audit, ChunkRefs(t, rows, n), |models|))
      && (IndexOk(index.value) <==> 1 <= n <= MAX_CHUNKS && 1 <= |models| <= MAX_MODELS)
  {
    var n := ChunkCount(|rows|);
    var index := Index(audit, ChunkRefs(t, rows, n), |models|);
    assert t.decodeIndex(t.encodeIndex(index)) == Some(index);
    OwnRefsDistinct(t, rows, n);
  }

  /** An audited node lies in some source file, so there is at least one chunk. */
  lemma SomeChunk(t: Tools, models: map<string, Digest>, tree: Tree, paths: seq<string>)
    requires forall p :: p in paths ==> p in tree
    requires models.Keys <= TreeNodes(t, tree, paths, |paths|) && |models| > 0
    ensures ChunkCount(|paths|) >= 1
  {
    var node :| node in models.Keys;
    assert node in TreeNodes(t, tree, paths, |paths|);
  }

  lemma UnreadableChunkRefused(t: Tools, rows: seq<Row>)
    requires !ChunksFit(t, rows)
    ensures ReadAll(t, ChunkFiles(t, rows, ChunkCount(|rows|)), ChunkRefs(t, rows, ChunkCount(|rows|))).None?
  {
    var n := ChunkCount(|rows|);
    var files, refs := ChunkFiles(t, rows, n), ChunkRefs(t, rows, n);
    var k :| 0 <= k < n && !Readable(t.encodeRows(Chunk(rows, k)));
    FilesHoldChunks(t, rows, n, k);
    assert ReadChunk(t, files, refs[k]).None?;
    ReadAllNeedsEach(t, files, refs, k);
  }

  lemma {:induction false} SameChunks(t: Tools, files: map<string, string>, others: map<string, string>, refs: seq<Ref>)
    requires ReadAll(t, files, refs).Some? && ReadAll(t, others, refs).Some?
    ensures ReadAll(t, files, refs) == ReadAll(t, others, refs)
    decreases |refs|
  {
    if refs != [] { SameChunks(t, files, others, refs[..|refs| - 1]); }
  }

  /** One pin accepts one tree: adding, dropping or changing any source file, under whatever inventory
      files, is rejected. */
  lemma PinFixesTheTree(t: Tools, tree: Tree, paths: seq<string>, files: map<string, string>, indexRaw: string,
                        tree': Tree, paths': seq<string>, files': map<string, string>, indexRaw': string, pin: Digest)
    requires Listing(tree, paths) && Listing(tree', paths')
    requires Accepted(t, tree, paths, files, indexRaw, pin) && Accepted(t, tree', paths', files', indexRaw', pin)
    ensures tree == tree' && indexRaw == indexRaw'
    ensures AcceptedRows(t, tree, paths, files, indexRaw, pin) == AcceptedRows(t, tree', paths', files', indexRaw', pin)
  {
    SameChunks(t, files, files', t.decodeIndex(indexRaw).value.chunks);
    RowsFixTheTree(t, tree, paths, tree', paths', AcceptedRows(t, tree, paths, files, indexRaw, pin));
  }

  lemma RowsFixTheTree(t: Tools, tree: Tree, paths: seq<string>, tree': Tree, paths': seq<string>, rows: seq<Row>)
    requires Listing(tree, paths) && Listing(tree', paths')
    requires RowsOk(t, tree, paths, rows) && RowsOk(t, tree', paths', rows)
    ensures tree == tree'
  {
    assert tree.Keys == PathsOf(rows) == tree'.Keys;
    forall p | p in tree ensures tree[p] == tree'[p] {
      var i :| 0 <= i < |rows| && rows[i].path == p;
      assert RowOk(t, rows[i], tree[p]) && RowOk(t, rows[i], tree'[p]);
    }
  }

  ghost predicate ListedOnceAt(tests: seq<TestRow>, d: Def, j: nat) {
    && j < |tests| && Def(tests[j].name, tests[j].ast) == d
    && (forall k :: 0 <= k < |tests| && k != j ==> tests[k].name != d.name)
  }

  /** Acceptance means complete authentication: every source file has exactly one record, which carries the
      digest of its content and lists each of its test definitions exactly once with its digest. */
  lemma AcceptedCoversOnce(t: Tools, tree: Tree, paths: seq<string>, files: map<string, string>, indexRaw: string,
                           pin: Digest, path: string) returns (i: nat)
    requires Listing(tree, paths) && Accepted(t, tree, paths, files, indexRaw, pin) && path in tree
    requires DistinctNames(Definitions(t, path, tree[path]))
    ensures var rows := AcceptedRows(t, tree, paths, files, indexRaw, pin);
      var defs := Definitions(t, path, tree[path]);
      && i < |rows| && rows[i].path == path && rows[i].sha == Sha(tree[path])
      && (forall k :: 0 <= k < |rows| && k != i ==> rows[k].path != path)
      && |rows[i].tests| == |defs|
      && (forall d :: d in defs ==> exists j :: ListedOnceAt(rows[i].tests, d, j))
  {
    var rows := AcceptedRows(t, tree, paths, files, indexRaw, pin);
    assert path in PathsOf(rows);
    i :| 0 <= i < |rows| && rows[i].path == path;
    assert RowOk(t, rows[i], tree[path]);
    TestsListedOnce(rows[i].tests, Definitions(t, path, tree[path]));
  }

  lemma TestsListedOnce(tests: seq<TestRow>, defs: seq<Def>)
    requires TestsOk(tests, defs) && DistinctNames(defs)
    ensures |tests| == |defs|
    ensures forall d :: d in defs ==> exists j :: ListedOnceAt(tests, d, j)
  {
    NameCount(tests, defs);
    forall d | d in defs ensures exists j :: ListedOnceAt(tests, d, j) {
      assert d.name in DefNames(defs);
      var j :| 0 <= j < |tests| && tests[j].name == d.name;
      var m :| 0 <= m < |defs| && defs[m] == Def(tests[j].name, tests[j].ast);
      var n :| 0 <= n < |defs| && defs[n] == d;
      assert m == n;
      assert ListedOnceAt(tests, d, j);
    }
  }

  lemma NameCount(tests: seq<TestRow>, defs: seq<Def>)
    requires TestsOk(tests, defs) && DistinctNames(defs)
    ensures |tests| == |defs|
  {
    TestNameCount(tests);
    DefNameCount(defs);
  }

  lemma {:induction false} TestNameCount(tests: seq<TestRow>)
    requires forall i, j :: 0 <= i < j < |tests| ==> tests[i].name != tests[j].name
    ensures |TestNames(tests)| == |tests|
  {
    if tests != [] {
      var n := |tests| - 1;
      TestNameCount(tests[..n]);
      FoundGrows(tests, n);
      assert tests[..n + 1] == tests;
    }
  }

  lemma {:induction false} DefNameCount(defs: seq<Def>)
    requires DistinctNames(defs)
    ensures |DefNames(defs)| == |defs|
  {
    if defs != [] {
      var n := |defs| - 1;
      var before := defs[..n];
      DefNameCount(before);
      forall x ensures x in DefNames(defs) <==> x in DefNames(before) + {defs[n].name} {
        if x in DefNames(defs) {
          var i :| 0 <= i < |defs| && defs[i].name == x;
          if i < n { assert before[i].name == x; }
        }
        if x in DefNames(before) { var i :| 0 <= i < n && before[i].name == x; assert defs[i].name == x; }
      }
      assert DefNames(defs) == DefNames(before) + {defs[n].name};
      assert forall i :: 0 <= i < n ==> before[i].name == defs[i].name && defs[i].name != defs[n].name;
    }
  }

  // ---------------------------------------------------------------- the consumer

  /** A collected test: its file, relative to the root, and its pytest node identifier. */
  datatype Item = Item(path: string, nodeId: string)

  function AfterSeparator(s: string): string {
    if s == "" then "" else if StartsWith(s, "::") then s[2..] else AfterSeparator(s[1..])
  }

  function BeforeBracket(s: string): string {
    if s == "" || s[0] == '[' then "" else [s[0]] + BeforeBracket(s[1..])
  }

  function ItemNode(item: Item): string { NodeId(item.path, BeforeBracket(AfterSeparator(item.nodeId))) }

  lemma {:induction false} BracketCut(name: string, more: string)
    requires '[' !in name && (more == "" || more[0] == '[')
    ensures BeforeBracket(name + more) == name
  {
    if name == "" {
      assert name + more == more;
    } else {
      assert (name + more)[1..] == name[1..] + more;
      BracketCut(name[1..], more);
    }
  }

  lemma {:induction false} SeparatorCut(file: string, rest: string)
    requires ':' !in file
    ensures AfterSeparator(file + "::" + rest) == rest
  {
    var s := file + "::" + rest;
    if file == "" {
      assert s[2..] == rest;
    } else {
      assert s[1..] == file[1..] + "::" + rest;
      assert s[0] == file[0] && !StartsWith(s, "::");
      SeparatorCut(file[1..], rest);
    }
  }

  /** Every parametrised instance of a test inherits the classification of its definition. */
  lemma ParametersInherit(path: string, file: string, name: string, parameters: string)
    requires ':' !in file && '[' !in name
    ensures ItemNode(Item(path, file + "::" + name)) == NodeId(path, name)
    ensures ItemNode(Item(path, file + "::" + (name + ("[" + parameters)))) == NodeId(path, name)
  {
    SeparatorCut(file, name);
    SeparatorCut(file, name + ("[" + parameters));
    BracketCut(name, "");
    assert name + "" == name;
    BracketCut(name, "[" + parameters);
  }

  function Picked(items: seq<Item>, c: map<string, Kind>, inert: bool): seq<Item> {
    if items == [] then []
    else
      var last := items[|items| - 1];
      var chosen := ItemNode(last) in c && (c[ItemNode(last)] == Inert) == inert;
      Picked(items[..|items| - 1], c, inert) + (if chosen then [last] else [])
  }

  /** `select_items`: split the collected items, in order, into the inert ones and the rest; one item
      without a classification, or any authorization, refuses the whole run. */
  method SelectItems(items: seq<Item>, c: map<string, Kind>, authorized: bool)
      returns (r: Option<(seq<Item>, seq<Item>)>)
    ensures r.Some? <==> !authorized && forall i :: 0 <= i < |items| ==> ItemNode(items[i]) in c
    ensures r.Some? ==> r.value == (Picked(items, c, true), Picked(items, c, false))
  {
    if authorized { return None; }
    var selected: seq<Item>, excluded: seq<Item> := [], [];
    for i := 0 to |items|
      invariant forall k :: 0 <= k < i ==> ItemNode(items[k]) in c
      invariant selected == Picked(items[..i], c, true) && excluded == Picked(items[..i], c, false)
    {
      var node := ItemNode(items[i]);
      if node !in c { return None; }
      if c[node] == Inert { selected := selected + [items[i]]; } else { excluded := excluded + [items[i]]; }
      assert items[..i + 1][..i] == items[..i];
    }
    assert items[..|items|] == items;
    r := Some((selected, excluded));
  }

  /** The items pytest has collected, which the hook replaces in place. */
  class Collection {
    var items: seq<Item>
    var deselected: seq<Item>

    constructor (items: seq<Item>)
      ensures this.items == items && deselected == []
    {
      this.items, deselected := items, [];
    }

    /** `pytest_collection_modifyitems`: a refusal leaves the collection as it was. */
    method ModifyItems(c: map<string, Kind>) returns (refused: bool)
      modifies this
      ensures refused <==> exists i :: 0 <= i < |old(items)| && ItemNode(old(items)[i]) !in c
      ensures items == if refused then old(items) else Picked(old(items), c, true)
      ensures deselected == if refused then old(deselected) else old(deselected) + Picked(old(items), c, false)
    {
      var picked := SelectItems(items, c, false);
      if picked.None? { return true; }
      items, deselected := picked.value.0, deselected + picked.value.1;
      refused := false;
    }
  }

  lemma {:induction false} PickedKinds(items: seq<Item>, c: map<string, Kind>, inert: bool)
    ensures forall item :: item in Picked(items, c, inert) ==>
      ItemNode(item) in c && (c[ItemNode(item)] == Inert <==> inert)
    decreases |items|
  {
    if items != [] { PickedKinds(items[..|items| - 1], c, inert); }
  }

  lemma OneMoreItem(a: seq<Item>, b: seq<Item>, items: seq<Item>, last: Item)
    requires multiset(a) + multiset(b) == multiset(items)
    ensures multiset(a + [last]) + multiset(b + []) == multiset(items + [last])
    ensures multiset(a + []) + multiset(b + [last]) == multiset(items + [last])
  {
    assert a + [] == a && b + [] == b;
  }

  lemma {:induction false} PickedPartition(items: seq<Item>, c: map<string, Kind>)
    requires forall i :: 0 <= i < |items| ==> ItemNode(items[i]) in c
    ensures multiset(Picked(items, c, true)) + multiset(Picked(items, c, false)) == multiset(items)
    decreases |items|
  {
    if items != [] {
      var before, last := items[..|items| - 1], items[|items| - 1];
      PickedPartition(before, c);
      assert items == before + [last];
      OneMoreItem(Picked(before, c, true), Picked(before, c, false), before, last);
    }
  }

  /** End to end: with the classification that a prepared proposal's acceptance yields, the selected and the
      excluded items are all the collected ones, no audited model node is ever selected, and nothing else is
      excluded. */
  lemma NoModelNodeRuns(t: Tools, tree: Tree, paths: seq<string>, models: map<string, Digest>, items: seq<Item>)
    requires Lawful(t) && Listing(tree, paths) && Preparable(t, models, tree, paths)
    requires forall i :: 0 <= i < |items| ==>
      ItemNode(items[i]) in Classification(RowsFor(t, models, tree, paths), paths)
    ensures var c := Classification(RowsFor(t, models, tree, paths), paths);
      && multiset(Picked(items, c, true)) + multiset(Picked(items, c, false)) == multiset(items)
      && (forall item :: item in Picked(items, c, true) ==> ItemNode(item) !in models)
      && (forall item :: item in Picked(items, c, false) ==> ItemNode(item) in models)
  {
    OwnRowsPass(t, models, tree, paths);
    ClassificationIsAudit(t, models, tree, paths);
    var c := Classification(RowsFor(t, models, tree, paths), paths);
    PickedPartition(items, c);
    PickedKinds(items, c, true);
    PickedKinds(items, c, false);
  }
}
