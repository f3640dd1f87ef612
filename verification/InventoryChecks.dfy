/**
 What the audit and a chunk must be, with the constants written out, and how the audit's own list classifies what is
 prepared. (scripts/prepare_ci_workload_inventory.py and scripts/ci_workload_policy.py.)
 */
module InventoryChecks {
  import opened Wrappers
  import opened Inventory

  type Entries = seq<(string, Digest)>

  /** The audit lists this node. */
  predicate Names(entries: Entries, node: string) { exists i :: 0 <= i < |entries| && entries[i].0 == node }

  predicate AllDiffer(entries: Entries) { forall i, j :: 0 <= i < j < |entries| ==> entries[i].0 != entries[j].0 }

  lemma NamesLast(entries: Entries, node: string)
    requires entries != []
    ensures Names(entries, node) <==>
      Names(entries[..|entries| - 1], node) || entries[|entries| - 1].0 == node
  {
    var before := entries[..|entries| - 1];
    if i :| 0 <= i < |before| && before[i].0 == node { assert entries[i].0 == node; }
    if i :| 0 <= i < |before| && entries[i].0 == node { assert before[i].0 == node; }
  }

  lemma KeyAdded(m: map<string, Digest>, k: string, v: Digest)
    ensures |m[k := v]| == |m| + (if k in m then 0 else 1)
  {
    var after := m[k := v];
    assert after.Keys == m.Keys + {k};
    assert |after| == |after.Keys| && |m| == |m.Keys|;
  }

  lemma {:induction false} ModelKeys(entries: Entries)
    ensures forall node :: node in ModelsOf(entries) <==> Names(entries, node)
    decreases |entries|
  {
    if entries != [] {
      ModelKeys(entries[..|entries| - 1]);
      hide Names;
      forall node ensures node in ModelsOf(entries) <==> Names(entries, node) { NamesLast(entries, node); }
    }
  }

  lemma ModelStep(entries: Entries)
    requires entries != []
    ensures var before, last := ModelsOf(entries[..|entries| - 1]), entries[|entries| - 1];
      ModelsOf(entries) == before[last.0 := last.1]
  {
  }

  lemma RepeatedDiffers(entries: Entries)
    requires entries != [] && Names(entries[..|entries| - 1], entries[|entries| - 1].0)
    ensures !AllDiffer(entries)
  {
    var n := |entries| - 1;
    var i :| 0 <= i < n && entries[..n][i].0 == entries[n].0;
    assert entries[i].0 == entries[n].0;
  }

  lemma {:induction false} ModelCount(entries: Entries)
    ensures |ModelsOf(entries)| <= |entries|
    ensures |ModelsOf(entries)| == |entries| <==> AllDiffer(entries)
    decreases |entries|
  {
    if entries != [] {
      var before, last := entries[..|entries| - 1], entries[|entries| - 1];
      ModelCount(before);
      ModelKeys(before);
      ModelStep(entries);
      hide ModelsOf, Names, AllDiffer;
      KeyAdded(ModelsOf(before), last.0, last.1);
      if Names(before, last.0) { RepeatedDiffers(entries); } else { FreshDiffers(entries); }
    }
  }

  lemma {:induction false} ModelDigest(entries: Entries, i: nat)
    requires AllDiffer(entries) && i < |entries|
    ensures entries[i].0 in ModelsOf(entries) && ModelsOf(entries)[entries[i].0] == entries[i].1
    decreases |entries|
  {
    ModelStep(entries);
    if i < |entries| - 1 { ModelDigest(entries[..|entries| - 1], i); }
  }

  /** The dictionary has exactly the listed nodes; it has as many as there are entries exactly when no node is listed
      twice, and then each stands for its own entry's digest. */
  lemma ModelsAre(entries: Entries)
    ensures forall node :: node in ModelsOf(entries) <==> Names(entries, node)
    ensures |ModelsOf(entries)| <= |entries|
    ensures |ModelsOf(entries)| == |entries| <==> AllDiffer(entries)
    ensures AllDiffer(entries) ==>
      forall i :: 0 <= i < |entries| ==>
        entries[i].0 in ModelsOf(entries) && ModelsOf(entries)[entries[i].0] == entries[i].1
  {
    ModelKeys(entries);
    ModelCount(entries);
    if AllDiffer(entries) {
      forall i | 0 <= i < |entries|
        ensures entries[i].0 in ModelsOf(entries) && ModelsOf(entries)[entries[i].0] == entries[i].1
      {
        ModelDigest(entries, i);
      }
    }
  }

  lemma FreshDiffers(entries: Entries)
    requires entries != [] && !Names(entries[..|entries| - 1], entries[|entries| - 1].0)
    ensures AllDiffer(entries) <==> AllDiffer(entries[..|entries| - 1])
  {
    var n := |entries| - 1;
    var before := entries[..n];
    forall i | 0 <= i < n ensures before[i] == entries[i] && entries[i].0 != entries[n].0 {
      assert before[i].0 != entries[n].0;
    }
  }

  /** The audit is accepted exactly when it has 1 to 4194304 bytes, the digest it was named by, and as many different
      nodes as it says. */
  lemma AuditIff(t: Tools, raw: string, sha: Digest)
    ensures AuditOk(t, raw, sha) <==>
      && 1 <= |raw| <= 4 * 1024 * 1024 && sha == Sha(raw) && t.decodeAudit(raw).Some?
      && var a := t.decodeAudit(raw).value; |ModelsOf(a.entries)| == a.count
    ensures AuditOk(t, raw, sha) && t.decodeAudit(raw).value.count == |t.decodeAudit(raw).value.entries| ==>
      AllDiffer(t.decodeAudit(raw).value.entries)
  {
    if t.decodeAudit(raw).Some? { ModelsAre(t.decodeAudit(raw).value.entries); }
  }

  /** What is prepared from an audit classifies a definition as a model workload exactly when the audit lists it. */
  lemma PreparedByTheAudit(t: Tools, tree: Tree, path: string, entries: Entries, k: nat)
    requires path in tree && (HoldsTests(path) ==> t.nodes(tree[path]).Some?)
    requires k < |RowFor(t, ModelsOf(entries), tree, path).tests|
    ensures var test := RowFor(t, ModelsOf(entries), tree, path).tests[k];
      test.kind == ModelWorkload <==> Names(entries, path + "::" + test.name)
  {
    ModelsAre(entries);
  }

  /** Exactly when a chunk is read, and as what. */
  lemma ChunkReadIff(t: Tools, files: map<string, string>, ref: Ref, rows: seq<Row>)
    ensures ReadChunk(t, files, ref) == Some(rows) <==>
      && "source-" <= ref.path && '/' !in ref.path && (exists stem :: ref.path == stem + ".json")
      && ref.path in files && 1 <= |files[ref.path]| <= 4 * 1024 * 1024 && ref.sha == Sha(files[ref.path])
      && t.decodeRows(files[ref.path]) == Some(rows) && 1 <= |rows| <= 128
  {
    EndsIff(ref.path, ".json");
  }

  lemma EndsIff(s: string, end: string)
    ensures EndsWith(s, end) <==> exists stem :: s == stem + end
  {
    if EndsWith(s, end) { assert s == s[..|s| - |end|] + end; }
  }
}
