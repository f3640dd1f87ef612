/**
 Write-once registers that a loss of power may empty. The files of backend/app/ceo_journey_store.py implement them
 (JourneyStoreRuns) and the journey of backend/app/ceo_journey.py is built on them (Journey).

 A subject's artifacts lie in the subject's own directory, the directory has an entry in the store's root, and the
 root has one in its parent. A loss of power drops what no sync covered: an artifact whose directory was not synced
 since it was published, a whole directory whose entry in the root was never synced, and the whole store if the
 entry of its root was never synced.
 */
module Registers {
  import opened Wrappers

  datatype Kind = SnapshotKind | ExplanationKind | SavedKind
  datatype Key = Key(subject: string, id: string, kind: Kind)

  /** `durable`: artifacts that a sync of their directory has covered; `rooted`: subjects whose directory's entry
      in the root a sync has covered; `anchored`: a sync of the parent has covered the root. */
  datatype Table<V> = Table(values: map<Key, V>, durable: set<Key>, rooted: set<string>, anchored: bool)

  datatype Op<V> =
    | Fill(key: Key, value: V)
    | SyncHome(subject: string)
    | SyncRoot(subjects: set<string>)
    | Anchor
    | Loss(gone: bool, kept: set<Key>)

  predicate Safe<V>(t: Table<V>, k: Key) { k in t.durable && k.subject in t.rooted && t.anchored }

  predicate Valid<V>(t: Table<V>) { t.durable <= t.values.Keys }

  /** A store may be lost whole (`gone`) only if its root was never synced. Otherwise a synced artifact may be lost
      only with its whole directory, and only if that was never synced itself. */
  predicate MayKeep<V>(t: Table<V>, gone: bool, kept: set<Key>) {
    if gone then !t.anchored && kept == {}
    else
      && kept <= t.values.Keys
      && (forall k :: k in t.durable && k !in kept ==>
            k.subject !in t.rooted && forall j :: j in kept ==> j.subject != k.subject)
  }

  predicate Can<V>(t: Table<V>, op: Op<V>) {
    match op
    case Fill(k, _) => k !in t.values
    case SyncHome(_) => true
    case SyncRoot(_) => true
    case Anchor => true
    case Loss(gone, kept) => MayKeep(t, gone, kept)
  }

  function Restricted<V>(values: map<Key, V>, kept: set<Key>): map<Key, V> {
    map k | k in values && k in kept :: values[k]
  }

  function Synced<V>(t: Table<V>, subject: string): Table<V> {
    t.(durable := t.durable + (set k | k in t.values && k.subject == subject))
  }

  function Step<V>(t: Table<V>, op: Op<V>): Table<V> {
    match op
    case Fill(k, v) => t.(values := t.values[k := v])
    case SyncHome(subject) => Synced(t, subject)
    case SyncRoot(subjects) => t.(rooted := t.rooted + subjects)
    case Anchor => t.(anchored := true)
    case Loss(gone, kept) =>
      Table(Restricted(t.values, kept), t.durable * kept, if gone then {} else t.rooted, t.anchored)
  }

  function Run<V>(t: Table<V>, ops: seq<Op<V>>): Option<Table<V>> {
    if ops == [] then Some(t)
    else
      var before := Run(t, ops[..|ops| - 1]);
      if before.Some? && Can(before.value, ops[|ops| - 1]) then Some(Step(before.value, ops[|ops| - 1])) else None
  }

  function Empty<V>(): Table<V> { Table(map[], {}, {}, false) }

  lemma StepKeepsSafe<V>(t: Table<V>, op: Op<V>, k: Key)
    requires Valid(t) && Can(t, op)
    ensures Valid(Step(t, op))
    ensures Safe(t, k) ==> Safe(Step(t, op), k) && k in t.values && Step(t, op).values[k] == t.values[k]
  {
  }

  lemma {:induction false} RunKeepsSafe<V>(t: Table<V>, ops: seq<Op<V>>, k: Key)
    requires Valid(t) && Run(t, ops).Some?
    ensures Valid(Run(t, ops).value)
    ensures Safe(t, k) ==>
      var after := Run(t, ops).value; Safe(after, k) && k in t.values && after.values[k] == t.values[k]
  {
    if ops != [] {
      RunKeepsSafe(t, ops[..|ops| - 1], k);
      StepKeepsSafe(Run(t, ops[..|ops| - 1]).value, ops[|ops| - 1], k);
    }
  }

  /** What a loss of power can leave when it takes `k`: nothing, or all but its subject's directory, or all but `k`. */
  function Without<V>(t: Table<V>, k: Key): set<Key> {
    if !t.anchored then {}
    else if k in t.durable then set j | j in t.values && j.subject != k.subject
    else t.values.Keys - {k}
  }

  lemma UnsafeMayGo<V>(t: Table<V>, k: Key)
    requires Valid(t) && !Safe(t, k)
    ensures MayKeep(t, !t.anchored, Without(t, k)) && k !in Without(t, k)
  {
  }

  /** If `ops` can happen, register `k` has kept its value. */
  predicate KeptBy<V(==)>(t: Table<V>, ops: seq<Op<V>>, k: Key)
    requires k in t.values
  {
    Run(t, ops).Some? ==> k in Run(t, ops).value.values && Run(t, ops).value.values[k] == t.values[k]
  }

  /** A register keeps its value through everything that may follow exactly when three syncs have covered it: of its
      directory, of the directory's entry in the root, and of the root's entry in its parent. */
  lemma KeptForGoodIff<V>(t: Table<V>, k: Key)
    requires Valid(t) && k in t.values
    ensures (forall ops :: KeptBy(t, ops, k)) <==> Safe(t, k)
  {
    if Safe(t, k) {
      forall ops ensures KeptBy(t, ops, k) {
        if Run(t, ops).Some? { RunKeepsSafe(t, ops, k); }
      }
    } else {
      UnsafeMayGo(t, k);
      var ops: seq<Op<V>> := [Loss(!t.anchored, Without(t, k))];
      assert ops[..|ops| - 1] == [];
      assert Can(t, ops[0]);
      assert Run(t, ops) == Some(Step(t, ops[0]));
      assert k !in Step(t, ops[0]).values;
      assert !KeptBy(t, ops, k);
    }
  }

  lemma {:induction false} RunConcat<V>(t: Table<V>, a: seq<Op<V>>, b: seq<Op<V>>)
    requires Run(t, a).Some?
    ensures Run(t, a + b) == Run(Run(t, a).value, b)
  {
    if b == [] {
      assert a + b == a;
    } else {
      assert (a + b)[..|a + b| - 1] == a + b[..|b| - 1];
      RunConcat(t, a, b[..|b| - 1]);
    }
  }
}
