/**
 The histograms of backend/app/metrics.py: `HistogramState`, and the part of the registry that creates,
 feeds and renders them. Observed values and bucket bounds are real numbers.
 */
module Histograms {
  /** How many of the values are at or below the bound. */
  function AtMost(values: seq<real>, bound: real): nat {
    if values == [] then 0
    else AtMost(values[..|values| - 1], bound) + (if values[|values| - 1] <= bound then 1 else 0)
  }

  function Sum(values: seq<real>): real {
    if values == [] then 0.0 else Sum(values[..|values| - 1]) + values[|values| - 1]
  }

  /** The distinct bounds among the first `n`, in order of first appearance: the keys of a dictionary. */
  function Distinct(buckets: seq<real>, n: nat): (bounds: seq<real>)
    requires n <= |buckets|
    ensures forall b :: b in bounds <==> b in buckets[..n]
    ensures forall i, k :: 0 <= i < k < |bounds| ==> bounds[i] != bounds[k]
  {
    if n == 0 then []
    else
      var before, b := Distinct(buckets, n - 1), buckets[n - 1];
      assert buckets[..n] == buckets[..n - 1] + [b];
      if b in before then before else before + [b]
  }

  class HistogramState {
    const bounds: seq<real>
    var counts: map<real, nat>
    var count: nat
    var total: real

    /** The state is the aggregate of exactly these values. */
    ghost predicate Aggregates(values: seq<real>)
      reads this
    {
      && (forall i, k :: 0 <= i < k < |bounds| ==> bounds[i] != bounds[k])
      && (forall b :: b in counts <==> b in bounds)
      && (forall b :: b in counts ==> counts[b] == AtMost(values, b))
      && count == |values| && total == Sum(values)
    }

    constructor (buckets: seq<real>)
      ensures (forall b :: b in counts <==> b in buckets) && Aggregates([])
    {
      bounds := Distinct(buckets, |buckets|);
      counts := map b | b in buckets :: 0;
      count, total := 0, 0.0;
      new;
      assert buckets[..|buckets|] == buckets;
    }

    method Observe(value: real, ghost values: seq<real>)
      requires Aggregates(values)
      modifies this
      ensures Aggregates(values + [value]) && counts.Keys == old(counts.Keys)
    {
      count, total := count + 1, total + value;
      ghost var before := counts;
      for i := 0 to |bounds|
        invariant (forall b :: b in counts <==> b in bounds) && counts.Keys == before.Keys && count == |values| + 1
          && total == Sum(values) + value
        invariant forall k :: 0 <= k < |bounds| ==>
          bounds[k] in counts && bounds[k] in before &&
          counts[bounds[k]] == before[bounds[k]] + (if k < i && value <= bounds[k] then 1 else 0)
      {
        if value <= bounds[i] { counts := counts[bounds[i] := counts[bounds[i]] + 1]; }
      }
      assert (values + [value])[..|values|] == values;
    }
  }

  /** One rendered line of a histogram: a bucket's bound (None for +Inf) and its count. */
  datatype Row = Bucket(bound: real, n: nat) | Infinite(n: nat)

  /** These are the bucket lines of a series for the bounds declared last under its name. */
  ghost predicate Renders(state: HistogramState, declared: seq<real>, rows: seq<Row>)
    reads state
  {
    && |rows| == |declared| + 1 && rows[|declared|] == Infinite(state.count)
    && forall i :: 0 <= i < |declared| ==>
         rows[i] == Bucket(declared[i], if declared[i] in state.counts then state.counts[declared[i]] else 0)
  }

  /** The bucket lines of `render`. */
  method RenderBuckets(state: HistogramState, declared: seq<real>) returns (rows: seq<Row>)
    ensures Renders(state, declared, rows)
  {
    rows := [];
    for i := 0 to |declared|
      invariant |rows| == i
      invariant forall k :: 0 <= k < i ==>
        rows[k] == Bucket(declared[k], if declared[k] in state.counts then state.counts[declared[k]] else 0)
    {
      rows := rows + [Bucket(declared[i], if declared[i] in state.counts then state.counts[declared[i]] else 0)];
    }
    rows := rows + [Infinite(state.count)];
  }

  // ---------------------------------------------------------------- cumulative buckets

  lemma {:induction false} AtMostIsCumulative(values: seq<real>, low: real, high: real)
    requires low <= high
    ensures AtMost(values, low) <= AtMost(values, high) <= |values|
  {
    if values != [] { AtMostIsCumulative(values[..|values| - 1], low, high); }
  }

  /** Counting is by value, not by order of arrival. */
  lemma {:induction false} AtMostCounts(values: seq<real>, bound: real)
    ensures AtMost(values, bound) == |Positions(values, bound)|
  {
    if values != [] {
      var n := |values| - 1;
      var before := values[..n];
      AtMostCounts(before, bound);
      assert Positions(values, bound) == Positions(before, bound) + (if values[n] <= bound then {n} else {});
    }
  }

  function Positions(values: seq<real>, bound: real): set<int> {
    set i | 0 <= i < |values| && values[i] <= bound
  }

  /** A rendered bucket is right exactly when the series was created with its bound, or no value is at or
      below it: re-declaring a histogram with new bounds leaves the old series' new buckets at zero. */
  lemma RenderedIff(state: HistogramState, values: seq<real>, declared: seq<real>, rows: seq<Row>, i: nat)
    requires state.Aggregates(values) && Renders(state, declared, rows) && i < |declared|
    ensures rows[i].n == AtMost(values, declared[i]) <==>
      declared[i] in state.counts || forall j :: 0 <= j < |values| ==> values[j] > declared[i]
  {
    var bound := declared[i];
    AtMostCounts(values, bound);
    if bound !in state.counts {
      if forall j :: 0 <= j < |values| ==> values[j] > bound {
        assert Positions(values, bound) == {};
      } else {
        var j :| 0 <= j < |values| && values[j] <= bound;
        assert j in Positions(values, bound);
      }
    }
  }

  /** Rendered with increasing bounds that the series was created with, the bucket lines never decrease, and
      the +Inf line, the number of observations, is the largest. */
  lemma RenderedBucketsAreCumulative(state: HistogramState, values: seq<real>, declared: seq<real>, rows: seq<Row>,
                                     i: nat, j: nat)
    requires state.Aggregates(values) && Renders(state, declared, rows) && i <= j < |rows|
    requires forall k :: 0 <= k < |declared| ==> declared[k] in state.counts
    requires forall k, l :: 0 <= k < l < |declared| ==> declared[k] <= declared[l]
    ensures rows[i].n <= rows[j].n <= rows[|declared|].n == |values|
  {
    if j < |declared| {
      AtMostIsCumulative(values, declared[i], declared[j]);
    } else if i < |declared| {
      AtMostIsCumulative(values, declared[i], declared[i]);
    }
  }

  // ---------------------------------------------------------------- the registry

  datatype Key = Key(name: string, labels: seq<string>)
  datatype Observation = Observation(key: Key, value: real)

  /** The values observed for one series, in order. */
  function Of(log: seq<Observation>, key: Key): seq<real> {
    if log == [] then []
    else
      var last := log[|log| - 1];
      Of(log[..|log| - 1], key) + (if last.key == key then [last.value] else [])
  }

  lemma OfAppend(log: seq<Observation>, o: Observation, key: Key)
    ensures Of(log + [o], key) == Of(log, key) + (if o.key == key then [o.value] else [])
  {
    assert (log + [o])[..|log|] == log;
  }

  predicate Logged(log: seq<Observation>, keys: set<Key>) { forall i :: 0 <= i < |log| ==> log[i].key in keys }

  class Registry {
    var buckets: map<string, seq<real>>
    var series: map<Key, HistogramState>
    ghost var log: seq<Observation>

    /** Each series is its own object and aggregates exactly the values observed under its key; a key
        without a series has none. */
    ghost predicate Valid()
      reads this, series.Values
    {
      && (forall k, l :: k in series && l in series && k != l ==> series[k] != series[l])
      && (forall k :: k in series ==> series[k].Aggregates(Of(log, k)))
      && Logged(log, series.Keys)
    }

    constructor ()
      ensures Valid() && log == [] && buckets == map[] && series == map[]
    {
      buckets, series, log := map[], map[], [];
    }

    /** Declaring a histogram again replaces its bounds and leaves its series alone. */
    method Declare(name: string, bounds: seq<real>)
      requires Valid()
      modifies this`buckets
      ensures Valid() && buckets == old(buckets)[name := bounds]
    {
      buckets := buckets[name := bounds];
    }

    /** The default of `setdefault`: a new series, with the bounds declared now. */
    method Create(key: Key) returns (state: HistogramState)
      requires Valid() && key.name in buckets && key !in series
      modifies this`series
      ensures Valid() && fresh(state) && series == old(series)[key := state]
      ensures forall b :: b in state.counts <==> b in buckets[key.name]
    {
      state := new HistogramState(buckets[key.name]);
      NoneObserved(log, key);
      assert forall k :: k in series ==> series[k] != state && series[k].Aggregates(Of(log, k));
      series := series[key := state];
    }

    ghost function Others(key: Key): set<HistogramState>
      reads this
    {
      set k | k in series && k != key :: series[k]
    }

    /** Every series but one aggregates its values. */
    ghost predicate OthersAggregate(key: Key)
      reads this, Others(key)
    {
      forall k :: k in series && k != key ==> series[k] in Others(key) && series[k].Aggregates(Of(log, k))
    }

    method Observe(key: Key, value: real) returns (known: bool)
      requires Valid()
      modifies this`series, this`log, series.Values
      ensures Valid() && known == (key.name in buckets)
      ensures log == if known then old(log) + [Observation(key, value)] else old(log)
      ensures series.Keys == if known then old(series.Keys) + {key} else old(series.Keys)
      ensures old(series).Keys <= series.Keys && forall k :: k in old(series) ==> series[k] == old(series)[k]
      ensures known && key !in old(series) ==> forall b :: b in series[key].counts <==> b in buckets[key.name]
    {
      if key.name !in buckets { return false; }
      if key in series { ObserveMore(key, value); } else { ObserveFirst(key, value); }
      known := true;
    }

    /** A further value of a series. */
    method ObserveMore(key: Key, value: real)
      requires Valid() && key in series
      modifies this`log, series.Values
      ensures Valid() && log == old(log) + [Observation(key, value)]
    {
      assert series[key] in series.Values;
      Feed(key, series[key], value);
    }

    /** The first value of a series. */
    method ObserveFirst(key: Key, value: real)
      requires Valid() && key.name in buckets && key !in series
      modifies this`series, this`log
      ensures Valid() && log == old(log) + [Observation(key, value)]
      ensures key in series && fresh(series[key]) && series == old(series)[key := series[key]]
      ensures forall b :: b in series[key].counts <==> b in buckets[key.name]
    {
      var state := Create(key);
      Feed(key, state, value);
    }

    /** `HistogramState.observe` on one series leaves the aggregates of all others alone. */
    method Feed(key: Key, state: HistogramState, value: real)
      requires Valid() && key in series && series[key] == state
      modifies this`log, state
      ensures Valid() && log == old(log) + [Observation(key, value)]
      ensures forall b :: b in state.counts <==> b in old(state.counts)
    {
      assert OthersAggregate(key) && state !in Others(key);
      state.Observe(value, Of(log, key));
      assert OthersAggregate(key);
      Extended(key, value);
      log := log + [Observation(key, value)];
    }

    /** After the state of one key has taken the value in, every series fits the longer log. */
    lemma Extended(key: Key, value: real)
      requires key in series && series[key].Aggregates(Of(log, key) + [value]) && OthersAggregate(key)
      ensures forall k :: k in series ==> series[k].Aggregates(Of(log + [Observation(key, value)], k))
    {
      forall k | k in series ensures series[k].Aggregates(Of(log + [Observation(key, value)], k)) {
        OfAppend(log, Observation(key, value), k);
        if k != key { assert Of(log, k) + [] == Of(log, k); }
      }
    }
  }

  lemma {:induction false} NoneObserved(log: seq<Observation>, key: Key)
    requires forall i :: 0 <= i < |log| ==> log[i].key != key
    ensures Of(log, key) == []
  {
    if log != [] {
      assert forall i :: 0 <= i < |log| - 1 ==> log[..|log| - 1][i] == log[i];
      NoneObserved(log[..|log| - 1], key);
    }
  }

  /** A value of 0.5 is observed under the bound 1.0 and the histogram is declared again with a second bound:
      the rendered buckets then decrease, since the series knows nothing of the new bound. */
  method RedeclaredHistogram() returns (rows: seq<Row>)
    ensures rows == [Bucket(1.0, 1), Bucket(5.0, 0), Infinite(1)]
  {
    var key := Key("latency", []);
    var registry := new Registry();
    registry.Declare("latency", [1.0]);
    var known := registry.Observe(key, 0.5);
    registry.Declare("latency", [1.0, 5.0]);
    var state := registry.series[key];
    OneObservation(registry.log, key);
    rows := RenderBuckets(state, registry.buckets["latency"]);
  }

  lemma OneObservation(log: seq<Observation>, key: Key)
    requires log == [Observation(key, 0.5)]
    ensures Of(log, key) == [0.5] && AtMost([0.5], 1.0) == 1
  {
    assert log[..0] == [] && [0.5][..0] == [];
  }
}
