/** Runs of the evidence journey that show what it does not promise once power has failed. */
module JourneyWitnesses {
  import opened Wrappers
  import opened Registers
  import opened Evidence
  import opened Journey
  import opened JourneyPromises

  /** One identifier of one subject, and a snapshot that `verify_snapshot` accepts for it. */
  datatype Case = Case(subject: string, id: string, snapshot: Snapshot)

  function KeyIn(c: Case, kind: Kind): Key { Key(c.subject, c.id, kind) }

  predicate CaseOk(factual: Snapshot -> string, c: Case) {
    SnapshotOk(c.snapshot, c.id) && |factual(c.snapshot)| <= MAX_TEXT
  }

  lemma {:induction false} Steps(factual: Snapshot -> string, trace: seq<Event>, p: Pid, clock: string)
      returns (more: seq<Event>)
    requires After(factual, trace).Some? && p in After(factual, trace).value.procs
    requires !Terminal(After(factual, trace).value.procs[p].phase)
    ensures var s := After(factual, trace).value; var (next, ph) := Next(factual, s.store, s.procs[p], clock);
      After(factual, more) == Some(State(next, s.procs[p := s.procs[p].(phase := ph)]))
  {
    Extend(factual, trace, Advance(p, clock));
    more := trace + [Advance(p, clock)];
  }

  lemma Starts(factual: Snapshot -> string, trace: seq<Event>, p: Pid, c: Case, call: Call) returns (more: seq<Event>)
    requires After(factual, trace).Some? && p !in After(factual, trace).value.procs
    requires call.Capture? ==> SnapshotOk(call.built, c.id)
    ensures var s := After(factual, trace).value;
      After(factual, more) == Some(s.(procs := s.procs[p := Proc(c.subject, c.id, call, FirstPhase(call))]))
  {
    Extend(factual, trace, Begin(p, c.subject, c.id, call));
    more := trace + [Begin(p, c.subject, c.id, call)];
  }

  /** A state is known by its store and by where one of its callers stands. */
  predicate At(factual: Snapshot -> string, trace: seq<Event>, store: Table<Artifact>, p: Pid, proc: Proc) {
    && After(factual, trace).Some?
    && var s := After(factual, trace).value; s.store == store && p in s.procs && s.procs[p] == proc
  }

  predicate Fresh(factual: Snapshot -> string, trace: seq<Event>, p: Pid) {
    After(factual, trace).Some? && p !in After(factual, trace).value.procs
  }

  /** `more` adds caller `p` and changes no other. */
  predicate OnlyAdds(factual: Snapshot -> string, trace: seq<Event>, more: seq<Event>, p: Pid) {
    && After(factual, trace).Some? && After(factual, more).Some?
    && var s, t := After(factual, trace).value, After(factual, more).value;
    && t.procs.Keys == s.procs.Keys + {p} && forall q :: q in s.procs && q != p ==> t.procs[q] == s.procs[q]
  }

  /** A capture that is acknowledged. */
  lemma CaptureAlone(factual: Snapshot -> string, trace: seq<Event>, p: Pid, c: Case) returns (more: seq<Event>)
    requires Fresh(factual, trace, p) && SnapshotOk(c.snapshot, c.id)
    requires KeyIn(c, SnapshotKind) !in After(factual, trace).value.store.values
    ensures var store := After(factual, trace).value.store;
      At(factual, more, Synced(Step(store, Fill(KeyIn(c, SnapshotKind), ASnapshot(c.snapshot))), c.subject), p,
         Proc(c.subject, c.id, Capture(c.snapshot), Gave(ASnapshot(c.snapshot))))
    ensures OnlyAdds(factual, trace, more, p)
  {
    more := Starts(factual, trace, p, c, Capture(c.snapshot));
    more := Steps(factual, more, p, "");
    more := Steps(factual, more, p, "");
  }

  /** An `explain` that publishes an explanation of its own and stands before its sync. */
  lemma ExplainPublishes(factual: Snapshot -> string, trace: seq<Event>, p: Pid, c: Case, clock: string)
      returns (more: seq<Event>)
    requires Fresh(factual, trace, p) && SnapshotOk(c.snapshot, c.id)
    requires var t := After(factual, trace).value.store;
      StandsFor(t, KeyIn(c, SnapshotKind), ASnapshot(c.snapshot)) && KeyIn(c, ExplanationKind) !in t.values
    ensures var e := AExplanation(Explain(factual, c.snapshot, clock));
      At(factual, more, Step(After(factual, trace).value.store, Fill(KeyIn(c, ExplanationKind), e)), p,
         Proc(c.subject, c.id, ExplainCall, WroteExplanation(c.snapshot)))
    ensures OnlyAdds(factual, trace, more, p)
  {
    hide SnapshotOk, Explain;
    more := Starts(factual, trace, p, c, ExplainCall);
    more := Steps(factual, more, p, clock);
    more := Steps(factual, more, p, clock);
    more := Steps(factual, more, p, clock);
  }

  /** An `explain` that finds an explanation and gives it, without any sync. */
  lemma ExplainFinds(factual: Snapshot -> string, trace: seq<Event>, p: Pid, c: Case, e: Explanation)
      returns (more: seq<Event>)
    requires Fresh(factual, trace, p) && SnapshotOk(c.snapshot, c.id) && ExplanationOk(factual, e, c.snapshot)
    requires var t := After(factual, trace).value.store;
      StandsFor(t, KeyIn(c, SnapshotKind), ASnapshot(c.snapshot))
      && StandsFor(t, KeyIn(c, ExplanationKind), AExplanation(e))
    ensures At(factual, more, After(factual, trace).value.store, p,
               Proc(c.subject, c.id, ExplainCall, Gave(AExplanation(e))))
    ensures OnlyAdds(factual, trace, more, p)
  {
    hide SnapshotOk, ExplanationOk;
    more := Starts(factual, trace, p, c, ExplainCall);
    more := Steps(factual, more, p, "");
    more := Steps(factual, more, p, "");
  }

  /** A `save` that publishes a record of its own and stands before its sync. */
  lemma SavePublishes(factual: Snapshot -> string, trace: seq<Event>, p: Pid, c: Case, e: Explanation)
      returns (more: seq<Event>)
    requires Fresh(factual, trace, p) && SnapshotOk(c.snapshot, c.id) && ExplanationOk(factual, e, c.snapshot)
    requires var t := After(factual, trace).value.store;
      && StandsFor(t, KeyIn(c, SnapshotKind), ASnapshot(c.snapshot))
      && StandsFor(t, KeyIn(c, ExplanationKind), AExplanation(e)) && KeyIn(c, SavedKind) !in t.values
    ensures At(factual, more,
               Step(After(factual, trace).value.store,
                    Fill(KeyIn(c, SavedKind), ARecord(Bundle(c.id, c.snapshot, e, "")))), p,
               Proc(c.subject, c.id, SaveCall, WroteRecord(c.snapshot, e)))
    ensures OnlyAdds(factual, trace, more, p)
  {
    hide SnapshotOk, ExplanationOk, Bundle;
    more := Starts(factual, trace, p, c, SaveCall);
    more := Steps(factual, more, p, "");
    more := Steps(factual, more, p, "");
    more := Steps(factual, more, p, "");
    more := Steps(factual, more, p, "");
  }

  /** The registers lose their unsynced explanation and nothing else. */
  lemma LoseExplanation(factual: Snapshot -> string, trace: seq<Event>, c: Case) returns (more: seq<Event>)
    requires After(factual, trace).Some? && KeyIn(c, ExplanationKind) !in After(factual, trace).value.store.durable
    ensures After(factual, more).Some?
    ensures var s, t := After(factual, trace).value, After(factual, more).value;
      && t.store.values == Restricted(s.store.values, s.store.values.Keys - {KeyIn(c, ExplanationKind)})
      && t.procs == AllStopped(s.procs)
  {
    ReachableInv(factual, trace);
    var e := Storage(Loss(false, After(factual, trace).value.store.values.Keys - {KeyIn(c, ExplanationKind)}));
    Extend(factual, trace, e);
    more := trace + [e];
  }

  /** Capture is acknowledged; `explain` 1 publishes its explanation and has not synced it yet. */
  lemma CaptureThenExplain(factual: Snapshot -> string, c: Case, clock: string) returns (trace: seq<Event>)
    requires CaseOk(factual, c)
    ensures After(factual, trace).Some?
    ensures var s := After(factual, trace).value;
      && s.procs.Keys == {0, 1}
      && s.store.values == map[KeyIn(c, SnapshotKind) := ASnapshot(c.snapshot),
                               KeyIn(c, ExplanationKind) := AExplanation(Explain(factual, c.snapshot, clock))]
      && s.store.durable == {KeyIn(c, SnapshotKind)}
  {
    hide SnapshotOk, Explain;
    trace := CaptureAlone(factual, [], 0, c);
    trace := ExplainPublishes(factual, trace, 1, c, clock);
  }

  lemma ExplainIsOk(factual: Snapshot -> string, c: Case, clock: string)
    requires CaseOk(factual, c)
    ensures ExplanationOk(factual, Explain(factual, c.snapshot, clock), c.snapshot)
    ensures Explain(factual, c.snapshot, clock).body.createdAt == clock
  {
  }

  /** An `explain` that publishes its explanation, syncs it and gives it. */
  lemma ExplainAcknowledged(factual: Snapshot -> string, trace: seq<Event>, p: Pid, c: Case, clock: string)
      returns (more: seq<Event>)
    requires Fresh(factual, trace, p) && CaseOk(factual, c)
    requires var t := After(factual, trace).value.store;
      StandsFor(t, KeyIn(c, SnapshotKind), ASnapshot(c.snapshot)) && KeyIn(c, ExplanationKind) !in t.values
    ensures var e := AExplanation(Explain(factual, c.snapshot, clock));
      At(factual, more, Synced(Step(After(factual, trace).value.store, Fill(KeyIn(c, ExplanationKind), e)), c.subject),
         p, Proc(c.subject, c.id, ExplainCall, Gave(e)))
    ensures OnlyAdds(factual, trace, more, p)
  {
    ExplainIsOk(factual, c, clock);
    hide SnapshotOk, Explain, ExplanationOk;
    more := ExplainPublishes(factual, trace, p, c, clock);
    more := Steps(factual, more, p, clock);
  }

  /** Caller 2 is given an explanation that caller 1 has published and not yet synced, and the power fails. */
  lemma GivenThenLost(factual: Snapshot -> string, c: Case, clock: string) returns (trace: seq<Event>)
    requires CaseOk(factual, c)
    ensures After(factual, trace).Some?
    ensures var s := After(factual, trace).value;
      && s.procs.Keys == {0, 1, 2} && s.store.values == map[KeyIn(c, SnapshotKind) := ASnapshot(c.snapshot)]
      && s.procs[2] == Proc(c.subject, c.id, ExplainCall, Gave(AExplanation(Explain(factual, c.snapshot, clock))))
  {
    ExplainIsOk(factual, c, clock);
    hide SnapshotOk, Explain, ExplanationOk;
    trace := CaptureThenExplain(factual, c, clock);
    trace := ExplainFinds(factual, trace, 2, c, Explain(factual, c.snapshot, clock));
    trace := LoseExplanation(factual, trace, c);
  }

  /** What `explain` gives may be lost and replaced: after that, caller 3 is given, and has synced, another
      explanation for the same identifier. */
  lemma GivenExplanationIsLost(factual: Snapshot -> string, c: Case, clock: string, later: string)
      returns (trace: seq<Event>)
    requires CaseOk(factual, c)
    ensures After(factual, trace).Some?
    ensures var s := After(factual, trace).value;
      && 2 in s.procs && s.procs[2] == Proc(c.subject, c.id, ExplainCall,
                                            Gave(AExplanation(Explain(factual, c.snapshot, clock))))
      && 3 in s.procs && s.procs[3] == Proc(c.subject, c.id, ExplainCall,
                                            Gave(AExplanation(Explain(factual, c.snapshot, later))))
      && KeyIn(c, ExplanationKind) in s.store.durable
  {
    hide Explain, CaseOk;
    trace := GivenThenLost(factual, c, clock);
    trace := ExplainAcknowledged(factual, trace, 3, c, later);
  }

  /** Caller 2 publishes the record of an explanation that caller 1 has published and not yet synced, and the power
      fails before either sync: the record stays and its explanation goes. */
  lemma LostUnderItsRecord(factual: Snapshot -> string, c: Case, clock: string) returns (trace: seq<Event>)
    requires CaseOk(factual, c)
    ensures After(factual, trace).Some?
    ensures var s := After(factual, trace).value; var e := Explain(factual, c.snapshot, clock);
      && s.procs.Keys == {0, 1, 2}
      && s.store.values == map[KeyIn(c, SnapshotKind) := ASnapshot(c.snapshot),
                               KeyIn(c, SavedKind) := ARecord(Bundle(c.id, c.snapshot, e, ""))]
  {
    ExplainIsOk(factual, c, clock);
    hide SnapshotOk, Explain, ExplanationOk, Bundle;
    trace := CaptureThenExplain(factual, c, clock);
    trace := SavePublishes(factual, trace, 2, c, Explain(factual, c.snapshot, clock));
    trace := LoseExplanation(factual, trace, c);
  }

  /** A loss of power may take an unsynced explanation from under the record that embeds it. The next `explain` writes
      another, and from then on every `save` of that identifier is refused (MismatchIsForGood). */
  lemma StuckSaveHappens(factual: Snapshot -> string, c: Case, clock: string, later: string)
      returns (trace: seq<Event>)
    requires CaseOk(factual, c) && clock != later
    ensures After(factual, trace).Some? && Mismatched(After(factual, trace).value.store, c.subject, c.id)
    ensures KeyIn(c, ExplanationKind) in After(factual, trace).value.store.durable
    ensures KeyIn(c, SavedKind) in After(factual, trace).value.store.durable
  {
    ExplainIsOk(factual, c, clock);
    ExplainIsOk(factual, c, later);
    hide Explain, CaseOk;
    trace := LostUnderItsRecord(factual, c, clock);
    trace := ExplainAcknowledged(factual, trace, 3, c, later);
  }
}
