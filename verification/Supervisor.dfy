/**
 The attester supervisor of scripts/transformer_confirmation_supervisor.py: an incremental line
 parser and an admission state machine, reading a file that grows while the child process runs.

 The child writes bytes; each read decodes by itself what is new, and may fail to. `parse` decodes one JSON line, or
 fails, and it refuses the empty line. Fields keep only what the code distinguishes.
 */
module Supervisor {
  import opened TextReader
  import opened Wrappers

  const OUTPUT_BOUND: nat := 1048576

  datatype EventName = NoEvent | AttesterReady | AttesterWaiting | ProviderObserved
                     | PublicationStarted | ContextPublished | OtherEvent
  datatype StageName = ProviderRead | IntentRead | ProviderValidation | ContextPublish | OtherStage
  /** `progress`: the evidence status marks unverified progress. `delivered`: context_delivered is True.
      `failed`: status is "failed". `jobOk`: job_id is a well-formed job name. */
  datatype Record = Record(event: EventName, progress: bool, stage: StageName,
                           delivered: bool, failed: bool, jobOk: bool)
  type Parser = parse: string -> Option<Record> | parse("").None? witness (line => None)

  datatype Admission = Starting | Ready | Attesting | Delivered | Failed
  datatype Machine = Machine(state: Admission, readyEvent: bool, closed: bool, readyAt: Option<real>,
                             expires: Option<real>, terminal: Option<Record>, published: bool)
  const FRESH: Machine := Machine(Starting, false, false, None, None, None, false)

  datatype Trouble = BadText | BadLine | BadFormat | BadStage | DuplicateTerminal | AttesterFailed | Unexpected
                   | OutputBound | NotDelivered | DeadlineExpired

  // ---------------------------------------------------------------- lines

  /** The first line of `s` without its newline, and what follows it. */
  function Cut(s: string): (cut: Option<(string, string)>)
    ensures cut.None? <==> '\n' !in s
    ensures cut.Some? ==> s == cut.value.0 + "\n" + cut.value.1 && '\n' !in cut.value.0
  {
    if s == "" then None
    else if s[0] == '\n' then Some(("", s[1..]))
    else
      var rest := Cut(s[1..]);
      if rest.None? then None else Some((s[..1] + rest.value.0, rest.value.1))
  }

  function Lines(s: string): seq<string>
    decreases |s|
  {
    var cut := Cut(s);
    if cut.None? then [] else [cut.value.0] + Lines(cut.value.1)
  }

  /** What is left in the buffer once its complete lines are gone. */
  function Tail(s: string): string
    decreases |s|
  {
    var cut := Cut(s);
    if cut.None? then s else Tail(cut.value.1)
  }

  lemma {:induction false} CutAppend(s: string, more: string)
    ensures Cut(s).Some? ==> Cut(s + more) == Some((Cut(s).value.0, Cut(s).value.1 + more))
  {
    if s != "" && s[0] != '\n' {
      assert (s + more)[1..] == s[1..] + more;
      CutAppend(s[1..], more);
      assert (s + more)[..1] == s[..1];
    } else if s != "" {
      assert (s + more)[1..] == s[1..] + more;
    }
  }

  /** Splitting as text arrives gives the same lines and the same remainder as splitting it at once. */
  lemma {:induction false} SplitAppend(s: string, more: string)
    ensures Lines(s + more) == Lines(s) + Lines(Tail(s) + more)
    ensures Tail(s + more) == Tail(Tail(s) + more)
    decreases |s|
  {
    var cut := Cut(s);
    if cut.Some? {
      CutAppend(s, more);
      SplitAppend(cut.value.1, more);
    }
  }

  /** The complete lines and the remainder are the whole text. */
  lemma {:induction false} LinesAndTail(s: string)
    ensures s == Joined(Lines(s)) + Tail(s)
    decreases |s|
  {
    var cut := Cut(s);
    if cut.None? {
      assert "" + s == s;
    } else {
      var line, rest := cut.value.0, cut.value.1;
      LinesAndTail(rest);
      JoinedStep(s);
      hide Joined, Lines, Tail;
      LineApart(line, Joined(Lines(rest)), Tail(rest));
    }
  }

  lemma JoinedStep(s: string)
    requires Cut(s).Some?
    ensures Joined(Lines(s)) == Cut(s).value.0 + "\n" + Joined(Lines(Cut(s).value.1))
    ensures Tail(s) == Tail(Cut(s).value.1)
  {
    assert Lines(s)[1..] == Lines(Cut(s).value.1);
  }

  lemma LineApart(line: string, lines: string, tail: string)
    ensures line + "\n" + (lines + tail) == (line + "\n" + lines) + tail
  {
  }

  function Joined(lines: seq<string>): string {
    if lines == [] then "" else lines[0] + "\n" + Joined(lines[1..])
  }

  // ---------------------------------------------------------------- one record

  /** The branches of the record loop. The machine may have changed before an error is raised. */
  function Handle(m: Machine, r: Record, now: real, readySeconds: real): (Machine, Option<Trouble>) {
    if !r.event.NoEvent? && !r.progress then (m, Some(BadFormat))
    else
      match r.event
      case AttesterReady =>
        if r.stage != ProviderRead then (m, Some(BadStage)) else (m.(readyEvent := true), None)
      case AttesterWaiting => (HandleWaiting(m, r, now, readySeconds), None)
      case ProviderObserved =>
        if r.stage != ProviderValidation then (m, Some(BadStage)) else (m.(state := Attesting, closed := true), None)
      case PublicationStarted =>
        if r.stage != ContextPublish then (m, Some(BadStage)) else (m.(state := Attesting, closed := true), None)
      case ContextPublished =>
        if r.stage != ContextPublish then (m, Some(BadStage))
        else (m.(state := Attesting, closed := true, published := true), None)
      case NoEvent => HandleTerminal(m, r)
      case OtherEvent => HandleTerminal(m, r)
  }

  function HandleWaiting(m: Machine, r: Record, now: real, readySeconds: real): Machine {
    var n := if r.stage == IntentRead then m.(closed := true) else m;
    if n.readyEvent && !n.closed && r.stage == ProviderRead then
      var at := if n.readyAt.None? then now else n.readyAt.value;
      n.(state := Ready, readyAt := Some(at), expires := Some(at + readySeconds))
    else n.(state := Attesting)
  }

  function HandleTerminal(m: Machine, r: Record): (Machine, Option<Trouble>) {
    if r.delivered || r.failed then
      if m.terminal.Some? then (m, Some(DuplicateTerminal))
      else (m.(terminal := Some(r)), if r.failed then Some(AttesterFailed) else None)
    else (m, Some(Unexpected))
  }

  function HandleLines(parse: Parser, m: Machine, lines: seq<string>, now: real, readySeconds: real)
      : (Machine, Option<Trouble>)
    decreases |lines|
  {
    if lines == [] then (m, None)
    else if parse(lines[0]).None? then (m, Some(BadLine))
    else
      var (n, trouble) := Handle(m, parse(lines[0]).value, now, readySeconds);
      if trouble.Some? then (n, trouble) else HandleLines(parse, n, lines[1..], now, readySeconds)
  }

  /** The inner loop: consume the complete lines of the buffer. */
  method Consume(parse: Parser, m0: Machine, text: string, now: real, readySeconds: real)
      returns (m: Machine, buffer: string, trouble: Option<Trouble>)
    ensures (m, trouble) == HandleLines(parse, m0, Lines(text), now, readySeconds)
    ensures trouble.None? ==> buffer == Tail(text)
  {
    m, buffer, trouble := m0, text, None;
    var cut := Cut(buffer);
    while cut.Some?
      invariant cut == Cut(buffer)
      invariant Tail(buffer) == Tail(text)
      invariant HandleLines(parse, m, Lines(buffer), now, readySeconds)
             == HandleLines(parse, m0, Lines(text), now, readySeconds)
      decreases |buffer|
    {
      var line := cut.value.0;
      assert Lines(buffer)[1..] == Lines(cut.value.1);
      buffer := cut.value.1;
      var record := parse(line);
      if record.None? { return m, buffer, Some(BadLine); }
      var (n, problem) := Handle(m, record.value, now, readySeconds);
      m := n;
      if problem.Some? { return m, buffer, problem; }
      cut := Cut(buffer);
    }
  }

  // ---------------------------------------------------------------- one round of the supervision loop

  /** What the supervisor carries from round to round, and how far it has read. */
  datatype Session = Session(m: Machine, buffer: string, offset: nat)

  datatype Limits = Limits(readySeconds: real, seconds: real)
  /** The clock at a round's records and at its deadline check, measured from the start. */
  datatype Times = Times(records: real, check: real)

  datatype Verdict = Going(session: Session) | Finished(m: Machine) | Broken(m: Machine, why: Trouble)

  predicate Accepts(m: Machine, buffer: string, code: int) {
    code == 0 && buffer == "" && m.published && m.terminal.Some? && m.terminal.value.delivered && m.terminal.value.jobOk
  }

  /** Poll gave `code`, then everything the child had written was `output`; what is new is read as text. */
  function Round(parse: Parser, limits: Limits, s: Session, code: Option<int>, output: Bytes, t: Times): Verdict
    requires s.offset <= |output|
  {
    var read := TextOf(output[s.offset..]);
    if read.None? then Broken(s.m, BadText)
    else if |output| > OUTPUT_BOUND then Broken(s.m, OutputBound)
    else
      var text := s.buffer + read.value;
      var (m, trouble) := HandleLines(parse, s.m, Lines(text), t.records, limits.readySeconds);
      if trouble.Some? then Broken(m, trouble.value)
      else if code.Some? then
        if Accepts(m, Tail(text), code.value) then Finished(m.(state := Delivered)) else Broken(m, NotDelivered)
      else if t.check >= limits.seconds || (m.readyAt.None? && t.check >= limits.readySeconds) then
        Broken(m, DeadlineExpired)
      else Going(Session(m, Tail(text), |output|))
  }

  // ---------------------------------------------------------------- the child

  /** The child process: what it has written, and its exit code once it has one. */
  datatype Child = Child(output: Bytes, exit: Option<int>)

  /** A living child may append output or exit; a dead one does nothing. */
  predicate ChildStep(a: Child, b: Child) {
    if a.exit.Some? then b == a else a.output <= b.output
  }

  predicate Life(child: seq<Child>) {
    forall i {:trigger child[i + 1]} :: 0 <= i < |child| - 1 ==> ChildStep(child[i], child[i + 1])
  }

  lemma {:induction false} LifeMonotone(child: seq<Child>, i: nat, j: nat)
    requires Life(child) && i <= j < |child|
    ensures child[i].output <= child[j].output
    ensures child[i].exit.Some? ==> child[j] == child[i]
    decreases j - i
  {
    if i < j {
      assert ChildStep(child[i], child[i + 1]);
      LifeMonotone(child, i + 1, j);
    }
  }

  /** One round looks at the child twice: at moment `poll` of its life and then at moment `read`. */
  datatype Look = Look(poll: nat, read: nat, times: Times)

  /** The looks fall within the child's life, and each round reads at least as much as the last. */
  predicate Ordered(child: seq<Child>, looks: seq<Look>) {
    && child != [] && Life(child)
    && (forall i :: 0 <= i < |looks| ==> looks[i].poll < |child| && looks[i].read < |child|)
    && (forall i, j :: 0 <= i < j < |looks| ==> looks[i].read <= looks[j].read)
  }

  /** `child.poll()` comes before `reader.read()` in every round. */
  predicate PollBeforeRead(child: seq<Child>, looks: seq<Look>) {
    Ordered(child, looks) && forall i :: 0 <= i < |looks| ==> looks[i].poll <= looks[i].read
  }

  /** The supervision after the first `n` looks: still going, finished, or broken. */
  function Supervise(parse: Parser, limits: Limits, child: seq<Child>, looks: seq<Look>, n: nat): (v: Verdict)
    requires Ordered(child, looks) && n <= |looks|
    ensures v.Going? ==> v.session.offset == |ReadBy(child, looks, n)|
  {
    if n == 0 then Going(Session(FRESH, "", 0))
    else
      var before := Supervise(parse, limits, child, looks, n - 1);
      if !before.Going? then before
      else
        ReadsGrow(child, looks, n);
        Round(parse, limits, before.session, child[looks[n - 1].poll].exit, ReadBy(child, looks, n), looks[n - 1].times)
  }

  /** Everything the child had written when look `n` read it. */
  function ReadBy(child: seq<Child>, looks: seq<Look>, n: nat): Bytes
    requires Ordered(child, looks) && n <= |looks|
  {
    if n == 0 then [] else child[looks[n - 1].read].output
  }

  lemma ReadsGrow(child: seq<Child>, looks: seq<Look>, n: nat)
    requires Ordered(child, looks) && 0 < n <= |looks|
    ensures ReadBy(child, looks, n - 1) <= ReadBy(child, looks, n)
  {
    if n > 1 { LifeMonotone(child, looks[n - 2].read, looks[n - 1].read); }
  }

  /** The status a verdict leaves in status.json. */
  function StatusOf(v: Verdict): Machine {
    match v
    case Going(session) => session.m
    case Finished(m) => m
    case Broken(m, _) => m.(state := Failed)
  }

  /** The statuses saved in the first `n` rounds: one for every round that was entered. */
  function Statuses(parse: Parser, limits: Limits, child: seq<Child>, looks: seq<Look>, n: nat): seq<Machine>
    requires Ordered(child, looks) && n <= |looks|
  {
    if n == 0 then []
    else if Supervise(parse, limits, child, looks, n - 1).Going? then
      Statuses(parse, limits, child, looks, n - 1) + [StatusOf(Supervise(parse, limits, child, looks, n))]
    else Statuses(parse, limits, child, looks, n - 1)
  }

  /** The verdicts after 0, 1, ..., n looks. */
  function Verdicts(parse: Parser, limits: Limits, child: seq<Child>, looks: seq<Look>, n: nat): (vs: seq<Verdict>)
    requires Ordered(child, looks) && n <= |looks|
    ensures |vs| == n + 1
    ensures forall k :: 0 <= k <= n ==> vs[k] == Supervise(parse, limits, child, looks, k)
  {
    seq(n + 1, k requires 0 <= k <= n => Supervise(parse, limits, child, looks, k))
  }

  /** A settled supervision does not look again. */
  predicate Settles(vs: seq<Verdict>, k: nat)
    requires k + 1 < |vs|
  {
    !vs[k].Going? ==> vs[k + 1] == vs[k]
  }

  lemma LookSettles(parse: Parser, limits: Limits, child: seq<Child>, looks: seq<Look>, k: nat)
    requires Ordered(child, looks) && k < |looks| && !Supervise(parse, limits, child, looks, k).Going?
    ensures Supervise(parse, limits, child, looks, k + 1) == Supervise(parse, limits, child, looks, k)
    ensures Statuses(parse, limits, child, looks, k + 1) == Statuses(parse, limits, child, looks, k)
  {
  }

  lemma VerdictsSettle(parse: Parser, limits: Limits, child: seq<Child>, looks: seq<Look>, n: nat)
    requires Ordered(child, looks) && n <= |looks|
    ensures forall k :: 0 <= k < n ==> Settles(Verdicts(parse, limits, child, looks, n), k)
  {
    var vs := Verdicts(parse, limits, child, looks, n);
    forall k | 0 <= k < n ensures Settles(vs, k) {
      if !vs[k].Going? { LookSettles(parse, limits, child, looks, k); }
    }
  }

  lemma {:induction false} StaysSettled(vs: seq<Verdict>, k: nat, n: nat)
    requires k <= n < |vs| && !vs[k].Going? && forall i :: 0 <= i < n ==> Settles(vs, i)
    ensures vs[n] == vs[k]
    decreases n
  {
    if k < n {
      StaysSettled(vs, k, n - 1);
      assert Settles(vs, n - 1);
    }
  }

  lemma VerdictStays(parse: Parser, limits: Limits, child: seq<Child>, looks: seq<Look>, k: nat, n: nat)
    requires Ordered(child, looks) && k <= n <= |looks| && !Supervise(parse, limits, child, looks, k).Going?
    ensures Supervise(parse, limits, child, looks, n) == Supervise(parse, limits, child, looks, k)
  {
    VerdictsSettle(parse, limits, child, looks, n);
    StaysSettled(Verdicts(parse, limits, child, looks, n), k, n);
  }

  lemma {:induction false} StatusesStay(parse: Parser, limits: Limits, child: seq<Child>, looks: seq<Look>, k: nat,
                                        n: nat)
    requires Ordered(child, looks) && k <= n <= |looks|
    requires forall i :: k <= i <= n ==> !Supervise(parse, limits, child, looks, i).Going?
    ensures Statuses(parse, limits, child, looks, n) == Statuses(parse, limits, child, looks, k)
    decreases n - k
  {
    if k < n {
      LookSettles(parse, limits, child, looks, k);
      StatusesStay(parse, limits, child, looks, k + 1, n);
    }
  }

  lemma SettledStays(parse: Parser, limits: Limits, child: seq<Child>, looks: seq<Look>, k: nat, n: nat)
    requires Ordered(child, looks) && k <= n <= |looks| && !Supervise(parse, limits, child, looks, k).Going?
    ensures Supervise(parse, limits, child, looks, n) == Supervise(parse, limits, child, looks, k)
    ensures Statuses(parse, limits, child, looks, n) == Statuses(parse, limits, child, looks, k)
  {
    forall i | k <= i <= n ensures !Supervise(parse, limits, child, looks, i).Going? {
      VerdictStays(parse, limits, child, looks, k, i);
    }
    VerdictStays(parse, limits, child, looks, k, n);
    StatusesStay(parse, limits, child, looks, k, n);
  }

  /** One round of the loop. */
  method SuperviseRound(parse: Parser, limits: Limits, s: Session, code: Option<int>, output: Bytes, t: Times)
      returns (v: Verdict)
    requires s.offset <= |output|
    ensures v == Round(parse, limits, s, code, output, t)
  {
    var read := TextOf(output[s.offset..]);
    if read.None? { return Broken(s.m, BadText); }
    if |output| > OUTPUT_BOUND { return Broken(s.m, OutputBound); }
    var m, buffer, trouble := Consume(parse, s.m, s.buffer + read.value, t.records, limits.readySeconds);
    if trouble.Some? { return Broken(m, trouble.value); }
    if code.Some? {
      if !Accepts(m, buffer, code.value) { return Broken(m, NotDelivered); }
      return Finished(m.(state := Delivered));
    }
    if t.check >= limits.seconds || (m.readyAt.None? && t.check >= limits.readySeconds) {
      return Broken(m, DeadlineExpired);
    }
    v := Going(Session(m, buffer, |output|));
  }

  /** The supervision loop: each round polls, reads what is new, consumes its lines, and stops or saves
      the status. `saved` is the sequence of statuses it leaves behind. */
  method SuperviseLoop(parse: Parser, limits: Limits, child: seq<Child>, looks: seq<Look>)
      returns (v: Verdict, saved: seq<Machine>)
    requires Ordered(child, looks)
    ensures v == Supervise(parse, limits, child, looks, |looks|)
    ensures saved == Statuses(parse, limits, child, looks, |looks|)
  {
    var session := Session(FRESH, "", 0);
    saved := [];
    for n := 0 to |looks|
      invariant Supervise(parse, limits, child, looks, n) == Going(session)
      invariant saved == Statuses(parse, limits, child, looks, n)
    {
      ReadsGrow(child, looks, n + 1);
      v := SuperviseRound(parse, limits, session, child[looks[n].poll].exit, child[looks[n].read].output,
        looks[n].times);
      saved := saved + [StatusOf(v)];
      if !v.Going? {
        SettledStays(parse, limits, child, looks, n + 1, |looks|);
        return;
      }
      session := v.session;
    }
    v := Going(session);
  }
}
