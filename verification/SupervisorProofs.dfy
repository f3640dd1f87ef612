/** What the supervisor's verdict and its published statuses mean. */
module SupervisorProofs {
  import opened Supervisor
  import opened TextReader
  import opened Wrappers

  // ---------------------------------------------------------------- reading in pieces

  /** Equal but for the instants recorded. */
  predicate Same(a: Machine, b: Machine) {
    && a.readyAt.Some? == b.readyAt.Some? && a.expires.Some? == b.expires.Some?
    && a == b.(readyAt := a.readyAt, expires := a.expires)
  }

  lemma WaitingTimeless(a: Machine, b: Machine, r: Record, now: real, later: real, ready: real, wait: real)
    requires Same(a, b)
    ensures Same(HandleWaiting(a, r, now, ready), HandleWaiting(b, r, later, wait))
  {
  }

  lemma TerminalTimeless(a: Machine, b: Machine, r: Record)
    requires Same(a, b)
    ensures var x, y := HandleTerminal(a, r), HandleTerminal(b, r); Same(x.0, y.0) && x.1 == y.1
  {
  }

  predicate Plain(r: Record) {
    r.event.AttesterReady? || r.event.ProviderObserved? || r.event.PublicationStarted? || r.event.ContextPublished?
  }

  lemma PlainTimeless(a: Machine, b: Machine, r: Record, now: real, later: real, ready: real, wait: real)
    requires Same(a, b) && Plain(r)
    ensures Same(Handle(a, r, now, ready).0, Handle(b, r, later, wait).0)
    ensures Handle(a, r, now, ready).1 == Handle(b, r, later, wait).1
  {
  }

  lemma HandleTimeless(a: Machine, b: Machine, r: Record, now: real, later: real, ready: real, wait: real)
    requires Same(a, b)
    ensures Same(Handle(a, r, now, ready).0, Handle(b, r, later, wait).0)
    ensures Handle(a, r, now, ready).1 == Handle(b, r, later, wait).1
  {
    if Plain(r) {
      PlainTimeless(a, b, r, now, later, ready, wait);
    } else if r.event.AttesterWaiting? {
      WaitingTimeless(a, b, r, now, later, ready, wait);
    } else {
      TerminalTimeless(a, b, r);
    }
  }

  lemma {:induction false} LinesTimeless(parse: Parser, a: Machine, b: Machine, lines: seq<string>,
                                         now: real, later: real, ready: real, wait: real)
    requires Same(a, b)
    ensures var x, y := HandleLines(parse, a, lines, now, ready), HandleLines(parse, b, lines, later, wait);
      Same(x.0, y.0) && x.1 == y.1
    decreases |lines|
  {
    if lines != [] && parse(lines[0]).Some? {
      var r := parse(lines[0]).value;
      HandleTimeless(a, b, r, now, later, ready, wait);
      LinesTimeless(parse, Handle(a, r, now, ready).0, Handle(b, r, later, wait).0, lines[1..], now, later, ready,
        wait);
    }
  }

  lemma {:induction false} LinesAppend(parse: Parser, m: Machine, a: seq<string>, b: seq<string>, now: real,
                                       ready: real)
    ensures var first := HandleLines(parse, m, a, now, ready);
      HandleLines(parse, m, a + b, now, ready)
      == if first.1.Some? then first else HandleLines(parse, first.0, b, now, ready)
    decreases |a|
  {
    if a == [] {
      assert a + b == b;
    } else if parse(a[0]).Some? {
      var (n, trouble) := Handle(m, parse(a[0]).value, now, ready);
      assert (a + b)[1..] == a[1..] + b;
      if trouble.None? { LinesAppend(parse, n, a[1..], b, now, ready); }
    }
  }

  /** The records of a whole text, handled at once. */
  function Whole(parse: Parser, text: string): (Machine, Option<Trouble>) {
    HandleLines(parse, FRESH, Lines(text), 0.0, 0.0)
  }

  predicate LineTrouble(t: Trouble) { !t.BadText? && !t.OutputBound? && !t.NotDelivered? && !t.DeadlineExpired? }

  /** A trouble found in a text stays the verdict on every longer text. */
  lemma TroubleStays(parse: Parser, text: string, more: string)
    requires Whole(parse, text).1.Some?
    ensures Whole(parse, text + more) == Whole(parse, text)
  {
    SplitAppend(text, more);
    LinesAppend(parse, FRESH, Lines(text), Lines(Tail(text) + more), 0.0, 0.0);
  }

  /** One round on a session that agrees with the text seen so far. */
  lemma RoundIsWhole(parse: Parser, s: Session, seen: string, text: string, now: real, ready: real)
    requires s.buffer == Tail(seen) && Whole(parse, seen).1.None? && Same(s.m, Whole(parse, seen).0)
    ensures var (m, trouble) := HandleLines(parse, s.m, Lines(s.buffer + text), now, ready);
      Whole(parse, seen + text).1 == trouble && Same(m, Whole(parse, seen + text).0)
    ensures Tail(s.buffer + text) == Tail(seen + text)
  {
    SplitAppend(seen, text);
    LinesAppend(parse, FRESH, Lines(seen), Lines(Tail(seen) + text), 0.0, 0.0);
    LinesTimeless(parse, s.m, Whole(parse, seen).0, Lines(Tail(seen) + text), now, 0.0, ready, 0.0);
  }

  /** What the text that has been seen says, whatever the rounds that read it. */
  predicate VerdictFits(parse: Parser, v: Verdict, seen: string) {
    match v
    case Going(s) =>
      && Whole(parse, seen).1.None? && Same(s.m, Whole(parse, seen).0) && s.buffer == Tail(seen)
    case Finished(m) =>
      && Whole(parse, seen).1.None? && Same(m, Whole(parse, seen).0.(state := Delivered)) && Tail(seen) == ""
    case Broken(m, why) =>
      && !why.BadText?
      && (LineTrouble(why) ==> Whole(parse, seen).1 == Some(why) && Same(m, Whole(parse, seen).0))
  }

  lemma {:induction false} TroubleIsOfLine(parse: Parser, m: Machine, lines: seq<string>, now: real, ready: real)
    ensures var trouble := HandleLines(parse, m, lines, now, ready).1; trouble.Some? ==> LineTrouble(trouble.value)
    decreases |lines|
  {
    if lines != [] && parse(lines[0]).Some? {
      TroubleIsOfLine(parse, Handle(m, parse(lines[0]).value, now, ready).0, lines[1..], now, ready);
    }
  }

  lemma RoundFits(parse: Parser, limits: Limits, s: Session, code: Option<int>, seen: string, output: Bytes, t: Times)
    requires s.offset <= |output| && TextOf(output[s.offset..]).Some? && VerdictFits(parse, Going(s), seen)
    ensures VerdictFits(parse, Round(parse, limits, s, code, output, t), seen + TextOf(output[s.offset..]).value)
  {
    var text := TextOf(output[s.offset..]).value;
    RoundIsWhole(parse, s, seen, text, t.records, limits.readySeconds);
    TroubleIsOfLine(parse, s.m, Lines(s.buffer + text), t.records, limits.readySeconds);
  }

  /** What look `n` reads. */
  function Chunk(child: seq<Child>, looks: seq<Look>, n: nat): Bytes
    requires Ordered(child, looks) && 0 < n <= |looks|
  {
    ReadsGrow(child, looks, n);
    ReadBy(child, looks, n)[|ReadBy(child, looks, n - 1)|..]
  }

  /** The text handed out by the first `n` reads, unless one of them fails to decode. */
  function Seen(child: seq<Child>, looks: seq<Look>, n: nat): Option<string>
    requires Ordered(child, looks) && n <= |looks|
  {
    if n == 0 then Some("")
    else if Seen(child, looks, n - 1).None? || TextOf(Chunk(child, looks, n)).None? then None
    else Some(Seen(child, looks, n - 1).value + TextOf(Chunk(child, looks, n)).value)
  }

  lemma StillGoing(parse: Parser, limits: Limits, child: seq<Child>, looks: seq<Look>, n: nat)
    requires Ordered(child, looks) && 1 < n <= |looks| && Supervise(parse, limits, child, looks, n - 1).Going?
    ensures Supervise(parse, limits, child, looks, n - 2).Going?
  {
  }

  lemma RoundTaken(parse: Parser, limits: Limits, child: seq<Child>, looks: seq<Look>, n: nat)
    requires Ordered(child, looks) && 0 < n <= |looks| && Supervise(parse, limits, child, looks, n - 1).Going?
    ensures ReadBy(child, looks, n - 1) <= ReadBy(child, looks, n)
    ensures var s := Supervise(parse, limits, child, looks, n - 1).session;
      && s.offset == |ReadBy(child, looks, n - 1)| && ReadBy(child, looks, n)[s.offset..] == Chunk(child, looks, n)
      && Supervise(parse, limits, child, looks, n)
         == Round(parse, limits, s, child[looks[n - 1].poll].exit, ReadBy(child, looks, n), looks[n - 1].times)
  {
    ReadsGrow(child, looks, n);
  }

  lemma RoundFitsOrFails(parse: Parser, limits: Limits, s: Session, code: Option<int>, seen: string, output: Bytes,
                         t: Times)
    requires s.offset <= |output| && VerdictFits(parse, Going(s), seen)
    ensures var v, read := Round(parse, limits, s, code, output, t), TextOf(output[s.offset..]);
      if read.Some? then VerdictFits(parse, v, seen + read.value) else v.Broken? && v.why.BadText?
  {
    if TextOf(output[s.offset..]).Some? { RoundFits(parse, limits, s, code, seen, output, t); }
  }

  /** A supervision that was going before look `n` fits the text of the first `n` reads; it breaks with BadText exactly
      when that read does not decode. */
  lemma {:induction false} RoundsFit(parse: Parser, limits: Limits, child: seq<Child>, looks: seq<Look>, n: nat)
    requires Ordered(child, looks) && n <= |looks|
    requires n == 0 || Supervise(parse, limits, child, looks, n - 1).Going?
    ensures var v := Supervise(parse, limits, child, looks, n);
      if Seen(child, looks, n).Some? then VerdictFits(parse, v, Seen(child, looks, n).value)
      else v.Broken? && v.why.BadText?
    ensures n > 0 ==> Seen(child, looks, n - 1).Some?
  {
    if n > 0 {
      if n > 1 { StillGoing(parse, limits, child, looks, n); }
      RoundsFit(parse, limits, child, looks, n - 1);
      RoundTaken(parse, limits, child, looks, n);
      hide Supervise, Round, VerdictFits, TextOf, Ordered;
      RoundFitsOrFails(parse, limits, Supervise(parse, limits, child, looks, n - 1).session,
                       child[looks[n - 1].poll].exit, Seen(child, looks, n - 1).value, ReadBy(child, looks, n),
                       looks[n - 1].times);
    }
  }

  // ---------------------------------------------------------------- where reads cut the output

  /** None of the first `n` reads ends inside a character of `whole` or between a CR and its LF. */
  predicate CleanReads(child: seq<Child>, looks: seq<Look>, n: nat, whole: Bytes)
    requires Ordered(child, looks) && n <= |looks|
  {
    forall i :: 0 <= i <= n ==>
      |ReadBy(child, looks, i)| <= |whole| && CleanCut(whole, |ReadBy(child, looks, i)|)
  }

  lemma CleanInPrefix(b: Bytes, whole: Bytes, i: nat)
    requires b <= whole && i <= |b|
    ensures CleanCut(whole, i) ==> CleanCut(b, i)
    ensures i < |b| && CleanCut(b, i) ==> CleanCut(whole, i)
  {
  }

  lemma ReadsGrowTo(child: seq<Child>, looks: seq<Look>, i: nat, n: nat)
    requires Ordered(child, looks) && i <= n <= |looks|
    ensures ReadBy(child, looks, i) <= ReadBy(child, looks, n)
  {
    if 0 < i { LifeMonotone(child, looks[i - 1].read, looks[n - 1].read); }
  }

  /** Reads that were clean before look `n` are clean after it, if the place where it goes on is. */
  lemma CleanStep(child: seq<Child>, looks: seq<Look>, n: nat)
    requires Ordered(child, looks) && 0 < n <= |looks|
    ensures |ReadBy(child, looks, n - 1)| <= |ReadBy(child, looks, n)|
    ensures CleanReads(child, looks, n, ReadBy(child, looks, n)) <==>
      && CleanReads(child, looks, n - 1, ReadBy(child, looks, n - 1))
      && CleanCut(ReadBy(child, looks, n), |ReadBy(child, looks, n - 1)|)
  {
    var before, now := ReadBy(child, looks, n - 1), ReadBy(child, looks, n);
    ReadsGrow(child, looks, n);
    forall i | 0 <= i < n
      ensures |ReadBy(child, looks, i)| <= |before|
      ensures CleanCut(now, |before|) ==>
        (CleanCut(now, |ReadBy(child, looks, i)|) <==> CleanCut(before, |ReadBy(child, looks, i)|))
    {
      ReadsGrowTo(child, looks, i, n - 1);
      CleanInPrefix(before, now, |ReadBy(child, looks, i)|);
    }
  }

  lemma TextOfPieces(before: Bytes, now: Bytes)
    requires before <= now && TextOf(now).Some? && CleanCut(now, |before|)
    ensures TextOf(before).Some? && TextOf(now[|before|..]).Some?
    ensures TextOf(now).value == TextOf(before).value + TextOf(now[|before|..]).value
  {
    hide TextOf, CleanCut;
    CutIsHarmlessIff(now, |before|);
    assert now[..|before|] == before;
  }

  lemma SeenStep(child: seq<Child>, looks: seq<Look>, n: nat)
    requires Ordered(child, looks) && 0 < n <= |looks|
    ensures ReadBy(child, looks, n - 1) <= ReadBy(child, looks, n)
    ensures Seen(child, looks, n) ==
      var read := TextOf(ReadBy(child, looks, n)[|ReadBy(child, looks, n - 1)|..]);
      if Seen(child, looks, n - 1).None? || read.None? then None
      else Some(Seen(child, looks, n - 1).value + read.value)
  {
    ReadsGrow(child, looks, n);
  }

  lemma SeenGrows(child: seq<Child>, looks: seq<Look>, n: nat, before: Bytes, now: Bytes)
    requires Ordered(child, looks) && 0 < n <= |looks|
    requires before == ReadBy(child, looks, n - 1) && now == ReadBy(child, looks, n)
    requires before <= now && TextOf(now).Some? && CleanCut(now, |before|)
    requires Seen(child, looks, n - 1) == TextOf(before)
    ensures Seen(child, looks, n) == TextOf(now)
  {
    SeenStep(child, looks, n);
    TextOfPieces(before, now);
    hide Seen, ReadBy, Ordered, CleanCut, TextOf;
  }

  lemma NothingSeen(child: seq<Child>, looks: seq<Look>)
    requires Ordered(child, looks)
    ensures Seen(child, looks, 0) == TextOf(ReadBy(child, looks, 0)) == Some("")
  {
  }

  /** Clean reads of well-formed output hand out the text that one read would. */
  lemma {:induction false} CleanReadsSeeTheText(child: seq<Child>, looks: seq<Look>, n: nat)
    requires Ordered(child, looks) && n <= |looks| && TextOf(ReadBy(child, looks, n)).Some?
    requires CleanReads(child, looks, n, ReadBy(child, looks, n))
    ensures Seen(child, looks, n) == TextOf(ReadBy(child, looks, n))
  {
    hide Seen, ReadBy, Ordered, CleanReads, CleanCut, TextOf;
    if n == 0 {
      NothingSeen(child, looks);
    } else {
      var before, now := ReadBy(child, looks, n - 1), ReadBy(child, looks, n);
      CleanStep(child, looks, n);
      SeenStep(child, looks, n);
      TextOfPieces(before, now);
      CleanReadsSeeTheText(child, looks, n - 1);
      SeenGrows(child, looks, n, before, now);
    }
  }

  lemma EmptyLineBreaks(parse: Parser, m: Machine, text: string, now: real, ready: real)
    requires text != "" && text[0] == '\n'
    ensures HandleLines(parse, m, Lines(text), now, ready) == (m, Some(BadLine))
  {
  }

  lemma {:induction false} EndedLineLeavesNothing(s: string)
    requires s != "" && s[|s| - 1] == '\n'
    ensures Tail(s) == ""
    decreases |s|
  {
    var cut := Cut(s);
    assert '\n' in s;
    if cut.value.1 != "" {
      assert cut.value.1[|cut.value.1| - 1] == s[|s| - 1];
      EndedLineLeavesNothing(cut.value.1);
    }
  }

  /** A read that goes on between a CR and its LF hands out an empty line, which breaks the supervision. */
  lemma PartedLineEndBreaks(parse: Parser, limits: Limits, s: Session, code: Option<int>, before: Bytes, output: Bytes,
                            t: Times)
    requires before <= output && s.offset == |before| && TextOf(before).Some? && TextOf(output[|before|..]).Some?
    requires s.buffer == Tail(TextOf(before).value) && PartsLineEnd(before, output[|before|..])
    ensures var v := Round(parse, limits, s, code, output, t); v.Broken? && (v.why.BadLine? || v.why.OutputBound?)
  {
    TwoReads(before, output[|before|..]);
    EndedLineLeavesNothing(TextOf(before).value);
    var text := TextOf(output[|before|..]).value;
    assert s.buffer + text == text;
    EmptyLineBreaks(parse, s.m, text, t.records, limits.readySeconds);
  }

  /** The supervision is going after look `n`, or has just been delivered by it. */
  predicate Unbroken(parse: Parser, limits: Limits, child: seq<Child>, looks: seq<Look>, n: nat)
    requires Ordered(child, looks) && n <= |looks|
  {
    && (n == 0 || Supervise(parse, limits, child, looks, n - 1).Going?)
    && !Supervise(parse, limits, child, looks, n).Broken?
  }

  /** As long as a supervision is not broken, its reads have been clean and have seen what one read would. */
  lemma {:induction false} UnbrokenIsClean(parse: Parser, limits: Limits, child: seq<Child>, looks: seq<Look>, n: nat)
    requires Ordered(child, looks) && n <= |looks| && Unbroken(parse, limits, child, looks, n)
    ensures TextOf(ReadBy(child, looks, n)).Some?
    ensures CleanReads(child, looks, n, ReadBy(child, looks, n))
    ensures Seen(child, looks, n) == TextOf(ReadBy(child, looks, n))
  {
    if n > 0 {
      assert Unbroken(parse, limits, child, looks,
        n - 1) by { if n > 1 { StillGoing(parse, limits, child, looks, n); } }
      UnbrokenIsClean(parse, limits, child, looks, n - 1);
      UnbrokenStep(parse, limits, child, looks, n);
      CleanStep(child, looks, n);
      CleanReadsSeeTheText(child, looks, n);
    }
  }

  /** The session before look `n`, when look `n` does not break it. */
  lemma UnbrokenRead(parse: Parser, limits: Limits, child: seq<Child>, looks: seq<Look>, n: nat)
    requires Ordered(child, looks) && 0 < n <= |looks| && Unbroken(parse, limits, child, looks, n)
    ensures Seen(child, looks, n - 1).Some? && TextOf(Chunk(child, looks, n)).Some?
    ensures Supervise(parse, limits, child, looks, n - 1).session.buffer == Tail(Seen(child, looks, n - 1).value)
  {
    if n > 1 { StillGoing(parse, limits, child, looks, n); }
    RoundsFit(parse, limits, child, looks, n - 1);
    RoundsFit(parse, limits, child, looks, n);
  }

  lemma UnbrokenStep(parse: Parser, limits: Limits, child: seq<Child>, looks: seq<Look>, n: nat)
    requires Ordered(child, looks) && 0 < n <= |looks| && Unbroken(parse, limits, child, looks, n)
    requires Seen(child, looks, n - 1) == TextOf(ReadBy(child, looks, n - 1)) && Seen(child, looks, n - 1).Some?
    ensures |ReadBy(child, looks, n - 1)| <= |ReadBy(child, looks, n)|
    ensures TextOf(ReadBy(child, looks, n)).Some?
    ensures CleanCut(ReadBy(child, looks, n), |ReadBy(child, looks, n - 1)|)
  {
    var before, now := ReadBy(child, looks, n - 1), ReadBy(child, looks, n);
    UnbrokenRead(parse, limits, child, looks, n);
    RoundTaken(parse, limits, child, looks, n);
    var s := Supervise(parse, limits, child, looks, n - 1).session;
    hide Supervise, Round, TextOf, Seen, ReadBy, Tail;
    if PartsLineEnd(before, now[|before|..]) {
      PartedLineEndBreaks(parse, limits, s, child[looks[n - 1].poll].exit, before, now, looks[n - 1].times);
    }
    UnpartedCutIsClean(before, now);
  }

  lemma UnpartedCutIsClean(before: Bytes, now: Bytes)
    requires before <= now && TextOf(before).Some? && TextOf(now[|before|..]).Some?
    requires !PartsLineEnd(before, now[|before|..])
    ensures TextOf(now).Some? && CleanCut(now, |before|)
  {
    hide TextOf;
    TwoReads(before, now[|before|..]);
    assert before + now[|before|..] == now;
    assert now[..|before|] == before;
    CutIsHarmlessIff(now, |before|);
  }

  lemma {:induction false} LastGoing(vs: seq<Verdict>, n: nat) returns (k: nat)
    requires n < |vs| && vs[0].Going? && !vs[n].Going? && forall i :: 0 <= i < n ==> Settles(vs, i)
    ensures 0 < k <= n && vs[k - 1].Going? && vs[k] == vs[n]
  {
    if vs[n - 1].Going? {
      k := n;
    } else {
      assert Settles(vs, n - 1);
      k := LastGoing(vs, n - 1);
    }
  }

  /** The round that settled a verdict. */
  lemma SettlingRound(parse: Parser, limits: Limits, child: seq<Child>, looks: seq<Look>, n: nat) returns (k: nat)
    requires Ordered(child, looks) && n <= |looks| && !Supervise(parse, limits, child, looks, n).Going?
    ensures 0 < k <= n && Supervise(parse, limits, child, looks, k - 1).Going?
    ensures Supervise(parse, limits, child, looks, k) == Supervise(parse, limits, child, looks, n)
  {
    VerdictsSettle(parse, limits, child, looks, n);
    k := LastGoing(Verdicts(parse, limits, child, looks, n), n);
  }

  /** While they go on, two supervisions that have read the same output hold the same state, remainder and flags,
      however their reads cut it up: a read that cut it badly would have broken one of them. */
  lemma GoingReadsDoNotMatter(parse: Parser, limits: Limits, other: Limits, child: seq<Child>, twin: seq<Child>,
                         looks: seq<Look>, looks': seq<Look>)
    requires Ordered(child, looks) && Ordered(twin, looks')
    requires ReadBy(child, looks, |looks|) == ReadBy(twin, looks', |looks'|)
    requires Supervise(parse, limits, child, looks, |looks|).Going?
    requires Supervise(parse, other, twin, looks', |looks'|).Going?
    ensures var s := Supervise(parse, limits, child, looks, |looks|).session;
      var t := Supervise(parse, other, twin, looks', |looks'|).session;
      Same(s.m, t.m) && s.buffer == t.buffer && s.offset == t.offset
  {
    GoingFits(parse, limits, child, looks);
    GoingFits(parse, other, twin, looks');
  }

  lemma GoingFits(parse: Parser, limits: Limits, child: seq<Child>, looks: seq<Look>)
    requires Ordered(child, looks) && Supervise(parse, limits, child, looks, |looks|).Going?
    ensures TextOf(ReadBy(child, looks, |looks|)).Some?
    ensures VerdictFits(parse, Supervise(parse, limits, child, looks, |looks|),
      TextOf(ReadBy(child, looks, |looks|)).value)
  {
    assert |looks| > 0 ==> Supervise(parse, limits, child, looks, |looks| - 1).Going?;
    UnbrokenIsClean(parse, limits, child, looks, |looks|);
    RoundsFit(parse, limits, child, looks, |looks|);
  }

  // ---------------------------------------------------------------- the final verdict

  /** What the whole output, read at once, and the exit code of the child say. */
  function FinalVerdict(parse: Parser, output: Bytes, code: Option<int>): Verdict {
    var text := TextOf(output);
    if text.None? then Broken(FRESH, BadText)
    else
      var (m, trouble) := Whole(parse, text.value);
      if trouble.Some? then Broken(m, trouble.value)
      else if code.Some? && Accepts(m, Tail(text.value), code.value) then Finished(m.(state := Delivered))
      else Broken(m, NotDelivered)
  }

  /** Equal but for the instants recorded. */
  predicate SameVerdict(v: Verdict, w: Verdict) {
    match v
    case Going(_) => false
    case Finished(m) => w.Finished? && Same(m, w.m)
    case Broken(m, why) => w.Broken? && w.why == why && Same(m, w.m)
  }

  /** The supervision has ended, and not by a timeout or by the bound on the output. */
  predicate Settled(v: Verdict) {
    v.Finished? || (v.Broken? && !v.why.OutputBound? && !v.why.DeadlineExpired?)
  }

  /** What clean reads have handed out is how the text of the whole output begins. */
  lemma CleanTextIsPrefix(child: seq<Child>, looks: seq<Look>, k: nat, n: nat, whole: Bytes)
    requires Ordered(child, looks) && k <= n <= |looks| && ReadBy(child, looks, k) <= whole && TextOf(whole).Some?
    requires CleanReads(child, looks, n, whole)
    ensures Seen(child, looks, k).Some? && Seen(child, looks, k) == TextOf(ReadBy(child, looks, k))
    ensures Seen(child, looks, k).value <= TextOf(whole).value
  {
    var read := ReadBy(child, looks, k);
    assert whole[..|read|] == read;
    CutIsHarmlessIff(whole, |read|);
    forall i | 0 <= i <= k
      ensures |ReadBy(child, looks, i)| <= |read| && CleanCut(read, |ReadBy(child, looks, i)|)
    {
      ReadsGrowTo(child, looks, i, k);
      CleanInPrefix(read, whole, |ReadBy(child, looks, i)|);
    }
    CleanReadsSeeTheText(child, looks, k);
  }

  /** A supervision broken by a line is broken by that text for good: any well-formed output that continues what it
      has read, and is cut cleanly by its reads, breaks with the same error and the same flags, however it is read. */
  lemma SameLineBreaksAll(parse: Parser, limits: Limits, child: seq<Child>, looks: seq<Look>, output: Bytes)
    requires Ordered(child, looks) && Supervise(parse, limits, child, looks, |looks|).Broken?
    requires LineTrouble(Supervise(parse, limits, child, looks, |looks|).why)
    requires ReadBy(child, looks, |looks|) <= output && TextOf(output).Some?
    requires CleanReads(child, looks, |looks|, output)
    ensures var v := Supervise(parse, limits, child, looks, |looks|);
      Whole(parse, TextOf(output).value).1 == Some(v.why) && Same(v.m, Whole(parse, TextOf(output).value).0)
  {
    var k := SettlingRound(parse, limits, child, looks, |looks|);
    RoundsFit(parse, limits, child, looks, k);
    ReadsGrowTo(child, looks, k, |looks|);
    CleanTextIsPrefix(child, looks, k, |looks|, output);
    hide Supervise, TextOf, Seen, ReadBy, Ordered, CleanReads, Whole;
    var seen, text := Seen(child, looks, k).value, TextOf(output).value;
    TroubleStays(parse, seen, text[|seen|..]);
    assert seen + text[|seen|..] == text;
  }

  /** A verdict reached in a round without a bad line. */
  predicate SettledByExit(v: Verdict) { Settled(v) && !(v.Broken? && LineTrouble(v.why)) }

  /** A round that settles without a bad line has seen the exit and accepted every line. */
  lemma ExitRound(parse: Parser, limits: Limits, s: Session, code: Option<int>, output: Bytes, t: Times, text: string,
                  m: Machine, trouble: Option<Trouble>)
    requires s.offset <= |output| && TextOf(output[s.offset..]) == Some(text)
    requires HandleLines(parse, s.m, Lines(s.buffer + text), t.records, limits.readySeconds) == (m, trouble)
    requires SettledByExit(Round(parse, limits, s, code, output, t))
    ensures code.Some? && trouble.None?
    ensures Round(parse, limits, s, code, output, t) ==
      if Accepts(m, Tail(s.buffer + text), code.value) then Finished(m.(state := Delivered))
      else Broken(m, NotDelivered)
  {
    TroubleIsOfLine(parse, s.m, Lines(s.buffer + text), t.records, limits.readySeconds);
  }

  lemma LastRoundIsFinal(parse: Parser, limits: Limits, s: Session, code: Option<int>, seen: string, output: Bytes,
                         t: Times)
    requires s.offset <= |output| && TextOf(output[s.offset..]).Some? && VerdictFits(parse, Going(s), seen)
    requires TextOf(output) == Some(seen + TextOf(output[s.offset..]).value)
    requires SettledByExit(Round(parse, limits, s, code, output, t))
    ensures code.Some? && SameVerdict(Round(parse, limits, s, code, output, t), FinalVerdict(parse, output, code))
  {
    var text := TextOf(output[s.offset..]).value;
    RoundIsWhole(parse, s, seen, text, t.records, limits.readySeconds);
    var (m, trouble) := HandleLines(parse, s.m, Lines(s.buffer + text), t.records, limits.readySeconds);
    ExitRound(parse, limits, s, code, output, t, text, m, trouble);
  }

  lemma ExitRoundFits(parse: Parser, limits: Limits, child: seq<Child>, looks: seq<Look>, k: nat)
    requires Ordered(child, looks) && 0 < k <= |looks|
    requires Supervise(parse, limits, child, looks, k - 1).Going?
    requires SettledByExit(Supervise(parse, limits, child, looks, k))
    requires Seen(child, looks, k).Some? && Seen(child, looks, k) == TextOf(ReadBy(child, looks, k))
    ensures child[looks[k - 1].poll].exit.Some?
    ensures SameVerdict(Supervise(parse, limits, child, looks, k),
                        FinalVerdict(parse, ReadBy(child, looks, k), child[looks[k - 1].poll].exit))
  {
    if k > 1 { StillGoing(parse, limits, child, looks, k); }
    RoundsFit(parse, limits, child, looks, k - 1);
    RoundTaken(parse, limits, child, looks, k);
    var s, seen := Supervise(parse, limits, child, looks, k - 1).session, Seen(child, looks, k - 1).value;
    assert VerdictFits(parse, Going(s), seen);
    assert TextOf(Chunk(child, looks, k)).Some?;
    hide Supervise, Round, TextOf, VerdictFits, FinalVerdict, SettledByExit, SameVerdict, Ordered, ReadBy;
    LastRoundIsFinal(parse, limits, s, child[looks[k - 1].poll].exit, seen, ReadBy(child, looks, k),
                     looks[k - 1].times);
  }

  /** A round that saw the exit has read everything the child ever wrote. */
  lemma ExitRoundReadsAll(child: seq<Child>, looks: seq<Look>, k: nat)
    requires PollBeforeRead(child, looks) && 0 < k <= |looks| && child[looks[k - 1].poll].exit.Some?
    ensures var last := child[|child| - 1];
      ReadBy(child, looks, k) == last.output && child[looks[k - 1].poll].exit == last.exit
  {
    LifeMonotone(child, looks[k - 1].poll, looks[k - 1].read);
    LifeMonotone(child, looks[k - 1].poll, |child| - 1);
  }

  lemma ReadsAreOfWhole(child: seq<Child>, looks: seq<Look>, n: nat)
    requires Ordered(child, looks) && n <= |looks|
    ensures ReadBy(child, looks, n) <= child[|child| - 1].output
  {
    if n > 0 { LifeMonotone(child, looks[n - 1].read, |child| - 1); }
  }

  /** A supervision that settles after clean reads of well-formed output gives the verdict of the whole output and the
      exit code. */
  lemma SettledIsFinal(parse: Parser, limits: Limits, child: seq<Child>, looks: seq<Look>)
    requires PollBeforeRead(child, looks) && Settled(Supervise(parse, limits, child, looks, |looks|))
    requires TextOf(child[|child| - 1].output).Some? && CleanReads(child, looks, |looks|, child[|child| - 1].output)
    ensures var last := child[|child| - 1];
      SameVerdict(Supervise(parse, limits, child, looks, |looks|), FinalVerdict(parse, last.output, last.exit))
  {
    var v, whole := Supervise(parse, limits, child, looks, |looks|), child[|child| - 1].output;
    if v.Broken? && LineTrouble(v.why) {
      ReadsAreOfWhole(child, looks, |looks|);
      SameLineBreaksAll(parse, limits, child, looks, whole);
    } else {
      var k := SettlingRound(parse, limits, child, looks, |looks|);
      ReadsAreOfWhole(child, looks, k);
      CleanTextIsPrefix(child, looks, k, |looks|, whole);
      RoundsFit(parse, limits, child, looks, k);
      ExitRoundFits(parse, limits, child, looks, k);
      ExitRoundReadsAll(child, looks, k);
    }
  }

  /** Timeouts and the output bound aside, the verdict and every flag of a supervision depend only on what the
      child wrote and how it exited, not on when it was polled and how reads cut its output up, as long as no read
      ends inside a character or between a CR and its LF. */
  lemma ReadsDoNotMatter(parse: Parser, limits: Limits, other: Limits, child: seq<Child>, twin: seq<Child>,
                         looks: seq<Look>, looks': seq<Look>)
    requires PollBeforeRead(child, looks) && Settled(Supervise(parse, limits, child, looks, |looks|))
    requires PollBeforeRead(twin, looks') && Settled(Supervise(parse, other, twin, looks', |looks'|))
    requires child[|child| - 1] == twin[|twin| - 1] && TextOf(child[|child| - 1].output).Some?
    requires CleanReads(child, looks, |looks|, child[|child| - 1].output)
    requires CleanReads(twin, looks', |looks'|, twin[|twin| - 1].output)
    ensures SameVerdict(Supervise(parse, limits, child, looks, |looks|),
      Supervise(parse, other, twin, looks', |looks'|))
  {
    SettledIsFinal(parse, limits, child, looks);
    SettledIsFinal(parse, other, twin, looks');
  }

  /** A caller can see to it: output in ASCII without carriage returns is cut cleanly wherever a read ends. */
  lemma AsciiReadsAreClean(child: seq<Child>, looks: seq<Look>)
    requires Ordered(child, looks) && PlainAscii(child[|child| - 1].output)
    ensures TextOf(child[|child| - 1].output).Some? && CleanReads(child, looks, |looks|, child[|child| - 1].output)
  {
    var whole := child[|child| - 1].output;
    AsciiCutsAreClean(whole, 0);
    forall i | 0 <= i <= |looks|
      ensures |ReadBy(child, looks, i)| <= |whole| && CleanCut(whole, |ReadBy(child, looks, i)|)
    {
      ReadsAreOfWhole(child, looks, i);
      AsciiCutsAreClean(whole, |ReadBy(child, looks, i)|);
    }
  }

  lemma FinishedReads(parse: Parser, limits: Limits, child: seq<Child>, looks: seq<Look>) returns (k: nat)
    requires PollBeforeRead(child, looks) && Supervise(parse, limits, child, looks, |looks|).Finished?
    ensures 0 < k <= |looks| && Unbroken(parse, limits, child, looks, k)
    ensures Supervise(parse, limits, child, looks, k) == Supervise(parse, limits, child, looks, |looks|)
    ensures ReadBy(child, looks, k) == child[|child| - 1].output && child[looks[k - 1].poll].exit == Some(0)
    ensures child[|child| - 1].exit == Some(0)
  {
    k := SettlingRound(parse, limits, child, looks, |looks|);
    ReadsGrow(child, looks, k);
    FinishingRound(parse, limits, Supervise(parse, limits, child, looks, k - 1).session,
                   child[looks[k - 1].poll].exit, ReadBy(child, looks, k), looks[k - 1].times);
    ExitRoundReadsAll(child, looks, k);
  }

  /** Exactly when reads do not matter: of a child whose whole output and exit code amount to a delivery, a supervision
      that settles is delivered if and only if none of its reads ends inside a character or between a CR and its LF. */
  lemma DeliveredIffCleanReads(parse: Parser, limits: Limits, child: seq<Child>, looks: seq<Look>)
    requires PollBeforeRead(child, looks) && Settled(Supervise(parse, limits, child, looks, |looks|))
    requires FinalVerdict(parse, child[|child| - 1].output, child[|child| - 1].exit).Finished?
    ensures Supervise(parse, limits, child, looks, |looks|).Finished? <==>
      CleanReads(child, looks, |looks|, child[|child| - 1].output)
  {
    var whole := child[|child| - 1].output;
    if CleanReads(child, looks, |looks|, whole) {
      SettledIsFinal(parse, limits, child, looks);
    }
    if Supervise(parse, limits, child, looks, |looks|).Finished? {
      var k := FinishedReads(parse, limits, child, looks);
      UnbrokenIsClean(parse, limits, child, looks, k);
      forall i | 0 <= i <= |looks|
        ensures |ReadBy(child, looks, i)| <= |whole| && CleanCut(whole, |ReadBy(child, looks, i)|)
      {
        ReadsAreOfWhole(child, looks, i);
        if i > k { ReadsGrowTo(child, looks, k, i); }
      }
    }
  }

  /** A supervision that looks once while the child runs and once after its exit, with time left. */
  function Halfway(output: Bytes, i: nat): seq<Child>
    requires i <= |output|
  {
    [Child(output[..i], None), Child(output, Some(0))]
  }

  const TWO_LOOKS: seq<Look> := [Look(0, 0, Times(0.0, 0.0)), Look(1, 1, Times(0.0, 0.0))]
  const ONE_LOOK: seq<Look> := [Look(1, 1, Times(0.0, 0.0))]

  lemma HalfwaySettles(parse: Parser, limits: Limits, output: Bytes, i: nat)
    requires i <= |output| <= OUTPUT_BOUND && limits.seconds > 0.0 && limits.readySeconds > 0.0
    ensures PollBeforeRead(Halfway(output, i), TWO_LOOKS) && PollBeforeRead(Halfway(output, i), ONE_LOOK)
    ensures Settled(Supervise(parse, limits, Halfway(output, i), TWO_LOOKS, 2))
    ensures Settled(Supervise(parse, limits, Halfway(output, i), ONE_LOOK, 1))
    ensures ReadBy(Halfway(output, i), TWO_LOOKS, 1) == output[..i]
    ensures ReadBy(Halfway(output, i), TWO_LOOKS, 2) == ReadBy(Halfway(output, i), ONE_LOOK, 1) == output
  {
    var child := Halfway(output, i);
    assert ChildStep(child[0], child[1]);
    assert Supervise(parse, limits, child, TWO_LOOKS, 0) == Going(Session(FRESH, "", 0));
    assert Supervise(parse, limits, child, ONE_LOOK, 0) == Going(Session(FRESH, "", 0));
    LookEnds(parse, limits, Session(FRESH, "", 0), None, output[..i]);
    LookEnds(parse, limits, Session(FRESH, "", 0), Some(0), output);
    var first := Supervise(parse, limits, child, TWO_LOOKS, 1);
    if first.Going? { LookEnds(parse, limits, first.session, Some(0), output); }
  }

  lemma LookEnds(parse: Parser, limits: Limits, s: Session, code: Option<int>, output: Bytes)
    requires s.offset <= |output| <= OUTPUT_BOUND && limits.seconds > 0.0 && limits.readySeconds > 0.0
    ensures var v := Round(parse, limits, s, code, output, Times(0.0, 0.0)); Settled(v) || (code.None? && v.Going?)
  {
    var read := TextOf(output[s.offset..]);
    if read.Some? { TroubleIsOfLine(parse, s.m, Lines(s.buffer + read.value), 0.0, limits.readySeconds); }
  }

  /** The same output and the same exit code: read once after the exit they are a delivery, but with one more read
      that ends inside a character, or between a CR and its LF, they are a failure. */
  lemma CutReadFails(parse: Parser, limits: Limits, output: Bytes, i: nat)
    requires FinalVerdict(parse, output, Some(0)).Finished? && i <= |output| <= OUTPUT_BOUND && !CleanCut(output, i)
    requires limits.seconds > 0.0 && limits.readySeconds > 0.0
    ensures PollBeforeRead(Halfway(output, i), TWO_LOOKS) && PollBeforeRead(Halfway(output, i), ONE_LOOK)
    ensures Supervise(parse, limits, Halfway(output, i), ONE_LOOK, 1).Finished?
    ensures Supervise(parse, limits, Halfway(output, i), TWO_LOOKS, 2).Broken?
  {
    var child := Halfway(output, i);
    HalfwaySettles(parse, limits, output, i);
    DeliveredIffCleanReads(parse, limits, child, TWO_LOOKS);
    DeliveredIffCleanReads(parse, limits, child, ONE_LOOK);
    assert |ReadBy(child, TWO_LOOKS, 1)| == i;
    StartIsClean(output);
    assert ReadBy(child, ONE_LOOK, 0) == [];
  }

  lemma StartIsClean(output: Bytes)
    requires TextOf(output).Some?
    ensures CleanCut(output, 0)
  {
    assert output[..0] == [];
    BoundaryIff(output, 0);
  }

  /** Two lines: p, ended by CR LF, and an e with an acute accent, ended by LF. */
  const EXAMPLE: Bytes := [112, 13, 10, 0xC3, 0xA9, 10]
  const ACCENTED: string := [0xE9 as char]

  /** Takes the first for the publication and the second for the final word. */
  function ParseExample(line: string): Option<Record> {
    if line == "p" then Some(Record(ContextPublished, true, ContextPublish, false, false, false))
    else if line == ACCENTED then Some(Record(NoEvent, false, OtherStage, true, false, true))
    else None
  }

  lemma ExampleText()
    ensures TextOf(EXAMPLE) == Some("p\n" + (ACCENTED + "\n"))
  {
    var b := EXAMPLE;
    assert b[1..] == [13, 10, 0xC3, 0xA9, 10] && b[1..][1..] == [10, 0xC3, 0xA9, 10];
    assert b[1..][1..][1..] == [0xC3, 0xA9, 10] && b[1..][1..][1..][2..] == [10];
    LineFeedText();
    var d := Decode([10]).value;
    assert First([0xC3, 0xA9, 10]) == Some((0xE9 as char, 2));
    assert Decode([0xC3, 0xA9, 10]) == Some(ACCENTED + d);
    assert Decode([10, 0xC3, 0xA9, 10]) == Some("\n" + (ACCENTED + d));
    assert Decode([13, 10, 0xC3, 0xA9, 10]) == Some("\r" + ("\n" + (ACCENTED + d)));
    assert First(b) == Some(('p', 1));
    assert Decode(b) == Some("p" + ("\r" + ("\n" + (ACCENTED + d))));
    ExampleNewlines(d);
  }

  lemma ExampleNewlines(d: string)
    requires Newlines(d) == "\n"
    ensures Newlines("p" + ("\r" + ("\n" + (ACCENTED + d)))) == "p\n" + (ACCENTED + "\n")
  {
    var s := "\r" + ("\n" + (ACCENTED + d));
    assert s[2..] == ACCENTED + d && (ACCENTED + d)[1..] == d && (ACCENTED + d)[..1] == ACCENTED;
    assert Newlines(ACCENTED + d) == ACCENTED + "\n";
    assert Newlines(s) == "\n" + (ACCENTED + "\n");
    assert ("p" + s)[1..] == s && ("p" + s)[..1] == "p";
    assert Newlines("p" + s) == "p" + ("\n" + (ACCENTED + "\n"));
    assert "p" + ("\n" + (ACCENTED + "\n")) == "p\n" + (ACCENTED + "\n");
  }

  lemma ExampleLines()
    ensures Lines("p\n" + (ACCENTED + "\n")) == ["p", ACCENTED] && Tail("p\n" + (ACCENTED + "\n")) == ""
  {
    CutLine("p");
    CutLine(ACCENTED);
    CutAppend("p" + "\n", ACCENTED + "\n");
    assert "p" + "\n" == "p\n";
    assert "" + (ACCENTED + "\n") == ACCENTED + "\n";
    assert Lines(ACCENTED + "\n") == [ACCENTED];
    assert Tail(ACCENTED + "\n") == "";
  }

  /** A run of each kind: this output, written by a child that exits with code zero, is delivered when it is read once;
      one more read that ends between the CR and its LF, or inside the accented letter, makes it a failure. */
  lemma CutReadHappens(limits: Limits)
    requires limits.seconds > 0.0 && limits.readySeconds > 0.0
    ensures Ordered(Halfway(EXAMPLE, 2), ONE_LOOK) && Ordered(Halfway(EXAMPLE, 2), TWO_LOOKS)
    ensures Ordered(Halfway(EXAMPLE, 4), TWO_LOOKS)
    ensures Supervise(ParseExample, limits, Halfway(EXAMPLE, 2), ONE_LOOK, 1).Finished?
    ensures Supervise(ParseExample, limits, Halfway(EXAMPLE, 2), TWO_LOOKS, 2).Broken?
    ensures Supervise(ParseExample, limits, Halfway(EXAMPLE, 4), TWO_LOOKS, 2).Broken?
  {
    ExampleDelivers();
    hide Supervise, FinalVerdict, Ordered;
    CutReadFails(ParseExample, limits, EXAMPLE, 2);
    CutReadFails(ParseExample, limits, EXAMPLE, 4);
  }

  lemma ExampleDelivers()
    ensures FinalVerdict(ParseExample, EXAMPLE, Some(0)).Finished?
  {
    ExampleText();
    ExampleLines();
    hide TextOf, Lines, Tail, Decode, Newlines;
    var lines: seq<string> := ["p", ACCENTED];
    var r0, r1 := ParseExample("p").value, ParseExample(ACCENTED).value;
    var m := Handle(FRESH, r0, 0.0, 0.0).0;
    assert lines[1..] == [ACCENTED] && [ACCENTED][1..] == [];
    assert HandleLines(ParseExample, m, [ACCENTED], 0.0, 0.0)
        == HandleLines(ParseExample, Handle(m, r1, 0.0, 0.0).0, [], 0.0, 0.0);
    assert HandleLines(ParseExample, FRESH, lines, 0.0, 0.0) == (Handle(m, r1, 0.0, 0.0).0, None);
  }

  // ---------------------------------------------------------------- a delivered verdict

  /** A line the parser treats as the attester's final word. */
  predicate IsTerminal(parse: Parser, line: string) {
    parse(line).Some? && (parse(line).value.event.NoEvent? || parse(line).value.event.OtherEvent?)
  }

  predicate IsPublication(parse: Parser, line: string) {
    && parse(line).Some? && parse(line).value.event.ContextPublished?
    && parse(line).value.progress && parse(line).value.stage == ContextPublish
  }

  function Terminals(parse: Parser, lines: seq<string>): nat {
    if lines == [] then 0 else (if IsTerminal(parse, lines[0]) then 1 else 0) + Terminals(parse, lines[1..])
  }

  function Held(m: Machine): nat { if m.terminal.Some? then 1 else 0 }

  /** A record that the supervisor accepts where it is not a second terminal one: progress carries its marker and comes
      from the right stage, and a terminal record says that the context was delivered and nothing failed. */
  predicate Acceptable(r: Record) {
    && (!r.event.NoEvent? ==> r.progress)
    && (r.event.AttesterReady? ==> r.stage == ProviderRead)
    && (r.event.ProviderObserved? ==> r.stage == ProviderValidation)
    && (r.event.PublicationStarted? || r.event.ContextPublished? ==> r.stage == ContextPublish)
    && (r.event.NoEvent? || r.event.OtherEvent? ==> r.delivered && !r.failed)
  }

  predicate Sane(parse: Parser, line: string) { parse(line).Some? && Acceptable(parse(line).value) }

  /** What one accepted record does to the flags. */
  lemma AcceptedRecord(parse: Parser, m: Machine, line: string, now: real, ready: real)
    requires parse(line).Some? && Handle(m, parse(line).value, now, ready).1.None?
    ensures var n := Handle(m, parse(line).value, now, ready).0;
      && Sane(parse, line)
      && Held(n) == Held(m) + (if IsTerminal(parse, line) then 1 else 0)
      && (n.published <==> m.published || IsPublication(parse, line))
      && n.terminal == if IsTerminal(parse, line) then parse(line) else m.terminal
  {
  }

  /** What the records of an accepted text add up to. */
  lemma {:induction false} AcceptedLines(parse: Parser, m: Machine, lines: seq<string>, now: real, ready: real)
    requires HandleLines(parse, m, lines, now, ready).1.None?
    ensures var end := HandleLines(parse, m, lines, now, ready).0;
      && (forall i :: 0 <= i < |lines| ==> Sane(parse, lines[i]))
      && Held(m) + Terminals(parse, lines) == Held(end)
    decreases |lines|
  {
    if lines != [] {
      AcceptedRecord(parse, m, lines[0], now, ready);
      AcceptedLines(parse, Handle(m, parse(lines[0]).value, now, ready).0, lines[1..], now, ready);
    }
  }

  lemma {:induction false} AcceptedPublication(parse: Parser, m: Machine, lines: seq<string>, now: real, ready: real)
    requires HandleLines(parse, m, lines, now, ready).1.None?
    ensures HandleLines(parse, m, lines, now, ready).0.published <==>
      m.published || exists i :: 0 <= i < |lines| && IsPublication(parse, lines[i])
    decreases |lines|
  {
    if lines != [] {
      var rest := lines[1..];
      AcceptedRecord(parse, m, lines[0], now, ready);
      AcceptedPublication(parse, Handle(m, parse(lines[0]).value, now, ready).0, rest, now, ready);
      assert forall i :: 0 <= i < |rest| ==> rest[i] == lines[i + 1];
      if exists i :: 0 <= i < |lines| && IsPublication(parse, lines[i]) {
        var i :| 0 <= i < |lines| && IsPublication(parse, lines[i]);
        if i > 0 { assert IsPublication(parse, rest[i - 1]); }
      }
    }
  }

  lemma {:induction false} AcceptedTerminal(parse: Parser, m: Machine, lines: seq<string>, now: real, ready: real)
    requires HandleLines(parse, m, lines, now, ready).1.None?
    ensures var end := HandleLines(parse, m, lines, now, ready).0;
      || end.terminal == m.terminal
      || exists i :: 0 <= i < |lines| && IsTerminal(parse, lines[i]) && parse(lines[i]) == end.terminal
    decreases |lines|
  {
    if lines != [] {
      var rest := lines[1..];
      AcceptedRecord(parse, m, lines[0], now, ready);
      var n := Handle(m, parse(lines[0]).value, now, ready).0;
      AcceptedTerminal(parse, n, rest, now, ready);
      var end := HandleLines(parse, m, lines, now, ready).0;
      if end.terminal != n.terminal {
        var i :| 0 <= i < |rest| && IsTerminal(parse, rest[i]) && parse(rest[i]) == end.terminal;
        assert rest[i] == lines[i + 1];
      }
    }
  }

  /** A text that amounts to a delivery. */
  ghost predicate DeliveryText(parse: Parser, text: string) {
    var lines := Lines(text);
    && text == Joined(lines) && Whole(parse, text).1.None?
    && (forall i :: 0 <= i < |lines| ==> Sane(parse, lines[i]))
    && Terminals(parse, lines) == 1
    && (exists i :: 0 <= i < |lines| && IsTerminal(parse, lines[i])
                    && parse(lines[i]).value.delivered && parse(lines[i]).value.jobOk)
    && (exists i :: 0 <= i < |lines| && IsPublication(parse, lines[i]))
  }

  /** The whole output of the child, read to its end, is well-formed and a delivery. */
  ghost predicate CompleteDelivery(parse: Parser, output: Bytes) {
    TextOf(output).Some? && DeliveryText(parse, TextOf(output).value)
  }

  /** When the supervision ends delivered, however its reads cut the output, the child has exited with code zero and
      its entire output, not just what happened to be read, decodes to complete accepted lines with exactly one
      terminal record; that record says the context was delivered, and some record published it. */
  lemma DeliveredIsSound(parse: Parser, limits: Limits, child: seq<Child>, looks: seq<Look>)
    requires PollBeforeRead(child, looks) && Supervise(parse, limits, child, looks, |looks|).Finished?
    ensures child[|child| - 1].exit == Some(0)
    ensures CompleteDelivery(parse, child[|child| - 1].output)
  {
    var k := FinishedReads(parse, limits, child, looks);
    UnbrokenIsClean(parse, limits, child, looks, k);
    RoundsFit(parse, limits, child, looks, k);
    ReadsGrow(child, looks, k);
    FinishingRound(parse, limits, Supervise(parse, limits, child, looks, k - 1).session,
                   child[looks[k - 1].poll].exit, ReadBy(child, looks, k), looks[k - 1].times);
    FinishedIsComplete(parse, Supervise(parse, limits, child, looks, k).m, Seen(child, looks, k).value);
  }

  lemma FinishingRound(parse: Parser, limits: Limits, s: Session, code: Option<int>, output: Bytes, t: Times)
    requires s.offset <= |output| && Round(parse, limits, s, code, output, t).Finished?
    ensures code == Some(0)
    ensures var m := Round(parse, limits, s, code, output, t).m;
      m.published && m.terminal.Some? && m.terminal.value.delivered && m.terminal.value.jobOk
  {
  }

  lemma FinishedIsComplete(parse: Parser, m: Machine, text: string)
    requires VerdictFits(parse, Finished(m), text)
    requires m.published && m.terminal.Some? && m.terminal.value.delivered && m.terminal.value.jobOk
    ensures DeliveryText(parse, text)
  {
    var lines := Lines(text);
    AcceptedLines(parse, FRESH, lines, 0.0, 0.0);
    AcceptedPublication(parse, FRESH, lines, 0.0, 0.0);
    AcceptedTerminal(parse, FRESH, lines, 0.0, 0.0);
    LinesAndTail(text);
    var i :| 0 <= i < |lines| && IsTerminal(parse, lines[i]) && parse(lines[i]) == m.terminal;
    assert parse(lines[i]).value.delivered && parse(lines[i]).value.jobOk;
  }

  lemma {:induction false} TwoTerminals(parse: Parser, lines: seq<string>, i: nat, j: nat)
    requires i <= j < |lines| && IsTerminal(parse, lines[i]) && IsTerminal(parse, lines[j])
    ensures Terminals(parse, lines) >= if i < j then 2 else 1
    decreases |lines|
  {
    if i > 0 {
      TwoTerminals(parse, lines[1..], i - 1, j - 1);
    } else if j > 0 {
      TwoTerminals(parse, lines[1..], j - 1, j - 1);
    }
  }

  /** Exactly when the whole output and the exit code amount to a delivery. */
  lemma DeliveredIff(parse: Parser, output: Bytes, code: Option<int>)
    ensures FinalVerdict(parse, output, code).Finished? <==> CompleteDelivery(parse, output) && code == Some(0)
  {
    if TextOf(output).Some? {
      var text := TextOf(output).value;
      var m := Whole(parse, text).0;
      if FinalVerdict(parse, output, code).Finished? { FinishedIsComplete(parse, m.(state := Delivered), text); }
      if DeliveryText(parse, text) && code == Some(0) { DeliveryIsAccepted(parse, text); }
    }
  }

  lemma DeliveryIsAccepted(parse: Parser, text: string)
    requires DeliveryText(parse, text)
    ensures Accepts(Whole(parse, text).0, Tail(text), 0)
  {
    var lines, m := Lines(text), Whole(parse, text).0;
    LinesAndTail(text);
    assert |Joined(lines)| == |text|;
    AcceptedLines(parse, FRESH, lines, 0.0, 0.0);
    AcceptedPublication(parse, FRESH, lines, 0.0, 0.0);
    AcceptedTerminal(parse, FRESH, lines, 0.0, 0.0);
    var i :| 0 <= i < |lines| && IsTerminal(parse, lines[i])
      && parse(lines[i]).value.delivered && parse(lines[i]).value.jobOk;
    var j :| 0 <= j < |lines| && IsTerminal(parse, lines[j]) && parse(lines[j]) == m.terminal;
    if i < j { TwoTerminals(parse, lines, i, j); } else if j < i { TwoTerminals(parse, lines, j, i); }
  }

  lemma {:induction false} CutLine(line: string)
    requires '\n' !in line
    ensures Cut(line + "\n") == Some((line, ""))
    decreases |line|
  {
    var s := line + "\n";
    if line == "" {
      assert s[1..] == "";
    } else {
      assert s[1..] == line[1..] + "\n";
      CutLine(line[1..]);
      assert s[..1] + line[1..] == line;
    }
  }

  /** The order of poll and read matters. Were the file read before the poll, any round that accepts the
      text it has read would call the delivery complete, although the child went on to write a malformed
      line before it exited with code zero. */
  lemma ReadBeforePollIsUnsound(parse: Parser, limits: Limits, text: Bytes, bad: Bytes, t: Times)
    requires Round(parse, limits, Session(FRESH, "", 0), Some(0), text, t).Finished?
    requires TextOf(bad).Some? && TextOf(bad).value != "" && '\n' !in TextOf(bad).value
    requires parse(TextOf(bad).value).None?
    ensures var written := [Child(text, None), Child(text + (bad + [LF]), Some(0))];
      && Ordered(written, [Look(1, 0, t)])
      && Supervise(parse, limits, written, [Look(1, 0, t)], 1).Finished?
      && !CompleteDelivery(parse, text + (bad + [LF]))
  {
    ReadBeforePollFinishes(parse, limits, text, bad + [LF], t);
    FirstRoundFinishes(parse, limits, text, t);
    hide Supervise;
    var line, seen := TextOf(bad).value, TextOf(text).value;
    MoreText(text, bad);
    hide TextOf, Round, DeliveryText, Lines, Tail, Ordered;
    BadLineAfter(seen, line);
    MalformedLineIsNoDelivery(parse, seen + (line + "\n"), |Lines(seen)|);
  }

  lemma FirstRoundFinishes(parse: Parser, limits: Limits, text: Bytes, t: Times)
    requires Round(parse, limits, Session(FRESH, "", 0), Some(0), text, t).Finished?
    ensures TextOf(text).Some? && Tail(TextOf(text).value) == ""
  {
    assert text[0..] == text;
    if TextOf(text).Some? { assert "" + TextOf(text).value == TextOf(text).value; }
  }

  lemma BadLineAfter(seen: string, line: string)
    requires Tail(seen) == "" && '\n' !in line
    ensures |Lines(seen)| < |Lines(seen + (line + "\n"))| && Lines(seen + (line + "\n"))[|Lines(seen)|] == line
  {
    CutLine(line);
    SplitAppend(seen, line + "\n");
    assert "" + (line + "\n") == line + "\n";
  }

  lemma MoreText(text: Bytes, bad: Bytes)
    requires TextOf(text).Some? && TextOf(bad).Some? && TextOf(bad).value != "" && '\n' !in TextOf(bad).value
    ensures TextOf(text + (bad + [LF])) == Some(TextOf(text).value + (TextOf(bad).value + "\n"))
  {
    LineFeedText();
    hide TextOf, PartsLineEnd;
    TwoReads(bad, [LF]);
    TwoReads(text, bad + [LF]);
  }

  lemma LineFeedText()
    ensures TextOf([LF]) == Some("\n")
  {
    var b := [LF];
    assert First(b) == Some(('\n', 1));
    assert b[1..] == [];
    assert Decode(b) == Some(['\n'] + "");
    assert ['\n'] + "" == "\n";
    assert "\n"[1..] == "" && Newlines("\n") == "\n";
  }

  lemma ReadBeforePollFinishes(parse: Parser, limits: Limits, text: Bytes, more: Bytes, t: Times)
    requires Round(parse, limits, Session(FRESH, "", 0), Some(0), text, t).Finished?
    ensures var written := [Child(text, None), Child(text + more, Some(0))];
      && Ordered(written, [Look(1, 0, t)])
      && Supervise(parse, limits, written, [Look(1, 0, t)], 1).Finished?
  {
    var written := [Child(text, None), Child(text + more, Some(0))];
    var looks := [Look(1, 0, t)];
    assert Ordered(written, looks);
    assert Supervise(parse, limits, written, looks, 0) == Going(Session(FRESH, "", 0));
    assert ReadBy(written, looks, 1) == text;
  }

  lemma MalformedLineIsNoDelivery(parse: Parser, text: string, i: nat)
    requires i < |Lines(text)| && parse(Lines(text)[i]).None?
    ensures !DeliveryText(parse, text)
  {
  }

  /** The code looks for terminal fields after the events it knows, so a progress record of any other event
      that carries them is the attester's final word: it ends a delivery as a bare terminal record does. */
  lemma UnknownEventIsTerminal(m: Machine, r: Record, now: real, ready: real)
    requires r.event.OtherEvent? && r.progress
    ensures Handle(m, r, now, ready).1 == Handle(m, r.(event := NoEvent), now, ready).1
    ensures m.terminal.None? && r.delivered && !r.failed ==>
      Handle(m, r, now, ready) == (m.(terminal := Some(r)), None)
  {
  }

  // ---------------------------------------------------------------- what the records say

  lemma AcceptedIffStep(parse: Parser, m: Machine, line: string, now: real, ready: real)
    requires parse(line).Some?
    ensures Handle(m, parse(line).value, now, ready).1.None? <==>
      Sane(parse, line) && (IsTerminal(parse, line) ==> m.terminal.None?)
    ensures Handle(m, parse(line).value, now, ready).1.None? ==>
      Held(Handle(m, parse(line).value, now, ready).0) == Held(m) + (if IsTerminal(parse, line) then 1 else 0)
  {
  }

  /** Exactly which texts pass the record loop: every line parses to an acceptable record, and at most one of them is
      terminal. */
  lemma {:induction false} AcceptedIff(parse: Parser, m: Machine, lines: seq<string>, now: real, ready: real)
    ensures HandleLines(parse, m, lines, now, ready).1.None? <==>
      && (forall i :: 0 <= i < |lines| ==> Sane(parse, lines[i]))
      && (Terminals(parse, lines) == 0 || Held(m) + Terminals(parse, lines) <= 1)
    decreases |lines|
  {
    if lines != [] {
      assert forall i :: 0 < i < |lines| ==> lines[i] == lines[1..][i - 1];
      if parse(lines[0]).Some? {
        AcceptedIffStep(parse, m, lines[0], now, ready);
        var (n, trouble) := Handle(m, parse(lines[0]).value, now, ready);
        if trouble.None? {
          AcceptedIff(parse, n, lines[1..], now, ready);
        }
      } else {
        assert !Sane(parse, lines[0]);
      }
    }
  }

  /** The records that close admission: waiting at the intent, an observation of the provider, a publication. */
  predicate Observes(r: Record) {
    r.event.ProviderObserved? || r.event.PublicationStarted? || r.event.ContextPublished?
  }

  predicate Closes(r: Record) { (r.event.AttesterWaiting? && r.stage == IntentRead) || Observes(r) }

  /** The records that set the state. */
  predicate SetsState(r: Record) { r.event.AttesterWaiting? || Observes(r) }

  predicate WaitsAtProvider(r: Record) { r.event.AttesterWaiting? && r.stage == ProviderRead }

  /** Record `i` is a waiting at the provider, after an announcement, before anything has closed admission. */
  predicate Invites(rs: seq<Record>, i: nat) {
    && i < |rs| && WaitsAtProvider(rs[i])
    && (exists j :: 0 <= j < i && rs[j].event.AttesterReady?)
    && (forall j :: 0 <= j < i ==> !Closes(rs[j]))
  }

  /** What the records say of admission. */
  ghost predicate AdmissionSays(m: Machine, rs: seq<Record>) {
    && (m.readyEvent <==> exists j :: 0 <= j < |rs| && rs[j].event.AttesterReady?)
    && (m.closed <==> exists j :: 0 <= j < |rs| && Closes(rs[j]))
    && (m.readyAt.Some? <==> exists i: nat :: Invites(rs, i)) && (m.expires.Some? <==> m.readyAt.Some?)
    && (m.state.Ready? <==>
          exists i: nat :: Invites(rs, i) && forall j :: i < j < |rs| ==> !SetsState(rs[j]))
  }

  lemma InvitesKept(rs: seq<Record>, r: Record, i: nat)
    ensures i < |rs| ==> (Invites(rs + [r], i) <==> Invites(rs, i))
  {
    assert forall j :: 0 <= j < |rs| ==> (rs + [r])[j] == rs[j];
  }

  lemma FlagsStep(m: Machine, rs: seq<Record>, r: Record, now: real, ready: real)
    requires AdmissionSays(m, rs) && Handle(m, r, now, ready).1.None?
    ensures var n, more := Handle(m, r, now, ready).0, rs + [r];
      && (n.readyEvent <==> exists j :: 0 <= j < |more| && more[j].event.AttesterReady?)
      && (n.closed <==> exists j :: 0 <= j < |more| && Closes(more[j]))
      && (Invites(more, |rs|) <==> WaitsAtProvider(r) && m.readyEvent && !m.closed)
  {
    var more := rs + [r];
    assert more[|rs|] == r && forall j :: 0 <= j < |rs| ==> more[j] == rs[j];
  }

  lemma HandleSets(m: Machine, r: Record, now: real, ready: real)
    requires Handle(m, r, now, ready).1.None?
    ensures var n := Handle(m, r, now, ready).0; var invites := WaitsAtProvider(r) && m.readyEvent && !m.closed;
      && (n.state.Ready? <==> invites || (m.state.Ready? && !SetsState(r)))
      && (n.readyAt.Some? <==> m.readyAt.Some? || invites)
      && (n.expires.Some? <==> m.expires.Some? || invites)
  {
  }

  lemma AdmissionStep(m: Machine, rs: seq<Record>, r: Record, now: real, ready: real)
    requires AdmissionSays(m, rs) && Handle(m, r, now, ready).1.None?
    ensures AdmissionSays(Handle(m, r, now, ready).0, rs + [r])
  {
    var n, more := Handle(m, r, now, ready).0, rs + [r];
    FlagsStep(m, rs, r, now, ready);
    HandleSets(m, r, now, ready);
    hide Handle, Invites;
    forall i: nat | i < |rs| ensures Invites(more, i) <==> Invites(rs, i) { InvitesKept(rs, r, i); }
    ReadyStep(rs, r);
    InvitedStep(rs, r);
  }

  ghost predicate InvitedLast(rs: seq<Record>) {
    exists i: nat :: Invites(rs, i) && forall j :: i < j < |rs| ==> !SetsState(rs[j])
  }

  lemma NothingAfterLast(rs: seq<Record>, i: nat)
    requires i + 1 >= |rs| && Invites(rs, i)
    ensures InvitedLast(rs)
  {
  }

  lemma ReadyStep(rs: seq<Record>, r: Record)
    ensures InvitedLast(rs + [r]) <==> Invites(rs + [r], |rs|) || (InvitedLast(rs) && !SetsState(r))
  {
    var more := rs + [r];
    assert more[|rs|] == r && forall j :: 0 <= j < |rs| ==> more[j] == rs[j];
    if InvitedLast(more) {
      var i: nat :| Invites(more, i) && forall j :: i < j < |more| ==> !SetsState(more[j]);
      if i < |rs| {
        InvitesKept(rs, r, i);
        assert !SetsState(more[|rs|]);
        assert forall j :: i < j < |rs| ==> rs[j] == more[j];
      }
    }
    if InvitedLast(rs) && !SetsState(r) {
      var i: nat :| Invites(rs, i) && forall j :: i < j < |rs| ==> !SetsState(rs[j]);
      InvitesKept(rs, r, i);
      assert Invites(more, i) && forall j :: i < j < |more| ==> !SetsState(more[j]);
    }
    if Invites(more, |rs|) { NothingAfterLast(more, |rs|); }
  }

  lemma InvitedStep(rs: seq<Record>, r: Record)
    ensures (exists i: nat :: Invites(rs + [r], i)) <==> Invites(rs + [r], |rs|) || exists i: nat :: Invites(rs, i)
  {
    if i: nat :| Invites(rs + [r], i) && i < |rs| { InvitesKept(rs, r, i); }
    if i: nat :| Invites(rs, i) { InvitesKept(rs, r, i); }
  }

  /** The records of lines that all parse. */
  function Parsed(parse: Parser, lines: seq<string>): (rs: seq<Record>)
    requires forall i :: 0 <= i < |lines| ==> parse(lines[i]).Some?
    ensures |rs| == |lines| && forall i :: 0 <= i < |lines| ==> rs[i] == parse(lines[i]).value
  {
    seq(|lines|, i requires 0 <= i < |lines| => parse(lines[i]).value)
  }

  lemma {:induction false} AdmissionOfLines(parse: Parser, lines: seq<string>, now: real, ready: real)
    requires HandleLines(parse, FRESH, lines, now, ready).1.None?
    ensures forall i :: 0 <= i < |lines| ==> parse(lines[i]).Some?
    ensures AdmissionSays(HandleLines(parse, FRESH, lines, now, ready).0, Parsed(parse, lines))
    decreases |lines|
  {
    AcceptedIff(parse, FRESH, lines, now, ready);
    if lines != [] {
      var n := |lines| - 1;
      var before, last := lines[..n], lines[n];
      assert before + [last] == lines && [last][1..] == [];
      LinesAppend(parse, FRESH, before, [last], now, ready);
      AdmissionOfLines(parse, before, now, ready);
      var m := HandleLines(parse, FRESH, before, now, ready).0;
      assert HandleLines(parse, m, [last], now, ready).0 == Handle(m, parse(last).value, now, ready).0;
      AdmissionStep(m, Parsed(parse, before), parse(last).value, now, ready);
      assert Parsed(parse, lines) == Parsed(parse, before) + [parse(last).value];
    }
  }

  /** While a supervision goes on, its status says of admission what the records read so far say, and nothing else: it
      is closed exactly when one of them waits at the intent, observes the provider or publishes; and it is ready
      exactly when the last record that sets the state is a waiting at the provider, after an announcement of the
      attester and before any record that closes. */
  lemma StatusSaysTheRecords(parse: Parser, limits: Limits, child: seq<Child>, looks: seq<Look>)
    requires Ordered(child, looks) && Supervise(parse, limits, child, looks, |looks|).Going?
    ensures TextOf(ReadBy(child, looks, |looks|)).Some?
    ensures var lines := Lines(TextOf(ReadBy(child, looks, |looks|)).value);
      && (forall i :: 0 <= i < |lines| ==> parse(lines[i]).Some?)
      && AdmissionSays(StatusOf(Supervise(parse, limits, child, looks, |looks|)), Parsed(parse, lines))
  {
    GoingFits(parse, limits, child, looks);
    AdmissionOfLines(parse, Lines(TextOf(ReadBy(child, looks, |looks|)).value), 0.0, 0.0);
  }

  // ---------------------------------------------------------------- admission

  predicate AdmissionOk(m: Machine) {
    && (m.state.Ready? ==> !m.closed && m.expires.Some? && m.readyAt.Some?)
    && (m.expires.Some? ==> m.readyAt.Some?)
  }

  /** Admission once closed stays closed, and its expiry once set is never moved. */
  predicate Later(a: Machine, b: Machine) {
    && (a.closed ==> b.closed) && (a.expires.Some? ==> b.expires == a.expires)
    && (a.readyAt.Some? ==> b.readyAt == a.readyAt)
  }

  predicate WindowIs(m: Machine, ready: real) {
    m.expires.Some? ==> m.readyAt.Some? && m.expires.value == m.readyAt.value + ready
  }

  lemma {:induction false} LinesKeepAdmission(parse: Parser, m: Machine, lines: seq<string>, now: real, ready: real)
    requires AdmissionOk(m) && WindowIs(m, ready)
    ensures var end := HandleLines(parse, m, lines, now, ready).0;
      AdmissionOk(end) && Later(m, end) && WindowIs(end, ready)
    decreases |lines|
  {
    if lines != [] && parse(lines[0]).Some? {
      var (n, trouble) := Handle(m, parse(lines[0]).value, now, ready);
      assert AdmissionOk(n) && Later(m, n) && WindowIs(n, ready);
      if trouble.None? { LinesKeepAdmission(parse, n, lines[1..], now, ready); }
    }
  }

  /** Equal but for the state. */
  predicate SameButState(a: Machine, b: Machine) { a == b.(state := a.state) }

  predicate StatusFrom(status: Machine, before: Machine, m: Machine) {
    status == m || (!status.state.Ready? && (SameButState(status, m) || SameButState(status, before)))
  }

  /** The status a round leaves is that of its lines, but for the state of an ended supervision. */
  lemma RoundStatus(parse: Parser, limits: Limits, s: Session, code: Option<int>, output: Bytes, t: Times,
                    m: Machine, trouble: Option<Trouble>)
    requires s.offset <= |output| && TextOf(output[s.offset..]).Some?
    requires HandleLines(parse, s.m, Lines(s.buffer + TextOf(output[s.offset..]).value), t.records,
                         limits.readySeconds) == (m, trouble)
    ensures StatusFrom(StatusOf(Round(parse, limits, s, code, output, t)), s.m, m)
  {
  }

  lemma RoundKeepsAdmission(parse: Parser, limits: Limits, s: Session, code: Option<int>, output: Bytes, t: Times)
    requires s.offset <= |output| && AdmissionOk(s.m) && WindowIs(s.m, limits.readySeconds)
    ensures var status := StatusOf(Round(parse, limits, s, code, output, t));
      AdmissionOk(status) && Later(s.m, status) && WindowIs(status, limits.readySeconds)
  {
    var read := TextOf(output[s.offset..]);
    if read.Some? {
      var lines := Lines(s.buffer + read.value);
      var (m, trouble) := HandleLines(parse, s.m, lines, t.records, limits.readySeconds);
      RoundStatus(parse, limits, s, code, output, t, m, trouble);
      LinesKeepAdmission(parse, s.m, lines, t.records, limits.readySeconds);
    }
  }

  predicate SoundStatus(limits: Limits, m: Machine) { AdmissionOk(m) && WindowIs(m, limits.readySeconds) }

  /** One round keeps a status sound and moves admission only one way. */
  lemma StatusStep(parse: Parser, limits: Limits, child: seq<Child>, looks: seq<Look>, n: nat)
    requires Ordered(child, looks) && 0 < n <= |looks|
    requires SoundStatus(limits, StatusOf(Supervise(parse, limits, child, looks, n - 1)))
    ensures SoundStatus(limits, StatusOf(Supervise(parse, limits, child, looks, n)))
    ensures Later(StatusOf(Supervise(parse, limits, child, looks, n - 1)),
      StatusOf(Supervise(parse, limits, child, looks, n)))
  {
    var v := Supervise(parse, limits, child, looks, n - 1);
    if v.Going? {
      ReadsGrow(child, looks, n);
      RoundKeepsAdmission(parse, limits, v.session, child[looks[n - 1].poll].exit, ReadBy(child, looks, n),
        looks[n - 1].times);
    }
  }

  lemma LaterChain(a: Machine, b: Machine, c: Machine)
    requires Later(a, b) && Later(b, c)
    ensures Later(a, c)
  {
  }

  /** Look `k` keeps a status sound and moves admission only one way. */
  predicate LookSound(limits: Limits, vs: seq<Verdict>, k: nat)
    requires k + 1 < |vs|
  {
    SoundStatus(limits, StatusOf(vs[k])) ==>
      SoundStatus(limits, StatusOf(vs[k + 1])) && Later(StatusOf(vs[k]), StatusOf(vs[k + 1]))
  }

  lemma {:induction false} SoundThrough(limits: Limits, vs: seq<Verdict>, n: nat)
    requires n < |vs| && SoundStatus(limits, StatusOf(vs[0])) && forall k :: 0 <= k < n ==> LookSound(limits, vs, k)
    ensures SoundStatus(limits, StatusOf(vs[n]))
  {
    if n > 0 {
      SoundThrough(limits, vs, n - 1);
      assert LookSound(limits, vs, n - 1);
    }
  }

  lemma {:induction false} LaterThrough(limits: Limits, vs: seq<Verdict>, i: nat, n: nat)
    requires i <= n < |vs| && SoundStatus(limits, StatusOf(vs[0])) && forall k :: 0 <= k < n ==>
      LookSound(limits, vs, k)
    ensures Later(StatusOf(vs[i]), StatusOf(vs[n]))
    decreases n
  {
    if i < n {
      LaterThrough(limits, vs, i, n - 1);
      SoundThrough(limits, vs, n - 1);
      assert LookSound(limits, vs, n - 1);
      LaterChain(StatusOf(vs[i]), StatusOf(vs[n - 1]), StatusOf(vs[n]));
    }
  }

  lemma LookIsSound(parse: Parser, limits: Limits, child: seq<Child>, looks: seq<Look>, vs: seq<Verdict>, k: nat)
    requires Ordered(child, looks) && k < |looks| && k + 1 < |vs|
    requires vs[k] == Supervise(parse, limits, child, looks, k)
      && vs[k + 1] == Supervise(parse, limits, child, looks, k + 1)
    ensures LookSound(limits, vs, k)
  {
    if SoundStatus(limits, StatusOf(vs[k])) { StatusStep(parse, limits, child, looks, k + 1); }
  }

  lemma VerdictsSound(parse: Parser, limits: Limits, child: seq<Child>, looks: seq<Look>, n: nat)
    requires Ordered(child, looks) && n <= |looks|
    ensures forall k :: 0 <= k < n ==> LookSound(limits, Verdicts(parse, limits, child, looks, n), k)
  {
    forall k | 0 <= k < n ensures LookSound(limits, Verdicts(parse, limits, child, looks, n), k) {
      LookIsSound(parse, limits, child, looks, Verdicts(parse, limits, child, looks, n), k);
    }
  }

  /** Every status is sound, and admission moves only one way from an earlier one to a later one. */
  lemma StatusesKeepAdmission(parse: Parser, limits: Limits, child: seq<Child>, looks: seq<Look>, i: nat, n: nat)
    requires Ordered(child, looks) && i <= n <= |looks|
    ensures SoundStatus(limits, StatusOf(Supervise(parse, limits, child, looks, n)))
    ensures Later(StatusOf(Supervise(parse, limits, child, looks, i)),
      StatusOf(Supervise(parse, limits, child, looks, n)))
  {
    VerdictsSound(parse, limits, child, looks, n);
    SoundThrough(limits, Verdicts(parse, limits, child, looks, n), n);
    LaterThrough(limits, Verdicts(parse, limits, child, looks, n), i, n);
  }

  /** `inspect` on a live, fresh and correctly bound status. */
  predicate Admits(status: Machine, now: real) {
    status.state.Ready? && !status.closed && status.expires.Some? && now <= status.expires.value
  }

  /** Over all statuses a supervision publishes: once one is closed no later one is ever admitted, at
      whatever time it is inspected; and all admissions fall in one window, set once, that ends
      `readySeconds` after the instant the attester was first seen waiting. */
  lemma ClosedForGood(parse: Parser, limits: Limits, child: seq<Child>, looks: seq<Look>, i: nat, j: nat, a: real,
                      b: real)
    requires Ordered(child, looks) && i <= j <= |looks|
    ensures var s, t := StatusOf(Supervise(parse, limits, child, looks, i)),
      StatusOf(Supervise(parse, limits, child, looks, j));
      && (s.closed ==> t.closed && !Admits(t, b))
      && (Admits(s, a) && Admits(t, b) ==>
            s.expires == t.expires && s.readyAt.Some?
            && a <= s.readyAt.value + limits.readySeconds && b <= s.readyAt.value + limits.readySeconds)
      && (s.state.Ready? ==> !s.closed)
  {
    StatusesKeepAdmission(parse, limits, child, looks, i, j);
    StatusesKeepAdmission(parse, limits, child, looks, i, i);
  }
}
