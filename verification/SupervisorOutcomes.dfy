/**
 How every round of a supervision ends, by the text that has been read and the clock alone, and when its admission
 window begins: neither the machine nor the record loop is mentioned.
 (`supervise` in scripts/transformer_confirmation_supervisor.py.)
 */
module SupervisorOutcomes {
  import opened Supervisor
  import opened SupervisorProofs
  import opened TextReader
  import opened Wrappers

  /** Every complete line is an acceptable record, and at most one of them is terminal. */
  predicate AllAcceptable(parse: Parser, text: string) {
    var lines := Lines(text);
    (forall i :: 0 <= i < |lines| ==> Sane(parse, lines[i])) && Terminals(parse, lines) <= 1
  }

  /** Some complete line is a waiting at the provider, after an announcement and before anything closed admission. */
  ghost predicate Invited(parse: Parser, text: string) {
    var lines := Lines(text);
    (forall i :: 0 <= i < |lines| ==> parse(lines[i]).Some?) && exists i: nat :: Invites(Parsed(parse, lines), i)
  }

  /** The time is up, or the attester was not ready in its own time. */
  ghost predicate Late(parse: Parser, limits: Limits, text: string, check: real) {
    check >= limits.seconds || (check >= limits.readySeconds && !Invited(parse, text))
  }

  /** How the round ends that reads `chunk` after `seen`, when `total` bytes have been read and the poll gave `exit`. */
  ghost predicate EndsAs(parse: Parser, limits: Limits, seen: string, chunk: Bytes, total: nat, exit: Option<int>,
                         check: real, v: Verdict) {
    if TextOf(chunk).None? then v.Broken? && v.why.BadText?
    else if total > 1024 * 1024 then v.Broken? && v.why.OutputBound?
    else
      var text := seen + TextOf(chunk).value;
      if !AllAcceptable(parse, text) then v.Broken? && LineTrouble(v.why)
      else if exit.Some? then
        if exit.value == 0 && DeliveryText(parse, text) then v.Finished? else v.Broken? && v.why.NotDelivered?
      else if Late(parse, limits, text, check) then v.Broken? && v.why.DeadlineExpired?
      else v.Going?
  }

  lemma AcceptableIff(parse: Parser, text: string)
    ensures AllAcceptable(parse, text) <==> Whole(parse, text).1.None?
  {
    AcceptedIff(parse, FRESH, Lines(text), 0.0, 0.0);
  }

  lemma InvitedIff(parse: Parser, text: string)
    requires AllAcceptable(parse, text)
    ensures Invited(parse, text) <==> Whole(parse, text).0.readyAt.Some?
    ensures Invited(parse, text) <==> Whole(parse, text).0.expires.Some?
  {
    AcceptableIff(parse, text);
    AdmissionOfLines(parse, Lines(text), 0.0, 0.0);
  }

  lemma DeliveryIff(parse: Parser, text: string)
    requires AllAcceptable(parse, text)
    ensures DeliveryText(parse, text) <==> Accepts(Whole(parse, text).0, Tail(text), 0)
  {
    AcceptableIff(parse, text);
    if DeliveryText(parse, text) { DeliveryIsAccepted(parse, text); }
    var m := Whole(parse, text).0;
    if Accepts(m, Tail(text), 0) { FinishedIsComplete(parse, m.(state := Delivered), text); }
  }

  lemma RoundEnds(parse: Parser, limits: Limits, s: Session, code: Option<int>, seen: string, output: Bytes, t: Times)
    requires s.offset <= |output| && VerdictFits(parse, Going(s), seen)
    ensures EndsAs(parse, limits, seen, output[s.offset..], |output|, code, t.check,
                   Round(parse, limits, s, code, output, t))
  {
    hide DeliveryText, Invited, AllAcceptable;
    var read := TextOf(output[s.offset..]);
    if read.Some? && |output| <= OUTPUT_BOUND {
      var text := seen + read.value;
      RoundIsWhole(parse, s, seen, read.value, t.records, limits.readySeconds);
      TroubleIsOfLine(parse, s.m, Lines(s.buffer + read.value), t.records, limits.readySeconds);
      AcceptableIff(parse, text);
      if AllAcceptable(parse, text) {
        InvitedIff(parse, text);
        DeliveryIff(parse, text);
      }
    }
  }

  /** Every round of every supervision ends as its text and its clock say: an undecodable read first, then too much
      output, then a line that is not acceptable, then the exit, and the deadlines only while the child runs. */
  lemma RoundOutcome(parse: Parser, limits: Limits, child: seq<Child>, looks: seq<Look>, n: nat)
    requires Ordered(child, looks) && 0 < n <= |looks| && Supervise(parse, limits, child, looks, n - 1).Going?
    ensures Seen(child, looks, n - 1).Some?
    ensures EndsAs(parse, limits, Seen(child, looks, n - 1).value, Chunk(child, looks, n), |ReadBy(child, looks, n)|,
                   child[looks[n - 1].poll].exit, looks[n - 1].times.check, Supervise(parse, limits, child, looks, n))
  {
    if n > 1 { StillGoing(parse, limits, child, looks, n); }
    RoundsFit(parse, limits, child, looks, n - 1);
    RoundTaken(parse, limits, child, looks, n);
    hide Supervise, Round, VerdictFits, EndsAs;
    RoundEnds(parse, limits, Supervise(parse, limits, child, looks, n - 1).session, child[looks[n - 1].poll].exit,
              Seen(child, looks, n - 1).value, ReadBy(child, looks, n), looks[n - 1].times);
  }

  /** Look `n` finds nothing wrong, no exit and no deadline passed. */
  ghost predicate Quiet(parse: Parser, limits: Limits, child: seq<Child>, looks: seq<Look>, n: nat)
    requires Ordered(child, looks) && 0 < n <= |looks|
  {
    && Seen(child, looks, n).Some? && |ReadBy(child, looks, n)| <= 1024 * 1024
    && AllAcceptable(parse, Seen(child, looks, n).value) && child[looks[n - 1].poll].exit.None?
    && !Late(parse, limits, Seen(child, looks, n).value, looks[n - 1].times.check)
  }

  lemma QuietIff(parse: Parser, limits: Limits, child: seq<Child>, looks: seq<Look>, n: nat)
    requires Ordered(child, looks) && 0 < n <= |looks| && Supervise(parse, limits, child, looks, n - 1).Going?
    ensures Supervise(parse, limits, child, looks, n).Going? <==> Quiet(parse, limits, child, looks, n)
  {
    hide Supervise, Late, AllAcceptable, DeliveryText;
    RoundOutcome(parse, limits, child, looks, n);
    ReadsGrow(child, looks, n);
    assert Seen(child, looks, n).Some? <==> TextOf(Chunk(child, looks, n)).Some?;
  }

  lemma EndedStays(parse: Parser, limits: Limits, child: seq<Child>, looks: seq<Look>, n: nat)
    requires Ordered(child, looks) && 0 < n <= |looks| && !Supervise(parse, limits, child, looks, n - 1).Going?
    ensures !Supervise(parse, limits, child, looks, n).Going?
  {
  }

  lemma StartGoes(parse: Parser, limits: Limits, child: seq<Child>, looks: seq<Look>)
    requires Ordered(child, looks)
    ensures Supervise(parse, limits, child, looks, 0).Going?
  {
  }

  /** A supervision goes on exactly while every look is quiet. */
  lemma {:induction false} GoingIff(parse: Parser, limits: Limits, child: seq<Child>, looks: seq<Look>, n: nat)
    requires Ordered(child, looks) && n <= |looks|
    ensures Supervise(parse, limits, child, looks, n).Going? <==>
      forall k :: 0 < k <= n ==> Quiet(parse, limits, child, looks, k)
  {
    hide Supervise, Quiet, Ordered;
    if n == 0 {
      StartGoes(parse, limits, child, looks);
    } else {
      GoingIff(parse, limits, child, looks, n - 1);
      if Supervise(parse, limits, child, looks, n - 1).Going? {
        QuietIff(parse, limits, child, looks, n);
      } else {
        EndedStays(parse, limits, child, looks, n);
      }
    }
  }

  // ---------------------------------------------------------------- the admission window

  /** The instant a batch of lines may set is the batch's own. */
  lemma {:induction false} ReadyNow(parse: Parser, m: Machine, lines: seq<string>, now: real, ready: real)
    ensures var end := HandleLines(parse, m, lines, now, ready).0;
      end.readyAt == m.readyAt || (m.readyAt.None? && end.readyAt == Some(now))
    decreases |lines|
  {
    if lines != [] && parse(lines[0]).Some? {
      ReadyNow(parse, Handle(m, parse(lines[0]).value, now, ready).0, lines[1..], now, ready);
    }
  }

  lemma GoingReadyAt(parse: Parser, limits: Limits, child: seq<Child>, looks: seq<Look>, n: nat)
    requires Ordered(child, looks) && n <= |looks| && Supervise(parse, limits, child, looks, n).Going?
    ensures Seen(child, looks, n).Some?
    ensures var m := Supervise(parse, limits, child, looks, n).session.m;
      && (Invited(parse, Seen(child, looks, n).value) <==> m.readyAt.Some?)
      && (Invited(parse, Seen(child, looks, n).value) <==> m.expires.Some?)
  {
    RoundsFit(parse, limits, child, looks, n);
    AcceptableIff(parse, Seen(child, looks, n).value);
    InvitedIff(parse, Seen(child, looks, n).value);
  }

  lemma ReadyRound(parse: Parser, limits: Limits, s: Session, code: Option<int>, output: Bytes, t: Times)
    requires s.offset <= |output| && s.m.readyAt.None? && Round(parse, limits, s, code, output, t).Going?
    ensures var m := Round(parse, limits, s, code, output, t).session.m;
      m.readyAt.Some? ==> m.readyAt == Some(t.records)
  {
    var lines := Lines(s.buffer + TextOf(output[s.offset..]).value);
    ReadyNow(parse, s.m, lines, t.records, limits.readySeconds);
  }

  lemma ReadyAtStep(parse: Parser, limits: Limits, child: seq<Child>, looks: seq<Look>, k: nat)
    requires Ordered(child, looks) && 0 < k <= |looks| && Supervise(parse, limits, child, looks, k - 1).Going?
      && Supervise(parse, limits, child, looks, k).Going?
    requires Seen(child, looks, k - 1).Some? && !Invited(parse, Seen(child, looks, k - 1).value)
    requires Seen(child, looks, k).Some? && Invited(parse, Seen(child, looks, k).value)
    ensures StatusOf(Supervise(parse, limits, child, looks, k)).readyAt == Some(looks[k - 1].times.records)
    ensures StatusOf(Supervise(parse, limits, child, looks, k)).expires.Some?
  {
    GoingReadyAt(parse, limits, child, looks, k - 1);
    GoingReadyAt(parse, limits, child, looks, k);
    RoundTaken(parse, limits, child, looks, k);
    var s := Supervise(parse, limits, child, looks, k - 1).session;
    var exit, output, t := child[looks[k - 1].poll].exit, ReadBy(child, looks, k), looks[k - 1].times;
    assert s.offset <= |output|;
    hide *;
    ReadyRound(parse, limits, s, exit, output, t);
  }

  /** The window begins when the round read its records that first read an invitation, and ends `readySeconds` later,
      whatever is read after it. */
  lemma WindowBegins(parse: Parser, limits: Limits, child: seq<Child>, looks: seq<Look>, k: nat, n: nat)
    requires Ordered(child, looks) && 0 < k <= n <= |looks| && Supervise(parse, limits, child, looks, n).Going?
    requires Seen(child, looks, k - 1).Some? && !Invited(parse, Seen(child, looks, k - 1).value)
    requires Seen(child, looks, k).Some? && Invited(parse, Seen(child, looks, k).value)
    ensures StatusOf(Supervise(parse, limits, child, looks, n)).readyAt == Some(looks[k - 1].times.records)
    ensures StatusOf(Supervise(parse, limits, child, looks, n)).expires ==
      Some(looks[k - 1].times.records + limits.readySeconds)
  {
    hide Supervise, Quiet, Ordered, Invited, Seen, AdmissionOk;
    GoingIff(parse, limits, child, looks, n);
    GoingIff(parse, limits, child, looks, k);
    GoingIff(parse, limits, child, looks, k - 1);
    ReadyAtStep(parse, limits, child, looks, k);
    StatusesKeepAdmission(parse, limits, child, looks, k, n);
  }
}
