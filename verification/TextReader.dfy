/**
 What a text file of Python hands out when it is read to its end again and again while it grows: each read decodes the
 bytes that are new as UTF-8 by themselves, and translates the line ends of what it has decoded by themselves.
 (`reader.read()` in scripts/transformer_confirmation_supervisor.py; UTF-8 as in section 3 of RFC 3629.)
 */
module TextReader {
  import opened Wrappers

  const CR: Byte := 13
  const LF: Byte := 10

  // ---------------------------------------------------------------- UTF-8

  predicate Continuation(b: Byte) { 0x80 <= b < 0xC0 }

  /** The length of a character, by its first byte; 0 for a byte no character starts with. */
  function Width(b: Byte): nat {
    if b < 0x80 then 1
    else if 0xC2 <= b < 0xE0 then 2
    else if 0xE0 <= b < 0xF0 then 3
    else if 0xF0 <= b < 0xF5 then 4
    else 0
  }

  /** The number written by the first `w` bytes. */
  function Code(b: Bytes, w: nat): int
    requires 1 <= w <= 4 && w <= |b|
  {
    var first := b[0] as int;
    if w == 1 then first
    else if w == 2 then (first - 0xC0) * 64 + (b[1] as int - 0x80)
    else if w == 3 then (first - 0xE0) * 4096 + (b[1] as int - 0x80) * 64 + (b[2] as int - 0x80)
    else (first - 0xF0) * 262144 + (b[1] as int - 0x80) * 4096 + (b[2] as int - 0x80) * 64 + (b[3] as int - 0x80)
  }

  /** Not overlong, not a surrogate, and not beyond the last character. */
  predicate Proper(v: int, w: nat) {
    match w
    case 1 => 0 <= v < 0x80
    case 2 => 0x80 <= v < 0x800
    case 3 => 0x800 <= v < 0xD800 || 0xE000 <= v < 0x1_0000
    case _ => 0x1_0000 <= v < 0x11_0000
  }

  /** The first character and its length. */
  function First(b: Bytes): (r: Option<(char, nat)>)
    ensures r.Some? ==> 1 <= r.value.1 <= 4 && r.value.1 <= |b|
  {
    if b == [] || Width(b[0]) == 0 || Width(b[0]) > |b| then None
    else
      var w := Width(b[0]);
      if (forall i :: 1 <= i < w ==> Continuation(b[i])) && Proper(Code(b, w), w)
      then Some((Code(b, w) as char, w)) else None
  }

  function Decode(b: Bytes): Option<string>
    decreases |b|
  {
    if b == [] then Some("")
    else if First(b).None? then None
    else
      var rest := Decode(b[First(b).value.1..]);
      if rest.None? then None else Some([First(b).value.0] + rest.value)
  }

  /** The first character depends only on its own bytes. */
  lemma FirstIsLocal(a: Bytes, b: Bytes)
    requires First(a).Some? && First(a).value.1 <= |b| && b[..First(a).value.1] == a[..First(a).value.1]
    ensures First(b) == First(a)
  {
    var w := First(a).value.1;
    assert forall i :: 0 <= i < w ==> b[i] == b[..w][i] && a[i] == a[..w][i];
  }

  lemma DecodeStep(b: Bytes)
    ensures b == [] ==> Decode(b) == Some("")
    ensures b != [] && Decode(b).Some? ==> First(b).Some?
    ensures First(b).Some? ==>
      Decode(b) == var rest := Decode(b[First(b).value.1..]);
                   if rest.None? then None else Some([First(b).value.0] + rest.value)
  {
  }

  lemma Associates(a: string, b: string, c: string)
    ensures a + (b + c) == (a + b) + c
  {
  }

  lemma {:induction false} DecodeAppend(a: Bytes, b: Bytes)
    requires Decode(a).Some?
    ensures Decode(a + b) == if Decode(b).None? then None else Some(Decode(a).value + Decode(b).value)
    decreases |a|
  {
    hide Decode, First;
    DecodeStep(a);
    if a == [] {
      assert a + b == b;
      if Decode(b).Some? { assert "" + Decode(b).value == Decode(b).value; }
    } else {
      var w := First(a).value.1;
      assert (a + b)[..w] == a[..w];
      FirstIsLocal(a, a + b);
      DecodeStep(a + b);
      assert (a + b)[w..] == a[w..] + b;
      DecodeAppend(a[w..], b);
      if Decode(b).Some? { Associates([First(a).value.0], Decode(a[w..]).value, Decode(b).value); }
    }
  }

  /** In well-formed text, a prefix is well-formed, and so is the rest, exactly when it ends before a byte that is no
      continuation of a character, or with the text. */
  lemma {:induction false} BoundaryIff(b: Bytes, i: nat)
    requires Decode(b).Some? && i <= |b|
    ensures Decode(b[..i]).Some? <==> i == |b| || !Continuation(b[i])
    ensures Decode(b[..i]).Some? ==> Decode(b[i..]).Some?
    decreases |b|
  {
    if i == 0 {
      assert b[..i] == [] && b[i..] == b;
    } else {
      var w := First(b).value.1;
      if i < w {
        assert b[..i][0] == b[0];
      } else {
        assert b[..i][..w] == b[..w];
        FirstIsLocal(b, b[..i]);
        assert b[..i][w..] == b[w..][..i - w] && b[i..] == b[w..][i - w..];
        BoundaryIff(b[w..], i - w);
      }
    }
  }

  /** Line feeds and carriage returns are single bytes, wherever they stand. */
  lemma {:induction false} EndsDecode(b: Bytes)
    requires b != [] && Decode(b).Some?
    ensures var s := Decode(b).value;
      && s != "" && (s[0] == '\n' <==> b[0] == LF) && (s[|s| - 1] == '\r' <==> b[|b| - 1] == CR)
    decreases |b|
  {
    var w := First(b).value.1;
    if w < |b| {
      EndsDecode(b[w..]);
    } else {
      assert b[w..] == [];
    }
  }

  // ---------------------------------------------------------------- line ends

  /** Universal newlines: CR LF and CR become LF. */
  function Newlines(s: string): string
    decreases |s|
  {
    if s == "" then ""
    else if s[0] == '\r' then "\n" + Newlines(if |s| > 1 && s[1] == '\n' then s[2..] else s[1..])
    else s[..1] + Newlines(s[1..])
  }

  /** The two texts part a CR from its LF. */
  predicate Parts(a: string, b: string) { a != "" && b != "" && a[|a| - 1] == '\r' && b[0] == '\n' }

  /** How many characters the first line end or other character takes, and what it becomes. */
  function Span(s: string): nat
    requires s != ""
  {
    if s[0] == '\r' && |s| > 1 && s[1] == '\n' then 2 else 1
  }

  lemma NewlinesStep(s: string)
    requires s != ""
    ensures Newlines(s) == (if s[0] == '\r' then "\n" else s[..1]) + Newlines(s[Span(s)..])
  {
  }

  lemma PartsLater(a: string, b: string)
    requires a != "" && Span(a) < |a|
    ensures Parts(a[Span(a)..], b) <==> Parts(a, b)
  {
    assert a[Span(a)..][|a| - Span(a) - 1] == a[|a| - 1];
  }

  lemma SpanLocal(a: string, b: string)
    requires a != "" && !(a == "\r" && Parts(a, b))
    ensures Span(a + b) == Span(a) && (a + b)[0] == a[0] && (a + b)[..1] == a[..1]
    ensures (a + b)[Span(a)..] == a[Span(a)..] + b
  {
  }

  lemma {:induction false} NewlinesAppend(a: string, b: string)
    ensures Newlines(a + b) == Newlines(a) + Newlines(if Parts(a, b) then b[1..] else b)
    decreases |a|
  {
    if a == "" {
      assert a + b == b;
    } else if a == "\r" && Parts(a, b) {
      assert (a + b)[2..] == b[1..];
      NewlinesStep(a + b);
      assert a[1..] == "";
    } else {
      hide Newlines, Span;
      var k := Span(a);
      SpanLocal(a, b);
      NewlinesStep(a);
      NewlinesStep(a + b);
      if k < |a| { PartsLater(a, b); } else { WholeSpan(a, b); }
      NewlinesAppend(a[k..], b);
      Associates(if a[0] == '\r' then "\n" else a[..1], Newlines(a[k..]),
                 Newlines(if Parts(a, b) then b[1..] else b));
    }
  }

  lemma WholeSpan(a: string, b: string)
    requires a != "" && Span(a) >= |a| && !(a == "\r" && Parts(a, b))
    ensures !Parts(a, b) && a[Span(a)..] == ""
  {
  }

  /** A CR ends a line whatever follows. */
  lemma {:induction false} CrEndsLine(s: string)
    requires s != "" && s[|s| - 1] == '\r'
    ensures Newlines(s) != "" && Newlines(s)[|Newlines(s)| - 1] == '\n'
    decreases |s|
  {
    var k := if s[0] == '\r' && |s| > 1 && s[1] == '\n' then 2 else 1;
    if k < |s| {
      CrEndsLine(s[k..]);
    } else {
      assert s[k..] == "";
    }
  }

  // ---------------------------------------------------------------- reads

  /** What one read of `b` hands out, or None for a UnicodeDecodeError. */
  function TextOf(b: Bytes): Option<string> {
    if Decode(b).None? then None else Some(Newlines(Decode(b).value))
  }

  /** Position `i` of the output is inside no character and parts no CR from its LF. */
  predicate CleanCut(b: Bytes, i: nat)
    requires i <= |b|
  {
    i == |b| || (!Continuation(b[i]) && !(0 < i && b[i - 1] == CR && b[i] == LF))
  }

  /** The last byte of `a` and the first of `b` are one line end. */
  predicate PartsLineEnd(a: Bytes, b: Bytes) { a != [] && b != [] && a[|a| - 1] == CR && b[0] == LF }

  /** What two reads hand out, and what one read of both would: the same, or one line feed less. */
  lemma TwoReads(a: Bytes, b: Bytes)
    requires TextOf(a).Some? && TextOf(b).Some?
    ensures TextOf(a + b).Some?
    ensures !PartsLineEnd(a, b) ==> TextOf(a + b).value == TextOf(a).value + TextOf(b).value
    ensures PartsLineEnd(a, b) ==>
      && TextOf(a).value != "" && TextOf(a).value[|TextOf(a).value| - 1] == '\n'
      && TextOf(b).value != "" && TextOf(b).value[0] == '\n'
      && TextOf(a + b).value == TextOf(a).value + TextOf(b).value[1..]
  {
    DecodeAppend(a, b);
    if a != [] { EndsDecode(a); }
    if b != [] { EndsDecode(b); }
    var s, t := Decode(a).value, Decode(b).value;
    NewlinesAppend(s, t);
    if PartsLineEnd(a, b) {
      CrEndsLine(s);
      assert t[..1] == "\n" && Newlines(t) == "\n" + Newlines(t[1..]);
    }
  }

  /** Reading well-formed output in two pieces hands out what one read does exactly when the cut is clean. */
  lemma CutIsHarmlessIff(b: Bytes, i: nat)
    requires TextOf(b).Some? && i <= |b|
    ensures CleanCut(b, i) <==>
      && TextOf(b[..i]).Some? && TextOf(b[i..]).Some?
      && TextOf(b[..i]).value + TextOf(b[i..]).value == TextOf(b).value
  {
    BoundaryIff(b, i);
    hide Decode, Newlines;
    if TextOf(b[..i]).Some? {
      PartsAt(b, i);
      TwoReads(b[..i], b[i..]);
      assert b[..i] + b[i..] == b;
      if PartsLineEnd(b[..i], b[i..]) {
        assert |TextOf(b).value| < |TextOf(b[..i]).value + TextOf(b[i..]).value|;
      }
    }
  }

  lemma PartsAt(b: Bytes, i: nat)
    requires i <= |b|
    ensures PartsLineEnd(b[..i], b[i..]) <==> 0 < i < |b| && b[i - 1] == CR && b[i] == LF
  {
    if 0 < i { assert b[..i][i - 1] == b[i - 1]; }
    if i < |b| { assert b[i..][0] == b[i]; }
  }

  /** Bytes below 0x80 without a carriage return, such as `json.dumps` writes by default. */
  predicate PlainAscii(b: Bytes) { forall i :: 0 <= i < |b| ==> b[i] < 0x80 && b[i] != CR }

  lemma {:induction false} AsciiDecodes(b: Bytes)
    requires PlainAscii(b)
    ensures TextOf(b).Some?
    decreases |b|
  {
    if b != [] { AsciiDecodes(b[1..]); }
  }

  /** Every cut of such output is clean. */
  lemma AsciiCutsAreClean(b: Bytes, i: nat)
    requires PlainAscii(b) && i <= |b|
    ensures TextOf(b).Some? && CleanCut(b, i)
  {
    AsciiDecodes(b);
  }
}
