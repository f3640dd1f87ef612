/**
 What the reader's decoding and its line ends mean, from the other side: section 3 of RFC 3629 says how a character is
 encoded, and decoding is exactly the inverse.
 */
module TextEncoding {
  import opened Wrappers
  import opened TextReader

  /** The bytes of one character. */
  function Encoded(c: char): (b: Bytes)
    ensures 1 <= |b| <= 4
  {
    var v := c as int;
    if v < 0x80 then [v as Byte]
    else if v < 0x800 then [(0xC0 + v / 64) as Byte, (0x80 + v % 64) as Byte]
    else if v < 0x1_0000 then [(0xE0 + v / 4096) as Byte, (0x80 + v / 64 % 64) as Byte, (0x80 + v % 64) as Byte]
    else
      [(0xF0 + v / 262144) as Byte, (0x80 + v / 4096 % 64) as Byte, (0x80 + v / 64 % 64) as Byte,
       (0x80 + v % 64) as Byte]
  }

  function Encoding(s: string): Bytes { if s == "" then [] else Encoded(s[0]) + Encoding(s[1..]) }

  /** Sixty-fours recompose. */
  lemma Recompose(v: nat)
    ensures v == v / 64 * 64 + v % 64
    ensures v == v / 4096 * 4096 + v / 64 % 64 * 64 + v % 64
    ensures v == v / 262144 * 262144 + v / 4096 % 64 * 4096 + v / 64 % 64 * 64 + v % 64
  {
    var a := v / 64;
    var b := a / 64;
    assert v == a * 64 + v % 64;
    assert a == b * 64 + a % 64;
    assert b == b / 64 * 64 + b % 64;
    assert b == v / 4096 by { Shifted(v); }
    assert b / 64 == v / 262144 by { Shifted(v); }
  }

  lemma Shifted(v: nat)
    ensures v / 64 / 64 == v / 4096
    ensures v / 64 / 64 / 64 == v / 262144
  {
  }

  lemma EncodedIsFirst(c: char, rest: Bytes)
    ensures First(Encoded(c) + rest) == Some((c, |Encoded(c)|))
  {
    Recompose(c as int);
    var b := Encoded(c);
    assert forall i :: 0 <= i < |b| ==> (b + rest)[i] == b[i];
    assert Width(b[0]) == |b|;
    assert Code(b + rest, |b|) == c as int;
  }

  /** The six low bits of the last byte, and what stands before them. */
  lemma Decompose(h: nat, l: nat)
    requires l < 64
    ensures (h * 64 + l) / 64 == h && (h * 64 + l) % 64 == l
  {
  }

  lemma FirstIsEncoded(b: Bytes)
    requires First(b).Some?
    ensures b[..First(b).value.1] == Encoded(First(b).value.0)
  {
    var (c, w) := First(b).value;
    var v := c as int;
    assert v == Code(b, w) && Proper(v, w);
    if w == 2 {
      Decompose(b[0] as int - 0xC0, b[1] as int - 0x80);
    } else if w == 3 {
      Decompose((b[0] as int - 0xE0) * 64 + (b[1] as int - 0x80), b[2] as int - 0x80);
      Decompose(b[0] as int - 0xE0, b[1] as int - 0x80);
      assert v / 4096 == v / 64 / 64;
    } else if w == 4 {
      var h := (b[0] as int - 0xF0) * 64 + (b[1] as int - 0x80);
      Decompose(h * 64 + (b[2] as int - 0x80), b[3] as int - 0x80);
      Decompose(h, b[2] as int - 0x80);
      Decompose(b[0] as int - 0xF0, b[1] as int - 0x80);
      assert v / 4096 == v / 64 / 64 && v / 262144 == v / 4096 / 64;
    }
  }

  /** The reader accepts exactly the encodings, and hands out the text that was encoded. */
  lemma {:induction false} DecodeIff(b: Bytes, s: string)
    ensures Decode(b) == Some(s) <==> b == Encoding(s)
    decreases |b| + |s|
  {
    hide Decode, First, Encoded;
    DecodeStep(b);
    if s != "" {
      EncodedIsFirst(s[0], Encoding(s[1..]));
      if b == Encoding(s) {
        var w := |Encoded(s[0])|;
        assert b[w..] == Encoding(s[1..]);
        DecodeIff(b[w..], s[1..]);
        assert [s[0]] + s[1..] == s;
      }
    }
    if b != [] && Decode(b) == Some(s) {
      var (c, w) := First(b).value;
      FirstIsEncoded(b);
      var rest := Decode(b[w..]).value;
      assert s[0] == c && s[1..] == rest;
      DecodeIff(b[w..], rest);
      assert b == b[..w] + b[w..];
    }
  }

  /** No carriage return is left, a text without one is unchanged, and CR LF and CR are each one line feed. */
  lemma {:induction false} NewlinesAre(s: string, more: string)
    ensures '\r' !in Newlines(s)
    ensures '\r' !in s ==> Newlines(s) == s
    ensures Newlines("\r\n" + more) == "\n" + Newlines(more)
    ensures (more == "" || more[0] != '\n') ==> Newlines("\r" + more) == "\n" + Newlines(more)
    decreases |s|
  {
    assert ("\r\n" + more)[2..] == more;
    assert ("\r" + more)[1..] == more;
    if s != "" {
      NewlinesStep(s);
      NewlinesAre(s[Span(s)..], more);
    }
  }
}
