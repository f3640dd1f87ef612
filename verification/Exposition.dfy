/**
 The sample lines of backend/app/metrics.py (`_sample`, `_escape_label`) and a reader for them.

 The reader follows the Prometheus text exposition format 0.0.4, section "Text format details": a label
 value may be any characters, with backslash, double quote and line feed written as \\, \" and \n.
 The number at the end of a line is kept as text.
 */
module Exposition {
  import opened Wrappers

  datatype Label = Label(name: string, value: string)
  datatype Sample = Sample(name: string, labels: seq<Label>, number: string)

  // ---------------------------------------------------------------- the printer

  /** Python's str.replace for a one-character pattern. */
  function Replace(s: string, c: char, with: string): string {
    if s == "" then "" else (if s[0] == c then with else [s[0]]) + Replace(s[1..], c, with)
  }

  /** `_escape_label`: three replacements, one after the other. */
  function EscapeLabel(s: string): string {
    Replace(Replace(Replace(s, '\\', "\\\\"), '\n', "\\n"), '\"', "\\\"")
  }

  function Pair(l: Label): string { l.name + "=\"" + EscapeLabel(l.value) + "\"" }

  /** ",".join over the pairs. */
  function Pairs(labels: seq<Label>): string
    requires labels != []
  {
    if |labels| == 1 then Pair(labels[0]) else Pair(labels[0]) + "," + Pairs(labels[1..])
  }

  function Print(s: Sample): string {
    s.name + (if s.labels == [] then "" else "{" + Pairs(s.labels) + "}") + " " + s.number
  }

  // ---------------------------------------------------------------- the reader

  /** The text before the first character that `stops`, and the text from there on. */
  function Word(s: string, stops: set<char>): (r: (string, string))
    ensures |r.1| <= |s|
  {
    if s == "" || s[0] in stops then ("", s)
    else var r := Word(s[1..], stops); ([s[0]] + r.0, r.1)
  }

  function Unescaped(c: char): Option<char> {
    if c == '\\' then Some('\\') else if c == 'n' then Some('\n') else if c == '\"' then Some('\"') else None
  }

  /** The value up to the closing quote, and what follows the quote. */
  function ReadValue(s: string): (r: Option<(string, string)>)
    ensures r.Some? ==> |r.value.1| < |s|
    decreases |s|, 1
  {
    if s == "" then None
    else if s[0] == '\"' then Some(("", s[1..]))
    else if s[0] == '\\' then ReadEscape(s)
    else
      var r := ReadValue(s[1..]);
      if r.None? then None else Some(([s[0]] + r.value.0, r.value.1))
  }

  function ReadEscape(s: string): (r: Option<(string, string)>)
    requires s != "" && s[0] == '\\'
    ensures r.Some? ==> |r.value.1| < |s|
    decreases |s|, 0
  {
    if |s| < 2 || Unescaped(s[1]).None? then None
    else
      var r := ReadValue(s[2..]);
      if r.None? then None else Some(([Unescaped(s[1]).value] + r.value.0, r.value.1))
  }

  /** The labels up to the closing brace, and what follows it. */
  function ReadLabels(s: string): Option<(seq<Label>, string)>
    decreases |s|
  {
    var word := Word(s, {'='});
    if |word.1| < 2 || word.1[0] != '=' || word.1[1] != '\"' then None
    else
      var value := ReadValue(word.1[2..]);
      if value.None? || value.value.1 == "" then None
      else
        var pair, rest := Label(word.0, value.value.0), value.value.1;
        if rest[0] == '}' then Some(([pair], rest[1..]))
        else if rest[0] != ',' then None
        else
          var more := ReadLabels(rest[1..]);
          if more.None? then None else Some(([pair] + more.value.0, more.value.1))
  }

  function Parse(line: string): Option<Sample> {
    var word := Word(line, {'{', ' '});
    if word.1 == "" then None
    else if word.1[0] == ' ' then Some(Sample(word.0, [], word.1[1..]))
    else
      var labels := ReadLabels(word.1[1..]);
      if labels.None? || labels.value.1 == "" || labels.value.1[0] != ' ' then None
      else Some(Sample(word.0, labels.value.0, labels.value.1[1..]))
  }

  // ---------------------------------------------------------------- replacing is escaping each character

  function EscapeChar(c: char): string {
    if c == '\\' then "\\\\" else if c == '\n' then "\\n" else if c == '\"' then "\\\"" else [c]
  }

  function EscapeEach(s: string): string {
    if s == "" then "" else EscapeChar(s[0]) + EscapeEach(s[1..])
  }

  lemma {:induction false} ReplaceAppend(a: string, b: string, c: char, with: string)
    ensures Replace(a + b, c, with) == Replace(a, c, with) + Replace(b, c, with)
  {
    if a == "" {
      assert a + b == b;
    } else {
      assert (a + b)[1..] == a[1..] + b;
      ReplaceAppend(a[1..], b, c, with);
    }
  }

  lemma ReplaceOne(c: char, d: char, with: string)
    ensures Replace([c], d, with) == if c == d then with else [c]
  {
    assert [c][1..] == "";
  }

  lemma ReplaceTwo(c: char, e: char, d: char, with: string)
    ensures Replace([c, e], d, with) == (if c == d then with else [c]) + (if e == d then with else [e])
  {
    assert [c, e] == [c] + [e];
    ReplaceAppend([c], [e], d, with);
    ReplaceOne(c, d, with);
    ReplaceOne(e, d, with);
  }

  /** One character through the three replacements: no replacement touches what an earlier one put in. */
  lemma EscapeOne(c: char)
    ensures EscapeLabel([c]) == EscapeChar(c)
  {
    ReplaceOne(c, '\\', "\\\\");
    if c == '\\' {
      assert "\\\\" == ['\\', '\\'];
      ReplaceTwo('\\', '\\', '\n', "\\n");
      ReplaceTwo('\\', '\\', '\"', "\\\"");
    } else {
      ReplaceOne(c, '\n', "\\n");
      if c == '\n' {
        assert "\\n" == ['\\', 'n'];
        ReplaceTwo('\\', 'n', '\"', "\\\"");
      } else {
        ReplaceOne(c, '\"', "\\\"");
      }
    }
  }

  lemma EscapeAppend(a: string, b: string)
    ensures EscapeLabel(a + b) == EscapeLabel(a) + EscapeLabel(b)
  {
    ReplaceAppend(a, b, '\\', "\\\\");
    var a1, b1 := Replace(a, '\\', "\\\\"), Replace(b, '\\', "\\\\");
    ReplaceAppend(a1, b1, '\n', "\\n");
    ReplaceAppend(Replace(a1, '\n', "\\n"), Replace(b1, '\n', "\\n"), '\"', "\\\"");
  }

  /** The three replacements in sequence escape every character once. */
  lemma {:induction false} ThreeReplacesEscapeEach(s: string)
    ensures EscapeLabel(s) == EscapeEach(s)
  {
    if s != "" {
      assert s == [s[0]] + s[1..];
      EscapeAppend([s[0]], s[1..]);
      EscapeOne(s[0]);
      ThreeReplacesEscapeEach(s[1..]);
    }
  }

  // ---------------------------------------------------------------- round trip

  lemma {:induction false} WordEnds(word: string, rest: string, stops: set<char>)
    requires forall i :: 0 <= i < |word| ==> word[i] !in stops
    requires rest != "" && rest[0] in stops
    ensures Word(word + rest, stops) == (word, rest)
  {
    if word == "" {
      assert word + rest == rest;
    } else {
      assert (word + rest)[1..] == word[1..] + rest;
      WordEnds(word[1..], rest, stops);
      assert word == [word[0]] + word[1..];
    }
  }

  lemma EscapedCharReads(c: char, tail: string)
    requires ReadValue(tail).Some?
    ensures ReadValue(EscapeChar(c) + tail) == Some(([c] + ReadValue(tail).value.0, ReadValue(tail).value.1))
  {
    var s := EscapeChar(c) + tail;
    if c == '\\' || c == '\n' || c == '\"' {
      assert s[0] == '\\' && s[2..] == tail && Unescaped(s[1]) == Some(c);
    } else {
      assert s[1..] == tail;
    }
  }

  lemma {:induction false} ValueReads(v: string, rest: string)
    ensures ReadValue(EscapeEach(v) + ['\"'] + rest) == Some((v, rest))
  {
    if v == "" {
      assert (EscapeEach(v) + ['\"'] + rest)[1..] == rest;
    } else {
      var tail := EscapeEach(v[1..]) + ['\"'] + rest;
      ValueReads(v[1..], rest);
      assert EscapeEach(v) + ['\"'] + rest == EscapeChar(v[0]) + tail;
      EscapedCharReads(v[0], tail);
      assert v == [v[0]] + v[1..];
    }
  }

  predicate LabelName(s: string) { forall i :: 0 <= i < |s| ==> s[i] != '=' }

  predicate MetricName(s: string) { forall i :: 0 <= i < |s| ==> s[i] != '{' && s[i] != ' ' }

  /** One printed pair followed by anything: the reader finds its name and value. */
  lemma PairReads(l: Label, rest: string)
    requires LabelName(l.name)
    ensures var word := Word(Pair(l) + rest, {'='});
      && word.0 == l.name && |word.1| >= 2 && word.1[0] == '=' && word.1[1] == '\"'
      && ReadValue(word.1[2..]) == Some((l.value, rest))
  {
    ThreeReplacesEscapeEach(l.value);
    var value := EscapeEach(l.value) + ['\"'] + rest;
    var tail := ['=', '\"'] + value;
    assert Pair(l) + rest == l.name + tail;
    WordEnds(l.name, tail, {'='});
    assert tail[2..] == value;
    ValueReads(l.value, rest);
  }

  /** The last pair is followed by the closing brace, an earlier one by a comma. */
  lemma LastReads(l: Label, rest: string)
    requires LabelName(l.name)
    ensures ReadLabels(Pair(l) + (['}'] + rest)) == Some(([l], rest))
  {
    PairReads(l, ['}'] + rest);
    assert (['}'] + rest)[1..] == rest;
  }

  lemma NextReads(l: Label, more: string, labels: seq<Label>, rest: string)
    requires LabelName(l.name) && ReadLabels(more) == Some((labels, rest))
    ensures ReadLabels(Pair(l) + ([','] + more)) == Some(([l] + labels, rest))
  {
    PairReads(l, [','] + more);
    assert ([','] + more)[1..] == more;
  }

  lemma LastSplits(labels: seq<Label>, rest: string)
    requires |labels| == 1
    ensures Pairs(labels) + ['}'] + rest == Pair(labels[0]) + (['}'] + rest) && labels == [labels[0]]
  {
  }

  lemma Regroup(a: string, b: string, c: string, d: string, e: string)
    ensures (a + b + c) + d + e == a + (b + (c + d + e))
  {
  }

  lemma NextSplits(labels: seq<Label>, rest: string)
    requires |labels| > 1
    ensures Pairs(labels) + ['}'] + rest == Pair(labels[0]) + ([','] + (Pairs(labels[1..]) + ['}'] + rest))
  {
    Regroup(Pair(labels[0]), [','], Pairs(labels[1..]), ['}'], rest);
  }

  lemma {:induction false} LabelsRead(labels: seq<Label>, rest: string)
    requires labels != [] && forall i :: 0 <= i < |labels| ==> LabelName(labels[i].name)
    ensures ReadLabels(Pairs(labels) + ['}'] + rest) == Some((labels, rest))
    decreases |labels|
  {
    if |labels| == 1 {
      LastReads(labels[0], rest);
      LastSplits(labels, rest);
    } else {
      var more := Pairs(labels[1..]) + ['}'] + rest;
      LabelsRead(labels[1..], rest);
      NextReads(labels[0], more, labels[1..], rest);
      NextSplits(labels, rest);
      assert labels == [labels[0]] + labels[1..];
    }
  }

  /** Reading a printed sample gives the sample back, whatever characters its label values hold. */
  lemma SampleRoundTrip(s: Sample)
    requires MetricName(s.name) && forall i :: 0 <= i < |s.labels| ==> LabelName(s.labels[i].name)
    ensures Parse(Print(s)) == Some(s)
  {
    if s.labels == [] {
      assert Print(s) == s.name + ([' '] + s.number);
      WordEnds(s.name, [' '] + s.number, {'{', ' '});
      assert ([' '] + s.number)[1..] == s.number;
    } else {
      var inside := Pairs(s.labels) + ['}'] + ([' '] + s.number);
      assert Print(s) == s.name + (['{'] + inside);
      WordEnds(s.name, ['{'] + inside, {'{', ' '});
      assert (['{'] + inside)[1..] == inside;
      LabelsRead(s.labels, [' '] + s.number);
      assert ([' '] + s.number)[1..] == s.number;
    }
  }

  /** Two samples that print the same line are the same sample. */
  lemma PrintIsInjective(a: Sample, b: Sample)
    requires MetricName(a.name) && forall i :: 0 <= i < |a.labels| ==> LabelName(a.labels[i].name)
    requires MetricName(b.name) && forall i :: 0 <= i < |b.labels| ==> LabelName(b.labels[i].name)
    requires Print(a) == Print(b)
    ensures a == b
  {
    SampleRoundTrip(a);
    SampleRoundTrip(b);
  }

  // ---------------------------------------------------------------- the page

  /** A sample whose line the reader understands; its label values may hold any characters. */
  predicate Legible(s: Sample) {
    && MetricName(s.name) && '\n' !in s.name && '\n' !in s.number
    && forall i :: 0 <= i < |s.labels| ==> LabelName(s.labels[i].name) && '\n' !in s.labels[i].name
  }

  lemma {:induction false} EscapedHasNoLineFeed(s: string)
    ensures '\n' !in EscapeEach(s)
  {
    if s != "" {
      EscapedHasNoLineFeed(s[1..]);
      assert '\n' !in EscapeChar(s[0]);
    }
  }

  lemma PairHasNoLineFeed(l: Label)
    requires '\n' !in l.name
    ensures '\n' !in Pair(l)
  {
    ThreeReplacesEscapeEach(l.value);
    EscapedHasNoLineFeed(l.value);
  }

  lemma {:induction false} PairsHaveNoLineFeed(labels: seq<Label>)
    requires labels != [] && forall i :: 0 <= i < |labels| ==> '\n' !in labels[i].name
    ensures '\n' !in Pairs(labels)
    decreases |labels|
  {
    PairHasNoLineFeed(labels[0]);
    if |labels| > 1 { PairsHaveNoLineFeed(labels[1..]); }
  }

  /** No label value ends its line: a printed sample holds no line feed. */
  lemma PrintIsOneLine(s: Sample)
    requires Legible(s)
    ensures '\n' !in Print(s)
  {
    if s.labels != [] { PairsHaveNoLineFeed(s.labels); }
  }

  /** "\n".join over the lines of samples. */
  function Page(samples: seq<Sample>): string
    requires samples != []
  {
    if |samples| == 1 then Print(samples[0]) else Print(samples[0]) + "\n" + Page(samples[1..])
  }

  /** A reader takes the page line by line. */
  function ReadPage(page: string): Option<seq<Sample>>
    decreases |page|
  {
    var line := Word(page, {'\n'});
    var first := Parse(line.0);
    if first.None? then None
    else if line.1 == "" then Some([first.value])
    else
      var rest := ReadPage(line.1[1..]);
      if rest.None? then None else Some([first.value] + rest.value)
  }

  lemma {:induction false} LineEndsAt(line: string, rest: string)
    requires '\n' !in line
    ensures Word(line, {'\n'}) == (line, "")
    ensures Word(line + ("\n" + rest), {'\n'}) == (line, "\n" + rest)
  {
    if line != "" {
      var whole := line + ("\n" + rest);
      assert whole[1..] == line[1..] + ("\n" + rest);
      LineEndsAt(line[1..], rest);
      assert [line[0]] + line[1..] == line;
    } else {
      assert "" + ("\n" + rest) == "\n" + rest;
    }
  }

  lemma FirstLine(line: string, first: Sample, rest: string)
    requires '\n' !in line && Parse(line) == Some(first)
    ensures ReadPage(line) == Some([first])
    ensures ReadPage(line + ("\n" + rest)) ==
      if ReadPage(rest).None? then None else Some([first] + ReadPage(rest).value)
  {
    hide Parse;
    LineEndsAt(line, rest);
    assert ("\n" + rest)[1..] == rest;
  }

  /** Reading a rendered page gives exactly its samples back: no label value can forge a sample, a series or a line. */
  lemma {:induction false} PageRoundTrip(samples: seq<Sample>)
    requires samples != [] && forall i :: 0 <= i < |samples| ==> Legible(samples[i])
    ensures ReadPage(Page(samples)) == Some(samples)
    decreases |samples|
  {
    hide Parse, Print, ReadPage;
    PrintIsOneLine(samples[0]);
    SampleRoundTrip(samples[0]);
    var line, rest := Print(samples[0]), if |samples| == 1 then "" else Page(samples[1..]);
    FirstLine(line, samples[0], rest);
    if |samples| == 1 {
      assert samples == [samples[0]];
    } else {
      assert line + "\n" + rest == line + ("\n" + rest);
      PageRoundTrip(samples[1..]);
      assert [samples[0]] + samples[1..] == samples;
    }
  }
}
