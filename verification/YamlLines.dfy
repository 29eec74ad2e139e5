/** How one raw line of text becomes a line: indentation, comments, trailing blanks, line ends. */
module YamlLines {
  import opened Wrappers
  import opened Text
  import opened Yaml

  predicate AllBlank(s: string) {
    forall i :: 0 <= i < |s| ==> IsBlank(s[i])
  }

  function Pad(n: nat): (s: string)
    ensures |s| == n && forall i :: 0 <= i < n ==> s[i] == ' '
  {
    seq(n, _ => ' ')
  }

  function QuoteAfter(s: string, q: Quote): Quote {
    if s == "" then q else QuoteAfter(s[1..], NextQuote(q, s[0]))
  }

  /** No comment starts in it and all its quotes are closed. */
  predicate Quiet(s: string) {
    Cut(s, true, Out) == |s| && QuoteAfter(s, Out) == Out
  }

  /** The text of a line that the reader takes as it is. */
  predicate LineText(s: string) {
    s != "" && s != "---" && Tight(s) && Quiet(s) && '\n' !in s
  }

  /** Nothing, or a hash and anything. */
  predicate IsComment(s: string) {
    s == "" || s[0] == '#'
  }

  // ----- comments -----

  predicate BlankAfter(s: string, before: bool) {
    if s == "" then before else IsBlank(s[|s| - 1])
  }

  lemma {:induction false} CutConcat(a: string, b: string, f: bool, q: Quote)
    requires Cut(a, f, q) == |a|
    ensures Cut(a + b, f, q) == |a| + Cut(b, BlankAfter(a, f), QuoteAfter(a, q))
    decreases |a|
  {
    if a == "" {
      assert a + b == b;
    } else {
      assert (a + b)[1..] == a[1..] + b;
      CutConcat(a[1..], b, IsBlank(a[0]), NextQuote(q, a[0]));
    }
  }

  lemma {:induction false} QuoteConcat(a: string, b: string, q: Quote)
    ensures QuoteAfter(a + b, q) == QuoteAfter(b, QuoteAfter(a, q))
    decreases |a|
  {
    if a == "" {
      assert a + b == b;
    } else {
      assert (a + b)[1..] == a[1..] + b;
      QuoteConcat(a[1..], b, NextQuote(q, a[0]));
    }
  }

  /** Text without quotes and hashes. */
  predicate Simple(s: string) {
    forall i :: 0 <= i < |s| ==> s[i] != '\'' && s[i] != '"' && s[i] != '#'
  }

  lemma {:induction false} SimpleCut(s: string, f: bool, q: Quote)
    requires Simple(s)
    ensures Cut(s, f, q) == |s| && QuoteAfter(s, q) == q
    decreases |s|
  {
    if s != "" { SimpleCut(s[1..], IsBlank(s[0]), NextQuote(q, s[0])); }
  }

  /** Simple text that ends in a blank may stand in front of quiet text. */
  lemma SimpleThenQuiet(a: string, b: string)
    requires Simple(a) && a != "" && IsBlank(a[|a| - 1]) && Quiet(b)
    ensures Quiet(a + b)
  {
    SimpleCut(a, true, Out);
    CutConcat(a, b, true, Out);
    QuoteConcat(a, b, Out);
  }

  // ----- trimming -----

  lemma {:induction false} TrimBlankConcat(a: string, b: string)
    ensures TrimBlankRight(a + b) == if TrimBlankRight(b) == "" then TrimBlankRight(a) else a + TrimBlankRight(b)
    decreases |b|
  {
    if b == "" {
      assert a + b == a;
    } else if IsBlank(b[|b| - 1]) {
      assert (a + b)[..|a + b| - 1] == a + b[..|b| - 1];
      TrimBlankConcat(a, b[..|b| - 1]);
    }
  }

  lemma {:induction false} TrimBlankAll(s: string)
    requires AllBlank(s)
    ensures TrimBlankRight(s) == ""
  {
    if s != "" { TrimBlankAll(s[..|s| - 1]); }
  }

  lemma {:induction false} TrimBlankComment(s: string)
    requires s != "" && s[0] == '#'
    ensures TrimBlankRight(s) != "" && TrimBlankRight(s)[0] == '#'
    decreases |s|
  {
    if IsBlank(s[|s| - 1]) { TrimBlankComment(s[..|s| - 1]); }
  }

  lemma {:induction false} TrimLeftBlanks(p: string, t: string)
    requires AllBlank(p) && (t == "" || !IsSpace(t[0]))
    ensures TrimLeftSpace(p + t) == t
  {
    if p == "" {
      assert p + t == t;
    } else {
      assert (p + t)[1..] == p[1..] + t;
      TrimLeftBlanks(p[1..], t);
    }
  }

  lemma {:induction false} TrimRightBlanks(t: string, p: string)
    requires AllBlank(p) && (t == "" || !IsSpace(t[|t| - 1]))
    ensures TrimRightSpace(t + p) == t
    decreases |p|
  {
    if p == "" {
      assert t + p == t;
    } else {
      assert (t + p)[..|t + p| - 1] == t + p[..|p| - 1];
      TrimRightBlanks(t, p[..|p| - 1]);
    }
  }

  lemma TrimBlanks(p: string, t: string, q: string)
    requires AllBlank(p) && AllBlank(q) && t != "" && Tight(t)
    ensures TrimSpace(p + t + q) == t
  {
    assert p + t + q == p + (t + q);
    TrimLeftBlanks(p, t + q);
    TrimRightBlanks(t, q);
  }

  lemma {:induction false} SpacesCounted(n: nat, s: string)
    requires s != "" && s[0] != ' '
    ensures Spaces(Pad(n) + s) == n
    decreases n
  {
    if n == 0 {
      assert Pad(n) + s == s;
    } else {
      assert (Pad(n) + s)[1..] == Pad(n - 1) + s;
      SpacesCounted(n - 1, s);
    }
  }

  // ----- whole lines -----

  /** A line of text may be followed by blanks, and behind at least one blank by a comment. */
  ghost predicate Shown(raw: string, line: Line) {
    exists pad: string, comment: string :: Dressed(raw, line, pad, comment)
  }

  predicate Dressed(raw: string, line: Line, pad: string, comment: string) {
    raw == Pad(line.indent) + line.text + pad + comment && AllBlank(pad) && IsComment(comment) && (comment != "" ==> pad != "")
  }

  /** Blank lines and lines with only a comment. */
  predicate BlankLine(raw: string, pad: string, comment: string) {
    raw == pad + comment && AllBlank(pad) && IsComment(comment)
  }

  /** Document markers, wherever they stand in the line and whatever comment follows. */
  predicate Marker(raw: string, lead: string, pad: string, comment: string) {
    raw == lead + "---" + pad + comment && AllBlank(lead) && AllBlank(pad) && IsComment(comment) && (comment != "" ==> pad != "")
  }

  ghost predicate Noise(raw: string) {
    || (exists pad: string, comment: string :: BlankLine(raw, pad, comment))
    || (exists lead: string, pad: string, comment: string :: Marker(raw, lead, pad, comment))
  }

  function Stripped(raw: string): string {
    TrimBlankRight(raw)[..Cut(TrimBlankRight(raw), true, Out)]
  }

  /** The text between leading blanks and a comment is left, with the blanks. */
  lemma StrippedText(lead: string, text: string, pad: string, comment: string) returns (q: string)
    requires AllBlank(lead) && text != "" && Tight(text) && Quiet(text)
    requires AllBlank(pad) && IsComment(comment) && (comment != "" ==> pad != "")
    ensures AllBlank(q) && Stripped(lead + text + pad + comment) == lead + text + q
  {
    var body := lead + text;
    QuietBehindBlanks(lead, text);
    if comment == "" {
      q := "";
      assert body + pad + comment == body + pad;
      TrimBlankAll(pad);
      TrimBlankConcat(body, pad);
      TextEnds(body);
      assert body[..|body|] == body + q;
    } else {
      q := pad;
      var c := TrimBlankRight(comment);
      TrimBlankComment(comment);
      TrimBlankConcat(body + pad, comment);
      CutAtComment(body, pad, c);
      assert (body + pad + c)[..|body + pad|] == body + q;
    }
  }

  lemma QuietBehindBlanks(lead: string, text: string)
    requires AllBlank(lead) && text != "" && Tight(text) && Quiet(text)
    ensures Quiet(lead + text) && !IsBlank((lead + text)[|lead| + |text| - 1])
  {
    if lead == "" {
      assert lead + text == text;
    } else {
      SimpleThenQuiet(lead, text);
    }
  }

  lemma TextEnds(body: string)
    requires Quiet(body) && body != "" && !IsBlank(body[|body| - 1])
    ensures TrimBlankRight(body) == body
  {
  }

  lemma CutAtComment(body: string, pad: string, c: string)
    requires Quiet(body) && AllBlank(pad) && pad != "" && c != "" && c[0] == '#'
    ensures Cut(body + pad + c, true, Out) == |body + pad|
  {
    SimpleCut(pad, BlankAfter(body, true), Out);
    CutConcat(body, pad, true, Out);
    QuoteConcat(body, pad, Out);
    CutConcat(body + pad, c, true, Out);
  }

  /** A shown line is read as the line it shows. */
  lemma ShownIsRead(raw: string, line: Line)
    requires Shown(raw, line) && LineText(line.text)
    ensures ReadRaw(raw) == Ok(Some(line))
  {
    var pad, comment :| Dressed(raw, line, pad, comment);
    var q := StrippedText(Pad(line.indent), line.text, pad, comment);
    var s := Stripped(raw);
    TrimBlanks(Pad(line.indent), line.text, q);
    assert s == Pad(line.indent) + (line.text + q);
    SpacesCounted(line.indent, line.text + q);
    assert s[line.indent] == line.text[0];
  }

  /** Noise stands for no line. */
  lemma NoiseIsSkipped(raw: string)
    requires Noise(raw)
    ensures ReadRaw(raw) == Ok(None)
  {
    if pad, comment :| BlankLine(raw, pad, comment) {
      BlankIsSkipped(raw, pad, comment);
    } else {
      var lead, pad, comment :| Marker(raw, lead, pad, comment);
      MarkerIsSkipped(raw, lead, pad, comment);
    }
  }

  lemma BlankIsSkipped(raw: string, pad: string, comment: string)
    requires BlankLine(raw, pad, comment)
    ensures ReadRaw(raw) == Ok(None)
  {
    NoiseStripped(pad, comment);
    TrimRightBlanks("", Stripped(raw));
    TrimLeftBlanks(Stripped(raw), "");
    assert "" + Stripped(raw) == Stripped(raw) == Stripped(raw) + "";
  }

  lemma MarkerIsSkipped(raw: string, lead: string, pad: string, comment: string)
    requires Marker(raw, lead, pad, comment)
    ensures ReadRaw(raw) == Ok(None)
  {
    SimpleCut("---", true, Out);
    var q := StrippedText(lead, "---", pad, comment);
    TrimBlanks(lead, "---", q);
  }

  lemma NoiseStripped(pad: string, comment: string)
    requires AllBlank(pad) && IsComment(comment)
    ensures AllBlank(Stripped(pad + comment))
  {
    TrimBlankConcat(pad, comment);
    TrimBlankAll(pad);
    if comment != "" {
      TrimBlankComment(comment);
      var c := TrimBlankRight(comment);
      SimpleCut(pad, true, Out);
      CutConcat(pad, c, true, Out);
      assert (pad + c)[..|pad|] == pad;
    }
  }

  /** A text shows the lines in order, with noise anywhere between them. */
  ghost predicate Shows(raws: seq<string>, lines: seq<Line>)
    decreases |raws|
  {
    if raws == [] then lines == []
    else
      || (Noise(raws[0]) && Shows(raws[1..], lines))
      || (lines != [] && Shown(raws[0], lines[0]) && Shows(raws[1..], lines[1..]))
  }

  lemma ReadFirst(raws: seq<string>, first: Option<Line>, rest: seq<Line>)
    requires raws != [] && ReadRaw(raws[0]) == Ok(first) && ReadLines(raws[1..]) == Ok(rest)
    ensures ReadLines(raws) == Ok(if first.None? then rest else [first.value] + rest)
  {
  }

  lemma {:induction false} ShownLinesAreRead(raws: seq<string>, lines: seq<Line>)
    requires Shows(raws, lines) && forall i :: 0 <= i < |lines| ==> LineText(lines[i].text)
    ensures ReadLines(raws) == Ok(lines)
    decreases |raws|
  {
    if raws != [] {
      if Noise(raws[0]) && Shows(raws[1..], lines) {
        NoiseIsSkipped(raws[0]);
        ShownLinesAreRead(raws[1..], lines);
        ReadFirst(raws, None, lines);
      } else {
        ShownIsRead(raws[0], lines[0]);
        ShownLinesAreRead(raws[1..], lines[1..]);
        ReadFirst(raws, Some(lines[0]), lines[1..]);
        assert lines == [lines[0]] + lines[1..];
      }
    }
  }

  // ----- line ends -----

  /** Holds no line end, not even a part of one at its end. */
  predicate OneLine(s: string) {
    '\n' !in s && (s != "" ==> s[|s| - 1] != '\r')
  }

  lemma {:induction false} CrlfConcat(a: string, b: string)
    requires OneLine(a)
    ensures Crlf(a + b) == a + Crlf(b)
  {
    if a == "" {
      assert a + b == b;
    } else {
      assert (a + b)[1..] == a[1..] + b && (a + b)[0] == a[0];
      assert |a| >= 2 ==> (a + b)[1] == a[1];
      CrlfConcat(a[1..], b);
      assert a == [a[0]] + a[1..];
    }
  }

  function JoinCrlf(raws: seq<string>): string
    requires |raws| > 0
  {
    if |raws| == 1 then raws[0] else raws[0] + "\r\n" + JoinCrlf(raws[1..])
  }

  /** Both kinds of line end read the same. */
  lemma {:induction false} LineEndsAgree(raws: seq<string>)
    requires |raws| > 0 && forall i :: 0 <= i < |raws| ==> OneLine(raws[i])
    ensures Crlf(Join(raws, '\n')) == Join(raws, '\n') == Crlf(JoinCrlf(raws))
  {
    CrlfConcat(raws[0], "");
    assert raws[0] + "" == raws[0];
    if |raws| > 1 {
      var rest, crlf := Join(raws[1..], '\n'), JoinCrlf(raws[1..]);
      LineEndsAgree(raws[1..]);
      CrlfConcat(raws[0], "\n" + rest);
      assert raws[0] + ['\n'] + rest == raws[0] + ("\n" + rest);
      CrlfConcat(raws[0], "\r\n" + crlf);
      assert raws[0] + "\r\n" + crlf == raws[0] + ("\r\n" + crlf);
      assert ("\r\n" + crlf)[2..] == crlf && ("\n" + rest)[1..] == rest;
    }
  }

  // ----- the plainest text -----

  /** The lines with nothing added. */
  function RawLines(lines: seq<Line>): (raws: seq<string>)
    ensures |raws| == |lines| && forall i :: 0 <= i < |lines| ==> raws[i] == Pad(lines[i].indent) + lines[i].text
  {
    seq(|lines|, i requires 0 <= i < |lines| => Pad(lines[i].indent) + lines[i].text)
  }

  lemma {:induction false} RawLinesShow(lines: seq<Line>)
    ensures Shows(RawLines(lines), lines)
    decreases |lines|
  {
    if lines != [] {
      RawLinesShow(lines[1..]);
      assert RawLines(lines)[1..] == RawLines(lines[1..]);
      RawLineShows(lines[0]);
    }
  }

  lemma RawLineShows(line: Line)
    ensures Shown(Pad(line.indent) + line.text, line)
  {
    assert Dressed(Pad(line.indent) + line.text, line, "", "");
  }

  lemma RawIsOneLine(line: Line)
    requires LineText(line.text)
    ensures OneLine(Pad(line.indent) + line.text)
  {
  }
}
