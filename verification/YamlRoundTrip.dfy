/** A nested map, laid out in any key order, at any increasing indentation and among comments, is read back. */
module YamlRoundTrip {
  import opened Wrappers
  import opened Text
  import opened Letters
  import opened Yaml
  import opened YamlLayout
  import opened YamlLines
  import opened YamlScalars

  /** One way to write a map: an order of the keys, a text for each of them, and the indentation of everything nested. */
  datatype Tree = Nil | Key(text: string, name: string, node: Node, rest: Tree)

  /** Scalars and items are given by their text. */
  datatype Node = Blank | Scalar(text: string) | Bullets(indent: nat, items: seq<string>) | Sub(indent: nat, tree: Tree)

  /** The text of a key: one line, no colon with a space behind it, no dash in front, quotes closed, no comment. */
  predicate KeyText(k: string) {
    Tight(k) && Quiet(k) && '\n' !in k && !Contains(k, ": ") && !("- " <= k)
  }

  /** A key stands for itself, or for what stands between its quotes. */
  ghost predicate KeyNames(text: string, name: string) {
    || (text == name && !Wrapped(text, "\"", "\"") && !Wrapped(text, "'", "'"))
    || Between(text, "\"", name, "\"") || Between(text, "'", name, "'")
  }

  predicate PlainText(t: string) {
    t != "" && Tight(t) && Quiet(t) && '\n' !in t
  }

  predicate PlainTree(t: Tree, n: nat)
    decreases t
  {
    t.Key? ==> KeyText(t.text) && PlainNode(t.node, n) && PlainTree(t.rest, n)
  }

  predicate PlainNode(node: Node, n: nat)
    decreases node
  {
    match node
    case Blank => true
    case Scalar(text) => PlainText(text)
    case Bullets(m, items) => m > n && items != [] && forall i :: 0 <= i < |items| ==> PlainText(items[i])
    case Sub(m, tree) => m > n && tree != Nil && PlainTree(tree, m)
  }

  /** The tree writes this map: each key once, each with a node that writes its value. */
  ghost predicate Writes(t: Tree, m: map<string, Value>, lib: Lib)
    decreases t
  {
    match t
    case Nil => m == map[]
    case Key(text, k, node, rest) => KeyNames(text, k) && k in m && WritesValue(node, m[k], lib) && Writes(rest, m - {k}, lib)
  }

  ghost predicate WritesValue(node: Node, v: Value, lib: Lib)
    decreases node
  {
    match node
    case Blank => v == Null
    case Scalar(text) => TextMeans(text, v, lib)
    case Bullets(_, items) =>
      v.List? && |v.items| == |items| && forall i :: 0 <= i < |items| ==> TextMeans(items[i], v.items[i], lib)
    case Sub(_, tree) => v.Map? && Writes(tree, v.entries, lib)
  }

  // ----- the lines of a tree -----

  function Bullet(item: string): string {
    "- " + item
  }

  function Compile(t: Tree): Block
    decreases t
  {
    match t
    case Nil => End
    case Key(k, _, node, rest) => Entry(KeyLine(k, node), CompileNode(node), Compile(rest))
  }

  function KeyLine(k: string, node: Node): string {
    if node.Scalar? then k + ": " + node.text else k + ":"
  }

  function CompileNode(node: Node): Body
    decreases node
  {
    match node
    case Blank => Bare
    case Scalar(_) => Bare
    case Bullets(m, items) => ListBody(m, seq(|items|, i requires 0 <= i < |items| => Bullet(items[i])))
    case Sub(m, tree) => MapBody(m, Compile(tree))
  }

  // ----- keys -----

  lemma NoColonSpace(k: string, j: nat)
    requires !Contains(k, ": ")
    ensures !MatchesAt(k, ": ", j)
  {
  }

  lemma NamedByText(text: string, name: string)
    requires KeyNames(text, name)
    ensures Unquote(text) == name
  {
    if text == name && !Wrapped(text, "\"", "\"") && !Wrapped(text, "'", "'") {
      EnclosedIsWrapped(text, "\"", "\"");
      EnclosedIsWrapped(text, "'", "'");
    } else {
      assert text[1..|text| - 1] == name;
    }
  }

  lemma SplitBareKey(k: string)
    requires KeyText(k)
    ensures SplitKV(k + ":") == Some((Unquote(k), ""))
  {
    var s := k + ":";
    assert s[|s| - 1..] == ":" && s[..|s| - 1] == k;
    TrimTight(k);
  }

  lemma FirstColon(k: string, t: string)
    requires KeyText(k)
    ensures Index(k + ": " + t, ": ") == |k|
  {
    var s := k + ": " + t;
    assert MatchesAt(s, ": ", |k|) by { assert s[|k|..|k| + 2] == ": "; }
    forall j | 0 <= j < |k|
      ensures !MatchesAt(s, ": ", j)
    {
      if j + 2 <= |k| {
        NoColonSpace(k, j);
        assert s[j..j + 2] == k[j..j + 2];
      } else {
        assert s[j..j + 2][1] == s[|k|] == ':' != ": "[1];
      }
    }
  }

  lemma ColonBeforeEnd(k: string, t: string)
    requires KeyText(k) && t != ""
    ensures var s := k + ": " + t; Contains(s[..|s| - 1], ": ")
  {
    var s := k + ": " + t;
    assert s[..|s| - 1] == k + ": " + t[..|t| - 1];
    FirstColon(k, t[..|t| - 1]);
  }

  lemma SplitAt(s: string, at: nat)
    requires |s| > 0 && Contains(s[..|s| - 1], ": ") && Index(s, ": ") == at && at + 2 <= |s|
    ensures SplitKV(s) == Some((Unquote(TrimSpace(s[..at])), TrimSpace(s[at + 2..])))
  {
  }

  lemma SplitKeyText(k: string, t: string)
    requires KeyText(k) && PlainText(t)
    ensures SplitKV(k + ": " + t) == Some((Unquote(k), t))
  {
    var s := k + ": " + t;
    FirstColon(k, t);
    ColonBeforeEnd(k, t);
    SplitAt(s, |k|);
    TrimTight(k);
    TrimTight(t);
    assert s[..|k|] == k && s[|k| + 2..] == t;
  }

  /** A key and a text are split at the first colon and space, and the key loses its quotes. */
  lemma EntrySplits(k: string, name: string, t: string)
    requires KeyText(k) && KeyNames(k, name) && PlainText(t)
    ensures SplitKV(k + ": " + t) == Some((name, t)) && SplitKV(k + ":") == Some((name, ""))
  {
    NamedByText(k, name);
    SplitKeyText(k, t);
    SplitBareKey(k);
  }

  lemma KeyLineSplits(k: string, node: Node)
    requires KeyText(k) && (node.Scalar? ==> PlainText(node.text))
    ensures SplitKV(KeyLine(k, node)) == Some((Unquote(k), if node.Scalar? then node.text else ""))
    ensures !IsItem(KeyLine(k, node))
  {
    var s := KeyLine(k, node);
    if node.Scalar? { SplitKeyText(k, node.text); } else { SplitBareKey(k); }
    NoItem(k, s[|k|..]);
    assert s == k + s[|k|..];
  }

  lemma NoItem(k: string, rest: string)
    requires !("- " <= k) && rest != "" && rest[0] == ':'
    ensures !IsItem(k + rest)
  {
    var s := k + rest;
    assert s[|k|] == ':';
    if |k| >= 2 { assert s[..2] == k[..2]; }
  }

  // ----- clean lines -----

  /** Quiet text may be followed by quiet text behind a simple one that ends in a blank, or by simple text alone. */
  lemma QuietThenQuiet(a: string, mid: string, b: string)
    requires Quiet(a) && Simple(mid) && mid != "" && (b == "" || (IsBlank(mid[|mid| - 1]) && Quiet(b)))
    ensures Quiet(a + mid + b)
  {
    var f := BlankAfter(a, true);
    SimpleCut(mid, f, Out);
    CutConcat(a, mid, true, Out);
    QuoteConcat(a, mid, Out);
    if b == "" {
      assert a + mid + b == a + mid;
    } else {
      CutConcat(a + mid, b, true, Out);
      QuoteConcat(a + mid, b, Out);
    }
  }

  lemma KeyLineClean(k: string, node: Node)
    requires KeyText(k) && (node.Scalar? ==> PlainText(node.text))
    ensures LineText(KeyLine(k, node))
  {
    var s := KeyLine(k, node);
    assert s[|k|] == ':';
    if node.Scalar? {
      QuietThenQuiet(k, ": ", node.text);
    } else {
      QuietThenQuiet(k, ":", "");
      assert k + ":" + "" == s;
    }
  }

  lemma BulletClean(item: string)
    requires PlainText(item)
    ensures LineText(Bullet(item)) && IsItem(Bullet(item)) && ItemText(Bullet(item)) == item
  {
    SimpleThenQuiet("- ", item);
    assert Bullet(item)[1] == ' ';
    assert Bullet(item)[1..] == " " + item == " " + item + "";
    TrimBlanks(" ", item, "");
  }

  ghost predicate Clean(ls: seq<Line>) {
    forall i :: 0 <= i < |ls| ==> LineText(ls[i].text)
  }

  lemma {:induction false} TreeClean(t: Tree, n: nat)
    requires PlainTree(t, n)
    ensures Clean(Layout(Compile(t), n))
    decreases t
  {
    if t.Key? {
      KeyLineClean(t.text, t.node);
      NodeClean(t.node, n);
      TreeClean(t.rest, n);
    }
  }

  lemma {:induction false} NodeClean(node: Node, n: nat)
    requires PlainNode(node, n)
    ensures Clean(LayoutBody(CompileNode(node)))
    decreases node
  {
    match node
    case Blank =>
    case Scalar(_) =>
    case Bullets(m, items) =>
      forall i | 0 <= i < |items|
        ensures LineText(Bullet(items[i]))
      {
        BulletClean(items[i]);
      }
    case Sub(m, tree) => TreeClean(tree, m);
  }

  // ----- the block of a tree is well laid and denotes the map -----

  lemma {:induction false} TreeWellLaid(t: Tree, n: nat)
    requires PlainTree(t, n)
    ensures WellLaid(Compile(t), n)
    decreases t
  {
    if t.Key? {
      KeyLineSplits(t.text, t.node);
      NodeWellLaid(t.node, n);
      TreeWellLaid(t.rest, n);
    }
  }

  lemma {:induction false} NodeWellLaid(node: Node, n: nat)
    requires PlainNode(node, n)
    ensures WellLaidBody(CompileNode(node), n, if node.Scalar? then node.text else "")
    decreases node
  {
    match node
    case Blank =>
    case Scalar(_) =>
    case Bullets(m, items) =>
      forall i | 0 <= i < |items|
        ensures IsItem(Bullet(items[i]))
      {
        BulletClean(items[i]);
      }
    case Sub(m, tree) => TreeWellLaid(tree, m);
  }

  lemma {:induction false} BulletValues(items: seq<string>, texts: seq<string>, lib: Lib)
    requires |texts| == |items| && forall i :: 0 <= i < |items| ==> PlainText(items[i]) && texts[i] == Bullet(items[i])
    ensures |ItemValues(texts, lib)| == |items|
    ensures forall i :: 0 <= i < |items| ==> ItemValues(texts, lib)[i] == ParseScalar(items[i], lib)
    decreases |items|
  {
    if items != [] {
      BulletClean(items[0]);
      BulletValues(items[1..], texts[1..], lib);
    }
  }

  lemma BulletsDenote(m: nat, items: seq<string>, v: Value, lib: Lib)
    requires items != [] && forall i :: 0 <= i < |items| ==> PlainText(items[i])
    requires WritesValue(Bullets(m, items), v, lib)
    ensures BodyValue("", CompileNode(Bullets(m, items)), lib) == v
  {
    var texts := CompileNode(Bullets(m, items)).items;
    BulletValues(items, texts, lib);
    forall i | 0 <= i < |items| ensures ParseScalar(items[i], lib) == v.items[i] { TextReads(items[i], v.items[i], lib); }
    assert ItemValues(texts, lib) == v.items;
  }

  lemma {:induction false} NodeDenotes(node: Node, n: nat, v: Value, lib: Lib)
    requires PlainNode(node, n) && WritesValue(node, v, lib)
    ensures BodyValue(if node.Scalar? then node.text else "", CompileNode(node), lib) == v
    decreases node, 1
  {
    match node
    case Blank =>
    case Scalar(text) => TextReads(text, v, lib);
    case Bullets(m, items) => BulletsDenote(m, items, v, lib);
    case Sub(m, tree) =>
      TreeDenotes(tree, m, map[], v.entries, lib);
      assert map[] + v.entries == v.entries;
  }

  lemma {:induction false} TreeDenotes(t: Tree, n: nat, acc: map<string, Value>, m: map<string, Value>, lib: Lib)
    requires PlainTree(t, n) && Writes(t, m, lib)
    ensures Denote(Compile(t), acc, lib) == acc + m
    decreases t, 0
  {
    match t
    case Nil =>
      assert acc + m == acc;
    case Key(text, k, node, rest) =>
      KeyLineSplits(text, node);
      NamedByText(text, k);
      NodeDenotes(node, n, m[k], lib);
      TreeDenotes(rest, n, acc[k := m[k]], m - {k}, lib);
      DenoteEntry(KeyLine(text, node), CompileNode(node), Compile(rest), acc, lib);
      MapStep(acc, m, k);
  }

  lemma MapStep(acc: map<string, Value>, m: map<string, Value>, k: string)
    requires k in m
    ensures acc[k := m[k]] + (m - {k}) == acc + m
  {
  }

  // ----- the round trip -----

  /** A text that shows the layout of a well-laid block is parsed to what the block denotes. */
  lemma BlockRoundTrip(b: Block, n: nat, raws: seq<string>, data: string, lib: Lib)
    requires b != End && WellLaid(b, n) && Clean(Layout(b, n))
    requires raws != [] && Without(raws, '\n') && Shows(raws, Layout(b, n)) && Crlf(data) == Join(raws, '\n')
    ensures ParseText(data, lib) == Ok(Some(Denote(b, map[], lib)))
  {
    var ls := Layout(b, n);
    SplitJoin(raws, '\n');
    ShownLinesAreRead(raws, ls);
    assert ls[0] == Line(n, b.text);
    AcceptedIffLaid(ls, b);
  }

  /**
    * Any text that shows the lines of a tree, with either kind of line end, comments
    * behind the lines and noise between them, is parsed to the map that the tree writes.
    */
  lemma TreeRoundTrip(t: Tree, n: nat, m: map<string, Value>, raws: seq<string>, data: string, lib: Lib)
    requires t != Nil && PlainTree(t, n) && Writes(t, m, lib)
    requires raws != [] && Without(raws, '\n') && Shows(raws, Layout(Compile(t), n)) && Crlf(data) == Join(raws, '\n')
    ensures ParseText(data, lib) == Ok(Some(m))
  {
    TreeClean(t, n);
    TreeWellLaid(t, n);
    TreeDenotes(t, n, map[], m, lib);
    assert map[] + m == m;
    BlockRoundTrip(Compile(t), n, raws, data, lib);
  }

  // ----- what can be written -----

  /** A key that can be written between quotes. */
  predicate WritableKey(k: string) {
    '\n' !in k && !Contains(k, ": ") && ('"' !in k || '\'' !in k)
  }

  ghost predicate Writable(v: Value, lib: Lib)
    decreases v
  {
    match v
    case Int(i) => InRange(i)
    case Float(text) => PlainText(text) && Unwrapped(text) && !Special(text) && lib.float(text)
    case Str(s) => '\n' !in s
    case List(items) => forall i :: 0 <= i < |items| ==> !items[i].List? && !items[i].Map? && Writable(items[i], lib)
    case Map(es) => es != map[] && forall k :: k in es ==> WritableKey(k) && Writable(es[k], lib)
    case NilList => false
    case _ => true
  }

  /** The text of a scalar value; a string is written between single quotes. */
  function ScalarText(v: Value): string {
    match v
    case Bool(b) => if b then "true" else "false"
    case Int(i) => IntText(i)
    case Float(text) => text
    case Str(s) => "'" + Doubled(s) + "'"
    case List(_) => "[]"
    case _ => "null"
  }

  lemma {:induction false} DoubledQuiet(s: string, f: bool)
    requires '\n' !in s
    ensures Cut(Doubled(s), f, Single) == |Doubled(s)| && QuoteAfter(Doubled(s), Single) == Single && '\n' !in Doubled(s)
    decreases |s|
  {
    if s != "" {
      var d := Doubled(s[1..]);
      DoubledQuiet(s[1..], IsBlank(s[0]));
      if s[0] == '\'' {
        DoubledQuiet(s[1..], false);
        var two := "''" + d;
        assert two[1..] == "'" + d && ("'" + d)[1..] == d;
      } else {
        assert ([s[0]] + d)[1..] == d;
      }
    }
  }

  function Inside(c: char): Quote {
    if c == '"' then Double else Single
  }

  /** Text without an open end, put between quotes, is quiet. */
  lemma QuotedQuiet(c: char, x: string)
    requires c == '"' || c == '\''
    requires Cut(x, false, Inside(c)) == |x| && QuoteAfter(x, Inside(c)) == Inside(c)
    ensures Quiet([c] + x + [c])
  {
    var e := x + [c];
    CutConcat(x, [c], false, Inside(c));
    QuoteConcat(x, [c], Inside(c));
    assert [c][1..] == "";
    var t := [c] + e;
    assert t[1..] == e && t == [c] + x + [c];
  }

  lemma {:induction false} InsideStays(c: char, x: string, f: bool)
    requires (c == '"' || c == '\'') && c !in x
    ensures Cut(x, f, Inside(c)) == |x| && QuoteAfter(x, Inside(c)) == Inside(c)
    decreases |x|
  {
    if x != "" { InsideStays(c, x[1..], IsBlank(x[0])); }
  }

  lemma QuotedIsPlain(s: string)
    requires '\n' !in s
    ensures PlainText("'" + Doubled(s) + "'")
  {
    DoubledQuiet(s, false);
    QuotedQuiet('\'', Doubled(s));
  }

  lemma IntIsNumber(i: int)
    requires InRange(i)
    ensures Number(IntText(i), i)
  {
    AtoiIntText(i);
    NumberExactly(IntText(i), i);
  }

  lemma IntIsPlain(i: int)
    ensures PlainText(IntText(i))
  {
    var t := IntText(i);
    IntTextChars(i);
    DigitsArePlain(t);
  }

  lemma DigitsArePlain(t: string)
    requires t != "" && forall j :: 0 <= j < |t| ==> IsDigit(t[j]) || t[j] == '-'
    ensures PlainText(t)
  {
    SimpleIsPlain(t);
  }

  lemma IntTextChars(i: int)
    ensures var t := IntText(i); t != "" && IsDigit(t[|t| - 1]) && forall j :: 0 <= j < |t| ==> IsDigit(t[j]) || t[j] == '-'
  {
    var d := Decimal(if i < 0 then 0 - i else i);
    assert IsDigit(d[|d| - 1]);
  }

  lemma SimpleIsPlain(w: string)
    requires w != "" && Tight(w) && Simple(w) && '\n' !in w
    ensures PlainText(w) && TrimSpace(w) == w
  {
    SimpleCut(w, true, Out);
    TrimTight(w);
  }

  lemma TruthIsPlain(b: bool)
    ensures PlainText(if b then "true" else "false")
  {
    SimpleIsPlain(if b then "true" else "false");
  }

  lemma NothingIsPlain()
    ensures PlainText("null") && PlainText("[]")
  {
    SimpleIsPlain("null");
    SimpleIsPlain("[]");
  }

  lemma SameAsItself(t: string)
    ensures SameLetters(t, t)
  {
  }

  lemma WordsMean()
    ensures TrueWord("true") && FalseWord("false") && NullWord("null")
  {
    SameAsItself("true");
    SameAsItself("false");
    SameAsItself("null");
  }

  lemma EmptyListMeans(lib: Lib)
    ensures TextMeans("[]", List([]), lib)
  {
    assert Join([""], ',') == "";
    assert ListMeans("[]", [], [], lib);
  }

  /** Every writable scalar, and the empty list, has a text that means it. */
  lemma ScalarHasText(v: Value, lib: Lib)
    requires Writable(v, lib) && !v.Map? && (v.List? ==> v.items == [])
    ensures TextMeans(ScalarText(v), v, lib) && PlainText(ScalarText(v))
  {
    NothingIsPlain();
    WordsMean();
    match v
    case Bool(b) => TruthIsPlain(b);
    case Int(i) => IntIsNumber(i); IntIsPlain(i);
    case Str(s) => QuotedIsPlain(s);
    case List(_) => EmptyListMeans(lib);
    case _ =>
  }

  /** A writable key has a text between quotes. */
  lemma KeyHasText(k: string) returns (text: string)
    requires WritableKey(k)
    ensures KeyText(text) && KeyNames(text, k)
  {
    var c := if '"' in k then '\'' else '"';
    text := [c] + k + [c];
    InsideStays(c, k, false);
    QuotedQuiet(c, k);
    QuotedNoColon(c, k);
    assert text[0] == c;
    assert Between(text, [c], k, [c]);
  }

  lemma QuotedNoMatch(c: char, k: string, j: nat)
    requires (c == '"' || c == '\'') && (j > 0 ==> !MatchesAt(k, ": ", j - 1))
    ensures !MatchesAt([c] + k + [c], ": ", j)
  {
    var t := [c] + k + [c];
    if j + 2 <= |t| {
      assert t[j..j + 2][0] == t[j] && t[j..j + 2][1] == t[j + 1];
      if 0 < j && j + 2 < |t| { assert t[j..j + 2] == k[j - 1..j + 1]; }
    }
  }

  lemma QuotedNoColon(c: char, k: string)
    requires (c == '"' || c == '\'') && !Contains(k, ": ")
    ensures !Contains([c] + k + [c], ": ")
  {
    forall j: nat ensures !MatchesAt([c] + k + [c], ": ", j) {
      if j > 0 { NoColonSpace(k, j - 1); }
      QuotedNoMatch(c, k, j);
    }
  }

  lemma NodeExists(v: Value, n: nat, lib: Lib) returns (node: Node)
    requires Writable(v, lib)
    ensures PlainNode(node, n) && WritesValue(node, v, lib)
    decreases v, 1
  {
    if v.Map? {
      var t := TreeExists(v, v.entries.Keys, n + 2, lib);
      assert (map k | k in v.entries.Keys :: v.entries[k]) == v.entries;
      node := Sub(n + 2, t);
    } else if v.List? && v.items != [] {
      forall i | 0 <= i < |v.items|
        ensures TextMeans(ScalarText(v.items[i]), v.items[i], lib) && PlainText(ScalarText(v.items[i]))
      {
        ScalarHasText(v.items[i], lib);
      }
      node := Bullets(n + 2, seq(|v.items|, i requires 0 <= i < |v.items| => ScalarText(v.items[i])));
    } else {
      ScalarHasText(v, lib);
      node := Scalar(ScalarText(v));
    }
  }

  lemma KeyTakenOut(es: map<string, Value>, keys: set<string>, k: string)
    requires keys <= es.Keys && k in keys
    ensures (map x | x in keys :: es[x]) - {k} == map x | x in keys - {k} :: es[x]
  {
  }

  /** The chosen keys of a writable map can be written at any indentation. */
  lemma TreeExists(v: Value, keys: set<string>, n: nat, lib: Lib) returns (t: Tree)
    requires v.Map? && Writable(v, lib) && keys <= v.entries.Keys
    ensures PlainTree(t, n) && Writes(t, map k | k in keys :: v.entries[k], lib)
    ensures keys != {} ==> t != Nil
    decreases v, 0, keys
  {
    if keys == {} {
      t := Nil;
    } else {
      var k :| k in keys;
      var node := NodeExists(v.entries[k], n, lib);
      var rest := TreeExists(v, keys - {k}, n, lib);
      KeyTakenOut(v.entries, keys, k);
      var text := KeyHasText(k);
      t := Key(text, k, node, rest);
    }
  }

  /** Every non-empty writable map has a text, and the text with either kind of line end is read back. */
  lemma EveryMapCanBeWritten(m: map<string, Value>, lib: Lib) returns (raws: seq<string>)
    requires Writable(Map(m), lib)
    ensures raws != []
    ensures ParseText(Join(raws, '\n'), lib) == Ok(Some(m)) == ParseText(JoinCrlf(raws), lib)
  {
    var t := TreeExists(Map(m), m.Keys, 0, lib);
    assert (map k | k in m.Keys :: m[k]) == m;
    var ls := Layout(Compile(t), 0);
    raws := RawLines(ls);
    TreeClean(t, 0);
    RawLinesShow(ls);
    forall i | 0 <= i < |raws|
      ensures OneLine(raws[i])
    {
      RawIsOneLine(ls[i]);
    }
    LineEndsAgree(raws);
    TreeRoundTrip(t, 0, m, raws, Join(raws, '\n'), lib);
    TreeRoundTrip(t, 0, m, raws, JoinCrlf(raws), lib);
  }
}
