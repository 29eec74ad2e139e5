/** Small documents, told from their text: one entry, two entries at any two indentations, and what is refused. */
module YamlDocuments {
  import opened Wrappers
  import opened Text
  import opened Letters
  import opened Yaml
  import opened YamlLayout
  import opened YamlLines
  import opened YamlScalars
  import opened YamlRoundTrip

  // ----- comments -----

  ghost predicate NoQuotes(s: string) {
    forall i :: 0 <= i < |s| ==> s[i] !in {'\'', '"'}
  }

  /** A hash at the start or behind a space or a tab. */
  ghost predicate CommentAt(s: string, i: nat) {
    i < |s| && s[i] == '#' && (i == 0 || s[i - 1] in {' ', '\t'})
  }

  lemma {:induction false} CutAtHash(s: string, i: nat, f: bool)
    requires NoQuotes(s) && i <= |s| && f == (i == 0 || s[i - 1] in {' ', '\t'})
    ensures var n := i + Cut(s[i..], f, Out);
            && n <= |s| && (n < |s| ==> CommentAt(s, n)) && (forall j :: i <= j < n ==> !CommentAt(s, j))
            && QuoteAfter(s[i..], Out) == Out
    decreases |s| - i
  {
    if i < |s| {
      assert s[i..][1..] == s[i + 1..];
      CutAtHash(s, i + 1, IsBlank(s[i]));
    }
  }

  /** In a line without quotes the comment starts at the first such hash and goes to the end; without one there is none. */
  lemma CommentExactly(s: string)
    requires NoQuotes(s)
    ensures Quiet(s) <==> forall i: nat :: !CommentAt(s, i)
    ensures forall i: nat :: CommentAt(s, i) && (forall j: nat :: j < i ==> !CommentAt(s, j)) ==> Cut(s, true, Out) == i
  {
    assert s[0..] == s;
    CutAtHash(s, 0, true);
    forall i: nat | CommentAt(s, i) && (forall j: nat :: j < i ==> !CommentAt(s, j))
      ensures Cut(s, true, Out) == i
    {
    }
  }

  /** Between quotes there are no comments: any text without that quote is quiet between two of them. */
  lemma QuotesHideHashes(x: string)
    ensures '"' !in x ==> Quiet("\"" + x + "\"")
    ensures '\'' !in x ==> Quiet("'" + x + "'")
  {
    if '"' !in x {
      InsideStays('"', x, false);
      QuotedQuiet('"', x);
    }
    if '\'' !in x {
      InsideStays('\'', x, false);
      QuotedQuiet('\'', x);
    }
  }

  // ----- one entry -----

  function Raw(line: Line): string {
    Pad(line.indent) + line.text
  }

  lemma RawReads(line: Line)
    requires LineText(line.text)
    ensures OneLine(Raw(line)) && ReadRaw(Raw(line)) == Ok(Some(line))
  {
    RawIsOneLine(line);
    RawLineShows(line);
    ShownIsRead(Raw(line), line);
  }

  lemma ReadOne(a: string, l: Line)
    requires ReadRaw(a) == Ok(Some(l))
    ensures ReadLines([a]) == Ok([l])
  {
    assert [a][1..] == [];
    ReadFirst([a], Some(l), []);
    assert [l] + [] == [l];
  }

  lemma ReadTwo(a: string, b: string, l1: Line, l2: Line)
    requires ReadRaw(a) == Ok(Some(l1)) && ReadRaw(b) == Ok(Some(l2))
    ensures ReadLines([a, b]) == Ok([l1, l2])
  {
    ReadOne(b, l2);
    assert [a, b][1..] == [b];
    ReadFirst([a, b], Some(l1), [l2]);
    assert [l1] + [l2] == [l1, l2];
  }

  lemma OneLineSplit(a: string)
    requires OneLine(a)
    ensures Split(Crlf(a), '\n') == [a]
  {
    CrlfConcat(a, "");
    assert a + "" == a;
    SplitNone(a, '\n');
  }

  lemma OneLineDocument(line: Line)
    requires LineText(line.text)
    ensures ReadLines(Split(Crlf(Raw(line)), '\n')) == Ok([line])
  {
    RawReads(line);
    OneLineSplit(Raw(line));
    ReadOne(Raw(line), line);
  }

  /** One entry is the map of its name to what its text means, at any indentation. */
  lemma EntryReads(n: nat, k: string, name: string, t: string, v: Value, lib: Lib)
    requires KeyText(k) && KeyNames(k, name) && PlainText(t) && TextMeans(t, v, lib)
    ensures ParseText(Pad(n) + (k + ": " + t), lib) == Ok(Some(map[name := v]))
  {
    var node := Node.Scalar(t);
    var line := Line(n, k + ": " + t);
    KeyLineClean(k, node);
    OneLineDocument(line);
    EntryDenotes(n, k, name, t, v, lib);
  }

  lemma EntryLineKind(k: string, t: string)
    requires KeyText(k) && PlainText(t)
    ensures !IsItem(k + ": " + t)
  {
    KeyLineSplits(k, Node.Scalar(t));
  }

  lemma EntryDenotes(n: nat, k: string, name: string, t: string, v: Value, lib: Lib)
    requires KeyText(k) && KeyNames(k, name) && PlainText(t) && TextMeans(t, v, lib)
    ensures ParseBlock([Line(n, k + ": " + t)]) == Ok(Entry(k + ": " + t, Bare, End))
    ensures Denote(Entry(k + ": " + t, Bare, End), map[], lib) == map[name := v]
  {
    EntryLineKind(k, t);
    EntrySplits(k, name, t);
    TextReads(t, v, lib);
    MapFromEntry([Line(n, k + ": " + t)], n);
    DenoteEntry(k + ": " + t, Bare, End, map[], lib);
  }

  /** A value between double quotes: decoded by the library, or as it stands. */
  lemma DoubleQuotedEntry(n: nat, k: string, name: string, x: string, lib: Lib)
    requires KeyText(k) && KeyNames(k, name) && '"' !in x && '\n' !in x
    ensures var t := "\"" + x + "\"";
            ParseText(Pad(n) + (k + ": " + t), lib)
            == Ok(Some(map[name := Str(match lib.json(t) case Some(s) => s case None => x)]))
  {
    var t := "\"" + x + "\"";
    var s := match lib.json(t) case Some(s) => s case None => x;
    QuotesHideHashes(x);
    assert Between(t, "\"", x, "\"");
    assert DecodesTo(t, s, lib);
    EntryReads(n, k, name, t, Str(s), lib);
  }

  // ----- two entries -----

  lemma TwoLineDocument(l1: Line, l2: Line)
    requires LineText(l1.text) && LineText(l2.text)
    ensures ReadLines(Split(Crlf(Raw(l1) + "\n" + Raw(l2)), '\n')) == Ok([l1, l2])
  {
    RawReads(l1);
    RawReads(l2);
    TwoLinesSplit(Raw(l1), Raw(l2));
    ReadTwo(Raw(l1), Raw(l2), l1, l2);
  }

  lemma TwoLinesSplit(a: string, b: string)
    requires OneLine(a) && OneLine(b)
    ensures Split(Crlf(a + "\n" + b), '\n') == [a, b]
  {
    CrlfConcat(b, "");
    assert b + "" == b;
    CrlfConcat(a, "\n" + b);
    assert a + "\n" + b == a + ("\n" + b);
    assert ("\n" + b)[1..] == b;
    SplitConcat(a, b, '\n');
    SplitNone(a, '\n');
    SplitNone(b, '\n');
  }

  lemma TwoBlocks(n1: nat, e1: string, n2: nat, e2: string)
    requires IsEntry(e1) && SplitKV(e1).value.1 != "" && IsEntry(e2) && SplitKV(e2).value.1 != ""
    ensures ParseBlock([Line(n1, e1), Line(n2, e2)])
            == if n2 > n1 then Err(BadIndentation)
               else if n2 < n1 then Err(UnexpectedContent)
               else Ok(Entry(e1, Bare, Entry(e2, Bare, End)))
  {
    var ls := [Line(n1, e1), Line(n2, e2)];
    assert ls[1..] == [Line(n2, e2)];
    MapFromEntry(ls, n1);
    if n1 == n2 {
      MapFromEntry(ls[1..], n1);
      assert ls[1..][1..] == [];
    }
  }

  /** Two entries at one indentation are both read, the second one winning if they have one name; an entry further in
    * than the one above it, which has a value, or further out than the first one, is refused. */
  lemma TwoEntries(n1: nat, k1: string, name1: string, t1: string, v1: Value,
                   n2: nat, k2: string, name2: string, t2: string, v2: Value, lib: Lib)
    requires KeyText(k1) && KeyNames(k1, name1) && PlainText(t1) && TextMeans(t1, v1, lib)
    requires KeyText(k2) && KeyNames(k2, name2) && PlainText(t2) && TextMeans(t2, v2, lib)
    ensures ParseText(Pad(n1) + (k1 + ": " + t1) + "\n" + (Pad(n2) + (k2 + ": " + t2)), lib)
            == if n2 > n1 then Err(BadIndentation)
               else if n2 < n1 then Err(UnexpectedContent)
               else Ok(Some(map[name1 := v1][name2 := v2]))
  {
    var e1, e2 := k1 + ": " + t1, k2 + ": " + t2;
    KeyLineClean(k1, Node.Scalar(t1));
    KeyLineClean(k2, Node.Scalar(t2));
    TwoLineDocument(Line(n1, e1), Line(n2, e2));
    EntryLineKind(k1, t1);
    EntryLineKind(k2, t2);
    EntrySplits(k1, name1, t1);
    EntrySplits(k2, name2, t2);
    TwoBlocks(n1, e1, n2, e2);
    TextReads(t1, v1, lib);
    TextReads(t2, v2, lib);
    DenoteEntry(e1, Bare, Entry(e2, Bare, End), map[], lib);
    DenoteEntry(e2, Bare, End, map[name1 := v1], lib);
  }

  // ----- what is refused or empty -----

  /** A line that is no item and has neither a colon at its end nor a colon with a space behind it is refused. */
  lemma NoColonRefused(n: nat, t: string, lib: Lib)
    requires LineText(t) && t != "-" && !("- " <= t) && t[|t| - 1] != ':' && forall j: nat :: !MatchesAt(t, ": ", j)
    ensures ParseText(Pad(n) + t, lib) == Err(NoKeyValue)
  {
    OneLineDocument(Line(n, t));
  }

  /** A tab behind the leading spaces of a line with text is refused. */
  lemma TabRefused(n: nat, t: string, lib: Lib)
    requires LineText(t)
    ensures ParseText(Pad(n) + "\t" + t, lib) == Err(TabIndentation)
  {
    OneLineSplit(Pad(n) + "\t" + t);
    TabRaw(n, t);
    assert ReadLines([Pad(n) + "\t" + t]) == Err(TabIndentation);
  }

  lemma TabRaw(n: nat, t: string)
    requires LineText(t)
    ensures ReadRaw(Pad(n) + "\t" + t) == Err(TabIndentation)
  {
    var lead := Pad(n) + "\t";
    var data := lead + t;
    TabStripped(n, t);
    TrimBlanks(lead, t, "");
    assert data + "" == data;
    SpacesCounted(n, "\t" + t);
    assert Pad(n) + ("\t" + t) == data;
  }

  lemma TabStripped(n: nat, t: string)
    requires LineText(t)
    ensures var data := Pad(n) + "\t" + t; Stripped(data) == data
  {
    var lead := Pad(n) + "\t";
    QuietBehindBlanks(lead, t);
    TextEnds(lead + t);
  }

  /** A document of blank lines, comments and markers is empty. */
  lemma {:induction false} NoiseIsEmpty(raws: seq<string>)
    requires forall i :: 0 <= i < |raws| ==> Noise(raws[i])
    ensures ReadLines(raws) == Ok([])
    decreases |raws|
  {
    if raws != [] {
      NoiseIsSkipped(raws[0]);
      NoiseIsEmpty(raws[1..]);
      ReadFirst(raws, None, []);
    }
  }

  lemma EmptyDocument(raws: seq<string>, data: string, lib: Lib)
    requires raws != [] && Without(raws, '\n') && Crlf(data) == Join(raws, '\n')
    requires forall i :: 0 <= i < |raws| ==> Noise(raws[i])
    ensures ParseText(data, lib) == Ok(None)
  {
    SplitJoin(raws, '\n');
    NoiseIsEmpty(raws);
  }

  /** A dash alone is an item without a value: it is skipped wherever it stands. */
  lemma {:induction false} DashSkipped(before: seq<string>, after: seq<string>, lib: Lib)
    ensures IsItem("-") && ItemValues(before + ["-"] + after, lib) == ItemValues(before, lib) + ItemValues(after, lib)
    decreases |before|
  {
    var all := before + ["-"] + after;
    if before == [] {
      assert all[1..] == after;
      assert "-"[1..] == "";
    } else {
      assert all[1..] == before[1..] + ["-"] + after;
      DashSkipped(before[1..], after, lib);
      ItemsAppend(before, lib, ItemValues(after, lib));
    }
  }

  lemma ItemsAppend(before: seq<string>, lib: Lib, rest: seq<Value>)
    requires before != []
    ensures var item := ItemText(before[0]);
            (if item == "" then [] else [ParseScalar(item, lib)]) + (ItemValues(before[1..], lib) + rest)
            == ItemValues(before, lib) + rest
  {
  }
}
