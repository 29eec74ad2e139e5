/**
  * The indentation grammar: a sequence of lines is accepted exactly when it is the
  * layout of a well-laid block, and then of the block that the parser returns.
  */
module YamlLayout {
  import opened Wrappers
  import opened Yaml

  function ItemLines(items: seq<string>, indent: nat): (ls: seq<Line>)
    ensures |ls| == |items| && forall i :: 0 <= i < |ls| ==> ls[i] == Line(indent, items[i])
  {
    seq(|items|, i requires 0 <= i < |items| => Line(indent, items[i]))
  }

  /** The lines of a block whose entries stand at this indentation. */
  function Layout(b: Block, indent: nat): seq<Line>
    decreases b
  {
    match b
    case End => []
    case Entry(text, body, rest) => [Line(indent, text)] + LayoutBody(body) + Layout(rest, indent)
  }

  function LayoutBody(body: Body): seq<Line>
    decreases body
  {
    match body
    case Bare => []
    case ListBody(indent, items) => ItemLines(items, indent)
    case MapBody(indent, block) => Layout(block, indent)
  }

  predicate IsEntry(text: string) {
    !IsItem(text) && SplitKV(text).Some?
  }

  /** Bodies are non-empty, further in than their entry, and only below entries without a rest. */
  predicate WellLaid(b: Block, indent: nat)
    decreases b
  {
    match b
    case End => true
    case Entry(text, body, rest) =>
      IsEntry(text) && WellLaidBody(body, indent, SplitKV(text).value.1) && WellLaid(rest, indent)
  }

  predicate WellLaidBody(body: Body, indent: nat, rest: string)
    decreases body
  {
    match body
    case Bare => true
    case ListBody(m, items) => rest == "" && m > indent && items != [] && forall i :: 0 <= i < |items| ==> IsItem(items[i])
    case MapBody(m, block) => rest == "" && m > indent && block != End && WellLaid(block, m)
  }

  predicate StartsLeftOf(ls: seq<Line>, indent: nat) {
    ls == [] || ls[0].indent < indent
  }

  // ----- every layout is parsed -----

  lemma {:induction false} ItemsCounted(items: seq<string>, m: nat, tail: seq<Line>)
    requires forall i :: 0 <= i < |items| ==> IsItem(items[i])
    requires StartsLeftOf(tail, m)
    ensures ItemTexts(ItemLines(items, m) + tail, m) == items
    decreases |items|
  {
    var ls := ItemLines(items, m) + tail;
    if items == [] {
      assert ls == tail;
    } else {
      ItemsCounted(items[1..], m, tail);
      assert ls[1..] == ItemLines(items[1..], m) + tail;
      assert items == [items[0]] + items[1..];
    }
  }

  /** A well-laid block is parsed from its layout, whatever comes further left behind it. */
  lemma {:induction false} LayoutParses(b: Block, indent: nat, tail: seq<Line>)
    requires WellLaid(b, indent) && StartsLeftOf(tail, indent)
    ensures MapFrom(Layout(b, indent) + tail, indent) == Ok((b, tail))
    decreases b
  {
    match b
    case End =>
      assert Layout(b, indent) + tail == tail;
    case Entry(text, body, rest) =>
      var after := Layout(rest, indent) + tail;
      EntryLines(text, body, rest, indent, tail);
      LayoutParses(rest, indent, tail);
      RestStarts(rest, indent, tail);
      BodyParses(body, indent, SplitKV(text).value.1, after);
      MapFromEntry(Layout(b, indent) + tail, indent);
  }

  lemma EntryLines(text: string, body: Body, rest: Block, indent: nat, tail: seq<Line>)
    ensures var ls := Layout(Entry(text, body, rest), indent) + tail;
            ls != [] && ls[0] == Line(indent, text) && ls[1..] == LayoutBody(body) + (Layout(rest, indent) + tail)
  {
    var ls := Layout(Entry(text, body, rest), indent) + tail;
    assert ls == [Line(indent, text)] + (LayoutBody(body) + (Layout(rest, indent) + tail));
  }

  lemma RestStarts(rest: Block, indent: nat, tail: seq<Line>)
    requires StartsLeftOf(tail, indent)
    ensures StartsLeftOf(Layout(rest, indent) + tail, indent + 1)
  {
    if rest == End { assert Layout(rest, indent) + tail == tail; }
  }

  lemma {:induction false} BodyParses(body: Body, indent: nat, rest: string, after: seq<Line>)
    requires WellLaidBody(body, indent, rest) && StartsLeftOf(after, indent + 1)
    ensures BodyFrom(LayoutBody(body) + after, indent, rest) == Ok((body, after))
    decreases body
  {
    var ls := LayoutBody(body) + after;
    match body
    case Bare =>
      assert ls == after;
    case ListBody(m, items) =>
      ItemsCounted(items, m, after);
      assert ls[|items|..] == after;
    case MapBody(m, block) =>
      LayoutParses(block, m, after);
      assert ls[0] == Line(m, block.text);
  }

  // ----- and nothing else -----

  lemma {:induction false} ItemsAreLaid(ls: seq<Line>, m: nat)
    ensures var texts := ItemTexts(ls, m);
            && ls == ItemLines(texts, m) + ls[|texts|..]
            && forall i :: 0 <= i < |texts| ==> IsItem(texts[i])
    decreases |ls|
  {
    if ls != [] && ls[0].indent == m && IsItem(ls[0].text) {
      ItemsAreLaid(ls[1..], m);
      var texts := ItemTexts(ls, m);
      assert ls == [ls[0]] + ls[1..];
      assert ItemLines(texts, m) == [Line(m, ls[0].text)] + ItemLines(texts[1..], m);
      assert ls[1..][|texts[1..]|..] == ls[|texts|..];
    }
  }

  /** Parsing uses up exactly the layout of the block it returns. */
  lemma {:induction false} ParseIsLaid(ls: seq<Line>, indent: nat)
    requires MapFrom(ls, indent).Ok?
    ensures var (b, tail) := MapFrom(ls, indent).value; WellLaid(b, indent) && ls == Layout(b, indent) + tail
    decreases |ls|, 0
  {
    if ls == [] || ls[0].indent < indent || IsItem(ls[0].text) {
      assert [] + ls == ls;
    } else {
      MapFromEntry(ls, indent);
      var kv := SplitKV(ls[0].text).value;
      var (body, after) := BodyFrom(ls[1..], indent, kv.1).value;
      BodyIsLaid(ls[1..], indent, kv.1);
      ParseIsLaid(after, indent);
      var (rest, tail) := MapFrom(after, indent).value;
      EntryIsLaid(ls, indent, body, after, rest, tail);
    }
  }

  lemma EntryIsLaid(ls: seq<Line>, indent: nat, body: Body, after: seq<Line>, rest: Block, tail: seq<Line>)
    requires ls != [] && ls[0].indent == indent && ls[1..] == LayoutBody(body) + after && after == Layout(rest, indent) + tail
    ensures ls == Layout(Entry(ls[0].text, body, rest), indent) + tail
  {
    assert ls == [ls[0]] + ls[1..];
    assert ls[0] == Line(indent, ls[0].text);
  }

  lemma {:induction false} BodyIsLaid(ls: seq<Line>, indent: nat, rest: string)
    requires BodyFrom(ls, indent, rest).Ok?
    ensures var (body, tail) := BodyFrom(ls, indent, rest).value;
            WellLaidBody(body, indent, rest) && ls == LayoutBody(body) + tail
    decreases |ls|, 1
  {
    if rest != "" || ls == [] || ls[0].indent <= indent {
      assert [] + ls == ls;
    } else if IsItem(ls[0].text) {
      ItemsAreLaid(ls, ls[0].indent);
    } else {
      var m := ls[0].indent;
      ParseIsLaid(ls, m);
      assert MapFrom(ls, m).value.0 != End by { NotEnd(ls, m); }
    }
  }

  lemma NotEnd(ls: seq<Line>, m: nat)
    requires ls != [] && ls[0].indent == m && !IsItem(ls[0].text) && MapFrom(ls, m).Ok?
    ensures MapFrom(ls, m).value.0 != End
  {
  }

  /**
    * The lines are accepted as a block exactly when they are its layout: every line is used
    * once, every dedent returns to an open level, and no lines have two readings.
    */
  lemma AcceptedIffLaid(ls: seq<Line>, b: Block)
    requires ls != []
    ensures ParseBlock(ls) == Ok(b) <==> WellLaid(b, ls[0].indent) && ls == Layout(b, ls[0].indent)
  {
    var n := ls[0].indent;
    if ParseBlock(ls) == Ok(b) {
      ParseIsLaid(ls, n);
      assert Layout(b, n) + [] == Layout(b, n);
    }
    if WellLaid(b, n) && ls == Layout(b, n) {
      LayoutParses(b, n, []);
      assert ls + [] == ls;
    }
  }

  /** So a block laid out twice is one block. */
  lemma LayoutInjective(a: Block, b: Block, indent: nat)
    requires WellLaid(a, indent) && WellLaid(b, indent) && Layout(a, indent) == Layout(b, indent)
    ensures a == b
  {
    var ls := Layout(a, indent);
    if ls != [] {
      AcceptedIffLaid(ls, a);
      AcceptedIffLaid(ls, b);
    }
  }
}
