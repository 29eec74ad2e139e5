/** The YAML subset of internal/yamlmin/yamlmin.go: lines, the indentation parser and scalars. */
module Yaml {
  import opened Wrappers
  import opened Text

  datatype YamlError = TabIndentation | BadIndentation | NoKeyValue | UnexpectedContent

  datatype Line = Line(indent: nat, text: string)

  /** A block list without items is a nil slice, an inline one an empty slice. */
  datatype Value = Null | Bool(b: bool) | Int(i: int) | Float(text: string) | Str(s: string)
                 | NilList | List(items: seq<Value>) | Map(entries: map<string, Value>)

  /** What the parser takes from the Go library: JSON string decoding and the syntax of floats. */
  datatype Lib = Lib(json: string -> Option<string>, float: string -> bool)

  // ----- raw lines -----

  function Crlf(s: string): string {
    if s == "" then ""
    else if |s| >= 2 && s[0] == '\r' && s[1] == '\n' then "\n" + Crlf(s[2..])
    else [s[0]] + Crlf(s[1..])
  }

  predicate IsBlank(c: char) {
    c == ' ' || c == '\t'
  }

  function TrimBlankRight(s: string): string {
    if s != "" && IsBlank(s[|s| - 1]) then TrimBlankRight(s[..|s| - 1]) else s
  }

  datatype Quote = Out | Single | Double

  function NextQuote(q: Quote, c: char): Quote {
    if c == '\'' && q != Double then (if q == Single then Out else Single)
    else if c == '"' && q != Single then (if q == Double then Out else Double)
    else q
  }

  /** Where the comment starts: a hash outside quotes, at the start or behind a blank. */
  function Cut(s: string, afterBlank: bool, q: Quote): (n: nat)
    ensures n <= |s|
  {
    if s == "" || (s[0] == '#' && q == Out && afterBlank) then 0
    else 1 + Cut(s[1..], IsBlank(s[0]), NextQuote(q, s[0]))
  }

  method StripComment(s: string) returns (r: string)
    ensures r == s[..Cut(s, true, Out)]
  {
    var inS, inD := false, false;
    var i := 0;
    assert s[0..] == s;
    while i < |s|
      invariant 0 <= i <= |s| && !(inS && inD)
      invariant Cut(s, true, Out)
             == i + Cut(s[i..], i == 0 || IsBlank(s[i - 1]), if inS then Single else if inD then Double else Out)
    {
      assert s[i..][1..] == s[i + 1..];
      if s[i] == '\'' {
        if !inD { inS := !inS; }
      } else if s[i] == '"' {
        if !inS { inD := !inD; }
      } else if s[i] == '#' {
        if !inS && !inD && (i == 0 || IsBlank(s[i - 1])) { return s[..i]; }
      }
      i := i + 1;
    }
    r := s;
  }

  function Spaces(s: string): (n: nat)
    ensures n <= |s| && (n < |s| ==> s[n] != ' ') && forall i :: 0 <= i < n ==> s[i] == ' '
  {
    if s == "" || s[0] != ' ' then 0 else 1 + Spaces(s[1..])
  }

  /** The line that a raw line stands for, if any. */
  function ReadRaw(raw: string): Result<Option<Line>, YamlError> {
    var trimmed := TrimBlankRight(raw);
    var stripped := trimmed[..Cut(trimmed, true, Out)];
    var text := TrimSpace(stripped);
    if text == "" || text == "---" then Ok(None)
    else
      var n := Spaces(stripped);
      if n < |stripped| && stripped[n] == '\t' then Err(TabIndentation) else Ok(Some(Line(n, text)))
  }

  function ReadLines(raws: seq<string>): Result<seq<Line>, YamlError>
    decreases |raws|
  {
    if raws == [] then Ok([])
    else
      var first := ReadRaw(raws[0]);
      if first.Err? then Err(first.error)
      else
        var rest := ReadLines(raws[1..]);
        if rest.Err? then rest
        else if first.value.None? then rest
        else Ok([first.value.value] + rest.value)
  }

  // ----- keys and items -----

  predicate IsItem(text: string) {
    "- " <= text || text == "-"
  }

  function Unquote(k: string): string {
    if |k| >= 2 && ((k[0] == '"' && k[|k| - 1] == '"') || (k[0] == '\'' && k[|k| - 1] == '\'')) then k[1..|k| - 1] else k
  }

  /** Key and rest of a "key: rest" or "key:" line. */
  function SplitKV(s: string): Option<(string, string)> {
    if HasSuffix(s, ":") && !Contains(s[..|s| - 1], ": ") then Some((Unquote(TrimSpace(s[..|s| - 1])), ""))
    else
      var at := Index(s, ": ");
      if at < 0 then None else Some((Unquote(TrimSpace(s[..at])), TrimSpace(s[at + 2..])))
  }

  function ItemText(text: string): string {
    TrimSpace(if "-" <= text then text[1..] else text)
  }

  // ----- scalars -----

  /** Every doubled single quote stands for one. */
  function Undouble(s: string): string {
    if s == "" then ""
    else if "''" <= s then "'" + Undouble(s[2..])
    else [s[0]] + Undouble(s[1..])
  }

  predicate Enclosed(s: string, open: char, close: char) {
    |s| >= 2 && s[0] == open && s[|s| - 1] == close
  }

  function Word(s: string): Option<Value> {
    var w := Lower(s);
    if w == "true" || w == "yes" || w == "on" then Some(Bool(true))
    else if w == "false" || w == "no" || w == "off" then Some(Bool(false))
    else if w == "null" || w == "~" then Some(Null)
    else None
  }

  function PlainScalar(s: string, lib: Lib): Value {
    if Enclosed(s, '"', '"') then
      var str := lib.json(s);
      Str(if str.Some? then str.value else s[1..|s| - 1])
    else if Enclosed(s, '\'', '\'') then Str(Undouble(s[1..|s| - 1]))
    else if Word(s).Some? then Word(s).value
    else if Atoi(s).Some? then Int(Atoi(s).value)
    else if lib.float(s) then Float(s)
    else Str(s)
  }

  function ParseScalar(text: string, lib: Lib): Value
    decreases |text|
  {
    var s := TrimSpace(text);
    if s == "" then Null
    else if Enclosed(s, '[', ']') then
      var inner := TrimSpace(s[1..|s| - 1]);
      if inner == "" then List([])
      else
        var parts := Split(inner, ',');
        PieceLengths(inner, ',');
        List(seq(|parts|, i requires 0 <= i < |parts| => ParseScalar(TrimSpace(parts[i]), lib)))
    else PlainScalar(s, lib)
  }

  method ReadScalar(text: string, lib: Lib) returns (v: Value)
    ensures v == ParseScalar(text, lib)
    decreases |text|
  {
    var s := TrimSpace(text);
    if s == "" { return Null; }
    if !Enclosed(s, '[', ']') { return PlainScalar(s, lib); }
    var inner := TrimSpace(s[1..|s| - 1]);
    if inner == "" { return List([]); }
    var parts := Split(inner, ',');
    PieceLengths(inner, ',');
    var out: seq<Value> := [];
    for i := 0 to |parts|
      invariant |out| == i && forall j :: 0 <= j < i ==> out[j] == ParseScalar(TrimSpace(parts[j]), lib)
    {
      var part := ReadScalar(TrimSpace(parts[i]), lib);
      out := out + [part];
    }
    v := List(out);
  }

  // ----- the concrete syntax -----

  /** A block map: its entry lines in order, each with what is laid out below it. */
  datatype Block = End | Entry(text: string, body: Body, rest: Block)

  datatype Body = Bare | ListBody(indent: nat, items: seq<string>) | MapBody(indent: nat, block: Block)

  /** The leading item lines at one indentation. */
  function ItemTexts(ls: seq<Line>, indent: nat): (texts: seq<string>)
    ensures |texts| <= |ls|
    decreases |ls|
  {
    if ls == [] || ls[0].indent != indent || !IsItem(ls[0].text) then []
    else [ls[0].text] + ItemTexts(ls[1..], indent)
  }

  /** The block map that starts the lines, and the lines behind it. */
  function MapFrom(ls: seq<Line>, indent: nat): (r: Result<(Block, seq<Line>), YamlError>)
    ensures r.Ok? ==> |r.value.1| <= |ls|
    decreases |ls|, 0
  {
    if ls == [] || ls[0].indent < indent then Ok((End, ls))
    else if ls[0].indent > indent then Err(BadIndentation)
    else if IsItem(ls[0].text) then Ok((End, ls))
    else
      var kv := SplitKV(ls[0].text);
      if kv.None? then Err(NoKeyValue)
      else
        var body := BodyFrom(ls[1..], indent, kv.value.1);
        if body.Err? then Err(body.error)
        else
          var rest := MapFrom(body.value.1, indent);
          if rest.Err? then Err(rest.error)
          else Ok((Entry(ls[0].text, body.value.0, rest.value.0), rest.value.1))
  }

  /** What is laid out below an entry whose own line has this rest. */
  function BodyFrom(ls: seq<Line>, indent: nat, rest: string): (r: Result<(Body, seq<Line>), YamlError>)
    ensures r.Ok? ==> |r.value.1| <= |ls|
    decreases |ls|, 1
  {
    if rest != "" || ls == [] || ls[0].indent <= indent then Ok((Bare, ls))
    else if IsItem(ls[0].text) then
      var texts := ItemTexts(ls, ls[0].indent);
      Ok((ListBody(ls[0].indent, texts), ls[|texts|..]))
    else
      var m := MapFrom(ls, ls[0].indent);
      if m.Err? then Err(m.error) else Ok((MapBody(ls[0].indent, m.value.0), m.value.1))
  }

  // ----- what it denotes -----

  /** Items without text are dropped. */
  function ItemValues(texts: seq<string>, lib: Lib): seq<Value> {
    if texts == [] then []
    else
      var item := ItemText(texts[0]);
      (if item == "" then [] else [ParseScalar(item, lib)]) + ItemValues(texts[1..], lib)
  }

  function ListValue(items: seq<Value>): Value {
    if items == [] then NilList else List(items)
  }

  /** Later entries with the same key replace earlier ones. */
  function Denote(b: Block, acc: map<string, Value>, lib: Lib): map<string, Value>
    decreases b
  {
    match b
    case End => acc
    case Entry(text, body, rest) =>
      var kv := SplitKV(text);
      if kv.None? then acc
      else Denote(rest, acc[kv.value.0 := BodyValue(kv.value.1, body, lib)], lib)
  }

  function BodyValue(rest: string, body: Body, lib: Lib): Value
    decreases body
  {
    if rest != "" then ParseScalar(rest, lib)
    else
      match body
      case Bare => Null
      case ListBody(_, items) => ListValue(ItemValues(items, lib))
      case MapBody(_, block) => Map(Denote(block, map[], lib))
  }

  // ----- the parser -----

  /** The whole input as one block map at the indentation of its first line. */
  function ParseBlock(ls: seq<Line>): Result<Block, YamlError>
    requires ls != []
  {
    var m := MapFrom(ls, ls[0].indent);
    if m.Err? then Err(m.error)
    else if m.value.1 != [] then Err(UnexpectedContent)
    else Ok(m.value.0)
  }

  function ParseText(data: string, lib: Lib): Result<Option<map<string, Value>>, YamlError> {
    var ls := ReadLines(Split(Crlf(data), '\n'));
    if ls.Err? then Err(ls.error)
    else if ls.value == [] then Ok(None)
    else
      var b := ParseBlock(ls.value);
      if b.Err? then Err(b.error) else Ok(Some(Denote(b.value, map[], lib)))
  }

  /** What parsing a block map on top of acc yields: the map and the lines left over. */
  function Outcome(ls: seq<Line>, indent: nat, acc: map<string, Value>, lib: Lib): Result<(map<string, Value>, seq<Line>), YamlError> {
    var r := MapFrom(ls, indent);
    if r.Err? then Err(r.error) else Ok((Denote(r.value.0, acc, lib), r.value.1))
  }

  lemma MapFromEntry(ls: seq<Line>, n: nat)
    requires ls != [] && ls[0].indent == n && !IsItem(ls[0].text) && SplitKV(ls[0].text).Some?
    ensures var body := BodyFrom(ls[1..], n, SplitKV(ls[0].text).value.1);
            MapFrom(ls, n) == if body.Err? then Err(body.error) else
                                var rest := MapFrom(body.value.1, n);
                                if rest.Err? then Err(rest.error)
                                else Ok((Entry(ls[0].text, body.value.0, rest.value.0), rest.value.1))
  {
  }

  lemma DenoteEntry(text: string, body: Body, rest: Block, acc: map<string, Value>, lib: Lib)
    requires SplitKV(text).Some?
    ensures var kv := SplitKV(text).value;
            Denote(Entry(text, body, rest), acc, lib) == Denote(rest, acc[kv.0 := BodyValue(kv.1, body, lib)], lib)
  {
  }

  /** An entry line is worth its value, then the lines below it go on. */
  lemma OutcomeEntry(ls: seq<Line>, n: nat, acc: map<string, Value>, lib: Lib)
    requires ls != [] && ls[0].indent == n && !IsItem(ls[0].text) && SplitKV(ls[0].text).Some?
    ensures var kv := SplitKV(ls[0].text).value; var body := BodyFrom(ls[1..], n, kv.1);
            && (body.Err? ==> Outcome(ls, n, acc, lib) == Err(body.error))
            && (body.Ok? ==> Outcome(ls, n, acc, lib)
                             == Outcome(body.value.1, n, acc[kv.0 := BodyValue(kv.1, body.value.0, lib)], lib))
  {
    MapFromEntry(ls, n);
    var body := BodyFrom(ls[1..], n, SplitKV(ls[0].text).value.1);
    if body.Ok? && MapFrom(body.value.1, n).Ok? {
      DenoteEntry(ls[0].text, body.value.0, MapFrom(body.value.1, n).value.0, acc, lib);
    }
  }

  lemma OutcomeStops(ls: seq<Line>, n: nat, acc: map<string, Value>, lib: Lib)
    requires ls == [] || ls[0].indent < n || (ls[0].indent == n && IsItem(ls[0].text))
    ensures Outcome(ls, n, acc, lib) == Ok((acc, ls))
  {
  }

  lemma OutcomeFails(ls: seq<Line>, n: nat, acc: map<string, Value>, lib: Lib)
    requires ls != [] && ls[0].indent >= n
    ensures ls[0].indent > n ==> Outcome(ls, n, acc, lib) == Err(BadIndentation)
    ensures ls[0].indent == n && !IsItem(ls[0].text) && SplitKV(ls[0].text).None? ==> Outcome(ls, n, acc, lib) == Err(NoKeyValue)
  {
  }

  /** The values of the leading items. */
  function Items(ls: seq<Line>, indent: nat, lib: Lib): seq<Value> {
    ItemValues(ItemTexts(ls, indent), lib)
  }

  lemma ItemsStep(ls: seq<Line>, indent: nat, lib: Lib)
    requires ls != [] && ls[0].indent == indent && IsItem(ls[0].text)
    ensures var item := ItemText(ls[0].text);
            Items(ls, indent, lib) == (if item == "" then [] else [ParseScalar(item, lib)]) + Items(ls[1..], indent, lib)
    ensures |ItemTexts(ls, indent)| == 1 + |ItemTexts(ls[1..], indent)|
  {
    assert ItemTexts(ls, indent)[1..] == ItemTexts(ls[1..], indent);
  }

  lemma ItemsStop(ls: seq<Line>, indent: nat, lib: Lib)
    requires ls == [] || ls[0].indent != indent || !IsItem(ls[0].text)
    ensures ItemTexts(ls, indent) == [] && Items(ls, indent, lib) == []
  {
  }

  /** The value below an entry and the lines behind it. */
  function Below(ls: seq<Line>, indent: nat, lib: Lib): Result<(Value, seq<Line>), YamlError> {
    var body := BodyFrom(ls, indent, "");
    if body.Err? then Err(body.error) else Ok((BodyValue("", body.value.0, lib), body.value.1))
  }

  lemma BelowNothing(ls: seq<Line>, indent: nat, lib: Lib)
    requires ls == [] || ls[0].indent <= indent
    ensures Below(ls, indent, lib) == Ok((Null, ls))
  {
  }

  lemma BelowList(ls: seq<Line>, indent: nat, lib: Lib)
    requires ls != [] && ls[0].indent > indent && IsItem(ls[0].text)
    ensures Below(ls, indent, lib) == Ok((ListValue(Items(ls, ls[0].indent, lib)), ls[|ItemTexts(ls, ls[0].indent)|..]))
  {
  }

  lemma BelowMap(ls: seq<Line>, indent: nat, lib: Lib)
    requires ls != [] && ls[0].indent > indent && !IsItem(ls[0].text)
    ensures Below(ls, indent, lib) == var o := Outcome(ls, ls[0].indent, map[], lib);
                                      if o.Err? then Err(o.error) else Ok((Map(o.value.0), o.value.1))
  {
    var m := MapFrom(ls, ls[0].indent);
    assert BodyFrom(ls, indent, "") == if m.Err? then Err(m.error) else Ok((MapBody(ls[0].indent, m.value.0), m.value.1));
  }

  /** out holds the values of the items taken from the start, and ls is what is left. */
  ghost predicate Taken(start: seq<Line>, ls: seq<Line>, n: nat, out: seq<Value>, indent: nat, lib: Lib) {
    && |ItemTexts(start, indent)| == n + |ItemTexts(ls, indent)|
    && Items(start, indent, lib) == out + Items(ls, indent, lib)
  }

  lemma Regroup(a: seq<Value>, b: seq<Value>, c: seq<Value>)
    ensures a + (b + c) == a + b + c && a + [] == a
  {
  }

  lemma TakenStep(start: seq<Line>, ls: seq<Line>, n: nat, out: seq<Value>, indent: nat, lib: Lib)
    requires Taken(start, ls, n, out, indent, lib)
    requires ls != [] && ls[0].indent == indent && IsItem(ls[0].text)
    ensures var item := ItemText(ls[0].text);
            Taken(start, ls[1..], n + 1, if item == "" then out else out + [ParseScalar(item, lib)], indent, lib)
  {
    ItemsStep(ls, indent, lib);
    var item := ItemText(ls[0].text);
    Regroup(out, if item == "" then [] else [ParseScalar(item, lib)], Items(ls[1..], indent, lib));
  }

  lemma TakenAll(start: seq<Line>, ls: seq<Line>, n: nat, out: seq<Value>, indent: nat, lib: Lib)
    requires Taken(start, ls, n, out, indent, lib)
    requires ls == [] || ls[0].indent != indent || !IsItem(ls[0].text)
    ensures |ItemTexts(start, indent)| == n && Items(start, indent, lib) == out
  {
    ItemsStop(ls, indent, lib);
    assert out + [] == out;
  }

  class Parser {
    const lines: seq<Line>
    const lib: Lib
    var pos: nat

    constructor (lines: seq<Line>, lib: Lib)
      ensures this.lines == lines && this.lib == lib && pos == 0
    {
      this.lines, this.lib, pos := lines, lib, 0;
    }

    method ParseList(indent: nat) returns (out: seq<Value>)
      requires pos <= |lines|
      modifies this
      ensures pos == old(pos) + |ItemTexts(lines[old(pos)..], indent)|
      ensures out == Items(lines[old(pos)..], indent, lib)
    {
      out := [];
      ghost var start := lines[pos..];
      while pos < |lines|
        invariant old(pos) <= pos <= |lines|
        invariant Taken(start, lines[pos..], pos - old(pos), out, indent, lib)
        decreases |lines| - pos
      {
        var ln := lines[pos];
        ghost var ls := lines[pos..];
        if ln.indent != indent || !IsItem(ln.text) {
          TakenAll(start, ls, pos - old(pos), out, indent, lib);
          return;
        }
        TakenStep(start, ls, pos - old(pos), out, indent, lib);
        assert ls[1..] == lines[pos + 1..];
        var item := ItemText(ln.text);
        pos := pos + 1;
        if item == "" { continue; }
        var v := ReadScalar(item, lib);
        out := out + [v];
      }
      TakenAll(start, lines[pos..], pos - old(pos), out, indent, lib);
    }

    /** The nested block or list under an entry without a rest. */
    method ParseBelow(indent: nat) returns (v: Result<Value, YamlError>)
      requires pos <= |lines|
      modifies this
      ensures old(pos) <= pos <= |lines|
      ensures var o := Below(lines[old(pos)..], indent, lib);
              if o.Err? then v == Err(o.error) else v == Ok(o.value.0) && lines[pos..] == o.value.1
      decreases |lines| - pos, 1
    {
      ghost var below := lines[pos..];
      if pos == |lines| || lines[pos].indent <= indent {
        BelowNothing(below, indent, lib);
        return Ok(Null);
      }
      var child := lines[pos];
      if IsItem(child.text) {
        BelowList(below, indent, lib);
        var lst := ParseList(child.indent);
        assert below[|ItemTexts(below, child.indent)|..] == lines[pos..];
        return Ok(ListValue(lst));
      }
      BelowMap(below, indent, lib);
      var sub := ParseMap(child.indent);
      v := if sub.Err? then Err(sub.error) else Ok(Map(sub.value));
    }

    method ParseMap(indent: nat) returns (r: Result<map<string, Value>, YamlError>)
      requires pos <= |lines|
      modifies this
      ensures old(pos) <= pos <= |lines|
      ensures var o := Outcome(lines[old(pos)..], indent, map[], lib);
              if o.Err? then r == Err(o.error) else r == Ok(o.value.0) && lines[pos..] == o.value.1
      decreases |lines| - pos, 0
    {
      var out: map<string, Value> := map[];
      while pos < |lines|
        invariant old(pos) <= pos <= |lines|
        invariant Outcome(lines[old(pos)..], indent, map[], lib) == Outcome(lines[pos..], indent, out, lib)
        decreases |lines| - pos
      {
        var ln := lines[pos];
        ghost var ls := lines[pos..];
        if ln.indent < indent { OutcomeStops(ls, indent, out, lib); return Ok(out); }
        if ln.indent > indent { OutcomeFails(ls, indent, out, lib); return Err(BadIndentation); }
        if IsItem(ln.text) { OutcomeStops(ls, indent, out, lib); return Ok(out); }
        var kv := SplitKV(ln.text);
        if kv.None? { OutcomeFails(ls, indent, out, lib); return Err(NoKeyValue); }
        OutcomeEntry(ls, indent, out, lib);
        assert ls[1..] == lines[pos + 1..];
        pos := pos + 1;
        if kv.value.1 != "" {
          var v := ReadScalar(kv.value.1, lib);
          out := out[kv.value.0 := v];
          continue;
        }
        var v := ParseBelow(indent);
        if v.Err? { return Err(v.error); }
        out := out[kv.value.0 := v.value];
      }
      OutcomeStops(lines[pos..], indent, out, lib);
      return Ok(out);
    }
  }

  /** The lines that count: comments and blank lines go, tabs may not indent. */
  method ReadAll(data: string) returns (r: Result<seq<Line>, YamlError>)
    ensures r == ReadLines(Split(Crlf(data), '\n'))
  {
    var raws := Split(Crlf(data), '\n');
    var lines: seq<Line> := [];
    var i := 0;
    assert raws[0..] == raws;
    PrependNone(ReadLines(raws));
    while i < |raws|
      invariant 0 <= i <= |raws|
      invariant ReadLines(raws) == Prepended(lines, ReadLines(raws[i..]))
    {
      assert raws[i..][1..] == raws[i + 1..];
      ReadStep(lines, raws[i..]);
      var trimmed := TrimBlankRight(raws[i]);
      var stripped := StripComment(trimmed);
      i := i + 1;
      var text := TrimSpace(stripped);
      if text == "" || text == "---" { continue; }
      var indent := Spaces(stripped);
      if indent < |stripped| && stripped[indent] == '\t' { return Err(TabIndentation); }
      lines := lines + [Line(indent, text)];
    }
    assert lines + [] == lines;
    r := Ok(lines);
  }

  method Parse(data: string, lib: Lib) returns (r: Result<Option<map<string, Value>>, YamlError>)
    ensures r == ParseText(data, lib)
  {
    var lines := ReadAll(data);
    if lines.Err? { return Err(lines.error); }
    if lines.value == [] { return Ok(None); }
    var p := new Parser(lines.value, lib);
    assert p.lines[0..] == p.lines;
    var m := p.ParseMap(lines.value[0].indent);
    if m.Err? { return Err(m.error); }
    if p.pos < |p.lines| { return Err(UnexpectedContent); }
    r := Ok(Some(m.value));
  }

  function Prepended(lines: seq<Line>, r: Result<seq<Line>, YamlError>): Result<seq<Line>, YamlError> {
    if r.Err? then r else Ok(lines + r.value)
  }

  lemma PrependNone(r: Result<seq<Line>, YamlError>)
    ensures Prepended([], r) == r
  {
    if r.Ok? { assert [] + r.value == r.value; }
  }

  lemma ReadStep(lines: seq<Line>, raws: seq<string>)
    requires raws != []
    ensures var first := ReadRaw(raws[0]);
            && (first.Err? ==> Prepended(lines, ReadLines(raws)) == Err(first.error))
            && (first == Ok(None) ==> Prepended(lines, ReadLines(raws)) == Prepended(lines, ReadLines(raws[1..])))
            && (first.Ok? && first.value.Some?
                ==> Prepended(lines, ReadLines(raws)) == Prepended(lines + [first.value.value], ReadLines(raws[1..])))
  {
    var first, rest := ReadRaw(raws[0]), ReadLines(raws[1..]);
    if first.Ok? && first.value.Some? && rest.Ok? {
      assert lines + ([first.value.value] + rest.value) == lines + [first.value.value] + rest.value;
    }
  }
}
