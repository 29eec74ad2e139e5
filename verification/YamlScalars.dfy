/** What the text of a scalar means, told from the text alone: quotes, brackets, words in any letter case, signs and
  * digits. */
module YamlScalars {
  import opened Wrappers
  import opened Text
  import opened Letters
  import opened Yaml

  // ----- the forms of a text -----

  ghost predicate TrueWord(t: string) {
    SameLetters(t, "true") || SameLetters(t, "yes") || SameLetters(t, "on")
  }

  ghost predicate FalseWord(t: string) {
    SameLetters(t, "false") || SameLetters(t, "no") || SameLetters(t, "off")
  }

  ghost predicate NullWord(t: string) {
    SameLetters(t, "null") || t == "~"
  }

  ghost predicate Between(t: string, open: string, x: string, close: string) {
    t == open + x + close
  }

  ghost predicate Wrapped(t: string, open: string, close: string) {
    exists x :: Between(t, open, x, close)
  }

  /** A text without blanks around it, not between quotes or brackets. */
  ghost predicate Unwrapped(t: string) {
    t != "" && Tight(t) && !Wrapped(t, "[", "]") && !Wrapped(t, "\"", "\"") && !Wrapped(t, "'", "'")
  }

  ghost predicate Special(t: string) {
    TrueWord(t) || FalseWord(t) || NullWord(t) || exists i :: Number(t, i)
  }

  lemma EnclosedIsWrapped(t: string, open: string, close: string)
    requires |open| == |close| == 1
    ensures Enclosed(t, open[0], close[0]) <==> Wrapped(t, open, close)
  {
    if Enclosed(t, open[0], close[0]) {
      var x := t[1..|t| - 1];
      assert t == open + x + close;
      assert Between(t, open, x, close);
    }
  }

  // ----- words -----

  lemma WordIs(t: string, w: string)
    requires NoCapitals(w)
    ensures Lower(t) == w <==> SameLetters(t, w)
  {
    LowerExactly(t, w);
    LowerExactly(w, w);
  }

  lemma WordsAreSmall()
    ensures NoCapitals("true") && NoCapitals("yes") && NoCapitals("on")
    ensures NoCapitals("false") && NoCapitals("no") && NoCapitals("off")
    ensures NoCapitals("null") && NoCapitals("~")
  {
    forall c | c in "trueyesonfalsenoffnull~" ensures c !in CAPITALS { CapitalAt(c); }
  }

  lemma TildeOnly(t: string)
    ensures Lower(t) == "~" <==> t == "~"
  {
    if Lower(t) == "~" {
      assert LowerChar(t[0]) == '~';
      assert t == [t[0]];
    }
  }

  lemma WordsExactly(t: string)
    ensures Word(t) == Some(Bool(true)) <==> TrueWord(t)
    ensures Word(t) == Some(Bool(false)) <==> FalseWord(t)
    ensures Word(t) == Some(Null) <==> NullWord(t)
    ensures Word(t).None? <==> !TrueWord(t) && !FalseWord(t) && !NullWord(t)
  {
    WordsAreSmall();
    WordIs(t, "true");
    WordIs(t, "yes");
    WordIs(t, "on");
    WordIs(t, "false");
    WordIs(t, "no");
    WordIs(t, "off");
    WordIs(t, "null");
    TildeOnly(t);
  }

  // ----- what each form means -----

  lemma UnwrappedIsPlain(t: string, lib: Lib)
    requires Unwrapped(t)
    ensures ParseScalar(t, lib) == PlainScalar(t, lib)
    ensures !Enclosed(t, '"', '"') && !Enclosed(t, '\'', '\'')
  {
    TrimTight(t);
    EnclosedIsWrapped(t, "[", "]");
    EnclosedIsWrapped(t, "\"", "\"");
    EnclosedIsWrapped(t, "'", "'");
  }

  /** A text that is not between quotes or brackets is true, false, null or an integer exactly when it is such a word,
    * in any letter case, or such a number; otherwise it is a float if it reads as one, and else stands for itself. */
  lemma UnwrappedExactly(t: string, lib: Lib, i: int)
    requires Unwrapped(t)
    ensures var v := ParseScalar(t, lib);
            && (v == Bool(true) <==> TrueWord(t)) && (v == Bool(false) <==> FalseWord(t)) && (v == Null <==> NullWord(t))
            && (v == Int(i) <==> Number(t, i))
            && (v == Float(t) <==> !Special(t) && lib.float(t))
            && (v == Str(t) <==> !Special(t) && !lib.float(t))
  {
    UnwrappedIsPlain(t, lib);
    WordsExactly(t);
    NumberExactly(t, i);
    NoNumber(t);
    if Word(t).Some? { WordIsNoNumber(t, i); }
  }

  lemma SignedEnds(t: string, sign: string, digits: string, i: int)
    ensures Signed(t, sign, digits, i) ==> t != "" && IsDigit(t[|t| - 1])
  {
    if Signed(t, sign, digits, i) { assert t[|t| - 1] == digits[|digits| - 1]; }
  }

  lemma WordEnds(t: string)
    requires Word(t).Some?
    ensures t != "" && !IsDigit(t[|t| - 1])
  {
    assert Lower(t)[|t| - 1] == LowerChar(t[|t| - 1]);
  }

  lemma WordIsNoNumber(t: string, i: int)
    requires Word(t).Some?
    ensures !Number(t, i)
  {
    WordEnds(t);
    forall sign, digits ensures !Signed(t, sign, digits, i) { SignedEnds(t, sign, digits, i); }
  }

  /** Between double quotes: the decoded string if the library decodes it, and otherwise what stands between them. */
  lemma DoubleQuotedReads(x: string, lib: Lib)
    ensures var t := "\"" + x + "\"";
            ParseScalar(t, lib) == Str(match lib.json(t) case Some(s) => s case None => x)
  {
    var t := "\"" + x + "\"";
    TrimTight(t);
    assert t[1..|t| - 1] == x;
  }

  /** Between single quotes: what stands between them, each doubled quote counting once. */
  function Doubled(s: string): string {
    if s == "" then "" else (if s[0] == '\'' then "''" else [s[0]]) + Doubled(s[1..])
  }

  lemma {:induction false} UndoubleDoubled(s: string)
    ensures Undouble(Doubled(s)) == s
    decreases |s|
  {
    if s != "" {
      var d := Doubled(s[1..]);
      UndoubleDoubled(s[1..]);
      if s[0] == '\'' {
        assert ("''" + d)[2..] == d;
      } else {
        assert !("''" <= [s[0]] + d) by { assert ([s[0]] + d)[0] != '\''; }
        assert ([s[0]] + d)[1..] == d;
      }
      assert [s[0]] + s[1..] == s;
    }
  }

  /** Every string survives between single quotes with its own ones doubled. */
  lemma StringComesBack(s: string, lib: Lib)
    ensures ParseScalar("'" + Doubled(s) + "'", lib) == Str(s)
  {
    var t := "'" + Doubled(s) + "'";
    TrimTight(t);
    assert t[1..|t| - 1] == Doubled(s);
    UndoubleDoubled(s);
  }

  lemma {:induction false} UndoubleNone(x: string)
    requires forall j :: 0 <= j < |x| - 1 ==> !(x[j] == '\'' && x[j + 1] == '\'')
    ensures Undouble(x) == x
    decreases |x|
  {
    if x != "" {
      assert forall j :: 0 <= j < |x| - 1 ==> x[1..][j] == x[j + 1];
      UndoubleNone(x[1..]);
      assert [x[0]] + x[1..] == x;
    }
  }

  /** A single quote that stands alone stays as it is. */
  lemma SingleQuotedReads(x: string, lib: Lib)
    requires forall j :: 0 <= j < |x| - 1 ==> !(x[j] == '\'' && x[j + 1] == '\'')
    ensures ParseScalar("'" + x + "'", lib) == Str(x)
  {
    var t := "'" + x + "'";
    TrimTight(t);
    assert t[1..|t| - 1] == x;
    UndoubleNone(x);
  }

  /** An inline list is the list of its comma-separated pieces. */
  lemma InlineList(pieces: seq<string>, lib: Lib)
    requires pieces != [] && Without(pieces, ',') && Join(pieces, ',') != "" && Tight(Join(pieces, ','))
    ensures ParseScalar("[" + Join(pieces, ',') + "]", lib)
         == List(seq(|pieces|, i requires 0 <= i < |pieces| => ParseScalar(TrimSpace(pieces[i]), lib)))
  {
    var inner := Join(pieces, ',');
    var s := "[" + inner + "]";
    TrimTight(s);
    TrimTight(inner);
    assert s[1..|s| - 1] == inner;
    SplitJoin(pieces, ',');
  }

  // ----- meaning as a relation -----

  /** Text t means the scalar v. */
  ghost predicate Means(t: string, v: Value, lib: Lib) {
    match v
    case Null => t == "" || NullWord(t)
    case Bool(b) => if b then TrueWord(t) else FalseWord(t)
    case Int(i) => Number(t, i)
    case Float(f) => f == t && Unwrapped(t) && !Special(t) && lib.float(t)
    case Str(s) =>
      || (Unwrapped(t) && !Special(t) && !lib.float(t) && s == t)
      || t == "'" + Doubled(s) + "'"
      || DecodesTo(t, s, lib)
    case _ => false
  }

  /** Text t stands between double quotes and is decoded to s, or is not decodable and has s between them. */
  ghost predicate DecodesTo(t: string, s: string, lib: Lib) {
    exists x :: Between(t, "\"", x, "\"") && (lib.json(t) == Some(s) || (lib.json(t).None? && x == s))
  }

  /** The pieces between the commas, with blanks around each. */
  ghost predicate Piece(p: string, a: string, t: string, b: string, v: Value, lib: Lib) {
    p == a + t + b && AllSpace(a) && AllSpace(b) && t != "" && Means(t, v, lib)
  }

  ghost predicate PieceMeans(p: string, v: Value, lib: Lib) {
    exists a, t, b :: Piece(p, a, t, b, v, lib)
  }

  ghost predicate ListMeans(t: string, items: seq<Value>, pieces: seq<string>, lib: Lib) {
    && t == "[" + Join(if pieces == [] then [""] else pieces, ',') + "]" && Without(pieces, ',') && |pieces| == |items|
    && (pieces != [] ==> Tight(Join(pieces, ',')))
    && forall i :: 0 <= i < |items| ==> PieceMeans(pieces[i], items[i], lib)
  }

  /** A text that can stand behind a key or a dash: a scalar or an inline list of scalars. */
  ghost predicate TextMeans(t: string, v: Value, lib: Lib) {
    Means(t, v, lib) || (v.List? && exists pieces :: ListMeans(t, v.items, pieces, lib))
  }

  // ----- texts with a meaning are bare or quoted -----

  lemma NumberUnwrapped(t: string, i: int)
    requires Number(t, i)
    ensures Unwrapped(t)
  {
    var sign, digits :| Signed(t, sign, digits, i);
    assert t[|t| - 1] == digits[|digits| - 1] && IsDigit(digits[|digits| - 1]) && IsDigit(digits[0]);
    EndsOutside(t);
  }

  lemma EndsOutside(t: string)
    requires t != "" && !IsSpace(t[0]) && !IsSpace(t[|t| - 1]) && t[|t| - 1] !in {']', '"', '\''}
    ensures Unwrapped(t)
  {
    EnclosedIsWrapped(t, "[", "]");
    EnclosedIsWrapped(t, "\"", "\"");
    EnclosedIsWrapped(t, "'", "'");
  }

  lemma WordUnwrapped(t: string)
    requires Word(t).Some?
    ensures Unwrapped(t)
  {
    var w := Lower(t);
    assert |w| == |t|;
    assert w[0] == LowerChar(t[0]) && w[|t| - 1] == LowerChar(t[|t| - 1]);
    assert w in {"true", "yes", "on", "false", "no", "off", "null", "~"};
    EndsOutside(t);
  }

  lemma MeansReads(t: string, v: Value, lib: Lib)
    requires Means(t, v, lib)
    ensures ParseScalar(t, lib) == v
  {
    WordsExactly(t);
    match v
    case Null => if t != "" { WordUnwrapped(t); UnwrappedExactly(t, lib, 0); }
    case Bool(_) => WordUnwrapped(t); UnwrappedExactly(t, lib, 0);
    case Int(i) => NumberUnwrapped(t, i); UnwrappedExactly(t, lib, i);
    case Float(_) => UnwrappedExactly(t, lib, 0);
    case Str(s) => StringReads(t, s, lib);
    case _ =>
  }

  lemma StringReads(t: string, s: string, lib: Lib)
    requires Means(t, Str(s), lib)
    ensures ParseScalar(t, lib) == Str(s)
  {
    if DecodesTo(t, s, lib) {
      var x :| Between(t, "\"", x, "\"") && (lib.json(t) == Some(s) || (lib.json(t).None? && x == s));
      DoubleQuotedReads(x, lib);
    } else if t == "'" + Doubled(s) + "'" {
      StringComesBack(s, lib);
    } else {
      UnwrappedExactly(t, lib, 0);
    }
  }

  lemma TightMeans(t: string, v: Value, lib: Lib)
    requires Means(t, v, lib)
    ensures Tight(t)
  {
    WordsExactly(t);
    if Word(t).Some? {
      WordUnwrapped(t);
    } else if v.Int? {
      NumberUnwrapped(t, v.i);
    } else if v.Str? && DecodesTo(t, v.s, lib) {
      var x :| Between(t, "\"", x, "\"");
    }
  }

  lemma PieceReads(p: string, v: Value, lib: Lib)
    requires PieceMeans(p, v, lib)
    ensures ParseScalar(TrimSpace(p), lib) == v && TrimSpace(p) != ""
  {
    var a, t, b :| Piece(p, a, t, b, v, lib);
    TightMeans(t, v, lib);
    TrimExactly(a, t, b);
    MeansReads(t, v, lib);
  }

  lemma JoinNotEmpty(pieces: seq<string>)
    requires pieces != [] && pieces[0] != ""
    ensures Join(pieces, ',') != ""
  {
  }

  lemma EmptyListReads(lib: Lib)
    ensures ParseScalar("[]", lib) == List([])
  {
    TrimTight("[]");
    assert "[]"[1..1] == "";
  }

  lemma ListReads(t: string, items: seq<Value>, pieces: seq<string>, lib: Lib)
    requires ListMeans(t, items, pieces, lib)
    ensures ParseScalar(t, lib) == List(items)
  {
    if pieces == [] {
      assert t == "[]";
      EmptyListReads(lib);
    } else {
      forall i | 0 <= i < |items|
        ensures ParseScalar(TrimSpace(pieces[i]), lib) == items[i] && TrimSpace(pieces[i]) != ""
      {
        PieceReads(pieces[i], items[i], lib);
      }
      assert pieces[0] != "";
      JoinNotEmpty(pieces);
      InlineList(pieces, lib);
      assert items == seq(|pieces|, i requires 0 <= i < |pieces| => ParseScalar(TrimSpace(pieces[i]), lib));
    }
  }

  /** The parser reads every text as what it means. */
  lemma TextReads(t: string, v: Value, lib: Lib)
    requires TextMeans(t, v, lib)
    ensures ParseScalar(t, lib) == v
  {
    if Means(t, v, lib) {
      MeansReads(t, v, lib);
    } else {
      var pieces :| ListMeans(t, v.items, pieces, lib);
      ListReads(t, v.items, pieces, lib);
    }
  }
}
