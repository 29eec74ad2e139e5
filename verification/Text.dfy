/** The string operations that the wire format, the whitelist and the configuration parser share. */
module Text {
  import opened Wrappers

  // ----- split and join -----

  /** Puts a character in front: a separator opens a piece, any other extends the first one. */
  function Prepend(x: char, c: char, parts: seq<string>): (r: seq<string>)
    requires |parts| > 0
    ensures |r| > 0
  {
    if x == c then [""] + parts else [[x] + parts[0]] + parts[1..]
  }

  /** The pieces between the separators; at least one. */
  function Split(s: string, c: char): (parts: seq<string>)
    ensures |parts| > 0
  {
    if s == "" then [""] else Prepend(s[0], c, Split(s[1..], c))
  }

  function Join(parts: seq<string>, c: char): string
    requires |parts| > 0
  {
    if |parts| == 1 then parts[0] else parts[0] + [c] + Join(parts[1..], c)
  }

  ghost predicate Without(parts: seq<string>, c: char) {
    forall i :: 0 <= i < |parts| ==> c !in parts[i]
  }

  lemma {:induction false} SplitNone(s: string, c: char)
    requires c !in s
    ensures Split(s, c) == [s]
  {
    if s != "" {
      SplitNone(s[1..], c);
      assert [s[0]] + s[1..] == s;
    }
  }

  lemma {:induction false} PieceLengths(s: string, c: char)
    ensures forall i :: 0 <= i < |Split(s, c)| ==> |Split(s, c)[i]| <= |s|
  {
    if s != "" { PieceLengths(s[1..], c); }
  }

  lemma PrependConcat(x: char, c: char, a: seq<string>, b: seq<string>)
    requires |a| > 0
    ensures Prepend(x, c, a + b) == Prepend(x, c, a) + b
  {
    assert (a + b)[1..] == a[1..] + b;
  }

  /** Splitting distributes over a separator. */
  lemma {:induction false} SplitConcat(a: string, b: string, c: char)
    ensures Split(a + [c] + b, c) == Split(a, c) + Split(b, c)
  {
    if a == "" {
      assert (a + [c] + b)[1..] == b;
    } else {
      SplitConcat(a[1..], b, c);
      assert (a + [c] + b)[1..] == a[1..] + [c] + b;
      PrependConcat(a[0], c, Split(a[1..], c), Split(b, c));
    }
  }

  lemma JoinPrepend(x: char, c: char, parts: seq<string>)
    requires |parts| > 0
    ensures Join(Prepend(x, c, parts), c) == [x] + Join(parts, c)
  {
    var r := Prepend(x, c, parts);
    if x == c {
      assert r[1..] == parts;
    } else {
      assert r[1..] == parts[1..];
      if |parts| > 1 {
        assert [x] + parts[0] + [c] + Join(parts[1..], c) == [x] + (parts[0] + [c] + Join(parts[1..], c));
      }
    }
  }

  lemma {:induction false} JoinSplit(s: string, c: char)
    ensures Join(Split(s, c), c) == s && Without(Split(s, c), c)
  {
    if s != "" {
      JoinSplit(s[1..], c);
      JoinPrepend(s[0], c, Split(s[1..], c));
    }
  }

  lemma {:induction false} SplitJoin(parts: seq<string>, c: char)
    requires |parts| > 0 && Without(parts, c)
    ensures Split(Join(parts, c), c) == parts
  {
    SplitNone(parts[0], c);
    if |parts| > 1 {
      SplitConcat(parts[0], Join(parts[1..], c), c);
      SplitJoin(parts[1..], c);
    }
  }

  lemma {:induction false} JoinConcat(a: seq<string>, b: seq<string>, c: char)
    requires |a| > 0 && |b| > 0
    ensures Join(a + b, c) == Join(a, c) + [c] + Join(b, c)
  {
    if |a| == 1 {
      assert (a + b)[1..] == b;
    } else {
      assert (a + b)[1..] == a[1..] + b;
      JoinConcat(a[1..], b, c);
    }
  }

  // ----- prefixes, suffixes, substrings -----

  predicate HasSuffix(s: string, suffix: string) {
    |suffix| <= |s| && s[|s| - |suffix|..] == suffix
  }

  predicate MatchesAt(s: string, sub: string, i: nat) {
    i + |sub| <= |s| && s[i..i + |sub|] == sub
  }

  /** The first position of sub in s from i on, or -1. */
  function IndexFrom(s: string, sub: string, i: nat): (at: int)
    ensures at >= 0 ==> i <= at && MatchesAt(s, sub, at) && forall j :: i <= j < at ==> !MatchesAt(s, sub, j)
    ensures at < 0 ==> at == -1 && forall j :: i <= j ==> !MatchesAt(s, sub, j)
    decreases |s| - i
  {
    if i + |sub| > |s| then -1
    else if s[i..i + |sub|] == sub then i
    else IndexFrom(s, sub, i + 1)
  }

  function Index(s: string, sub: string): int {
    IndexFrom(s, sub, 0)
  }

  predicate Contains(s: string, sub: string) {
    Index(s, sub) >= 0
  }

  // ----- trimming -----

  predicate IsSpace(c: char) {
    c == ' ' || '\t' <= c <= '\r' || c == 0x85 as char || c == 0xA0 as char || c == 0x1680 as char
    || 0x2000 as char <= c <= 0x200A as char || c == 0x2028 as char || c == 0x2029 as char
    || c == 0x202F as char || c == 0x205F as char || c == 0x3000 as char
  }

  function TrimLeftSpace(s: string): (r: string)
    ensures |r| <= |s|
  {
    if s != "" && IsSpace(s[0]) then TrimLeftSpace(s[1..]) else s
  }

  function TrimRightSpace(s: string): (r: string)
    ensures |r| <= |s|
  {
    if s != "" && IsSpace(s[|s| - 1]) then TrimRightSpace(s[..|s| - 1]) else s
  }

  function TrimSpace(s: string): string {
    TrimRightSpace(TrimLeftSpace(s))
  }

  /** A string that TrimSpace leaves alone. */
  predicate Tight(s: string) {
    s == "" || (!IsSpace(s[0]) && !IsSpace(s[|s| - 1]))
  }

  lemma TrimTight(s: string)
    requires Tight(s)
    ensures TrimSpace(s) == s
  {
  }

  lemma {:induction false} TrimRightTight(s: string)
    ensures TrimRightSpace(s) == "" || !IsSpace(TrimRightSpace(s)[|TrimRightSpace(s)| - 1])
    ensures TrimRightSpace(s) <= s
  {
    if s != "" && IsSpace(s[|s| - 1]) { TrimRightTight(s[..|s| - 1]); }
  }

  lemma {:induction false} TrimLeftTight(s: string)
    ensures TrimLeftSpace(s) == "" || !IsSpace(TrimLeftSpace(s)[0])
  {
    if s != "" && IsSpace(s[0]) { TrimLeftTight(s[1..]); }
  }

  /** Trimming yields a tight string. */
  lemma TrimIsTight(s: string)
    ensures Tight(TrimSpace(s))
  {
    TrimLeftTight(s);
    TrimRightTight(TrimLeftSpace(s));
  }

  // ----- lower case (ASCII) -----

  function LowerChar(c: char): char {
    if 'A' <= c <= 'Z' then c + 32 as char else c
  }

  function Lower(s: string): (r: string)
    ensures |r| == |s|
    ensures forall i :: 0 <= i < |s| ==> r[i] == LowerChar(s[i])
  {
    seq(|s|, i requires 0 <= i < |s| => LowerChar(s[i]))
  }

  lemma LowerTwice(s: string)
    ensures Lower(Lower(s)) == Lower(s)
  {
  }

  // ----- decimal numbers -----

  predicate IsDigit(c: char) {
    '0' <= c <= '9'
  }

  predicate AllDigits(s: string) {
    forall i :: 0 <= i < |s| ==> IsDigit(s[i])
  }

  function DigitChar(d: nat): char
    requires d < 10
  {
    '0' + d as char
  }

  /** The decimal digits of a natural number. */
  function Decimal(n: nat): (s: string)
    ensures |s| > 0 && AllDigits(s)
  {
    if n < 10 then [DigitChar(n)] else Decimal(n / 10) + [DigitChar(n % 10)]
  }

  /** The value of a string of digits. */
  function Value(s: string): nat
    requires AllDigits(s)
  {
    if s == "" then 0 else 10 * Value(s[..|s| - 1]) + (s[|s| - 1] as int - '0' as int)
  }

  lemma {:induction false} DecimalValue(n: nat)
    ensures Value(Decimal(n)) == n
  {
    if n >= 10 {
      DecimalValue(n / 10);
      var s := Decimal(n);
      assert s[..|s| - 1] == Decimal(n / 10);
    } else {
      assert Decimal(n)[..0] == "";
      assert Value(Decimal(n)[..0]) == 0;
    }
  }

  /** Decimal text with a sign for negative numbers. */
  function IntText(n: int): string {
    if n < 0 then "-" + Decimal(0 - n) else Decimal(n)
  }

  /** strconv.Atoi and ParseInt in base 10: an optional sign, digits, and the range of a 64-bit integer. */
  function Atoi(s: string): Option<int> {
    var signed := s != "" && (s[0] == '-' || s[0] == '+');
    var body := if signed then s[1..] else s;
    if body == "" || !AllDigits(body) then None
    else
      var v := if signed && s[0] == '-' then 0 - Value(body) else Value(body);
      if -0x8000_0000_0000_0000 <= v < 0x8000_0000_0000_0000 then Some(v) else None
  }

  lemma AtoiIntText(n: int)
    requires -0x8000_0000_0000_0000 <= n < 0x8000_0000_0000_0000
    ensures Atoi(IntText(n)) == Some(n)
  {
    var d := Decimal(if n < 0 then 0 - n else n);
    DecimalValue(if n < 0 then 0 - n else n);
    assert IsDigit(d[0]);
    assert n < 0 ==> IntText(n)[1..] == d;
  }

  // ----- order and sorting -----

  /** Bytewise order. */
  predicate Less(a: string, b: string) {
    if b == "" then false
    else if a == "" then true
    else a[0] < b[0] || (a[0] == b[0] && Less(a[1..], b[1..]))
  }

  lemma {:induction false} LessTotal(a: string, b: string)
    ensures a == b || Less(a, b) || Less(b, a)
    ensures !(Less(a, b) && Less(b, a)) && !Less(a, a)
  {
    if a != "" {
      LessTotal(a[1..], a[1..]);
      if b != "" {
        LessTotal(a[1..], b[1..]);
        assert a == [a[0]] + a[1..] && b == [b[0]] + b[1..];
      }
    }
  }

  lemma {:induction false} LessTransitive(a: string, b: string, c: string)
    requires Less(a, b) && Less(b, c)
    ensures Less(a, c)
  {
    if a != "" && a[0] == b[0] && b[0] == c[0] { LessTransitive(a[1..], b[1..], c[1..]); }
  }

  ghost predicate Sorted(s: seq<string>) {
    forall i, j :: 0 <= i < j < |s| ==> !Less(s[j], s[i])
  }

  /** Moves the new last element to the left while it is smaller than its neighbour. */
  function Insert(s: seq<string>, x: string): (r: seq<string>)
    ensures |r| == |s| + 1
  {
    if s == [] then [x]
    else if Less(x, s[|s| - 1]) then Insert(s[..|s| - 1], x) + [s[|s| - 1]]
    else s + [x]
  }

  function Sort(s: seq<string>): (r: seq<string>)
    ensures |r| == |s|
  {
    if s == [] then [] else Insert(Sort(s[..|s| - 1]), s[|s| - 1])
  }

  lemma {:induction false} InsertElements(s: seq<string>, x: string)
    ensures multiset(Insert(s, x)) == multiset(s) + multiset{x}
  {
    if s != [] && Less(x, s[|s| - 1]) {
      InsertElements(s[..|s| - 1], x);
      assert s == s[..|s| - 1] + [s[|s| - 1]];
    }
  }

  lemma {:induction false} InsertSorts(s: seq<string>, x: string)
    requires Sorted(s)
    ensures Sorted(Insert(s, x))
    decreases |s|
  {
    if s == [] {
    } else if Less(x, s[|s| - 1]) {
      var last, r := s[|s| - 1], Insert(s[..|s| - 1], x);
      InsertSorts(s[..|s| - 1], x);
      InsertElements(s[..|s| - 1], x);
      LessTotal(x, last);
      forall i | 0 <= i < |r|
        ensures !Less(last, r[i])
      {
        assert r[i] in multiset(r);
        assert r[i] == x || r[i] in s[..|s| - 1];
      }
    } else {
      forall i | 0 <= i < |s|
        ensures !Less(x, s[i])
      {
        NotLessTransitive(x, s[|s| - 1], s[i]);
      }
    }
  }

  /** Not being smaller is transitive, because the order is total. */
  lemma NotLessTransitive(a: string, b: string, c: string)
    requires !Less(a, b) && (!Less(b, c) || b == c)
    ensures !Less(a, c)
  {
    LessTotal(a, b);
    LessTotal(b, c);
    if Less(a, c) {
      if a == b {
      } else if b != c {
        LessTransitive(a, c, b);
      }
    }
  }

  lemma {:induction false} SortSorts(s: seq<string>)
    ensures Sorted(Sort(s)) && multiset(Sort(s)) == multiset(s)
  {
    if s != [] {
      var init := s[..|s| - 1];
      SortSorts(init);
      InsertSorts(Sort(init), s[|s| - 1]);
      InsertElements(Sort(init), s[|s| - 1]);
      assert s == init + [s[|s| - 1]];
    }
  }

  /** A sorted arrangement is determined by its elements. */
  /** The greatest elements agree, and what is left still has the same elements. */
  lemma SameLast(a: seq<string>, b: seq<string>)
    requires Sorted(a) && Sorted(b) && multiset(a) == multiset(b) && a != [] && b != []
    ensures a[|a| - 1] == b[|b| - 1] && multiset(a[..|a| - 1]) == multiset(b[..|b| - 1])
  {
    var x, y := a[|a| - 1], b[|b| - 1];
    LastIsGreatest(a, b);
    LastIsGreatest(b, a);
    LessTotal(x, y);
    WithoutLast(a);
    WithoutLast(b);
  }

  lemma WithoutLast(a: seq<string>)
    requires a != []
    ensures multiset(a[..|a| - 1]) == multiset(a) - multiset{a[|a| - 1]} && a == a[..|a| - 1] + [a[|a| - 1]]
  {
    assert a == a[..|a| - 1] + [a[|a| - 1]];
  }

  lemma {:induction false} SortedUnique(a: seq<string>, b: seq<string>)
    requires Sorted(a) && Sorted(b) && multiset(a) == multiset(b)
    ensures a == b
    decreases |a|
  {
    assert |a| == |multiset(a)| == |multiset(b)| == |b|;
    if a != [] {
      SameLast(a, b);
      SortedUnique(a[..|a| - 1], b[..|b| - 1]);
      WithoutLast(a);
      WithoutLast(b);
    }
  }

  lemma LastIsGreatest(a: seq<string>, b: seq<string>)
    requires Sorted(a) && a != [] && b != [] && multiset(a) == multiset(b)
    ensures !Less(a[|a| - 1], b[|b| - 1])
  {
    assert b[|b| - 1] in multiset(a);
    var i :| 0 <= i < |a| && a[i] == b[|b| - 1];
    LessTotal(a[i], a[i]);
  }

  /** The order in which the elements come does not matter. */
  lemma SortIgnoresOrder(a: seq<string>, b: seq<string>)
    requires multiset(a) == multiset(b)
    ensures Sort(a) == Sort(b)
  {
    SortSorts(a);
    SortSorts(b);
    SortedUnique(Sort(a), Sort(b));
  }

  /** The in-place insertion sort that dldw1 and the whitelist both use. */
  method InsertionSort(a: array<string>)
    modifies a
    ensures a[..] == Sort(old(a[..]))
  {
    if a.Length == 0 {
      assert a[..] == [];
      return;
    }
    var i := 1;
    assert old(a[..])[..1][..0] == [];
    assert Sort(old(a[..])[..1][..0]) == [];
    assert a[..1] == Sort(old(a[..])[..1]);
    while i < a.Length
      invariant 1 <= i <= a.Length
      invariant a[..i] == Sort(old(a[..])[..i])
      invariant a[i..] == old(a[..])[i..]
    {
      ghost var sorted, x := a[..i], a[i];
      ghost var rest := a[i + 1..];
      SinkLast(a, i);
      assert old(a[..])[..i + 1][..i] == old(a[..])[..i];
      assert x == old(a[..])[i];
      i := i + 1;
    }
    assert a[..i] == a[..] && old(a[..])[..i] == old(a[..]);
  }

  lemma InsertPasses(s: seq<string>, x: string, j: nat)
    requires 0 < j <= |s| && Less(x, s[j - 1])
    ensures Insert(s[..j], x) + s[j..] == Insert(s[..j - 1], x) + s[j - 1..]
  {
    assert s[..j][..j - 1] == s[..j - 1] && s[j - 1..] == [s[j - 1]] + s[j..];
  }

  lemma InsertStops(s: seq<string>, x: string, j: nat)
    requires j <= |s| && (j > 0 ==> !Less(x, s[j - 1]))
    ensures Insert(s[..j], x) == s[..j] + [x]
  {
    assert j > 0 ==> s[..j][|s[..j]| - 1] == s[j - 1];
  }

  lemma Shifted(t: seq<string>, s: seq<string>, x: string, j: nat)
    requires |t| == |s| + 1 && j <= |s| && t[..j] == s[..j] && t[j] == x
    requires forall k :: j < k <= |s| ==> t[k] == s[k - 1]
    ensures t == s[..j] + [x] + s[j..]
  {
    forall k | 0 <= k < |t|
      ensures t[k] == (s[..j] + [x] + s[j..])[k]
    {
      if k < j { assert t[..j][k] == s[..j][k]; }
    }
  }

  /** The inner loop: a[i] sinks to the left until its left neighbour is not greater. */
  method SinkLast(a: array<string>, i: nat)
    requires i < a.Length
    modifies a
    ensures a[..i + 1] == Insert(old(a[..i]), old(a[i]))
    ensures a[i + 1..] == old(a[i + 1..])
  {
    ghost var s, x := a[..i], a[i];
    var j := i;
    while j > 0 && Less(a[j], a[j - 1])
      invariant 0 <= j <= i && a[j] == x
      invariant a[..j] == s[..j]
      invariant forall k :: j < k <= i ==> a[k] == s[k - 1]
      invariant Insert(s, x) == Insert(s[..j], x) + s[j..]
      invariant a[i + 1..] == old(a[i + 1..])
    {
      InsertPasses(s, x, j);
      a[j], a[j - 1] := a[j - 1], a[j];
      j := j - 1;
    }
    InsertStops(s, x, j);
    Shifted(a[..i + 1], s, x, j);
    assert a[..i + 1] == s[..j] + [x] + s[j..];
  }
}
