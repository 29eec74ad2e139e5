/** Blanks, letter case, digits and order, told from literal alphabets. */
module Letters {
  import opened Wrappers
  import opened Text

  const CAPITALS: string := "ABCDEFGHIJKLMNOPQRSTUVWXYZ"
  const SMALLS: string := "abcdefghijklmnopqrstuvwxyz"
  const DIGITS: string := "0123456789"

  /** The characters that strings.TrimSpace removes. */
  lemma SpaceChars(c: char)
    ensures IsSpace(c) <==>
              c in {'\t', '\n', 0x0B as char, 0x0C as char, '\r', ' ', 0x85 as char, 0xA0 as char, 0x1680 as char,
                    0x2000 as char, 0x2001 as char, 0x2002 as char, 0x2003 as char, 0x2004 as char, 0x2005 as char,
                    0x2006 as char, 0x2007 as char, 0x2008 as char, 0x2009 as char, 0x200A as char,
                    0x2028 as char, 0x2029 as char, 0x202F as char, 0x205F as char, 0x3000 as char}
  {
    if 0x2000 as char <= c <= 0x200A as char { assert 0x2000 <= c as int <= 0x200A; }
    if '\t' <= c <= '\r' { assert 9 <= c as int <= 13; }
  }

  /** The k-th capital letter and the k-th small one. */
  ghost predicate Pair(c: char, d: char, k: nat) {
    k < 26 && c == CAPITALS[k] && d == SMALLS[k]
  }

  /** A capital letter and its small one, or the same character. */
  ghost predicate SameLetter(c: char, d: char) {
    c == d || exists k :: Pair(c, d, k) || Pair(d, c, k)
  }

  /** Two texts that differ in letter case at most. */
  ghost predicate SameLetters(a: string, b: string) {
    |a| == |b| && forall i :: 0 <= i < |a| ==> SameLetter(a[i], b[i])
  }

  predicate NoCapitals(s: string) {
    forall i :: 0 <= i < |s| ==> s[i] !in CAPITALS
  }

  predicate AllIn(s: string, alphabet: string) {
    forall i :: 0 <= i < |s| ==> s[i] in alphabet
  }

  ghost predicate AllSpace(s: string) {
    forall i :: 0 <= i < |s| ==> IsSpace(s[i])
  }

  lemma CapitalAt(c: char)
    ensures c in CAPITALS <==> 'A' <= c <= 'Z'
    ensures 'A' <= c <= 'Z' ==> CAPITALS[c as int - 65] == c && SMALLS[c as int - 65] == LowerChar(c)
    ensures c in SMALLS <==> 'a' <= c <= 'z'
    ensures c in DIGITS <==> '0' <= c <= '9'
  {
    CapitalCode();
    if 'A' <= c <= 'Z' { assert CAPITALS[c as int - 65] as int == c as int; }
    if 'a' <= c <= 'z' { assert SMALLS[c as int - 97] as int == c as int; }
    if '0' <= c <= '9' { assert DIGITS[c as int - 48] as int == c as int; }
  }

  lemma CapitalCode()
    ensures forall k :: 0 <= k < 26 ==> CAPITALS[k] as int == 65 + k && SMALLS[k] as int == 97 + k
    ensures forall k :: 0 <= k < 10 ==> DIGITS[k] as int == 48 + k
  {
  }

  lemma PairIsLower(c: char, d: char, k: nat)
    requires Pair(c, d, k)
    ensures LowerChar(c) == d && LowerChar(d) == d
  {
    CapitalCode();
  }

  lemma SameIsLower(c: char, d: char)
    requires SameLetter(c, d)
    ensures LowerChar(c) == LowerChar(d)
  {
    if c != d {
      var k :| Pair(c, d, k) || Pair(d, c, k);
      if Pair(c, d, k) { PairIsLower(c, d, k); } else { PairIsLower(d, c, k); }
    }
  }

  lemma LowerPair(c: char)
    requires 'A' <= c <= 'Z'
    ensures SameLetter(c, LowerChar(c)) && SameLetter(LowerChar(c), c)
  {
    CapitalAt(c);
    assert Pair(c, LowerChar(c), c as int - 65);
  }

  lemma LowerIsSame(c: char, d: char)
    requires LowerChar(c) == LowerChar(d)
    ensures SameLetter(c, d)
  {
    if 'A' <= c <= 'Z' {
      LowerPair(c);
    } else if 'A' <= d <= 'Z' {
      LowerPair(d);
    }
  }

  lemma LowerSame(c: char, d: char)
    ensures SameLetter(c, d) <==> LowerChar(c) == LowerChar(d)
  {
    if SameLetter(c, d) { SameIsLower(c, d); }
    if LowerChar(c) == LowerChar(d) { LowerIsSame(c, d); }
  }

  /** Lower-casing makes exactly the texts equal that differ in letter case at most, and leaves no capital. */
  lemma LowerExactly(a: string, b: string)
    ensures Lower(a) == Lower(b) <==> SameLetters(a, b)
    ensures NoCapitals(Lower(a)) && SameLetters(a, Lower(a))
    ensures NoCapitals(a) ==> Lower(a) == a
  {
    forall i | 0 <= i < |a| ensures Lower(a)[i] !in CAPITALS && SameLetter(a[i], Lower(a)[i]) {
      CapitalAt(a[i]);
      CapitalAt(LowerChar(a[i]));
      LowerSame(a[i], LowerChar(a[i]));
    }
    if NoCapitals(a) {
      forall i | 0 <= i < |a| ensures Lower(a)[i] == a[i] { CapitalAt(a[i]); }
    }
    if |a| == |b| {
      forall i | 0 <= i < |a| ensures SameLetter(a[i], b[i]) <==> Lower(a)[i] == Lower(b)[i] { LowerSame(a[i], b[i]); }
    }
    if Lower(a) == Lower(b) { assert |a| == |Lower(a)| == |Lower(b)| == |b|; }
  }

  lemma {:induction false} TrimLeftSpaces(a: string, s: string)
    requires AllSpace(a)
    ensures TrimLeftSpace(a + s) == TrimLeftSpace(s)
  {
    if a == "" {
      assert a + s == s;
    } else {
      TrimLeftSpaces(a[1..], s);
      assert (a + s)[1..] == a[1..] + s;
    }
  }

  lemma {:induction false} TrimRightSpaces(s: string, b: string)
    requires AllSpace(b)
    ensures TrimRightSpace(s + b) == TrimRightSpace(s)
  {
    if b == "" {
      assert s + b == s;
    } else {
      TrimRightSpaces(s, b[..|b| - 1]);
      assert (s + b)[..|s + b| - 1] == s + b[..|b| - 1];
    }
  }

  /** Trimming takes the blanks around a tight text and nothing else. */
  lemma TrimExactly(a: string, s: string, b: string)
    requires AllSpace(a) && AllSpace(b) && Tight(s) && s != ""
    ensures TrimSpace(a + s + b) == s
  {
    assert a + s + b == a + (s + b);
    TrimLeftSpaces(a, s + b);
    assert (s + b)[0] == s[0];
    TrimRightSpaces(s, b);
    assert TrimRightSpace(s) == s;
  }

  lemma TrimOfSpaces(a: string)
    requires AllSpace(a)
    ensures TrimSpace(a) == ""
  {
    TrimLeftSpaces(a, "");
    assert a + "" == a;
  }

  // ----- order and digits -----

  /** Digits are the ten of the alphabet, and each further one is worth its place in it. */
  lemma DigitsRead(s: string, k: nat)
    requires k < 10
    ensures AllDigits(s) <==> AllIn(s, DIGITS)
    ensures AllDigits(s) ==> AllDigits(s + [DIGITS[k]]) && Value(s + [DIGITS[k]]) == 10 * Value(s) + k
    ensures Value("") == 0
  {
    CapitalCode();
    forall i | 0 <= i < |s| ensures IsDigit(s[i]) <==> s[i] in DIGITS { CapitalAt(s[i]); }
    assert (s + [DIGITS[k]])[..|s|] == s;
  }

  /** Decimal text has no leading zero. */
  lemma {:induction false} NoLeadingZero(n: nat)
    ensures n > 0 ==> Decimal(n)[0] != '0'
    ensures Decimal(0) == "0"
  {
    if n >= 10 { NoLeadingZero(n / 10); }
  }

  /** The order puts a text behind its prefixes and otherwise goes by the first characters that differ. */
  lemma {:induction false} LessExactly(p: string, a: string, b: string)
    ensures Less(p + a, p + b) <==> (a == "" && b != "") || (a != "" && b != "" && (a[0] < b[0] || (a[0] == b[0] && Less(a[1..], b[1..]))))
  {
    if p == "" {
      assert p + a == a && p + b == b;
    } else {
      LessExactly(p[1..], a, b);
      assert (p + a)[1..] == p[1..] + a && (p + b)[1..] == p[1..] + b;
    }
  }

  // ----- numbers -----

  predicate InRange(i: int) {
    -0x8000_0000_0000_0000 <= i < 0x8000_0000_0000_0000
  }

  ghost predicate Signed(t: string, sign: string, digits: string, i: int) {
    && t == sign + digits && (sign == "" || sign == "+" || sign == "-") && digits != "" && AllDigits(digits)
    && i == (if sign == "-" then 0 - Value(digits) else Value(digits))
    && InRange(i)
  }

  /** A 64-bit integer in decimal, with or without a sign. */
  ghost predicate Number(t: string, i: int) {
    exists sign, digits :: Signed(t, sign, digits, i)
  }

  lemma UnsignedReads(digits: string)
    requires digits != "" && AllDigits(digits) && InRange(Value(digits))
    ensures Atoi(digits) == Some(Value(digits))
  {
    assert IsDigit(digits[0]);
  }

  lemma SignReads(t: string, digits: string)
    requires t != "" && (t[0] == '-' || t[0] == '+') && t[1..] == digits && digits != "" && AllDigits(digits)
    ensures t[0] == '-' && InRange(0 - Value(digits)) ==> Atoi(t) == Some(0 - Value(digits))
    ensures t[0] == '+' && InRange(Value(digits)) ==> Atoi(t) == Some(Value(digits))
  {
  }

  lemma SignedReads(t: string, sign: string, digits: string, i: int)
    requires Signed(t, sign, digits, i)
    ensures Atoi(t) == Some(i)
  {
    if sign == "" {
      assert t == digits;
      UnsignedReads(digits);
    } else {
      assert t[0] == sign[0];
      assert t[1..] == digits;
      SignReads(t, digits);
    }
  }

  lemma NumberExactly(t: string, i: int)
    ensures Atoi(t) == Some(i) <==> Number(t, i)
  {
    if Atoi(t) == Some(i) {
      var sign := if t[0] == '-' then "-" else if t[0] == '+' then "+" else "";
      var digits := t[|sign|..];
      assert t == sign + digits;
      assert Signed(t, sign, digits, i);
    }
    forall sign, digits | Signed(t, sign, digits, i) ensures Atoi(t) == Some(i) { SignedReads(t, sign, digits, i); }
  }

  lemma NoNumber(t: string)
    ensures Atoi(t).None? <==> forall i :: !Number(t, i)
  {
    if Atoi(t).Some? { NumberExactly(t, Atoi(t).value); }
    forall i ensures Atoi(t) == Some(i) <==> Number(t, i) { NumberExactly(t, i); }
  }
}
