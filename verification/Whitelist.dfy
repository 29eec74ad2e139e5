/** The domain whitelist of internal/policy/whitelist/whitelist.go: parsing, publishing and matching. */
module Whitelist {
  import opened Wrappers
  import opened Text

  /** exact holds bare domains; suffix holds domains behind a leading dot. */
  datatype List = List(version: string, exact: set<string>, suffix: set<string>)

  function TrimPrefix(s: string, prefix: string): string {
    if prefix <= s then s[|prefix|..] else s
  }

  function TrimSuffix(s: string, suffix: string): string {
    if HasSuffix(s, suffix) then s[..|s| - |suffix|] else s
  }

  /** An entry's text after trimming, lower-casing and dropping one trailing dot. */
  function Clean(e: string): string {
    TrimSuffix(Lower(TrimSpace(e)), ".")
  }

  /** What an entry asks for: a domain with its subdomains, or (not bare) the subdomains alone. */
  datatype Rule = Rule(domain: string, bare: bool)

  /** Blank entries and comments ask for nothing. */
  function RuleOfText(c: string): Option<Rule> {
    if c == "" || "#" <= c then None
    else if "*." <= c then Some(Rule(c[2..], false))
    else if "." <= c then Some(Rule(c[1..], true))
    else Some(Rule(c, true))
  }

  function RuleOf(e: string): Option<Rule> {
    RuleOfText(Clean(e))
  }

  function AddEntry(l: List, e: string): List {
    var r := RuleOf(e);
    if r.None? then l
    else List(l.version, if r.value.bare then l.exact + {r.value.domain} else l.exact, l.suffix + {"." + r.value.domain})
  }

  function ParseAll(version: string, entries: seq<string>): List
    decreases |entries|
  {
    if entries == [] then List(version, {}, {})
    else AddEntry(ParseAll(version, entries[..|entries| - 1]), entries[|entries| - 1])
  }

  method Parse(version: string, entries: seq<string>) returns (l: List)
    ensures l == ParseAll(version, entries)
  {
    var exact, suffix := {}, {};
    var i := 0;
    while i < |entries|
      invariant 0 <= i <= |entries|
      invariant List(version, exact, suffix) == ParseAll(version, entries[..i])
    {
      assert entries[..i + 1][..i] == entries[..i];
      var e := TrimSuffix(Lower(TrimSpace(entries[i])), ".");
      i := i + 1;
      if e == "" || "#" <= e { continue; }
      if "*." <= e {
        assert e[1..] == "." + e[2..];
        suffix := suffix + {TrimPrefix(e, "*")};
      } else if "." <= e {
        assert e == "." + e[1..];
        suffix := suffix + {e};
        exact := exact + {TrimPrefix(e, ".")};
      } else {
        exact := exact + {e};
        suffix := suffix + {"." + e};
      }
    }
    assert entries[..i] == entries;
    l := List(version, exact, suffix);
  }

  /** The domains a list publishes. */
  function Domains(l: List): set<string> {
    l.exact + set s | s in l.suffix :: TrimPrefix(s, ".")
  }

  ghost predicate Distinct(s: seq<string>) {
    forall i, j :: 0 <= i < j < |s| ==> s[i] != s[j]
  }

  /** The published entries: every domain once, in order. */
  ghost predicate Lists(out: seq<string>, domains: set<string>) {
    Sorted(out) && Distinct(out) && forall d :: d in domains <==> d in out
  }

  method Entries(l: List) returns (out: seq<string>)
    ensures Lists(out, Domains(l))
  {
    out := [];
    var rest := l.exact;
    while rest != {}
      invariant rest <= l.exact && Distinct(out)
      invariant forall d :: d in out <==> d in l.exact && d !in rest
      decreases rest
    {
      var d :| d in rest;
      if d !in out { out := out + [d]; }
      rest := rest - {d};
    }
    rest := l.suffix;
    ghost var done := {};
    while rest != {}
      invariant done + rest == l.suffix && Distinct(out)
      invariant forall d :: d in out <==> d in l.exact || exists s :: s in done && d == TrimPrefix(s, ".")
      decreases rest
    {
      var s :| s in rest;
      var d := TrimPrefix(s, ".");
      if d !in out { out := out + [d]; }
      rest := rest - {s};
      done := done + {s};
    }
    assert forall d :: d in Domains(l) <==> d in out;
    var a := new string[|out|](i requires 0 <= i < |out| => out[i]);
    assert a[..] == out;
    InsertionSort(a);
    SortKeepsSet(out);
    out := a[..];
  }

  lemma SortKeepsSet(s: seq<string>)
    requires Distinct(s)
    ensures Sorted(Sort(s)) && Distinct(Sort(s))
    ensures forall d :: d in Sort(s) <==> d in s
  {
    SortSorts(s);
    var t := Sort(s);
    forall d
      ensures d in t <==> d in s
    {
      assert d in t <==> d in multiset(t);
      assert d in s <==> d in multiset(s);
    }
    DistinctSet(s);
    DistinctFromCount(t);
  }

  lemma {:induction false} DistinctSet(s: seq<string>)
    requires Distinct(s)
    ensures forall d :: multiset(s)[d] <= 1
  {
    if s != [] {
      DistinctSet(s[1..]);
      assert s == [s[0]] + s[1..];
      assert s[0] !in s[1..];
    }
  }

  lemma DistinctFromCount(t: seq<string>)
    requires forall d :: multiset(t)[d] <= 1
    ensures Distinct(t)
  {
    forall i, j | 0 <= i < j < |t|
      ensures t[i] != t[j]
    {
      if t[i] == t[j] { CountTwice(t, i, j); }
    }
  }

  lemma CountTwice(t: seq<string>, i: nat, j: nat)
    requires i < j < |t| && t[i] == t[j]
    ensures multiset(t)[t[i]] >= 2
  {
    assert t == t[..j] + [t[j]] + t[j + 1..];
    assert t[i] in t[..j];
  }

  // ----- matching -----

  function LastIndexOf(s: string, c: char): (at: int)
    ensures -1 <= at < |s| && (at >= 0 ==> s[at] == c) && forall j :: at < j < |s| ==> s[j] != c
  {
    if s == "" then -1
    else if s[|s| - 1] == c then |s| - 1
    else LastIndexOf(s[..|s| - 1], c)
  }

  predicate IsAllDigits(s: string) {
    s != "" && AllDigits(s)
  }

  function StripPort(h: string): string {
    var at := LastIndexOf(h, ':');
    if at < 0 then h
    else
      var tail := h[at + 1..];
      if IsAllDigits(tail) || (Contains(h, "]") && at == |h| - 1) then
        if (IsAllDigits(tail) && !("[" <= h)) || HasSuffix(h, "]") then h[..at] else h
      else h
  }

  function StripBrackets(h: string): string {
    if "[" <= h && HasSuffix(h, "]") then
      assert h[0] == '[' && h[|h| - 1..][0] == ']';
      h[1..|h| - 1]
    else h
  }

  function NormalizeHost(host: string): string {
    StripBrackets(TrimSuffix(StripPort(Lower(TrimSpace(host))), "."))
  }

  predicate Found(l: List, h: string) {
    h in l.exact || exists s :: s in l.suffix && HasSuffix(h, s)
  }

  predicate Accepts(l: List, host: string, isIP: string -> bool) {
    var h := NormalizeHost(host);
    h != "" && !isIP(h) && Found(l, h)
  }

  method Match(l: List, host: string, isIP: string -> bool) returns (ok: bool)
    ensures ok == Accepts(l, host, isIP)
  {
    var h := NormalizeHost(host);
    if h == "" || isIP(h) { return false; }
    if h in l.exact { return true; }
    var rest := l.suffix;
    while rest != {}
      invariant rest <= l.suffix && forall s :: s in l.suffix && s !in rest ==> !HasSuffix(h, s)
      decreases rest
    {
      var s :| s in rest;
      if HasSuffix(h, s) { return true; }
      rest := rest - {s};
    }
    ok := false;
  }

  // ----- republication -----

  /** A domain that reads as itself when it is published as an entry. */
  predicate Plain(d: string) {
    && d != "" && Lower(d) == d && Tight(d) && d[|d| - 1] != '.'
    && d[0] != '.' && d[0] != '#' && !("*." <= d)
  }
}
