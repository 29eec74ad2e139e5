/** The whitelist as a set of label lists, and what a client sees of a list that the server publishes. */
module WhitelistMeaning {
  import opened Wrappers
  import opened Text
  import opened Whitelist

  // ----- labels -----

  function Labels(name: string): seq<string> {
    Split(name, '.')
  }

  predicate ProperSuffix(a: seq<string>, b: seq<string>) {
    |a| < |b| && b[|b| - |a|..] == a
  }

  lemma SameLabels(a: string, b: string)
    ensures Labels(a) == Labels(b) <==> a == b
  {
    JoinSplit(a, '.');
    JoinSplit(b, '.');
  }

  lemma SuffixGivesLabels(h: string, d: string)
    requires HasSuffix(h, "." + d)
    ensures ProperSuffix(Labels(d), Labels(h))
  {
    var p := h[..|h| - |d| - 1];
    assert h == p + "." + d;
    SplitConcat(p, d, '.');
  }

  lemma LabelsGiveSuffix(h: string, d: string)
    requires ProperSuffix(Labels(d), Labels(h))
    ensures HasSuffix(h, "." + d)
  {
    var front := Labels(h)[..|Labels(h)| - |Labels(d)|];
    assert Labels(h) == front + Labels(d);
    JoinConcat(front, Labels(d), '.');
    JoinSplit(h, '.');
    JoinSplit(d, '.');
    assert h == Join(front, '.') + ("." + d);
    EndsIn(Join(front, '.'), "." + d);
  }

  lemma EndsIn(p: string, s: string)
    ensures HasSuffix(p + s, s)
  {
  }

  /** Ending in a dot and the domain is having the domain's labels as a proper suffix. */
  lemma SuffixIsLabelSuffix(h: string, d: string)
    ensures HasSuffix(h, "." + d) <==> ProperSuffix(Labels(d), Labels(h))
  {
    if HasSuffix(h, "." + d) { SuffixGivesLabels(h, d); }
    if ProperSuffix(Labels(d), Labels(h)) { LabelsGiveSuffix(h, d); }
  }

  // ----- what a list accepts -----

  /** An entry covers its domain, unless it is a "*." entry, and every name below the domain. */
  predicate Covers(e: string, h: string) {
    && RuleOf(e).Some?
    && var r := RuleOf(e).value;
       (r.bare && Labels(h) == Labels(r.domain)) || ProperSuffix(Labels(r.domain), Labels(h))
  }

  ghost predicate AsksBare(es: seq<string>, d: string) {
    exists e :: e in es && RuleOf(e) == Some(Rule(d, true))
  }

  ghost predicate Asks(es: seq<string>, d: string) {
    exists e :: e in es && RuleOf(e).Some? && RuleOf(e).value.domain == d
  }

  lemma AsksLast(es: seq<string>, d: string)
    requires es != []
    ensures var init, r := es[..|es| - 1], RuleOf(es[|es| - 1]);
            && (AsksBare(es, d) <==> AsksBare(init, d) || r == Some(Rule(d, true)))
            && (Asks(es, d) <==> Asks(init, d) || (r.Some? && r.value.domain == d))
  {
    assert es == es[..|es| - 1] + [es[|es| - 1]];
  }

  lemma {:induction false} ExactMembers(version: string, es: seq<string>, d: string)
    ensures d in ParseAll(version, es).exact <==> AsksBare(es, d)
    decreases |es|
  {
    if es != [] {
      AsksLast(es, d);
      ExactMembers(version, es[..|es| - 1], d);
    }
  }

  lemma AddedSuffix(l: List, e: string, s: string)
    ensures s in AddEntry(l, e).suffix <==>
            s in l.suffix || ("." <= s && RuleOf(e).Some? && RuleOf(e).value.domain == s[1..])
  {
    var r := RuleOf(e);
    if r.Some? {
      assert ("." + r.value.domain)[1..] == r.value.domain;
      assert "." <= s ==> s == "." + s[1..];
    }
  }

  /** Every suffix is a dot and a domain that some entry asks for. */
  lemma {:induction false} SuffixMembers(version: string, es: seq<string>, s: string)
    ensures s in ParseAll(version, es).suffix <==> "." <= s && Asks(es, s[1..])
    decreases |es|
  {
    if es != [] {
      var init := es[..|es| - 1];
      if "." <= s { AsksLast(es, s[1..]); }
      SuffixMembers(version, init, s);
      AddedSuffix(ParseAll(version, init), es[|es| - 1], s);
    }
  }

  /** Matching by strings is matching by labels, for every list of entries and every host. */
  lemma MatchMeaning(version: string, es: seq<string>, host: string, isIP: string -> bool)
    ensures Accepts(ParseAll(version, es), host, isIP)
       <==> var h := NormalizeHost(host); h != "" && !isIP(h) && exists e :: e in es && Covers(e, h)
  {
    FoundIffCovered(version, es, NormalizeHost(host));
  }

  lemma FoundIffCovered(version: string, es: seq<string>, h: string)
    ensures Found(ParseAll(version, es), h) <==> exists e :: e in es && Covers(e, h)
  {
    var l := ParseAll(version, es);
    if h in l.exact {
      ExactMembers(version, es, h);
      var e :| e in es && RuleOf(e) == Some(Rule(h, true));
      assert Covers(e, h);
    }
    forall s | s in l.suffix && HasSuffix(h, s)
      ensures exists e :: e in es && Covers(e, h)
    {
      SuffixIsCovered(version, es, h, s);
    }
    forall e | e in es && Covers(e, h)
      ensures Found(l, h)
    {
      CoveredIsFound(version, es, e, h);
    }
  }

  lemma SuffixIsCovered(version: string, es: seq<string>, h: string, s: string)
    requires s in ParseAll(version, es).suffix && HasSuffix(h, s)
    ensures exists e :: e in es && Covers(e, h)
  {
    SuffixMembers(version, es, s);
    assert s == "." + s[1..];
    SuffixIsLabelSuffix(h, s[1..]);
    var e :| e in es && RuleOf(e).Some? && RuleOf(e).value.domain == s[1..];
    assert Covers(e, h);
  }

  lemma CoveredIsFound(version: string, es: seq<string>, e: string, h: string)
    requires e in es && Covers(e, h)
    ensures Found(ParseAll(version, es), h)
  {
    var r := RuleOf(e).value;
    if ProperSuffix(Labels(r.domain), Labels(h)) {
      SuffixIsLabelSuffix(h, r.domain);
      assert ("." + r.domain)[1..] == r.domain;
      SuffixMembers(version, es, "." + r.domain);
    } else {
      SameLabels(h, r.domain);
      ExactMembers(version, es, h);
    }
  }

  // ----- hosts -----

  /** The branch for bracketed addresses never strips anything: a port goes only from a name without a bracket in front. */
  lemma PortRule(h: string)
    ensures var at := LastIndexOf(h, ':');
            StripPort(h) == if at >= 0 && IsAllDigits(h[at + 1..]) && !("[" <= h) then h[..at] else h
  {
    var at := LastIndexOf(h, ':');
    if at >= 0 && IsAllDigits(h[at + 1..]) {
      assert IsDigit(h[at + 1..][|h| - at - 2]);
    }
  }

  /** A host name: no space around it, no colon, no bracket in front, no dot behind. */
  predicate Name(name: string) {
    name != "" && Tight(name) && ':' !in name && name[0] != '[' && name[|name| - 1] != '.'
  }

  /** Case, one trailing dot and a port make no difference to a name. */
  lemma HostDressing(name: string, port: string)
    requires Name(name) && IsAllDigits(port)
    ensures NormalizeHost(name) == NormalizeHost(Lower(name)) == Lower(name)
    ensures NormalizeHost(name + ".") == NormalizeHost(name + ":" + port) == Lower(name)
  {
    LowerName(name);
    NameOnly(name);
    NameOnly(Lower(name));
    LowerTwice(name);
    TrailingDot(name);
    WithPort(name, port);
  }

  lemma LowerName(name: string)
    requires Name(name)
    ensures Name(Lower(name))
  {
  }

  lemma NameOnly(name: string)
    requires Name(name)
    ensures NormalizeHost(name) == Lower(name)
  {
    TrimTight(name);
    LowerName(name);
  }

  lemma NoPort(h: string)
    requires ':' !in h
    ensures StripPort(h) == h
  {
  }

  lemma TrailingDot(name: string)
    requires Name(name)
    ensures NormalizeHost(name + ".") == Lower(name)
  {
    var s, l := name + ".", Lower(name) + ".";
    TrimTight(s);
    LowerName(name);
    assert Lower(s) == l;
    NoPort(l);
    DotGoes(Lower(name));
  }

  lemma DotGoes(s: string)
    ensures TrimSuffix(s + ".", ".") == s
  {
    assert (s + ".")[|s|..] == "." && (s + ".")[..|s|] == s;
  }

  lemma PortGoes(name: string, port: string)
    requires Name(name) && IsAllDigits(port)
    ensures StripPort(name + ":" + port) == name
  {
    var h := name + ":" + port;
    var at := LastIndexOf(h, ':');
    forall j | |name| < j < |h|
      ensures h[j] != ':'
    {
      assert IsDigit(port[j - |name| - 1]);
    }
    assert h[|name|] == ':';
    assert h[at + 1..] == port && h[..at] == name;
    PortRule(h);
  }

  lemma PortedText(name: string, port: string)
    requires Name(name) && IsAllDigits(port)
    ensures var s := name + ":" + port; TrimSpace(s) == s && Lower(s) == Lower(name) + ":" + port
  {
    var s := name + ":" + port;
    assert s[|s| - 1] == port[|port| - 1];
    assert IsDigit(port[|port| - 1]);
    TrimTight(s);
  }

  lemma WithPort(name: string, port: string)
    requires Name(name) && IsAllDigits(port)
    ensures NormalizeHost(name + ":" + port) == Lower(name)
  {
    PortedText(name, port);
    LowerName(name);
    PortGoes(Lower(name), port);
  }

  // ----- republication -----

  /** The list a client builds from published entries when every domain reads as itself. */
  function Published(version: string, domains: set<string>): List {
    List(version, domains, set d | d in domains :: "." + d)
  }

  lemma TrimSpaceLength(s: string)
    ensures |TrimSpace(s)| <= |s| && (|TrimSpace(s)| == |s| ==> Tight(s) && TrimSpace(s) == s)
  {
    TrimLeftLength(s);
    TrimRightTight(TrimLeftSpace(s));
    TrimIsTight(s);
  }

  lemma {:induction false} TrimLeftLength(s: string)
    ensures |TrimLeftSpace(s)| <= |s| && (|TrimLeftSpace(s)| == |s| ==> TrimLeftSpace(s) == s)
  {
    if s != "" && IsSpace(s[0]) { TrimLeftLength(s[1..]); }
  }

  lemma CleanText(e: string)
    ensures Lower(Clean(e)) == Clean(e) && |Clean(e)| <= |e|
    ensures |Clean(e)| == |e| ==> Clean(e) == Lower(e) && Tight(e)
  {
    TrimSpaceLength(e);
    var t := Lower(TrimSpace(e));
    assert Clean(e) <= t;
    LowerPrefix(t, Clean(e));
  }

  lemma LowerPrefix(t: string, c: string)
    requires c <= t && Lower(t) == t
    ensures Lower(c) == c
  {
    assert forall i :: 0 <= i < |c| ==> Lower(t)[i] == c[i];
  }

  lemma RuleIsTail(c: string)
    requires RuleOfText(c).Some?
    ensures var d := RuleOfText(c).value.domain; |d| <= |c| && c[|c| - |d|..] == d
    ensures |RuleOfText(c).value.domain| == |c| ==> RuleOfText(c) == Some(Rule(c, true))
  {
  }

  lemma LowerTail(c: string, d: string)
    requires |d| <= |c| && c[|c| - |d|..] == d && Lower(c) == c
    ensures Lower(d) == d
  {
    assert forall i :: 0 <= i < |d| ==> d[i] == Lower(c)[|c| - |d| + i];
  }

  lemma RuleIsLower(e: string)
    requires RuleOf(e).Some?
    ensures Lower(RuleOf(e).value.domain) == RuleOf(e).value.domain
  {
    CleanText(e);
    RuleIsTail(Clean(e));
    LowerTail(Clean(e), RuleOf(e).value.domain);
  }

  /** A rule's domain is no longer than its entry, and as long only when the entry is the domain itself. */
  lemma RuleShrinks(e: string)
    requires RuleOf(e).Some?
    ensures |RuleOf(e).value.domain| <= |e|
    ensures |RuleOf(e).value.domain| == |e| ==> RuleOf(e) == Some(Rule(Lower(e), true)) && Tight(e)
  {
    CleanText(e);
    RuleIsTail(Clean(e));
  }

  lemma PlainIsClean(d: string)
    requires Plain(d)
    ensures Clean(d) == d
  {
    TrimTight(d);
  }

  /** The domains that read as themselves are exactly the plain ones. */
  lemma PlainReadsAsItself(d: string)
    ensures RuleOf(d) == Some(Rule(d, true)) <==> Plain(d)
  {
    if Plain(d) {
      PlainIsClean(d);
    } else if RuleOf(d) == Some(Rule(d, true)) {
      RuleShrinks(d);
      ItselfIsPlain(d);
    }
  }

  lemma ItselfIsPlain(d: string)
    requires RuleOf(d) == Some(Rule(d, true)) && Lower(d) == d && Tight(d)
    ensures Plain(d)
  {
    TrimTight(d);
    CleanText(d);
    RuleIsTail(Clean(d));
  }

  /** All domains of a parsed list are the domains of its rules, in lower case. */
  lemma DomainsAreRules(version: string, es: seq<string>, d: string)
    ensures d in Domains(ParseAll(version, es)) <==> Asks(es, d)
    ensures d in Domains(ParseAll(version, es)) ==> Lower(d) == d
  {
    var l := ParseAll(version, es);
    ExactMembers(version, es, d);
    assert ("." + d)[1..] == d && TrimPrefix("." + d, ".") == d;
    SuffixMembers(version, es, "." + d);
    forall s | s in l.suffix && TrimPrefix(s, ".") == d
      ensures Asks(es, d)
    {
      SuffixMembers(version, es, s);
    }
    if Asks(es, d) {
      var e :| e in es && RuleOf(e).Some? && RuleOf(e).value.domain == d;
      RuleIsLower(e);
    }
  }

  ghost predicate AllPlain(domains: set<string>) {
    forall d :: d in domains ==> Plain(d)
  }

  lemma PlainAsks(domains: set<string>, out: seq<string>, d: string)
    requires Lists(out, domains) && AllPlain(domains)
    ensures d in domains <==> Asks(out, d)
    ensures d in domains <==> AsksBare(out, d)
  {
    forall e | e in out
      ensures RuleOf(e) == Some(Rule(e, true))
    {
      PlainReadsAsItself(e);
    }
  }

  lemma PlainRepublishes(domains: set<string>, out: seq<string>, version: string)
    requires Lists(out, domains) && AllPlain(domains)
    ensures ParseAll(version, out) == Published(version, domains)
  {
    var l, p := ParseAll(version, out), Published(version, domains);
    forall d
      ensures d in l.exact <==> d in p.exact
    {
      ExactMembers(version, out, d);
      PlainAsks(domains, out, d);
    }
    forall s
      ensures s in l.suffix <==> s in p.suffix
    {
      SuffixMembers(version, out, s);
      PublishedSuffix(version, domains, s);
      if "." <= s { PlainAsks(domains, out, s[1..]); }
    }
    VersionKept(version, out);
  }

  lemma PublishedSuffix(version: string, domains: set<string>, s: string)
    ensures s in Published(version, domains).suffix <==> "." <= s && s[1..] in domains
  {
    if "." <= s { assert s == "." + s[1..]; }
    forall d | d in domains && s == "." + d
      ensures s[1..] == d
    {
    }
  }

  lemma {:induction false} VersionKept(version: string, es: seq<string>)
    ensures ParseAll(version, es).version == version
    decreases |es|
  {
    if es != [] { VersionKept(version, es[..|es| - 1]); }
  }

  /** Some domain of the set, read as an entry, asks for x. */
  ghost predicate AskedWithin(domains: set<string>, x: string) {
    exists y :: y in domains && RuleOf(y).Some? && RuleOf(y).value.domain == x
  }

  /** If every domain is asked for within the set, a domain that is not plain has a longer one like it. */
  lemma {:induction false} NoLongestUnplain(domains: set<string>, d: string, bound: nat)
    requires d in domains && !Plain(d)
    requires forall x :: x in domains ==> |x| <= bound
    requires forall x :: x in domains ==> Lower(x) == x && AskedWithin(domains, x)
    ensures false
    decreases bound - |d|
  {
    var y :| y in domains && RuleOf(y).Some? && RuleOf(y).value.domain == d;
    RuleShrinks(y);
    PlainReadsAsItself(y);
    PlainReadsAsItself(d);
    NoLongestUnplain(domains, y, bound);
  }

  lemma {:induction false} LengthBound(domains: set<string>) returns (bound: nat)
    ensures forall x :: x in domains ==> |x| <= bound
    decreases domains
  {
    if domains == {} {
      bound := 0;
    } else {
      var d :| d in domains;
      var b := LengthBound(domains - {d});
      bound := if b < |d| then |d| else b;
    }
  }

  lemma PublishedIsAsked(domains: set<string>, out: seq<string>, w: string, x: string)
    requires Lists(out, domains) && ParseAll(w, out) == Published(w, domains) && x in domains
    ensures AskedWithin(domains, x)
  {
    var s := "." + x;
    PublishedSuffix(w, domains, s);
    SuffixMembers(w, out, s);
    assert s[1..] == x;
    assert Asks(out, x);
  }

  lemma ExactImpliesPlain(domains: set<string>, out: seq<string>, w: string)
    requires Lists(out, domains) && ParseAll(w, out) == Published(w, domains)
    requires forall x :: x in domains ==> Lower(x) == x
    ensures AllPlain(domains)
  {
    forall x | x in domains
      ensures AskedWithin(domains, x)
    {
      PublishedIsAsked(domains, out, w, x);
    }
    var bound := LengthBound(domains);
    forall d | d in domains
      ensures Plain(d)
    {
      if !Plain(d) { NoLongestUnplain(domains, d, bound); }
    }
  }

  /**
    * A list that the server publishes and a client parses again holds exactly the
    * published domains, with their subdomains, if and only if all of them are plain.
    */
  lemma RepublicationExact(v: string, es: seq<string>, out: seq<string>, w: string)
    requires Lists(out, Domains(ParseAll(v, es)))
    ensures var domains := Domains(ParseAll(v, es));
            ParseAll(w, out) == Published(w, domains) <==> AllPlain(domains)
  {
    var domains := Domains(ParseAll(v, es));
    forall x | x in domains
      ensures Lower(x) == x
    {
      DomainsAreRules(v, es, x);
    }
    if AllPlain(domains) {
      PlainRepublishes(domains, out, w);
    } else if ParseAll(w, out) == Published(w, domains) {
      ExactImpliesPlain(domains, out, w);
    }
  }

  /** The client then accepts the hosts that the server accepts and the bare domains of "*." entries. */
  lemma RepublishedHosts(v: string, es: seq<string>, out: seq<string>, w: string, host: string, isIP: string -> bool)
    requires Lists(out, Domains(ParseAll(v, es))) && AllPlain(Domains(ParseAll(v, es)))
    ensures var h := NormalizeHost(host);
            Accepts(ParseAll(w, out), host, isIP)
            <==> || Accepts(ParseAll(v, es), host, isIP)
                 || (h != "" && !isIP(h) && exists e :: e in es && RuleOf(e) == Some(Rule(h, false)))
  {
    var l, h := ParseAll(v, es), NormalizeHost(host);
    PlainRepublishes(Domains(l), out, w);
    DomainsAreRules(v, es, h);
    ExactMembers(v, es, h);
    forall s
      ensures s in l.suffix <==> s in Published(w, Domains(l)).suffix
    {
      SuffixesPublished(v, es, w, s);
    }
  }

  lemma SuffixesPublished(v: string, es: seq<string>, w: string, s: string)
    ensures s in ParseAll(v, es).suffix <==> s in Published(w, Domains(ParseAll(v, es))).suffix
  {
    var l := ParseAll(v, es);
    SuffixMembers(v, es, s);
    if s in l.suffix {
      assert TrimPrefix(s, ".") in Domains(l);
    }
    forall d | d in Domains(l) && s == "." + d
      ensures s in l.suffix
    {
      DomainsAreRules(v, es, d);
    }
  }

  /** Where a domain is not plain, the client may accept a host that the server does not: an entry with a doubled
    * dot in front admits, once republished, the name behind the dots. */
  lemma DoubledDotWidens(v: string, w: string, name: string, out: seq<string>, isIP: string -> bool)
    requires Plain(name) && Name(name) && !isIP(name) && Lists(out, Domains(ParseAll(v, [".." + name])))
    ensures !Accepts(ParseAll(v, [".." + name]), name, isIP) && Accepts(ParseAll(w, out), name, isIP)
  {
    NameOnly(name);
    DottedRules(name);
    DoubledDotRefuses(v, name, isIP);
    DoubledDotPublishes(v, name);
    IsListed(out, Domains(ParseAll(v, [".." + name])), "." + name);
    DotAccepts(w, out, name, isIP);
  }

  lemma IsListed(out: seq<string>, domains: set<string>, d: string)
    requires Lists(out, domains) && d in domains
    ensures d in out
  {
  }

  lemma DoubledDotPublishes(v: string, name: string)
    requires RuleOf(".." + name) == Some(Rule("." + name, true))
    ensures "." + name in Domains(ParseAll(v, [".." + name]))
  {
    var entry := ".." + name;
    DomainsAreRules(v, [entry], "." + name);
    assert entry in [entry];
  }

  lemma DotAccepts(w: string, out: seq<string>, name: string, isIP: string -> bool)
    requires "." + name in out && RuleOf("." + name) == Some(Rule(name, true))
    requires name != "" && NormalizeHost(name) == name && !isIP(name)
    ensures Accepts(ParseAll(w, out), name, isIP)
  {
    MatchMeaning(w, out, name, isIP);
    assert Covers("." + name, name);
  }

  lemma CleanAlready(e: string)
    requires e != "" && Tight(e) && Lower(e) == e && e[|e| - 1] != '.'
    ensures Clean(e) == e
  {
    TrimTight(e);
  }

  /** A dot in front of a text that ends well is taken off. */
  lemma DottedRule(d: string)
    requires d != "" && Lower(d) == d && !IsSpace(d[|d| - 1]) && d[|d| - 1] != '.'
    ensures RuleOf("." + d) == Some(Rule(d, true))
  {
    DotLower(d);
    CleanAlready("." + d);
    DotText(d);
  }

  lemma DotLower(d: string)
    requires Lower(d) == d
    ensures Lower("." + d) == "." + d
  {
  }

  lemma DotEnds(d: string)
    requires d != ""
    ensures ("." + d)[|"." + d| - 1] == d[|d| - 1] && "." + ("." + d) == ".." + d
  {
  }

  lemma DotText(d: string)
    requires d != ""
    ensures RuleOfText("." + d) == Some(Rule(d, true))
  {
    var c := "." + d;
    assert c[0] == '.' && c[1..] == d;
  }

  lemma DottedRules(name: string)
    requires Plain(name)
    ensures RuleOf("." + name) == Some(Rule(name, true)) && RuleOf(".." + name) == Some(Rule("." + name, true))
  {
    DottedRule(name);
    DotLower(name);
    DotEnds(name);
    DottedRule("." + name);
  }

  lemma DoubledDotRefuses(v: string, name: string, isIP: string -> bool)
    requires name != "" && RuleOf(".." + name) == Some(Rule("." + name, true)) && NormalizeHost(name) == name
    ensures !Accepts(ParseAll(v, [".." + name]), name, isIP)
  {
    MatchMeaning(v, [".." + name], name, isIP);
    SameLabels(name, "." + name);
    SuffixIsLabelSuffix(name, "." + name);
    assert forall e :: e in [".." + name] ==> !Covers(e, name);
  }

  /** Publishing what was republished gives the same entries again. */
  lemma RepublicationSettles(v: string, es: seq<string>, out: seq<string>, w: string, again: seq<string>)
    requires Lists(out, Domains(ParseAll(v, es))) && AllPlain(Domains(ParseAll(v, es)))
    requires Lists(again, Domains(ParseAll(w, out)))
    ensures again == out
  {
    var domains := Domains(ParseAll(v, es));
    PlainRepublishes(domains, out, w);
    forall d
      ensures d in Domains(Published(w, domains)) <==> d in domains
    {
      assert TrimPrefix("." + d, ".") == d;
    }
    assert Domains(ParseAll(w, out)) == domains;
    SortedSetUnique(again, out);
  }

  lemma SortedSetUnique(a: seq<string>, b: seq<string>)
    requires Sorted(a) && Sorted(b) && Distinct(a) && Distinct(b) && forall x :: x in a <==> x in b
    ensures a == b
  {
    DistinctSet(a);
    DistinctSet(b);
    forall x
      ensures multiset(a)[x] == multiset(b)[x]
    {
      assert x in a <==> x in multiset(a);
      assert x in b <==> x in multiset(b);
    }
    assert multiset(a) == multiset(b);
    SortedUnique(a, b);
  }
}
