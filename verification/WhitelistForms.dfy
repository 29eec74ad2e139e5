/** The forms of a whitelist entry, told from its text: which hosts are admitted by a domain, by a domain behind a
  * dot, by a domain behind a star and a dot, and what makes no difference. */
module WhitelistForms {
  import opened Wrappers
  import opened Text
  import opened Letters
  import opened Whitelist
  import opened WhitelistMeaning

  /** A domain written as it is compared: no capitals, no blanks around it, nothing that an entry reads otherwise. */
  ghost predicate Domain(d: string) {
    && d != "" && NoCapitals(d) && !IsSpace(d[0]) && !IsSpace(d[|d| - 1])
    && d[0] != '.' && d[0] != '#' && d[|d| - 1] != '.' && !(|d| > 1 && d[0] == '*' && d[1] == '.')
  }

  /** A host name written as it is compared: no capitals, blanks, port, bracket in front or dot behind. */
  ghost predicate HostName(h: string) {
    && h != "" && NoCapitals(h) && !IsSpace(h[0]) && !IsSpace(h[|h| - 1])
    && h[0] != '[' && h[|h| - 1] != '.' && ':' !in h
  }

  /** Text x between blanks, where x is form in any letter case, perhaps with one dot behind. */
  ghost predicate Around(e: string, a: string, x: string, b: string, form: string) {
    e == a + x + b && AllSpace(a) && AllSpace(b) && (SameLetters(x, form) || SameLetters(x, form + "."))
  }

  ghost predicate Writes(e: string, form: string) {
    exists a, x, b :: Around(e, a, x, b, form)
  }

  /** A host asked for as name x, with or without a port of decimal digits. */
  ghost predicate Asked(host: string, name: string, port: string) {
    host == name || (host == name + ":" + port && port != "" && AllIn(port, DIGITS))
  }

  ghost predicate AsksFor(host: string, a: string, x: string, name: string, port: string, b: string, h: string) {
    && host == a + x + b && AllSpace(a) && AllSpace(b) && Asked(x, name, port)
    && (SameLetters(name, h) || SameLetters(name, h + "."))
  }

  /** The host is h in any letter case, perhaps with one dot, a port and blanks around it. */
  ghost predicate Means(host: string, h: string) {
    exists a, x, name, port, b :: AsksFor(host, a, x, name, port, b, h)
  }

  // ----- reading an entry -----

  /** A non-empty text in lower case without blanks at its ends. */
  ghost predicate Firm(y: string) {
    y != "" && NoCapitals(y) && !IsSpace(y[0]) && !IsSpace(y[|y| - 1])
  }

  lemma SameReads(x: string, y: string)
    requires SameLetters(x, y) && Firm(y)
    ensures Lower(x) == y && x != "" && Tight(x)
  {
    LowerExactly(x, y);
    LowerExactly(y, y);
    LowerSame(x[0], y[0]);
    LowerSame(x[|x| - 1], y[|y| - 1]);
  }

  lemma FirmDot(form: string)
    requires Firm(form)
    ensures Firm(form + ".")
  {
    CapitalAt('.');
  }

  lemma AroundReads(e: string, a: string, x: string, b: string, form: string)
    requires Around(e, a, x, b, form) && Firm(form)
    ensures Lower(TrimSpace(e)) == form || Lower(TrimSpace(e)) == form + "."
  {
    FirmDot(form);
    if SameLetters(x, form) { SameReads(x, form); } else { SameReads(x, form + "."); }
    TrimExactly(a, x, b);
  }

  /** An entry that writes a form reads as that form. */
  lemma WritesCleans(e: string, form: string)
    requires Writes(e, form) && Firm(form) && form[|form| - 1] != '.'
    ensures Clean(e) == form
  {
    var a, x, b :| Around(e, a, x, b, form);
    AroundReads(e, a, x, b, form);
    DotGoes(form);
  }

  lemma FirmForms(d: string)
    requires Domain(d)
    ensures Firm(d) && Firm("." + d) && Firm("*." + d)
  {
    CapitalAt('.');
    CapitalAt('*');
  }

  lemma RuleTexts(d: string)
    requires Domain(d)
    ensures RuleOfText(d) == Some(Rule(d, true)) && RuleOfText("." + d) == Some(Rule(d, true))
    ensures RuleOfText("*." + d) == Some(Rule(d, false))
  {
    assert ("." + d)[1..] == d && ("." + d)[0] == '.';
    assert ("*." + d)[2..] == d && ("*." + d)[0] == '*';
    assert "*." <= "*." + d;
  }

  lemma FormRule(e: string, form: string, r: Rule)
    requires Firm(form) && form[|form| - 1] != '.' && RuleOfText(form) == Some(r)
    ensures Writes(e, form) ==> RuleOf(e) == Some(r)
  {
    if Writes(e, form) { WritesCleans(e, form); }
  }

  /** The three forms of a domain. */
  lemma FormReads(e: string, d: string)
    requires Domain(d)
    ensures Writes(e, d) ==> RuleOf(e) == Some(Rule(d, true))
    ensures Writes(e, "." + d) ==> RuleOf(e) == Some(Rule(d, true))
    ensures Writes(e, "*." + d) ==> RuleOf(e) == Some(Rule(d, false))
  {
    FirmForms(d);
    RuleTexts(d);
    FormRule(e, d, Rule(d, true));
    FormRule(e, "." + d, Rule(d, true));
    FormRule(e, "*." + d, Rule(d, false));
  }

  // ----- reading a host -----

  lemma DigitsOnly(port: string)
    requires port != "" && AllIn(port, DIGITS)
    ensures IsAllDigits(port)
  {
    forall i | 0 <= i < |port| ensures IsDigit(port[i]) { CapitalAt(port[i]); }
  }

  lemma LowerPort(name: string, port: string)
    requires IsAllDigits(port)
    ensures Lower(name + ":" + port) == Lower(name) + ":" + port
  {
    forall i | 0 <= i < |port| ensures LowerChar(port[i]) == port[i] { assert IsDigit(port[i]); }
  }

  /** The last colon stands in front of the port. */
  lemma PortCut(n: string, port: string)
    requires ':' !in n && IsAllDigits(port) && n != "" && n[0] != '['
    ensures StripPort(n + ":" + port) == n
  {
    var h := n + ":" + port;
    var at := LastIndexOf(h, ':');
    forall j | |n| < j < |h| ensures h[j] != ':' { assert IsDigit(port[j - |n| - 1]); }
    assert h[|n|] == ':';
    assert h[at + 1..] == port && h[..at] == n;
    PortRule(h);
  }

  /** The port and one dot go from a name in lower case. */
  lemma NameIsLeft(n: string, h: string, x: string, port: string)
    requires HostName(h) && (n == h || n == h + ".")
    requires x == n || (x == n + ":" + port && IsAllDigits(port))
    ensures StripBrackets(TrimSuffix(StripPort(x), ".")) == h
  {
    if x == n { NoPort(n); } else { PortCut(n, port); }
    if n != h { DotGoes(h); }
  }

  lemma AskedEnds(x: string, name: string, port: string)
    requires Asked(x, name, port) && name != "" && !IsSpace(name[0]) && !IsSpace(name[|name| - 1])
    ensures x != "" && Tight(x)
  {
    if x != name {
      DigitsOnly(port);
      assert x[|x| - 1] == port[|port| - 1] && IsDigit(port[|port| - 1]);
      assert x[0] == name[0];
    }
  }

  lemma HostFirm(h: string)
    requires HostName(h)
    ensures Firm(h) && Firm(h + ".")
  {
    FirmDot(h);
  }

  /** The name that is asked for, in lower case. */
  lemma NameReads(name: string, h: string)
    requires HostName(h) && (SameLetters(name, h) || SameLetters(name, h + "."))
    ensures Lower(name) == h || Lower(name) == h + "."
    ensures name != "" && Tight(name)
  {
    HostFirm(h);
    if SameLetters(name, h) { SameReads(name, h); } else { SameReads(name, h + "."); }
  }

  lemma AskedLower(x: string, name: string, port: string)
    requires Asked(x, name, port)
    ensures Lower(x) == Lower(name) || (Lower(x) == Lower(name) + ":" + port && IsAllDigits(port))
  {
    if x != name {
      DigitsOnly(port);
      LowerPort(name, port);
    }
  }

  lemma MeansNormalizes(host: string, h: string)
    requires Means(host, h) && HostName(h)
    ensures NormalizeHost(host) == h
  {
    var a, x, name, port, b :| AsksFor(host, a, x, name, port, b, h);
    NameReads(name, h);
    AskedEnds(x, name, port);
    TrimExactly(a, x, b);
    AskedLower(x, name, port);
    NameIsLeft(Lower(name), h, Lower(x), port);
  }

  // ----- main results -----

  lemma OneEntry(version: string, e: string, host: string, h: string, isIP: string -> bool)
    requires Means(host, h) && HostName(h)
    ensures Accepts(ParseAll(version, [e]), host, isIP) <==> !isIP(h) && Covers(e, h)
  {
    MeansNormalizes(host, h);
    MatchMeaning(version, [e], host, isIP);
    assert e in [e];
  }

  /** A domain, bare or behind a dot, admits exactly the hosts whose labels are the domain's or properly extend them;
    * behind a star and a dot it admits exactly the proper extensions. Letter case, blanks around the entry or the
    * host, one dot behind either and a port make no difference; IP literals are never admitted. */
  lemma EntryAdmits(version: string, e: string, d: string, host: string, h: string, isIP: string -> bool)
    requires Domain(d) && Means(host, h) && HostName(h)
    ensures Writes(e, d) || Writes(e, "." + d) ==>
              (Accepts(ParseAll(version, [e]), host, isIP)
               <==> !isIP(h) && (Labels(h) == Labels(d) || ProperSuffix(Labels(d), Labels(h))))
    ensures Writes(e, "*." + d) ==>
              (Accepts(ParseAll(version, [e]), host, isIP) <==> !isIP(h) && ProperSuffix(Labels(d), Labels(h)))
  {
    FormReads(e, d);
    OneEntry(version, e, host, h, isIP);
  }

  /** The same in characters: the host is the domain, or ends in a dot and the domain. */
  lemma EntryAdmitsText(version: string, e: string, d: string, host: string, h: string, isIP: string -> bool)
    requires Domain(d) && Means(host, h) && HostName(h) && !isIP(h)
    ensures Writes(e, d) || Writes(e, "." + d) ==>
              (Accepts(ParseAll(version, [e]), host, isIP) <==> h == d || exists p :: h == p + "." + d)
    ensures Writes(e, "*." + d) ==>
              (Accepts(ParseAll(version, [e]), host, isIP) <==> exists p :: h == p + "." + d)
  {
    EntryAdmits(version, e, d, host, h, isIP);
    SameLabels(h, d);
    SuffixIsLabelSuffix(h, d);
    EndsInText(h, d);
  }

  lemma EndsInText(h: string, d: string)
    ensures HasSuffix(h, "." + d) <==> exists p :: h == p + "." + d
  {
    if HasSuffix(h, "." + d) {
      var p := h[..|h| - |d| - 1];
      assert h == p + ("." + d) == p + "." + d;
    }
    forall p | h == p + "." + d ensures HasSuffix(h, "." + d) {
      assert h == p + ("." + d);
      EndsIn(p, "." + d);
    }
  }

  lemma {:induction false} TrimKeepsFront(c: char, s: string)
    requires !IsSpace(c)
    ensures TrimRightSpace([c] + s) != "" && TrimRightSpace([c] + s)[0] == c
  {
    if s != "" && IsSpace(s[|s| - 1]) {
      TrimKeepsFront(c, s[..|s| - 1]);
      assert ([c] + s)[..|s|] == [c] + s[..|s| - 1];
    } else if s != "" {
      assert ([c] + s)[|s|] == s[|s| - 1];
    }
  }

  lemma HashReads(a: string, s: string)
    requires AllSpace(a)
    ensures RuleOf(a + ("#" + s)).None?
  {
    TrimLeftSpaces(a, "#" + s);
    TrimKeepsFront('#', s);
    var t := TrimSpace(a + ("#" + s));
    assert Lower(t)[0] == '#';
    HashStays(Lower(t));
  }

  lemma HashStays(t: string)
    requires t != "" && t[0] == '#'
    ensures RuleOfText(TrimSuffix(t, ".")).None?
  {
    var r := TrimSuffix(t, ".");
    if r != t { assert t[|t| - 1] == "."[0]; }
    assert "#" <= r;
  }

  lemma BlankReads(a: string, b: string)
    requires AllSpace(a) && AllSpace(b)
    ensures RuleOf(a).None? && RuleOf(a + "." + b).None?
  {
    TrimOfSpaces(a);
    TrimExactly(a, ".", b);
    assert Lower(".") == ".";
    DotGoes("");
    assert "" + "." == ".";
  }

  /** A name in brackets is the name. */
  lemma BracketsGo(l: List, h: string, isIP: string -> bool)
    requires HostName(h)
    ensures Accepts(l, "[" + h + "]", isIP) <==> Accepts(l, h, isIP)
  {
    ItselfNormalizes(h);
    BracketsNormalize(h);
  }

  lemma ItselfNormalizes(h: string)
    requires HostName(h)
    ensures NormalizeHost(h) == h
  {
    PlainHost(h);
    MeansNormalizes(h, h);
  }

  lemma BracketsNormalize(h: string)
    requires HostName(h)
    ensures NormalizeHost("[" + h + "]") == h
  {
    BracketsTight(h);
    NoPort("[" + h + "]");
    BracketsStripped(h);
  }

  lemma BracketsStripped(h: string)
    ensures var s := "[" + h + "]"; TrimSuffix(s, ".") == s && StripBrackets(s) == h
  {
    var s := "[" + h + "]";
    assert s[|s| - 1..] == "]";
    assert s[1..|s| - 1] == h;
  }

  lemma BracketsTight(h: string)
    requires HostName(h)
    ensures var s := "[" + h + "]"; TrimSpace(s) == s && Lower(s) == s && ':' !in s
  {
    var s := "[" + h + "]";
    TrimTight(s);
    LowerExactly(h, h);
    forall i | 0 <= i < |s| ensures LowerChar(s[i]) == s[i] {
      if 0 < i < |s| - 1 { assert s[i] == h[i - 1]; CapitalAt(h[i - 1]); }
    }
  }

  lemma PlainHost(h: string)
    requires HostName(h)
    ensures Means(h, h)
  {
    LowerExactly(h, h);
    assert h == "" + h + "";
    assert AsksFor(h, "", h, h, "", "", h);
  }

  /** Blank entries, lone dots and entries that start with a hash admit nobody. */
  lemma NothingAdmits(version: string, e: string, a: string, s: string, b: string, host: string, isIP: string -> bool)
    requires AllSpace(a) && AllSpace(b) && (e == a || e == a + "." + b || e == a + ("#" + s))
    ensures !Accepts(ParseAll(version, [e]), host, isIP)
  {
    BlankReads(a, b);
    HashReads(a, s);
    MatchMeaning(version, [e], host, isIP);
  }

  lemma AsksOne(e: string, d: string, bare: bool, c: string)
    requires RuleOf(e) == Some(Rule(d, bare))
    ensures Asks([e], c) <==> c == d
  {
    if c == d { assert e in [e]; }
  }

  lemma RulePublishes(version: string, es: seq<string>, e: string, d: string, bare: bool)
    requires e in es && RuleOf(e) == Some(Rule(d, bare))
    ensures d in Domains(ParseAll(version, es))
  {
    assert Asks(es, d);
    DomainsAreRules(version, es, d);
  }

  lemma RulePublishesOnly(version: string, e: string, d: string, bare: bool, c: string)
    requires RuleOf(e) == Some(Rule(d, bare))
    ensures c in Domains(ParseAll(version, [e])) <==> c == d
  {
    DomainsAreRules(version, [e], c);
    AsksOne(e, d, bare, c);
  }

  /** Whatever its form, an entry publishes its bare domain and nothing else. */
  lemma EntryPublishes(version: string, es: seq<string>, e: string, d: string, c: string)
    requires Domain(d) && e in es && (Writes(e, d) || Writes(e, "." + d) || Writes(e, "*." + d))
    ensures d in Domains(ParseAll(version, es))
    ensures c in Domains(ParseAll(version, [e])) <==> c == d
  {
    FormReads(e, d);
    var bare := RuleOf(e).value.bare;
    RulePublishes(version, es, e, d, bare);
    RulePublishesOnly(version, e, d, bare, c);
  }

  /** A list admits a host if and only if one of its entries does alone, whatever the order and the repetitions. */
  lemma ListIsUnion(version: string, es: seq<string>, host: string, isIP: string -> bool)
    ensures Accepts(ParseAll(version, es), host, isIP)
            <==> exists e :: e in es && Accepts(ParseAll(version, [e]), host, isIP)
  {
    MatchMeaning(version, es, host, isIP);
    forall e | e in es
      ensures Accepts(ParseAll(version, [e]), host, isIP)
              <==> var h := NormalizeHost(host); h != "" && !isIP(h) && Covers(e, h)
    {
      MatchMeaning(version, [e], host, isIP);
      assert e in [e];
    }
  }
}
