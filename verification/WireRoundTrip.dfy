/** What survives a trip over the wire: requests, acceptances and rejections, each with the exact condition. */
module WireRoundTrip {
  import opened Wrappers
  import opened Text
  import opened Wire

  // ----- fields -----

  ghost predicate Solid(t: string) {
    t != "" && forall i :: 0 <= i < |t| ==> !IsSpace(t[i])
  }

  lemma {:induction false} TokenLenExact(a: string, rest: string)
    requires forall i :: 0 <= i < |a| ==> !IsSpace(a[i])
    requires rest == "" || IsSpace(rest[0])
    ensures TokenLen(a + rest) == |a|
  {
    if a == "" {
      assert a + rest == rest;
    } else {
      assert (a + rest)[1..] == a[1..] + rest;
      TokenLenExact(a[1..], rest);
    }
  }

  lemma FieldsToken(a: string, rest: string)
    requires Solid(a) && (rest == "" || IsSpace(rest[0]))
    ensures Fields(a + rest) == [a] + Fields(rest)
  {
    TokenLenExact(a, rest);
    assert (a + rest)[..|a|] == a && (a + rest)[|a|..] == rest;
  }

  lemma FieldsSpace(rest: string)
    ensures Fields(" " + rest) == Fields(rest)
  {
    assert (" " + rest)[1..] == rest;
  }

  lemma FieldsHead(s: string, n: nat)
    requires s != "" && !IsSpace(s[0]) && TokenLen(s) == n
    ensures n > 0 && Fields(s) == [s[..n]] + Fields(s[n..])
  {
  }

  /** A run of blanks ends a field, however long it is. */
  lemma {:induction false} FieldsAtBlanks(a: string, blanks: string, b: string)
    requires blanks != "" && forall i :: 0 <= i < |blanks| ==> IsSpace(blanks[i])
    ensures Fields(a + blanks + b) == Fields(a) + Fields(b)
    decreases |a|
  {
    if a == "" {
      BlanksGo(blanks, b);
      assert a + blanks + b == blanks + b;
    } else if IsSpace(a[0]) {
      FieldsAtBlanks(a[1..], blanks, b);
      assert (a + blanks + b)[1..] == a[1..] + blanks + b;
    } else {
      FieldBeforeBlanks(a, blanks, b);
      FieldsHead(a, TokenLen(a));
      FieldsAtBlanks(a[TokenLen(a)..], blanks, b);
    }
  }

  lemma FieldBeforeBlanks(a: string, blanks: string, b: string)
    requires blanks != "" && IsSpace(blanks[0]) && a != "" && !IsSpace(a[0])
    ensures var n := TokenLen(a); Fields(a + blanks + b) == [a[..n]] + Fields(a[n..] + blanks + b)
  {
    var s, n := a + blanks + b, TokenLen(a);
    assert s == a + (blanks + b);
    TokenKept(a, blanks + b);
    FieldsHead(s, n);
    assert s[..n] == a[..n];
    assert s[n..] == a[n..] + blanks + b;
  }

  lemma {:induction false} BlanksGo(blanks: string, b: string)
    requires forall i :: 0 <= i < |blanks| ==> IsSpace(blanks[i])
    ensures Fields(blanks + b) == Fields(b)
  {
    if blanks == "" {
      assert blanks + b == b;
    } else {
      assert (blanks + b)[1..] == blanks[1..] + b;
      BlanksGo(blanks[1..], b);
    }
  }

  lemma {:induction false} TokenKept(a: string, rest: string)
    requires rest == "" || IsSpace(rest[0])
    ensures TokenLen(a + rest) == TokenLen(a)
  {
    if a == "" {
      assert a + rest == rest;
    } else {
      assert (a + rest)[1..] == a[1..] + rest;
      TokenKept(a[1..], rest);
    }
  }

  /** Solid tokens joined by spaces come back as they were. */
  lemma {:induction false} FieldsJoin(tokens: seq<string>)
    requires |tokens| > 0 && forall i :: 0 <= i < |tokens| ==> Solid(tokens[i])
    ensures Fields(Join(tokens, ' ')) == tokens
  {
    if |tokens| == 1 {
      FieldsToken(tokens[0], "");
      assert tokens[0] + "" == tokens[0];
    } else {
      var rest := Join(tokens[1..], ' ');
      FieldsJoin(tokens[1..]);
      FieldsSpace(rest);
      FieldsToken(tokens[0], " " + rest);
      assert tokens[0] + [' '] + rest == tokens[0] + (" " + rest);
    }
  }

  lemma {:induction false} FieldsSolid(s: string)
    ensures forall i :: 0 <= i < |Fields(s)| ==> Solid(Fields(s)[i])
    decreases |s|
  {
    if s != "" {
      if IsSpace(s[0]) { FieldsSolid(s[1..]); } else { FieldsSolid(s[TokenLen(s)..]); }
    }
  }

  lemma {:induction false} JoinLast(tokens: seq<string>)
    requires |tokens| > 0 && tokens[|tokens| - 1] != ""
    ensures Join(tokens, ' ') != ""
    ensures Join(tokens, ' ')[|Join(tokens, ' ')| - 1] == tokens[|tokens| - 1][|tokens[|tokens| - 1]| - 1]
  {
    if |tokens| > 1 { JoinLast(tokens[1..]); }
  }

  lemma TrimNewline(s: string)
    requires s != "" && !IsLineEnd(s[|s| - 1])
    ensures TrimLineEnd(s + "\n") == s
  {
    assert (s + "\n")[..|s + "\n"| - 1] == s;
  }

  /** A line of solid tokens is read back as these tokens. */
  lemma LineFields(tokens: seq<string>)
    requires |tokens| > 0 && forall i :: 0 <= i < |tokens| ==> Solid(tokens[i])
    ensures Fields(TrimLineEnd(Join(tokens, ' ') + "\n")) == tokens
  {
    JoinLast(tokens);
    TrimNewline(Join(tokens, ' '));
    FieldsJoin(tokens);
  }

  lemma AtoiDecimal(n: int)
    requires 0 <= n < 0x8000_0000_0000_0000
    ensures Atoi(IntText(n)) == Some(n) && Solid(IntText(n))
  {
    AtoiIntText(n);
  }

  // ----- flags -----

  lemma PartSplit(k: string, v: string)
    requires '=' !in k && '=' !in v
    ensures Split(FlagPart(k, v), '=') == [k, v]
  {
    SplitNone(k, '=');
    SplitNone(v, '=');
    SplitConcat(k, v, '=');
    assert k + ['='] + v == FlagPart(k, v);
  }

  lemma PartParses(k: string, v: string)
    requires ValidFlag(k, v)
    ensures ParseFlag(FlagPart(k, v)) == Result.Ok((k, v))
  {
    PartSplit(k, v);
  }

  lemma PartIsPlain(k: string, v: string)
    requires ValidFlag(k, v)
    ensures ',' !in FlagPart(k, v) && Solid(FlagPart(k, v)) && FlagPart(k, v) != "-"
  {
    assert FlagPart(k, v)[|k|] == '=';
  }

  /** Parsing parts of a flag map rebuilds exactly the entries they name. */
  lemma {:induction false} PartsParse(parts: seq<string>, keys: seq<string>, flags: map<string, string>, acc: map<string, string>)
    requires |parts| == |keys|
    requires forall i :: 0 <= i < |keys| ==>
               keys[i] in flags && ValidFlag(keys[i], flags[keys[i]]) && parts[i] == FlagPart(keys[i], flags[keys[i]])
    requires forall k :: k in acc ==> k in flags && acc[k] == flags[k]
    ensures ParseParts(parts, acc).Ok?
    ensures var m := ParseParts(parts, acc).value;
            && (forall k :: k in m ==> k in flags && m[k] == flags[k])
            && (forall k :: k in m <==> k in acc || k in keys)
    decreases |parts|
  {
    if parts != [] {
      PartParses(keys[0], flags[keys[0]]);
      PartsParse(parts[1..], keys[1..], flags, acc[keys[0] := flags[keys[0]]]);
      assert keys == [keys[0]] + keys[1..];
    }
  }

  lemma KeyOfPart(k1: string, v1: string, k2: string, v2: string)
    requires ValidFlag(k1, v1) && ValidFlag(k2, v2) && FlagPart(k1, v1) == FlagPart(k2, v2)
    ensures k1 == k2 && v1 == v2
  {
    PartParses(k1, v1);
    PartParses(k2, v2);
  }

  ghost predicate ValidFlags(flags: map<string, string>) {
    forall k :: k in flags ==> ValidFlag(k, flags[k])
  }

  /** Every element of parts is the part of some key. */
  lemma {:induction false} KeysOf(parts: seq<string>, flags: map<string, string>, order: seq<string>) returns (keys: seq<string>)
    requires Known(order, flags)
    requires forall i :: 0 <= i < |parts| ==> parts[i] in FlagParts(flags, order)
    ensures |keys| == |parts|
    ensures forall i :: 0 <= i < |keys| ==> keys[i] in flags && parts[i] == FlagPart(keys[i], flags[keys[i]])
    decreases |parts|
  {
    if parts == [] {
      keys := [];
    } else {
      var rest := KeysOf(parts[1..], flags, order);
      assert parts[0] in FlagParts(flags, order);
      var i :| 0 <= i < |order| && FlagParts(flags, order)[i] == parts[0];
      keys := [order[i]] + rest;
    }
  }

  /** The sorted parts name every key of the map. */
  lemma SortedKeys(flags: map<string, string>, order: seq<string>) returns (keys: seq<string>)
    requires Iterates(order, flags) && ValidFlags(flags)
    ensures |keys| == |order| && forall k :: k in flags ==> k in keys
    ensures forall i :: 0 <= i < |keys| ==> keys[i] in flags
    ensures forall i :: 0 <= i < |keys| ==> Sort(FlagParts(flags, order))[i] == FlagPart(keys[i], flags[keys[i]])
  {
    var parts := FlagParts(flags, order);
    var sorted := Sort(parts);
    SortSorts(parts);
    forall i | 0 <= i < |sorted|
      ensures sorted[i] in parts
    {
      assert sorted[i] in multiset(sorted);
    }
    keys := KeysOf(sorted, flags, order);
    forall k | k in flags
      ensures k in keys
    {
      KeyIsNamed(sorted, keys, flags, order, k);
    }
  }

  lemma KeyIsNamed(sorted: seq<string>, keys: seq<string>, flags: map<string, string>, order: seq<string>, k: string)
    requires Iterates(order, flags) && ValidFlags(flags) && k in flags
    requires multiset(sorted) == multiset(FlagParts(flags, order)) && |keys| == |sorted|
    requires forall i :: 0 <= i < |keys| ==> keys[i] in flags && sorted[i] == FlagPart(keys[i], flags[keys[i]])
    ensures k in keys
  {
    var parts := FlagParts(flags, order);
    assert k in order;
    var i :| 0 <= i < |order| && order[i] == k;
    assert parts[i] in multiset(parts);
    assert parts[i] in sorted;
    var j :| 0 <= j < |sorted| && sorted[j] == parts[i];
    KeyOfPart(keys[j], flags[keys[j]], k, flags[k]);
  }

  lemma {:induction false} JoinSolid(parts: seq<string>, c: char)
    requires |parts| > 0 && !IsSpace(c)
    requires forall i :: 0 <= i < |parts| ==> Solid(parts[i])
    ensures Solid(Join(parts, c))
  {
    if |parts| > 1 { JoinSolid(parts[1..], c); }
  }

  /** Whatever the iteration order, the flag text is one token and parses back to the map. */
  lemma FlagsRoundTrip(flags: map<string, string>, order: seq<string>)
    requires Iterates(order, flags) && ValidFlags(flags)
    ensures ParseFlags(FlagText(flags, order)) == Result.Ok(flags) && Solid(FlagText(flags, order))
  {
    if order == [] {
      assert flags == map[];
    } else {
      var sorted := Sort(FlagParts(flags, order));
      var keys := SortedKeys(flags, order);
      forall i | 0 <= i < |sorted|
        ensures ',' !in sorted[i] && Solid(sorted[i]) && sorted[i] != "-"
      {
        PartIsPlain(keys[i], flags[keys[i]]);
      }
      SplitJoin(sorted, ',');
      JoinSolid(sorted, ',');
      assert Split("-", ',') == ["-"] by { SplitNone("-", ','); }
      PartsParse(sorted, keys, flags, map[]);
      var m := ParseParts(sorted, map[]).value;
      assert m == flags;
    }
  }

  // ----- requests -----

  /** Two iterations over one map print the same line. */
  lemma EncodeIgnoresMapOrder(c: Connect, a: seq<string>, b: seq<string>)
    requires Iterates(a, c.flags) && Iterates(b, c.flags)
    ensures Encode(c, a) == Encode(c, b)
  {
    FlagTextIgnoresOrder(c.flags, a, b);
  }

  lemma FlagValid(kv: string)
    requires ParseFlag(kv).Ok?
    ensures ValidFlag(ParseFlag(kv).value.0, ParseFlag(kv).value.1)
  {
    JoinSplit(kv, '=');
  }

  lemma {:induction false} PartsValid(parts: seq<string>, acc: map<string, string>)
    requires ValidFlags(acc) && ParseParts(parts, acc).Ok?
    ensures ValidFlags(ParseParts(parts, acc).value)
    decreases |parts|
  {
    if parts != [] {
      FlagValid(parts[0]);
      var kv := ParseFlag(parts[0]).value;
      PartsValid(parts[1..], acc[kv.0 := kv.1]);
    }
  }

  /** Only valid requests are accepted. */
  lemma AcceptedIsValid(line: string)
    requires ParseConnect(line).Ok?
    ensures ValidConnect(ParseConnect(line).value)
  {
    var f := Fields(TrimLineEnd(line));
    if f[7] != "-" { PartsValid(Split(f[7], ','), map[]); }
  }

  lemma TokenIsSolid(t: string, min: nat, max: nat)
    requires ValidToken(t, min, max) && min > 0
    ensures Solid(t)
  {
  }

  lemma FiveSolid(a: string, b: string, c: string, d: string, e: string)
    requires Solid(a) && Solid(b) && Solid(c) && Solid(d) && Solid(e)
    ensures forall i :: 0 <= i < 5 ==> Solid([a, b, c, d, e][i])
  {
  }

  lemma PartsSolid(c: Connect)
    requires ValidConnect(c)
    ensures Solid(c.host) && Solid(c.nonce) && Solid(c.token) && Solid(c.clientID)
  {
    TokenIsSolid(c.token, 8, 512);
    TokenIsSolid(c.clientID, 1, 64);
  }

  lemma ConnectTokensSolid(c: Connect, text: string)
    requires ValidConnect(c) && Solid(text)
    ensures forall i :: 0 <= i < 8 ==> Solid(ConnectTokens(c, text)[i])
  {
    AtoiDecimal(c.port);
    PartsSolid(c);
    FiveSolid(PROTO, "CONNECT", c.host, IntText(c.port), c.token);
    FiveSolid(c.nonce, c.clientID, text, text, text);
    assert ConnectTokens(c, text) == [PROTO, "CONNECT", c.host, IntText(c.port), c.token] + [c.nonce, c.clientID, text];
  }

  lemma ValidConnectComesBack(c: Connect, order: seq<string>)
    requires Iterates(order, c.flags) && ValidConnect(c)
    ensures ParseConnect(Encode(c, order)) == Result.Ok(c)
  {
    FlagsRoundTrip(c.flags, order);
    var text := FlagText(c.flags, order);
    ConnectTokensSolid(c, text);
    LineFields(ConnectTokens(c, text));
    AtoiDecimal(c.port);
  }

  /** Parsing the printed request gives it back exactly when the request is valid. */
  lemma ConnectRoundTrip(c: Connect, order: seq<string>)
    requires Iterates(order, c.flags)
    ensures ParseConnect(Encode(c, order)) == Result.Ok(c) <==> ValidConnect(c)
  {
    if ValidConnect(c) {
      ValidConnectComesBack(c, order);
    } else if ParseConnect(Encode(c, order)).Ok? {
      AcceptedIsValid(Encode(c, order));
    }
  }

  /** An accepted line, however it was spaced or ordered, means the same after printing and parsing again. */
  lemma ReparseIdentity(line: string, order: seq<string>)
    requires ParseConnect(line).Ok? && Iterates(order, ParseConnect(line).value.flags)
    ensures ParseConnect(Encode(ParseConnect(line).value, order)) == ParseConnect(line)
  {
    AcceptedIsValid(line);
    ValidConnectComesBack(ParseConnect(line).value, order);
  }

  // ----- responses -----

  lemma ValidOKComesBack(r: OK)
    requires ValidOK(r)
    ensures ParseResponse(EncodeOK(r)) == Result.Ok(Accepted(r))
  {
    OKFields(r);
    AtoiDecimal(r.expiresIn);
  }

  lemma OKTokensSolid(r: OK)
    requires ValidOK(r)
    ensures forall i :: 0 <= i < 5 ==> Solid(OKTokens(r)[i])
  {
    AtoiDecimal(r.expiresIn);
    TokenIsSolid(r.connID, 4, 64);
    if r.resolvedIP != "" { TokenIsSolid(r.resolvedIP, 3, 64); }
    FiveSolid(PROTO, "OK", r.connID, IntText(r.expiresIn), if r.resolvedIP == "" then "-" else r.resolvedIP);
  }

  lemma OKFields(r: OK)
    requires ValidOK(r)
    ensures Fields(TrimLineEnd(EncodeOK(r))) == OKTokens(r)
  {
    OKTokensSolid(r);
    LineFields(OKTokens(r));
  }

  lemma AcceptanceIsValid(line: string)
    requires ParseResponse(line).Ok? && ParseResponse(line).value.Accepted?
    ensures ValidOK(ParseResponse(line).value.ok)
  {
  }

  /** An acceptance comes back exactly when its id and address are valid and its expiry is in range. */
  lemma OKRoundTrip(r: OK)
    ensures ParseResponse(EncodeOK(r)) == Result.Ok(Accepted(r)) <==> ValidOK(r)
  {
    if ValidOK(r) {
      ValidOKComesBack(r);
    } else if ParseResponse(EncodeOK(r)) == Result.Ok(Accepted(r)) {
      AcceptanceIsValid(EncodeOK(r));
    }
  }

  /** So an address with a colon, as every IPv6 address has, is never returned. */
  lemma ColonNeverReturned(r: OK)
    requires ':' in r.resolvedIP
    ensures ParseResponse(EncodeOK(r)) != Result.Ok(Accepted(r))
  {
    OKRoundTrip(r);
  }

  lemma {:induction false} TrimLineEndLast(s: string)
    ensures TrimLineEnd(s) == "" || !IsLineEnd(TrimLineEnd(s)[|TrimLineEnd(s)| - 1])
  {
    if s != "" && IsLineEnd(s[|s| - 1]) { TrimLineEndLast(s[..|s| - 1]); }
  }

  lemma NoMatch(s: string, sub: string, i: nat)
    requires sub != "" && i < |s| && s[i] != sub[0]
    ensures !MatchesAt(s, sub, i)
  {
    if i + |sub| <= |s| {
      assert s[i..i + |sub|][0] == s[i];
    }
  }

  /** The first place where the code marker matches is the header's, whatever the message contains. */
  lemma MarkerIsHeader(code: string, msg: string)
    ensures Index(ErrHead(code) + msg, " ERR " + code + " ") == 6
  {
    var s, marker := ErrHead(code) + msg, " ERR " + code + " ";
    assert s == PROTO + marker + msg;
    assert MatchesAt(s, marker, 6);
    forall j | 0 <= j < 6
      ensures !MatchesAt(s, marker, j)
    {
      NoMatch(s, marker, j);
    }
  }

  lemma FieldsStep(a: string, rest: string)
    requires Solid(a)
    ensures Fields(a + " " + rest) == [a] + Fields(rest)
  {
    FieldsSpace(rest);
    FieldsToken(a, " " + rest);
    assert a + " " + rest == a + (" " + rest);
  }

  lemma ThreeFields(a: string, b: string, c: string, rest: string)
    requires Solid(a) && Solid(b) && Solid(c)
    ensures Fields(a + " " + (b + " " + (c + " " + rest))) == [a, b, c] + Fields(rest)
  {
    FieldsStep(c, rest);
    FieldsStep(b, c + " " + rest);
    FieldsStep(a, b + " " + (c + " " + rest));
  }

  lemma HeaderFields(code: string, msg: string)
    requires Solid(code)
    ensures Fields(ErrHead(code) + msg) == [PROTO, "ERR", code] + Fields(msg)
  {
    HeadSplits(code, msg);
    ThreeFields(PROTO, "ERR", code, msg);
  }

  lemma HeadSplits(code: string, msg: string)
    ensures ErrHead(code) + msg == PROTO + " " + ("ERR" + " " + (code + " " + msg))
    ensures Solid(PROTO) && Solid("ERR")
  {
    assert " ERR " == " " + "ERR" + " ";
  }

  lemma ErrText(e: Err)
    requires ValidErr(e)
    ensures TrimLineEnd(EncodeErr(e)) == ErrHead(e.code) + e.message
  {
    TrimNewline(ErrHead(e.code) + e.message);
  }

  lemma MessageFound(code: string, msg: string)
    ensures ErrMessage(ErrHead(code) + msg, code) == msg
  {
    MarkerIsHeader(code, msg);
  }

  lemma RejectedWhen(line: string, s: string, code: string, msg: string)
    requires TrimLineEnd(line) == s && Fields(s) == [PROTO, "ERR", code] + Fields(msg) && ErrMessage(s, code) == msg
    ensures ParseResponse(line) == Result.Ok(Rejected(Err.Err(code, msg))) <==> ValidErrCode(code)
  {
    var f := Fields(s);
    assert f[0] == PROTO && f[1] == "ERR" && f[2] == code;
  }

  lemma ValidErrComesBack(e: Err)
    requires ValidErr(e)
    ensures ParseResponse(EncodeErr(e)) == Result.Ok(Rejected(e))
  {
    ErrText(e);
    CodeIsSolid(e.code);
    HeaderFields(e.code, e.message);
    MessageFound(e.code, e.message);
    RejectedWhen(EncodeErr(e), ErrHead(e.code) + e.message, e.code, e.message);
  }

  lemma CodeIsSolid(code: string)
    requires ValidErrCode(code)
    ensures Solid(code)
  {
  }

  lemma RejectionShape(line: string)
    requires ParseResponse(line).Ok? && ParseResponse(line).value.Rejected?
    ensures var e := ParseResponse(line).value.err; ValidErrCode(e.code) && (e.message == "" || ValidErr(e))
  {
    TrimLineEndLast(line);
  }

  /** A rejection comes back exactly when its code is valid and its message non-empty and not ending in CR or LF. */
  lemma ErrRoundTrip(e: Err)
    ensures ParseResponse(EncodeErr(e)) == Result.Ok(Rejected(e)) <==> ValidErr(e)
  {
    if ValidErr(e) {
      ValidErrComesBack(e);
    } else if ParseResponse(EncodeErr(e)) == Result.Ok(Rejected(e)) {
      RejectionShape(EncodeErr(e));
      EmptyIsReplaced(e.code);
      assert false;
    }
  }

  /** An empty message is replaced by a standing text. */
  lemma EmptyIsReplaced(code: string)
    requires ValidErrCode(code)
    ensures ParseResponse(EncodeErr(Err.Err(code, ""))) == Result.Ok(Rejected(Err.Err(code, "unspecified error")))
  {
    ValidErrComesBack(Err.Err(code, "unspecified error"));
  }
}
