/** Which lines of the DLDW/1 handshake are accepted and what they mean, told from literal alphabets, lengths and line
  * formats (internal/protocol/dldw1/dldw1.go). */
module WireAlphabet {
  import opened Wrappers
  import opened Text
  import opened Letters
  import opened Wire
  import opened WireRoundTrip

  // ----- the alphabets -----

  predicate NameLetter(c: char) {
    c in SMALLS || c in CAPITALS || c in DIGITS || c in {'_', '-', '.'}
  }

  predicate TokenLetter(c: char) {
    NameLetter(c) || c == '='
  }

  predicate CodeLetter(c: char) {
    c in CAPITALS || c in DIGITS || c == '_'
  }

  predicate HexLetter(c: char) {
    c in DIGITS || c in {'a', 'b', 'c', 'd', 'e', 'f'}
  }

  /** The visible ASCII characters but the comma. */
  predicate HostLetter(c: char) {
    33 <= c as int <= 126 && c != ','
  }

  ghost predicate Over(s: string, letter: char -> bool) {
    forall i :: 0 <= i < |s| ==> letter(s[i])
  }

  lemma LettersAre(c: char)
    ensures TokenLetter(c) <==> TokenChar(c)
    ensures NameLetter(c) <==> TokenChar(c) && c != '='
    ensures CodeLetter(c) <==> 'A' <= c <= 'Z' || '0' <= c <= '9' || c == '_'
  {
    CapitalAt(c);
  }

  lemma LowHex(c: char)
    ensures c in {'a', 'b', 'c', 'd', 'e', 'f'} <==> 'a' <= c <= 'f'
  {
    assert 'a' <= c <= 'f' <==> 97 <= c as int <= 102;
  }

  lemma HexIs(c: char)
    ensures HexLetter(c) <==> '0' <= c <= '9' || 'a' <= c <= 'f'
  {
    CapitalAt(c);
    LowHex(c);
  }

  /** A token, a nonce, an error code and a host are exactly the texts of a length over an alphabet. */
  lemma ValidExactly(s: string, min: nat, max: nat)
    ensures ValidToken(s, min, max) <==> min <= |s| <= max && Over(s, TokenLetter)
    ensures HexLower(s) <==> Over(s, HexLetter)
    ensures ValidErrCode(s) <==> 3 <= |s| <= 48 && Over(s, CodeLetter)
    ensures ValidHost(s) <==> 1 <= |s| <= 253 && Over(s, HostLetter)
  {
    forall i | 0 <= i < |s|
      ensures TokenLetter(s[i]) <==> TokenChar(s[i])
      ensures HexLetter(s[i]) <==> '0' <= s[i] <= '9' || 'a' <= s[i] <= 'f'
      ensures CodeLetter(s[i]) <==> 'A' <= s[i] <= 'Z' || '0' <= s[i] <= '9' || s[i] == '_'
    {
      LettersAre(s[i]);
      HexIs(s[i]);
    }
  }

  // ----- flags -----

  /** A flag is a name, or a name and a value with one equals sign between them. */
  ghost predicate FlagMeans(piece: string, k: string, v: string) {
    && (piece == k + "=" + v || (piece == k && v == ""))
    && 1 <= |k| <= 32 && |v| <= 64 && Over(k, NameLetter) && Over(v, NameLetter)
  }

  lemma NamesExactly(s: string, min: nat, max: nat)
    ensures ValidToken(s, min, max) && '=' !in s <==> min <= |s| <= max && Over(s, NameLetter)
  {
    forall i | 0 <= i < |s| ensures NameLetter(s[i]) <==> TokenChar(s[i]) && s[i] != '=' { LettersAre(s[i]); }
  }

  lemma FlagExactly(piece: string, k: string, v: string)
    ensures ParseFlag(piece) == Result.Ok((k, v)) <==> FlagMeans(piece, k, v)
  {
    NamesExactly(k, 1, 32);
    NamesExactly(v, 0, 64);
    if ParseFlag(piece) == Result.Ok((k, v)) {
      FlagValid(piece);
      JoinSplit(piece, '=');
      var pieces := Split(piece, '=');
      if |pieces| == 2 { assert Join(pieces, '=') == pieces[0] + ['='] + pieces[1]; }
    }
    if FlagMeans(piece, k, v) { FlagReads(piece, k, v); }
  }

  lemma FlagReads(piece: string, k: string, v: string)
    requires FlagMeans(piece, k, v)
    ensures ParseFlag(piece) == Result.Ok((k, v))
  {
    NamesExactly(k, 1, 32);
    NamesExactly(v, 0, 64);
    if piece == k + "=" + v { PartParses(k, v); } else { SplitNone(k, '='); }
  }

  /** The pieces, read in order on top of acc, give m: of several flags with one name the last counts. */
  ghost predicate PiecesMean(pieces: seq<string>, acc: map<string, string>, m: map<string, string>)
    decreases |pieces|
  {
    if pieces == [] then m == acc
    else exists k, v :: FlagMeans(pieces[0], k, v) && PiecesMean(pieces[1..], acc[k := v], m)
  }

  lemma {:induction false} PiecesExactly(pieces: seq<string>, acc: map<string, string>, m: map<string, string>)
    ensures ParseParts(pieces, acc) == Result.Ok(m) <==> PiecesMean(pieces, acc, m)
    decreases |pieces|
  {
    if pieces != [] {
      if ParseFlag(pieces[0]).Ok? {
        var (k, v) := ParseFlag(pieces[0]).value;
        FlagExactly(pieces[0], k, v);
        PiecesExactly(pieces[1..], acc[k := v], m);
      }
      forall k, v | FlagMeans(pieces[0], k, v) ensures ParseFlag(pieces[0]) == Result.Ok((k, v)) {
        FlagExactly(pieces[0], k, v);
      }
    }
  }

  /** A dash alone means no flags; otherwise the flags stand between commas. */
  ghost predicate FlagsMean(text: string, m: map<string, string>) {
    if text == "-" then m == map[]
    else exists pieces :: pieces != [] && Without(pieces, ',') && text == Join(pieces, ',') && PiecesMean(pieces, map[], m)
  }

  lemma FlagsExactly(text: string, m: map<string, string>)
    ensures ParseFlags(text) == Result.Ok(m) <==> FlagsMean(text, m)
  {
    if text != "-" {
      JoinSplit(text, ',');
      PiecesExactly(Split(text, ','), map[], m);
      forall pieces | pieces != [] && Without(pieces, ',') && text == Join(pieces, ',')
        ensures pieces == Split(text, ',')
      {
        SplitJoin(pieces, ',');
      }
    }
  }

  // ----- requests -----

  ghost predicate LineEnd(end: string) {
    end in {"", "\n", "\r\n"}
  }

  ghost predicate AllSolid(tokens: seq<string>) {
    |tokens| > 0 && forall i :: 0 <= i < |tokens| ==> Solid(tokens[i])
  }

  lemma EndGoes(s: string, end: string)
    requires LineEnd(end) && s != "" && !IsLineEnd(s[|s| - 1])
    ensures TrimLineEnd(s + end) == s
  {
    if end == "" {
      assert s + end == s;
    } else if end == "\n" {
      TrimNewline(s);
    } else {
      var t := s + "\r";
      assert (s + end)[..|s| + 1] == t && (s + end)[|s| + 1] == '\n';
      assert t[..|s|] == s && t[|s|] == '\r';
      assert TrimLineEnd(t) == s;
      assert TrimLineEnd(s + end) == TrimLineEnd(t);
    }
  }

  lemma TokensRead(tokens: seq<string>, end: string)
    requires AllSolid(tokens) && LineEnd(end)
    ensures Fields(TrimLineEnd(Join(tokens, ' ') + end)) == tokens
  {
    JoinLast(tokens);
    EndGoes(Join(tokens, ' '), end);
    FieldsJoin(tokens);
  }

  /** What eight tokens ask for. */
  ghost predicate Requests(t: seq<string>, c: Connect) {
    && |t| == 8 && t[0] == "DLDW/1" && t[1] == "CONNECT"
    && c.host == t[2] && 1 <= |t[2]| <= 253 && Over(t[2], HostLetter)
    && Number(t[3], c.port) && 1 <= c.port <= 65535
    && c.token == t[4] && 8 <= |t[4]| <= 512 && Over(t[4], TokenLetter)
    && c.nonce == t[5] && |t[5]| == 32 && Over(t[5], HexLetter)
    && c.clientID == t[6] && 1 <= |t[6]| <= 64 && Over(t[6], TokenLetter)
    && FlagsMean(t[7], c.flags)
  }

  lemma PortExactly(text: string, port: int)
    ensures Atoi(text) == Some(port) && 0 < port <= 65535 <==> Number(text, port) && 1 <= port <= 65535
  {
    NumberExactly(text, port);
  }

  lemma FieldsValid(t: seq<string>)
    requires |t| == 8
    ensures ValidHost(t[2]) <==> 1 <= |t[2]| <= 253 && Over(t[2], HostLetter)
    ensures ValidToken(t[4], 8, 512) <==> 8 <= |t[4]| <= 512 && Over(t[4], TokenLetter)
    ensures HexLower(t[5]) <==> Over(t[5], HexLetter)
    ensures ValidToken(t[6], 1, 64) <==> 1 <= |t[6]| <= 64 && Over(t[6], TokenLetter)
  {
    ValidExactly(t[2], 1, 253);
    ValidExactly(t[4], 8, 512);
    ValidExactly(t[5], 0, 32);
    ValidExactly(t[6], 1, 64);
  }

  /** A line of tokens with single spaces between them, with or without a line end, is accepted as a request if and only
    * if its tokens are a request's, and then it means what they say. */
  lemma ConnectExactly(tokens: seq<string>, end: string, c: Connect)
    requires AllSolid(tokens) && LineEnd(end)
    ensures ParseConnect(Join(tokens, ' ') + end) == Result.Ok(c) <==> Requests(tokens, c)
  {
    TokensRead(tokens, end);
    if |tokens| == 8 {
      FieldsValid(tokens);
      PortExactly(tokens[3], c.port);
      FlagsExactly(tokens[7], c.flags);
    }
  }

  /** The printed request, with its flags in any order that a map iteration may yield. */
  lemma ConnectPrinted(c: Connect, order: seq<string>)
    requires Known(order, c.flags)
    ensures Encode(c, order) ==
            "DLDW/1" + " " + "CONNECT" + " " + c.host + " " + IntText(c.port) + " " + c.token + " " + c.nonce + " " + c.clientID
            + " " + FlagText(c.flags, order) + "\n"
  {
    JoinEight(ConnectTokens(c, FlagText(c.flags, order)));
  }

  lemma JoinEight(t: seq<string>)
    requires |t| == 8
    ensures Join(t, ' ') == t[0] + " " + t[1] + " " + t[2] + " " + t[3] + " " + t[4] + " " + t[5] + " " + t[6] + " " + t[7]
  {
    JoinFour(t[..4]);
    JoinFour(t[4..]);
    assert t == t[..4] + t[4..];
    JoinConcat(t[..4], t[4..], ' ');
  }

  lemma JoinFour(t: seq<string>)
    requires |t| == 4
    ensures Join(t, ' ') == t[0] + " " + t[1] + " " + t[2] + " " + t[3]
  {
    assert t[1..][1..] == t[2..] && t[2..][1..] == t[3..];
    assert Join(t[3..], ' ') == t[3];
    assert Join(t[2..], ' ') == t[2] + [' '] + t[3];
  }

  lemma SortedStays(parts: seq<string>)
    requires Sorted(parts)
    ensures Sort(parts) == parts
  {
    SortSorts(parts);
    SortedUnique(Sort(parts), parts);
  }

  lemma PartsAre(flags: map<string, string>, keys: seq<string>)
    requires Known(keys, flags)
    ensures FlagParts(flags, keys) == seq(|keys|, i requires 0 <= i < |keys| => keys[i] + "=" + flags[keys[i]])
  {
  }

  /** The flags in the order of their parts, each key once, are the printed text; no flags are a dash. */
  lemma FlagsPrinted(flags: map<string, string>, order: seq<string>, keys: seq<string>)
    requires Iterates(order, flags) && Iterates(keys, flags) && Sorted(FlagParts(flags, keys))
    ensures FlagText(flags, order) ==
            if keys == [] then "-" else Join(seq(|keys|, i requires 0 <= i < |keys| => keys[i] + "=" + flags[keys[i]]), ',')
  {
    FlagTextIgnoresOrder(flags, order, keys);
    SortedStays(FlagParts(flags, keys));
    PartsAre(flags, keys);
  }

  // ----- responses -----

  ghost predicate Accepts(t: seq<string>, r: OK) {
    && |t| == 5 && t[0] == "DLDW/1" && t[1] == "OK"
    && r.connID == t[2] && 4 <= |t[2]| <= 64 && Over(t[2], TokenLetter)
    && Number(t[3], r.expiresIn) && 0 <= r.expiresIn
    && ((t[4] == "-" && r.resolvedIP == "") || (r.resolvedIP == t[4] && 3 <= |t[4]| <= 64 && Over(t[4], TokenLetter)))
  }

  /** A line of tokens is an acceptance if and only if its tokens are, and then it means what they say. */
  lemma OKExactly(tokens: seq<string>, end: string, r: OK)
    requires AllSolid(tokens) && LineEnd(end)
    ensures ParseResponse(Join(tokens, ' ') + end) == Result.Ok(Accepted(r)) <==> Accepts(tokens, r)
  {
    TokensRead(tokens, end);
    if |tokens| == 5 {
      ValidExactly(tokens[2], 4, 64);
      ValidExactly(tokens[4], 3, 64);
      NumberExactly(tokens[3], r.expiresIn);
      AcceptedWhen(tokens, r);
    }
  }

  lemma AcceptedWhen(f: seq<string>, r: OK)
    requires |f| == 5
    ensures ParseOK(f) == Result.Ok(r) <==>
              && r.connID == f[2] && ValidToken(f[2], 4, 64) && Atoi(f[3]) == Some(r.expiresIn) && 0 <= r.expiresIn
              && ((f[4] == "-" && r.resolvedIP == "") || (r.resolvedIP == f[4] && ValidToken(f[4], 3, 64)))
  {
  }

  lemma OKPrinted(r: OK)
    ensures EncodeOK(r) ==
            "DLDW/1 OK " + r.connID + " " + IntText(r.expiresIn) + " " + (if r.resolvedIP == "" then "-" else r.resolvedIP) + "\n"
  {
    var t := OKTokens(r);
    JoinFour(t[..4]);
    assert t == t[..4] + [t[4]];
    JoinConcat(t[..4], [t[4]], ' ');
  }

  /** A rejection line is accepted if and only if its code is, and its message is everything behind the space that
    * follows the code, up to the line end. */
  lemma ErrExactly(code: string, msg: string, end: string)
    requires Solid(code) && LineEnd(end) && (msg != "" ==> !IsLineEnd(msg[|msg| - 1]))
    ensures var line := "DLDW/1 ERR " + code + " " + msg + end;
            ParseResponse(line) == Result.Ok(Rejected(Err.Err(code, msg))) <==> 3 <= |code| <= 48 && Over(code, CodeLetter)
  {
    var s := ErrHead(code) + msg;
    HeadText(code, msg);
    ErrLineEnds(code, msg);
    EndGoes(s, end);
    HeaderFields(code, msg);
    MessageFound(code, msg);
    ValidExactly(code, 3, 48);
    RejectedWhen(s + end, s, code, msg);
  }

  lemma HeadText(code: string, msg: string)
    ensures ErrHead(code) + msg == "DLDW/1 ERR " + code + " " + msg
  {
  }

  lemma ErrLineEnds(code: string, msg: string)
    requires msg != "" ==> !IsLineEnd(msg[|msg| - 1])
    ensures var s := ErrHead(code) + msg; s != "" && !IsLineEnd(s[|s| - 1])
  {
    var s := ErrHead(code) + msg;
    assert s[|s| - 1] == if msg == "" then ' ' else msg[|msg| - 1];
  }

  lemma ErrPrinted(e: Err)
    ensures EncodeErr(e) ==
            "DLDW/1 ERR " + e.code + " " + (if e.message == "" then "unspecified error" else e.message) + "\n"
  {
  }

  /** Nothing else is a response: without the protocol's name and one of the two words a line is refused. */
  lemma OtherwiseRefused(tokens: seq<string>, end: string)
    requires AllSolid(tokens) && LineEnd(end)
    requires tokens[0] != "DLDW/1" || |tokens| < 3 || tokens[1] !in {"OK", "ERR"}
    ensures ParseResponse(Join(tokens, ' ') + end) == Result.Err(Malformed)
  {
    TokensRead(tokens, end);
  }
}
