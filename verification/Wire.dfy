/** The DLDW/1 handshake lines of internal/protocol/dldw1/dldw1.go: printing and parsing. */
module Wire {
  import opened Wrappers
  import opened Text

  const PROTO: string := "DLDW/1"

  datatype WireError = Malformed

  datatype Connect = Connect(host: string, port: int, token: string, nonce: string, clientID: string,
                             flags: map<string, string>)

  datatype OK = OK(connID: string, expiresIn: int, resolvedIP: string)

  datatype Err = Err(code: string, message: string)

  datatype Response = Accepted(ok: OK) | Rejected(err: Err)

  // ----- lexical parts -----

  function TokenLen(s: string): (n: nat)
    ensures n <= |s| && (forall i :: 0 <= i < n ==> !IsSpace(s[i])) && (n < |s| ==> IsSpace(s[n]))
  {
    if s == "" || IsSpace(s[0]) then 0 else 1 + TokenLen(s[1..])
  }

  /** The maximal runs of non-space characters. */
  function Fields(s: string): seq<string>
    decreases |s|
  {
    if s == "" then []
    else if IsSpace(s[0]) then Fields(s[1..])
    else [s[..TokenLen(s)]] + Fields(s[TokenLen(s)..])
  }

  predicate IsLineEnd(c: char) {
    c == '\r' || c == '\n'
  }

  function TrimLineEnd(s: string): string {
    if s != "" && IsLineEnd(s[|s| - 1]) then TrimLineEnd(s[..|s| - 1]) else s
  }

  predicate TokenChar(c: char) {
    'a' <= c <= 'z' || 'A' <= c <= 'Z' || '0' <= c <= '9' || c == '_' || c == '-' || c == '.' || c == '='
  }

  predicate ValidToken(t: string, min: nat, max: nat) {
    min <= |t| <= max && forall i :: 0 <= i < |t| ==> TokenChar(t[i])
  }

  predicate ValidHost(h: string) {
    0 < |h| <= 253 && forall i :: 0 <= i < |h| ==> ' ' < h[i] < 0x7f as char && h[i] != ','
  }

  predicate HexLower(s: string) {
    forall i :: 0 <= i < |s| ==> '0' <= s[i] <= '9' || 'a' <= s[i] <= 'f'
  }

  predicate ValidErrCode(c: string) {
    3 <= |c| <= 48 && forall i :: 0 <= i < |c| ==> 'A' <= c[i] <= 'Z' || '0' <= c[i] <= '9' || c[i] == '_'
  }

  // ----- flags -----

  function FlagPart(k: string, v: string): string {
    k + "=" + v
  }

  predicate Known(order: seq<string>, flags: map<string, string>) {
    forall i :: 0 <= i < |order| ==> order[i] in flags
  }

  /** The k=v parts in the order in which the map iteration yields the keys. */
  function FlagParts(flags: map<string, string>, order: seq<string>): (parts: seq<string>)
    requires Known(order, flags)
    ensures |parts| == |order| && forall i :: 0 <= i < |order| ==> parts[i] == FlagPart(order[i], flags[order[i]])
  {
    seq(|order|, i requires 0 <= i < |order| => FlagPart(order[i], flags[order[i]]))
  }

  /** order is one iteration over the map: every key once. */
  ghost predicate Iterates(order: seq<string>, flags: map<string, string>) {
    && Known(order, flags)
    && (forall i, j :: 0 <= i < j < |order| ==> order[i] != order[j])
    && (forall k :: k in flags ==> k in order)
  }

  function FlagText(flags: map<string, string>, order: seq<string>): string
    requires Known(order, flags)
  {
    if order == [] then "-" else Join(Sort(FlagParts(flags, order)), ',')
  }

  /** One k=v part: empty parts, several equals signs, and bad keys or values are refused. */
  function ParseFlag(kv: string): Result<(string, string), WireError> {
    var pieces := Split(kv, '=');
    if kv == "" || |pieces| > 2 then Result.Err(Malformed)
    else
      var v := if |pieces| == 2 then pieces[1] else "";
      if ValidToken(pieces[0], 1, 32) && ValidToken(v, 0, 64) then Result.Ok((pieces[0], v)) else Result.Err(Malformed)
  }

  function ParseParts(parts: seq<string>, acc: map<string, string>): Result<map<string, string>, WireError>
    decreases |parts|
  {
    if parts == [] then Result.Ok(acc)
    else
      var r := ParseFlag(parts[0]);
      if r.Err? then Result.Err(r.error) else ParseParts(parts[1..], acc[r.value.0 := r.value.1])
  }

  function ParseFlags(s: string): Result<map<string, string>, WireError> {
    if s == "-" then Result.Ok(map[]) else ParseParts(Split(s, ','), map[])
  }

  // ----- requests -----

  function ConnectTokens(c: Connect, flagText: string): seq<string> {
    [PROTO, "CONNECT", c.host, IntText(c.port), c.token, c.nonce, c.clientID, flagText]
  }

  /** The request line, for one iteration order of the flag map. */
  function Encode(c: Connect, order: seq<string>): string
    requires Known(order, c.flags)
  {
    Join(ConnectTokens(c, FlagText(c.flags, order)), ' ') + "\n"
  }

  function ParseConnect(line: string): Result<Connect, WireError> {
    var f := Fields(TrimLineEnd(line));
    if |f| != 8 || f[0] != PROTO || f[1] != "CONNECT" || !ValidHost(f[2]) then Result.Err(Malformed)
    else
      var port := Atoi(f[3]);
      if port.None? || port.value <= 0 || port.value > 65535 then Result.Err(Malformed)
      else if !ValidToken(f[4], 8, 512) || |f[5]| != 32 || !HexLower(f[5]) || !ValidToken(f[6], 1, 64) then Result.Err(Malformed)
      else
        var flags := ParseFlags(f[7]);
        if flags.Err? then Result.Err(Malformed)
        else Result.Ok(Connect(f[2], port.value, f[4], f[5], f[6], flags.value))
  }

  predicate ValidFlag(k: string, v: string) {
    ValidToken(k, 1, 32) && ValidToken(v, 0, 64) && '=' !in k && '=' !in v
  }

  predicate ValidConnect(c: Connect) {
    && ValidHost(c.host) && 0 < c.port <= 65535 && ValidToken(c.token, 8, 512)
    && |c.nonce| == 32 && HexLower(c.nonce) && ValidToken(c.clientID, 1, 64)
    && forall k :: k in c.flags ==> ValidFlag(k, c.flags[k])
  }

  // ----- responses -----

  function OKTokens(r: OK): seq<string> {
    [PROTO, "OK", r.connID, IntText(r.expiresIn), if r.resolvedIP == "" then "-" else r.resolvedIP]
  }

  function EncodeOK(r: OK): string {
    Join(OKTokens(r), ' ') + "\n"
  }

  function ErrHead(code: string): string {
    PROTO + " ERR " + code + " "
  }

  function EncodeErr(e: Err): string {
    ErrHead(e.code) + (if e.message == "" then "unspecified error" else e.message) + "\n"
  }

  function ParseOK(f: seq<string>): Result<OK, WireError> {
    if |f| != 5 || !ValidToken(f[2], 4, 64) then Result.Err(Malformed)
    else
      var exp := Atoi(f[3]);
      if exp.None? || exp.value < 0 then Result.Err(Malformed)
      else if f[4] == "-" then Result.Ok(OK.OK(f[2], exp.value, ""))
      else if !ValidToken(f[4], 3, 64) then Result.Err(Malformed)
      else Result.Ok(OK.OK(f[2], exp.value, f[4]))
  }

  /** The text behind the first occurrence of the code marker. */
  function ErrMessage(s: string, code: string): string {
    var marker := " ERR " + code + " ";
    var at := Index(s, marker);
    if at >= 0 then s[at + |marker|..] else ""
  }

  function ParseResponse(line: string): Result<Response, WireError> {
    var s := TrimLineEnd(line);
    var f := Fields(s);
    if |f| < 3 || f[0] != PROTO then Result.Err(Malformed)
    else if f[1] == "OK" then
      var r := ParseOK(f);
      if r.Err? then Result.Err(r.error) else Result.Ok(Accepted(r.value))
    else if f[1] == "ERR" && ValidErrCode(f[2]) then
      Result.Ok(Rejected(Err.Err(f[2], ErrMessage(s, f[2]))))
    else Result.Err(Malformed)
  }

  predicate ValidOK(r: OK) {
    && ValidToken(r.connID, 4, 64) && 0 <= r.expiresIn < 0x8000_0000_0000_0000
    && (r.resolvedIP == "" || ValidToken(r.resolvedIP, 3, 64))
  }

  predicate ValidErr(e: Err) {
    ValidErrCode(e.code) && e.message != "" && !IsLineEnd(e.message[|e.message| - 1])
  }

  // ----- the order of the map iteration -----

  lemma PartsConcat(flags: map<string, string>, a: seq<string>, b: seq<string>)
    requires Known(a, flags)
    requires Known(b, flags)
    ensures FlagParts(flags, a + b) == FlagParts(flags, a) + FlagParts(flags, b)
  {
  }

  /** Taking an element out of its place and putting it in front changes no multiset of parts. */
  lemma PartsToFront(flags: map<string, string>, a: seq<string>, x: string, b: seq<string>)
    requires x in flags && Known(a, flags)
    requires Known(b, flags)
    ensures multiset(FlagParts(flags, a + [x] + b)) == multiset{FlagPart(x, flags[x])} + multiset(FlagParts(flags, a + b))
  {
    PartsConcat(flags, a + [x], b);
    PartsConcat(flags, a, [x]);
    PartsConcat(flags, a, b);
    assert FlagParts(flags, [x]) == [FlagPart(x, flags[x])];
  }

  lemma TakeOut(b: seq<string>, x: string) returns (front: seq<string>, back: seq<string>)
    requires x in multiset(b)
    ensures front + [x] + back == b && multiset(front + back) == multiset(b) - multiset{x}
  {
    var j :| 0 <= j < |b| && b[j] == x;
    front, back := b[..j], b[j + 1..];
    assert front + [x] + back == b;
  }

  lemma KnownParts(flags: map<string, string>, front: seq<string>, x: string, back: seq<string>)
    requires Known(front + [x] + back, flags)
    ensures Known(front, flags) && x in flags && Known(back, flags) && Known(front + back, flags)
  {
    var whole := front + [x] + back;
    assert whole[|front|] == x;
    forall i | 0 <= i < |back|
      ensures back[i] in flags
    {
      assert whole[|front| + 1 + i] == back[i];
    }
    forall i | 0 <= i < |front|
      ensures front[i] in flags
    {
      assert whole[i] == front[i];
    }
  }

  lemma {:induction false} PartsOfPermutation(flags: map<string, string>, a: seq<string>, b: seq<string>)
    requires multiset(a) == multiset(b) && Known(a, flags) && Known(b, flags)
    ensures multiset(FlagParts(flags, a)) == multiset(FlagParts(flags, b))
    decreases |a|
  {
    if a == [] {
      assert |multiset(b)| == 0;
    } else {
      assert a[0] in multiset(a);
      var front, back := TakeOut(b, a[0]);
      KnownParts(flags, front, a[0], back);
      FirstOut(flags, a);
      PartsOfPermutation(flags, a[1..], front + back);
      PartsToFront(flags, front, a[0], back);
    }
  }

  lemma FirstOut(flags: map<string, string>, a: seq<string>)
    requires Known(a, flags) && a != []
    ensures Known(a[1..], flags) && multiset(a[1..]) == multiset(a) - multiset{a[0]}
    ensures multiset(FlagParts(flags, a)) == multiset{FlagPart(a[0], flags[a[0]])} + multiset(FlagParts(flags, a[1..]))
  {
    assert a == [a[0]] + a[1..];
    PartsConcat(flags, [a[0]], a[1..]);
    assert FlagParts(flags, [a[0]]) == [FlagPart(a[0], flags[a[0]])];
  }

  lemma {:induction false} DistinctMultiplicity(a: seq<string>, x: string)
    requires forall i, j :: 0 <= i < j < |a| ==> a[i] != a[j]
    ensures multiset(a)[x] == if x in a then 1 else 0
  {
    if a != [] {
      DistinctMultiplicity(a[1..], x);
      assert a == [a[0]] + a[1..];
    }
  }

  lemma SameElements(flags: map<string, string>, a: seq<string>, b: seq<string>)
    requires Iterates(a, flags) && Iterates(b, flags)
    ensures multiset(a) == multiset(b)
  {
    forall x
      ensures multiset(a)[x] == multiset(b)[x]
    {
      DistinctMultiplicity(a, x);
      DistinctMultiplicity(b, x);
    }
  }

  /** Two iterations over one map give the same text. */
  lemma FlagTextIgnoresOrder(flags: map<string, string>, a: seq<string>, b: seq<string>)
    requires Iterates(a, flags) && Iterates(b, flags)
    ensures FlagText(flags, a) == FlagText(flags, b)
  {
    SameElements(flags, a, b);
    assert |a| == |multiset(a)| == |multiset(b)| == |b|;
    PartsOfPermutation(flags, a, b);
    SortIgnoresOrder(FlagParts(flags, a), FlagParts(flags, b));
  }

  // ----- the loops of the source -----

  lemma NotEmpty(flags: map<string, string>, order: seq<string>)
    requires |flags| > 0 && forall k :: k in flags ==> k in order
    ensures order != []
  {
    assert |flags.Keys| > 0;
    var k :| k in flags.Keys;
    assert k in order;
  }

  lemma EveryOrder(flags: map<string, string>, order: seq<string>)
    requires Iterates(order, flags)
    ensures forall other :: Iterates(other, flags) ==> FlagText(flags, order) == FlagText(flags, other)
  {
    forall other | Iterates(other, flags)
      ensures FlagText(flags, order) == FlagText(flags, other)
    {
      FlagTextIgnoresOrder(flags, order, other);
    }
  }

  /** encodeFlags: collects the parts in map order, sorts them in place and joins them. Every order gives this text. */
  method EncodeFlags(flags: map<string, string>) returns (text: string)
    ensures exists order :: Iterates(order, flags) && text == FlagText(flags, order)
    ensures forall order :: Iterates(order, flags) ==> text == FlagText(flags, order)
  {
    if |flags| == 0 {
      assert flags == map[] && Iterates([], flags);
      EveryOrder(flags, []);
      return "-";
    }
    var parts, order := CollectParts(flags);
    NotEmpty(flags, order);
    var a := new string[|parts|](i requires 0 <= i < |parts| => parts[i]);
    assert a[..] == parts;
    InsertionSort(a);
    text := Join(a[..], ',');
    EveryOrder(flags, order);
  }

  /** The first loop of encodeFlags: one part for every key, in map order. */
  method CollectParts(flags: map<string, string>) returns (parts: seq<string>, ghost order: seq<string>)
    ensures Iterates(order, flags) && parts == FlagParts(flags, order)
  {
    order, parts := [], [];
    var rest := flags.Keys;
    while rest != {}
      invariant rest <= flags.Keys
      invariant forall i :: 0 <= i < |order| ==> order[i] in flags && order[i] !in rest
      invariant forall i, j :: 0 <= i < j < |order| ==> order[i] != order[j]
      invariant forall k :: k in flags && k !in rest ==> k in order
      invariant parts == FlagParts(flags, order)
      decreases rest
    {
      var k :| k in rest;
      parts := parts + [FlagPart(k, flags[k])];
      order := order + [k];
      rest := rest - {k};
    }
  }

  /** parseFlags: fills the map part by part and stops at the first bad one. */
  method ReadFlags(s: string) returns (r: Result<map<string, string>, WireError>)
    ensures r == ParseFlags(s)
  {
    if s == "-" { return Result.Ok(map[]); }
    var out: map<string, string> := map[];
    var parts := Split(s, ',');
    var i := 0;
    assert parts[0..] == parts;
    while i < |parts|
      invariant 0 <= i <= |parts|
      invariant ParseParts(parts, map[]) == ParseParts(parts[i..], out)
    {
      var kv := ParseFlag(parts[i]);
      assert parts[i..][1..] == parts[i + 1..];
      if kv.Err? { return Result.Err(kv.error); }
      out := out[kv.value.0 := kv.value.1];
      i := i + 1;
    }
    r := Result.Ok(out);
  }
}
