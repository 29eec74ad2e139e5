/** Device tokens and tunnel nonces of internal/server/auth/auth.go. Records are shared by two indexes; the
  * record id stands for the pointer. Times are nanoseconds, 0 means not set. */
module Auth {
  import opened Wrappers

  datatype Record = Record(id: string, clientID: string, tokenHash: string, createdAt: int, expiresAt: int,
                           revokedAt: int, lastSeen: int)

  datatype AuthError = InvalidToken | Revoked | Expired

  datatype State = State(records: map<string, Record>, byHash: map<string, string>)

  function Registered(st: State, rec: Record): State {
    State(st.records[rec.id := rec], st.byHash[rec.tokenHash := rec.id])
  }

  /** What a token hash leads to at time now. */
  function Lookup(st: State, h: string, now: int): Result<string, AuthError> {
    if h !in st.byHash || st.byHash[h] !in st.records then Err(InvalidToken)
    else
      var rec := st.records[st.byHash[h]];
      if rec.revokedAt != 0 then Err(Revoked)
      else if rec.expiresAt != 0 && now > rec.expiresAt then Err(Expired)
      else Ok(rec.id)
  }

  /** What a validation answers for a token. */
  function Answer(st: State, hash: string -> string, token: string, now: int): Result<string, AuthError> {
    if token == "" then Err(InvalidToken) else Lookup(st, hash(token), now)
  }

  function Seen(st: State, id: string, now: int): State {
    if id in st.records then st.(records := st.records[id := st.records[id].(lastSeen := now)]) else st
  }

  /** The second critical section of Refresh. */
  function Rotated(st: State, id: string, h: string, expiresAt: int): State {
    if id !in st.records then st
    else
      var rec := st.records[id];
      State(st.records[id := rec.(tokenHash := h, expiresAt := expiresAt)], (st.byHash - {rec.tokenHash})[h := id])
  }

  function RevokedState(st: State, h: string, now: int): State {
    if h in st.byHash && st.byHash[h] in st.records
    then st.(records := st.records[st.byHash[h] := st.records[st.byHash[h]].(revokedAt := now)]) else st
  }

  function ExpiryAt(ttl: int, now: int): int {
    if ttl > 0 then now + ttl else 0
  }

  /** Each record is found under its own hash and each hash leads to the record that has it. */
  ghost predicate Inverse(st: State) {
    && (forall id :: id in st.records ==>
          st.records[id].id == id && st.records[id].tokenHash in st.byHash && st.byHash[st.records[id].tokenHash] == id)
    && (forall h :: h in st.byHash ==> st.byHash[h] in st.records && st.records[st.byHash[h]].tokenHash == h)
  }

  class Store {
    const hash: string -> string
    const ttl: int
    var records: map<string, Record>
    var byHash: map<string, string>

    constructor (hash: string -> string, ttl: int)
      ensures this.hash == hash && this.ttl == ttl && View() == State(map[], map[])
    {
      this.hash, this.ttl, records, byHash := hash, ttl, map[], map[];
    }

    function View(): State
      reads this
    {
      State(records, byHash)
    }

    method Register(clientID: string, id: string, token: string, now: int) returns (rec: Record)
      modifies this
      ensures rec == Record(id, clientID, hash(token), now, ExpiryAt(ttl, now), 0, 0)
      ensures View() == Registered(old(View()), rec)
    {
      rec := Record(id, clientID, hash(token), now, 0, 0, 0);
      if ttl > 0 { rec := rec.(expiresAt := now + ttl); }
      records := records[rec.id := rec];
      byHash := byHash[rec.tokenHash := rec.id];
    }

    method Validate(token: string, now: int) returns (r: Result<string, AuthError>)
      requires Inverse(View())
      modifies this
      ensures r == Answer(old(View()), hash, token, now)
      ensures View() == if r.Ok? then Seen(old(View()), r.value, now) else old(View())
    {
      if token == "" { return Err(InvalidToken); }
      var h := hash(token);
      if h !in byHash { return Err(InvalidToken); }
      var rec := records[byHash[h]];
      if rec.revokedAt != 0 { return Err(Revoked); }
      if rec.expiresAt != 0 && now > rec.expiresAt { return Err(Expired); }
      records := records[rec.id := rec.(lastSeen := now)];
      return Ok(rec.id);
    }

    /** The critical section of Refresh after its validation, which other calls may have overtaken. */
    method Rotate(id: string, newToken: string, now: int)
      requires id in records
      modifies this
      ensures View() == Rotated(old(View()), id, hash(newToken), ExpiryAt(ttl, now))
    {
      var rec := records[id];
      byHash := byHash - {rec.tokenHash};
      rec := rec.(tokenHash := hash(newToken), expiresAt := 0);
      if ttl > 0 { rec := rec.(expiresAt := now + ttl); }
      records := records[id := rec];
      byHash := byHash[rec.tokenHash := id];
    }

    /** Refresh when nothing comes between its two critical sections. */
    method Refresh(token: string, newToken: string, now: int, later: int) returns (r: Result<string, AuthError>)
      requires Inverse(View())
      modifies this
      ensures r == Answer(old(View()), hash, token, now)
      ensures r.Ok? ==> View() == Rotated(Seen(old(View()), r.value, now), r.value, hash(newToken), ExpiryAt(ttl, later))
      ensures r.Err? ==> View() == old(View())
    {
      r := Validate(token, now);
      if r.Ok? { Rotate(r.value, newToken, later); }
    }

    method Revoke(token: string, now: int) returns (r: Result<(), AuthError>)
      requires Inverse(View())
      modifies this
      ensures View() == RevokedState(old(View()), hash(token), now)
      ensures r == if hash(token) in old(byHash) then Ok(()) else Err(InvalidToken)
    {
      var h := hash(token);
      if h !in byHash { return Err(InvalidToken); }
      records := records[byHash[h] := records[byHash[h]].(revokedAt := now)];
      return Ok(());
    }
  }

  // ----- nonces -----

  type Nonces = map<string, int>

  function NonceKey(tokenID: string, nonce: string): string {
    tokenID + "/" + nonce
  }

  function Unexpired(seen: Nonces, ttl: int, now: int): Nonces {
    map k | k in seen && !(now - seen[k] > ttl) :: seen[k]
  }

  /** The map after the size check: evicted when full, emptied when that did not help. */
  function Trimmed(seen: Nonces, ttl: int, maxMem: nat, now: int): Nonces {
    if |seen| >= maxMem then
      var kept := Unexpired(seen, ttl, now);
      if |kept| >= maxMem then map[] else kept
    else seen
  }

  predicate HardReset(seen: Nonces, ttl: int, maxMem: nat, now: int) {
    |seen| >= maxMem && |Unexpired(seen, ttl, now)| >= maxMem
  }

  function Checked(seen: Nonces, ttl: int, maxMem: nat, key: string, now: int): (Nonces, bool) {
    var kept := Trimmed(seen, ttl, maxMem, now);
    if key in kept then (kept, false) else (kept[key := now], true)
  }

  class NonceStore {
    const ttl: int
    const maxMem: nat
    var seen: map<string, int>

    constructor (ttl: int)
      ensures this.ttl == (if ttl <= 0 then 600_000_000_000 else ttl) && maxMem == 1048576 && seen == map[]
    {
      this.ttl := if ttl <= 0 then 600_000_000_000 else ttl;
      maxMem := 1048576;
      seen := map[];
    }

    method CheckAndAdd(tokenID: string, nonce: string, now: int) returns (ok: bool)
      modifies this
      ensures (seen, ok) == Checked(old(seen), ttl, maxMem, NonceKey(tokenID, nonce), now)
    {
      var key := tokenID + "/" + nonce;
      if |seen| >= maxMem {
        Evict(now);
        if |seen| >= maxMem { seen := map[]; }
      }
      if key in seen { return false; }
      seen := seen[key := now];
      return true;
    }

    method Evict(now: int)
      modifies this
      ensures seen == Unexpired(old(seen), ttl, now)
    {
      var rest := seen.Keys;
      while rest != {}
        invariant rest <= old(seen).Keys
        invariant forall k :: k in seen <==> k in old(seen) && (k in rest || !(now - old(seen)[k] > ttl))
        invariant forall k :: k in seen ==> seen[k] == old(seen)[k]
        decreases rest
      {
        var k :| k in rest;
        if now - seen[k] > ttl { seen := seen - {k}; }
        rest := rest - {k};
      }
    }
  }
}
