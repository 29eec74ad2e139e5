/** Token rotation and replay protection over all interleavings. */
module AuthRuns {
  import opened Wrappers
  import opened Auth

  // ----- tokens -----

  /** A Refresh call between its two critical sections, or after them. */
  datatype Refresher = Validated(id: string) | Rotating(id: string, secret: string)

  /** issued holds every secret that was ever generated. */
  datatype Sys = Sys(st: State, issued: set<string>, refreshers: seq<Refresher>)

  datatype Step =
    | Register(id: string, clientID: string, secret: string, now: int)
    | Validate(secret: string, now: int)
    | RefreshBegin(secret: string, now: int)
    | RefreshEnd(r: nat, secret: string, now: int)
    | Revoke(secret: string, now: int)

  /** The digest and the token lifetime. */
  datatype Env = Env(hash: string -> string, ttl: int)

  ghost predicate Injective(v: Env) {
    forall a, b :: v.hash(a) == v.hash(b) ==> a == b
  }

  ghost predicate Enabled(v: Env, s: Sys, t: Step) {
    match t
    case Register(id, _, secret, _) => id !in s.st.records && secret !in s.issued
    case Validate(_, _) => true
    case RefreshBegin(secret, now) => secret != "" && Lookup(s.st, v.hash(secret), now).Ok?
    case RefreshEnd(r, secret, _) => r < |s.refreshers| && s.refreshers[r].Validated? && secret !in s.issued
    case Revoke(_, now) => now != 0
  }

  function Apply(v: Env, s: Sys, t: Step): Sys
    requires Enabled(v, s, t)
  {
    match t
    case Register(id, clientID, secret, now) =>
      s.(st := Registered(s.st, Record(id, clientID, v.hash(secret), now, ExpiryAt(v.ttl, now), 0, 0)),
         issued := s.issued + {secret})
    case Validate(secret, now) =>
      var r := Lookup(s.st, v.hash(secret), now);
      if secret != "" && r.Ok? then s.(st := Seen(s.st, r.value, now)) else s
    case RefreshBegin(secret, now) =>
      var id := Lookup(s.st, v.hash(secret), now).value;
      s.(st := Seen(s.st, id, now), refreshers := s.refreshers + [Validated(id)])
    case RefreshEnd(r, secret, now) =>
      var id := s.refreshers[r].id;
      s.(st := Rotated(s.st, id, v.hash(secret), ExpiryAt(v.ttl, now)), issued := s.issued + {secret},
         refreshers := s.refreshers[r := Rotating(id, secret)])
    case Revoke(secret, now) => s.(st := RevokedState(s.st, v.hash(secret), now))
  }

  ghost predicate Run(v: Env, s: Sys, ts: seq<Step>)
    decreases |ts|
  {
    ts == [] || (Enabled(v, s, ts[0]) && Run(v, Apply(v, s, ts[0]), ts[1..]))
  }

  ghost function Exec(v: Env, s: Sys, ts: seq<Step>): Sys
    requires Run(v, s, ts)
    decreases |ts|
  {
    if ts == [] then s else Exec(v, Apply(v, s, ts[0]), ts[1..])
  }

  const FRESH: Sys := Sys(State(map[], map[]), {}, [])

  ghost predicate KnownHash(v: Env, issued: set<string>, h: string) {
    exists x :: x in issued && v.hash(x) == h
  }

  ghost predicate Inv(v: Env, s: Sys) {
    && Inverse(s.st)
    && (forall h :: h in s.st.byHash ==> KnownHash(v, s.issued, h))
    && (forall r :: 0 <= r < |s.refreshers| ==> s.refreshers[r].id in s.st.records)
  }

  lemma FreshHash(v: Env, s: Sys, secret: string)
    requires Injective(v) && Inv(v, s) && secret !in s.issued
    ensures v.hash(secret) !in s.st.byHash
  {
    forall h | h in s.st.byHash
      ensures h != v.hash(secret)
    {
      var x :| x in s.issued && v.hash(x) == h;
    }
  }

  lemma IssuedGrows(v: Env, s: Sys, secret: string)
    requires Inv(v, s)
    ensures forall h :: h in s.st.byHash ==> KnownHash(v, s.issued + {secret}, h)
    ensures KnownHash(v, s.issued + {secret}, v.hash(secret))
  {
    forall h | h in s.st.byHash
      ensures KnownHash(v, s.issued + {secret}, h)
    {
      var x :| x in s.issued && v.hash(x) == h;
      assert x in s.issued + {secret};
    }
    assert secret in s.issued + {secret};
  }

  lemma RotationKeepsInverse(st: State, id: string, h: string, expiresAt: int)
    requires Inverse(st) && id in st.records && h !in st.byHash
    ensures Inverse(Rotated(st, id, h, expiresAt))
  {
    var st' := Rotated(st, id, h, expiresAt);
    forall other | other in st'.records
      ensures st'.records[other].tokenHash in st'.byHash && st'.byHash[st'.records[other].tokenHash] == other
    {
      if other != id { assert st.byHash[st.records[other].tokenHash] == other; }
    }
  }

  lemma RegisterKeepsInverse(st: State, rec: Record)
    requires Inverse(st) && rec.id !in st.records && rec.tokenHash !in st.byHash
    ensures Inverse(Registered(st, rec))
  {
  }

  lemma SeenKeepsInverse(st: State, id: string, now: int)
    requires Inverse(st)
    ensures Inverse(Seen(st, id, now))
  {
  }

  lemma RevokeKeepsInverse(st: State, h: string, now: int)
    requires Inverse(st)
    ensures Inverse(RevokedState(st, h, now))
  {
  }

  lemma StepKeeps(v: Env, s: Sys, t: Step)
    requires Injective(v) && Inv(v, s) && Enabled(v, s, t)
    ensures Inv(v, Apply(v, s, t))
  {
    match t
    case Register(id, clientID, secret, now) =>
      FreshHash(v, s, secret);
      IssuedGrows(v, s, secret);
      RegisterKeepsInverse(s.st, Record(id, clientID, v.hash(secret), now, ExpiryAt(v.ttl, now), 0, 0));
    case Validate(secret, now) =>
      var r := Lookup(s.st, v.hash(secret), now);
      if r.Ok? { SeenKeepsInverse(s.st, r.value, now); }
    case RefreshBegin(secret, now) => SeenKeepsInverse(s.st, Lookup(s.st, v.hash(secret), now).value, now);
    case RefreshEnd(r, secret, now) => RefreshEndKeeps(v, s, r, secret, now);
    case Revoke(secret, now) => RevokeKeepsInverse(s.st, v.hash(secret), now);
  }

  lemma RefreshEndKeeps(v: Env, s: Sys, r: nat, secret: string, now: int)
    requires Injective(v) && Inv(v, s) && Enabled(v, s, RefreshEnd(r, secret, now))
    ensures Inv(v, Apply(v, s, RefreshEnd(r, secret, now)))
  {
    FreshHash(v, s, secret);
    IssuedGrows(v, s, secret);
    RotationKeepsInverse(s.st, s.refreshers[r].id, v.hash(secret), ExpiryAt(v.ttl, now));
  }

  lemma {:induction false} RunKeeps(v: Env, s: Sys, ts: seq<Step>)
    requires Injective(v) && Inv(v, s) && Run(v, s, ts)
    ensures Inv(v, Exec(v, s, ts))
    decreases |ts|
  {
    if ts != [] {
      StepKeeps(v, s, ts[0]);
      RunKeeps(v, Apply(v, s, ts[0]), ts[1..]);
    }
  }

  /** byHash is the exact inverse of the records' hashes in every interleaving. */
  lemma IndexIsInverse(v: Env, ts: seq<Step>)
    requires Injective(v) && Run(v, FRESH, ts)
    ensures Inverse(Exec(v, FRESH, ts).st)
  {
    RunKeeps(v, FRESH, ts);
  }

  /** Two secrets that lead to the same record are the same secret. */
  lemma OneSecretPerRecord(v: Env, ts: seq<Step>, a: string, b: string)
    requires Injective(v) && Run(v, FRESH, ts)
    requires var st := Exec(v, FRESH, ts).st;
             v.hash(a) in st.byHash && v.hash(b) in st.byHash && st.byHash[v.hash(a)] == st.byHash[v.hash(b)]
    ensures a == b
  {
    RunKeeps(v, FRESH, ts);
    var st := Exec(v, FRESH, ts).st;
    assert v.hash(a) == st.records[st.byHash[v.hash(a)]].tokenHash == v.hash(b);
  }

  lemma {:induction false} GoneStays(v: Env, s: Sys, ts: seq<Step>, secret: string)
    requires Injective(v) && Inv(v, s) && Run(v, s, ts) && secret in s.issued && v.hash(secret) !in s.st.byHash
    ensures v.hash(secret) !in Exec(v, s, ts).st.byHash
    decreases |ts|
  {
    if ts != [] {
      StepKeeps(v, s, ts[0]);
      GoneStays(v, Apply(v, s, ts[0]), ts[1..], secret);
    }
  }

  /** A secret that was rotated away is invalid in every continuation. */
  lemma RotatedNeverValidates(v: Env, us: seq<Step>, ts: seq<Step>, secret: string, now: int)
    requires Injective(v) && Run(v, FRESH, us) && Run(v, Exec(v, FRESH, us), ts)
    requires secret in Exec(v, FRESH, us).issued && v.hash(secret) !in Exec(v, FRESH, us).st.byHash
    ensures Lookup(Exec(v, Exec(v, FRESH, us), ts).st, v.hash(secret), now) == Err(InvalidToken)
  {
    RunKeeps(v, FRESH, us);
    GoneStays(v, Exec(v, FRESH, us), ts, secret);
  }

  /** A rotation takes the record's current secret away and puts the new one in its place. */
  lemma RotationReplaces(v: Env, us: seq<Step>, r: nat, secret: string, now: int, old': string)
    requires Injective(v) && Run(v, FRESH, us) && Enabled(v, Exec(v, FRESH, us), RefreshEnd(r, secret, now))
    requires var s := Exec(v, FRESH, us);
             old' in s.issued && v.hash(old') in s.st.byHash && s.st.byHash[v.hash(old')] == s.refreshers[r].id
    ensures var s' := Apply(v, Exec(v, FRESH, us), RefreshEnd(r, secret, now));
            && v.hash(old') !in s'.st.byHash && old' in s'.issued
            && v.hash(secret) in s'.st.byHash && s'.st.byHash[v.hash(secret)] == Exec(v, FRESH, us).refreshers[r].id
  {
    RunKeeps(v, FRESH, us);
    FreshHash(v, Exec(v, FRESH, us), secret);
  }

  lemma RevokedStep(v: Env, s: Sys, t: Step, id: string)
    requires Inv(v, s) && Enabled(v, s, t) && id in s.st.records && s.st.records[id].revokedAt != 0
    ensures id in Apply(v, s, t).st.records && Apply(v, s, t).st.records[id].revokedAt != 0
  {
  }

  lemma {:induction false} RevokedStays(v: Env, s: Sys, ts: seq<Step>, id: string)
    requires Injective(v) && Inv(v, s) && Run(v, s, ts) && id in s.st.records && s.st.records[id].revokedAt != 0
    ensures id in Exec(v, s, ts).st.records && Exec(v, s, ts).st.records[id].revokedAt != 0
    decreases |ts|
  {
    if ts != [] {
      StepKeeps(v, s, ts[0]);
      RevokedStep(v, s, ts[0], id);
      RevokedStays(v, Apply(v, s, ts[0]), ts[1..], id);
    }
  }

  /** A revoked record validates no secret ever again, even if a Refresh that was validated before the
    * revocation rotates it afterwards. */
  lemma RevokedNeverValidates(v: Env, us: seq<Step>, ts: seq<Step>, id: string, secret: string, now: int)
    requires Injective(v) && Run(v, FRESH, us) && Run(v, Exec(v, FRESH, us), ts)
    requires var s := Exec(v, FRESH, us); id in s.st.records && s.st.records[id].revokedAt != 0
    ensures Lookup(Exec(v, Exec(v, FRESH, us), ts).st, v.hash(secret), now) != Ok(id)
  {
    RunKeeps(v, FRESH, us);
    var s := Exec(v, FRESH, us);
    RevokedStays(v, s, ts, id);
    RunKeeps(v, s, ts);
  }

  /** Two overlapping refreshes of one record both succeed, but the secret handed out by the one that
    * rotates first is dead as soon as the other rotates. */
  lemma OverlappingRefreshLoses(v: Env, us: seq<Step>, a: nat, b: nat, first: string, second: string, now: int)
    requires Injective(v) && Run(v, FRESH, us) && a != b
    requires var s := Exec(v, FRESH, us);
             && a < |s.refreshers| && b < |s.refreshers| && s.refreshers[a] == s.refreshers[b]
             && Enabled(v, s, RefreshEnd(a, first, now)) && s.refreshers[b].Validated?
             && second !in s.issued && second != first
    ensures var s1 := Apply(v, Exec(v, FRESH, us), RefreshEnd(a, first, now));
            Enabled(v, s1, RefreshEnd(b, second, now))
            && Lookup(Apply(v, s1, RefreshEnd(b, second, now)).st, v.hash(first), now) == Err(InvalidToken)
  {
    RunKeeps(v, FRESH, us);
    var s := Exec(v, FRESH, us);
    FreshHash(v, s, first);
    StepKeeps(v, s, RefreshEnd(a, first, now));
    var s1 := Apply(v, s, RefreshEnd(a, first, now));
    FreshHash(v, s1, second);
  }

  // ----- nonces -----

  datatype Check = Check(key: string, now: int)

  /** The time of a check is read before the lock is taken: in serving order, no check is more than late older than
    * an earlier one. */
  ghost predicate Late(calls: seq<Check>, late: nat) {
    forall i, j :: 0 <= i < j < |calls| ==> calls[i].now - late <= calls[j].now
  }

  /** The nonce map after the first n calls. */
  function SeenAfter(ttl: int, maxMem: nat, calls: seq<Check>, n: nat): Nonces
    requires n <= |calls|
  {
    if n == 0 then map[]
    else Checked(SeenAfter(ttl, maxMem, calls, n - 1), ttl, maxMem, calls[n - 1].key, calls[n - 1].now).0
  }

  function Accepts(ttl: int, maxMem: nat, calls: seq<Check>, i: nat): bool
    requires i < |calls|
  {
    Checked(SeenAfter(ttl, maxMem, calls, i), ttl, maxMem, calls[i].key, calls[i].now).1
  }

  ghost predicate ResetAt(ttl: int, maxMem: nat, calls: seq<Check>, r: nat)
    requires r < |calls|
  {
    HardReset(SeenAfter(ttl, maxMem, calls, r), ttl, maxMem, calls[r].now)
  }

  /** Without a reset an accepted nonce stays in the map as long as no check comes more than the ttl later. */
  lemma {:induction false} NonceKept(ttl: int, maxMem: nat, calls: seq<Check>, i: nat, n: nat)
    requires i < n <= |calls| && Accepts(ttl, maxMem, calls, i)
    requires forall r :: i < r < n ==> !ResetAt(ttl, maxMem, calls, r)
    requires forall r :: i < r < n ==> calls[r].now - calls[i].now <= ttl
    ensures var seen := SeenAfter(ttl, maxMem, calls, n); calls[i].key in seen && seen[calls[i].key] == calls[i].now
    decreases n
  {
    if n > i + 1 {
      NonceKept(ttl, maxMem, calls, i, n - 1);
      assert !ResetAt(ttl, maxMem, calls, n - 1);
    }
  }

  lemma KeptRefuses(ttl: int, maxMem: nat, calls: seq<Check>, late: nat, i: nat, j: nat)
    requires Late(calls, late) && i < j < |calls| && calls[i].key == calls[j].key
    requires Accepts(ttl, maxMem, calls, i) && calls[j].now - calls[i].now <= ttl - late
    requires forall r :: i < r <= j ==> !ResetAt(ttl, maxMem, calls, r)
    ensures !Accepts(ttl, maxMem, calls, j)
  {
    NonceKept(ttl, maxMem, calls, i, j);
    assert !ResetAt(ttl, maxMem, calls, j);
  }

  /** Two acceptances of one (token, nonce) are more than the ttl less the lateness apart, or separated by a hard
    * reset of the map. */
  lemma NoReplayWithinTTL(ttl: int, maxMem: nat, calls: seq<Check>, late: nat, i: nat, j: nat)
    requires Late(calls, late) && i < j < |calls| && calls[i].key == calls[j].key
    requires Accepts(ttl, maxMem, calls, i) && Accepts(ttl, maxMem, calls, j)
    ensures calls[j].now - calls[i].now > ttl - late || exists r :: i < r <= j && ResetAt(ttl, maxMem, calls, r)
  {
    if calls[j].now - calls[i].now <= ttl - late && forall r :: i < r <= j ==> !ResetAt(ttl, maxMem, calls, r) {
      KeptRefuses(ttl, maxMem, calls, late, i, j);
    }
  }

  /** The map holds only what was checked before, at most one nonce a check. */
  lemma {:induction false} SeenWasChecked(ttl: int, maxMem: nat, calls: seq<Check>, n: nat)
    requires n <= |calls|
    ensures |SeenAfter(ttl, maxMem, calls, n)| <= n
    ensures forall k :: k in SeenAfter(ttl, maxMem, calls, n) ==> exists j :: 0 <= j < n && calls[j].key == k
  {
    if n > 0 {
      SeenWasChecked(ttl, maxMem, calls, n - 1);
      var seen := SeenAfter(ttl, maxMem, calls, n - 1);
      var kept := Trimmed(seen, ttl, maxMem, calls[n - 1].now);
      assert kept.Keys <= seen.Keys;
      KeysFit(kept, seen);
      var next := SeenAfter(ttl, maxMem, calls, n);
      assert next.Keys <= kept.Keys + {calls[n - 1].key};
      assert |next.Keys| <= |kept.Keys| + 1 by {
        KeysWithin(next.Keys, kept.Keys + {calls[n - 1].key});
      }
    }
  }

  lemma KeysFit(a: Nonces, b: Nonces)
    requires a.Keys <= b.Keys
    ensures |a| <= |b|
  {
    KeysWithin(a.Keys, b.Keys);
  }

  lemma {:induction false} KeysWithin(a: set<string>, b: set<string>)
    requires a <= b
    ensures |a| <= |b|
  {
    if a != {} {
      var x :| x in a;
      KeysWithin(a - {x}, b - {x});
    }
  }

  /** A nonce that was never checked before is accepted, whatever became of the map. */
  lemma FirstUseAccepted(ttl: int, maxMem: nat, calls: seq<Check>, i: nat)
    requires i < |calls| && forall j :: 0 <= j < i ==> calls[j].key != calls[i].key
    ensures Accepts(ttl, maxMem, calls, i)
  {
    SeenWasChecked(ttl, maxMem, calls, i);
  }

  lemma {:induction false} SeenUntilFull(ttl: int, maxMem: nat, calls: seq<Check>, n: nat)
    requires n <= |calls| && n <= maxMem
    ensures forall j :: 0 <= j < n ==> calls[j].key in SeenAfter(ttl, maxMem, calls, n)
  {
    if n > 0 {
      SeenUntilFull(ttl, maxMem, calls, n - 1);
      SeenWasChecked(ttl, maxMem, calls, n - 1);
    }
  }

  /** The first maxMem checks accept exactly the nonces that come for the first time, at any distance in time. */
  lemma AcceptedUntilFull(ttl: int, maxMem: nat, calls: seq<Check>, i: nat)
    requires i < |calls| && i < maxMem
    ensures Accepts(ttl, maxMem, calls, i) <==> forall j :: 0 <= j < i ==> calls[j].key != calls[i].key
  {
    SeenWasChecked(ttl, maxMem, calls, i);
    SeenUntilFull(ttl, maxMem, calls, i);
  }

  /** Nonces of one length make the joined map key unambiguous, whatever the token id contains. */
  lemma NonceKeyInjective(a: string, m: string, b: string, n: string)
    requires |m| == |n| && NonceKey(a, m) == NonceKey(b, n)
    ensures a == b && m == n
  {
    var k, l := NonceKey(a, m), NonceKey(b, n);
    assert k[..|a|] == a && l[..|b|] == b && k[|a| + 1..] == m && l[|b| + 1..] == n;
  }
}
