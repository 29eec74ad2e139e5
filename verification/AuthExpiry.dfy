/** Which secrets validate, told from the schedule alone: from who registered, who refreshed, who revoked, and when
  * (internal/server/auth/auth.go). */
module AuthExpiry {
  import opened Wrappers
  import opened Auth
  import opened AuthRuns

  // ----- what a schedule says -----

  function Issues(t: Step): Option<string> {
    match t
    case Register(_, _, secret, _) => Some(secret)
    case RefreshEnd(_, secret, _) => Some(secret)
    case _ => None
  }

  /** How many refreshes have begun. */
  function Begins(ts: seq<Step>): nat {
    if ts == [] then 0 else Begins(ts[..|ts| - 1]) + if ts[|ts| - 1].RefreshBegin? then 1 else 0
  }

  /** The record that refresh r rotates: the one whose secret it was begun with. */
  function Began(ts: seq<Step>, r: nat): Option<string>
    decreases |ts|, 0
  {
    if ts == [] then None
    else
      var us, t := ts[..|ts| - 1], ts[|ts| - 1];
      if t.RefreshBegin? && Begins(us) == r then Owner(us, t.secret) else Began(us, r)
  }

  /** The record that a secret was issued for: by its registration, or by the end of a refresh. */
  function Owner(ts: seq<Step>, secret: string): Option<string>
    decreases |ts|, 1
  {
    if ts == [] then None
    else
      var us, t := ts[..|ts| - 1], ts[|ts| - 1];
      if Issues(t) == Some(secret) then (if t.Register? then Some(t.id) else Began(us, t.r)) else Owner(us, secret)
  }

  /** The secret that was issued last for a record. */
  function Current(ts: seq<Step>, id: string): Option<string> {
    if ts == [] then None
    else
      var us, t := ts[..|ts| - 1], ts[|ts| - 1];
      if (t.Register? && t.id == id) || (t.RefreshEnd? && Began(us, t.r) == Some(id)) then Some(t.secret)
      else Current(us, id)
  }

  /** When a secret was issued. */
  function IssuedAt(ts: seq<Step>, secret: string): int {
    if ts == [] then 0
    else if Issues(ts[|ts| - 1]) == Some(secret) then ts[|ts| - 1].now
    else IssuedAt(ts[..|ts| - 1], secret)
  }

  /** A record was revoked by the secret that was its current one at the time. */
  predicate RevokedIn(ts: seq<Step>, id: string) {
    ts != [] &&
    var us, t := ts[..|ts| - 1], ts[|ts| - 1];
    (t.Revoke? && Current(us, id) == Some(t.secret)) || RevokedIn(us, id)
  }

  /** A secret's lifetime: without a positive ttl there is no end to it. */
  predicate InTime(ttl: int, issued: int, now: int) {
    ttl <= 0 || now <= issued + ttl
  }

  /** Secrets are issued at set times. */
  ghost predicate Clocked(ts: seq<Step>) {
    forall i :: 0 <= i < |ts| && Issues(ts[i]).Some? ==> ts[i].now > 0
  }

  // ----- the store agrees -----

  /** The record of id is what the schedule says. */
  ghost predicate RecordTold(v: Env, us: seq<Step>, s: Sys, id: string) {
    && (id in s.st.records <==> Current(us, id).Some?)
    && (id in s.st.records ==>
          var rec := s.st.records[id]; var x := Current(us, id).value;
          && rec.tokenHash == v.hash(x) && x in s.issued && Owner(us, x) == Some(id)
          && (rec.revokedAt != 0 <==> RevokedIn(us, id))
          && rec.expiresAt == (if v.ttl > 0 then IssuedAt(us, x) + v.ttl else 0)
          && IssuedAt(us, x) > 0)
    && (id !in s.st.records ==> !RevokedIn(us, id))
  }

  ghost predicate RefreshTold(us: seq<Step>, s: Sys, r: nat) {
    r < |s.refreshers| ==> Began(us, r) == Some(s.refreshers[r].id)
  }

  ghost predicate Told(v: Env, us: seq<Step>, s: Sys) {
    && (forall id :: RecordTold(v, us, s, id))
    && Begins(us) == |s.refreshers| && (forall r :: RefreshTold(us, s, r))
  }

  lemma Last(us: seq<Step>, t: Step)
    ensures (us + [t])[..|us|] == us && (us + [t])[|us|] == t && |us + [t]| == |us| + 1
  {
  }

  /** A step that issues nothing and revokes nothing leaves the record's story as it is. */
  lemma QuietStory(us: seq<Step>, t: Step, id: string)
    requires t.Validate? || t.RefreshBegin?
    ensures var ts := us + [t];
            && Current(ts, id) == Current(us, id) && (RevokedIn(ts, id) <==> RevokedIn(us, id))
            && forall x :: Owner(ts, x) == Owner(us, x) && IssuedAt(ts, x) == IssuedAt(us, x)
  {
    Last(us, t);
  }

  lemma QuietTold(v: Env, us: seq<Step>, s: Sys, t: Step, id: string)
    requires Inv(v, s) && RecordTold(v, us, s, id) && Enabled(v, s, t) && (t.Validate? || t.RefreshBegin?)
    ensures RecordTold(v, us + [t], Apply(v, s, t), id)
  {
    QuietStory(us, t, id);
  }

  lemma RevokeStory(us: seq<Step>, t: Step, id: string)
    requires t.Revoke?
    ensures var ts := us + [t];
            && Current(ts, id) == Current(us, id)
            && (RevokedIn(ts, id) <==> RevokedIn(us, id) || Current(us, id) == Some(t.secret))
            && forall x :: Owner(ts, x) == Owner(us, x) && IssuedAt(ts, x) == IssuedAt(us, x)
  {
    Last(us, t);
  }

  lemma RevokeTold(v: Env, us: seq<Step>, s: Sys, t: Step, id: string)
    requires Injective(v) && Inv(v, s) && RecordTold(v, us, s, id) && Enabled(v, s, t) && t.Revoke?
    ensures RecordTold(v, us + [t], Apply(v, s, t), id)
  {
    RevokeStory(us, t, id);
    if id in s.st.records {
      var x := Current(us, id).value;
      assert v.hash(x) == v.hash(t.secret) <==> x == t.secret;
      assert s.st.byHash[v.hash(x)] == id;
      if v.hash(t.secret) in s.st.byHash && s.st.byHash[v.hash(t.secret)] == id {
        assert s.st.records[id].tokenHash == v.hash(t.secret);
      }
    }
  }

  lemma IssueStory(us: seq<Step>, t: Step, owner: string, id: string)
    requires (t.Register? && t.id == owner) || (t.RefreshEnd? && Began(us, t.r) == Some(owner))
    ensures var ts := us + [t];
            && Current(ts, id) == (if id == owner then Some(t.secret) else Current(us, id))
            && (RevokedIn(ts, id) <==> RevokedIn(us, id))
            && Owner(ts, t.secret) == Some(owner) && IssuedAt(ts, t.secret) == t.now
            && forall x :: x != t.secret ==> Owner(ts, x) == Owner(us, x) && IssuedAt(ts, x) == IssuedAt(us, x)
  {
    Last(us, t);
  }

  lemma RegisterTold(v: Env, us: seq<Step>, s: Sys, t: Step, id: string)
    requires Inv(v, s) && RecordTold(v, us, s, id) && Enabled(v, s, t) && t.Register? && t.now > 0
    ensures RecordTold(v, us + [t], Apply(v, s, t), id)
  {
    IssueStory(us, t, t.id, id);
  }

  lemma RefreshEndTold(v: Env, us: seq<Step>, s: Sys, t: Step, id: string)
    requires Inv(v, s) && RecordTold(v, us, s, id) && Enabled(v, s, t) && t.RefreshEnd? && t.now > 0
    requires RefreshTold(us, s, t.r)
    ensures RecordTold(v, us + [t], Apply(v, s, t), id)
  {
    IssueStory(us, t, s.refreshers[t.r].id, id);
  }

  lemma BeginOwner(v: Env, us: seq<Step>, s: Sys, t: Step)
    requires Injective(v) && Inv(v, s) && Told(v, us, s) && Enabled(v, s, t) && t.RefreshBegin?
    ensures Owner(us, t.secret) == Some(Lookup(s.st, v.hash(t.secret), t.now).value)
  {
    var id := s.st.byHash[v.hash(t.secret)];
    assert RecordTold(v, us, s, id);
    assert s.st.records[id].tokenHash == v.hash(t.secret);
  }

  lemma RefreshesTold(v: Env, us: seq<Step>, s: Sys, t: Step, r: nat)
    requires Injective(v) && Inv(v, s) && Told(v, us, s) && Enabled(v, s, t)
    ensures RefreshTold(us + [t], Apply(v, s, t), r)
  {
    Last(us, t);
    assert RefreshTold(us, s, r);
    if t.RefreshBegin? { BeginOwner(v, us, s, t); }
  }

  lemma StepTold(v: Env, us: seq<Step>, s: Sys, t: Step)
    requires Injective(v) && Inv(v, s) && Told(v, us, s) && Enabled(v, s, t) && (Issues(t).Some? ==> t.now > 0)
    ensures Told(v, us + [t], Apply(v, s, t))
  {
    Last(us, t);
    forall id ensures RecordTold(v, us + [t], Apply(v, s, t), id) {
      assert RecordTold(v, us, s, id);
      match t
      case Register(_, _, _, _) => RegisterTold(v, us, s, t, id);
      case RefreshEnd(r, _, _) => assert RefreshTold(us, s, r); RefreshEndTold(v, us, s, t, id);
      case Revoke(_, _) => RevokeTold(v, us, s, t, id);
      case _ => QuietTold(v, us, s, t, id);
    }
    forall r: nat ensures RefreshTold(us + [t], Apply(v, s, t), r) { RefreshesTold(v, us, s, t, r); }
  }

  lemma ClockedTail(ts: seq<Step>)
    requires Clocked(ts) && ts != []
    ensures Clocked(ts[1..]) && (Issues(ts[0]).Some? ==> ts[0].now > 0)
  {
    assert forall i :: 0 <= i < |ts| - 1 ==> ts[1..][i] == ts[i + 1];
  }

  lemma Shifted(us: seq<Step>, ts: seq<Step>)
    requires ts != []
    ensures us + [ts[0]] + ts[1..] == us + ts
  {
  }

  lemma {:induction false} RunTold(v: Env, us: seq<Step>, s: Sys, ts: seq<Step>)
    requires Injective(v) && Inv(v, s) && Told(v, us, s) && Run(v, s, ts) && Clocked(ts)
    ensures Told(v, us + ts, Exec(v, s, ts)) && Inv(v, Exec(v, s, ts))
    decreases |ts|
  {
    if ts == [] {
      assert us + ts == us;
    } else {
      ClockedTail(ts);
      StepKeeps(v, s, ts[0]);
      StepTold(v, us, s, ts[0]);
      RunTold(v, us + [ts[0]], Apply(v, s, ts[0]), ts[1..]);
      Shifted(us, ts);
    }
  }

  lemma ScheduleTells(v: Env, ts: seq<Step>)
    requires Injective(v) && Run(v, FRESH, ts) && Clocked(ts)
    ensures Told(v, ts, Exec(v, FRESH, ts)) && Inv(v, Exec(v, FRESH, ts))
  {
    assert Told(v, [], FRESH);
    RunTold(v, [], FRESH, ts);
    assert [] + ts == ts;
  }

  // ----- main results -----

  lemma AnswerTold(v: Env, ts: seq<Step>, s: Sys, secret: string, now: int, id: string)
    requires Injective(v) && Inv(v, s) && RecordTold(v, ts, s, id) && secret != "" && Current(ts, id) == Some(secret)
    ensures Answer(s.st, v.hash, secret, now) ==
            (if RevokedIn(ts, id) then Err(Revoked)
             else if InTime(v.ttl, IssuedAt(ts, secret), now) then Ok(id) else Err(Expired))
  {
    assert s.st.byHash[v.hash(secret)] == id;
  }

  /** In every interleaving and for every lifetime: a secret is accepted for a record if and only if it is not
    * empty, it is the one that was issued last for the record, the record was never revoked by a secret that was
    * current at that time, and not more than a positive ttl has passed since the registration or the end of the
    * refresh that issued it. */
  lemma ValidatesExactly(v: Env, ts: seq<Step>, secret: string, now: int, id: string)
    requires Injective(v) && Run(v, FRESH, ts) && Clocked(ts)
    ensures Answer(Exec(v, FRESH, ts).st, v.hash, secret, now) == Ok(id)
            <==> secret != "" && Current(ts, id) == Some(secret) && !RevokedIn(ts, id)
                 && InTime(v.ttl, IssuedAt(ts, secret), now)
  {
    ScheduleTells(v, ts);
    var s := Exec(v, FRESH, ts);
    assert RecordTold(v, ts, s, id);
    if secret != "" && Current(ts, id) == Some(secret) {
      AnswerTold(v, ts, s, secret, now, id);
    }
  }

  /** And the three refusals: invalid if it is empty or no record's current secret, revoked if its record was,
    * expired if it is only too old. */
  lemma RefusesExactly(v: Env, ts: seq<Step>, secret: string, now: int)
    requires Injective(v) && Run(v, FRESH, ts) && Clocked(ts)
    ensures var a := Answer(Exec(v, FRESH, ts).st, v.hash, secret, now);
            && (a == Err(InvalidToken) <==> secret == "" || forall id :: Current(ts, id) != Some(secret))
            && (a == Err(Revoked) <==> secret != "" && exists id :: Current(ts, id) == Some(secret) && RevokedIn(ts, id))
            && (a == Err(Expired) <==>
                  secret != "" && exists id :: Current(ts, id) == Some(secret) && !RevokedIn(ts, id)
                                               && v.ttl > 0 && now > IssuedAt(ts, secret) + v.ttl)
  {
    ScheduleTells(v, ts);
    var s := Exec(v, FRESH, ts);
    if secret == "" {
    } else if v.hash(secret) in s.st.byHash {
      var id := s.st.byHash[v.hash(secret)];
      assert RecordTold(v, ts, s, id) && s.st.records[id].tokenHash == v.hash(secret);
      AnswerTold(v, ts, s, secret, now, id);
      OneRecord(v, ts, s, secret, id);
    } else {
      forall id ensures Current(ts, id) != Some(secret) { assert RecordTold(v, ts, s, id); }
    }
  }

  lemma OneRecord(v: Env, ts: seq<Step>, s: Sys, secret: string, id: string)
    requires Inv(v, s) && Told(v, ts, s) && Current(ts, id) == Some(secret)
    ensures forall other :: Current(ts, other) == Some(secret) ==> other == id
  {
    assert RecordTold(v, ts, s, id);
    forall other | Current(ts, other) == Some(secret) ensures other == id { assert RecordTold(v, ts, s, other); }
  }

  /** A registration followed by nothing but validations is accepted up to its ttl and not a moment longer. */
  lemma RegisteredLifetime(v: Env, ts: seq<Step>, id: string, clientID: string, secret: string, at: int, now: int)
    requires Injective(v) && Run(v, FRESH, [Register(id, clientID, secret, at)] + ts) && at > 0 && secret != ""
    requires forall i :: 0 <= i < |ts| ==> ts[i].Validate?
    ensures Answer(Exec(v, FRESH, [Register(id, clientID, secret, at)] + ts).st, v.hash, secret, now)
            == if v.ttl <= 0 || now <= at + v.ttl then Ok(id) else Err(Expired)
  {
    var all := [Register(id, clientID, secret, at)] + ts;
    RegisteredStory(ts, id, clientID, secret, at);
    ValidatesExactly(v, all, secret, now, id);
    RefusesExactly(v, all, secret, now);
  }

  lemma {:induction false} RegisteredStory(ts: seq<Step>, id: string, clientID: string, secret: string, at: int)
    requires forall i :: 0 <= i < |ts| ==> ts[i].Validate?
    ensures var all := [Register(id, clientID, secret, at)] + ts;
            Current(all, id) == Some(secret) && !RevokedIn(all, id) && IssuedAt(all, secret) == at
    decreases |ts|
  {
    var first := [Register(id, clientID, secret, at)];
    if ts == [] {
      assert first + ts == [] + first;
      IssueStory([], first[0], id, id);
    } else {
      var n := |ts| - 1;
      RegisteredStory(ts[..n], id, clientID, secret, at);
      assert first + ts == first + ts[..n] + [ts[n]];
      QuietStory(first + ts[..n], ts[n], id);
    }
  }
}
