/** What a Resolve call and a mirror request do and answer, told from the store when they read it and from the
  * steps they take afterwards (internal/transfer/tasks/engine.go, internal/server/mirrorcore/mirrorcore.go). */
module TaskResolve {
  import opened Wrappers
  import opened TaskState
  import opened TaskStore
  import opened TaskEngine
  import opened TaskEngineSafety

  // ----- the steps of one call, counted in a schedule -----

  ghost function Reads(ts: seq<Step>, r: nat): nat {
    if ts == [] then 0 else Reads(ts[1..], r) + if ts[0].ResolveRead? && ts[0].r == r then 1 else 0
  }

  ghost function Rearms(ts: seq<Step>, r: nat): nat {
    if ts == [] then 0 else Rearms(ts[1..], r) + if ts[0].ResolveRearm? && ts[0].r == r then 1 else 0
  }

  ghost function Creates(ts: seq<Step>, r: nat): nat {
    if ts == [] then 0 else Creates(ts[1..], r) + if ts[0].ResolveCreate? && ts[0].r == r then 1 else 0
  }

  ghost function Puts(ts: seq<Step>, m: nat): nat {
    if ts == [] then 0 else Puts(ts[1..], m) + if ts[0].MirrorPut? && ts[0].m == m then 1 else 0
  }

  // ----- how a key stands -----

  /** Nobody has, or will ever get, an artifact for this key. */
  ghost predicate Vacant(st: State, key: string) {
    key in st.byKey ==>
      st.byKey[key].status == Dead
      || (st.byKey[key].status == Failed && st.byKey[key].retries >= st.byKey[key].maxRetries)
  }

  ghost predicate Retryable(st: State, key: string) {
    key in st.byKey && st.byKey[key].status == Failed && st.byKey[key].retries < st.byKey[key].maxRetries
  }

  ghost predicate UnderWay(st: State, key: string) {
    key in st.byKey && st.byKey[key].status in {Queued, Downloading, Downloaded, Uploading, Status.Registering}
  }

  ghost predicate Available(st: State, key: string) {
    key in st.byKey && st.byKey[key].status == Ready
  }

  // ----- the read -----

  /** The read changes nothing but the call that reads. */
  lemma ReadTouchesNothing(s: Sys, r: nat)
    requires Enabled(s, ResolveRead(r))
    ensures var e := Apply(s, ResolveRead(r));
            && |e.resolvers| == |s.resolvers| && e == s.(resolvers := e.resolvers)
            && forall q :: 0 <= q < |s.resolvers| && q != r ==> e.resolvers[q] == s.resolvers[q]
  {
  }

  /** After its read a Resolve re-arms if and only if the answer is failed with retries left, and creates if and
    * only if there is no answer or one that nobody will ever complete. Otherwise it has answered: with the task
    * that is under way, or with the key of a stored object, which is the artifact's. */
  lemma ReadDecides(s: Sys, us: seq<Step>, r: nat, id: string)
    requires Init(s) && Run(s, us) && Enabled(Exec(s, us), ResolveRead(r)) && Unused(Exec(s, us), id)
    ensures var at := Exec(s, us); var key := at.resolvers[r].key; var e := Apply(at, ResolveRead(r));
            && (Enabled(e, ResolveRearm(r)) <==> Retryable(at.st, key))
            && (Enabled(e, ResolveCreate(r, id)) <==> Vacant(at.st, key))
            && (UnderWay(at.st, key) ==> e.resolvers[r] == Resolved(Working(at.st.byKey[key])))
            && (Available(at.st, key) ==>
                  var t := at.st.byKey[key];
                  && t.cacheKey == key && t.artifact.Some? && t.artifact.value.storageKey in e.objects
                  && e.resolvers[r] == Resolved(Cached(t, t.artifact.value.storageKey)))
  {
    InitInv(s);
    RunKeeps(s, us);
    var at := Exec(s, us);
    var key := at.resolvers[r].key;
    if key in at.st.byKey {
      assert ReadyBacked(at.st.byKey[key], at.objects);
    }
  }

  /** A Resolve that re-arms is after the task that answers for its key. */
  lemma RearmsTheAnswer(s: Sys, r: nat)
    requires Enabled(s, ResolveRead(r)) && Retryable(s.st, s.resolvers[r].key)
    ensures var e := Apply(s, ResolveRead(r)); var x := s.resolvers[r];
            e.resolvers[r] == Rearming(s.st.byKey[x.key].id, x.key, x.family, x.url)
  {
  }

  // ----- the writes -----

  /** A re-arm goes through exactly when the task is still there and queued, failed or downloading. Then the task is
    * downloading again with its retries as they were, and a driver is started for it. Otherwise nothing changes
    * and the call may create a task. */
  lemma RearmEffect(s: Sys, r: nat, id: string)
    requires Enabled(s, ResolveRearm(r)) && Unused(s, id)
    ensures var e := Apply(s, ResolveRearm(r)); var x := s.resolvers[r];
            if x.id in s.st.byID && s.st.byID[x.id].status in {Queued, Failed, Downloading} then
              var t := s.st.byID[x.id].(status := Downloading, error := "", updatedAt := s.clock);
              && e.st == Written(s.st, t) && e.drivers == s.drivers + [Spawned(x.id)]
              && e.resolvers == s.resolvers[r := Resolved(Working(t))]
            else
              && e.st == s.st && e.drivers == s.drivers
              && e.resolvers == s.resolvers[r := Creating(x.key, x.family, x.url)] && Enabled(e, ResolveCreate(r, id))
  {
    var x := s.resolvers[r];
    if x.id in s.st.byID {
      assert Allowed(s.st.byID[x.id].status, Downloading) <==> s.st.byID[x.id].status in {Queued, Failed, Downloading};
    }
  }

  /** A creation adds one queued task without retries, which from then on answers for the key, and starts a driver
    * for it; only an empty id or key is refused. */
  lemma CreateEffect(s: Sys, r: nat, id: string)
    requires Enabled(s, ResolveCreate(r, id))
    ensures var e := Apply(s, ResolveCreate(r, id)); var x := s.resolvers[r];
            if id != "" && x.key != "" then
              && e.st.byID.Keys == s.st.byID.Keys + {id} && (forall i :: i in s.st.byID ==> e.st.byID[i] == s.st.byID[i])
              && e.st.byKey == s.st.byKey[x.key := e.st.byID[id]]
              && Fresh(e.st.byID[id], id, x.key, x.family, x.url, s.maxRetries)
              && e.drivers == s.drivers + [Spawned(id)]
              && e.resolvers[r].Resolved? && e.resolvers[r].reply.Working?
              && Fresh(e.resolvers[r].reply.task, id, x.key, x.family, x.url, s.maxRetries)
            else
              e.st == s.st && e.drivers == s.drivers && e.resolvers[r] == Resolved(Rejected)
  {
  }

  ghost predicate Fresh(t: Task, id: string, key: string, family: string, url: string, maxRetries: int) {
    && t.id == id && t.cacheKey == key && t.family == family && t.url == url
    && t.status == Queued && t.retries == 0 && t.maxRetries == maxRetries && t.artifact == None
  }

  /** Nothing but a re-arm or a creation starts a driver, and no step removes one. */
  lemma OnlyResolveStarts(s: Sys, t: Step)
    requires Enabled(s, t)
    ensures |Apply(s, t).drivers| == |s.drivers|
            || ((t.ResolveRearm? || t.ResolveCreate?) && |Apply(s, t).drivers| == |s.drivers| + 1)
  {
  }

  // ----- a call over a run -----

  /** A call is changed by its own steps only. */
  lemma OthersLeaveResolver(s: Sys, t: Step, r: nat)
    requires Enabled(s, t) && r < |s.resolvers|
    requires !((t.ResolveRead? || t.ResolveRearm? || t.ResolveCreate?) && t.r == r)
    ensures r < |Apply(s, t).resolvers| && Apply(s, t).resolvers[r] == s.resolvers[r]
  {
  }

  /** A call that has answered takes no further step and its answer stands. */
  lemma {:induction false} AnswerStands(s: Sys, ts: seq<Step>, r: nat)
    requires Run(s, ts) && r < |s.resolvers| && s.resolvers[r].Resolved?
    ensures Reads(ts, r) == Rearms(ts, r) == Creates(ts, r) == 0
    ensures r < |Exec(s, ts).resolvers| && Exec(s, ts).resolvers[r] == s.resolvers[r]
    decreases |ts|
  {
    if ts != [] {
      OthersLeaveResolver(s, ts[0], r);
      AnswerStands(Apply(s, ts[0]), ts[1..], r);
    }
  }

  lemma CreateResolves(s: Sys, r: nat, id: string)
    requires Enabled(s, ResolveCreate(r, id))
    ensures var e := Apply(s, ResolveCreate(r, id)); r < |e.resolvers| && e.resolvers[r].Resolved?
  {
  }

  lemma {:induction false} CreatesOnce(s: Sys, ts: seq<Step>, r: nat)
    requires Run(s, ts) && r < |s.resolvers| && s.resolvers[r].Creating?
    ensures Reads(ts, r) == Rearms(ts, r) == 0 && Creates(ts, r) <= 1
    decreases |ts|
  {
    if ts != [] {
      var e := Apply(s, ts[0]);
      if ts[0].ResolveCreate? && ts[0].r == r {
        CreateResolves(s, r, ts[0].id);
        AnswerStands(e, ts[1..], r);
      } else {
        OthersLeaveResolver(s, ts[0], r);
        CreatesOnce(e, ts[1..], r);
      }
    }
  }

  lemma RearmMovesOn(s: Sys, r: nat)
    requires Enabled(s, ResolveRearm(r))
    ensures var e := Apply(s, ResolveRearm(r)); r < |e.resolvers| && (e.resolvers[r].Resolved? || e.resolvers[r].Creating?)
  {
  }

  lemma {:induction false} RearmsOnce(s: Sys, ts: seq<Step>, r: nat)
    requires Run(s, ts) && r < |s.resolvers| && s.resolvers[r].Rearming?
    ensures Reads(ts, r) == 0 && Creates(ts, r) <= Rearms(ts, r) <= 1
    decreases |ts|
  {
    if ts != [] {
      var e := Apply(s, ts[0]);
      if ts[0].ResolveRearm? && ts[0].r == r {
        RearmMovesOn(s, r);
        if e.resolvers[r].Resolved? { AnswerStands(e, ts[1..], r); } else { CreatesOnce(e, ts[1..], r); }
      } else {
        OthersLeaveResolver(s, ts[0], r);
        RearmsOnce(e, ts[1..], r);
      }
    }
  }

  /** What a Resolve may do after its read, whatever else happens: nothing at all if the key's task is ready or
    * under way; one creation and no re-arm if the key is vacant; one re-arm, and a creation only behind it, if
    * the answer is failed with retries left. */
  lemma ResolveActs(s: Sys, r: nat, ts: seq<Step>)
    requires Enabled(s, ResolveRead(r)) && Run(Apply(s, ResolveRead(r)), ts)
    ensures Reads(ts, r) == 0 && Rearms(ts, r) <= 1 && Creates(ts, r) <= 1
    ensures var key := s.resolvers[r].key;
            && (Available(s.st, key) || UnderWay(s.st, key) ==> Rearms(ts, r) == Creates(ts, r) == 0)
            && (Vacant(s.st, key) ==> Rearms(ts, r) == 0)
            && (Retryable(s.st, key) ==> Creates(ts, r) <= Rearms(ts, r))
  {
    var e := Apply(s, ResolveRead(r));
    match e.resolvers[r]
    case Rearming(_, _, _, _) => RearmsOnce(e, ts, r);
    case Creating(_, _, _) => CreatesOnce(e, ts, r);
    case Resolved(_) => AnswerStands(e, ts, r);
  }

  /** A key whose task is ready when it is read costs no fetch: the call answers at once with the artifact's key,
    * whose object is stored, and in no continuation does it write a task or start a driver. */
  lemma HitCostsNothing(s: Sys, us: seq<Step>, r: nat, ts: seq<Step>)
    requires Init(s) && Run(s, us) && Enabled(Exec(s, us), ResolveRead(r))
    requires Available(Exec(s, us).st, Exec(s, us).resolvers[r].key)
    requires Run(Apply(Exec(s, us), ResolveRead(r)), ts)
    ensures Reads(ts, r) == Rearms(ts, r) == Creates(ts, r) == 0
    ensures var at := Exec(s, us); var e := Exec(Apply(at, ResolveRead(r)), ts);
            var t := at.st.byKey[at.resolvers[r].key];
            && t.artifact.Some? && r < |e.resolvers|
            && e.resolvers[r] == Resolved(Cached(t, t.artifact.value.storageKey))
            && t.artifact.value.storageKey in at.objects
  {
    InitInv(s);
    RunKeeps(s, us);
    var at := Exec(s, us);
    assert ReadyBacked(at.st.byKey[at.resolvers[r].key], at.objects);
    AnswerStands(Apply(at, ResolveRead(r)), ts, r);
  }

  // ----- mirrors -----

  /** A mirror request whose key has a ready task with an artifact is served that artifact's key and changes
    * nothing. Otherwise it stores the object under the key of its own family and cache key, if its fetch and
    * upload succeed, and only then may it put a task. */
  lemma MirrorProbe(s: Sys, m: nat, ok: bool, id: string)
    requires Enabled(s, MirrorStore(m, ok)) && Unused(s, id)
    ensures var e := Apply(s, MirrorStore(m, ok)); var x := s.mirrors[m];
            && |e.mirrors| == |s.mirrors| && e.st == s.st && e.drivers == s.drivers && e.clock == s.clock
            && if Available(s.st, x.key) && s.st.byKey[x.key].artifact.Some? then
                 e.objects == s.objects && e.mirrors[m] == Served(Some(s.st.byKey[x.key].artifact.value.storageKey))
               else if ok then
                 e.objects == s.objects + {StorageKeyFor(x.family, x.key)} && Enabled(e, MirrorPut(m, id))
               else
                 e.objects == s.objects && e.mirrors[m] == Served(None)
  {
  }

  /** Its put adds one ready task, which from then on answers for the key, with the stored object as its artifact,
    * and starts no driver. */
  lemma MirrorPutEffect(s: Sys, us: seq<Step>, m: nat, id: string)
    requires Init(s) && Run(s, us) && Enabled(Exec(s, us), MirrorPut(m, id))
    requires id != "" && Exec(s, us).mirrors[m].key != ""
    ensures var at := Exec(s, us); var e := Apply(at, MirrorPut(m, id)); var x := at.mirrors[m];
            && e.st.byID.Keys == at.st.byID.Keys + {id} && (forall i :: i in at.st.byID ==> e.st.byID[i] == at.st.byID[i])
            && e.st.byKey == at.st.byKey[x.key := e.st.byID[id]] && e.drivers == at.drivers && e.objects == at.objects
            && var t := e.st.byID[id];
               && t.status == Ready && t.cacheKey == x.key && t.family == x.family && t.artifact.Some?
               && t.artifact.value.storageKey == StorageKeyFor(x.family, x.key)
               && StorageKeyFor(x.family, x.key) in e.objects
               && e.mirrors[m] == Served(Some(t.artifact.value.storageKey))
  {
    InitInv(s);
    RunKeeps(s, us);
    assert MirrorOk(Exec(s, us).mirrors[m], Exec(s, us).objects);
  }

  lemma OthersLeaveMirror(s: Sys, t: Step, m: nat)
    requires Enabled(s, t) && m < |s.mirrors| && !((t.MirrorStore? || t.MirrorPut?) && t.m == m)
    ensures m < |Apply(s, t).mirrors| && Apply(s, t).mirrors[m] == s.mirrors[m]
  {
  }

  lemma {:induction false} ServedStays(s: Sys, ts: seq<Step>, m: nat)
    requires Run(s, ts) && m < |s.mirrors| && s.mirrors[m].Served?
    ensures Puts(ts, m) == 0 && m < |Exec(s, ts).mirrors| && Exec(s, ts).mirrors[m] == s.mirrors[m]
    decreases |ts|
  {
    if ts != [] {
      OthersLeaveMirror(s, ts[0], m);
      ServedStays(Apply(s, ts[0]), ts[1..], m);
    }
  }

  lemma {:induction false} PutsOnce(s: Sys, ts: seq<Step>, m: nat)
    requires Run(s, ts) && m < |s.mirrors| && s.mirrors[m].Registering?
    ensures Puts(ts, m) <= 1
    decreases |ts|
  {
    if ts != [] {
      var e := Apply(s, ts[0]);
      if ts[0].MirrorPut? && ts[0].m == m {
        assert m < |e.mirrors| && e.mirrors[m].Served?;
        ServedStays(e, ts[1..], m);
      } else {
        OthersLeaveMirror(s, ts[0], m);
        PutsOnce(e, ts[1..], m);
      }
    }
  }

  /** A mirror request puts at most one task, and none after a hit or a failed store. */
  lemma MirrorActs(s: Sys, m: nat, ok: bool, ts: seq<Step>)
    requires Enabled(s, MirrorStore(m, ok)) && Run(Apply(s, MirrorStore(m, ok)), ts)
    ensures Puts(ts, m) <= 1
    ensures !ok || (Available(s.st, s.mirrors[m].key) && s.st.byKey[s.mirrors[m].key].artifact.Some?) ==> Puts(ts, m) == 0
  {
    var e := Apply(s, MirrorStore(m, ok));
    if e.mirrors[m].Served? { ServedStays(e, ts, m); } else { PutsOnce(e, ts, m); }
  }

  // ----- what was handed out -----

  /** A presigned key names a stored object. */
  ghost predicate HandedOut(s: Sys) {
    && (forall r :: 0 <= r < |s.resolvers| && s.resolvers[r].Resolved? ==> ReplyBacked(s.resolvers[r].reply, s.objects))
    && (forall m :: 0 <= m < |s.mirrors| ==> ServedBacked(s.mirrors[m], s.objects))
  }

  ghost predicate ReplyBacked(a: Reply, objects: set<string>) {
    a.Cached? ==>
      && a.task.status == Ready && a.task.artifact.Some?
      && a.task.artifact.value.storageKey == a.presigned && a.presigned in objects
  }

  ghost predicate ServedBacked(m: Mirror, objects: set<string>) {
    m.Served? && m.presigned.Some? ==> m.presigned.value in objects
  }

  lemma ObjectsStay(s: Sys, t: Step)
    requires Enabled(s, t)
    ensures s.objects <= Apply(s, t).objects
  {
  }

  lemma ReplyStep(s: Sys, t: Step, r: nat)
    requires Inv(s) && HandedOut(s) && Enabled(s, t) && r < |Apply(s, t).resolvers|
    ensures var e := Apply(s, t); e.resolvers[r].Resolved? ==> ReplyBacked(e.resolvers[r].reply, e.objects)
  {
    var e := Apply(s, t);
    if (t.ResolveRead? || t.ResolveRearm? || t.ResolveCreate?) && t.r == r {
      var key := if t.ResolveRead? then s.resolvers[r].key else "";
      if key in s.st.byKey { assert ReadyBacked(s.st.byKey[key], s.objects); }
    } else if r < |s.resolvers| {
      OthersLeaveResolver(s, t, r);
      ObjectsStay(s, t);
    }
  }

  lemma ServedStep(s: Sys, t: Step, m: nat)
    requires Inv(s) && HandedOut(s) && Enabled(s, t) && m < |Apply(s, t).mirrors|
    ensures ServedBacked(Apply(s, t).mirrors[m], Apply(s, t).objects)
  {
    if (t.MirrorStore? || t.MirrorPut?) && t.m == m {
      assert MirrorOk(s.mirrors[m], s.objects);
      var key := if t.MirrorStore? then s.mirrors[m].key else "";
      if key in s.st.byKey { assert ReadyBacked(s.st.byKey[key], s.objects); }
    } else if m < |s.mirrors| {
      OthersLeaveMirror(s, t, m);
      ObjectsStay(s, t);
    }
  }

  lemma StepHandsOut(s: Sys, t: Step)
    requires Inv(s) && HandedOut(s) && Enabled(s, t)
    ensures HandedOut(Apply(s, t))
  {
    var e := Apply(s, t);
    forall r | 0 <= r < |e.resolvers| && e.resolvers[r].Resolved? ensures ReplyBacked(e.resolvers[r].reply, e.objects) {
      ReplyStep(s, t, r);
    }
    forall m | 0 <= m < |e.mirrors| ensures ServedBacked(e.mirrors[m], e.objects) { ServedStep(s, t, m); }
  }

  lemma {:induction false} RunHandsOut(s: Sys, ts: seq<Step>)
    requires Inv(s) && HandedOut(s) && Run(s, ts)
    ensures HandedOut(Exec(s, ts))
    decreases |ts|
  {
    if ts != [] {
      StepKeeps(s, ts[0]);
      StepHandsOut(s, ts[0]);
      RunHandsOut(Apply(s, ts[0]), ts[1..]);
    }
  }

  /** Whatever key a Resolve or a mirror request ever handed out, its object is stored at every later moment, and
    * a Resolve's is the key of the artifact that it returned with it. */
  lemma HandedOutIsStored(s: Sys, ts: seq<Step>)
    requires Init(s) && Run(s, ts)
    ensures HandedOut(Exec(s, ts))
  {
    InitInv(s);
    RunHandsOut(s, ts);
  }
}
