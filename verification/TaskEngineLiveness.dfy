/** Every driver comes to an end, and the run in which a stale Resolve leaves a task stuck for good. */
module TaskEngineLiveness {
  import opened TaskState
  import opened TaskStore
  import opened TaskEngine
  import opened TaskEngineSafety

  // ----- drivers end -----

  function Rank(pc: Pc): nat {
    match pc
    case AtGuard => 0
    case AtGet => 0
    case AtSleep => 11
    case AtTop => 10
    case AtFetch => 9
    case AtDownloaded => 8
    case AtUploading => 7
    case AtUpload => 6
    case AtRegistering => 5
    case AtReady => 4
    case AtFailed => 3
    case AtDead => 2
    case AtCleanup => 1
    case Done => 0
  }

  function Rounds(t: Task): nat {
    if t.retries > t.maxRetries then 0 else t.maxRetries + 1 - t.retries
  }

  /** What a driver may still do, counted in actions. */
  function DriverBudget(d: Driver): nat {
    12 * Rounds(d.local) + Rank(d.pc)
  }

  lemma WriteSpends(s: Sys, d: Driver, t: Task)
    requires Tied(s.st, d, s.late) && Driving(d) && NextWrite(d).Some? && d.id in s.st.byID
    requires t == NextWrite(d).value(s.st.byID[d.id]).(updatedAt := s.clock)
    ensures DriverBudget(AfterWrite(d, t)) < DriverBudget(d)
  {
    var stored := s.st.byID[d.id];
    assert stored.retries == d.local.retries && stored.maxRetries == d.local.maxRetries;
    if d.pc.AtFailed? {
      assert t.retries == d.local.retries + 1 && t.maxRetries == d.local.maxRetries;
    } else {
      assert t.retries == d.local.retries && t.maxRetries == d.local.maxRetries;
    }
  }

  /** Each action of a driver that has read its task lowers its budget. */
  lemma DriverSpends(s: Sys, d: nat, ok: bool)
    requires Inv(s) && d < |s.drivers| && (Driving(s.drivers[d]) || s.drivers[d].pc.AtCleanup?)
    ensures var e := DriveResult(s, d, ok); |e.drivers| == |s.drivers|
    ensures DriverBudget(DriveResult(s, d, ok).drivers[d]) < DriverBudget(s.drivers[d])
  {
    var x := s.drivers[d];
    assert DriverOk(s, x) && Tied(s.st, x, s.late);
    if NextWrite(x).Some? {
      var u := UpdateResult(s.st, x.id, NextWrite(x).value, s.clock);
      if u.Ok? { WriteSpends(s, x, u.value.1); }
    }
  }

  /** Nobody else touches a driver. */
  lemma OthersLeaveDriver(s: Sys, t: Step, d: nat)
    requires Enabled(s, t) && d < |s.drivers| && (t.Drive? ==> t.d != d)
    ensures d < |Apply(s, t).drivers| && Apply(s, t).drivers[d] == s.drivers[d]
  {
  }

  /** How often driver d acts in a schedule. */
  ghost function Actions(ts: seq<Step>, d: nat): nat {
    if ts == [] then 0 else Actions(ts[1..], d) + if ts[0].Drive? && ts[0].d == d then 1 else 0
  }

  lemma {:induction false} ActionsBounded(s: Sys, ts: seq<Step>, d: nat)
    requires Inv(s) && Run(s, ts) && d < |s.drivers|
    requires !s.drivers[d].pc.AtGuard? && !s.drivers[d].pc.AtGet?
    ensures Actions(ts, d) <= DriverBudget(s.drivers[d])
    decreases |ts|
  {
    if ts != [] {
      var t := ts[0];
      StepKeeps(s, t);
      if t.Drive? && t.d == d {
        DriverSpends(s, d, t.ok);
        StaysPastRead(s, d, t.ok);
      } else {
        OthersLeaveDriver(s, t, d);
      }
      ActionsBounded(Apply(s, t), ts[1..], d);
    }
  }

  lemma StaysPastRead(s: Sys, d: nat, ok: bool)
    requires d < |s.drivers| && !s.drivers[d].pc.AtGuard? && !s.drivers[d].pc.AtGet?
    ensures var x := DriveResult(s, d, ok).drivers[d]; !x.pc.AtGuard? && !x.pc.AtGet?
  {
  }

  /** In every interleaving a driver that has read its task acts at most DriverBudget times. */
  lemma DriverEnds(s: Sys, us: seq<Step>, ts: seq<Step>, d: nat)
    requires Init(s) && Run(s, us) && Run(Exec(s, us), ts) && d < |Exec(s, us).drivers|
    requires !Exec(s, us).drivers[d].pc.AtGuard? && !Exec(s, us).drivers[d].pc.AtGet?
    ensures Actions(ts, d) <= DriverBudget(Exec(s, us).drivers[d])
  {
    InitInv(s);
    RunKeeps(s, us);
    ActionsBounded(Exec(s, us), ts, d);
  }

  /** Only driver d acts; its k-th fetch or upload from now on succeeds if oks(k) does. */
  ghost predicate Alone(ts: seq<Step>, d: nat, oks: nat -> bool, k: nat) {
    forall i :: 0 <= i < |ts| ==> ts[i] == Drive(d, oks(k + i))
  }

  lemma AloneCons(ts: seq<Step>, d: nat, oks: nat -> bool, k: nat)
    requires Alone(ts, d, oks, k + 1)
    ensures Alone([Drive(d, oks(k))] + ts, d, oks, k)
  {
  }

  function Reads(d: Driver): nat {
    if d.pc.AtGuard? then 2 else if d.pc.AtGet? then 1 else 0
  }

  lemma DriveSpends(s: Sys, d: nat, ok: bool)
    requires Inv(s) && d < |s.drivers| && !s.drivers[d].pc.Done?
    ensures var e := DriveResult(s, d, ok);
            && |e.drivers| == |s.drivers| && e.late == s.late && e.drivers[d].id == s.drivers[d].id
            && (Reads(e.drivers[d]) < Reads(s.drivers[d])
                || (Reads(e.drivers[d]) == Reads(s.drivers[d]) == 0 && DriverBudget(e.drivers[d]) < DriverBudget(s.drivers[d])))
  {
    if Reads(s.drivers[d]) == 0 {
      StaysPastRead(s, d, ok);
      DriverSpends(s, d, ok);
    }
  }

  lemma {:induction false} RunsOut(s: Sys, d: nat, oks: nat -> bool, k: nat) returns (ts: seq<Step>)
    requires Inv(s) && d < |s.drivers|
    ensures Run(s, ts) && Alone(ts, d, oks, k)
    ensures var e := Exec(s, ts); Inv(e) && e.late == s.late && d < |e.drivers| && e.drivers[d].pc.Done?
    decreases Reads(s.drivers[d]), DriverBudget(s.drivers[d])
  {
    if s.drivers[d].pc.Done? { return []; }
    var t := Drive(d, oks(k));
    DriveSpends(s, d, oks(k));
    StepKeeps(s, t);
    var rest := RunsOut(Apply(s, t), d, oks, k + 1);
    AloneCons(rest, d, oks, k);
    ts := [t] + rest;
    assert ts[1..] == rest;
  }

  /** From any reachable state a driver, left alone, finishes, whatever its fetches and uploads do; and unless a
    * late re-arm interfered, a task that it worked on is then ready or dead. */
  lemma DriverFinishes(s: Sys, us: seq<Step>, d: nat, oks: nat -> bool) returns (ts: seq<Step>)
    requires Init(s) && Run(s, us) && d < |Exec(s, us).drivers|
    ensures Run(Exec(s, us), ts) && Alone(ts, d, oks, 0)
    ensures var e := Exec(Exec(s, us), ts);
            && d < |e.drivers| && e.drivers[d].pc.Done?
            && (!Exec(s, us).late && e.drivers[d].engaged && e.drivers[d].id in e.st.byID ==>
                  Terminal(e.st.byID[e.drivers[d].id].status))
  {
    InitInv(s);
    RunKeeps(s, us);
    ts := RunsOut(Exec(s, us), d, oks, 0);
    var e := Exec(Exec(s, us), ts);
    assert DriverOk(e, e.drivers[d]);
  }

  // ----- a task that is stuck in downloading -----

  ghost predicate OrphanStore(st: State, id: string) {
    && id in st.byID && st.byID[id].status.Downloading?
    && (forall k :: k in st.byKey && st.byKey[k].id == id ==> st.byKey[k].status.Downloading?)
  }

  /** Nobody drives the task, nobody is about to, and it says downloading. */
  ghost predicate Orphaned(s: Sys, id: string) {
    && OrphanStore(s.st, id)
    && (forall d :: 0 <= d < |s.drivers| && s.drivers[d].id == id ==> s.drivers[d].pc.Done?)
    && (forall r :: 0 <= r < |s.resolvers| && s.resolvers[r].Rearming? ==> s.resolvers[r].id != id)
  }

  lemma WriteElsewhere(st: State, t: Task, id: string)
    requires OrphanStore(st, id) && t.id != id
    ensures OrphanStore(Written(st, t), id)
  {
  }

  lemma OrphanDrive(s: Sys, d: nat, ok: bool, id: string)
    requires Inv(s) && Enabled(s, Drive(d, ok)) && Orphaned(s, id)
    ensures Orphaned(DriveResult(s, d, ok), id)
  {
    var x := s.drivers[d];
    assert x.id != id && DriverOk(s, x) && Tied(s.st, x, s.late);
    if NextWrite(x).Some? {
      var u := UpdateResult(s.st, x.id, NextWrite(x).value, s.clock);
      assert s.st.byID[x.id].id == x.id;
      if u.Ok? { WriteElsewhere(s.st, u.value.1, id); }
    }
  }

  lemma OrphanRearm(s: Sys, r: nat, id: string)
    requires Inv(s) && Enabled(s, ResolveRearm(r)) && Orphaned(s, id)
    ensures Orphaned(RearmResult(s, r), id)
  {
    var x := s.resolvers[r];
    assert x.id != id;
    var u := UpdateResult(s.st, x.id, ToDownloading, s.clock);
    if u.Ok? {
      assert s.st.byID[x.id].id == x.id;
      WriteElsewhere(s.st, u.value.1, id);
    }
  }

  lemma OrphanInsert(s: Sys, t: Step, id: string)
    requires Inv(s) && Enabled(s, t) && Orphaned(s, id) && (t.ResolveCreate? || t.MirrorPut?)
    ensures Orphaned(Apply(s, t), id)
  {
    assert t.id != id;
    var s' := Apply(s, t);
    if s'.st != s.st { WriteElsewhere(s.st, s'.st.byID[t.id], id); }
  }

  lemma OrphanStays(s: Sys, t: Step, id: string)
    requires Inv(s) && Enabled(s, t) && Orphaned(s, id)
    ensures Orphaned(Apply(s, t), id)
  {
    match t
    case ResolveStart(_, _, _) =>
    case ResolveRead(_) =>
    case ResolveRearm(r) => OrphanRearm(s, r, id);
    case ResolveCreate(_, _) => OrphanInsert(s, t, id);
    case Drive(d, ok) => OrphanDrive(s, d, ok, id);
    case MirrorStart(_, _) =>
    case MirrorStore(_, _) =>
    case MirrorPut(_, _) => OrphanInsert(s, t, id);
    case Collect(other) => assert other != id;
  }

  /** Once orphaned, a task says downloading in every continuation of the run. */
  lemma {:induction false} OrphanForever(s: Sys, ts: seq<Step>, id: string)
    requires Inv(s) && Run(s, ts) && Orphaned(s, id)
    ensures Orphaned(Exec(s, ts), id)
    decreases |ts|
  {
    if ts != [] {
      StepKeeps(s, ts[0]);
      OrphanStays(s, ts[0], id);
      OrphanForever(Apply(s, ts[0]), ts[1..], id);
    }
  }

  // ----- the run that gets there -----

  lemma {:induction false} RunComposes(s: Sys, us: seq<Step>, ts: seq<Step>)
    requires Run(s, us) && Run(Exec(s, us), ts)
    ensures Run(s, us + ts) && Exec(s, us + ts) == Exec(Exec(s, us), ts)
    decreases |us|
  {
    if us == [] {
      assert us + ts == ts;
    } else {
      assert (us + ts)[1..] == us[1..] + ts;
      RunComposes(Apply(s, us[0]), us[1..], ts);
    }
  }

  lemma Snoc(s: Sys, us: seq<Step>, t: Step)
    requires Run(s, us) && Enabled(Exec(s, us), t)
    ensures Run(s, us + [t]) && Exec(s, us + [t]) == Apply(Exec(s, us), t)
  {
    var e := Exec(s, us);
    assert Run(Apply(e, t), [t][1..]);
    RunComposes(s, us, [t]);
  }

  /** Driver 0 drives task "t" of key "k", which is the only task, with two retries allowed. */
  ghost predicate Scene(e: Sys, x: Driver, status: Status, retries: int) {
    && e.processing == {"t"} && !e.late
    && x.id == "t" && x.local.retries == retries && x.local.maxRetries == 2
    && "t" in e.st.byID && e.st.byID["t"].id == "t" && e.st.byID["t"].cacheKey == "k"
    && e.st.byID["t"].status == status && e.st.byID["t"].retries == retries && e.st.byID["t"].maxRetries == 2
    && "k" in e.st.byKey && e.st.byKey["k"] == e.st.byID["t"] && e.st.byKey.Keys == {"k"}
  }

  /** n Resolve calls have been answered and no other was made. */
  ghost predicate Through(rs: seq<Resolver>, n: nat) {
    |rs| == n && forall r :: 0 <= r < n ==> rs[r].Resolved?
  }

  /** The first Resolve has been answered, the second is about to re-arm task "t". */
  ghost predicate SecondRearms(rs: seq<Resolver>) {
    |rs| == 2 && rs[0].Resolved? && rs[1] == Rearming("t", "k", "f", "u")
  }

  lemma RoundBegins(e: Sys, status: Status, retries: int)
    requires |e.drivers| == 1 && e.drivers[0].pc.AtTop? && Scene(e, e.drivers[0], status, retries)
    requires e.drivers[0].local.status.Queued? || e.drivers[0].local.status.Failed?
    requires status.Queued? || status.Failed?
    ensures var e1 := DriveResult(e, 0, true);
            && |e1.drivers| == 1 && e1.drivers[0].pc.AtFetch? && e1.drivers[0].engaged
            && Scene(e1, e1.drivers[0], Downloading, retries) && e1.resolvers == e.resolvers
  {
  }

  lemma RoundFails(e: Sys, retries: int)
    requires |e.drivers| == 1 && e.drivers[0].pc.AtFailed? && Scene(e, e.drivers[0], Downloading, retries)
    ensures var e1 := DriveResult(e, 0, true);
            && |e1.drivers| == 1 && e1.drivers[0].pc == (if retries + 1 > 2 then AtDead else AtSleep)
            && e1.drivers[0].local.status.Failed? && e1.drivers[0].engaged == e.drivers[0].engaged
            && Scene(e1, e1.drivers[0], Failed, retries + 1) && e1.resolvers == e.resolvers
  {
  }

  /** One failed round of driver 0. */
  lemma FailedRound(s: Sys, us: seq<Step>, retries: int) returns (ts: seq<Step>)
    requires Run(s, us)
    requires var e := Exec(s, us);
             && |e.drivers| == 1 && e.drivers[0].pc.AtTop?
             && (e.drivers[0].local.status.Queued? || e.drivers[0].local.status.Failed?)
             && (Scene(e, e.drivers[0], Queued, retries) || Scene(e, e.drivers[0], Failed, retries))
    ensures Run(s, ts)
    ensures var e := Exec(s, ts);
            && |e.drivers| == 1 && e.drivers[0].pc == (if retries + 1 > 2 then AtDead else AtSleep)
            && e.drivers[0].local.status.Failed? && e.drivers[0].engaged
            && Scene(e, e.drivers[0], Failed, retries + 1) && e.resolvers == Exec(s, us).resolvers
  {
    var e := Exec(s, us);
    RoundBegins(e, e.st.byID["t"].status, retries);
    Snoc(s, us, Drive(0, true));
    ts := us + [Drive(0, true)];
    Snoc(s, ts, Drive(0, false));
    ts := ts + [Drive(0, false)];
    RoundFails(Exec(s, ts), retries);
    Snoc(s, ts, Drive(0, true));
    ts := ts + [Drive(0, true)];
  }

  /** A first Resolve creates the task; its driver reads it. */
  lemma SceneOpens(s: Sys) returns (ts: seq<Step>)
    requires s == Sys(EMPTY, 1, {}, {}, [], [], [], 2, false)
    ensures Run(s, ts)
    ensures var e := Exec(s, ts);
            && |e.drivers| == 1 && e.drivers[0].pc.AtTop? && e.drivers[0].local.status.Queued?
            && Scene(e, e.drivers[0], Queued, 0) && Through(e.resolvers, 1)
  {
    ts := [];
    Snoc(s, ts, ResolveStart("k", "f", "u"));  ts := ts + [ResolveStart("k", "f", "u")];
    Snoc(s, ts, ResolveRead(0));               ts := ts + [ResolveRead(0)];
    assert Exec(s, ts).resolvers == [Creating("k", "f", "u")];
    Snoc(s, ts, ResolveCreate(0, "t"));        ts := ts + [ResolveCreate(0, "t")];
    var e := Exec(s, ts);
    assert e.drivers == [Spawned("t")] && Through(e.resolvers, 1) && e.st.byKey.Keys == {"k"};
    Snoc(s, ts, Drive(0, true));               ts := ts + [Drive(0, true)];
    Snoc(s, ts, Drive(0, true));               ts := ts + [Drive(0, true)];
  }

  /** While the driver sleeps after its first failure, a second Resolve reads the task but does not write yet. */
  lemma SecondResolveReads(s: Sys, us: seq<Step>) returns (ts: seq<Step>)
    requires Run(s, us)
    requires var e := Exec(s, us);
             && |e.drivers| == 1 && e.drivers[0].pc.AtSleep? && Scene(e, e.drivers[0], Failed, 1)
             && Through(e.resolvers, 1)
    ensures Run(s, ts)
    ensures var e := Exec(s, ts);
            && e.drivers == Exec(s, us).drivers && Scene(e, e.drivers[0], Failed, 1)
            && SecondRearms(e.resolvers)
  {
    ts := us;
    Snoc(s, ts, ResolveStart("k", "f", "u"));  ts := ts + [ResolveStart("k", "f", "u")];
    assert Exec(s, ts).resolvers[1] == Reading("k", "f", "u");
    Snoc(s, ts, ResolveRead(1));               ts := ts + [ResolveRead(1)];
  }

  lemma WakeAndFail(s: Sys, us: seq<Step>, retries: int) returns (ts: seq<Step>)
    requires Run(s, us)
    requires var e := Exec(s, us);
             && |e.drivers| == 1 && e.drivers[0].pc.AtSleep? && e.drivers[0].local.status.Failed?
             && Scene(e, e.drivers[0], Failed, retries)
    ensures Run(s, ts)
    ensures var e := Exec(s, ts);
            && |e.drivers| == 1 && e.drivers[0].pc == (if retries + 1 > 2 then AtDead else AtSleep)
            && e.drivers[0].local.status.Failed? && e.drivers[0].engaged
            && Scene(e, e.drivers[0], Failed, retries + 1) && e.resolvers == Exec(s, us).resolvers
  {
    Snoc(s, us, Drive(0, true));
    ts := FailedRound(s, us + [Drive(0, true)], retries);
  }

  /** The stale Resolve writes between the driver's two last writes. From an empty store and with one Resolve
    * at a time per key, the driver's burial is refused and the task is stuck in downloading for good. */
  lemma StaleResolveOrphans() returns (s: Sys, us: seq<Step>, ts: seq<Step>)
    ensures Init(s) && Run(s, us) && |Exec(s, us).drivers| > 0 && Refused(Exec(s, us), Exec(s, us).drivers[0])
    ensures Run(s, us + ts) && Orphaned(Exec(s, us + ts), "t")
  {
    s := Sys(EMPTY, 1, {}, {}, [], [], [], 2, false);
    us := SceneOpens(s);
    us := FailedRound(s, us, 0);
    us := SecondResolveReads(s, us);
    us := WakeAndFail(s, us, 1);
    us := WakeAndFail(s, us, 2);
    us, ts := RearmBeforeBurial(s, us);
  }

  lemma RearmLands(e: Sys)
    requires |e.drivers| == 1 && e.drivers[0].pc.AtDead? && Scene(e, e.drivers[0], Failed, 3)
    requires SecondRearms(e.resolvers)
    ensures var e1 := RearmResult(e, 1);
            && e1.drivers == e.drivers + [Spawned("t")] && Refused(e1, e1.drivers[0])
            && e1.processing == {"t"} && Through(e1.resolvers, 2) && OrphanStore(e1.st, "t")
  {
  }

  lemma EveryoneLeaves(e: Sys) returns (e3: Sys)
    requires |e.drivers| == 2 && e.drivers[0].pc.AtDead? && e.drivers[1] == Spawned("t") && Refused(e, e.drivers[0])
    requires e.drivers[0].id == "t"
    requires e.processing == {"t"} && Through(e.resolvers, 2) && OrphanStore(e.st, "t")
    ensures Run(e, [Drive(1, true), Drive(0, true), Drive(0, true)])
    ensures e3 == Exec(e, [Drive(1, true), Drive(0, true), Drive(0, true)]) && Orphaned(e3, "t")
  {
    var e1 := Apply(e, Drive(1, true));
    assert e1.drivers[1].pc.Done? && e1.drivers[0] == e.drivers[0] && e1.st == e.st;
    e3 := BurierLeaves(e1);
    assert [Drive(1, true), Drive(0, true), Drive(0, true)][1..] == [Drive(0, true), Drive(0, true)];
  }

  lemma RefusedLeaves(e1: Sys) returns (e2: Sys)
    requires |e1.drivers| == 2 && e1.drivers[0].pc.AtDead? && e1.drivers[1].pc.Done? && Refused(e1, e1.drivers[0])
    ensures Enabled(e1, Drive(0, true)) && e2 == Apply(e1, Drive(0, true))
    ensures e2 == e1.(drivers := [e1.drivers[0].(pc := AtCleanup), e1.drivers[1]])
  {
    e2 := Apply(e1, Drive(0, true));
    assert e2.drivers == [e1.drivers[0].(pc := AtCleanup), e1.drivers[1]];
  }

  lemma CleanupLeaves(e2: Sys) returns (e3: Sys)
    requires |e2.drivers| == 2 && e2.drivers[0].pc.AtCleanup? && e2.drivers[1].pc.Done? && e2.drivers[0].id == "t"
    requires e2.processing == {"t"} && Through(e2.resolvers, 2) && OrphanStore(e2.st, "t")
    ensures Run(e2, [Drive(0, true)]) && e3 == Exec(e2, [Drive(0, true)]) && Orphaned(e3, "t")
  {
    e3 := Apply(e2, Drive(0, true));
  }

  lemma BurierLeaves(e1: Sys) returns (e3: Sys)
    requires |e1.drivers| == 2 && e1.drivers[0].pc.AtDead? && e1.drivers[1].pc.Done? && Refused(e1, e1.drivers[0])
    requires e1.processing == {"t"} && Through(e1.resolvers, 2) && OrphanStore(e1.st, "t")
    requires e1.drivers[0].id == "t"
    ensures Run(e1, [Drive(0, true), Drive(0, true)])
    ensures e3 == Exec(e1, [Drive(0, true), Drive(0, true)]) && Orphaned(e3, "t")
  {
    var e2 := RefusedLeaves(e1);
    e3 := CleanupLeaves(e2);
    assert [Drive(0, true), Drive(0, true)][1..] == [Drive(0, true)];
  }

  lemma RearmBeforeBurial(s: Sys, vs: seq<Step>) returns (us: seq<Step>, ts: seq<Step>)
    requires Run(s, vs)
    requires var e := Exec(s, vs);
             && |e.drivers| == 1 && e.drivers[0].pc.AtDead? && Scene(e, e.drivers[0], Failed, 3)
             && SecondRearms(e.resolvers)
    ensures Run(s, us) && |Exec(s, us).drivers| > 0 && Refused(Exec(s, us), Exec(s, us).drivers[0])
    ensures Run(s, us + ts) && Orphaned(Exec(s, us + ts), "t")
  {
    RearmLands(Exec(s, vs));
    Snoc(s, vs, ResolveRearm(1));
    us := vs + [ResolveRearm(1)];
    ts := [Drive(1, true), Drive(0, true), Drive(0, true)];
    var e3 := EveryoneLeaves(Exec(s, us));
    RunComposes(s, us, ts);
  }
}
