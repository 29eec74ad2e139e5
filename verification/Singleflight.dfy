/** Duplicate suppression of concurrent calls: singleflight.Do in internal/transfer/tasks/singleflight.go and
  * its two copies, mirrorcore.Group.Do and registrymirror's doFlight, which delete without an identity test.
  * Any number of callers, interleaved at their lock sections; every function returns. */
module Singleflight {

  /** One run of a function: the key it was started for, and its value once it returned. */
  datatype Flight = Flight(key: string, done: bool, value: int)

  datatype Caller =
    | Calling(key: string)              // before the first lock section
    | Waiting(key: string, c: nat)      // waits for flight c
    | Running(key: string, c: nat)      // leads flight c, function still running
    | Finishing(key: string, c: nat)    // leads flight c, function returned, entry not deleted yet
    | Returned(key: string, c: nat, value: int)

  datatype Sys = Sys(calls: map<string, nat>, flights: seq<Flight>, callers: seq<Caller>)

  datatype Step = Enter(i: nat) | FnReturns(i: nat, value: int) | Wake(i: nat) | Delete(i: nat)

  ghost predicate Enabled(s: Sys, t: Step) {
    match t
    case Enter(i) => i < |s.callers| && s.callers[i].Calling?
    case FnReturns(i, _) => i < |s.callers| && s.callers[i].Running? && s.callers[i].c < |s.flights|
    case Wake(i) =>
      i < |s.callers| && s.callers[i].Waiting? && s.callers[i].c < |s.flights| && s.flights[s.callers[i].c].done
    case Delete(i) => i < |s.callers| && s.callers[i].Finishing? && s.callers[i].c < |s.flights|
  }

  /** identityTest says whether the entry is deleted only if it still is the caller's own. */
  function Apply(identityTest: bool, s: Sys, t: Step): Sys
    requires Enabled(s, t)
  {
    var x := s.callers[t.i];
    match t
    case Enter(i) =>
      if x.key in s.calls then s.(callers := s.callers[i := Waiting(x.key, s.calls[x.key])])
      else
        var c := |s.flights|;
        Sys(s.calls[x.key := c], s.flights + [Flight(x.key, false, 0)], s.callers[i := Running(x.key, c)])
    case FnReturns(i, value) =>
      s.(flights := s.flights[x.c := Flight(s.flights[x.c].key, true, value)], callers := s.callers[i := Finishing(x.key, x.c)])
    case Wake(i) => s.(callers := s.callers[i := Returned(x.key, x.c, s.flights[x.c].value)])
    case Delete(i) =>
      var mine := x.key in s.calls && s.calls[x.key] == x.c;
      Sys(if mine || !identityTest then s.calls - {x.key} else s.calls, s.flights,
          s.callers[i := Returned(x.key, x.c, s.flights[x.c].value)])
  }

  ghost predicate Init(s: Sys) {
    s.calls == map[] && s.flights == [] && forall i :: 0 <= i < |s.callers| ==> s.callers[i].Calling?
  }

  ghost predicate Run(identityTest: bool, s: Sys, ts: seq<Step>)
    decreases |ts|
  {
    ts == [] || (Enabled(s, ts[0]) && Run(identityTest, Apply(identityTest, s, ts[0]), ts[1..]))
  }

  ghost function Exec(identityTest: bool, s: Sys, ts: seq<Step>): Sys
    requires Run(identityTest, s, ts)
    decreases |ts|
  {
    if ts == [] then s else Exec(identityTest, Apply(identityTest, s, ts[0]), ts[1..])
  }

  // ----- the invariant -----

  ghost predicate Leads(x: Caller) {
    x.Running? || x.Finishing?
  }

  /** A leader's flight is registered under its key, and it is done exactly when the function returned. */
  ghost predicate CallerOk(s: Sys, x: Caller) {
    match x
    case Calling(_) => true
    case Waiting(key, c) => c < |s.flights| && s.flights[c].key == key && (s.flights[c].done || Registered(s, key, c))
    case Running(key, c) => c < |s.flights| && s.flights[c].key == key && !s.flights[c].done && Registered(s, key, c)
    case Finishing(key, c) => c < |s.flights| && s.flights[c].key == key && s.flights[c].done && Registered(s, key, c)
    case Returned(key, c, value) =>
      c < |s.flights| && s.flights[c] == Flight(key, true, value)
  }

  ghost predicate Registered(s: Sys, key: string, c: nat) {
    key in s.calls && s.calls[key] == c
  }

  ghost predicate HasLeader(callers: seq<Caller>, c: nat) {
    exists i :: 0 <= i < |callers| && Leads(callers[i]) && callers[i].c == c
  }

  ghost predicate Inv(s: Sys) {
    && (forall i :: 0 <= i < |s.callers| ==> CallerOk(s, s.callers[i]))
    && (forall i, j :: 0 <= i < j < |s.callers| && Leads(s.callers[i]) && Leads(s.callers[j]) ==> s.callers[i].c != s.callers[j].c)
    && (forall k :: k in s.calls ==> s.calls[k] < |s.flights| && s.flights[s.calls[k]].key == k && HasLeader(s.callers, s.calls[k]))
  }

  lemma LeaderStays(callers: seq<Caller>, i: nat, x: Caller, c: nat)
    requires i < |callers| && HasLeader(callers, c)
    requires Leads(callers[i]) && callers[i].c == c ==> Leads(x) && x.c == c
    ensures HasLeader(callers[i := x], c)
  {
    var j :| 0 <= j < |callers| && Leads(callers[j]) && callers[j].c == c;
    assert Leads(callers[i := x][j]) && callers[i := x][j].c == c;
  }

  lemma EnterCallers(identityTest: bool, s: Sys, i: nat, j: nat)
    requires Inv(s) && Enabled(s, Enter(i)) && j < |s.callers|
    ensures var s' := Apply(identityTest, s, Enter(i)); j < |s'.callers| && CallerOk(s', s'.callers[j])
  {
    assert CallerOk(s, s.callers[j]);
  }

  lemma EnterKeeps(identityTest: bool, s: Sys, i: nat)
    requires Inv(s) && Enabled(s, Enter(i))
    ensures Inv(Apply(identityTest, s, Enter(i)))
  {
    var s' := Apply(identityTest, s, Enter(i));
    forall j | 0 <= j < |s'.callers|
      ensures CallerOk(s', s'.callers[j])
    {
      EnterCallers(identityTest, s, i, j);
    }
    forall k | k in s'.calls
      ensures HasLeader(s'.callers, s'.calls[k])
    {
      if k in s.calls {
        LeaderStays(s.callers, i, s'.callers[i], s.calls[k]);
      } else {
        assert Leads(s'.callers[i]) && s'.callers[i].c == s'.calls[k];
      }
    }
    assert forall j :: 0 <= j < |s.callers| && Leads(s.callers[j]) ==> CallerOk(s, s.callers[j]);
  }

  lemma ReturnKeeps(identityTest: bool, s: Sys, i: nat, value: int)
    requires Inv(s) && Enabled(s, FnReturns(i, value))
    ensures Inv(Apply(identityTest, s, FnReturns(i, value)))
  {
    var s' := Apply(identityTest, s, FnReturns(i, value));
    var c := s.callers[i].c;
    assert CallerOk(s, s.callers[i]);
    forall j | 0 <= j < |s'.callers|
      ensures CallerOk(s', s'.callers[j])
    {
      assert CallerOk(s, s.callers[j]);
      assert j != i && Leads(s.callers[j]) ==> s.callers[j].c != c;
    }
    forall k | k in s'.calls
      ensures HasLeader(s'.callers, s'.calls[k])
    {
      LeaderStays(s.callers, i, s'.callers[i], s.calls[k]);
    }
  }

  lemma WakeKeeps(identityTest: bool, s: Sys, i: nat)
    requires Inv(s) && Enabled(s, Wake(i))
    ensures Inv(Apply(identityTest, s, Wake(i)))
  {
    var s' := Apply(identityTest, s, Wake(i));
    assert CallerOk(s, s.callers[i]);
    forall j | 0 <= j < |s'.callers|
      ensures CallerOk(s', s'.callers[j])
    {
      assert CallerOk(s, s.callers[j]);
    }
    forall k | k in s'.calls
      ensures HasLeader(s'.callers, s'.calls[k])
    {
      LeaderStays(s.callers, i, s'.callers[i], s.calls[k]);
    }
  }

  lemma DeleteKeeps(identityTest: bool, s: Sys, i: nat)
    requires Inv(s) && Enabled(s, Delete(i))
    ensures Inv(Apply(identityTest, s, Delete(i)))
  {
    var s' := Apply(identityTest, s, Delete(i));
    var x := s.callers[i];
    assert CallerOk(s, x);
    forall j | 0 <= j < |s'.callers|
      ensures CallerOk(s', s'.callers[j])
    {
      assert CallerOk(s, s.callers[j]);
      assert j != i && Leads(s.callers[j]) ==> s.callers[j].c != x.c;
    }
    forall k | k in s'.calls
      ensures HasLeader(s'.callers, s'.calls[k])
    {
      assert s.calls[k] != x.c by { assert s.flights[s.calls[k]].key == k; }
      LeaderStays(s.callers, i, s'.callers[i], s.calls[k]);
    }
  }

  lemma StepKeeps(identityTest: bool, s: Sys, t: Step)
    requires Inv(s) && Enabled(s, t)
    ensures Inv(Apply(identityTest, s, t))
  {
    match t
    case Enter(i) => EnterKeeps(identityTest, s, i);
    case FnReturns(i, value) => ReturnKeeps(identityTest, s, i, value);
    case Wake(i) => WakeKeeps(identityTest, s, i);
    case Delete(i) => DeleteKeeps(identityTest, s, i);
  }

  lemma {:induction false} RunKeeps(identityTest: bool, s: Sys, ts: seq<Step>)
    requires Inv(s) && Run(identityTest, s, ts)
    ensures Inv(Exec(identityTest, s, ts))
    decreases |ts|
  {
    if ts != [] {
      StepKeeps(identityTest, s, ts[0]);
      RunKeeps(identityTest, Apply(identityTest, s, ts[0]), ts[1..]);
    }
  }

  // ----- main results -----

  /** At most one function runs per key at any time. */
  lemma OneRunPerKey(identityTest: bool, s: Sys, ts: seq<Step>, i: nat, j: nat)
    requires Init(s) && Run(identityTest, s, ts)
    requires var e := Exec(identityTest, s, ts); i < j < |e.callers| && e.callers[i].Running? && e.callers[j].Running?
    ensures var e := Exec(identityTest, s, ts); e.callers[i].key != e.callers[j].key
  {
    RunKeeps(identityTest, s, ts);
    var e := Exec(identityTest, s, ts);
    assert CallerOk(e, e.callers[i]) && CallerOk(e, e.callers[j]);
  }

  /** Whoever returned got the value of a finished run that was started for its own key. */
  lemma OwnResult(identityTest: bool, s: Sys, ts: seq<Step>, i: nat)
    requires Init(s) && Run(identityTest, s, ts)
    requires var e := Exec(identityTest, s, ts); i < |e.callers| && e.callers[i].Returned?
    ensures var e := Exec(identityTest, s, ts); var x := e.callers[i];
            x.c < |e.flights| && e.flights[x.c] == Flight(x.key, true, x.value)
  {
    RunKeeps(identityTest, s, ts);
    var e := Exec(identityTest, s, ts);
    assert CallerOk(e, e.callers[i]);
  }

  /** Nobody waits in vain: an unfinished flight that someone waits for has a caller running its function. */
  lemma WaitersHaveLeader(identityTest: bool, s: Sys, ts: seq<Step>, i: nat) returns (leader: nat)
    requires Init(s) && Run(identityTest, s, ts)
    requires var e := Exec(identityTest, s, ts);
             i < |e.callers| && e.callers[i].Waiting? && !Enabled(e, Wake(i))
    ensures var e := Exec(identityTest, s, ts);
            leader < |e.callers| && e.callers[leader] == Running(e.callers[i].key, e.callers[i].c)
  {
    RunKeeps(identityTest, s, ts);
    leader := FindLeader(Exec(identityTest, s, ts), i);
  }

  lemma FindLeader(e: Sys, i: nat) returns (leader: nat)
    requires Inv(e) && i < |e.callers| && e.callers[i].Waiting? && !Enabled(e, Wake(i))
    ensures leader < |e.callers| && e.callers[leader] == Running(e.callers[i].key, e.callers[i].c)
  {
    var x := e.callers[i];
    assert CallerOk(e, x) && HasLeader(e.callers, e.calls[x.key]);
    leader :| 0 <= leader < |e.callers| && Leads(e.callers[leader]) && e.callers[leader].c == x.c;
    assert CallerOk(e, e.callers[leader]);
  }

  /** The identity test before the delete never fails. */
  lemma DeleteOwnEntry(identityTest: bool, s: Sys, ts: seq<Step>, i: nat)
    requires Init(s) && Run(identityTest, s, ts)
    requires Enabled(Exec(identityTest, s, ts), Delete(i))
    ensures var e := Exec(identityTest, s, ts); Registered(e, e.callers[i].key, e.callers[i].c)
  {
    RunKeeps(identityTest, s, ts);
    assert CallerOk(Exec(identityTest, s, ts), Exec(identityTest, s, ts).callers[i]);
  }

  /** Hence the copies with and without the test behave alike on every schedule. */
  lemma {:induction false} CopiesAgree(s: Sys, ts: seq<Step>)
    requires Inv(s)
    ensures Run(true, s, ts) <==> Run(false, s, ts)
    ensures Run(true, s, ts) ==> Exec(true, s, ts) == Exec(false, s, ts)
    decreases |ts|
  {
    if ts != [] && Enabled(s, ts[0]) {
      assert ts[0].Delete? ==> CallerOk(s, s.callers[ts[0].i]);
      assert Apply(true, s, ts[0]) == Apply(false, s, ts[0]);
      StepKeeps(true, s, ts[0]);
      CopiesAgree(Apply(true, s, ts[0]), ts[1..]);
    }
  }

  function Left(x: Caller): nat {
    match x
    case Calling(_) => 3
    case Running(_, _) => 2
    case Waiting(_, _) => 1
    case Finishing(_, _) => 1
    case Returned(_, _, _) => 0
  }

  function TotalLeft(callers: seq<Caller>): nat {
    if callers == [] then 0 else Left(callers[0]) + TotalLeft(callers[1..])
  }

  lemma {:induction false} AtMostThree(callers: seq<Caller>)
    ensures TotalLeft(callers) <= 3 * |callers|
  {
    if callers != [] { AtMostThree(callers[1..]); }
  }

  lemma {:induction false} LeftUpdate(callers: seq<Caller>, i: nat, x: Caller)
    requires i < |callers|
    ensures TotalLeft(callers[i := x]) == TotalLeft(callers) - Left(callers[i]) + Left(x)
  {
    if i == 0 {
      assert callers[i := x][1..] == callers[1..];
    } else {
      assert callers[i := x][1..] == callers[1..][i - 1 := x];
      LeftUpdate(callers[1..], i - 1, x);
    }
  }

  lemma {:induction false} RunSpends(identityTest: bool, s: Sys, ts: seq<Step>)
    requires Run(identityTest, s, ts)
    ensures |ts| + TotalLeft(Exec(identityTest, s, ts).callers) <= TotalLeft(s.callers)
    decreases |ts|
  {
    if ts != [] {
      var s' := Apply(identityTest, s, ts[0]);
      LeftUpdate(s.callers, ts[0].i, s'.callers[ts[0].i]);
      assert s'.callers == s.callers[ts[0].i := s'.callers[ts[0].i]];
      RunSpends(identityTest, s', ts[1..]);
    }
  }

  /** No schedule is longer than three steps per caller, and as long as a caller is not back something can
    * happen: when all functions return, every caller returns. */
  lemma EveryoneReturns(identityTest: bool, s: Sys, ts: seq<Step>)
    requires Init(s) && Run(identityTest, s, ts)
    ensures |ts| <= TotalLeft(s.callers) <= 3 * |s.callers|
    ensures (forall t :: !Enabled(Exec(identityTest, s, ts), t)) ==>
              forall i :: 0 <= i < |s.callers| ==>
                |Exec(identityTest, s, ts).callers| == |s.callers| && Exec(identityTest, s, ts).callers[i].Returned?
  {
    RunSpends(identityTest, s, ts);
    AtMostThree(s.callers);
    RunKeeps(identityTest, s, ts);
    SameCallers(identityTest, s, ts);
    var e := Exec(identityTest, s, ts);
    if forall t :: !Enabled(e, t) {
      forall i | 0 <= i < |e.callers|
        ensures e.callers[i].Returned?
      {
        if !e.callers[i].Returned? { var t := CanMove(e, i); }
      }
    }
  }

  lemma {:induction false} SameCallers(identityTest: bool, s: Sys, ts: seq<Step>)
    requires Run(identityTest, s, ts)
    ensures |Exec(identityTest, s, ts).callers| == |s.callers|
    decreases |ts|
  {
    if ts != [] { SameCallers(identityTest, Apply(identityTest, s, ts[0]), ts[1..]); }
  }

  /** As long as a caller is not back, some step is possible. */
  lemma CanMove(e: Sys, i: nat) returns (t: Step)
    requires Inv(e) && i < |e.callers| && !e.callers[i].Returned?
    ensures Enabled(e, t)
  {
    assert CallerOk(e, e.callers[i]);
    match e.callers[i]
    case Calling(_) => t := Enter(i);
    case Running(_, _) => t := FnReturns(i, 0);
    case Finishing(_, _) => t := Delete(i);
    case Waiting(_, _) =>
      t := Wake(i);
      if !Enabled(e, t) {
        var leader := FindLeader(e, i);
        t := FnReturns(leader, 0);
      }
  }

  // ----- whose value it is -----

  lemma SameKeys(identityTest: bool, s: Sys, t: Step)
    requires Enabled(s, t)
    ensures var e := Apply(identityTest, s, t);
            |e.callers| == |s.callers| && forall i :: 0 <= i < |s.callers| ==> e.callers[i].key == s.callers[i].key
  {
  }

  /** Some function call of the schedule for this key returned the value. */
  ghost predicate Produced(callers: seq<Caller>, ts: seq<Step>, key: string, value: int) {
    exists k :: 0 <= k < |ts| && ts[k].FnReturns? && ts[k].value == value && ts[k].i < |callers| && callers[ts[k].i].key == key
  }

  lemma ProducedLater(callers: seq<Caller>, later: seq<Caller>, ts: seq<Step>, key: string, value: int)
    requires ts != [] && Produced(later, ts[1..], key, value)
    requires |later| == |callers| && forall i :: 0 <= i < |callers| ==> later[i].key == callers[i].key
    ensures Produced(callers, ts, key, value)
  {
    var k :| 0 <= k < |ts| - 1 && ts[1..][k].FnReturns? && ts[1..][k].value == value && ts[1..][k].i < |later|
             && later[ts[1..][k].i].key == key;
    assert ts[k + 1] == ts[1..][k];
  }

  lemma FlightStep(identityTest: bool, s: Sys, t: Step, c: nat)
    requires Inv(s) && Enabled(s, t)
    ensures var e := Apply(identityTest, s, t);
            |e.flights| >= |s.flights|
            && (c < |e.flights| && e.flights[c].done ==>
                  (c < |s.flights| && s.flights[c] == e.flights[c])
                  || (t.FnReturns? && t.value == e.flights[c].value && s.callers[t.i].key == e.flights[c].key))
  {
    if t.FnReturns? { assert CallerOk(s, s.callers[t.i]); }
  }

  lemma {:induction false} FlightsProduced(identityTest: bool, s: Sys, ts: seq<Step>, c: nat)
    requires Inv(s) && Run(identityTest, s, ts)
    requires c < |Exec(identityTest, s, ts).flights| && Exec(identityTest, s, ts).flights[c].done
    ensures var x := Exec(identityTest, s, ts).flights[c];
            (c < |s.flights| && s.flights[c] == x) || Produced(s.callers, ts, x.key, x.value)
    decreases |ts|
  {
    if ts != [] {
      var e, x := Apply(identityTest, s, ts[0]), Exec(identityTest, s, ts).flights[c];
      StepKeeps(identityTest, s, ts[0]);
      SameKeys(identityTest, s, ts[0]);
      FlightsProduced(identityTest, e, ts[1..], c);
      if c < |e.flights| && e.flights[c] == x {
        FlightStep(identityTest, s, ts[0], c);
      } else {
        ProducedLater(s.callers, e.callers, ts, x.key, x.value);
      }
    }
  }

  /** Every value that a caller gets was returned by a function call that the schedule made for the caller's key. */
  lemma ValueWasReturned(identityTest: bool, s: Sys, ts: seq<Step>, i: nat)
    requires Init(s) && Run(identityTest, s, ts)
    requires i < |Exec(identityTest, s, ts).callers| && Exec(identityTest, s, ts).callers[i].Returned?
    ensures var x := Exec(identityTest, s, ts).callers[i]; Produced(s.callers, ts, x.key, x.value)
  {
    OwnResult(identityTest, s, ts, i);
    FlightsProduced(identityTest, s, ts, Exec(identityTest, s, ts).callers[i].c);
  }

  /** Caller i has this value, or is about to return with it. */
  ghost predicate Keeps(s: Sys, i: nat, value: int) {
    i < |s.callers|
    && match s.callers[i]
       case Finishing(key, c) => c < |s.flights| && s.flights[c] == Flight(key, true, value)
       case Returned(_, _, v) => v == value
       case _ => false
  }

  lemma KeepsStep(identityTest: bool, s: Sys, t: Step, i: nat, value: int)
    requires Inv(s) && Enabled(s, t) && Keeps(s, i, value)
    ensures Keeps(Apply(identityTest, s, t), i, value)
  {
    if t.FnReturns? { assert CallerOk(s, s.callers[t.i]); }
  }

  lemma {:induction false} KeepsAlong(identityTest: bool, s: Sys, ts: seq<Step>, i: nat, value: int)
    requires Inv(s) && Run(identityTest, s, ts) && Keeps(s, i, value)
    ensures Keeps(Exec(identityTest, s, ts), i, value)
    decreases |ts|
  {
    if ts != [] {
      StepKeeps(identityTest, s, ts[0]);
      KeepsStep(identityTest, s, ts[0], i, value);
      KeepsAlong(identityTest, Apply(identityTest, s, ts[0]), ts[1..], i, value);
    }
  }

  /** Whoever ran the function returns what its own call returned. */
  lemma LeaderGetsItsOwn(identityTest: bool, s: Sys, us: seq<Step>, i: nat, value: int, ts: seq<Step>)
    requires Init(s) && Run(identityTest, s, us) && Enabled(Exec(identityTest, s, us), FnReturns(i, value))
    requires Run(identityTest, Apply(identityTest, Exec(identityTest, s, us), FnReturns(i, value)), ts)
    requires var e := Exec(identityTest, Apply(identityTest, Exec(identityTest, s, us), FnReturns(i, value)), ts);
             i < |e.callers| && e.callers[i].Returned?
    ensures Exec(identityTest, Apply(identityTest, Exec(identityTest, s, us), FnReturns(i, value)), ts).callers[i].value == value
  {
    RunKeeps(identityTest, s, us);
    var e := Exec(identityTest, s, us);
    assert CallerOk(e, e.callers[i]);
    StepKeeps(identityTest, e, FnReturns(i, value));
    KeepsAlong(identityTest, Apply(identityTest, e, FnReturns(i, value)), ts, i, value);
  }

  /** A caller runs the function itself if and only if nobody who runs one for its key has still to clear up. */
  lemma EnterDecides(identityTest: bool, s: Sys, ts: seq<Step>, i: nat)
    requires Init(s) && Run(identityTest, s, ts) && Enabled(Exec(identityTest, s, ts), Enter(i))
    ensures var e := Exec(identityTest, s, ts); var x := Apply(identityTest, e, Enter(i)).callers[i];
            && (x.Running? <==> forall j :: 0 <= j < |e.callers| && Leads(e.callers[j]) ==> e.callers[j].key != e.callers[i].key)
            && (x.Waiting? <==> exists j :: 0 <= j < |e.callers| && Leads(e.callers[j]) && e.callers[j].key == e.callers[i].key)
  {
    RunKeeps(identityTest, s, ts);
    var e := Exec(identityTest, s, ts);
    var key := e.callers[i].key;
    forall j | 0 <= j < |e.callers| && Leads(e.callers[j]) ensures e.callers[j].key in e.calls {
      assert CallerOk(e, e.callers[j]);
    }
    if key in e.calls {
      assert HasLeader(e.callers, e.calls[key]);
      var j :| 0 <= j < |e.callers| && Leads(e.callers[j]) && e.callers[j].c == e.calls[key];
      assert CallerOk(e, e.callers[j]);
    }
  }
}
