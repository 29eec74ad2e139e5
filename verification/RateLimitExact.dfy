/** When exactly the token bucket admits a call, told from the earlier calls of its key alone. */
module RateLimitExact {
  import opened RateLimit
  import opened RateLimitBounds

  /** How many calls of the key, of those from i to before n, were accepted. */
  function Count(calls: seq<Call>, answers: seq<bool>, key: string, i: nat, n: nat): nat
    requires i <= n <= |calls| && |answers| == |calls|
  {
    if n == i then 0
    else Count(calls, answers, key, i, n - 1) + if calls[n - 1].key == key && answers[n - 1] then 1 else 0
  }

  /** A key's clock: the time of its last call, and how far it moved forward, all steps back left out. */
  datatype Clock = Clock(last: real, forward: real)

  function Tick(k: Clock, at: real): Clock {
    Clock(at, k.forward + if at > k.last then at - k.last else 0.0)
  }

  /** The clock of the key from its call i to its last call before n. */
  function Run(calls: seq<Call>, key: string, i: nat, n: nat): Clock
    requires i < n <= |calls|
  {
    if n == i + 1 then Clock(calls[i].at, 0.0)
    else if calls[n - 1].key == key then Tick(Run(calls, key, i, n - 1), calls[n - 1].at)
    else Run(calls, key, i, n - 1)
  }

  // ----- the bucket, call by call -----

  lemma StateAt(c: Config, calls: seq<Call>, n: nat)
    requires n < |calls|
    ensures var bs := Plain(c, map[], calls[..n]); var r := Taken(c, bs, calls[n].key, calls[n].at);
            && |PlainAnswers(c, map[], calls)| == |calls| && PlainAnswers(c, map[], calls)[n] == r.1
            && Plain(c, map[], calls[..n + 1]) == r.0
  {
    var bs := Plain(c, map[], calls[..n]);
    PlainSlice(c, calls, n, n + 1);
    assert calls[n..n + 1] == [calls[n]];
    TailAnswers(c, bs, [calls[n]]);
    assert PlainAnswers(c, map[], calls)[n] == PlainAnswers(c, map[], calls)[n..n + 1][0];
    PlainNext(c, map[], calls, n);
  }

  lemma {:induction false} PlainNext(c: Config, bs: Buckets, calls: seq<Call>, n: nat)
    requires n < |calls|
    ensures Plain(c, bs, calls[..n + 1]) == Taken(c, Plain(c, bs, calls[..n]), calls[n].key, calls[n].at).0
    decreases n
  {
    if n == 0 {
      assert calls[..1] == [calls[0]] && calls[..0] == [];
      assert Plain(c, Taken(c, bs, calls[0].key, calls[0].at).0, []) == Taken(c, bs, calls[0].key, calls[0].at).0;
    } else {
      PlainNext(c, Taken(c, bs, calls[0].key, calls[0].at).0, calls[1..], n - 1);
      assert calls[..n + 1][1..] == calls[1..][..n] && calls[..n][1..] == calls[1..][..n - 1];
    }
  }

  /** What is left of the burst and the earnings since call i. */
  function Left(c: Config, calls: seq<Call>, answers: seq<bool>, key: string, i: nat, n: nat): real
    requires i < n <= |calls| && |answers| == |calls|
  {
    c.burst as real + Value(c, Run(calls, key, i, n).forward) - Count(calls, answers, key, i, n) as real
  }

  /** What is left when call n of the key comes, before it is answered. */
  function LeftAt(c: Config, calls: seq<Call>, answers: seq<bool>, i: nat, n: nat): real
    requires i <= n < |calls| && |answers| == |calls|
  {
    c.burst as real + Value(c, Run(calls, calls[n].key, i, n + 1).forward) - Count(calls, answers, calls[n].key, i, n) as real
  }

  ghost predicate Called(calls: seq<Call>, key: string, i: nat, n: nat)
    requires n <= |calls|
  {
    i < n && calls[i].key == key
  }

  /** Before call n, the key's bucket holds the least that is left since any of its calls. */
  ghost predicate Holds(c: Config, calls: seq<Call>, answers: seq<bool>, key: string, n: nat, bs: Buckets)
    requires n <= |calls| && |answers| == |calls|
  {
    && (key in bs <==> exists i :: Called(calls, key, i, n))
    && (key in bs ==>
          && bs[key].tokens <= c.burst as real
          && (forall i :: Called(calls, key, i, n) ==>
                bs[key].last == Run(calls, key, i, n).last && bs[key].tokens <= Left(c, calls, answers, key, i, n))
          && (exists i :: Called(calls, key, i, n) && bs[key].tokens == Left(c, calls, answers, key, i, n)))
  }

  lemma GainIsRefill(c: Config, b: Bucket, at: real)
    requires ValidConfig(c) && b.tokens <= c.burst as real
    ensures var t := b.tokens + Gain(c, b.last, at);
            Refill(c, b, at) == if t > c.burst as real then c.burst as real else t
  {
    if at > b.last {
      assert at - b.last > 0.0;
      assert (at - b.last) * c.rate == c.rate * (at - b.last);
    }
  }

  lemma TickEarns(c: Config, k: Clock, at: real)
    ensures Value(c, Tick(k, at).forward) == Value(c, k.forward) + Gain(c, k.last, at)
  {
  }

  lemma LeftGrows(c: Config, calls: seq<Call>, answers: seq<bool>, i: nat, n: nat)
    requires i < n < |calls| && |answers| == |calls|
    ensures var key := calls[n].key;
            LeftAt(c, calls, answers, i, n) == Left(c, calls, answers, key, i, n) + Gain(c, Run(calls, key, i, n).last, calls[n].at)
  {
    TickEarns(c, Run(calls, calls[n].key, i, n), calls[n].at);
  }

  lemma LeftAtSelf(c: Config, calls: seq<Call>, answers: seq<bool>, n: nat)
    requires n < |calls| && |answers| == |calls|
    ensures LeftAt(c, calls, answers, n, n) == c.burst as real
  {
    assert Value(c, 0.0) == 0.0;
  }

  /** A call finds no more than what is left since any call of its key, itself included. */
  lemma FindsNoMore(c: Config, calls: seq<Call>, answers: seq<bool>, i: nat, n: nat, bs: Buckets)
    requires ValidConfig(c) && |answers| == |calls| && i <= n < |calls| && calls[i].key == calls[n].key
    requires Holds(c, calls, answers, calls[n].key, n, bs)
    ensures Available(c, bs, calls[n].key, calls[n].at) <= LeftAt(c, calls, answers, i, n)
  {
    var key, at := calls[n].key, calls[n].at;
    if i == n {
      LeftAtSelf(c, calls, answers, n);
      if key in bs { GainIsRefill(c, bs[key], at); }
    } else {
      assert Called(calls, key, i, n);
      GainIsRefill(c, bs[key], at);
      LeftGrows(c, calls, answers, i, n);
    }
  }

  /** And it finds all that is left since one of them. */
  lemma FindsAll(c: Config, calls: seq<Call>, answers: seq<bool>, n: nat, bs: Buckets) returns (i: nat)
    requires ValidConfig(c) && |answers| == |calls| && n < |calls| && Holds(c, calls, answers, calls[n].key, n, bs)
    ensures i <= n && calls[i].key == calls[n].key
    ensures Available(c, bs, calls[n].key, calls[n].at) == LeftAt(c, calls, answers, i, n)
  {
    var key, at := calls[n].key, calls[n].at;
    if key in bs {
      GainIsRefill(c, bs[key], at);
      if Available(c, bs, key, at) != c.burst as real {
        i :| Called(calls, key, i, n) && bs[key].tokens == Left(c, calls, answers, key, i, n);
        LeftGrows(c, calls, answers, i, n);
        return;
      }
    }
    i := n;
    LeftAtSelf(c, calls, answers, n);
  }

  lemma OwnLeft(c: Config, calls: seq<Call>, answers: seq<bool>, i: nat, n: nat)
    requires |answers| == |calls| && i <= n < |calls|
    ensures Left(c, calls, answers, calls[n].key, i, n + 1) == LeftAt(c, calls, answers, i, n) - if answers[n] then 1.0 else 0.0
    ensures Run(calls, calls[n].key, i, n + 1).last == calls[n].at
  {
  }

  lemma OwnCall(c: Config, calls: seq<Call>, answers: seq<bool>, n: nat, bs: Buckets)
    requires ValidConfig(c) && n < |calls| && |answers| == |calls| && Holds(c, calls, answers, calls[n].key, n, bs)
    requires answers[n] == Taken(c, bs, calls[n].key, calls[n].at).1
    ensures Holds(c, calls, answers, calls[n].key, n + 1, Taken(c, bs, calls[n].key, calls[n].at).0)
  {
    var key, m := calls[n].key, n + 1;
    var bs' := Taken(c, bs, key, calls[n].at).0;
    LeftAtSelf(c, calls, answers, n);
    FindsNoMore(c, calls, answers, n, n, bs);
    assert Called(calls, key, n, m);
    forall i | Called(calls, key, i, m)
      ensures bs'[key].last == Run(calls, key, i, m).last && bs'[key].tokens <= Left(c, calls, answers, key, i, m)
    {
      OwnLeft(c, calls, answers, i, n);
      FindsNoMore(c, calls, answers, i, n, bs);
    }
    var i := FindsAll(c, calls, answers, n, bs);
    OwnLeft(c, calls, answers, i, n);
    assert Called(calls, key, i, m);
  }

  lemma OtherLeft(c: Config, calls: seq<Call>, answers: seq<bool>, key: string, i: nat, n: nat)
    requires |answers| == |calls| && i < n < |calls| && calls[n].key != key
    ensures Left(c, calls, answers, key, i, n + 1) == Left(c, calls, answers, key, i, n)
    ensures Run(calls, key, i, n + 1).last == Run(calls, key, i, n).last
  {
  }

  lemma OtherCall(c: Config, calls: seq<Call>, answers: seq<bool>, key: string, n: nat, bs: Buckets)
    requires n < |calls| && |answers| == |calls| && Holds(c, calls, answers, key, n, bs) && calls[n].key != key
    ensures Holds(c, calls, answers, key, n + 1, Taken(c, bs, calls[n].key, calls[n].at).0)
  {
    var m := n + 1;
    forall i: nat ensures Called(calls, key, i, m) <==> Called(calls, key, i, n) {}
    forall i | Called(calls, key, i, m)
      ensures Left(c, calls, answers, key, i, m) == Left(c, calls, answers, key, i, n)
      ensures Run(calls, key, i, m).last == Run(calls, key, i, n).last
    {
      OtherLeft(c, calls, answers, key, i, n);
    }
    if key in bs {
      var i :| Called(calls, key, i, n) && bs[key].tokens == Left(c, calls, answers, key, i, n);
      assert Called(calls, key, i, m) && bs[key].tokens == Left(c, calls, answers, key, i, m);
    }
  }

  lemma {:induction false} AlwaysHolds(c: Config, calls: seq<Call>, key: string, n: nat)
    requires ValidConfig(c) && n <= |calls|
    ensures |PlainAnswers(c, map[], calls)| == |calls|
    ensures Holds(c, calls, PlainAnswers(c, map[], calls), key, n, Plain(c, map[], calls[..n]))
    decreases n
  {
    AnswersLength(c, map[], calls);
    if n == 0 {
      assert calls[..0] == [];
    } else {
      var answers, bs := PlainAnswers(c, map[], calls), Plain(c, map[], calls[..n - 1]);
      AlwaysHolds(c, calls, key, n - 1);
      StateAt(c, calls, n - 1);
      if calls[n - 1].key == key { OwnCall(c, calls, answers, n - 1, bs); } else { OtherCall(c, calls, answers, key, n - 1, bs); }
    }
  }

  // ----- main results -----

  /** The calls accepted since call i, and one more, fit into the burst and the rate times the time passed. */
  ghost predicate RoomFor(c: Config, accepted: nat, passed: real) {
    accepted as real + 1.0 <= c.burst as real + Value(c, passed)
  }

  /** Since each call of the key there is room for one more, where only forward steps of its clock count as time. */
  ghost predicate Room(c: Config, calls: seq<Call>, answers: seq<bool>, n: nat)
    requires n < |calls| && |answers| == |calls|
  {
    forall i :: Called(calls, calls[n].key, i, n + 1) ==>
      RoomFor(c, Count(calls, answers, calls[n].key, i, n), Run(calls, calls[n].key, i, n + 1).forward)
  }

  lemma RoomIsLeft(c: Config, calls: seq<Call>, answers: seq<bool>, i: nat, n: nat)
    requires |answers| == |calls| && i <= n < |calls|
    ensures RoomFor(c, Count(calls, answers, calls[n].key, i, n), Run(calls, calls[n].key, i, n + 1).forward)
            <==> 1.0 <= LeftAt(c, calls, answers, i, n)
  {
  }

  lemma PlainAdmits(c: Config, calls: seq<Call>, n: nat)
    requires ValidConfig(c) && n < |calls|
    ensures |PlainAnswers(c, map[], calls)| == |calls|
    ensures PlainAnswers(c, map[], calls)[n] <==> Room(c, calls, PlainAnswers(c, map[], calls), n)
  {
    var key := calls[n].key;
    AlwaysHolds(c, calls, key, n);
    StateAt(c, calls, n);
    var answers, bs := PlainAnswers(c, map[], calls), Plain(c, map[], calls[..n]);
    forall i | Called(calls, key, i, n + 1)
      ensures Available(c, bs, key, calls[n].at) <= LeftAt(c, calls, answers, i, n)
      ensures RoomFor(c, Count(calls, answers, key, i, n), Run(calls, key, i, n + 1).forward)
              <==> 1.0 <= LeftAt(c, calls, answers, i, n)
    {
      FindsNoMore(c, calls, answers, i, n, bs);
      RoomIsLeft(c, calls, answers, i, n);
    }
    var i := FindsAll(c, calls, answers, n, bs);
    assert Called(calls, key, i, n + 1);
  }

  /** The limiter as it is, collector included, admits a call if and only if there is room for it since every earlier
    * call of its key, whatever the order of the times, as long as the idle time covers the refill time and the
    * lateness. */
  lemma AdmitsExactly(c: Config, calls: seq<Call>, n: nat, late: real)
    requires ValidConfig(c) && late >= 0.0 && Covers(c, late) && Late(calls, late) && n < |calls|
    ensures |Answers(c, map[], calls)| == |calls|
    ensures Answers(c, map[], calls)[n] <==> Room(c, calls, Answers(c, map[], calls), n)
  {
    CollectorUnseen(c, calls, late);
    PlainAdmits(c, calls, n);
  }

  /** In order, the clock moves forward by the time that passes. */
  lemma {:induction false} RunInOrder(calls: seq<Call>, key: string, i: nat, n: nat)
    requires Late(calls, 0.0) && i < n <= |calls|
    ensures var k := Run(calls, key, i, n); k.forward == k.last - calls[i].at && exists j :: i <= j < n && k.last == calls[j].at
    decreases n
  {
    if n == i + 1 {
      assert Run(calls, key, i, n).last == calls[i].at;
    } else {
      RunInOrder(calls, key, i, n - 1);
      var j :| i <= j < n - 1 && Run(calls, key, i, n - 1).last == calls[j].at;
      assert calls[j].at - 0.0 <= calls[n - 1].at;
      assert Run(calls, key, i, n).last == calls[if calls[n - 1].key == key then n - 1 else j].at;
    }
  }

  /** In order: since each call of the key there is room for one more. */
  ghost predicate RoomInTime(c: Config, calls: seq<Call>, answers: seq<bool>, n: nat)
    requires n < |calls| && |answers| == |calls|
  {
    forall i: nat :: Called(calls, calls[n].key, i, n + 1) ==>
      RoomFor(c, Count(calls, answers, calls[n].key, i, n), calls[n].at - calls[i].at)
  }

  lemma PassedInOrder(calls: seq<Call>, i: nat, n: nat)
    requires Late(calls, 0.0) && i <= n < |calls|
    ensures Run(calls, calls[n].key, i, n + 1).forward == calls[n].at - calls[i].at
  {
    RunInOrder(calls, calls[n].key, i, n + 1);
  }

  lemma RoomsAgree(c: Config, calls: seq<Call>, answers: seq<bool>, n: nat)
    requires Late(calls, 0.0) && n < |calls| && |answers| == |calls|
    ensures Room(c, calls, answers, n) <==> RoomInTime(c, calls, answers, n)
  {
    forall i: nat | Called(calls, calls[n].key, i, n + 1)
      ensures Run(calls, calls[n].key, i, n + 1).forward == calls[n].at - calls[i].at
    {
      PassedInOrder(calls, i, n);
    }
  }

  /** Served in the order of their times, a call is admitted if and only if for every call of its key up to itself the
    * calls accepted since then, and this one, are at most the burst and the rate times the time that has passed. */
  lemma AdmitsInOrder(c: Config, calls: seq<Call>, n: nat)
    requires ValidConfig(c) && IdleWhole(c) <= 9223372036 && Late(calls, 0.0) && n < |calls|
    ensures |Answers(c, map[], calls)| == |calls|
    ensures Answers(c, map[], calls)[n] <==> RoomInTime(c, calls, Answers(c, map[], calls), n)
  {
    IdleLeavesRoom(c);
    AdmitsExactly(c, calls, n, 0.0);
    RoomsAgree(c, calls, Answers(c, map[], calls), n);
  }
}
