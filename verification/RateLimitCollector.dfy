/** Exactly when the token bucket's key collector can be observed: never if the idle time covers the refill time
  * and the lateness of calls, and otherwise by a run that empties a bucket, fills the map with other keys, lets
  * one of them collect, and comes back. */
module RateLimitCollector {
  import opened RateLimit
  import opened RateLimitBounds
  import opened RateLimitRuns

  // ----- filling the map -----

  function Fill(i: nat, n: nat): (calls: seq<Call>)
    requires i <= n
    ensures |calls| == n - i && forall j :: 0 <= j < |calls| ==> calls[j].at == 0.0 && |calls[j].key| >= 2
    decreases n - i
  {
    if i == n then [] else [Call(Name(i), 0.0)] + Fill(i + 1, n)
  }

  ghost predicate Untouched(bs: Buckets) {
    forall k :: k in bs ==> bs[k].last == 0.0
  }

  /** While the map is not full, a new key at 0 is stored beside the others. */
  ghost predicate Stores(step: Stepper) {
    forall bs: Buckets, key :: StoresNew(step, bs, key)
  }

  ghost predicate StoresNew(step: Stepper, bs: Buckets, key: string) {
    |bs| <= KEY_LIMIT && Untouched(bs) && key !in bs ==> Stored(bs, step(bs, Call(key, 0.0)).0, key)
  }

  ghost predicate Stored(bs: Buckets, next: Buckets, key: string) {
    |next| == |bs| + 1 && Untouched(next) && next.Keys == bs.Keys + {key}
  }

  lemma AddsOne(c: Config, bs: Buckets, key: string)
    requires ValidConfig(c) && |bs| <= KEY_LIMIT && Untouched(bs) && key !in bs
    ensures Stored(bs, Allowed(c, bs, key, 0.0).0, key)
  {
    var next := Allowed(c, bs, key, 0.0).0;
    assert next.Keys == bs.Keys + {key};
    assert |next.Keys| == |next| && |bs.Keys| == |bs|;
  }

  lemma AsIsStores(c: Config)
    requires ValidConfig(c)
    ensures Stores(AsIs(c))
  {
    forall bs: Buckets, key
      ensures StoresNew(AsIs(c), bs, key)
    {
      if |bs| <= KEY_LIMIT && Untouched(bs) && key !in bs { AddsOne(c, bs, key); }
    }
  }

  lemma {:induction false} Filled(step: Stepper, bs: Buckets, i: nat, n: nat)
    requires Stores(step) && i <= n <= KEY_LIMIT
    requires |bs| == i + 1 && Untouched(bs) && forall k :: k in bs ==> |k| < i + 2
    ensures |State(step, bs, Fill(i, n))| == n + 1 && Untouched(State(step, bs, Fill(i, n)))
    decreases n - i
  {
    if i < n {
      var next := step(bs, Call(Name(i), 0.0)).0;
      assert StoresNew(step, bs, Name(i));
      Filled(step, next, i + 1, n);
      assert Fill(i, n)[1..] == Fill(i + 1, n);
    }
  }

  // ----- the run -----

  /** One of the other keys again, then a burst. */
  function Comeback(c: Config, later: real, back: real): seq<Call>
    requires c.burst >= 0
  {
    [Call(Name(0), later)] + Repeat(back, c.burst)
  }

  /** A burst at 0, other keys until the map is full, one of them again at later, and a burst at back. */
  function Spoiler(c: Config, later: real, back: real): seq<Call>
    requires c.burst >= 0
  {
    Repeat(0.0, c.burst) + (Fill(0, KEY_LIMIT) + Comeback(c, later, back))
  }

  lemma SpoilerLate(c: Config, later: real, back: real, late: real)
    requires ValidConfig(c) && later >= 0.0 && late >= 0.0 && back == later - late
    ensures Late(Spoiler(c, later, back), late)
  {
    var a, b, one, d := Repeat(0.0, c.burst), Fill(0, KEY_LIMIT), [Call(Name(0), later)], Repeat(back, c.burst);
    AllAtLate(a, 0.0, late);
    AllAtLate(b, 0.0, late);
    AllAtLate(d, back, late);
    LateConcat(one, d, late);
    LateConcat(b, one + d, late);
    LateConcat(a, b + (one + d), late);
  }

  /** All calls of the run lie between 0 and its latest call. */
  lemma SpoilerInside(c: Config, later: real)
    requires ValidConfig(c) && later >= 0.0
    ensures NotBefore(Spoiler(c, later, later), 0.0) && Until(Spoiler(c, later, later), later)
  {
    var a, b, one, d := Repeat(0.0, c.burst), Fill(0, KEY_LIMIT), [Call(Name(0), later)], Repeat(later, c.burst);
    InsideConcat(one, d, 0.0, later);
    InsideConcat(b, one + d, 0.0, later);
    InsideConcat(a, b + (one + d), 0.0, later);
  }

  lemma InsideConcat(a: seq<Call>, b: seq<Call>, start: real, end: real)
    requires NotBefore(a, start) && Until(a, end) && NotBefore(b, start) && Until(b, end)
    ensures NotBefore(a + b, start) && Until(a + b, end)
  {
  }

  lemma CollectsAll(c: Config, bs: Buckets, at: real)
    requires ValidConfig(c) && |bs| > KEY_LIMIT && Untouched(bs) && at > IdleSeconds(IdleWhole(c))
    ensures Allowed(c, bs, Name(0), at).0 == map[Name(0) := Bucket(c.burst as real - 1.0, at)]
  {
    var kept := Collected(bs, IdleSeconds(IdleWhole(c)), at);
    assert kept == map[];
  }

  /** The first burst empties the bucket. */
  lemma FirstBurst(c: Config) returns (s1: Buckets)
    requires ValidConfig(c)
    ensures s1 == State(AsIs(c), map[], Repeat(0.0, c.burst)) && Got(AsIs(c), map[], Repeat(0.0, c.burst)) == c.burst
    ensures |s1| == 1 && Untouched(s1) && s1.Keys == {"k"}
  {
    WholeBurst(c, map[], 0.0);
    s1 := State(AsIs(c), map[], Repeat(0.0, c.burst));
    assert |s1.Keys| == |s1|;
  }

  lemma FullMap(c: Config, s1: Buckets) returns (s2: Buckets)
    requires ValidConfig(c) && |s1| == 1 && Untouched(s1) && s1.Keys == {"k"}
    ensures s2 == State(AsIs(c), s1, Fill(0, KEY_LIMIT)) && |s2| > KEY_LIMIT && Untouched(s2)
  {
    AsIsStores(c);
    Filled(AsIs(c), s1, 0, KEY_LIMIT);
    s2 := State(AsIs(c), s1, Fill(0, KEY_LIMIT));
  }

  /** The other key's call drops everything, so the second burst is whole. */
  lemma SecondBurst(c: Config, s2: Buckets, later: real, back: real)
    requires ValidConfig(c) && |s2| > KEY_LIMIT && Untouched(s2) && later > IdleSeconds(IdleWhole(c))
    ensures Got(AsIs(c), s2, Comeback(c, later, back)) >= c.burst
  {
    var one, s3 := [Call(Name(0), later)], AsIs(c)(s2, Call(Name(0), later)).0;
    CollectsAll(c, s2, later);
    assert |s3| == 1 && |Name(0)| == 2;
    WholeBurst(c, s3, back);
    assert one[1..] == [] && State(AsIs(c), s2, one) == s3;
    Concat(AsIs(c), s2, one, Repeat(back, c.burst));
  }

  /** If the collector can drop the emptied bucket, the key gets two whole bursts. */
  lemma SpoilerGetsTwo(c: Config, later: real, back: real)
    requires ValidConfig(c) && later > IdleSeconds(IdleWhole(c))
    ensures var calls := Spoiler(c, later, back); var answers := Answers(c, map[], calls);
            |answers| == |calls| && Accepted(calls, answers, "k") >= 2 * c.burst
  {
    var a, b, rest := Repeat(0.0, c.burst), Fill(0, KEY_LIMIT), Comeback(c, later, back);
    var s1 := FirstBurst(c);
    var s2 := FullMap(c, s1);
    SecondBurst(c, s2, later, back);
    Concat(AsIs(c), map[], a, b + rest);
    Concat(AsIs(c), s1, b, rest);
    GotIsAccepted(c, map[], Spoiler(c, later, back));
  }

  // ----- what the key earns in that run -----

  function LastOf(calls: seq<Call>, key: string, last: real): real
    decreases |calls|
  {
    if calls == [] then last else LastOf(calls[1..], key, if calls[0].key == key then calls[0].at else last)
  }

  lemma {:induction false} EarnedConcat(c: Config, a: seq<Call>, b: seq<Call>, key: string, last: real)
    ensures EarnedFrom(c, a + b, key, last) == EarnedFrom(c, a, key, last) + EarnedFrom(c, b, key, LastOf(a, key, last))
    decreases |a|
  {
    if a == [] {
      assert a + b == b;
    } else {
      assert (a + b)[1..] == a[1..] + b;
      EarnedConcat(c, a[1..], b, key, if a[0].key == key then a[0].at else last);
    }
  }

  lemma {:induction false} RepeatEarns(c: Config, at: real, n: nat)
    ensures EarnedFrom(c, Repeat(at, n), "k", at) == 0.0 && LastOf(Repeat(at, n), "k", at) == at
  {
    if n > 0 {
      RepeatEarns(c, at, n - 1);
      assert Repeat(at, n)[1..] == Repeat(at, n - 1);
    }
  }

  lemma {:induction false} OthersEarn(c: Config, calls: seq<Call>, key: string, last: real)
    requires forall i :: 0 <= i < |calls| ==> calls[i].key != key
    ensures EarnedFrom(c, calls, key, last) == 0.0 && LastOf(calls, key, last) == last
    decreases |calls|
  {
    if calls != [] { OthersEarn(c, calls[1..], key, last); }
  }

  /** One step, from 0 to back. */
  lemma SpoilerEarns(c: Config, later: real, back: real)
    requires ValidConfig(c)
    ensures Earned(c, Spoiler(c, later, back), "k") == Gain(c, 0.0, back)
  {
    var others := Fill(0, KEY_LIMIT) + [Call(Name(0), later)];
    var first, last := Repeat(0.0, c.burst - 1), Repeat(back, c.burst);
    SpoilerParts(c, later, back);
    RepeatEarns(c, 0.0, c.burst - 1);
    OthersEarn(c, others, "k", 0.0);
    EarnedConcat(c, first, others + last, "k", 0.0);
    EarnedConcat(c, others, last, "k", 0.0);
    LastEarns(c, back);
  }

  lemma SpoilerParts(c: Config, later: real, back: real)
    requires ValidConfig(c)
    ensures var calls := Spoiler(c, later, back);
            && calls[0] == Call("k", 0.0)
            && calls[1..] == Repeat(0.0, c.burst - 1)
                             + ((Fill(0, KEY_LIMIT) + [Call(Name(0), later)]) + Repeat(back, c.burst))
  {
    Regroup(Repeat(0.0, c.burst), Fill(0, KEY_LIMIT), [Call(Name(0), later)], Repeat(back, c.burst));
    assert Repeat(0.0, c.burst)[1..] == Repeat(0.0, c.burst - 1);
  }

  lemma Regroup(a: seq<Call>, b: seq<Call>, one: seq<Call>, d: seq<Call>)
    requires a != []
    ensures (a + (b + (one + d)))[0] == a[0] && (a + (b + (one + d)))[1..] == a[1..] + ((b + one) + d)
  {
  }

  lemma LastEarns(c: Config, back: real)
    requires ValidConfig(c)
    ensures EarnedFrom(c, Repeat(back, c.burst), "k", 0.0) == Gain(c, 0.0, back)
  {
    RepeatEarns(c, back, c.burst - 1);
    assert Repeat(back, c.burst)[1..] == Repeat(back, c.burst - 1);
  }

  lemma IdleIsPositive(whole: int)
    ensures IdleSeconds(whole) > 0.0
  {
  }

  lemma SpoilerSeen(c: Config, late: real)
    requires ValidConfig(c) && late >= 0.0 && !Covers(c, late)
    ensures exists calls :: Late(calls, late) && Answers(c, map[], calls) != PlainAnswers(c, map[], calls)
  {
    var idle, full := IdleSeconds(IdleWhole(c)), c.burst as real / c.rate;
    var later := (idle + full + late) / 2.0;
    var back := later - late;
    var calls := Spoiler(c, later, back);
    IdleIsPositive(IdleWhole(c));
    SpoilerLate(c, later, back, late);
    SpoilerGetsTwo(c, later, back);
    RunPays(c, map[], calls, "k");
    SpoilerEarns(c, later, back);
    EarlierIsLess(c, back, full);
    assert Late(calls, late) && Answers(c, map[], calls) != PlainAnswers(c, map[], calls);
  }

  lemma EarlierIsLess(c: Config, at: real, full: real)
    requires ValidConfig(c) && full == c.burst as real / c.rate && at < full
    ensures Gain(c, 0.0, at) < c.burst as real
  {
    assert full * c.rate == c.burst as real;
    if at > 0.0 {
      Scale(full, at, c.rate);
      assert Gain(c, 0.0, at) == at * c.rate;
    }
  }

  /** The collector is invisible in every run exactly when the idle time covers the refill time and the lateness. */
  lemma CollectorUnseenExactly(c: Config, late: real)
    requires ValidConfig(c) && late >= 0.0
    ensures (forall calls :: Late(calls, late) ==> Answers(c, map[], calls) == PlainAnswers(c, map[], calls))
       <==> IdleSeconds(IdleWhole(c)) >= c.burst as real / c.rate + late
  {
    if Covers(c, late) {
      forall calls | Late(calls, late)
        ensures Answers(c, map[], calls) == PlainAnswers(c, map[], calls)
      {
        CollectorUnseen(c, calls, late);
      }
    } else {
      SpoilerSeen(c, late);
    }
  }

  /** In runs served in the order of their times that is when 1.5 times the refill time, in whole seconds, can be
    * expressed in 64 bits of nanoseconds; and then nineteen seconds of lateness do no harm either. */
  lemma CollectorUnseenInOrder(c: Config)
    requires ValidConfig(c) && IdleWhole(c) < 0x8000_0000_0000_0000
    ensures (forall calls :: Late(calls, 0.0) ==> Answers(c, map[], calls) == PlainAnswers(c, map[], calls))
       <==> IdleWhole(c) <= 9223372036
    ensures IdleWhole(c) <= 9223372036 ==> Covers(c, 19.0)
  {
    CollectorUnseenExactly(c, 0.0);
    IdleCoversRefill(IdleWhole(c), c.burst as real / c.rate);
    if IdleWhole(c) <= 9223372036 { IdleLeavesRoom(c); }
  }
}
