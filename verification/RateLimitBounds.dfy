/** Bounds of the token bucket over whole runs of calls, and why collecting keys cannot be observed. Callers read
  * the clock before they take the lock, so that a call's time may lie before the time of a call that was served
  * earlier; the bounds say what this costs. */
module RateLimitBounds {
  import opened RateLimit

  datatype Call = Call(key: string, at: real)

  /** In serving order, no call is more than late older than an earlier one. */
  ghost predicate Late(calls: seq<Call>, late: real) {
    forall i, j :: 0 <= i < j < |calls| ==> calls[i].at - late <= calls[j].at
  }

  /** The limiter without a collector after a sequence of calls. */
  function Plain(c: Config, bs: Buckets, calls: seq<Call>): Buckets
    decreases |calls|
  {
    if calls == [] then bs else Plain(c, Taken(c, bs, calls[0].key, calls[0].at).0, calls[1..])
  }

  function PlainAnswers(c: Config, bs: Buckets, calls: seq<Call>): seq<bool>
    decreases |calls|
  {
    if calls == [] then []
    else [Taken(c, bs, calls[0].key, calls[0].at).1] + PlainAnswers(c, Taken(c, bs, calls[0].key, calls[0].at).0, calls[1..])
  }

  /** The limiter as it is. */
  function Answers(c: Config, bs: Buckets, calls: seq<Call>): seq<bool>
    requires c.rate != 0.0
    decreases |calls|
  {
    if calls == [] then []
    else [Allowed(c, bs, calls[0].key, calls[0].at).1] + Answers(c, Allowed(c, bs, calls[0].key, calls[0].at).0, calls[1..])
  }

  function Accepted(calls: seq<Call>, answers: seq<bool>, key: string): nat
    requires |calls| == |answers|
    decreases |calls|
  {
    if calls == [] then 0
    else (if answers[0] && calls[0].key == key then 1 else 0) + Accepted(calls[1..], answers[1..], key)
  }

  lemma {:induction false} AnswersLength(c: Config, bs: Buckets, calls: seq<Call>)
    ensures |PlainAnswers(c, bs, calls)| == |calls|
    ensures c.rate != 0.0 ==> |Answers(c, bs, calls)| == |calls|
    decreases |calls|
  {
    if calls != [] {
      AnswersLength(c, Taken(c, bs, calls[0].key, calls[0].at).0, calls[1..]);
      if c.rate != 0.0 { AnswersLength(c, Allowed(c, bs, calls[0].key, calls[0].at).0, calls[1..]); }
    }
  }

  // ----- what a key earns -----

  /** What a bucket last used at last earns until at: nothing if the clock went back. */
  function Gain(c: Config, last: real, at: real): real {
    if at > last then c.rate * (at - last) else 0.0
  }

  /** The rate times the forward steps between the times of the key's calls, in serving order, after a call at last. */
  function EarnedFrom(c: Config, calls: seq<Call>, key: string, last: real): real
    decreases |calls|
  {
    if calls == [] then 0.0
    else if calls[0].key == key then Gain(c, last, calls[0].at) + EarnedFrom(c, calls[1..], key, calls[0].at)
    else EarnedFrom(c, calls[1..], key, last)
  }

  /** The same over all calls of the key: the first one earns nothing. */
  function Earned(c: Config, calls: seq<Call>, key: string): real
    decreases |calls|
  {
    if calls == [] then 0.0
    else if calls[0].key == key then EarnedFrom(c, calls[1..], key, calls[0].at)
    else Earned(c, calls[1..], key)
  }

  /** How often a call of the key is served after one of its calls that is newer. */
  function BacksFrom(calls: seq<Call>, key: string, last: real): nat
    decreases |calls|
  {
    if calls == [] then 0
    else if calls[0].key == key then (if calls[0].at < last then 1 else 0) + BacksFrom(calls[1..], key, calls[0].at)
    else BacksFrom(calls[1..], key, last)
  }

  function Backs(calls: seq<Call>, key: string): nat
    decreases |calls|
  {
    if calls == [] then 0
    else if calls[0].key == key then BacksFrom(calls[1..], key, calls[0].at)
    else Backs(calls[1..], key)
  }

  ghost predicate Until(calls: seq<Call>, end: real) {
    forall i :: 0 <= i < |calls| ==> calls[i].at <= end
  }

  ghost predicate NotBefore(calls: seq<Call>, start: real) {
    forall i :: 0 <= i < |calls| ==> start <= calls[i].at
  }

  /** What the rate is worth over a time. */
  function Value(c: Config, time: real): real {
    c.rate * time
  }

  /** n times x. */
  function Sum(x: real, n: nat): real {
    if n == 0 then 0.0 else x + Sum(x, n - 1)
  }

  lemma ValueGrows(c: Config, a: real, b: real)
    requires ValidConfig(c) && a <= b
    ensures Value(c, a) <= Value(c, b) && Value(c, b) - Value(c, a) == Value(c, b - a)
  {
    assert c.rate * (b - a) >= 0.0;
  }

  /** A step earns what the clock moves, and a step back is worth at most the lateness less. */
  lemma GainStep(c: Config, last: real, at: real, late: real)
    requires ValidConfig(c) && last - at <= late
    ensures Gain(c, last, at) <= Value(c, at) - Value(c, last) + if at < last then Value(c, late) else 0.0
  {
    if at < last {
      ValueGrows(c, at, last);
      ValueGrows(c, last - at, late);
    } else {
      ValueGrows(c, last, at);
    }
  }

  lemma {:induction false} EarnedFromLate(c: Config, calls: seq<Call>, key: string, last: real, late: real, end: real)
    requires ValidConfig(c) && Late(calls, late) && NotBefore(calls, last - late) && Until(calls, end) && last <= end
    ensures EarnedFrom(c, calls, key, last)
            <= Value(c, end) - Value(c, last) + Sum(Value(c, late), BacksFrom(calls, key, last))
    decreases |calls|
  {
    if calls == [] {
      ValueGrows(c, last, end);
    } else if calls[0].key == key {
      EarnedFromLate(c, calls[1..], key, calls[0].at, late, end);
      GainStep(c, last, calls[0].at, late);
    } else {
      EarnedFromLate(c, calls[1..], key, last, late, end);
    }
  }

  /** A key earns at most the rate times the length of the interval, and the rate times the lateness once for
    * each of its calls that was overtaken. */
  lemma {:induction false} EarnedLate(c: Config, calls: seq<Call>, key: string, late: real, start: real, end: real)
    requires ValidConfig(c) && Late(calls, late) && NotBefore(calls, start) && Until(calls, end) && start <= end
    ensures Earned(c, calls, key) <= Value(c, end - start) + Sum(Value(c, late), Backs(calls, key))
    decreases |calls|
  {
    ValueGrows(c, start, end);
    if calls == [] {
      ValueGrows(c, 0.0, end - start);
    } else if calls[0].key == key {
      EarnedFromLate(c, calls[1..], key, calls[0].at, late, end);
      ValueGrows(c, start, calls[0].at);
    } else {
      EarnedLate(c, calls[1..], key, late, start, end);
    }
  }

  // ----- the rate bound -----

  /** Token counts lie between 0 and the burst. */
  ghost predicate Sound(c: Config, bs: Buckets) {
    forall k :: k in bs ==> 0.0 <= bs[k].tokens <= c.burst as real
  }

  lemma Positive(a: real, b: real)
    requires a >= 0.0 && b >= 0.0
    ensures a * b >= 0.0
  {
  }

  lemma RefillBound(c: Config, b: Bucket, at: real)
    requires ValidConfig(c) && 0.0 <= b.tokens <= c.burst as real
    ensures 0.0 <= Refill(c, b, at) <= c.burst as real
    ensures Refill(c, b, at) <= b.tokens + Gain(c, b.last, at)
  {
    if at > b.last {
      var gain := (at - b.last) * c.rate;
      Positive(at - b.last, c.rate);
      assert gain >= 0.0 && gain == Gain(c, b.last, at);
      assert at - b.last > 0.0;
      assert Refill(c, b, at) == if b.tokens + gain > c.burst as real then c.burst as real else b.tokens + gain;
    }
  }

  lemma TakenKeepsSound(c: Config, bs: Buckets, key: string, at: real)
    requires ValidConfig(c) && Sound(c, bs)
    ensures Sound(c, Taken(c, bs, key, at).0)
  {
    if key in bs { RefillBound(c, bs[key], at); }
  }

  lemma TailAnswers(c: Config, bs: Buckets, calls: seq<Call>)
    requires calls != []
    ensures var r := Taken(c, bs, calls[0].key, calls[0].at);
            PlainAnswers(c, bs, calls) == [r.1] + PlainAnswers(c, r.0, calls[1..])
  {
  }

  lemma AcceptedTail(calls: seq<Call>, ok: bool, answers: seq<bool>, key: string)
    requires |calls| == |answers| + 1
    ensures Accepted(calls, [ok] + answers, key) == Accepted(calls[1..], answers, key) + if ok && calls[0].key == key then 1 else 0
  {
    assert ([ok] + answers)[1..] == answers;
  }

  /** A call of the key: its token and what it leaves come from the bucket and the step to it. */
  lemma CallPays(c: Config, bs: Buckets, key: string, at: real)
    requires ValidConfig(c) && Sound(c, bs) && key in bs
    ensures var r := Taken(c, bs, key, at);
            r.0[key].last == at && (if r.1 then 1.0 else 0.0) + r.0[key].tokens <= bs[key].tokens + Gain(c, bs[key].last, at)
  {
    RefillBound(c, bs[key], at);
  }

  /** From a stored bucket on, the accepted calls are paid for by its tokens and by what the climb earns. */
  lemma {:induction false} BucketPays(c: Config, bs: Buckets, calls: seq<Call>, key: string)
    requires ValidConfig(c) && Sound(c, bs) && key in bs
    ensures |PlainAnswers(c, bs, calls)| == |calls|
    ensures Accepted(calls, PlainAnswers(c, bs, calls), key) as real
            <= bs[key].tokens + EarnedFrom(c, calls, key, bs[key].last)
    decreases |calls|
  {
    AnswersLength(c, bs, calls);
    if calls != [] {
      var r := Taken(c, bs, calls[0].key, calls[0].at);
      TakenKeepsSound(c, bs, calls[0].key, calls[0].at);
      BucketPays(c, r.0, calls[1..], key);
      TailAnswers(c, bs, calls);
      AcceptedTail(calls, r.1, PlainAnswers(c, r.0, calls[1..]), key);
      if calls[0].key == key { CallPays(c, bs, key, calls[0].at); }
    }
  }

  /** Without a collector, and whatever the order of the times: the calls of a key get at most the burst and what
    * the key earns. */
  lemma {:induction false} RunPays(c: Config, bs: Buckets, calls: seq<Call>, key: string)
    requires ValidConfig(c) && Sound(c, bs)
    ensures |PlainAnswers(c, bs, calls)| == |calls|
    ensures Accepted(calls, PlainAnswers(c, bs, calls), key) as real <= c.burst as real + Earned(c, calls, key)
    decreases |calls|
  {
    AnswersLength(c, bs, calls);
    if calls != [] {
      var r := Taken(c, bs, calls[0].key, calls[0].at);
      TakenKeepsSound(c, bs, calls[0].key, calls[0].at);
      TailAnswers(c, bs, calls);
      AcceptedTail(calls, r.1, PlainAnswers(c, r.0, calls[1..]), key);
      if calls[0].key == key {
        BucketPays(c, r.0, calls[1..], key);
        FirstCallPays(c, bs, key, calls[0].at);
      } else {
        RunPays(c, r.0, calls[1..], key);
      }
    }
  }

  lemma FirstCallPays(c: Config, bs: Buckets, key: string, at: real)
    requires ValidConfig(c) && Sound(c, bs)
    ensures var r := Taken(c, bs, key, at);
            r.0[key].last == at && (if r.1 then 1.0 else 0.0) + r.0[key].tokens <= c.burst as real
  {
    if key in bs { RefillBound(c, bs[key], at); }
  }

  lemma {:induction false} PlainSplit(c: Config, bs: Buckets, calls: seq<Call>, i: nat)
    requires i <= |calls|
    ensures PlainAnswers(c, bs, calls) == PlainAnswers(c, bs, calls[..i]) + PlainAnswers(c, Plain(c, bs, calls[..i]), calls[i..])
    decreases i
  {
    if i > 0 {
      PlainSplit(c, Taken(c, bs, calls[0].key, calls[0].at).0, calls[1..], i - 1);
      assert calls[..i][1..] == calls[1..][..i - 1] && calls[i..] == calls[1..][i - 1..];
    } else {
      assert calls[..0] == [] && calls[0..] == calls;
    }
  }

  lemma {:induction false} PlainSound(c: Config, bs: Buckets, calls: seq<Call>)
    requires ValidConfig(c) && Sound(c, bs)
    ensures Sound(c, Plain(c, bs, calls))
    decreases |calls|
  {
    if calls != [] {
      TakenKeepsSound(c, bs, calls[0].key, calls[0].at);
      PlainSound(c, Taken(c, bs, calls[0].key, calls[0].at).0, calls[1..]);
    }
  }

  lemma PlainSlice(c: Config, calls: seq<Call>, i: nat, j: nat)
    requires i < j <= |calls|
    ensures |PlainAnswers(c, map[], calls)| == |calls|
    ensures PlainAnswers(c, map[], calls)[i..j] == PlainAnswers(c, Plain(c, map[], calls[..i]), calls[i..j])
  {
    var bs := Plain(c, map[], calls[..i]);
    AnswersLength(c, map[], calls);
    AnswersLength(c, map[], calls[..i]);
    PlainSplit(c, map[], calls, i);
    PlainSplit(c, bs, calls[i..], j - i);
    AnswersLength(c, bs, calls[i..][..j - i]);
    assert calls[i..][..j - i] == calls[i..j];
    Middle(PlainAnswers(c, map[], calls[..i]), PlainAnswers(c, bs, calls[i..j]),
           PlainAnswers(c, Plain(c, bs, calls[i..j]), calls[i..][j - i..]), i, j);
  }

  lemma Middle(a: seq<bool>, b: seq<bool>, d: seq<bool>, i: nat, j: nat)
    requires |a| == i <= j && |b| == j - i
    ensures (a + (b + d))[i..j] == b
  {
  }

  /** The same for any stretch of a run from the start. */
  lemma PlainBound(c: Config, calls: seq<Call>, i: nat, j: nat, key: string)
    requires ValidConfig(c) && i < j <= |calls|
    ensures |PlainAnswers(c, map[], calls)| == |calls|
    ensures Accepted(calls[i..j], PlainAnswers(c, map[], calls)[i..j], key) as real
            <= c.burst as real + Earned(c, calls[i..j], key)
  {
    PlainSlice(c, calls, i, j);
    PlainSound(c, map[], calls[..i]);
    RunPays(c, Plain(c, map[], calls[..i]), calls[i..j], key);
  }

  // ----- the collector -----

  /** The collector drops a bucket no earlier than it would be full again, exactly as long as the idle time
    * fits into 64 bits of nanoseconds. */
  lemma IdleCoversRefill(whole: int, refill: real)
    requires refill > 0.0 && whole as real <= refill * 1.5 < (whole + 1) as real
    requires whole < 0x8000_0000_0000_0000
    ensures IdleSeconds(whole) >= refill <==> whole <= 9223372036
  {
    var ns := whole * 1_000_000_000;
    if whole <= 9223372036 {
      assert Wrap64(ns) == ns;
    } else if whole < 13835058056 {
      assert Wrap64(ns) == ns - 0x1_0000_0000_0000_0000;
    } else {
      assert Wrap64(ns) < 0x8000_0000_0000_0000;
      assert refill * 1.5 >= 13835058056.0;
    }
  }

  /** Then the idle time leaves room for nineteen seconds of lateness. */
  lemma IdleLeavesRoom(c: Config)
    requires ValidConfig(c) && IdleWhole(c) <= 9223372036
    ensures IdleSeconds(IdleWhole(c)) >= c.burst as real / c.rate + 19.0
  {
    var whole, refill := IdleWhole(c), c.burst as real / c.rate;
    var ns := whole * 1_000_000_000;
    assert Wrap64(ns) == ns;
    assert refill * 1.5 < whole as real + 1.0;
    assert IdleSeconds(whole) == if whole < 60 then 60.0 else whole as real;
  }

  /** small is big without some buckets that are full again at every time from now on. */
  ghost predicate Collects(c: Config, small: Buckets, big: Buckets, now: real) {
    && (forall k :: k in small ==> k in big && small[k] == big[k])
    && (forall k :: k in big && k !in small ==> FullAgain(c, big[k], now))
  }

  ghost predicate FullAgain(c: Config, b: Bucket, now: real) {
    b.tokens >= 0.0 && now - b.last > 0.0 && b.tokens + (now - b.last) * c.rate >= c.burst as real
  }

  lemma FullLater(c: Config, b: Bucket, now: real, later: real)
    requires ValidConfig(c) && FullAgain(c, b, now) && now <= later
    ensures FullAgain(c, b, later)
  {
    Positive(later - now, c.rate);
    Apart(b.last, now, later, c.rate);
  }

  lemma Apart(a: real, b: real, d: real, r: real)
    ensures (d - a) * r == (b - a) * r + (d - b) * r
  {
  }

  lemma CollectsLater(c: Config, small: Buckets, big: Buckets, now: real, later: real)
    requires ValidConfig(c) && Collects(c, small, big, now) && now <= later
    ensures Collects(c, small, big, later)
  {
    forall k | k in big && k !in small
      ensures FullAgain(c, big[k], later)
    {
      FullLater(c, big[k], now, later);
    }
  }

  lemma IdleFills(c: Config, b: Bucket, now: real, full: real)
    requires ValidConfig(c) && b.tokens >= 0.0 && full * c.rate == c.burst as real && now - b.last > full
    ensures FullAgain(c, b, now)
  {
    var e := now - b.last;
    Scale(e, full, c.rate);
    assert full > 0.0;
    assert e * c.rate >= c.burst as real;
  }

  lemma Scale(e: real, f: real, r: real)
    requires e > f && r > 0.0
    ensures e * r > f * r
    ensures f * r > 0.0 ==> f > 0.0
  {
    assert e * r == f * r + (e - f) * r;
    assert (e - f) * r > 0.0;
  }

  /** What the collector drops at one time is full again at every time that is at most late before it. */
  lemma CollectOne(c: Config, small: Buckets, big: Buckets, now: real, at: real, late: real, idle: real)
    requires ValidConfig(c) && Collects(c, small, big, now) && Sound(c, big) && at - late <= now
    requires idle >= c.burst as real / c.rate + late
    ensures Collects(c, Collected(small, idle, at), big, now)
  {
    var full := c.burst as real / c.rate;
    assert full * c.rate == c.burst as real;
    forall k | k in big && k !in Collected(small, idle, at)
      ensures FullAgain(c, big[k], now)
    {
      if k in small { IdleFills(c, big[k], now, full); }
    }
  }

  lemma SameAvailable(c: Config, small: Buckets, big: Buckets, key: string, now: real)
    requires Collects(c, small, big, now)
    ensures Available(c, small, key, now) == Available(c, big, key, now)
  {
  }

  lemma SameTake(c: Config, small: Buckets, big: Buckets, key: string, now: real, at: real)
    requires ValidConfig(c) && Collects(c, small, big, now) && now <= at
    ensures Taken(c, small, key, at).1 == Taken(c, big, key, at).1
    ensures Collects(c, Taken(c, small, key, at).0, Taken(c, big, key, at).0, now)
  {
    CollectsLater(c, small, big, now, at);
    SameAvailable(c, small, big, key, at);
    var s', b' := Taken(c, small, key, at).0, Taken(c, big, key, at).0;
    forall k | k in b' && k !in s'
      ensures FullAgain(c, b'[k], now)
    {
      assert k in big && k !in small && b'[k] == big[k];
    }
  }

  function Latest(latest: real, at: real): real {
    if latest <= at then at else latest
  }

  /** The idle time covers the refill time and the lateness. */
  ghost predicate Covers(c: Config, late: real) {
    c.rate > 0.0 && IdleSeconds(IdleWhole(c)) >= c.burst as real / c.rate + late
  }

  lemma KeptUnseen(c: Config, small: Buckets, big: Buckets, key: string, now: real, at: real, late: real, idle: real)
    requires ValidConfig(c) && idle >= c.burst as real / c.rate + late && at - late <= now <= at
    requires Collects(c, small, big, now) && Sound(c, big)
    ensures var kept := if |small| > KEY_LIMIT then Collected(small, idle, at) else small;
            && Taken(c, kept, key, at).1 == Taken(c, big, key, at).1
            && Collects(c, Taken(c, kept, key, at).0, Taken(c, big, key, at).0, now)
  {
    if |small| > KEY_LIMIT { CollectOne(c, small, big, now, at, late, idle); }
    SameTake(c, if |small| > KEY_LIMIT then Collected(small, idle, at) else small, big, key, now, at);
  }

  lemma OneCallUnseen(c: Config, small: Buckets, big: Buckets, latest: real, key: string, at: real, late: real)
    requires ValidConfig(c) && late >= 0.0 && Covers(c, late) && latest - late <= at
    requires Collects(c, small, big, latest - late) && Sound(c, big)
    ensures Allowed(c, small, key, at).1 == Taken(c, big, key, at).1
    ensures Collects(c, Allowed(c, small, key, at).0, Taken(c, big, key, at).0, Latest(latest, at) - late)
  {
    var now := Latest(latest, at) - late;
    CollectsLater(c, small, big, latest - late, now);
    KeptUnseen(c, small, big, key, now, at, late, IdleSeconds(IdleWhole(c)));
  }

  lemma {:induction false} CollectorUnseenFrom(c: Config, small: Buckets, big: Buckets, latest: real, calls: seq<Call>, late: real)
    requires ValidConfig(c) && late >= 0.0 && Covers(c, late)
    requires Collects(c, small, big, latest - late) && Sound(c, big)
    requires Late(calls, late) && NotBefore(calls, latest - late)
    ensures Answers(c, small, calls) == PlainAnswers(c, big, calls)
    decreases |calls|
  {
    if calls != [] {
      var key, at := calls[0].key, calls[0].at;
      OneCallUnseen(c, small, big, latest, key, at, late);
      TakenKeepsSound(c, big, key, at);
      CollectorUnseenFrom(c, Allowed(c, small, key, at).0, Taken(c, big, key, at).0, Latest(latest, at), calls[1..], late);
    }
  }

  /** The limiter with its collector answers every call of every run like one that never collects, if the idle
    * time covers the refill time and the lateness. */
  lemma CollectorUnseen(c: Config, calls: seq<Call>, late: real)
    requires ValidConfig(c) && late >= 0.0 && Covers(c, late) && Late(calls, late)
    ensures Answers(c, map[], calls) == PlainAnswers(c, map[], calls)
  {
    CollectorUnseenFrom(c, map[], map[], if calls == [] then 0.0 else calls[0].at, calls, late);
  }

  /** Hence the limiter as it is accepts, of the calls of a key in any stretch of a run, at most the burst and what
    * the key earns there; and that is at most the rate times the length of the interval the calls lie in, and the
    * rate times the lateness once for each call of the key that was overtaken. */
  lemma RateBound(c: Config, calls: seq<Call>, i: nat, j: nat, key: string, late: real, start: real, end: real)
    requires ValidConfig(c) && late >= 0.0 && Covers(c, late) && Late(calls, late) && i < j <= |calls|
    requires NotBefore(calls[i..j], start) && Until(calls[i..j], end)
    ensures |Answers(c, map[], calls)| == |calls|
    ensures Accepted(calls[i..j], Answers(c, map[], calls)[i..j], key) as real
            <= c.burst as real + Earned(c, calls[i..j], key)
    ensures Earned(c, calls[i..j], key) <= Value(c, end - start) + Sum(Value(c, late), Backs(calls[i..j], key))
  {
    CollectorUnseen(c, calls, late);
    PlainBound(c, calls, i, j, key);
    assert start <= calls[i..j][0].at <= end;
    EarnedLate(c, calls[i..j], key, late, start, end);
  }

  lemma {:induction false} SumOfNothing(n: nat)
    ensures Sum(0.0, n) == 0.0
  {
    if n > 0 { SumOfNothing(n - 1); }
  }

  /** Served in the order of their times, the calls of a key in an interval get at most burst + rate * length, for
    * every idle time that fits into 64 bits of nanoseconds. */
  lemma RateBoundInOrder(c: Config, calls: seq<Call>, i: nat, j: nat, key: string, start: real, end: real)
    requires ValidConfig(c) && IdleWhole(c) <= 9223372036 && Late(calls, 0.0) && i < j <= |calls|
    requires NotBefore(calls[i..j], start) && Until(calls[i..j], end)
    ensures |Answers(c, map[], calls)| == |calls|
    ensures Accepted(calls[i..j], Answers(c, map[], calls)[i..j], key) as real <= c.burst as real + c.rate * (end - start)
  {
    IdleLeavesRoom(c);
    CollectorUnseen(c, calls, 0.0);
    PlainBound(c, calls, i, j, key);
    EarnedInOrder(c, calls[i..j], key, start, end);
  }

  lemma EarnedInOrder(c: Config, calls: seq<Call>, key: string, start: real, end: real)
    requires ValidConfig(c) && Late(calls, 0.0) && NotBefore(calls, start) && Until(calls, end) && calls != []
    ensures Earned(c, calls, key) <= c.rate * (end - start)
  {
    assert start <= calls[0].at <= end;
    EarnedLate(c, calls, key, 0.0, start, end);
    SumOfNothing(Backs(calls, key));
  }
}
