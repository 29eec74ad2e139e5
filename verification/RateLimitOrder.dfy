/** Exactly when the nominal bound of the token bucket, burst + rate * length for every interval, holds: when calls
  * are served in the order of their times and the collector's idle time fits. */
module RateLimitOrder {
  import opened RateLimit
  import opened RateLimitBounds
  import opened RateLimitRuns
  import opened RateLimitCollector

  // ----- going back and forth -----

  /** Two moments taken in turns. */
  function BackAndForth(d: real, n: nat): seq<Call> {
    if n == 0 then [] else Turn(d) + BackAndForth(d, n - 1)
  }

  function Turn(d: real): seq<Call> {
    [Call("k", d), Call("k", 0.0)]
  }

  ghost predicate Inside(calls: seq<Call>, d: real) {
    forall i :: 0 <= i < |calls| ==> calls[i].key == "k" && 0.0 <= calls[i].at <= d
  }

  lemma {:induction false} TurnsInside(d: real, n: nat)
    requires d > 0.0
    ensures Inside(BackAndForth(d, n), d)
  {
    if n > 0 { TurnsInside(d, n - 1); }
  }

  lemma InsideIsLate(calls: seq<Call>, d: real)
    requires Inside(calls, d)
    ensures Late(calls, d) && NotBefore(calls, 0.0) && Until(calls, d)
  {
  }

  /** The only bucket, last used at this time. */
  function One(tokens: real, last: real): Buckets {
    map["k" := Bucket(tokens, last)]
  }

  function Token(tokens: real): nat {
    if tokens >= 1.0 then 1 else 0
  }

  function Capped(c: Config, tokens: real): real {
    if tokens > c.burst as real then c.burst as real else tokens
  }

  /** What is left of the only bucket once a call found this many tokens. */
  function Spent(tokens: real): real {
    tokens - Token(tokens) as real
  }

  /** A step forward by the lateness earns gain, and the step back earns nothing. */
  ghost predicate Swings(step: Stepper, c: Config, d: real, gain: real) {
    forall tokens :: 0.0 <= tokens <= c.burst as real ==> SwingsFrom(step, c, d, gain, tokens)
  }

  ghost predicate SwingsFrom(step: Stepper, c: Config, d: real, gain: real, tokens: real) {
    Answered(step, tokens, 0.0, d, Capped(c, tokens + gain)) && Answered(step, tokens, d, 0.0, tokens)
  }

  /** A call at a time finds this many tokens and takes one if it can. */
  ghost predicate Answered(step: Stepper, tokens: real, last: real, at: real, found: real) {
    step(One(tokens, last), Call("k", at)) == (One(Spent(found), at), found >= 1.0)
  }

  lemma OneKeyCall(c: Config, tokens: real, last: real, at: real, found: real)
    requires ValidConfig(c) && Refill(c, Bucket(tokens, last), at) == found
    ensures Answered(AsIs(c), tokens, last, at, found)
  {
    var bs := One(tokens, last);
    assert |bs| == 1;
    var b := Bucket(Spent(found), at);
    assert bs["k" := b] == One(Spent(found), at);
  }

  lemma ForwardRefill(c: Config, tokens: real, d: real)
    requires ValidConfig(c) && d > 0.0
    ensures Refill(c, Bucket(tokens, 0.0), d) == Capped(c, tokens + Value(c, d))
  {
    assert (d - 0.0) * c.rate == c.rate * d;
  }

  lemma AsIsSwings(c: Config, d: real)
    requires ValidConfig(c) && d > 0.0
    ensures Swings(AsIs(c), c, d, Value(c, d))
  {
    forall tokens | 0.0 <= tokens <= c.burst as real
      ensures SwingsFrom(AsIs(c), c, d, Value(c, d), tokens)
    {
      ForwardRefill(c, tokens, d);
      OneKeyCall(c, tokens, 0.0, d, Capped(c, tokens + Value(c, d)));
      OneKeyCall(c, tokens, d, 0.0, tokens);
    }
  }

  function Least(a: real, b: real): real {
    if a <= b then a else b
  }

  /** One turn: what it leaves and what it accepts. Twice the acceptances and the tokens left grow by the gain, or by
    * one if the bucket runs over. */
  lemma OneTurn(step: Stepper, c: Config, tokens: real, d: real, gain: real) returns (next: real)
    requires c.burst >= 1 && 0.0 <= tokens <= c.burst as real && gain > 0.0 && Swings(step, c, d, gain)
    ensures 0.0 <= next <= c.burst as real && State(step, One(tokens, 0.0), Turn(d)) == One(next, 0.0)
    ensures (2 * Got(step, One(tokens, 0.0), Turn(d))) as real + next >= tokens + Least(gain, 1.0)
  {
    var full := Capped(c, tokens + gain);
    var mid := Spent(full);
    next := Spent(mid);
    assert SwingsFrom(step, c, d, gain, tokens) && SwingsFrom(step, c, d, gain, mid);
    TurnGot(step, tokens, d, full, mid);
  }

  lemma TurnGot(step: Stepper, tokens: real, d: real, full: real, mid: real)
    requires mid == Spent(full) && Answered(step, tokens, 0.0, d, full) && Answered(step, mid, d, 0.0, mid)
    ensures Got(step, One(tokens, 0.0), Turn(d)) == Token(full) + Token(mid)
    ensures State(step, One(tokens, 0.0), Turn(d)) == One(Spent(mid), 0.0)
  {
    assert Turn(d)[1..] == [Call("k", 0.0)] && [Call("k", 0.0)][1..] == [];
  }

  lemma {:induction false} TurnsAccepted(step: Stepper, c: Config, tokens: real, d: real, gain: real, n: nat)
    requires c.burst >= 1 && 0.0 <= tokens <= c.burst as real && gain > 0.0 && Swings(step, c, d, gain)
    ensures (2 * Got(step, One(tokens, 0.0), BackAndForth(d, n))) as real + c.burst as real
            >= tokens + Sum(Least(gain, 1.0), n)
    decreases n
  {
    if n > 0 {
      var next := OneTurn(step, c, tokens, d, gain);
      TurnsAccepted(step, c, next, d, gain, n - 1);
      Concat(step, One(tokens, 0.0), Turn(d), BackAndForth(d, n - 1));
    }
  }

  // ----- any number of calls -----

  lemma {:induction false} SumIsProduct(x: real, n: nat)
    ensures Sum(x, n) == x * n as real
  {
    if n > 0 {
      SumIsProduct(x, n - 1);
      assert x * n as real == x * (n - 1) as real + x;
    }
  }

  /** A positive amount, added often enough, reaches every goal. */
  lemma Enough(x: real, goal: real) returns (n: nat)
    requires x > 0.0 && goal >= 0.0
    ensures Sum(x, n) >= goal
  {
    n := (goal / x).Floor + 1;
    SumIsProduct(x, n);
    Reaches(x, goal, goal / x, n as real);
  }

  lemma Reaches(x: real, goal: real, q: real, n: real)
    requires x > 0.0 && q == goal / x && n >= q
    ensures x * n >= goal
  {
    assert x * q == goal;
    Positive(x, n - q);
    assert x * n == x * q + x * (n - q);
  }

  /** A call to store the key, then turns. */
  function Swing(d: real, n: nat): seq<Call> {
    [Call("k", 0.0)] + BackAndForth(d, n)
  }

  /** If calls may be served out of order at all, any number of them is accepted within that lateness. */
  lemma OrderMatters(c: Config, d: real, n: nat) returns (calls: seq<Call>)
    requires ValidConfig(c) && d > 0.0
    ensures calls != [] && Late(calls, d) && NotBefore(calls, 0.0) && Until(calls, d)
    ensures |Answers(c, map[], calls)| == |calls| && Accepted(calls, Answers(c, map[], calls), "k") >= n
  {
    var gain, step := Value(c, d), AsIs(c);
    Positive(c.rate, d);
    GainIsPositive(c, d);
    var turns := Enough(Least(gain, 1.0), (2 * n + c.burst) as real);
    calls := Swing(d, turns);
    TurnsInside(d, turns);
    InsideIsLate(calls, d);
    AsIsSwings(c, d);
    StoresKey(c, d, turns);
    TurnsAccepted(step, c, c.burst as real - 1.0, d, gain, turns);
    GotIsAccepted(c, map[], calls);
  }

  lemma GainIsPositive(c: Config, d: real)
    requires ValidConfig(c) && d > 0.0
    ensures Value(c, d) > 0.0
  {
  }

  lemma StoresKey(c: Config, d: real, turns: nat)
    requires ValidConfig(c)
    ensures Got(AsIs(c), map[], Swing(d, turns)) >= Got(AsIs(c), One(c.burst as real - 1.0, 0.0), BackAndForth(d, turns))
  {
    FirstOfBurst(c, map[], 0.0);
    assert map["k" := Bucket(c.burst as real - 1.0, 0.0)] == One(c.burst as real - 1.0, 0.0);
    assert Swing(d, turns)[1..] == BackAndForth(d, turns);
  }

  // ----- the nominal bound -----

  /** A stretch of a run, all of it within an interval. */
  ghost predicate Stretch(calls: seq<Call>, late: real, i: nat, j: nat, start: real, end: real) {
    Late(calls, late) && i < j <= |calls| && NotBefore(calls[i..j], start) && Until(calls[i..j], end)
  }

  ghost predicate WithinBound(c: Config, calls: seq<Call>, i: nat, j: nat, key: string, start: real, end: real)
    requires c.rate != 0.0 && i < j <= |calls|
  {
    && |Answers(c, map[], calls)| == |calls|
    && Accepted(calls[i..j], Answers(c, map[], calls)[i..j], key) as real <= c.burst as real + c.rate * (end - start)
  }

  /** In every run with this lateness, the calls of a key in an interval get at most burst + rate * length. */
  ghost predicate NominalBound(c: Config, late: real)
    requires c.rate != 0.0
  {
    forall calls, i: nat, j: nat, key, start, end :: Stretch(calls, late, i, j, start, end) ==>
      WithinBound(c, calls, i, j, key, start, end)
  }

  /** A run from the start that has too many calls accepted between 0 and end. */
  lemma Breaks(c: Config, late: real, calls: seq<Call>, end: real)
    requires ValidConfig(c) && calls != [] && Late(calls, late) && NotBefore(calls, 0.0) && Until(calls, end)
    requires |Answers(c, map[], calls)| == |calls|
    requires Accepted(calls, Answers(c, map[], calls), "k") as real > c.burst as real + c.rate * (end - 0.0)
    ensures !NominalBound(c, late)
  {
    var i: nat, j: nat, key, start := 0, |calls|, "k", 0.0;
    assert calls[i..j] == calls && Answers(c, map[], calls)[i..j] == Answers(c, map[], calls);
    assert Stretch(calls, late, i, j, start, end);
    assert !WithinBound(c, calls, i, j, key, start, end);
  }

  lemma LatenessBreaks(c: Config, late: real)
    requires ValidConfig(c) && late > 0.0
    ensures !NominalBound(c, late)
  {
    var bound := c.burst as real + c.rate * (late - 0.0);
    Positive(c.rate, late);
    var calls := OrderMatters(c, late, bound.Floor + 1);
    Breaks(c, late, calls, late);
  }

  /** Even in order, the collector breaks the bound if the idle time does not fit. */
  lemma CollectorBreaks(c: Config)
    requires ValidConfig(c) && !Covers(c, 0.0)
    ensures !NominalBound(c, 0.0)
  {
    var idle, full := IdleSeconds(IdleWhole(c)), c.burst as real / c.rate;
    var later := (idle + full) / 2.0;
    IdleIsPositive(IdleWhole(c));
    SpoilerLate(c, later, later, 0.0);
    SpoilerInside(c, later);
    SpoilerGetsTwo(c, later, later);
    EarlierIsLess(c, later, full);
    assert Gain(c, 0.0, later) == c.rate * (later - 0.0);
    Breaks(c, 0.0, Spoiler(c, later, later), later);
  }

  lemma OrderKeeps(c: Config)
    requires ValidConfig(c) && IdleWhole(c) <= 9223372036
    ensures NominalBound(c, 0.0)
  {
    forall calls, i: nat, j: nat, key, start, end | Stretch(calls, 0.0, i, j, start, end)
      ensures WithinBound(c, calls, i, j, key, start, end)
    {
      RateBoundInOrder(c, calls, i, j, key, start, end);
    }
  }

  /** The nominal bound holds in every run with a lateness exactly when the lateness is zero and 1.5 times the refill
    * time, in whole seconds, fits into 64 bits of nanoseconds. */
  lemma NominalBoundExactly(c: Config, late: real)
    requires ValidConfig(c) && late >= 0.0 && IdleWhole(c) < 0x8000_0000_0000_0000
    ensures NominalBound(c, late) <==> late == 0.0 && IdleWhole(c) <= 9223372036
  {
    IdleCoversRefill(IdleWhole(c), c.burst as real / c.rate);
    if late > 0.0 {
      LatenessBreaks(c, late);
    } else if IdleWhole(c) <= 9223372036 {
      OrderKeeps(c);
    } else {
      CollectorBreaks(c);
    }
  }
}
