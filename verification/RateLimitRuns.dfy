/** Runs of a limiter, step by step: what they leave stored and how many calls of one key they accept. */
module RateLimitRuns {
  import opened RateLimit
  import opened RateLimitBounds

  /** What a limiter does with a call: its new buckets, and whether it accepts. */
  type Stepper = (Buckets, Call) -> (Buckets, bool)

  /** The limiter with its collector. */
  function AsIs(c: Config): Stepper
    requires c.rate != 0.0
  {
    (bs: Buckets, e: Call) => Allowed(c, bs, e.key, e.at)
  }

  function State(step: Stepper, bs: Buckets, calls: seq<Call>): Buckets
    decreases |calls|
  {
    if calls == [] then bs else State(step, step(bs, calls[0]).0, calls[1..])
  }

  /** How many calls of key "k" are accepted. */
  function Got(step: Stepper, bs: Buckets, calls: seq<Call>): nat
    decreases |calls|
  {
    if calls == [] then 0
    else (if step(bs, calls[0]).1 && calls[0].key == "k" then 1 else 0) + Got(step, step(bs, calls[0]).0, calls[1..])
  }

  lemma {:induction false} GotIsAccepted(c: Config, bs: Buckets, calls: seq<Call>)
    requires ValidConfig(c)
    ensures |Answers(c, bs, calls)| == |calls|
    ensures Accepted(calls, Answers(c, bs, calls), "k") == Got(AsIs(c), bs, calls)
    decreases |calls|
  {
    AnswersLength(c, bs, calls);
    if calls != [] { GotIsAccepted(c, Allowed(c, bs, calls[0].key, calls[0].at).0, calls[1..]); }
  }

  lemma {:induction false} Concat(step: Stepper, bs: Buckets, a: seq<Call>, b: seq<Call>)
    ensures State(step, bs, a + b) == State(step, State(step, bs, a), b)
    ensures Got(step, bs, a + b) == Got(step, bs, a) + Got(step, State(step, bs, a), b)
    decreases |a|
  {
    if a == [] {
      assert a + b == b;
    } else {
      assert (a + b)[1..] == a[1..] + b;
      Concat(step, step(bs, a[0]).0, a[1..], b);
    }
  }

  // ----- order -----

  /** Every call of a comes at most late after every call of b. */
  ghost predicate Before(a: seq<Call>, b: seq<Call>, late: real) {
    forall i, j :: 0 <= i < |a| && 0 <= j < |b| ==> a[i].at - late <= b[j].at
  }

  lemma LateConcat(a: seq<Call>, b: seq<Call>, late: real)
    requires Late(a, late) && Late(b, late) && Before(a, b, late)
    ensures Late(a + b, late)
  {
    forall i, j | 0 <= i < j < |a + b|
      ensures (a + b)[i].at - late <= (a + b)[j].at
    {
      if i < |a| <= j { assert (a + b)[i] == a[i] && (a + b)[j] == b[j - |a|]; }
    }
  }

  ghost predicate AllAt(calls: seq<Call>, at: real) {
    forall i :: 0 <= i < |calls| ==> calls[i].at == at
  }

  lemma AllAtLate(calls: seq<Call>, at: real, late: real)
    requires AllAt(calls, at) && late >= 0.0
    ensures Late(calls, late)
  {
  }

  // ----- calls at one moment -----

  function Repeat(at: real, n: nat): (calls: seq<Call>)
    ensures |calls| == n && forall j :: 0 <= j < n ==> calls[j] == Call("k", at)
  {
    if n == 0 then [] else [Call("k", at)] + Repeat(at, n - 1)
  }

  /** A stored bucket with a token left spends one. */
  ghost predicate Spends(step: Stepper) {
    forall bs: Buckets, at, tokens :: SpendsOne(step, bs, at, tokens)
  }

  ghost predicate SpendsOne(step: Stepper, bs: Buckets, at: real, tokens: real) {
    "k" in bs && bs["k"] == Bucket(tokens, at) && tokens >= 1.0 && |bs| <= KEY_LIMIT ==>
      step(bs, Call("k", at)) == (bs["k" := Bucket(tokens - 1.0, at)], true)
  }

  lemma AsIsSpends(c: Config)
    requires ValidConfig(c)
    ensures Spends(AsIs(c))
  {
  }

  lemma SameSize(bs: Buckets, b: Bucket)
    requires "k" in bs
    ensures |bs["k" := b]| == |bs|
  {
    assert bs["k" := b].Keys == bs.Keys;
    assert |bs["k" := b].Keys| == |bs["k" := b]| && |bs.Keys| == |bs|;
  }

  lemma {:induction false} SpendAll(step: Stepper, bs: Buckets, at: real, tokens: real, n: nat)
    requires Spends(step) && tokens >= n as real && "k" in bs && bs["k"] == Bucket(tokens, at) && |bs| <= KEY_LIMIT
    ensures Got(step, bs, Repeat(at, n)) == n
    ensures State(step, bs, Repeat(at, n)) == bs["k" := Bucket(tokens - n as real, at)]
    decreases n
  {
    if n == 0 {
      assert bs["k" := Bucket(tokens, at)] == bs;
    } else {
      var next := bs["k" := Bucket(tokens - 1.0, at)];
      assert SpendsOne(step, bs, at, tokens);
      SameSize(bs, Bucket(tokens - 1.0, at));
      SpendAll(step, next, at, tokens - 1.0, n - 1);
      assert Repeat(at, n)[1..] == Repeat(at, n - 1);
      assert next["k" := Bucket(tokens - n as real, at)] == bs["k" := Bucket(tokens - n as real, at)];
    }
  }

  lemma OneMoreKey(bs: Buckets, key: string, b: Bucket)
    requires key !in bs
    ensures |bs[key := b]| == |bs| + 1
  {
    assert bs[key := b].Keys == bs.Keys + {key};
    assert |bs[key := b].Keys| == |bs[key := b]| && |bs.Keys| == |bs|;
  }

  /** A key that is not stored gets a whole burst at once. */
  lemma WholeBurst(c: Config, bs: Buckets, at: real)
    requires ValidConfig(c) && |bs| < KEY_LIMIT && "k" !in bs
    ensures Got(AsIs(c), bs, Repeat(at, c.burst)) == c.burst
    ensures State(AsIs(c), bs, Repeat(at, c.burst)) == bs["k" := Bucket(0.0, at)]
  {
    var left := Bucket(c.burst as real - 1.0, at);
    var next := bs["k" := left];
    OneMoreKey(bs, "k", left);
    FirstOfBurst(c, bs, at);
    AsIsSpends(c);
    SpendAll(AsIs(c), next, at, c.burst as real - 1.0, c.burst - 1);
    assert Repeat(at, c.burst)[1..] == Repeat(at, c.burst - 1);
    assert next["k" := Bucket(0.0, at)] == bs["k" := Bucket(0.0, at)];
  }

  lemma FirstOfBurst(c: Config, bs: Buckets, at: real)
    requires ValidConfig(c) && |bs| < KEY_LIMIT && "k" !in bs
    ensures AsIs(c)(bs, Call("k", at)) == (bs["k" := Bucket(c.burst as real - 1.0, at)], true)
  {
  }
}
