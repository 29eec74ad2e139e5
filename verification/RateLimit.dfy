/** The limiters of internal/server/ratelimit/ratelimit.go: token bucket, sliding window, concurrency cap. */
module RateLimit {
  import opened Wrappers

  /** Number of keys above which the two time-based limiters collect stale keys. */
  const KEY_LIMIT: nat := 65536

  /** As many different keys as a run needs, all longer than one character. */
  function Name(i: nat): (s: string)
    ensures |s| == i + 2
  {
    seq(i + 2, _ => 'x')
  }

  // ----- token bucket -----

  datatype Config = Config(rate: real, burst: int)

  /** Times are seconds. */
  datatype Bucket = Bucket(tokens: real, last: real)

  type Buckets = map<string, Bucket>

  ghost predicate ValidConfig(c: Config) {
    c.rate > 0.0 && c.burst >= 1
  }

  /** The tokens of a bucket at time now; a clock that went back adds nothing. */
  function Refill(c: Config, b: Bucket, now: real): real {
    if now - b.last > 0.0 then
      var t := b.tokens + (now - b.last) * c.rate;
      if t > c.burst as real then c.burst as real else t
    else b.tokens
  }

  /** What key may spend at time now; an unknown key has a full bucket. */
  function Available(c: Config, bs: Buckets, key: string, now: real): real {
    if key in bs then Refill(c, bs[key], now) else c.burst as real
  }

  function Taken(c: Config, bs: Buckets, key: string, now: real): (r: (Buckets, bool)) {
    var t := Available(c, bs, key, now);
    var ok := t >= 1.0;
    (bs[key := Bucket(if ok then t - 1.0 else t, now)], ok)
  }

  function Wrap64(n: int): int {
    (n + 0x8000_0000_0000_0000) % 0x1_0000_0000_0000_0000 - 0x8000_0000_0000_0000
  }

  /** 1.5 times the refill time in whole seconds. */
  function IdleWhole(c: Config): int
    requires c.rate != 0.0
  {
    (c.burst as real / c.rate * 1.5).Floor
  }

  /** Seconds after which a bucket is collected: the product with a second wraps around in 64 bits, and
    * there is a floor of one minute. */
  function IdleSeconds(whole: int): real {
    var ns := Wrap64(whole * 1_000_000_000);
    if ns < 60_000_000_000 then 60.0 else ns as real / 1_000_000_000.0
  }

  function Collected(bs: Buckets, idle: real, now: real): Buckets {
    map k | k in bs && !(now - bs[k].last > idle) :: bs[k]
  }

  /** Allow: collect first when there are too many keys. */
  function Allowed(c: Config, bs: Buckets, key: string, now: real): (Buckets, bool)
    requires c.rate != 0.0
  {
    Taken(c, if |bs| > KEY_LIMIT then Collected(bs, IdleSeconds(IdleWhole(c)), now) else bs, key, now)
  }

  class Limiter {
    const config: Config
    var buckets: map<string, Bucket>

    constructor (rate: real, burst: int)
      ensures config == Config(rate, if burst < 1 then 1 else burst) && buckets == map[]
    {
      config := Config(rate, if burst < 1 then 1 else burst);
      buckets := map[];
    }

    method Allow(key: string, now: real) returns (ok: bool)
      requires config.rate != 0.0
      modifies this
      ensures (buckets, ok) == Allowed(config, old(buckets), key, now)
    {
      if |buckets| > KEY_LIMIT { Collect(now); }
      ghost var bs := buckets;
      var b := Bucket(config.burst as real, now);
      if key in buckets {
        b := buckets[key];
        var elapsed := now - b.last;
        if elapsed > 0.0 {
          b := b.(tokens := b.tokens + elapsed * config.rate);
          if b.tokens > config.burst as real { b := b.(tokens := config.burst as real); }
        }
      }
      b := b.(last := now);
      assert b.tokens == Available(config, bs, key, now);
      ok := b.tokens >= 1.0;
      if ok { b := b.(tokens := b.tokens - 1.0); }
      buckets := buckets[key := b];
    }

    method Collect(now: real)
      requires config.rate != 0.0
      modifies this
      ensures buckets == Collected(old(buckets), IdleSeconds(IdleWhole(config)), now)
    {
      var ns := Wrap64(IdleWhole(config) * 1_000_000_000);
      if ns < 60_000_000_000 { ns := 60_000_000_000; }
      var idle := ns as real / 1_000_000_000.0;
      assert idle == IdleSeconds(IdleWhole(config));
      var rest := buckets.Keys;
      while rest != {}
        invariant rest <= old(buckets).Keys
        invariant forall k :: k in buckets <==> k in old(buckets) && (k in rest || !(now - old(buckets)[k].last > idle))
        invariant forall k :: k in buckets ==> buckets[k] == old(buckets)[k]
        decreases rest
      {
        var k :| k in rest;
        if now - buckets[k].last > idle { buckets := buckets - {k}; }
        rest := rest - {k};
      }
    }
  }

  // ----- sliding window -----

  type Events = map<string, seq<int>>

  /** The events that are not older than the window at time now, in order. */
  function Recent(evs: seq<int>, window: int, now: int): seq<int> {
    if evs == [] then []
    else Recent(evs[..|evs| - 1], window, now)
         + if now - evs[|evs| - 1] <= window then [evs[|evs| - 1]] else []
  }

  function EventsOf(ev: Events, key: string): seq<int> {
    if key in ev then ev[key] else []
  }

  predicate Stale(evs: seq<int>, window: int, now: int) {
    |evs| == 0 || now - evs[|evs| - 1] > window
  }

  function WithoutStale(ev: Events, window: int, now: int): Events {
    map k | k in ev && !Stale(ev[k], window, now) :: ev[k]
  }

  function Recorded(max: int, window: int, ev: Events, key: string, now: int): (Events, bool) {
    var keep := Recent(EventsOf(ev, key), window, now);
    if |keep| >= max then (ev[key := keep], false) else (ev[key := keep + [now]], true)
  }

  function Counted(max: int, window: int, ev: Events, key: string, now: int): (Events, bool) {
    Recorded(max, window, if |ev| > KEY_LIMIT then WithoutStale(ev, window, now) else ev, key, now)
  }

  class Count {
    const window: int
    const max: int
    var events: map<string, seq<int>>

    constructor (max: int, window: int)
      ensures this.max == max && this.window == window && events == map[]
    {
      this.max, this.window, events := max, window, map[];
    }

    method Allow(key: string, now: int) returns (ok: bool)
      modifies this
      ensures (events, ok) == Counted(max, window, old(events), key, now)
    {
      if |events| > KEY_LIMIT { DropStale(now); }
      var evs := if key in events then events[key] else [];
      var keep: seq<int> := [];
      var i := 0;
      assert evs[..0] == [];
      while i < |evs|
        invariant 0 <= i <= |evs| && keep == Recent(evs[..i], window, now)
      {
        if now - evs[i] <= window { keep := keep + [evs[i]]; }
        assert evs[..i + 1][..i] == evs[..i];
        i := i + 1;
      }
      assert evs[..i] == evs;
      if |keep| >= max {
        events := events[key := keep];
        return false;
      }
      events := events[key := keep + [now]];
      return true;
    }

    method DropStale(now: int)
      modifies this
      ensures events == WithoutStale(old(events), window, now)
    {
      var rest := events.Keys;
      while rest != {}
        invariant rest <= old(events).Keys
        invariant forall k :: k in events <==> k in old(events) && (k in rest || !Stale(old(events)[k], window, now))
        invariant forall k :: k in events ==> events[k] == old(events)[k]
        decreases rest
      {
        var k :| k in rest;
        if Stale(events[k], window, now) { events := events - {k}; }
        rest := rest - {k};
      }
    }
  }

  // ----- concurrency cap -----

  type Held = map<string, int>

  function HeldBy(cur: Held, key: string): int {
    if key in cur then cur[key] else 0
  }

  function Acquired(max: int, cur: Held, key: string): Option<Held> {
    if HeldBy(cur, key) >= max then None else Some(cur[key := HeldBy(cur, key) + 1])
  }

  function Released(cur: Held, key: string): Held {
    if HeldBy(cur, key) - 1 <= 0 then cur - {key} else cur[key := HeldBy(cur, key) - 1]
  }

  /** The release function that Acquire hands out; once remembers that it ran. */
  class Ticket {
    const key: string
    var once: bool

    constructor (key: string)
      ensures this.key == key && !once
    {
      this.key := key;
      once := false;
    }
  }

  class Conc {
    const max: int
    var cur: map<string, int>

    constructor (max: int)
      ensures this.max == (if max < 1 then 1 else max) && cur == map[]
    {
      this.max := if max < 1 then 1 else max;
      cur := map[];
    }

    method Acquire(key: string) returns (ticket: Ticket?, ok: bool)
      modifies this
      ensures ok <==> HeldBy(old(cur), key) < max
      ensures cur == if ok then old(cur)[key := HeldBy(old(cur), key) + 1] else old(cur)
      ensures if ok then ticket != null && fresh(ticket) && ticket.key == key && !ticket.once else ticket == null
    {
      var n := if key in cur then cur[key] else 0;
      if n >= max { return null, false; }
      cur := cur[key := n + 1];
      ok := true;
      ticket := new Ticket(key);
    }

    /** Calling a release function: only its first call counts. */
    method Release(ticket: Ticket)
      modifies this, ticket`once
      ensures ticket.once
      ensures cur == if old(ticket.once) then old(cur)
                     else if HeldBy(old(cur), ticket.key) <= 1 then old(cur) - {ticket.key}
                     else old(cur)[ticket.key := HeldBy(old(cur), ticket.key) - 1]
    {
      if !ticket.once {
        ticket.once := true;
        var n := (if ticket.key in cur then cur[ticket.key] else 0) - 1;
        cur := cur[ticket.key := n];
        if n <= 0 { cur := cur - {ticket.key}; }
      }
    }
  }
}
