/** The exact separation that the nonce store guarantees between two acceptances of one nonce. */
module AuthReplay {
  import opened Auth
  import opened AuthRuns
  import opened RateLimit

  /** Different nonces of one token. */
  function Key(n: nat): (key: string)
    ensures |key| == n + 4
  {
    NonceKey("t", Name(n))
  }

  /** The run: a nonce and others at 0 until the map is full, one more that evicts them all just after the ttl, and the
    * nonce again, as late as allowed. */
  function Replay(ttl: nat, maxMem: nat, late: nat): (calls: seq<Check>)
    requires maxMem >= 2
    ensures |calls| == maxMem + 2
    ensures calls[maxMem + 1] == Check(Key(0), ttl + 1 - late)
    ensures calls[maxMem] == Check(Key(maxMem), ttl + 1)
    ensures forall i :: 0 <= i < maxMem ==> calls[i] == Check(Key(i), 0)
  {
    seq(maxMem + 2, i requires 0 <= i < maxMem + 2 =>
      if i < maxMem then Check(Key(i), 0)
      else if i == maxMem then Check(Key(maxMem), ttl + 1) else Check(Key(0), ttl + 1 - late))
  }

  lemma ReplayLate(ttl: nat, maxMem: nat, late: nat)
    requires maxMem >= 2
    ensures Late(Replay(ttl, maxMem, late), late)
  {
  }

  /** Nonces of the first n checks, all at 0. */
  ghost predicate Filling(seen: Nonces, n: nat) {
    |seen| == n && forall k :: k in seen ==> seen[k] == 0 && |k| < n + 4
  }

  /** A new nonce in a map with room is stored and accepted. */
  lemma Fresh(seen: Nonces, ttl: int, maxMem: nat, key: string, now: int)
    requires |seen| < maxMem && key !in seen
    ensures Checked(seen, ttl, maxMem, key, now) == (seen[key := now], true) && |seen[key := now]| == |seen| + 1
    ensures !HardReset(seen, ttl, maxMem, now)
  {
    assert seen[key := now].Keys == seen.Keys + {key};
    assert |seen[key := now].Keys| == |seen[key := now]| && |seen.Keys| == |seen|;
  }

  lemma NextSeen(ttl: int, maxMem: nat, calls: seq<Check>, n: nat, e: Check)
    requires n < |calls| && calls[n] == e
    ensures SeenAfter(ttl, maxMem, calls, n + 1) == Checked(SeenAfter(ttl, maxMem, calls, n), ttl, maxMem, e.key, e.now).0
    ensures ResetAt(ttl, maxMem, calls, n) <==> HardReset(SeenAfter(ttl, maxMem, calls, n), ttl, maxMem, e.now)
    ensures Accepts(ttl, maxMem, calls, n) <==> Checked(SeenAfter(ttl, maxMem, calls, n), ttl, maxMem, e.key, e.now).1
  {
  }

  ghost predicate Starts(calls: seq<Check>, maxMem: nat) {
    maxMem <= |calls| && forall i :: 0 <= i < maxMem ==> calls[i] == Check(Key(i), 0)
  }

  lemma {:induction false} Fills(ttl: nat, maxMem: nat, calls: seq<Check>, n: nat)
    requires n <= maxMem && Starts(calls, maxMem)
    ensures Filling(SeenAfter(ttl, maxMem, calls, n), n)
    decreases n
  {
    if n > 0 {
      Fills(ttl, maxMem, calls, n - 1);
      FillStep(ttl, maxMem, calls, n - 1);
    }
  }

  /** The n-th check is accepted, without a reset. */
  lemma FillStep(ttl: nat, maxMem: nat, calls: seq<Check>, n: nat)
    requires n < maxMem && Starts(calls, maxMem) && Filling(SeenAfter(ttl, maxMem, calls, n), n)
    ensures Filling(SeenAfter(ttl, maxMem, calls, n + 1), n + 1)
    ensures Accepts(ttl, maxMem, calls, n) && !ResetAt(ttl, maxMem, calls, n)
  {
    NextSeen(ttl, maxMem, calls, n, Check(Key(n), 0));
    FillOne(SeenAfter(ttl, maxMem, calls, n), ttl, maxMem, n);
  }

  lemma FillOne(seen: Nonces, ttl: nat, maxMem: nat, n: nat)
    requires n < maxMem && Filling(seen, n)
    ensures Filling(Checked(seen, ttl, maxMem, Key(n), 0).0, n + 1) && Checked(seen, ttl, maxMem, Key(n), 0).1
    ensures !HardReset(seen, ttl, maxMem, 0)
  {
    Fresh(seen, ttl, maxMem, Key(n), 0);
  }

  /** A check just after the ttl finds the map full and evicts everything. */
  lemma EvictsAll(seen: Nonces, ttl: nat, maxMem: nat, key: string)
    requires maxMem >= 2 && Filling(seen, maxMem)
    ensures Checked(seen, ttl, maxMem, key, ttl + 1).0 == map[key := ttl + 1] && !HardReset(seen, ttl, maxMem, ttl + 1)
  {
    assert Unexpired(seen, ttl, ttl + 1) == map[];
  }

  /** The nonce is accepted twice, the ttl and one less the lateness apart, with no reset in between. */
  lemma Replays(ttl: nat, maxMem: nat, late: nat)
    requires maxMem >= 2
    ensures var calls := Replay(ttl, maxMem, late);
            && Late(calls, late) && Accepts(ttl, maxMem, calls, 0) && Accepts(ttl, maxMem, calls, maxMem + 1)
            && forall r :: 0 < r <= maxMem + 1 ==> !ResetAt(ttl, maxMem, calls, r)
  {
    var calls := Replay(ttl, maxMem, late);
    ReplayLate(ttl, maxMem, late);
    forall r: nat | r < maxMem
      ensures Accepts(ttl, maxMem, calls, r) && !ResetAt(ttl, maxMem, calls, r)
    {
      Fills(ttl, maxMem, calls, r);
      FillStep(ttl, maxMem, calls, r);
    }
    Fills(ttl, maxMem, calls, maxMem);
    var seen := SeenAfter(ttl, maxMem, calls, maxMem);
    EvictsAll(seen, ttl, maxMem, Key(maxMem));
    var last: Nonces := map[Key(maxMem) := ttl + 1];
    NextSeen(ttl, maxMem, calls, maxMem, Check(Key(maxMem), ttl + 1));
    NextSeen(ttl, maxMem, calls, maxMem + 1, Check(Key(0), ttl + 1 - late));
    assert |last| == 1 && |Key(maxMem)| != |Key(0)|;
    Fresh(last, ttl, maxMem, Key(0), ttl + 1 - late);
  }

  /** Two acceptances of one nonce without a reset in between. */
  ghost predicate Twice(ttl: int, maxMem: nat, calls: seq<Check>, i: nat, j: nat) {
    && i < j < |calls| && calls[i].key == calls[j].key
    && Accepts(ttl, maxMem, calls, i) && Accepts(ttl, maxMem, calls, j)
    && forall r :: i < r <= j ==> !ResetAt(ttl, maxMem, calls, r)
  }

  /** In every run with this lateness they are more than this far apart. */
  ghost predicate Separates(ttl: int, maxMem: nat, late: nat, apart: int) {
    forall calls: seq<Check>, i: nat, j: nat :: Late(calls, late) && Twice(ttl, maxMem, calls, i, j) ==> calls[j].now - calls[i].now > apart
  }

  /** The store separates two acceptances of one nonce by more than a time exactly if the time is at most the ttl less
    * the lateness. */
  lemma SeparationExactly(ttl: nat, maxMem: nat, late: nat, apart: int)
    requires maxMem >= 2
    ensures Separates(ttl, maxMem, late, apart) <==> apart <= ttl - late
  {
    if apart <= ttl - late {
      forall calls: seq<Check>, i: nat, j: nat | Late(calls, late) && Twice(ttl, maxMem, calls, i, j)
        ensures calls[j].now - calls[i].now > apart
      {
        NoReplayWithinTTL(ttl, maxMem, calls, late, i, j);
      }
    } else {
      var calls, i: nat, j: nat := Replay(ttl, maxMem, late), 0, maxMem + 1;
      Replays(ttl, maxMem, late);
      assert Twice(ttl, maxMem, calls, i, j) && calls[j].now - calls[i].now <= apart;
    }
  }
}
