/** The sliding-window limiter over whole runs: what it accepts, the cap it enforces, and why the stale keys it
  * drops cannot be observed. Callers read the clock before they take the lock, so that a call's time may lie
  * up to some lateness before the time of a call that was served earlier; with lateness 0 the bounds meet. */
module WindowBounds {
  import opened RateLimit

  datatype Event = Event(key: string, at: int)

  /** In serving order, no call is more than late older than an earlier one. */
  ghost predicate Late(calls: seq<Event>, late: nat) {
    forall i, j :: 0 <= i < j < |calls| ==> calls[i].at - late <= calls[j].at
  }

  function Answers(max: int, window: int, ev: Events, calls: seq<Event>): seq<bool>
    decreases |calls|
  {
    if calls == [] then []
    else
      var r := Counted(max, window, ev, calls[0].key, calls[0].at);
      [r.1] + Answers(max, window, r.0, calls[1..])
  }

  /** The times at which key was accepted, in serving order. */
  function AcceptedTimes(calls: seq<Event>, answers: seq<bool>, key: string): seq<int>
    requires |calls| == |answers|
    decreases |calls|
  {
    if calls == [] then []
    else (if answers[0] && calls[0].key == key then [calls[0].at] else []) + AcceptedTimes(calls[1..], answers[1..], key)
  }

  lemma {:induction false} AnswersLength(max: int, window: int, ev: Events, calls: seq<Event>)
    ensures |Answers(max, window, ev, calls)| == |calls|
    decreases |calls|
  {
    if calls != [] { AnswersLength(max, window, Counted(max, window, ev, calls[0].key, calls[0].at).0, calls[1..]); }
  }

  // ----- the filter -----

  /** The events from time c on. */
  function Newer(evs: seq<int>, c: int): seq<int> {
    Recent(evs, 0, c)
  }

  lemma {:induction false} RecentIsNewer(evs: seq<int>, window: int, now: int)
    ensures Recent(evs, window, now) == Newer(evs, now - window)
  {
    if evs != [] { RecentIsNewer(evs[..|evs| - 1], window, now); }
  }

  lemma NewerSnoc(evs: seq<int>, t: int, c: int)
    ensures Newer(evs + [t], c) == Newer(evs, c) + if c <= t then [t] else []
  {
    assert (evs + [t])[..|evs + [t]| - 1] == evs;
  }

  /** Filtering twice is filtering once, from the later time on. */
  lemma {:induction false} NewerTwice(evs: seq<int>, c: int, d: int)
    ensures Newer(Newer(evs, c), d) == Newer(evs, if c <= d then d else c)
  {
    if evs != [] {
      var init, last := evs[..|evs| - 1], evs[|evs| - 1];
      NewerTwice(init, c, d);
      NewerSnoc(Newer(init, c), last, d);
      assert c > last ==> Newer(evs, c) == Newer(init, c);
    }
  }

  lemma {:induction false} NewerShrinks(evs: seq<int>, c: int, d: int)
    requires c <= d
    ensures |Newer(evs, d)| <= |Newer(evs, c)|
  {
    if evs != [] { NewerShrinks(evs[..|evs| - 1], c, d); }
  }

  // ----- stored events -----

  /** Stored events are at most late out of order and not from after latest. */
  ghost predicate Orderly(evs: seq<int>, late: nat, latest: int) {
    && (forall i, j :: 0 <= i < j < |evs| ==> evs[i] <= evs[j] + late)
    && (forall i :: 0 <= i < |evs| ==> evs[i] <= latest)
  }

  lemma {:induction false} NewerMembers(evs: seq<int>, c: int, t: int)
    ensures t in Newer(evs, c) ==> t in evs
  {
    if evs != [] { NewerMembers(evs[..|evs| - 1], c, t); }
  }

  lemma {:induction false} NewerOrderly(evs: seq<int>, c: int, late: nat, latest: int)
    requires Orderly(evs, late, latest)
    ensures Orderly(Newer(evs, c), late, latest)
  {
    if evs != [] {
      var init, last := evs[..|evs| - 1], evs[|evs| - 1];
      NewerOrderly(init, c, late, latest);
      var kept := Newer(init, c);
      forall i | 0 <= i < |kept|
        ensures kept[i] <= last + late
      {
        NewerMembers(init, c, kept[i]);
      }
    }
  }

  /** If the last stored event is too old, all are, up to the lateness. */
  lemma {:induction false} AllOld(evs: seq<int>, late: nat, latest: int, c: int)
    requires Orderly(evs, late, latest) && (evs != [] ==> evs[|evs| - 1] + late < c)
    ensures Newer(evs, c) == []
  {
    NewerOfOld(evs, c);
  }

  lemma {:induction false} NewerOfOld(evs: seq<int>, c: int)
    requires forall i :: 0 <= i < |evs| ==> evs[i] < c
    ensures Newer(evs, c) == []
  {
    if evs != [] { NewerOfOld(evs[..|evs| - 1], c); }
  }

  /** The stored events are the accepted history from time c on, and never more than it. */
  ghost predicate Tracks(evs: seq<int>, history: seq<int>, c: int) {
    Newer(evs, c) == Newer(history, c) && forall d :: NoMore(evs, history, d)
  }

  ghost predicate NoMore(a: seq<int>, b: seq<int>, d: int) {
    |Newer(a, d)| <= |Newer(b, d)|
  }

  lemma TracksLater(evs: seq<int>, history: seq<int>, c: int, d: int)
    requires Tracks(evs, history, c) && c <= d
    ensures Tracks(evs, history, d)
  {
    NewerTwice(evs, c, d);
    NewerTwice(history, c, d);
  }

  lemma TracksFiltered(evs: seq<int>, history: seq<int>, c: int, d: int)
    requires Tracks(evs, history, c) && d <= c
    ensures Tracks(Newer(evs, d), history, c)
  {
    NewerTwice(evs, d, c);
    forall e
      ensures NoMore(Newer(evs, d), history, e)
    {
      assert NoMore(evs, history, e);
      NewerTwice(evs, d, e);
      if e < d { NewerShrinks(evs, e, d); }
    }
  }

  lemma TracksSnoc(evs: seq<int>, history: seq<int>, c: int, t: int)
    requires Tracks(evs, history, c)
    ensures Tracks(evs + [t], history + [t], c)
  {
    NewerSnoc(evs, t, c);
    NewerSnoc(history, t, c);
    forall e
      ensures NoMore(evs + [t], history + [t], e)
    {
      assert NoMore(evs, history, e);
      NewerSnoc(evs, t, e);
      NewerSnoc(history, t, e);
    }
  }

  lemma TracksDropped(evs: seq<int>, history: seq<int>, c: int)
    requires Tracks(evs, history, c) && Newer(evs, c) == []
    ensures Tracks([], history, c)
  {
  }

  // ----- what the limiter remembers -----

  /** The events of key that a call from now on could count are stored. */
  ghost predicate Remembers(window: int, late: nat, ev: Events, key: string, history: seq<int>, latest: int) {
    Orderly(EventsOf(ev, key), late, latest) && Tracks(EventsOf(ev, key), history, latest - window + late)
  }

  function Latest(latest: int, at: int): int {
    if latest <= at then at else latest
  }

  lemma LaterRemembers(window: int, late: nat, ev: Events, key: string, history: seq<int>, latest: int, later: int)
    requires Remembers(window, late, ev, key, history, latest) && latest <= later
    ensures Remembers(window, late, ev, key, history, later)
  {
    TracksLater(EventsOf(ev, key), history, latest - window + late, later - window + late);
  }

  lemma DropRemembers(window: int, late: nat, ev: Events, key: string, history: seq<int>, latest: int, at: int)
    requires Remembers(window, late, ev, key, history, latest) && at <= latest
    ensures Remembers(window, late, WithoutStale(ev, window, at), key, history, latest)
  {
    if key in ev && Stale(ev[key], window, at) {
      AllOld(ev[key], late, latest, latest - window + late);
      TracksDropped(ev[key], history, latest - window + late);
    }
  }

  /** The answer lies between what the history says of the window and of the window shortened by twice the lateness. */
  ghost predicate Between(max: int, window: int, late: nat, history: seq<int>, at: int, ok: bool) {
    && (|Recent(history, window, at)| < max ==> ok)
    && (ok ==> |Recent(history, window - 2 * late, at)| < max)
  }

  lemma EnoughRoom(max: int, window: int, evs: seq<int>, history: seq<int>, c: int, at: int)
    requires Tracks(evs, history, c) && |Recent(history, window, at)| < max
    ensures |Recent(evs, window, at)| < max
  {
    RecentIsNewer(evs, window, at);
    RecentIsNewer(history, window, at);
    assert NoMore(evs, history, at - window);
  }

  lemma OnlyWithRoom(max: int, window: int, late: nat, evs: seq<int>, history: seq<int>, c: int, at: int)
    requires Tracks(evs, history, c) && c <= at - window + 2 * late && |Recent(evs, window, at)| < max
    ensures |Recent(history, window - 2 * late, at)| < max
  {
    var d := at - window + 2 * late;
    RecentIsNewer(evs, window, at);
    RecentIsNewer(history, window - 2 * late, at);
    TracksLater(evs, history, c, d);
    NewerShrinks(evs, at - window, d);
  }

  lemma AnswerBetween(max: int, window: int, late: nat, evs: seq<int>, history: seq<int>, latest: int, at: int)
    requires Tracks(evs, history, latest - window + late) && latest - late <= at
    ensures Between(max, window, late, history, at, |Recent(evs, window, at)| < max)
  {
    if |Recent(history, window, at)| < max { EnoughRoom(max, window, evs, history, latest - window + late, at); }
    if |Recent(evs, window, at)| < max { OnlyWithRoom(max, window, late, evs, history, latest - window + late, at); }
  }

  lemma OrderlySnoc(evs: seq<int>, late: nat, latest: int, at: int)
    requires Orderly(evs, late, latest) && latest - late <= at <= latest
    ensures Orderly(evs + [at], late, latest)
  {
  }

  lemma RecordOrderly(window: int, late: nat, evs: seq<int>, latest: int, at: int)
    requires Orderly(evs, late, latest) && latest - late <= at <= latest
    ensures var keep := Recent(evs, window, at); Orderly(keep, late, latest) && Orderly(keep + [at], late, latest)
  {
    RecentIsNewer(evs, window, at);
    NewerOrderly(evs, at - window, late, latest);
    OrderlySnoc(Recent(evs, window, at), late, latest, at);
  }

  lemma RecordTracks(window: int, late: nat, evs: seq<int>, history: seq<int>, latest: int, at: int)
    requires Tracks(evs, history, latest - window + late) && at <= latest
    ensures Tracks(Recent(evs, window, at), history, latest - window + late)
  {
    var c, d := latest - window + late, at - window;
    RecentIsNewer(evs, window, at);
    TracksFiltered(evs, history, c, d);
    SameTracks(Newer(evs, d), Recent(evs, window, at), history, c);
  }

  lemma SameTracks(a: seq<int>, b: seq<int>, history: seq<int>, c: int)
    requires a == b && Tracks(a, history, c)
    ensures Tracks(b, history, c)
  {
  }

  lemma RecordRemembers(max: int, window: int, late: nat, ev: Events, key: string, history: seq<int>, latest: int, at: int)
    requires Remembers(window, late, ev, key, history, latest) && latest - late <= at <= latest
    ensures var r := Recorded(max, window, ev, key, at);
            && Between(max, window, late, history, at, r.1)
            && Remembers(window, late, r.0, key, if r.1 then history + [at] else history, latest)
  {
    var evs := EventsOf(ev, key);
    RecordOrderly(window, late, evs, latest, at);
    RecordTracks(window, late, evs, history, latest, at);
    TracksSnoc(Recent(evs, window, at), history, latest - window + late, at);
    AnswerBetween(max, window, late, evs, history, latest, at);
    RecordStores(max, window, ev, key, at);
  }

  lemma RecordStores(max: int, window: int, ev: Events, key: string, now: int)
    ensures var r := Recorded(max, window, ev, key, now); var keep := Recent(EventsOf(ev, key), window, now);
            (r.1 <==> |keep| < max) && EventsOf(r.0, key) == if r.1 then keep + [now] else keep
  {
  }

  lemma OtherRemembers(max: int, window: int, late: nat, ev: Events, key: string, other: string, history: seq<int>,
                       latest: int, at: int)
    requires Remembers(window, late, ev, key, history, latest) && other != key
    ensures Remembers(window, late, Recorded(max, window, ev, other, at).0, key, history, latest)
  {
    assert EventsOf(Recorded(max, window, ev, other, at).0, key) == EventsOf(ev, key);
  }

  /** One call. */
  lemma CallRemembers(max: int, window: int, late: nat, ev: Events, call: Event, key: string, history: seq<int>, latest: int)
    requires Remembers(window, late, ev, key, history, latest) && latest - late <= call.at
    ensures var r := Counted(max, window, ev, call.key, call.at);
            && (call.key == key ==> Between(max, window, late, history, call.at, r.1))
            && Remembers(window, late, r.0, key, Extended(history, call, r.1, key), Latest(latest, call.at))
  {
    var now := Latest(latest, call.at);
    LaterRemembers(window, late, ev, key, history, latest, now);
    var kept := if |ev| > KEY_LIMIT then WithoutStale(ev, window, call.at) else ev;
    if |ev| > KEY_LIMIT { DropRemembers(window, late, ev, key, history, now, call.at); }
    if call.key == key {
      RecordRemembers(max, window, late, kept, key, history, now, call.at);
    } else {
      OtherRemembers(max, window, late, kept, key, call.key, history, now, call.at);
    }
  }

  // ----- whole runs -----

  function Extended(history: seq<int>, call: Event, ok: bool, key: string): seq<int> {
    if ok && call.key == key then history + [call.at] else history
  }

  lemma AcceptedStep(history: seq<int>, calls: seq<Event>, answers: seq<bool>, key: string)
    requires |calls| == |answers| > 0
    ensures history + AcceptedTimes(calls, answers, key)
            == Extended(history, calls[0], answers[0], key) + AcceptedTimes(calls[1..], answers[1..], key)
  {
  }

  lemma AcceptedPrefix(history: seq<int>, calls: seq<Event>, answers: seq<bool>, key: string, i: nat)
    requires |calls| == |answers| && 0 < i <= |calls|
    ensures history + AcceptedTimes(calls[..i], answers[..i], key)
            == Extended(history, calls[0], answers[0], key) + AcceptedTimes(calls[1..][..i - 1], answers[1..][..i - 1], key)
  {
    assert calls[..i][1..] == calls[1..][..i - 1] && answers[..i][1..] == answers[1..][..i - 1];
    AcceptedStep(history, calls[..i], answers[..i], key);
  }

  lemma AcceptedNone(history: seq<int>, key: string)
    ensures history + AcceptedTimes([], [], key) == history
  {
  }

  lemma AnswersTail(max: int, window: int, ev: Events, calls: seq<Event>)
    requires calls != []
    ensures var r := Counted(max, window, ev, calls[0].key, calls[0].at);
            Answers(max, window, ev, calls) == [r.1] + Answers(max, window, r.0, calls[1..])
  {
  }

  /** The calls to come respect the lateness, among themselves and against what was served before. */
  ghost predicate ToCome(calls: seq<Event>, late: nat, latest: int) {
    Late(calls, late) && forall i :: 0 <= i < |calls| ==> latest - late <= calls[i].at
  }

  lemma ToComeTail(calls: seq<Event>, late: nat, latest: int)
    requires ToCome(calls, late, latest) && calls != []
    ensures ToCome(calls[1..], late, Latest(latest, calls[0].at))
  {
  }

  /** The i-th answer is bounded by the history before the run and what the run accepted so far. */
  ghost predicate Bounded(max: int, window: int, late: nat, history: seq<int>, calls: seq<Event>, answers: seq<bool>, i: nat) {
    && i < |calls| == |answers|
    && Between(max, window, late, history + AcceptedTimes(calls[..i], answers[..i], calls[i].key), calls[i].at, answers[i])
  }

  lemma BoundedShift(max: int, window: int, late: nat, history: seq<int>, calls: seq<Event>, answers: seq<bool>, i: nat)
    requires 0 < i < |calls| == |answers|
    requires Bounded(max, window, late, Extended(history, calls[0], answers[0], calls[i].key), calls[1..], answers[1..], i - 1)
    ensures Bounded(max, window, late, history, calls, answers, i)
  {
    AcceptedPrefix(history, calls, answers, calls[i].key, i);
    assert calls[1..][i - 1] == calls[i];
  }

  lemma FirstBounded(max: int, window: int, late: nat, ev: Events, history: seq<int>, calls: seq<Event>)
    requires calls != []
    requires Between(max, window, late, history, calls[0].at, Counted(max, window, ev, calls[0].key, calls[0].at).1)
    ensures Bounded(max, window, late, history, calls, Answers(max, window, ev, calls), 0)
  {
    AnswersLength(max, window, ev, calls);
    AnswersTail(max, window, ev, calls);
    AcceptedNone(history, calls[0].key);
  }

  lemma NextBounded(max: int, window: int, late: nat, ev: Events, history: seq<int>, calls: seq<Event>, i: nat)
    requires 0 < i < |calls|
    requires var r := Counted(max, window, ev, calls[0].key, calls[0].at);
             Bounded(max, window, late, Extended(history, calls[0], r.1, calls[i].key), calls[1..], Answers(max, window, r.0, calls[1..]), i - 1)
    ensures Bounded(max, window, late, history, calls, Answers(max, window, ev, calls), i)
  {
    AnswersLength(max, window, ev, calls);
    AnswersTail(max, window, ev, calls);
    var r := Counted(max, window, ev, calls[0].key, calls[0].at);
    assert Answers(max, window, ev, calls)[1..] == Answers(max, window, r.0, calls[1..]);
    BoundedShift(max, window, late, history, calls, Answers(max, window, ev, calls), i);
  }

  lemma {:induction false} RunFrom(max: int, window: int, late: nat, ev: Events, history: seq<int>, latest: int,
                                   calls: seq<Event>, i: nat)
    requires i < |calls| && ToCome(calls, late, latest)
    requires Remembers(window, late, ev, calls[i].key, history, latest)
    ensures Bounded(max, window, late, history, calls, Answers(max, window, ev, calls), i)
    decreases |calls|
  {
    var key := calls[i].key;
    var r := Counted(max, window, ev, calls[0].key, calls[0].at);
    CallRemembers(max, window, late, ev, calls[0], key, history, latest);
    if i == 0 {
      FirstBounded(max, window, late, ev, history, calls);
    } else {
      ToComeTail(calls, late, latest);
      RunFrom(max, window, late, r.0, Extended(history, calls[0], r.1, key), Latest(latest, calls[0].at), calls[1..], i - 1);
      NextBounded(max, window, late, ev, history, calls, i);
    }
  }

  lemma StartsEmpty(window: int, late: nat, key: string, latest: int)
    ensures Remembers(window, late, map[], key, [], latest)
  {
  }

  /** A call is accepted if fewer than max earlier calls of its key were accepted within the closed window that
    * ends now, and only if fewer than max were within the window shortened by twice the lateness. Dropped keys
    * change nothing about it. */
  lemma AcceptsWithin(max: int, window: int, late: nat, calls: seq<Event>, i: nat)
    requires i < |calls| && Late(calls, late)
    ensures |Answers(max, window, map[], calls)| == |calls|
    ensures var answers := Answers(max, window, map[], calls);
            Between(max, window, late, AcceptedTimes(calls[..i], answers[..i], calls[i].key), calls[i].at, answers[i])
  {
    StartsEmpty(window, late, calls[i].key, calls[0].at);
    RunFrom(max, window, late, map[], [], calls[0].at, calls, i);
    var answers := Answers(max, window, map[], calls);
    var before := AcceptedTimes(calls[..i], answers[..i], calls[i].key);
    assert [] + before == before;
  }

  /** Served in the order of their times, a call is accepted exactly when fewer than max earlier calls of its key
    * were accepted within the closed window that ends now. */
  lemma AcceptsExactly(max: int, window: int, calls: seq<Event>, i: nat)
    requires i < |calls| && Late(calls, 0)
    ensures |Answers(max, window, map[], calls)| == |calls|
    ensures var answers := Answers(max, window, map[], calls);
            answers[i] <==> |Recent(AcceptedTimes(calls[..i], answers[..i], calls[i].key), window, calls[i].at)| < max
  {
    AcceptsWithin(max, window, 0, calls, i);
  }

  // ----- the cap -----

  /** How many events lie in the closed interval of this length. */
  function Inside(evs: seq<int>, from: int, length: int): nat {
    if evs == [] then 0
    else Inside(evs[..|evs| - 1], from, length) + if from <= evs[|evs| - 1] <= from + length then 1 else 0
  }

  lemma InsideSnoc(evs: seq<int>, t: int, from: int, length: int)
    ensures Inside(evs + [t], from, length) == Inside(evs, from, length) + if from <= t <= from + length then 1 else 0
  {
    assert (evs + [t])[..|evs + [t]| - 1] == evs;
  }

  lemma {:induction false} InsideIsNewer(evs: seq<int>, from: int, length: int, c: int)
    requires c <= from
    ensures Inside(evs, from, length) <= |Newer(evs, c)|
  {
    if evs != [] { InsideIsNewer(evs[..|evs| - 1], from, length, c); }
  }

  ghost predicate Capped(max: nat, length: int, history: seq<int>) {
    forall from :: Inside(history, from, length) <= max
  }

  lemma AcceptKeepsCap(max: nat, length: int, history: seq<int>, at: int)
    requires Capped(max, length, history) && |Recent(history, length, at)| < max
    ensures Capped(max, length, history + [at])
  {
    RecentIsNewer(history, length, at);
    forall from
      ensures Inside(history + [at], from, length) <= max
    {
      InsideSnoc(history, at, from, length);
      if from <= at <= from + length { InsideIsNewer(history, from, length, at - length); }
    }
  }

  lemma {:induction false} CapFrom(max: nat, window: int, late: nat, ev: Events, key: string, history: seq<int>,
                                   latest: int, calls: seq<Event>)
    requires ToCome(calls, late, latest) && Remembers(window, late, ev, key, history, latest)
    requires Capped(max, window - 2 * late, history)
    ensures |Answers(max, window, ev, calls)| == |calls|
    ensures Capped(max, window - 2 * late, history + AcceptedTimes(calls, Answers(max, window, ev, calls), key))
    decreases |calls|
  {
    AnswersLength(max, window, ev, calls);
    if calls == [] {
      AcceptedNone(history, key);
    } else {
      var r := Counted(max, window, ev, calls[0].key, calls[0].at);
      CallRemembers(max, window, late, ev, calls[0], key, history, latest);
      if r.1 && calls[0].key == key { AcceptKeepsCap(max, window - 2 * late, history, calls[0].at); }
      ToComeTail(calls, late, latest);
      CapFrom(max, window, late, r.0, key, Extended(history, calls[0], r.1, key), Latest(latest, calls[0].at), calls[1..]);
      AnswersTail(max, window, ev, calls);
      AcceptedStep(history, calls, Answers(max, window, ev, calls), key);
    }
  }

  /** No closed time interval as long as the window, less twice the lateness, holds more than max accepted calls
    * of one key. */
  lemma WindowCap(max: nat, window: int, late: nat, calls: seq<Event>, key: string)
    requires Late(calls, late)
    ensures |Answers(max, window, map[], calls)| == |calls|
    ensures Capped(max, window - 2 * late, AcceptedTimes(calls, Answers(max, window, map[], calls), key))
  {
    var start := if calls == [] then 0 else calls[0].at;
    StartsEmpty(window, late, key, start);
    CapFrom(max, window, late, map[], key, [], start, calls);
    var times := AcceptedTimes(calls, Answers(max, window, map[], calls), key);
    assert [] + times == times;
  }
}
