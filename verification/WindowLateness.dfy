/** How much calls that are served out of the order of their times cost the sliding window's cap: a closed interval
  * is safe exactly if it is shorter than the window by twice the lateness. */
module WindowLateness {
  import opened RateLimit
  import opened WindowBounds

  // ----- runs -----

  /** What a limiter does with a call: its new events, and whether it accepts. */
  type Limiter = (Events, Event) -> (Events, bool)

  function Window(max: int, window: int): Limiter {
    (ev: Events, e: Event) => Counted(max, window, ev, e.key, e.at)
  }

  function State(step: Limiter, ev: Events, calls: seq<Event>): Events
    decreases |calls|
  {
    if calls == [] then ev else State(step, step(ev, calls[0]).0, calls[1..])
  }

  /** The times at which key "k" is accepted. */
  function Times(step: Limiter, ev: Events, calls: seq<Event>): seq<int>
    decreases |calls|
  {
    if calls == [] then []
    else (if step(ev, calls[0]).1 && calls[0].key == "k" then [calls[0].at] else []) + Times(step, step(ev, calls[0]).0, calls[1..])
  }

  lemma {:induction false} TimesAreAccepted(max: int, window: int, ev: Events, calls: seq<Event>)
    ensures |Answers(max, window, ev, calls)| == |calls|
    ensures AcceptedTimes(calls, Answers(max, window, ev, calls), "k") == Times(Window(max, window), ev, calls)
    decreases |calls|
  {
    AnswersLength(max, window, ev, calls);
    if calls != [] {
      AnswersTail(max, window, ev, calls);
      TimesAreAccepted(max, window, Counted(max, window, ev, calls[0].key, calls[0].at).0, calls[1..]);
    }
  }

  lemma TimesCons(step: Limiter, ev: Events, e: Event, calls: seq<Event>)
    ensures Times(step, ev, [e] + calls) == (if step(ev, e).1 && e.key == "k" then [e.at] else []) + Times(step, step(ev, e).0, calls)
  {
    assert ([e] + calls)[1..] == calls;
  }

  lemma {:induction false} TimesConcat(step: Limiter, ev: Events, a: seq<Event>, b: seq<Event>)
    ensures Times(step, ev, a + b) == Times(step, ev, a) + Times(step, State(step, ev, a), b)
    decreases |a|
  {
    if a == [] {
      assert a + b == b;
    } else {
      var next := step(ev, a[0]).0;
      assert a + b == [a[0]] + (a[1..] + b) && a == [a[0]] + a[1..];
      TimesConcat(step, next, a[1..], b);
      TimesCons(step, ev, a[0], a[1..] + b);
      TimesCons(step, ev, a[0], a[1..]);
    }
  }

  lemma {:induction false} StateConcat(step: Limiter, ev: Events, a: seq<Event>, b: seq<Event>)
    ensures State(step, ev, a + b) == State(step, State(step, ev, a), b)
    decreases |a|
  {
    if a == [] {
      assert a + b == b;
    } else {
      assert (a + b)[1..] == a[1..] + b;
      StateConcat(step, step(ev, a[0]).0, a[1..], b);
    }
  }

  lemma {:induction false} InsideConcat(a: seq<int>, b: seq<int>, from: int, length: int)
    ensures Inside(a + b, from, length) == Inside(a, from, length) + Inside(b, from, length)
    decreases |b|
  {
    if b == [] {
      assert a + b == a;
    } else {
      var init, last := b[..|b| - 1], b[|b| - 1];
      assert a + b == (a + init) + [last];
      InsideConcat(a, init, from, length);
      InsideSnoc(a + init, last, from, length);
    }
  }

  /** How many calls of "k" are accepted with a time in the interval. */
  function Score(step: Limiter, ev: Events, calls: seq<Event>, from: int, length: int): nat {
    Inside(Times(step, ev, calls), from, length)
  }

  lemma ScoreConcat(step: Limiter, ev: Events, a: seq<Event>, b: seq<Event>, from: int, length: int)
    ensures Score(step, ev, a + b, from, length)
            == Score(step, ev, a, from, length) + Score(step, State(step, ev, a), b, from, length)
  {
    TimesConcat(step, ev, a, b);
    InsideConcat(Times(step, ev, a), Times(step, State(step, ev, a), b), from, length);
  }

  // ----- calls of one key at one moment -----

  function Rep(t: int, n: nat): (evs: seq<int>)
    ensures |evs| == n && forall i :: 0 <= i < n ==> evs[i] == t
  {
    seq(n, _ => t)
  }

  lemma {:induction false} AllKept(evs: seq<int>, window: int, at: int)
    requires forall i :: 0 <= i < |evs| ==> at - evs[i] <= window
    ensures Recent(evs, window, at) == evs
  {
    if evs != [] {
      AllKept(evs[..|evs| - 1], window, at);
      assert evs[..|evs| - 1] + [evs[|evs| - 1]] == evs;
    }
  }

  /** A call below the cap, with nothing to forget, is accepted and stored. */
  lemma KeyCall(max: int, window: nat, ev: Events, at: int)
    requires var evs := EventsOf(ev, "k"); |evs| < max && forall i :: 0 <= i < |evs| ==> at - evs[i] <= window
    ensures var r := Counted(max, window, ev, "k", at);
            r.1 && EventsOf(r.0, "k") == EventsOf(ev, "k") + [at] && (ev.Keys <= {"k"} ==> r.0.Keys == {"k"})
  {
    var evs := EventsOf(ev, "k");
    AllKept(evs, window, at);
    var kept := if |ev| > KEY_LIMIT then WithoutStale(ev, window, at) else ev;
    assert EventsOf(kept, "k") == evs;
    RecordStores(max, window, kept, "k", at);
  }

  function Calls(at: int, n: nat): (calls: seq<Event>)
    ensures |calls| == n && forall i :: 0 <= i < n ==> calls[i] == Event("k", at)
  {
    if n == 0 then [] else [Event("k", at)] + Calls(at, n - 1)
  }

  /** Below the cap, another call at the same moment is accepted and stored. */
  ghost predicate Repeats(step: Limiter, max: nat) {
    forall ev, at, i: nat :: RepeatsAt(step, max, ev, at, i)
  }

  ghost predicate RepeatsAt(step: Limiter, max: nat, ev: Events, at: int, i: nat) {
    i < max && EventsOf(ev, "k") == Rep(at, i) ==> Repeated(ev, step(ev, Event("k", at)), at, i)
  }

  ghost predicate Repeated(ev: Events, r: (Events, bool), at: int, i: nat) {
    r.1 && EventsOf(r.0, "k") == Rep(at, i + 1) && (ev.Keys <= {"k"} ==> r.0.Keys <= {"k"})
  }

  lemma WindowRepeats(max: nat, window: nat)
    ensures Repeats(Window(max, window), max)
  {
    var step := Window(max, window);
    forall ev, at, i: nat
      ensures RepeatsAt(step, max, ev, at, i)
    {
      if i < max && EventsOf(ev, "k") == Rep(at, i) {
        KeyCall(max, window, ev, at);
        assert Rep(at, i) + [at] == Rep(at, i + 1);
      }
    }
  }

  lemma OneScores(step: Limiter, ev: Events, calls: seq<Event>, from: int, length: int)
    requires calls != [] && calls[0].key == "k" && from <= calls[0].at <= from + length && step(ev, calls[0]).1
    ensures Score(step, ev, calls, from, length) == Score(step, step(ev, calls[0]).0, calls[1..], from, length) + 1
  {
    var at := calls[0].at;
    InsideConcat([at], Times(step, step(ev, calls[0]).0, calls[1..]), from, length);
    assert [at] == [] + [at];
    InsideSnoc([], at, from, length);
  }

  lemma {:induction false} KeyCalls(step: Limiter, max: nat, ev: Events, at: int, i: nat, n: nat, from: int, length: int)
    requires Repeats(step, max) && EventsOf(ev, "k") == Rep(at, i) && i + n <= max && from <= at <= from + length
    ensures Score(step, ev, Calls(at, n), from, length) == n
    ensures var next := State(step, ev, Calls(at, n));
            EventsOf(next, "k") == Rep(at, i + n) && (ev.Keys <= {"k"} ==> next.Keys <= {"k"})
    decreases n
  {
    if n > 0 {
      var next := step(ev, Event("k", at)).0;
      assert RepeatsAt(step, max, ev, at, i);
      KeyCalls(step, max, next, at, i + 1, n - 1, from, length);
      assert Calls(at, n)[1..] == Calls(at, n - 1);
      OneScores(step, ev, Calls(at, n), from, length);
    }
  }

  // ----- filling the map -----

  function Fill(i: nat, n: nat): (calls: seq<Event>)
    requires i <= n
    ensures |calls| == n - i && forall j :: 0 <= j < |calls| ==> calls[j].at == 0
    decreases n - i
  {
    if i == n then [] else [Event(Name(i), 0)] + Fill(i + 1, n)
  }

  /** While the map is not full, a call of another key stores that key and leaves "k" alone. */
  ghost predicate Collects(step: Limiter) {
    forall ev, e: Event :: CollectsOne(step, ev, e)
  }

  ghost predicate CollectsOne(step: Limiter, ev: Events, e: Event) {
    |ev| <= KEY_LIMIT && e.key != "k" ==> Collected(ev, step(ev, e).0, e.key)
  }

  ghost predicate Collected(ev: Events, next: Events, key: string) {
    next.Keys == ev.Keys + {key} && EventsOf(next, "k") == EventsOf(ev, "k") && |next| == |ev| + if key in ev then 0 else 1
  }

  lemma OtherCall(max: int, window: int, ev: Events, key: string, at: int)
    requires |ev| <= KEY_LIMIT && key != "k"
    ensures Collected(ev, Counted(max, window, ev, key, at).0, key)
  {
    var next := Counted(max, window, ev, key, at).0;
    assert next.Keys == ev.Keys + {key};
    assert |next.Keys| == |next| && |ev.Keys| == |ev|;
    if key in ev { assert next.Keys == ev.Keys; }
  }

  lemma WindowCollects(max: int, window: int)
    ensures Collects(Window(max, window))
  {
    var step := Window(max, window);
    forall ev, e: Event
      ensures CollectsOne(step, ev, e)
    {
      if |ev| <= KEY_LIMIT && e.key != "k" { OtherCall(max, window, ev, e.key, e.at); }
    }
  }

  lemma {:induction false} Filled(step: Limiter, ev: Events, i: nat, n: nat)
    requires Collects(step) && i <= n <= KEY_LIMIT && |ev| == i + 1 && forall k :: k in ev ==> |k| < i + 2
    ensures var next := State(step, ev, Fill(i, n)); |next| == n + 1 && EventsOf(next, "k") == EventsOf(ev, "k")
    decreases n - i
  {
    if i < n {
      var next := step(ev, Event(Name(i), 0)).0;
      assert CollectsOne(step, ev, Event(Name(i), 0));
      Filled(step, next, i + 1, n);
      assert Fill(i, n)[1..] == Fill(i + 1, n);
    }
  }

  /** A call of another key that finds the map full drops the events of "k" if the last of them is too old. */
  lemma DropsKey(max: int, window: int, ev: Events, at: int)
    requires |ev| > KEY_LIMIT && EventsOf(ev, "k") != []
    requires at - EventsOf(ev, "k")[|EventsOf(ev, "k")| - 1] > window
    ensures EventsOf(Counted(max, window, ev, Name(0), at).0, "k") == []
  {
    assert |Name(0)| == 2;
    assert "k" !in WithoutStale(ev, window, at);
  }

  // ----- the run -----

  /** When the emptied key comes back: as early as the lateness allows, but not before 0. */
  function Back(window: nat, late: nat): int {
    if window + 1 < 2 * late then 0 else window + 1 - 2 * late
  }

  function Opening(max: nat, late: nat): seq<Event>
    requires max >= 1
  {
    Calls(0, max - 1) + [Event("k", 0 - late)]
  }

  function Ending(max: nat, window: nat, late: nat): seq<Event> {
    [Event(Name(0), window + 1 - late)] + Calls(Back(window, late), max)
  }

  /** All but one of the cap at 0, one late call, other keys until the map is full, one of them again, and the cap at
    * the end. */
  function Overtaken(max: nat, window: nat, late: nat): seq<Event>
    requires max >= 1
  {
    Opening(max, late) + (Fill(0, KEY_LIMIT) + Ending(max, window, late))
  }

  lemma OvertakenLate(max: nat, window: nat, late: nat)
    requires max >= 1
    ensures Late(Overtaken(max, window, late), late)
  {
  }

  /** After the opening the late call is the last event of the key. */
  lemma Opened(max: nat, window: nat, late: nat, length: nat) returns (s1: Events)
    requires max >= 2
    ensures State(Window(max, window), map[], Opening(max, late)) == s1 && |s1| == 1 && s1.Keys == {"k"}
    ensures EventsOf(s1, "k") != [] && EventsOf(s1, "k")[|EventsOf(s1, "k")| - 1] == 0 - late
    ensures Score(Window(max, window), map[], Opening(max, late), 0, length) >= max - 1
  {
    var step := Window(max, window);
    WindowRepeats(max, window);
    assert EventsOf(map[], "k") == Rep(0, 0);
    KeyCalls(step, max, map[], 0, 0, max - 1, 0, length);
    var s0 := State(step, map[], Calls(0, max - 1));
    s1 := LastOpening(max, window, late, s0);
    StateConcat(step, map[], Calls(0, max - 1), [Event("k", 0 - late)]);
    ScoreConcat(step, map[], Calls(0, max - 1), [Event("k", 0 - late)], 0, length);
  }

  lemma LastOpening(max: nat, window: nat, late: nat, s0: Events) returns (s1: Events)
    requires max >= 2 && EventsOf(s0, "k") == Rep(0, max - 1) && s0.Keys <= {"k"}
    ensures State(Window(max, window), s0, [Event("k", 0 - late)]) == s1 && |s1| == 1 && s1.Keys == {"k"}
    ensures EventsOf(s1, "k") != [] && EventsOf(s1, "k")[|EventsOf(s1, "k")| - 1] == 0 - late
  {
    KeyCall(max, window, s0, 0 - late);
    s1 := Counted(max, window, s0, "k", 0 - late).0;
    assert |s1.Keys| == |s1|;
    assert [Event("k", 0 - late)][1..] == [];
  }

  lemma Middle(step: Limiter, s1: Events, rest: seq<Event>, length: nat) returns (s2: Events)
    requires Collects(step) && |s1| == 1 && s1.Keys == {"k"}
    ensures |s2| > KEY_LIMIT && EventsOf(s2, "k") == EventsOf(s1, "k")
    ensures Score(step, s1, Fill(0, KEY_LIMIT) + rest, 0, length) >= Score(step, s2, rest, 0, length)
  {
    Filled(step, s1, 0, KEY_LIMIT);
    s2 := State(step, s1, Fill(0, KEY_LIMIT));
    ScoreConcat(step, s1, Fill(0, KEY_LIMIT), rest, 0, length);
  }

  lemma Emptied(max: nat, window: nat, late: nat, s2: Events, rest: seq<Event>, length: nat) returns (s3: Events)
    requires |s2| > KEY_LIMIT
    requires EventsOf(s2, "k") != [] && EventsOf(s2, "k")[|EventsOf(s2, "k")| - 1] == 0 - late
    ensures EventsOf(s3, "k") == []
    ensures Score(Window(max, window), s2, [Event(Name(0), window + 1 - late)] + rest, 0, length)
            >= Score(Window(max, window), s3, rest, 0, length)
  {
    var step, one := Window(max, window), [Event(Name(0), window + 1 - late)];
    DropsKey(max, window, s2, window + 1 - late);
    s3 := State(step, s2, one);
    assert one[1..] == [];
    ScoreConcat(step, s2, one, rest, 0, length);
  }

  lemma EndingScores(max: nat, window: nat, late: nat, length: nat, s2: Events)
    requires Back(window, late) <= length && |s2| > KEY_LIMIT
    requires EventsOf(s2, "k") != [] && EventsOf(s2, "k")[|EventsOf(s2, "k")| - 1] == 0 - late
    ensures Score(Window(max, window), s2, Ending(max, window, late), 0, length) >= max
  {
    var step, d := Window(max, window), Calls(Back(window, late), max);
    var s3 := Emptied(max, window, late, s2, d, length);
    assert EventsOf(s3, "k") == Rep(Back(window, late), 0);
    WindowRepeats(max, window);
    KeyCalls(step, max, s3, Back(window, late), 0, max, 0, length);
  }

  /** Of the opening and the end, twice the cap less one call lie in an interval that reaches to the end. */
  lemma OvertakenScores(max: nat, window: nat, late: nat, length: nat)
    requires max >= 2 && Back(window, late) <= length
    ensures Score(Window(max, window), map[], Overtaken(max, window, late), 0, length) >= 2 * max - 1
  {
    var step, rest := Window(max, window), Ending(max, window, late);
    WindowCollects(max, window);
    var s1 := Opened(max, window, late, length);
    var s2 := Middle(step, s1, rest, length);
    EndingScores(max, window, late, length, s2);
    ScoreConcat(step, map[], Opening(max, late), Fill(0, KEY_LIMIT) + rest, 0, length);
  }

  /** The cap holds of intervals of this length, in every run with this lateness and for every key. */
  ghost predicate CapHolds(max: nat, window: nat, late: nat, length: int) {
    forall calls, key :: Late(calls, late) && |Answers(max, window, map[], calls)| == |calls| ==>
      Capped(max, length, AcceptedTimes(calls, Answers(max, window, map[], calls), key))
  }

  lemma LongIntervalsBreak(max: nat, window: nat, late: nat, length: nat)
    requires max >= 2 && length > window - 2 * late
    ensures !CapHolds(max, window, late, length)
  {
    var calls, key := Overtaken(max, window, late), "k";
    OvertakenLate(max, window, late);
    OvertakenScores(max, window, late, length);
    TimesAreAccepted(max, window, map[], calls);
    var from := 0;
    assert Inside(AcceptedTimes(calls, Answers(max, window, map[], calls), key), from, length) > max;
    assert !Capped(max, length, AcceptedTimes(calls, Answers(max, window, map[], calls), key));
  }

  lemma {:induction false} ShorterInside(evs: seq<int>, from: int, short: int, long: int)
    requires short <= long
    ensures Inside(evs, from, short) <= Inside(evs, from, long)
  {
    if evs != [] { ShorterInside(evs[..|evs| - 1], from, short, long); }
  }

  lemma {:induction false} NothingInside(evs: seq<int>, from: int, length: int)
    requires length < 0
    ensures Inside(evs, from, length) == 0
  {
    if evs != [] { NothingInside(evs[..|evs| - 1], from, length); }
  }

  lemma ShortHolds(max: nat, window: nat, late: nat, length: int, times: seq<int>)
    requires length <= window - 2 * late || length < 0
    requires Capped(max, window - 2 * late, times)
    ensures Capped(max, length, times)
  {
    forall from
      ensures Inside(times, from, length) <= max
    {
      if length < 0 {
        NothingInside(times, from, length);
      } else {
        ShorterInside(times, from, length, window - 2 * late);
      }
    }
  }

  lemma ShortIntervalsHold(max: nat, window: nat, late: nat, length: int)
    requires length <= window - 2 * late || length < 0
    ensures CapHolds(max, window, late, length)
  {
    forall calls, key | Late(calls, late) && |Answers(max, window, map[], calls)| == |calls|
      ensures Capped(max, length, AcceptedTimes(calls, Answers(max, window, map[], calls), key))
    {
      WindowCap(max, window, late, calls, key);
      ShortHolds(max, window, late, length, AcceptedTimes(calls, Answers(max, window, map[], calls), key));
    }
  }

  /** For caps of at least two, the closed intervals that are safe in every run are exactly those that are at most as
    * long as the window less twice the lateness. */
  lemma CapExactly(max: nat, window: nat, late: nat, length: nat)
    requires max >= 2
    ensures CapHolds(max, window, late, length) <==> length <= window - 2 * late
  {
    if length <= window - 2 * late {
      ShortIntervalsHold(max, window, late, length);
    } else {
      LongIntervalsBreak(max, window, late, length);
    }
  }
}
