/**
  What an undecided verdict is worth on a stream in store-timestamp order, which is how the gate feeds its monitors:
  nothing that comes is earlier than what was there.
*/
module MonitorInOrder {
  import opened Common
  import opened Sorting
  import opened MonitorModel
  import opened MonitorSoundness
  import opened MonitorMeaning
  import opened MonitorOrderOpen
  import opened MonitorOpen

  ghost predicate Continues(events: seq<Event>, more: seq<Event>) {
    Ascending(STREAMATMOST, events + more)
  }

  /** Some continuation in stream order makes the check pass. */
  ghost predicate MayPass(m: Monitor, events: seq<Event>)
    requires Fresh(m)
  {
    exists more: seq<Event> :: Continues(events, more) && RunMonitor(m, events + more, true).passed
  }

  ghost predicate MayFail(m: Monitor, events: seq<Event>)
    requires Fresh(m)
  {
    exists more: seq<Event> :: Continues(events, more) && !RunMonitor(m, events + more, true).passed
  }

  function LastOf(events: seq<Event>): Option<Event> {
    if events == [] then None else Some(events[|events| - 1])
  }

  /** An event with a timestamp may still come. */
  predicate StillTimed(last: Option<Event>) {
    last.None? || last.value.ts.Some?
  }

  /** The key of the last event; before the first one, any. */
  function KeyAt(last: Option<Event>): Key {
    if last.Some? && last.value.ts.Some? then KeyOf(last.value) else (0, 0)
  }

  /** Every name that did not occur occurs with this key. */
  function Filled(names: seq<Field>, keys: map<Field, Key>, k: Key): map<Field, Key> {
    map n | n in names :: if n in keys then keys[n] else k
  }

  /**
    Both outcomes lie ahead. An order can pass if it would with every missing name at the last event's key; an order
    or a heartbeat is dead after an event without a timestamp.
  */
  ghost predicate OpenInOrder(m: Monitor, last: Option<Event>) {
    match m
    case Order(names, within, keys) =>
      !Passes(m) && StillTimed(last) && Passes(Order(names, within, Filled(names, keys, KeyAt(last))))
    case Heartbeat(_, every, _, _, maxGap) => StillTimed(last) && maxGap as real <= every * 1000000.0
    case _ => OpenAfter(m, last)
  }

  // -------------------------------------------------------------------------
  // continuations in order
  // -------------------------------------------------------------------------

  lemma ContinuesIff(events: seq<Event>, more: seq<Event>)
    requires Ascending(STREAMATMOST, events)
    ensures Continues(events, more) <==> Ascending(STREAMATMOST, more) && AllCome(LastOf(events), more)
  {
    var all, n := events + more, |events|;
    if Continues(events, more) {
      forall e | e in more ensures Comes(LastOf(events), e) {
        var j :| 0 <= j < |more| && more[j] == e;
        assert n > 0 ==> STREAMATMOST(all[n - 1], all[n + j]);
      }
      forall i, j | 0 <= i < j < |more| ensures STREAMATMOST(more[i], more[j]) {
        assert STREAMATMOST(all[n + i], all[n + j]);
      }
    } else if Ascending(STREAMATMOST, more) && AllCome(LastOf(events), more) {
      forall i, j | 0 <= i < j < |all| ensures STREAMATMOST(all[i], all[j]) {
        if i < n <= j {
          assert more[j - n] in more && Comes(LastOf(events), more[j - n]);
          assert i == n - 1 || STREAMATMOST(events[i], events[n - 1]);
        } else if n <= i {
          assert all[i] == more[i - n] && all[j] == more[j - n];
        }
      }
    }
  }

  lemma NothingContinues(events: seq<Event>)
    requires Ascending(STREAMATMOST, events)
    ensures Continues(events, []) && events + [] == events
  {
    ContinuesIff(events, []);
  }

  /** Equal but for the indices of violations. */
  ghost predicate Alike(a: Monitor, b: Monitor) {
    if a.Conforms? then
      b.Conforms? && b == a.(violations := b.violations) && |a.violations| == |b.violations|
    else
      a == b
  }

  lemma {:induction false} IndexIsForgotten(r: Running, s: Running, events: seq<Event>, i: int, j: int)
    requires Shaped(r.state) && Shaped(s.state) && Alike(r.state, s.state)
    ensures Alike(Feed(r, events, i).state, Feed(s, events, j).state)
    decreases |events|
  {
    if events != [] { IndexIsForgotten(Step(r, events[0], i), Step(s, events[0], j), events[1..], i + 1, j + 1); }
  }

  lemma PassedAfter(m: Monitor, events: seq<Event>, more: seq<Event>)
    requires Fresh(m)
    ensures RunMonitor(m, events + more, true).passed <==> Passes(Feed(Feed(Start(m), events, 0), more, 0).state)
  {
    var r := Feed(Start(m), events, 0);
    FeedInPieces(Start(m), events, more, 0);
    IndexIsForgotten(r, r, more, |events|, 0);
  }

  // -------------------------------------------------------------------------
  // checks that do not look at times
  // -------------------------------------------------------------------------

  /** For such a check the continuation can be sorted. */
  lemma SortedAlike(m: Monitor, events: seq<Event>, more: seq<Event>)
    requires Fresh(m) && !m.Order? && !m.Heartbeat? && Ascending(STREAMATMOST, events) && AllCome(LastOf(events), more)
    ensures Continues(events, SortEvents(more))
    ensures RunMonitor(m, events + SortEvents(more), true).passed <==> RunMonitor(m, events + more, true).passed
  {
    var sorted := SortEvents(more);
    SameElements(sorted, more);
    ContinuesIff(events, sorted);
    assert multiset(events + sorted) == multiset(events + more);
    PassesIffJudged(m, events + sorted);
    PassesIffJudged(m, events + more);
    CountedAlike(m, events + sorted, events + more);
  }

  lemma MayIsCan(m: Monitor, events: seq<Event>)
    requires Fresh(m) && !m.Order? && !m.Heartbeat? && Ascending(STREAMATMOST, events)
    ensures var r, last := Feed(Start(m), events, 0), LastOf(events);
            (MayPass(m, events) <==> CanPass(r, last)) && (MayFail(m, events) <==> CanFail(r, last))
  {
    var r, last := Feed(Start(m), events, 0), LastOf(events);
    forall more: seq<Event> | Continues(events, more)
      ensures AllCome(last, more)
      ensures RunMonitor(m, events + more, true).passed <==> Passes(Feed(r, more, 0).state)
    {
      ContinuesIff(events, more);
      PassedAfter(m, events, more);
    }
    if more: seq<Event> :| AllCome(last, more) && Passes(Feed(r, more, 0).state) {
      PassedAfter(m, events, more);
      SortedAlike(m, events, more);
    }
    if more: seq<Event> :| AllCome(last, more) && !Passes(Feed(r, more, 0).state) {
      PassedAfter(m, events, more);
      SortedAlike(m, events, more);
    }
  }

  // -------------------------------------------------------------------------
  // after an event without a timestamp
  // -------------------------------------------------------------------------

  lemma {:induction false} NothingTimedComes(r: Running, last: Option<Event>, more: seq<Event>, idx: int)
    requires (r.state.Order? || r.state.Heartbeat?) && !StillTimed(last) && AllCome(last, more)
    ensures Feed(r, more, idx).state == r.state
    decreases |more|
  {
    if more != [] {
      assert more[0] in more && AllCome(last, more[1..]);
      NothingTimedComes(Step(r, more[0], idx), last, more[1..], idx + 1);
    }
  }

  lemma DeadWithoutTimes(m: Monitor, events: seq<Event>)
    requires Fresh(m) && (m.Order? || m.Heartbeat?) && Ascending(STREAMATMOST, events) && !StillTimed(LastOf(events))
    ensures !(MayPass(m, events) && MayFail(m, events))
  {
    var r := Feed(Start(m), events, 0);
    KindStays(Start(m), events, 0);
    forall more: seq<Event> | Continues(events, more)
      ensures RunMonitor(m, events + more, true).passed <==> Passes(r.state)
    {
      ContinuesIff(events, more);
      PassedAfter(m, events, more);
      NothingTimedComes(r, LastOf(events), more, 0);
    }
  }

  // -------------------------------------------------------------------------
  // heartbeat
  // -------------------------------------------------------------------------

  lemma BeatsContinue(events: seq<Event>, name: Field, first: int, late: int)
    requires Ascending(STREAMATMOST, events) && StillTimed(LastOf(events))
    requires KeyAt(LastOf(events)).0 < first <= late
    ensures Continues(events, [Beat(name, first)]) && Continues(events, [Beat(name, first), Beat(name, late)])
  {
    ContinuesIff(events, [Beat(name, first)]);
    ContinuesIff(events, [Beat(name, first), Beat(name, late)]);
  }

  lemma HeartbeatState(m: Monitor, events: seq<Event>)
    requires m.Heartbeat? && Fresh(m)
    ensures var s := Feed(Start(m), events, 0).state;
            s.Heartbeat? && s.name == m.name && s.every == m.every && s.maxGap >= 0 && (s.beats == 0 ==> s.lastTs.None?)
  {
    FeedTallies(m, events);
    HeartbeatGrows(Start(m), events, 0);
  }

  lemma HeartbeatMayBoth(m: Monitor, events: seq<Event>)
    requires m.Heartbeat? && Fresh(m) && Ascending(STREAMATMOST, events) && StillTimed(LastOf(events))
    requires Feed(Start(m), events, 0).state.Heartbeat?
    requires Feed(Start(m), events, 0).state.maxGap as real <= m.every * 1000000.0
    ensures MayPass(m, events) && MayFail(m, events)
  {
    var r := Feed(Start(m), events, 0);
    HeartbeatState(m, events);
    NothingContinues(events);
    var first := KeyAt(LastOf(events)).0 + 1;
    var late := first + (m.every * 1000000.0).Floor + 1;
    var one, two := [Beat(m.name, first)], [Beat(m.name, first), Beat(m.name, late)];
    BeatsContinue(events, m.name, first, late);
    BeatLate(r, first, late, 0);
    PassedAfter(m, events, two);
    if r.state.beats == 0 {
      OneMore(r, one[0]);
      PassedAfter(m, events, one);
    } else {
      PassedAfter(m, events, []);
      assert Feed(r, [], 0) == r;
    }
  }

  lemma HeartbeatInOrder(m: Monitor, events: seq<Event>)
    requires m.Heartbeat? && Fresh(m) && Ascending(STREAMATMOST, events)
    ensures MayPass(m, events) && MayFail(m, events) <==> OpenInOrder(Feed(Start(m), events, 0).state, LastOf(events))
  {
    var r := Feed(Start(m), events, 0);
    HeartbeatState(m, events);
    if !StillTimed(LastOf(events)) {
      DeadWithoutTimes(m, events);
    } else if OpenInOrder(r.state, LastOf(events)) {
      HeartbeatMayBoth(m, events);
    } else if more: seq<Event> :| Continues(events, more) && RunMonitor(m, events + more, true).passed {
      PassedAfter(m, events, more);
      HeartbeatGrows(r, more, 0);
    }
  }

  // -------------------------------------------------------------------------
  // order
  // -------------------------------------------------------------------------

  /** The known keys belong to the listed names and lie no later than the last event. */
  ghost predicate KeysSoFar(names: seq<Field>, keys: map<Field, Key>, last: Option<Event>) {
    && (forall n :: n in keys ==> n in names)
    && (last.None? ==> keys == map[])
    && (last.Some? && last.value.ts.Some? ==> forall n :: n in keys ==> KeyAtMost(keys[n], KeyOf(last.value)))
  }

  lemma OrderState(m: Monitor, events: seq<Event>)
    requires m.Order? && Fresh(m) && Ascending(STREAMATMOST, events)
    ensures var s := Feed(Start(m), events, 0).state;
            s.Order? && s.names == m.names && s.within == m.within && KeysSoFar(m.names, s.keys, LastOf(events))
  {
    FeedTallies(m, events);
    var s := Feed(Start(m), events, 0).state;
    if LastOf(events).Some? && LastOf(events).value.ts.Some? {
      forall n | n in s.keys ensures KeyAtMost(s.keys[n], KeyOf(LastOf(events).value)) {
        ProjectMember(Times(n), events, s.keys[n]);
        var e :| e in events && Times(n)(e) == Some(s.keys[n]);
        var i :| 0 <= i < |events| && events[i] == e;
        assert i == |events| - 1 || STREAMATMOST(events[i], events[|events| - 1]);
      }
    }
  }

  /** What becomes known later is not earlier than the last event. */
  lemma {:induction false} NewKeysAreLate(r: Running, last: Event, more: seq<Event>, idx: int)
    requires r.state.Order? && last.ts.Some? && AllCome(Some(last), more)
    ensures var m := Feed(r, more, idx).state;
            m.Order? && m == r.state.(keys := m.keys)
            && (forall n :: n in r.state.keys ==> n in m.keys && m.keys[n] == r.state.keys[n])
            && forall n :: n in m.keys && n !in r.state.keys ==> KeyAtMost(KeyOf(last), m.keys[n])
    decreases |more|
  {
    if more != [] {
      assert more[0] in more && AllCome(Some(last), more[1..]);
      NewKeysAreLate(Step(r, more[0], idx), last, more[1..], idx + 1);
    }
  }

  /** If the keys pass, they still do with every late one moved down to the earliest place left. */
  lemma EarliestPasses(names: seq<Field>, within: Option<real>, keys: map<Field, Key>, after: map<Field, Key>, k: Key)
    requires Passes(Order(names, within, after))
    requires forall n :: n in keys ==> n in after && after[n] == keys[n] && KeyAtMost(keys[n], k)
    requires forall n :: n in after && n !in keys ==> KeyAtMost(k, after[n])
    ensures Passes(Order(names, within, Filled(names, keys, k)))
  {
    var filled := Filled(names, keys, k);
    assert AllKnown(names, filled);
    KnownAll(names, after);
    KnownAll(names, filled);
    var ks, fs := Known(names, after), Known(names, filled);
    forall i | 0 <= i < |names| - 1 ensures KeyAtMost(fs[i], fs[i + 1]) && !GapExceeded(names, within, filled, i) {
      assert KeyAtMost(ks[i], ks[i + 1]) && !GapExceeded(names, within, after, i);
    }
  }

  /** Before the first event one place is as good as another. */
  lemma AnyPlacePasses(names: seq<Field>, within: Option<real>, after: map<Field, Key>, k: Key)
    requires Passes(Order(names, within, after))
    ensures Passes(Order(names, within, Filled(names, map[], k)))
  {
    var filled := Filled(names, map[], k);
    assert AllKnown(names, filled);
    KnownAll(names, after);
    KnownAll(names, filled);
    var ks, fs := Known(names, after), Known(names, filled);
    forall i | 0 <= i < |names| - 1 ensures KeyAtMost(fs[i], fs[i + 1]) && !GapExceeded(names, within, filled, i) {
      assert KeyAtMost(ks[i], ks[i + 1]) && !GapExceeded(names, within, after, i);
    }
  }

  lemma PassingFills(m: Monitor, events: seq<Event>, more: seq<Event>)
    requires m.Order? && Fresh(m) && Ascending(STREAMATMOST, events) && StillTimed(LastOf(events))
    requires Continues(events, more) && RunMonitor(m, events + more, true).passed
    ensures var s := Feed(Start(m), events, 0).state;
            s.Order? && Passes(Order(m.names, m.within, Filled(m.names, s.keys, KeyAt(LastOf(events)))))
  {
    var r, last := Feed(Start(m), events, 0), LastOf(events);
    OrderState(m, events);
    ContinuesIff(events, more);
    PassedAfter(m, events, more);
    OrderGrows(r, more, 0);
    var after := Feed(r, more, 0).state.keys;
    if last.Some? {
      NewKeysAreLate(r, last.value, more, 0);
      EarliestPasses(m.names, m.within, r.state.keys, after, KeyAt(last));
    } else {
      AnyPlacePasses(m.names, m.within, after, KeyAt(last));
    }
  }

  function Occurrences(names: seq<Field>, k: Key): (es: seq<Event>)
    ensures |es| == |names| && forall e :: e in es ==> e.ts == Some(k.0) && e.sq == Some(k.1)
  {
    if names == [] then [] else [Occurrence(names[0], k)] + Occurrences(names[1..], k)
  }

  /** Every name of a list occurs at one place. */
  lemma {:induction false} OccurrencesFill(r: Running, names: seq<Field>, k: Key, idx: int)
    requires r.state.Order? && forall n :: n in names ==> n in r.state.names
    ensures var m := Feed(r, Occurrences(names, k), idx).state;
            && m.Order? && m == r.state.(keys := m.keys) && m.keys.Keys == r.state.keys.Keys + (set n | n in names)
            && forall n :: n in m.keys ==> m.keys[n] == if n in r.state.keys then r.state.keys[n] else k
    decreases |names|
  {
    if names != [] {
      var e := Occurrence(names[0], k);
      assert names[0] in names && Occurrences(names, k)[0] == e &&
        Occurrences(names, k)[1..] == Occurrences(names[1..], k);
      OccurrencesFill(Step(r, e, idx), names[1..], k, idx + 1);
      assert forall n :: n in names <==> n == names[0] || n in names[1..];
    }
  }

  lemma FillingPasses(m: Monitor, events: seq<Event>)
    requires m.Order? && Fresh(m) && Ascending(STREAMATMOST, events) && StillTimed(LastOf(events))
    requires Feed(Start(m), events, 0).state.Order?
    requires Passes(Order(m.names, m.within,
      Filled(m.names, Feed(Start(m), events, 0).state.keys, KeyAt(LastOf(events)))))
    ensures MayPass(m, events)
  {
    var r, k := Feed(Start(m), events, 0), KeyAt(LastOf(events));
    OrderState(m, events);
    var more := Occurrences(m.names, k);
    OccurrencesContinue(events, m.names);
    PassedAfter(m, events, more);
    OccurrencesPass(r, m.names, k);
  }

  lemma OccurrencesContinue(events: seq<Event>, names: seq<Field>)
    requires Ascending(STREAMATMOST, events) && StillTimed(LastOf(events))
    ensures Continues(events, Occurrences(names, KeyAt(LastOf(events))))
  {
    var last := LastOf(events);
    var more := Occurrences(names, KeyAt(last));
    forall e | e in more ensures Comes(last, e) {
    }
    forall i, j | 0 <= i < j < |more| ensures STREAMATMOST(more[i], more[j]) {
      assert more[i] in more && more[j] in more;
    }
    ContinuesIff(events, more);
  }

  lemma OccurrencesPass(r: Running, names: seq<Field>, k: Key)
    requires r.state.Order? && r.state.names == names && forall n :: n in r.state.keys ==> n in names
    requires Passes(Order(names, r.state.within, Filled(names, r.state.keys, k)))
    ensures Passes(Feed(r, Occurrences(names, k), 0).state)
  {
    OccurrencesFill(r, names, k, 0);
    IsFilled(names, r.state.keys, Feed(r, Occurrences(names, k), 0).state.keys, k);
  }

  lemma IsFilled(names: seq<Field>, keys: map<Field, Key>, after: map<Field, Key>, k: Key)
    requires (forall n :: n in keys ==> n in names) && after.Keys == keys.Keys + (set n | n in names)
    requires forall n :: n in after ==> after[n] == if n in keys then keys[n] else k
    ensures after == Filled(names, keys, k)
  {
  }

  lemma OrderMayFail(m: Monitor, events: seq<Event>)
    requires m.Order? && Fresh(m) && Ascending(STREAMATMOST, events)
    ensures MayFail(m, events) <==> !Passes(Feed(Start(m), events, 0).state)
  {
    var r := Feed(Start(m), events, 0);
    OrderState(m, events);
    if Passes(r.state) {
      forall more: seq<Event> ensures RunMonitor(m, events + more, true).passed {
        PassedAfter(m, events, more);
        OrderStays(r, more, 0);
      }
    } else {
      NothingContinues(events);
      PassedAfter(m, events, []);
      assert Feed(r, [], 0) == r;
    }
  }

  lemma OrderInOrder(m: Monitor, events: seq<Event>)
    requires m.Order? && Fresh(m) && Ascending(STREAMATMOST, events)
    ensures MayPass(m, events) && MayFail(m, events) <==> OpenInOrder(Feed(Start(m), events, 0).state, LastOf(events))
  {
    OrderState(m, events);
    OrderMayFail(m, events);
    if !StillTimed(LastOf(events)) {
      DeadWithoutTimes(m, events);
    } else {
      if more: seq<Event> :| Continues(events, more) && RunMonitor(m, events + more, true).passed {
        PassingFills(m, events, more);
      }
      if OpenInOrder(Feed(Start(m), events, 0).state, LastOf(events)) {
        FillingPasses(m, events);
      }
    }
  }

  // -------------------------------------------------------------------------
  // main results
  // -------------------------------------------------------------------------

  /**
    After any stream in order, both outcomes can still come about exactly if the monitor is `OpenInOrder` at the last
    event. Otherwise its outcome is inevitable: it is the present one on every continuation. A settled monitor is
    never open; an undecided one need not be.
  */
  lemma OpenInOrderIsExact(m: Monitor, events: seq<Event>)
    requires Fresh(m) && Ascending(STREAMATMOST, events)
    ensures var r := Feed(Start(m), events, 0);
            && (MayPass(m, events) && MayFail(m, events) <==> OpenInOrder(r.state, LastOf(events)))
            && (r.latch.verdict != Pend ==> !OpenInOrder(r.state, LastOf(events)))
            && (!OpenInOrder(r.state, LastOf(events)) ==> forall more: seq<Event> :: Continues(events, more) ==>
                  RunMonitor(m, events + more, true).passed == Passes(r.state))
  {
    var r := Feed(Start(m), events, 0);
    KindStays(Start(m), events, 0);
    match m {
      case Order(_, _, _) => OrderInOrder(m, events);
      case Heartbeat(_, _, _, _, _) => HeartbeatInOrder(m, events);
      case _ =>
        MayIsCan(m, events);
        UntimedIsOpen(r, LastOf(events));
    }
    SettledIsInevitable(m, events);
    NothingContinues(events);
    PassedAfter(m, events, []);
    assert Feed(r, [], 0) == r;
  }

  lemma SettledIsInevitable(m: Monitor, events: seq<Event>)
    requires Fresh(m) && Ascending(STREAMATMOST, events)
    ensures Feed(Start(m), events, 0).latch.verdict != Pend ==> !(MayPass(m, events) && MayFail(m, events))
  {
    forall more: seq<Event> {
      VerdictIsFinal(m, events, more);
    }
  }

  const B_AT_10: Event := Event(Str("b"), Some(10), None, map[])
  const C_AT_20: Event := Event(Str("c"), Some(20), None, map[])

  lemma AfterBAndC(m: Monitor, events: seq<Event>)
    requires m == Order([Str("a"), Str("b")], None, map[]) && events == [B_AT_10, C_AT_20]
    ensures Feed(Start(m), events, 0) == Running(Order(m.names, None, map[Str("b") := (10, 0)]), OPEN)
  {
    assert events[1..] == [C_AT_20] && [C_AT_20][1..] == [];
    var r1 := Step(Start(m), B_AT_10, 0);
    assert m.names[1..] == [Str("b")] && m.names[1..][1..] == [];
    assert r1 == Running(Order(m.names, None, map[Str("b") := (10, 0)]), OPEN);
    assert Feed(Start(m), events, 0) == Feed(r1, [C_AT_20], 1) == Feed(Step(r1, C_AT_20, 1), [], 2);
  }

  lemma TooLate(names: seq<Field>, keys: map<Field, Key>)
    requires names == [Str("a"), Str("b")] && keys == map[Str("b") := (10, 0)]
    ensures !Passes(Order(names, None, keys)) && !Passes(Order(names, None, Filled(names, keys, (20, 0))))
  {
    var filled := Filled(names, keys, (20, 0));
    assert names[0] in filled && names[1] in filled && names[0] !in keys;
    KnownAll(names, filled);
    assert !KeyAtMost(Known(names, filled)[0], Known(names, filled)[0 + 1]);
  }

  /**
    `must_order: [a, b]` after b at 10 and c at 20 is undecided, although a can only come too late: every
    continuation in order fails. Out of order it could still pass.
  */
  lemma AnUndecidedOrderCannotPass(m: Monitor, events: seq<Event>)
    requires m == Order([Str("a"), Str("b")], None, map[]) && events == [B_AT_10, C_AT_20]
    ensures Fresh(m) && Ascending(STREAMATMOST, events) && Feed(Start(m), events, 0).latch.verdict == Pend
    ensures !MayPass(m, events) && Open(Feed(Start(m), events, 0).state)
  {
    AfterBAndC(m, events);
    TooLate(m.names, map[Str("b") := (10, 0)]);
    OpenInOrderIsExact(m, events);
  }

  /**
    A heartbeat that has not beaten is undecided after an event without a timestamp, although it cannot pass any more.
  */
  lemma AnUndecidedHeartbeatCannotPass(m: Monitor, events: seq<Event>)
    requires m == Heartbeat(Str("h"), 60.0, 0, None, 0) && events == [SOME_EVENT]
    ensures Fresh(m) && Ascending(STREAMATMOST, events) && Feed(Start(m), events, 0).latch.verdict == Pend
    ensures !MayPass(m, events) && Open(Feed(Start(m), events, 0).state)
  {
    OneMore(Start(m), SOME_EVENT);
    OpenInOrderIsExact(m, events);
  }
}
