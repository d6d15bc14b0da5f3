/**
  What an undecided verdict is worth if the stream may go on with any events, as a live feed takes them: for every
  monitor, when both outcomes still lie ahead, told from its parameters and its counters.
*/
module MonitorOpen {
  import opened Common
  import opened MonitorModel
  import opened MonitorSoundness
  import opened MonitorMatching
  import opened MonitorOrderOpen
  import opened MonitorRatioOpen

  /**
    Both outcomes of a check that does not look at times lie ahead. With a last event, what comes must not be earlier
    in the stream order.
  */
  ghost predicate OpenAfter(m: Monitor, last: Option<Event>) {
    match m
    case Count(m, op, want, got) => Matchable(m, last) && BothAhead(op, want, got)
    case Present(ms, hit) => !AllHit(hit) && forall i :: 0 <= i < |ms| && i < |hit| ==> hit[i] || Matchable(ms[i], last)
    case Absent(ms, allow, offenders) => offenders == [] && Separable(ms, allow, last)
    case Ratio(good, all, op, share, goods, total) =>
      var x := MixOf(good, all, last);
      CanHold(x, op, share, goods, total) && (total == 0 || CanHold(x, Opposite(op), share, goods, total))
    case Conforms(target, ontology, closed, _, violations, _) =>
      ontology.Some? && violations == [] && Breakable(target, ontology.value, closed, last)
    case _ => false
  }

  /** Both outcomes of a check lie ahead, whatever events come in whatever order. */
  ghost predicate Open(m: Monitor) {
    match m
    case Order(names, within, keys) => !Passes(m) && Room(LineOf(names, within, keys))
    case Heartbeat(_, every, _, _, maxGap) => maxGap as real <= every * 1000000.0
    case _ => OpenAfter(m, None)
  }

  // -------------------------------------------------------------------------
  // count
  // -------------------------------------------------------------------------

  lemma {:induction false} NothingCounts(r: Running, last: Option<Event>, events: seq<Event>, idx: int)
    requires r.state.Count? && !Matchable(r.state.m, last) && AllCome(last, events)
    ensures Feed(r, events, idx) == r
    decreases |events|
  {
    if events != [] {
      assert events[0] in events && AllCome(last, events[1..]);
      if Matches(events[0], r.state.m) { MatchedIsInTime(events[0], r.state.m, last); }
      NothingCounts(Step(r, events[0], idx), last, events[1..], idx + 1);
    }
  }

  lemma CountIsOpen(r: Running, last: Option<Event>)
    requires r.state.Count?
    ensures CanPass(r, last) && CanFail(r, last) <==> OpenAfter(r.state, last)
  {
    if Matchable(r.state.m, last) {
      MatchableIsExact(r.state.m, last);
      var e :| Matches(e, r.state.m) && Comes(last, e);
      CountOutcomes(r, last, e);
    } else {
      forall more: seq<Event> | AllCome(last, more) ensures Passes(Feed(r, more, 0).state) <==> Passes(r.state) {
        NothingCounts(r, last, more, 0);
      }
    }
  }

  // -------------------------------------------------------------------------
  // present
  // -------------------------------------------------------------------------

  lemma {:induction false} PresentGrows(r: Running, last: Option<Event>, events: seq<Event>, idx: int)
    requires Shaped(r.state) && r.state.Present? && AllCome(last, events)
    ensures var m := Feed(r, events, idx).state;
            && m.Present? && m == r.state.(hit := m.hit) && |m.hit| == |r.state.hit|
            && (forall i :: 0 <= i < |m.hit| && r.state.hit[i] ==> m.hit[i])
            && forall i :: 0 <= i < |m.hit| && m.hit[i] ==> r.state.hit[i] || Matchable(m.matchers[i], last)
    decreases |events|
  {
    if events != [] {
      assert events[0] in events && AllCome(last, events[1..]);
      var ms := r.state.matchers;
      forall i | 0 <= i < |ms| && Matches(events[0], ms[i]) ensures Matchable(ms[i], last) {
        MatchedIsInTime(events[0], ms[i], last);
      }
      PresentGrows(Step(r, events[0], idx), last, events[1..], idx + 1);
    }
  }

  /** One event for each matcher that an event to come can match. */
  lemma {:induction false} AllAppear(r: Running, last: Option<Event>, n: nat, idx: int) returns (more: seq<Event>)
    requires Shaped(r.state) && r.state.Present? && n <= |r.state.hit|
    requires forall i :: 0 <= i < n ==> r.state.hit[i] || !Matchable(r.state.matchers[i], last)
    ensures AllCome(last, more)
    ensures var m := Feed(r, more, idx).state;
            && m.Present? && |m.hit| == |r.state.hit|
            && forall i :: 0 <= i < |m.hit| ==> m.hit[i] || !Matchable(r.state.matchers[i], last)
    decreases |r.state.hit| - n
  {
    if n == |r.state.hit| {
      more := [];
    } else if Matchable(r.state.matchers[n], last) {
      MatchableIsExact(r.state.matchers[n], last);
      var e :| Matches(e, r.state.matchers[n]) && Comes(last, e);
      var rest := AllAppear(Step(r, e, idx), last, n + 1, idx + 1);
      more := [e] + rest;
      assert more[0] == e && more[1..] == rest;
    } else {
      more := AllAppear(r, last, n + 1, idx);
    }
  }

  lemma PresentPasses(r: Running, last: Option<Event>)
    requires Shaped(r.state) && r.state.Present? && OpenAfter(r.state, last)
    ensures CanPass(r, last)
  {
    var more := AllAppear(r, last, 0, 0);
    PresentGrows(r, last, more, 0);
    assert AllHit(Feed(r, more, 0).state.hit);
    assert Passes(Feed(r, more, 0).state);
  }

  lemma PresentIsOpen(r: Running, last: Option<Event>)
    requires Shaped(r.state) && r.state.Present?
    ensures CanPass(r, last) && CanFail(r, last) <==> OpenAfter(r.state, last)
  {
    assert AllCome(last, []) && Feed(r, [], 0) == r;
    if CanPass(r, last) {
      var more: seq<Event> :| AllCome(last, more) && Passes(Feed(r, more, 0).state);
      PresentGrows(r, last, more, 0);
    }
    if CanFail(r, last) {
      var more: seq<Event> :| AllCome(last, more) && !Passes(Feed(r, more, 0).state);
      PresentGrows(r, last, more, 0);
    }
    if OpenAfter(r.state, last) {
      PresentPasses(r, last);
    }
  }

  // -------------------------------------------------------------------------
  // absent
  // -------------------------------------------------------------------------

  lemma {:induction false} AbsentGrows(r: Running, last: Option<Event>, events: seq<Event>, idx: int)
    requires r.state.Absent? && AllCome(last, events)
    ensures var m := Feed(r, events, idx).state;
            && m.Absent? && m == r.state.(offenders := m.offenders)
            && (r.state.offenders != [] ==> m.offenders != [])
            && (!Separable(m.matchers, m.allow, last) ==> m.offenders == r.state.offenders)
    decreases |events|
  {
    if events != [] {
      var e, ms, allow := events[0], r.state.matchers, r.state.allow;
      assert e in events && AllCome(last, events[1..]);
      OffenderIffSeparable(ms, allow, last);
      assert Offends(e, ms, allow, last) <==> MatchesAny(e, ms) && !MatchesAny(e, allow);
      AbsentGrows(Step(r, e, idx), last, events[1..], idx + 1);
    }
  }

  lemma AbsentIsOpen(r: Running, last: Option<Event>)
    requires r.state.Absent?
    ensures CanPass(r, last) && CanFail(r, last) <==> OpenAfter(r.state, last)
  {
    assert AllCome(last, []) && Feed(r, [], 0) == r;
    if CanPass(r, last) {
      var more: seq<Event> :| AllCome(last, more) && Passes(Feed(r, more, 0).state);
      AbsentGrows(r, last, more, 0);
    }
    if CanFail(r, last) {
      var more: seq<Event> :| AllCome(last, more) && !Passes(Feed(r, more, 0).state);
      AbsentGrows(r, last, more, 0);
    }
    if OpenAfter(r.state, last) {
      OffenderIffSeparable(r.state.matchers, r.state.allow, last);
      var e :| Offends(e, r.state.matchers, r.state.allow, last);
      OneMore(r, e);
      assert AllCome(last, [e]) && !Passes(Feed(r, [e], 0).state);
    }
  }

  lemma OneMore(r: Running, e: Event)
    requires Shaped(r.state)
    ensures Feed(r, [e], 0) == Step(r, e, 0)
  {
    assert [e][1..] == [];
    assert Feed(Step(r, e, 0), [], 1) == Step(r, e, 0);
  }

  // -------------------------------------------------------------------------
  // heartbeat
  // -------------------------------------------------------------------------

  lemma {:induction false} HeartbeatGrows(r: Running, events: seq<Event>, idx: int)
    requires r.state.Heartbeat?
    ensures var m := Feed(r, events, idx).state;
            m.Heartbeat? && m.name == r.state.name && m.every == r.state.every && m.maxGap >= r.state.maxGap
    decreases |events|
  {
    if events != [] { HeartbeatGrows(Step(r, events[0], idx), events[1..], idx + 1); }
  }

  function Beat(name: Field, ts: int): Event {
    Event(name, Some(ts), None, map[])
  }

  /** One beat more, and a second one too late. */
  lemma BeatLate(r: Running, first: int, late: int, idx: int)
    requires r.state.Heartbeat? && late >= first
    requires late - first > (r.state.every * 1000000.0).Floor
    ensures var beats := [Beat(r.state.name, first), Beat(r.state.name, late)]; !Passes(Feed(r, beats, idx).state)
  {
    var e, f := Beat(r.state.name, first), Beat(r.state.name, late);
    var next := Step(Step(r, e, idx), f, idx + 1);
    assert [e, f][1..] == [f] && [f][1..] == [];
    assert Feed(Step(r, e, idx), [f], idx + 1) == Feed(next, [], idx + 2) == next;
  }

  lemma HeartbeatIsOpen(r: Running)
    requires r.state.Heartbeat? && r.state.maxGap >= 0
    ensures CanPass(r, None) && CanFail(r, None) <==> Open(r.state)
  {
    if CanPass(r, None) {
      var more: seq<Event> :| Passes(Feed(r, more, 0).state);
      HeartbeatGrows(r, more, 0);
    }
    if Open(r.state) {
      var last := if r.state.lastTs.Some? then r.state.lastTs.value else 0;
      var first := Beat(r.state.name, last);
      OneMore(r, first);
      assert AllCome(None, [first]) && Passes(Feed(r, [first], 0).state);
      var late := last + (r.state.every * 1000000.0).Floor + 1;
      BeatLate(r, last, late, 0);
      assert AllCome(None, [first, Beat(r.state.name, late)]);
    }
  }

  // -------------------------------------------------------------------------
  // conforms
  // -------------------------------------------------------------------------

  /** The event may come, and would be a violation. */
  ghost predicate Violates(e: Event, target: Field, o: Ontology, closed: bool, last: Option<Event>) {
    Comes(last, e) && InScope(target, e) && if e.name in o.faulty then o.faulty[e.name](e) else closed
  }

  /**
    A name that is not declared is in scope in a closed world, or some declared type in scope has a faulty event that
    may still come.
  */
  ghost predicate Breakable(target: Field, o: Ontology, closed: bool, last: Option<Event>) {
    || (closed && (target == Nil || target == Str("*") || target !in o.faulty))
    || exists e :: Comes(last, e) && InScope(target, e) && e.name in o.faulty && o.faulty[e.name](e)
  }

  function Latest(name: Field, last: Option<Event>): (e: Event)
    ensures e.name == name && Comes(last, e)
  {
    Event(name, None, Some(LaterThan(last)), map[])
  }

  lemma ViolationIffBreakable(target: Field, o: Ontology, closed: bool, last: Option<Event>)
    ensures (exists e :: Violates(e, target, o, closed, last)) <==> Breakable(target, o, closed, last)
  {
    if closed && (target == Nil || target == Str("*")) {
      var n := FreshNumber(o.faulty.Keys, 0);
      assert Violates(Latest(Num(n), last), target, o, closed, last);
    } else if closed && target !in o.faulty {
      assert Violates(Latest(target, last), target, o, closed, last);
    } else if Breakable(target, o, closed, last) {
      var e :| Comes(last, e) && InScope(target, e) && e.name in o.faulty && o.faulty[e.name](e);
      assert Violates(e, target, o, closed, last);
    }
  }

  lemma {:induction false} ConformsGrows(r: Running, last: Option<Event>, events: seq<Event>, idx: int)
    requires r.state.Conforms? && AllCome(last, events)
    ensures var m := Feed(r, events, idx).state;
            && m.Conforms? && m == r.state.(checked := m.checked, violations := m.violations, unknown := m.unknown)
            && (r.state.violations != [] ==> m.violations != [])
            && (m.ontology.Some? && !Breakable(m.target, m.ontology.value, m.closed, last) ==>
                  m.violations == r.state.violations)
    decreases |events|
  {
    if events != [] {
      assert events[0] in events && AllCome(last, events[1..]);
      var m := r.state;
      if m.ontology.Some? {
        ViolationIffBreakable(m.target, m.ontology.value, m.closed, last);
        assert Violates(events[0], m.target, m.ontology.value, m.closed, last) ==>
               Breakable(m.target, m.ontology.value, m.closed, last);
      }
      ConformsGrows(Step(r, events[0], idx), last, events[1..], idx + 1);
    }
  }

  lemma ConformsIsOpen(r: Running, last: Option<Event>)
    requires r.state.Conforms?
    ensures CanPass(r, last) && CanFail(r, last) <==> OpenAfter(r.state, last)
  {
    assert AllCome(last, []) && Feed(r, [], 0) == r;
    if CanPass(r, last) {
      var more: seq<Event> :| AllCome(last, more) && Passes(Feed(r, more, 0).state);
      ConformsGrows(r, last, more, 0);
    }
    if CanFail(r, last) {
      var more: seq<Event> :| AllCome(last, more) && !Passes(Feed(r, more, 0).state);
      ConformsGrows(r, last, more, 0);
    }
    if OpenAfter(r.state, last) {
      ViolationIffBreakable(r.state.target, r.state.ontology.value, r.state.closed, last);
      var e :| Violates(e, r.state.target, r.state.ontology.value, r.state.closed, last);
      OneMore(r, e);
      assert AllCome(last, [e]) && !Passes(Feed(r, [e], 0).state);
    }
  }

  // -------------------------------------------------------------------------
  // main results
  // -------------------------------------------------------------------------

  predicate SameKind(a: Monitor, b: Monitor) {
    && a.Count? == b.Count? && a.Present? == b.Present? && a.Absent? == b.Absent? && a.Order? == b.Order?
    && a.Heartbeat? == b.Heartbeat? && a.Ratio? == b.Ratio? && a.Conforms? == b.Conforms?
  }

  lemma {:induction false} KindStays(r: Running, events: seq<Event>, idx: int)
    requires Shaped(r.state)
    ensures SameKind(Feed(r, events, idx).state, r.state)
    decreases |events|
  {
    if events != [] { KindStays(Step(r, events[0], idx), events[1..], idx + 1); }
  }

  /**
    For the checks that do not look at times: both outcomes lie ahead exactly if the check is open after the last event.
  */
  lemma UntimedIsOpen(r: Running, last: Option<Event>)
    requires Shaped(r.state) && !r.state.Order? && !r.state.Heartbeat?
    ensures CanPass(r, last) && CanFail(r, last) <==> OpenAfter(r.state, last)
  {
    match r.state {
      case Count(_, _, _, _) => CountIsOpen(r, last);
      case Present(_, _) => PresentIsOpen(r, last);
      case Absent(_, _, _) => AbsentIsOpen(r, last);
      case Ratio(_, _, _, _, _, _) => RatioIsOpen(r, last);
      case Conforms(_, _, _, _, _, _) => ConformsIsOpen(r, last);
    }
  }

  /** A settled monitor is not open. */
  lemma SettledIsNotOpen(r: Running, last: Option<Event>)
    requires Shaped(r.state) && Sound(r) && !r.latch.verdict.Pend?
    ensures !(CanPass(r, last) && CanFail(r, last))
  {
    forall more: seq<Event> ensures Passes(Feed(r, more, 0).state) <==> r.latch.verdict == Sat {
      FeedSound(r, more, 0);
      FixedDecides(Feed(r, more, 0).state);
    }
  }

  lemma StateIsOpen(m: Monitor, events: seq<Event>)
    requires Fresh(m)
    ensures var r := Feed(Start(m), events, 0); CanPass(r, None) && CanFail(r, None) <==> Open(r.state)
  {
    var r := Feed(Start(m), events, 0);
    KindStays(Start(m), events, 0);
    match m {
      case Order(_, _, _) =>
        OrderCanPass(r);
        OrderCanFail(r);
      case Heartbeat(_, _, _, _, _) =>
        HeartbeatGrows(Start(m), events, 0);
        HeartbeatIsOpen(r);
      case _ => UntimedIsOpen(r, None);
    }
  }

  /**
    After any stream, both outcomes can still come about exactly if the monitor is `Open`, and a settled monitor never
    is. An undecided one need not be.
  */
  lemma OpenIsExact(m: Monitor, events: seq<Event>)
    requires Fresh(m)
    ensures var r := Feed(Start(m), events, 0);
            (CanPass(r, None) && CanFail(r, None) <==> Open(r.state)) && (r.latch.verdict != Pend ==> !Open(r.state))
  {
    var r := Feed(Start(m), events, 0);
    StateIsOpen(m, events);
    if r.latch.verdict != Pend {
      FeedSound(Start(m), events, 0);
      SettledIsNotOpen(r, None);
    }
  }

  const SOME_EVENT: Event := Event(Str("a"), None, None, map[])

  /** A count that must not be 0 is undecided after its first match, but cannot fail any more. */
  lemma AnUndecidedCountCannotFail(m: Monitor)
    requires m == Count(Matcher(Str("a"), map[]), Ne, 0, 0)
    ensures Fresh(m) && Feed(Start(m), [SOME_EVENT], 0).latch.verdict == Pend
    ensures !CanFail(Feed(Start(m), [SOME_EVENT], 0), None)
  {
    OneMore(Start(m), SOME_EVENT);
    var r := Feed(Start(m), [SOME_EVENT], 0);
    assert Matches(SOME_EVENT, m.m) && r.state.got == 1;
    forall more: seq<Event> ensures Passes(Feed(r, more, 0).state) { CountOnlyGrows(r, more, 0); }
  }

  /** A conformance check without an ontology is undecided at first, but cannot pass. */
  lemma AnUndecidedCheckCannotPass(m: Monitor)
    requires m == Conforms(Nil, None, false, 0, [], [])
    ensures Fresh(m) && Feed(Start(m), [], 0).latch.verdict == Pend && !CanPass(Feed(Start(m), [], 0), None)
  {
    var r := Feed(Start(m), [], 0);
    forall more: seq<Event> ensures !Passes(Feed(r, more, 0).state) {
      assert AllCome(None, more);
      ConformsGrows(r, None, more, 0);
    }
  }
}
