/**
  What a monitor's final state says about the stream, and that the order in which a backend returned it is forgotten.
*/
module MonitorMeaning {
  import opened Common
  import opened Sorting
  import opened MonitorModel
  import opened MonitorSoundness

  // -------------------------------------------------------------------------
  // the stream order
  // -------------------------------------------------------------------------

  const STREAMATMOST: (Event, Event) -> bool := (a: Event, b: Event) => StreamAtMost(a, b)

  lemma StreamOrder()
    ensures TotalPreorder(STREAMATMOST)
  {
  }

  function SortEvents(events: seq<Event>): (r: seq<Event>)
    ensures Ascending(STREAMATMOST, r) && multiset(r) == multiset(events)
  {
    StreamOrder();
    Sort(STREAMATMOST, events)
  }

  /** No event without a timestamp after one with a timestamp. */
  predicate UntimedFirst(s: seq<Event>) {
    forall i, j :: 0 <= i < j < |s| && s[i].ts.Some? ==> s[j].ts.Some?
  }

  /**
    The sorted stream has the events with a timestamp first. The other way round, as the words on `stream_key` have
    it, holds only of streams where all events have one or none has.
  */
  lemma TimedComeFirst(events: seq<Event>)
    ensures var r := SortEvents(events);
            && (forall i, j :: 0 <= i < j < |r| && r[i].ts.None? ==> r[j].ts.None?)
            && (UntimedFirst(r) <==> forall e, f :: e in events && f in events ==> e.ts.Some? == f.ts.Some?)
  {
    var r := SortEvents(events);
    SameElements(r, events);
    forall i, j | 0 <= i < j < |r| && r[i].ts.None? ensures r[j].ts.None? {
      assert STREAMATMOST(r[i], r[j]);
    }
    if UntimedFirst(r) {
      forall e, f | e in events && f in events ensures e.ts.Some? == f.ts.Some? {
        var i :| 0 <= i < |r| && r[i] == e;
        var j :| 0 <= j < |r| && r[j] == f;
        assert i == j || STREAMATMOST(r[i], r[j]) || STREAMATMOST(r[j], r[i]);
      }
    }
  }

  // -------------------------------------------------------------------------
  // what a monitor takes from a stream
  // -------------------------------------------------------------------------

  /** The parts of a stream that a monitor looks at, in order. */
  function Project<T>(f: Event -> Option<T>, s: seq<Event>): seq<T> {
    if s == [] then []
    else if f(s[0]).Some? then [f(s[0]).value] + Project(f, s[1..])
    else Project(f, s[1..])
  }

  lemma {:induction false} ProjectConcat<T>(f: Event -> Option<T>, a: seq<Event>, b: seq<Event>)
    ensures Project(f, a + b) == Project(f, a) + Project(f, b)
  {
    if a == [] {
      assert a + b == b;
    } else {
      assert (a + b)[0] == a[0] && (a + b)[1..] == a[1..] + b;
      ProjectConcat(f, a[1..], b);
    }
  }

  lemma ProjectOneMore<T>(f: Event -> Option<T>, a: seq<Event>, e: Event)
    ensures Project(f, a + [e]) == if f(e).Some? then Project(f, a) + [f(e).value] else Project(f, a)
  {
    ProjectConcat(f, a, [e]);
    assert [e][1..] == [];
    assert Project(f, [e][1..]) == [];
  }

  lemma TakeOut<T>(x: T, rest: seq<T>, b: seq<T>) returns (p: nat)
    requires multiset([x] + rest) == multiset(b)
    ensures p < |b| && b[p] == x && multiset(rest) == multiset(b[..p] + b[p + 1..])
  {
    assert x in [x] + rest;
    SameElements([x] + rest, b);
    p :| p < |b| && b[p] == x;
    WithoutOne(b, p);
    FrontAdds(x, rest);
    assert multiset(rest) == multiset([x] + rest) - multiset{x};
  }

  lemma FrontAdds<T>(x: T, rest: seq<T>)
    ensures multiset([x] + rest) == multiset{x} + multiset(rest)
  {
  }

  lemma WithoutOne<T>(b: seq<T>, p: nat)
    requires p < |b|
    ensures multiset(b[..p] + b[p + 1..]) == multiset(b) - multiset{b[p]}
  {
    assert b == b[..p] + ([b[p]] + b[p + 1..]);
    FrontAdds(b[p], b[p + 1..]);
  }

  lemma {:induction false} ProjectPermuted<T>(f: Event -> Option<T>, a: seq<Event>, b: seq<Event>)
    requires multiset(a) == multiset(b)
    ensures multiset(Project(f, a)) == multiset(Project(f, b))
    decreases |a|
  {
    SameElements(a, b);
    if a != [] {
      var x := a[0];
      assert a == [x] + a[1..];
      var p := TakeOut(x, a[1..], b);
      var left, right := b[..p], b[p + 1..];
      assert b == left + ([x] + right);
      ProjectPermuted(f, a[1..], left + right);
      ProjectConcat(f, left, right);
      ProjectConcat(f, left, [x] + right);
      ProjectConcat(f, [x], right);
      ProjectConcat(f, [x], a[1..]);
    }
  }

  lemma {:induction false} ProjectMember<T>(f: Event -> Option<T>, s: seq<Event>, x: T)
    requires x in Project(f, s)
    ensures exists e :: e in s && f(e) == Some(x)
  {
    if f(s[0]) == Some(x) {
      assert s[0] in s;
    } else {
      ProjectMember(f, s[1..], x);
    }
  }

  lemma {:induction false} ProjectHolds<T>(f: Event -> Option<T>, s: seq<Event>, e: Event)
    requires e in s && f(e).Some?
    ensures f(e).value in Project(f, s)
  {
    if s[0] != e { ProjectHolds(f, s[1..], e); }
  }

  /** A projection that respects the stream order turns a sorted stream into a sorted list. */
  lemma {:induction false} ProjectAscends<T(!new)>(f: Event -> Option<T>, le: (T, T) -> bool, s: seq<Event>)
    requires Ascending(STREAMATMOST, s)
    requires forall a, b :: STREAMATMOST(a, b) && f(a).Some? && f(b).Some? ==> le(f(a).value, f(b).value)
    ensures Ascending(le, Project(f, s))
  {
    if s != [] {
      ProjectAscends(f, le, s[1..]);
      var rest := Project(f, s[1..]);
      if f(s[0]).Some? {
        forall y | y in rest ensures le(f(s[0]).value, y) {
          ProjectMember(f, s[1..], y);
          var e :| e in s[1..] && f(e) == Some(y);
          assert STREAMATMOST(s[0], e);
        }
        ConsAscending(le, f(s[0]).value, rest);
      }
    }
  }

  function Hits(m: Matcher): Event -> Option<Event> {
    (e: Event) => if Matches(e, m) then Some(e) else None
  }

  function Offences(ms: seq<Matcher>, allow: seq<Matcher>): Event -> Option<Event> {
    (e: Event) => if !MatchesAny(e, allow) && MatchesAny(e, ms) then Some(e) else None
  }

  function Faults(target: Field, o: Ontology, closed: bool): Event -> Option<Event> {
    (e: Event) =>
      if InScope(target, e) && (if e.name in o.faulty then o.faulty[e.name](e) else closed) then Some(e) else None
  }

  function Beats(name: Field): Event -> Option<int> {
    (e: Event) => if e.name == name then e.ts else None
  }

  function Times(name: Field): Event -> Option<Key> {
    (e: Event) => if e.name == name && e.ts.Some? then Some(KeyOf(e)) else None
  }

  const INTATMOST: (int, int) -> bool := (a: int, b: int) => a <= b
  const KEYATMOST: (Key, Key) -> bool := (a: Key, b: Key) => KeyAtMost(a, b)

  predicate WithinGap(ts: seq<int>, bound: real) {
    forall i :: 0 <= i < |ts| - 1 ==> (ts[i + 1] - ts[i]) as real <= bound
  }

  /** Neighbours of the list in order, and not too far apart. */
  ghost predicate InOrder(first: Key, second: Key, within: Option<real>) {
    KeyAtMost(first, second) && (within.Some? ==> (second.0 - first.0) as real <= within.value * 1000000.0)
  }

  /** What each check asks of a stream. */
  ghost predicate Judge(m: Monitor, s: seq<Event>)
  {
    match m
    case Count(match_, op, want, _) => HoldsInt(op, |Project(Hits(match_), s)|, want)
    case Present(ms, _) => forall i :: 0 <= i < |ms| ==> Project(Hits(ms[i]), s) != []
    case Absent(ms, allow, _) => Project(Offences(ms, allow), s) == []
    case Order(names, within, _) =>
      && (forall i :: 0 <= i < |names| ==> Project(Times(names[i]), s) != [])
      && forall i :: 0 <= i < |names| - 1 && Project(Times(names[i]), s) != [] && Project(Times(names[i + 1]), s) != []
           ==> InOrder(Project(Times(names[i]), s)[0], Project(Times(names[i + 1]), s)[0], within)
    case Heartbeat(name, every, _, _, _) =>
      Project(Beats(name), s) != [] && every >= 0.0 && WithinGap(Project(Beats(name), s), every * 1000000.0)
    case Ratio(good, all, op, share, _, _) =>
      var goods, total := |Project(Hits(good), s)|, |Project(Hits(all), s)|;
      total > 0 && Holds(op, goods as real / total as real, share)
    case Conforms(target, ontology, closed, _, _, _) =>
      ontology.Some? && Project(Faults(target, ontology.value, closed), s) == []
  }

  // -------------------------------------------------------------------------
  // the counters of a monitor are what it asks of the stream
  // -------------------------------------------------------------------------

  function TopGap(ts: seq<int>): int {
    if |ts| <= 1 then 0
    else
      var before := TopGap(ts[..|ts| - 1]);
      var gap := ts[|ts| - 1] - ts[|ts| - 2];
      if gap > before then gap else before
  }

  lemma {:induction false} TopGapBounds(ts: seq<int>, bound: real)
    ensures ts != [] ==> (TopGap(ts) as real <= bound <==> 0.0 <= bound && WithinGap(ts, bound))
  {
    if |ts| > 1 {
      var shorter := ts[..|ts| - 1];
      TopGapBounds(shorter, bound);
      assert WithinGap(ts, bound) <==> WithinGap(shorter, bound) && (ts[|ts| - 1] - ts[|ts| - 2]) as real <= bound by {
        assert forall i :: 0 <= i < |shorter| ==> shorter[i] == ts[i];
        if WithinGap(ts, bound) { assert (ts[|ts| - 2 + 1] - ts[|ts| - 2]) as real <= bound; }
      }
    }
  }

  /** The state after a stream, read off the stream. */
  ghost predicate Tallies(m: Monitor, s: seq<Event>, r: Monitor)
    requires Fresh(m)
  {
    match m
    case Count(c, op, want, _) => r == Count(c, op, want, |Project(Hits(c), s)|)
    case Present(ms, _) =>
      r.Present? && r.matchers == ms && |r.hit| == |ms| &&
        forall i :: 0 <= i < |ms| ==> r.hit[i] == (Project(Hits(ms[i]), s) != [])
    case Absent(ms, allow, _) => r == Absent(ms, allow, Project(Offences(ms, allow), s))
    case Order(names, within, _) =>
      && r.Order? && r == Order(names, within, r.keys) && (forall n :: n in r.keys ==> n in names)
      && forall n :: n in names ==>
           var ks := Project(Times(n), s);
           (n in r.keys <==> ks != []) && (n in r.keys ==> r.keys[n] == ks[0])
    case Heartbeat(name, every, _, _, _) =>
      var ts := Project(Beats(name), s);
      r == Heartbeat(name, every, |ts|, if ts == [] then None else Some(ts[|ts| - 1]), TopGap(ts))
    case Ratio(good, all, op, share, _, _) =>
      r == Ratio(good, all, op, share, |Project(Hits(good), s)|, |Project(Hits(all), s)|)
    case Conforms(target, ontology, closed, _, _, _) =>
      && r.Conforms? && r.target == target && r.ontology == ontology && r.closed == closed
      && (ontology.Some? ==> |r.violations| == |Project(Faults(target, ontology.value, closed), s)|)
  }

  lemma StartTallies(m: Monitor)
    requires Fresh(m)
    ensures Tallies(m, [], m)
  {
  }

  lemma OrderTallies(m: Monitor, s: seq<Event>, e: Event, idx: int, r: Running)
    requires m.Order? && Fresh(m) && Tallies(m, s, r.state)
    ensures Tallies(m, s + [e], Step(r, e, idx).state)
  {
    forall n | n in m.names
      ensures var ks := Project(Times(n), s + [e]);
              (n in Step(r, e, idx).state.keys <==> ks != []) &&
                (n in Step(r, e, idx).state.keys ==> Step(r, e, idx).state.keys[n] == ks[0])
    {
      ProjectOneMore(Times(n), s, e);
    }
  }

  lemma PresentTallies(m: Monitor, s: seq<Event>, e: Event, idx: int, r: Running)
    requires m.Present? && Fresh(m) && Tallies(m, s, r.state)
    ensures Tallies(m, s + [e], Step(r, e, idx).state)
  {
    forall i | 0 <= i < |m.matchers|
      ensures Step(r, e, idx).state.hit[i] == (Project(Hits(m.matchers[i]), s + [e]) != [])
    {
      ProjectOneMore(Hits(m.matchers[i]), s, e);
    }
  }

  lemma HeartbeatTallies(m: Monitor, s: seq<Event>, e: Event, idx: int, r: Running)
    requires m.Heartbeat? && Fresh(m) && Tallies(m, s, r.state)
    ensures Tallies(m, s + [e], Step(r, e, idx).state)
  {
    ProjectOneMore(Beats(m.name), s, e);
    var ts := Project(Beats(m.name), s);
    if Beats(m.name)(e).Some? {
      var after := ts + [Beats(m.name)(e).value];
      assert after[..|after| - 1] == ts;
    }
  }

  lemma StepTallies(m: Monitor, s: seq<Event>, e: Event, idx: int, r: Running)
    requires Fresh(m) && Shaped(r.state) && Tallies(m, s, r.state)
    ensures Tallies(m, s + [e], Step(r, e, idx).state)
  {
    match m {
      case Count(c, _, _, _) => ProjectOneMore(Hits(c), s, e);
      case Present(_, _) => PresentTallies(m, s, e, idx, r);
      case Absent(ms, allow, _) => ProjectOneMore(Offences(ms, allow), s, e);
      case Order(_, _, _) => OrderTallies(m, s, e, idx, r);
      case Heartbeat(_, _, _, _, _) => HeartbeatTallies(m, s, e, idx, r);
      case Ratio(good, all, _, _, _, _) =>
        ProjectOneMore(Hits(good), s, e);
        ProjectOneMore(Hits(all), s, e);
      case Conforms(target, ontology, closed, _, _, _) =>
        if ontology.Some? { ProjectOneMore(Faults(target, ontology.value, closed), s, e); }
    }
  }

  lemma {:induction false} FeedTallies(m: Monitor, s: seq<Event>)
    requires Fresh(m)
    ensures Tallies(m, s, Feed(Start(m), s, 0).state)
    decreases |s|
  {
    if s == [] {
      StartTallies(m);
    } else {
      var n := |s| - 1;
      assert s == s[..n] + [s[n]];
      FeedTallies(m, s[..n]);
      FeedOneMore(Start(m), s[..n], s[n], 0);
      StepTallies(m, s[..n], s[n], n, Feed(Start(m), s[..n], 0));
    }
  }

  lemma OrderVerdict(m: Monitor, s: seq<Event>, r: Monitor)
    requires m.Order? && Fresh(m) && Tallies(m, s, r)
    ensures Passes(r) <==> Judge(m, s)
  {
    var names, keys, within := m.names, r.keys, m.within;
    assert forall i :: 0 <= i < |names| ==> names[i] in names;
    if AllKnown(names, keys) {
      KnownAll(names, keys);
      var ks := Known(names, keys);
      if Rising(ks) && !SomeGap(names, within, keys) {
        forall i | 0 <= i < |names| - 1 ensures InOrder(Project(Times(names[i]), s)[0],
          Project(Times(names[i + 1]), s)[0], within) {
          assert KeyAtMost(ks[i], ks[i + 1]) && !GapExceeded(names, within, keys, i);
        }
      }
      if Judge(m, s) {
        forall i | 0 <= i < |names| - 1 ensures KeyAtMost(ks[i], ks[i + 1]) && !GapExceeded(names, within, keys, i) {
          assert InOrder(Project(Times(names[i]), s)[0], Project(Times(names[i + 1]), s)[0], within);
        }
      }
    }
  }

  /** A check passes a stream exactly when the stream is what the check asks for. */
  lemma PassesIffJudged(m: Monitor, s: seq<Event>)
    requires Fresh(m)
    ensures RunMonitor(m, s, true).passed <==> Judge(m, s)
  {
    FeedTallies(m, s);
    var r := Feed(Start(m), s, 0).state;
    match m {
      case Order(_, _, _) => OrderVerdict(m, s, r);
      case Heartbeat(name, every, _, _, _) => TopGapBounds(Project(Beats(name), s), every * 1000000.0);
      case _ =>
    }
  }

  // -------------------------------------------------------------------------
  // the order in which the events came back
  // -------------------------------------------------------------------------

  lemma KeyOrder()
    ensures TotalPreorder(KEYATMOST) && Antisymmetric(KEYATMOST) && TotalPreorder(INTATMOST) && Antisymmetric(INTATMOST)
  {
  }

  /** In a sorted stream the occurrences of a name are sorted: its first one is its least. */
  lemma TimesAscend(name: Field, s: seq<Event>)
    requires Ascending(STREAMATMOST, s)
    ensures Ascending(KEYATMOST, Project(Times(name), s)) && Ascending(INTATMOST, Project(Beats(name), s))
  {
    ProjectAscends(Times(name), KEYATMOST, s);
    ProjectAscends(Beats(name), INTATMOST, s);
  }

  lemma FirstIsLeast(name: Field, s: seq<Event>, e: Event)
    requires Ascending(STREAMATMOST, s) && e in s && e.name == name && e.ts.Some?
    ensures Project(Times(name), s) != [] && KeyAtMost(Project(Times(name), s)[0], KeyOf(e))
  {
    TimesAscend(name, s);
    ProjectHolds(Times(name), s, e);
    var ks := Project(Times(name), s);
    var j :| 0 <= j < |ks| && ks[j] == KeyOf(e);
    if j > 0 { assert KEYATMOST(ks[0], ks[j]); }
  }

  lemma SortedTimesAgree(name: Field, a: seq<Event>, b: seq<Event>)
    requires Ascending(STREAMATMOST, a) && Ascending(STREAMATMOST, b) && multiset(a) == multiset(b)
    ensures Project(Times(name), a) == Project(Times(name), b) && Project(Beats(name), a) == Project(Beats(name), b)
  {
    TimesAscend(name, a);
    TimesAscend(name, b);
    KeyOrder();
    ProjectPermuted(Times(name), a, b);
    AscendingUnique(KEYATMOST, Project(Times(name), a), Project(Times(name), b));
    ProjectPermuted(Beats(name), a, b);
    AscendingUnique(INTATMOST, Project(Beats(name), a), Project(Beats(name), b));
  }

  lemma SameNumber<T>(f: Event -> Option<T>, a: seq<Event>, b: seq<Event>)
    requires multiset(a) == multiset(b)
    ensures |Project(f, a)| == |Project(f, b)|
  {
    ProjectPermuted(f, a, b);
    SameElements(Project(f, a), Project(f, b));
  }

  /** Two arrangements of the same events are judged alike by every check that does not look at times. */
  lemma CountedAlike(m: Monitor, a: seq<Event>, b: seq<Event>)
    requires multiset(a) == multiset(b) && !m.Order? && !m.Heartbeat?
    ensures Judge(m, a) <==> Judge(m, b)
  {
    match m {
      case Count(c, _, _, _) => SameNumber(Hits(c), a, b);
      case Present(ms, _) =>
        forall i | 0 <= i < |ms| ensures |Project(Hits(ms[i]), a)| == |Project(Hits(ms[i]), b)| {
          SameNumber(Hits(ms[i]), a, b);
        }
      case Absent(ms, allow, _) => SameNumber(Offences(ms, allow), a, b);
      case Ratio(good, all, _, _, _, _) =>
        SameNumber(Hits(good), a, b);
        SameNumber(Hits(all), a, b);
      case Conforms(target, ontology, closed, _, _, _) =>
        if ontology.Some? { SameNumber(Faults(target, ontology.value, closed), a, b); }
    }
  }

  /** Two sorted arrangements of the same events, however ties were broken, are judged alike by every check. */
  lemma JudgedAlike(m: Monitor, a: seq<Event>, b: seq<Event>)
    requires Ascending(STREAMATMOST, a) && Ascending(STREAMATMOST, b) && multiset(a) == multiset(b)
    ensures Judge(m, a) <==> Judge(m, b)
  {
    match m {
      case Order(names, _, _) =>
        forall i | 0 <= i < |names| ensures Project(Times(names[i]), a) == Project(Times(names[i]), b) {
          SortedTimesAgree(names[i], a, b);
        }
      case Heartbeat(name, _, _, _, _) => SortedTimesAgree(name, a, b);
      case _ => CountedAlike(m, a, b);
    }
  }

  /** The outcome of a check does not depend on the order in which the backend returned the events. */
  lemma BackendOrderIsForgotten(m: Monitor, a: seq<Event>, b: seq<Event>, reachable: bool)
    requires Fresh(m) && multiset(a) == multiset(b)
    ensures RunMonitor(m, SortEvents(a), reachable).passed == RunMonitor(m, SortEvents(b), reachable).passed
  {
    PassesIffJudged(m, SortEvents(a));
    PassesIffJudged(m, SortEvents(b));
    JudgedAlike(m, SortEvents(a), SortEvents(b));
  }
}
