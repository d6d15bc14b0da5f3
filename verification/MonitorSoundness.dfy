/** What a verdict promises: a monitor that commits on a prefix is right about every way the stream may go on. */
module MonitorSoundness {
  import opened Common
  import opened MonitorModel

  // -------------------------------------------------------------------------
  // feeding in pieces
  // -------------------------------------------------------------------------

  lemma {:induction false} FeedInPieces(r: Running, a: seq<Event>, b: seq<Event>, idx: int)
    requires Shaped(r.state)
    ensures Feed(r, a + b, idx) == Feed(Feed(r, a, idx), b, idx + |a|)
    decreases |a|
  {
    if a == [] {
      assert a + b == b;
    } else {
      assert (a + b)[0] == a[0] && (a + b)[1..] == a[1..] + b;
      FeedInPieces(Step(r, a[0], idx), a[1..], b, idx + 1);
    }
  }

  lemma FeedOneMore(r: Running, a: seq<Event>, e: Event, idx: int)
    requires Shaped(r.state)
    ensures Feed(r, a + [e], idx) == Step(Feed(r, a, idx), e, idx + |a|)
  {
    FeedInPieces(r, a, [e], idx);
    assert [e][1..] == [];
    assert Feed(Step(Feed(r, a, idx), e, idx + |a|), [e][1..], idx + |a| + 1) == Step(Feed(r, a, idx), e, idx + |a|);
  }

  // -------------------------------------------------------------------------
  // states whose outcome is fixed
  // -------------------------------------------------------------------------

  /** Why no later event can change the outcome of this state. */
  predicate Fixed(m: Monitor, v: Verdict) {
    match m
    case Count(_, op, want, got) =>
      if v == Sat then (op == Ge && got >= want) || (op == Gt && got > want)
      else (op == Eq && got > want) || (op == Le && got > want) || (op == Lt && got >= want)
    case Present(_, hit) => v == Sat && AllHit(hit)
    case Absent(_, _, offenders) => v == Viol && offenders != []
    case Order(names, within, keys) =>
      var broken := !Rising(Known(names, keys)) || SomeGap(names, within, keys);
      if v == Sat then AllKnown(names, keys) && !broken else broken
    case Heartbeat(_, every, _, _, maxGap) => v == Viol && maxGap as real > every * 1000000.0
    case Ratio(_, _, _, _, _, _) => false
    case Conforms(_, _, _, _, violations, _) => v == Viol && violations != []
  }

  lemma FixedDecides(m: Monitor)
    ensures Fixed(m, Sat) ==> Passes(m)
    ensures Fixed(m, Viol) ==> !Passes(m)
  {
  }

  lemma {:induction false} RisingEverywhere(ks: seq<Key>, i: int, j: int)
    requires Rising(ks) && 0 <= i < j < |ks|
    ensures KeyAtMost(ks[i], ks[j])
    decreases j - i
  {
    if i + 1 < j {
      RisingEverywhere(ks, i, j - 1);
      assert KeyAtMost(ks[j - 1], ks[j - 1 + 1]);
    }
  }

  lemma {:induction false} KnownStays(names: seq<Field>, keys: map<Field, Key>, after: map<Field, Key>, k: Key)
    requires forall n :: n in keys ==> n in after && after[n] == keys[n]
    requires k in Known(names, keys)
    ensures k in Known(names, after)
  {
    if !(names[0] in keys && k == keys[names[0]]) {
      KnownStays(names[1..], keys, after, k);
    }
  }

  lemma RisingTail(k: Key, ks: seq<Key>)
    requires Rising([k] + ks)
    ensures Rising(ks) && forall x :: x in ks ==> KeyAtMost(k, x)
  {
    var all := [k] + ks;
    forall i | 0 <= i < |ks| - 1 ensures KeyAtMost(ks[i], ks[i + 1]) {
      assert KeyAtMost(all[i + 1], all[i + 1 + 1]);
    }
    forall x | x in ks ensures KeyAtMost(k, x) {
      var i :| 0 <= i < |ks| && ks[i] == x;
      RisingEverywhere(all, 0, i + 1);
    }
  }

  lemma {:induction false} KnownAll(names: seq<Field>, keys: map<Field, Key>)
    requires AllKnown(names, keys)
    ensures |Known(names, keys)| == |names| && forall i :: 0 <= i < |names| ==> Known(names, keys)[i] == keys[names[i]]
  {
    if names != [] {
      assert forall i :: 0 <= i < |names[1..]| ==> names[1..][i] == names[i + 1];
      KnownAll(names[1..], keys);
    }
  }

  /** A first occurrence that becomes known later cannot mend an inversion. */
  lemma {:induction false} RisingShrinks(names: seq<Field>, keys: map<Field, Key>, after: map<Field, Key>)
    requires forall n :: n in keys ==> n in after && after[n] == keys[n]
    requires Rising(Known(names, after))
    ensures Rising(Known(names, keys))
  {
    if names != [] {
      if names[0] in after { RisingTail(after[names[0]], Known(names[1..], after)); }
      RisingShrinks(names[1..], keys, after);
      if names[0] in keys {
        var rest := Known(names[1..], keys);
        if rest != [] { KnownStays(names[1..], keys, after, rest[0]); }
      }
    }
  }

  lemma OrderFixedStays(names: seq<Field>, within: Option<real>, keys: map<Field, Key>, after: map<Field, Key>,
                        v: Verdict)
    requires Fixed(Order(names, within, keys), v)
    requires forall n :: n in keys ==> n in after && after[n] == keys[n]
    requires AllKnown(names, keys) ==> after == keys
    ensures Fixed(Order(names, within, after), v)
  {
    if SomeGap(names, within, keys) {
      var i :| 0 <= i < |names| - 1 && GapExceeded(names, within, keys, i);
      assert GapExceeded(names, within, after, i);
    }
    if Rising(Known(names, after)) { RisingShrinks(names, keys, after); }
  }

  lemma FixedStays(r: Running, e: Event, idx: int, v: Verdict)
    requires Shaped(r.state) && Fixed(r.state, v)
    ensures Fixed(Step(r, e, idx).state, v)
  {
    match r.state {
      case Order(names, within, keys) =>
        if e.name in names && e.ts.Some? {
          var after := if e.name in keys then keys else keys[e.name := KeyOf(e)];
          assert AllKnown(names, keys) ==> e.name in keys;
          OrderFixedStays(names, within, keys, after, v);
        }
      case _ =>
    }
  }

  /** A verdict is only committed to in a state whose outcome is fixed. */
  predicate Sound(r: Running) {
    r.latch.verdict.Pend? || Fixed(r.state, r.latch.verdict)
  }

  lemma StepSound(r: Running, e: Event, idx: int)
    requires Shaped(r.state) && Sound(r)
    ensures Sound(Step(r, e, idx))
    ensures !r.latch.verdict.Pend? ==> Step(r, e, idx).latch == r.latch
    ensures r.latch.verdict.Pend? ==> Step(r, e, idx).latch in {r.latch, Latch(Sat, Some(idx)), Latch(Viol, Some(idx))}
  {
    if !r.latch.verdict.Pend? { FixedStays(r, e, idx, r.latch.verdict); }
  }

  lemma {:induction false} FeedSound(r: Running, events: seq<Event>, idx: int)
    requires Shaped(r.state) && Sound(r)
    ensures Sound(Feed(r, events, idx))
    ensures !r.latch.verdict.Pend? ==> Feed(r, events, idx).latch == r.latch
    decreases |events|
  {
    if events != [] {
      StepSound(r, events[0], idx);
      FeedSound(Step(r, events[0], idx), events[1..], idx + 1);
    }
  }

  // -------------------------------------------------------------------------
  // main results
  // -------------------------------------------------------------------------

  /**
    A verdict reached on a prefix is permanent, and it is the outcome of every finite extension: settled true means
    that the check passes however the stream goes on, settled false that it fails.
  */
  lemma VerdictIsFinal(m: Monitor, prefix: seq<Event>, extension: seq<Event>)
    requires Fresh(m)
    ensures var v := Feed(Start(m), prefix, 0).latch;
            v.verdict != Pend ==>
              && RunMonitor(m, prefix + extension, true) == CheckResult(v.verdict == Sat, v.verdict, v.settledAt)
  {
    var r := Feed(Start(m), prefix, 0);
    FeedSound(Start(m), prefix, 0);
    FeedInPieces(Start(m), prefix, extension, 0);
    FeedSound(r, extension, |prefix|);
    FixedDecides(Feed(r, extension, |prefix|).state);
  }

  /** The latch stands on the prefix that ends at its place, and on no shorter one. */
  ghost predicate SettlesFirst(m: Monitor, events: seq<Event>, l: Latch)
    requires Fresh(m)
  {
    && l.settledAt.Some? && -1 <= l.settledAt.value < |events|
    && Feed(Start(m), events[..l.settledAt.value + 1], 0).latch == l
    && (forall n :: 0 <= n <= l.settledAt.value ==> Feed(Start(m), events[..n], 0).latch == OPEN)
    && (l.settledAt.value == -1 <==> m.Count? && m.op == Ge && m.want <= 0)
  }

  /**
    `settled_at` is the first event after which the verdict stands: it stands on the prefix that ends there, and on
    no shorter one. Only a count that nothing can fail is settled before the first event, at -1.
  */
  lemma {:induction false} SettledAtIsFirst(m: Monitor, events: seq<Event>)
    requires Fresh(m) && Feed(Start(m), events, 0).latch.verdict != Pend
    ensures SettlesFirst(m, events, Feed(Start(m), events, 0).latch)
    decreases |events|
  {
    if events == [] {
      assert events[..0] == [];
    } else {
      var n := |events| - 1;
      var before := events[..n];
      assert events == before + [events[n]];
      if Feed(Start(m), before, 0).latch.verdict != Pend {
        SettledAtIsFirst(m, before);
        LatchStays(m, before, events[n]);
        LongerStream(m, before, events[n], Feed(Start(m), before, 0).latch);
      } else {
        SettlesNow(m, before, events[n]);
      }
    }
  }

  lemma LatchStays(m: Monitor, before: seq<Event>, e: Event)
    requires Fresh(m) && Feed(Start(m), before, 0).latch.verdict != Pend
    ensures Feed(Start(m), before + [e], 0).latch == Feed(Start(m), before, 0).latch
  {
    FeedOneMore(Start(m), before, e, 0);
    FeedSound(Start(m), before, 0);
    StepSound(Feed(Start(m), before, 0), e, |before|);
  }

  lemma LongerStream(m: Monitor, before: seq<Event>, e: Event, l: Latch)
    requires Fresh(m) && SettlesFirst(m, before, l)
    ensures SettlesFirst(m, before + [e], l)
  {
    assert forall k :: 0 <= k <= |before| ==> (before + [e])[..k] == before[..k];
  }

  lemma SettlesNow(m: Monitor, before: seq<Event>, e: Event)
    requires Fresh(m) && Feed(Start(m), before, 0).latch.verdict == Pend &&
      Feed(Start(m), before + [e], 0).latch.verdict != Pend
    ensures SettlesFirst(m, before + [e], Feed(Start(m), before + [e], 0).latch)
  {
    FeedOneMore(Start(m), before, e, 0);
    FeedSound(Start(m), before, 0);
    StepSound(Feed(Start(m), before, 0), e, |before|);
    OpenBefore(m, before);
    assert (before + [e])[..|before| + 1] == before + [e];
    assert forall k :: 0 <= k <= |before| ==> (before + [e])[..k] == before[..k];
  }

  lemma {:induction false} OpenBefore(m: Monitor, events: seq<Event>)
    requires Fresh(m) && Feed(Start(m), events, 0).latch.verdict == Pend
    ensures forall n :: 0 <= n <= |events| ==> Feed(Start(m), events[..n], 0).latch == OPEN
    ensures !(m.Count? && m.op == Ge && m.want <= 0)
  {
    forall n | 0 <= n <= |events| ensures Feed(Start(m), events[..n], 0).latch == OPEN {
      assert events == events[..n] + events[n..];
      FeedInPieces(Start(m), events[..n], events[n..], 0);
      FeedSound(Start(m), events[..n], 0);
      FeedSound(Feed(Start(m), events[..n], 0), events[n..], n);
      PendIsOpen(m, events[..n]);
    }
    assert events[..0] == [];
    assert Feed(Start(m), events[..0], 0) == Start(m);
  }

  /** The verdict is missing together with its place. */
  predicate Unsettled(l: Latch) {
    l.verdict.Pend? ==> l == OPEN
  }

  lemma {:induction false} FeedUnsettled(r: Running, events: seq<Event>, idx: int)
    requires Shaped(r.state) && Sound(r) && Unsettled(r.latch)
    ensures Unsettled(Feed(r, events, idx).latch)
    decreases |events|
  {
    if events != [] {
      StepSound(r, events[0], idx);
      FeedUnsettled(Step(r, events[0], idx), events[1..], idx + 1);
    }
  }

  lemma PendIsOpen(m: Monitor, events: seq<Event>)
    requires Fresh(m) && Feed(Start(m), events, 0).latch.verdict == Pend
    ensures Feed(Start(m), events, 0).latch == OPEN
  {
    FeedUnsettled(Start(m), events, 0);
  }

  // -------------------------------------------------------------------------
  // how exact the undecided verdict of a count is
  // -------------------------------------------------------------------------

  function Copies(e: Event, n: nat): seq<Event> {
    seq(n, _ => e)
  }

  lemma {:induction false} CountCopies(r: Running, e: Event, n: nat, idx: int)
    requires r.state.Count? && Matches(e, r.state.m)
    ensures Feed(r, Copies(e, n), idx).state == r.state.(got := r.state.got + n)
    decreases n
  {
    if n > 0 {
      assert Copies(e, n)[1..] == Copies(e, n - 1);
      CountCopies(Step(r, e, idx), e, n - 1, idx + 1);
    }
  }

  lemma {:induction false} CountOnlyGrows(r: Running, events: seq<Event>, idx: int)
    requires r.state.Count?
    ensures var m := Feed(r, events, idx).state;
            m.Count? && m.got >= r.state.got && m == r.state.(got := m.got)
    decreases |events|
  {
    if events != [] { CountOnlyGrows(Step(r, events[0], idx), events[1..], idx + 1); }
  }

  ghost predicate AllCome(last: Option<Event>, more: seq<Event>) {
    forall e :: e in more ==> Comes(last, e)
  }

  /** Some continuation makes the check pass: any events at all or, with a last event, any that may follow it. */
  ghost predicate CanPass(r: Running, last: Option<Event>)
    requires Shaped(r.state)
  {
    exists more: seq<Event> :: AllCome(last, more) && Passes(Feed(r, more, 0).state)
  }

  ghost predicate CanFail(r: Running, last: Option<Event>)
    requires Shaped(r.state)
  {
    exists more: seq<Event> :: AllCome(last, more) && !Passes(Feed(r, more, 0).state)
  }

  /** Both outcomes lie ahead of a count: what the comparison and the two numbers say. */
  predicate BothAhead(op: Op, want: int, got: nat) {
    match op
    case Ge => got < want
    case Gt => got <= want
    case Eq => got <= want
    case Ne => got <= want
    case Le => got <= want
    case Lt => got < want
  }

  lemma CountReaches(r: Running, last: Option<Event>, e: Event, n: nat, total: nat)
    requires r.state.Count? && Matches(e, r.state.m) && Comes(last, e) && total == r.state.got + n
    ensures HoldsInt(r.state.op, total, r.state.want) ==> CanPass(r, last)
    ensures !HoldsInt(r.state.op, total, r.state.want) ==> CanFail(r, last)
  {
    CountCopies(r, e, n, 0);
    var more := Copies(e, n);
    assert Passes(Feed(r, more, 0).state) <==> HoldsInt(r.state.op, total, r.state.want);
  }

  /** With an event that can be counted, both outcomes of a count can still come about exactly if `BothAhead`. */
  lemma CountOutcomes(r: Running, last: Option<Event>, e: Event)
    requires r.state.Count? && Matches(e, r.state.m) && Comes(last, e)
    ensures CanPass(r, last) && CanFail(r, last) <==> BothAhead(r.state.op, r.state.want, r.state.got)
  {
    var got, want := r.state.got, r.state.want;
    CountReaches(r, last, e, 0, got);
    if got <= want {
      CountReaches(r, last, e, want - got, want);
      CountReaches(r, last, e, want - got + 1, want + 1);
    }
    if !BothAhead(r.state.op, want, got) {
      forall more: seq<Event> ensures Passes(Feed(r, more, 0).state) <==> Passes(r.state) {
        CountOnlyGrows(r, more, 0);
      }
    }
  }

  /**
    An undecided count is not always open: for `!=` the verdict never settles, and for a threshold that is out of
    reach from the start (below 0, or for `<` at 0) it stays undecided until the first match. In every other case an
    undecided count can still go both ways.
  */
  lemma UndecidedCountIsOpen(m: Monitor, events: seq<Event>, last: Option<Event>, e: Event)
    requires m.Count? && Fresh(m) && Matches(e, m.m) && Comes(last, e)
    requires Feed(Start(m), events, 0).latch.verdict == Pend
    ensures var r := Feed(Start(m), events, 0);
            r.state.Count? && (CanPass(r, last) && CanFail(r, last) <==>
              if m.op == Ne then r.state.got <= m.want else if m.op == Lt then m.want > 0 else m.want >= 0)
  {
    var r := Feed(Start(m), events, 0);
    CountOnlyGrows(Start(m), events, 0);
    CountOutcomes(r, last, e);
    CountLatches(m, events);
  }

  /** When a count settles: as soon as a match, or for `>=` the start, has fixed its outcome. */
  lemma {:induction false} CountLatches(m: Monitor, events: seq<Event>)
    requires m.Count? && Fresh(m)
    ensures var r := Feed(Start(m), events, 0);
            r.state.Count? && (r.latch.verdict != Pend <==>
              (Fixed(r.state, Sat) || Fixed(r.state, Viol)) && (r.state.got > 0 || (m.op == Ge && m.want <= 0)))
    decreases |events|
  {
    CountOnlyGrows(Start(m), events, 0);
    if events != [] {
      var n := |events| - 1;
      assert events == events[..n] + [events[n]];
      FeedOneMore(Start(m), events[..n], events[n], 0);
      CountOnlyGrows(Start(m), events[..n], 0);
      CountLatches(m, events[..n]);
    }
  }
}
