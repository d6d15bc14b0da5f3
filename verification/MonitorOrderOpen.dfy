/** When the first occurrences that an order monitor has seen can still be completed to an order that passes. */
module MonitorOrderOpen {
  import opened Common
  import opened MonitorModel
  import opened MonitorSoundness

  // -------------------------------------------------------------------------
  // completing a line of keys
  // -------------------------------------------------------------------------

  /**
    The keys of the listed names as far as they are known, which steps from one place to the next are tied to be no
    step at all, and how many microseconds a step may span.
  */
  datatype Line = Line(ks: seq<Option<Key>>, tied: seq<bool>, bound: Option<int>)
  {
    predicate Valid() {
      |tied| == |ks|
    }

    function Width(): int {
      if bound.Some? then bound.value else 0
    }
  }

  predicate AllTied(l: Line, i: int, j: int)
    requires l.Valid()
  {
    forall p :: 0 <= i <= p < j < |l.ks| ==> l.tied[p]
  }

  /** How far apart two places can be. */
  function Slack(l: Line, i: int, j: int): int
    requires l.Valid() && 0 <= i <= j < |l.ks|
    decreases j
  {
    if i == j then 0 else Slack(l, i, j - 1) + if l.tied[j - 1] then 0 else l.Width()
  }

  /** What two known keys must meet. */
  predicate Fits(l: Line, i: int, j: int)
    requires l.Valid() && 0 <= i < j < |l.ks|
  {
    l.ks[i].Some? && l.ks[j].Some? ==>
      var a, b := l.ks[i].value, l.ks[j].value;
      KeyAtMost(a, b) && (AllTied(l, i, j) ==> a == b) && (l.bound.Some? ==> b.0 - a.0 <= Slack(l, i, j))
  }

  /** The unknown keys can be filled in. */
  predicate Room(l: Line)
    requires l.Valid()
  {
    && (l.bound.Some? && |l.ks| >= 2 ==> l.bound.value >= 0)
    && forall i, j {:trigger Fits(l, i, j)} :: 0 <= i < j < |l.ks| ==> Fits(l, i, j)
  }

  predicate StepOk(l: Line, a: Key, b: Key, p: int)
    requires l.Valid() && 0 <= p < |l.ks|
  {
    KeyAtMost(a, b) && (l.tied[p] ==> a == b) && (l.bound.Some? ==> b.0 - a.0 <= l.bound.value)
  }

  predicate StepAt(l: Line, c: seq<Key>, p: int)
    requires l.Valid() && |c| == |l.ks| && 0 <= p < |c| - 1
  {
    StepOk(l, c[p], c[p + 1], p)
  }

  predicate Completes(l: Line, c: seq<Key>)
    requires l.Valid()
  {
    && |c| == |l.ks|
    && (forall p :: 0 <= p < |c| && l.ks[p].Some? ==> c[p] == l.ks[p].value)
    && (forall p {:trigger StepAt(l, c, p)} :: 0 <= p < |c| - 1 ==> StepAt(l, c, p))
  }

  lemma {:induction false} CompletedSpan(l: Line, c: seq<Key>, i: int, j: int)
    requires l.Valid() && Completes(l, c) && 0 <= i <= j < |c|
    ensures KeyAtMost(c[i], c[j]) && (AllTied(l, i, j) ==> c[i] == c[j])
    ensures l.bound.Some? ==> c[j].0 - c[i].0 <= Slack(l, i, j)
    decreases j
  {
    if i < j {
      CompletedSpan(l, c, i, j - 1);
      assert StepAt(l, c, j - 1);
      assert AllTied(l, i, j) ==> AllTied(l, i, j - 1) && l.tied[j - 1];
    }
  }

  lemma CompletionHasRoom(l: Line, c: seq<Key>)
    requires l.Valid() && Completes(l, c)
    ensures Room(l)
  {
    forall i, j | 0 <= i < j < |l.ks| ensures Fits(l, i, j) {
      CompletedSpan(l, c, i, j);
    }
    if |c| >= 2 { assert StepAt(l, c, 0); }
  }

  /** The last known place up to `p`, or -1. */
  function Before(l: Line, p: int): (i: int)
    requires l.Valid() && -1 <= p < |l.ks|
    ensures -1 <= i <= p && (i >= 0 ==> l.ks[i].Some?)
    ensures forall q :: i < q <= p ==> l.ks[q].None?
    decreases p + 1
  {
    if p < 0 || l.ks[p].Some? then p else Before(l, p - 1)
  }

  /** The first known place from `p` on, or the end. */
  function After(l: Line, p: int): (j: int)
    requires l.Valid() && 0 <= p <= |l.ks|
    ensures p <= j <= |l.ks| && (j < |l.ks| ==> l.ks[j].Some?)
    ensures forall q :: p <= q < j ==> l.ks[q].None?
    decreases |l.ks| - p
  {
    if p == |l.ks| || l.ks[p].Some? then p else After(l, p + 1)
  }

  /**
    The key for place `p` between the known places `i` and `j`: as late as the steps allow, but not past the next one.
  */
  function FillFrom(l: Line, i: int, j: int, p: int): Key
    requires l.Valid() && -1 <= i <= p <= j <= |l.ks| && 0 <= p < |l.ks|
    requires (i >= 0 ==> l.ks[i].Some?) && (j < |l.ks| ==> l.ks[j].Some?)
  {
    if i < 0 then (if j == |l.ks| then (0, 0) else l.ks[j].value)
    else
      var k := l.ks[i].value;
      if AllTied(l, i, p) || j == |l.ks| then k
      else if l.bound.None? || k.0 + Slack(l, i, p) >= l.ks[j].value.0 then l.ks[j].value
      else (k.0 + Slack(l, i, p), k.1)
  }

  function Fill(l: Line, p: int): Key
    requires l.Valid() && 0 <= p < |l.ks|
  {
    FillFrom(l, Before(l, p), After(l, p), p)
  }

  lemma KnownIsKept(l: Line, p: int)
    requires l.Valid() && 0 <= p < |l.ks| && l.ks[p].Some?
    ensures Before(l, p) == p == After(l, p) && Fill(l, p) == l.ks[p].value
  {
  }

  lemma TiedMore(l: Line, i: int, p: int)
    requires l.Valid() && 0 <= i <= p < |l.ks| - 1
    ensures AllTied(l, i, p + 1) <==> AllTied(l, i, p) && l.tied[p]
    ensures Slack(l, i, p + 1) == Slack(l, i, p) + if l.tied[p] then 0 else l.Width()
    ensures AllTied(l, i, p) ==> Slack(l, i, p) == 0
  {
    TiedIsShort(l, i, p);
  }

  lemma {:induction false} TiedIsShort(l: Line, i: int, p: int)
    requires l.Valid() && 0 <= i <= p < |l.ks|
    ensures AllTied(l, i, p) ==> Slack(l, i, p) == 0
    decreases p
  {
    if i < p && AllTied(l, i, p) {
      assert l.tied[p - 1];
      TiedIsShort(l, i, p - 1);
    }
  }

  lemma FillToKnown(l: Line, p: int)
    requires l.Valid() && Room(l) && 0 <= p < |l.ks| - 1 && l.ks[p].None? && l.ks[p + 1].Some?
    ensures StepOk(l, Fill(l, p), Fill(l, p + 1), p)
  {
    KnownIsKept(l, p + 1);
    assert After(l, p) == p + 1;
    var i := Before(l, p);
    if i >= 0 {
      TiedMore(l, i, p);
      assert Fits(l, i, p + 1);
    }
  }

  lemma FillFromKnown(l: Line, p: int)
    requires l.Valid() && Room(l) && 0 <= p < |l.ks| - 1 && l.ks[p].Some?
    ensures StepOk(l, Fill(l, p), Fill(l, p + 1), p)
  {
    KnownIsKept(l, p);
    TiedMore(l, p, p);
    var j := After(l, p + 1);
    if j < |l.ks| { assert Fits(l, p, j); }
    if l.ks[p + 1].Some? { KnownIsKept(l, p + 1); } else { assert Before(l, p + 1) == p; }
  }

  lemma FillBetween(l: Line, p: int)
    requires l.Valid() && Room(l) && 0 <= p < |l.ks| - 1 && l.ks[p].None? && l.ks[p + 1].None?
    ensures StepOk(l, Fill(l, p), Fill(l, p + 1), p)
  {
    var i, j := Before(l, p), After(l, p + 1);
    assert Before(l, p + 1) == i && After(l, p) == j;
    if i >= 0 {
      TiedMore(l, i, p);
      if j < |l.ks| { assert Fits(l, i, j); }
    }
  }

  lemma RoomIsFilled(l: Line) returns (c: seq<Key>)
    requires l.Valid() && Room(l)
    ensures Completes(l, c)
  {
    c := seq(|l.ks|, p requires 0 <= p < |l.ks| => Fill(l, p));
    forall p | 0 <= p < |c| && l.ks[p].Some? ensures c[p] == l.ks[p].value {
      KnownIsKept(l, p);
    }
    forall p | 0 <= p < |c| - 1 ensures StepAt(l, c, p) {
      if l.ks[p].Some? { FillFromKnown(l, p); }
      else if l.ks[p + 1].Some? { FillToKnown(l, p); }
      else { FillBetween(l, p); }
    }
  }

  // -------------------------------------------------------------------------
  // the order monitor
  // -------------------------------------------------------------------------

  /** A name that is listed on both sides of the step has one first occurrence, so nothing lies between. */
  predicate IsTied(names: seq<Field>, p: int) {
    exists i, j :: 0 <= i <= p < j < |names| && names[i] == names[j]
  }

  /** The line of an order monitor. */
  function LineOf(names: seq<Field>, within: Option<real>, keys: map<Field, Key>): (l: Line)
    ensures l.Valid() && |l.ks| == |names|
  {
    Line(seq(|names|, p requires 0 <= p < |names| => if names[p] in keys then Some(keys[names[p]]) else None),
         seq(|names|, p requires 0 <= p < |names| => IsTied(names, p)),
         if within.Some? then Some((within.value * 1000000.0).Floor) else None)
  }

  lemma {:induction false} OrderGrows(r: Running, events: seq<Event>, idx: int)
    requires r.state.Order?
    ensures var m := Feed(r, events, idx).state;
            m.Order? && m == r.state.(keys := m.keys) &&
            forall n :: n in r.state.keys ==> n in m.keys && m.keys[n] == r.state.keys[n]
    decreases |events|
  {
    if events != [] { OrderGrows(Step(r, events[0], idx), events[1..], idx + 1); }
  }

  function KeysOf(names: seq<Field>, keys: map<Field, Key>): (c: seq<Key>)
    requires AllKnown(names, keys)
    ensures |c| == |names| && forall p :: 0 <= p < |names| ==> c[p] == keys[names[p]]
  {
    seq(|names|, p requires 0 <= p < |names| && AllKnown(names, keys) => keys[names[p]])
  }

  lemma TiedAreEqual(names: seq<Field>, c: seq<Key>, p: int)
    requires |c| == |names| && Rising(c) && 0 <= p < |c| - 1 && IsTied(names, p)
    requires forall i, j :: 0 <= i < |c| && 0 <= j < |c| && names[i] == names[j] ==> c[i] == c[j]
    ensures c[p] == c[p + 1]
  {
    var i, j :| 0 <= i <= p < j < |names| && names[i] == names[j];
    if i < p { RisingEverywhere(c, i, p); }
    if p + 1 < j { RisingEverywhere(c, p + 1, j); }
    assert KeyAtMost(c[p], c[p + 1]);
  }

  lemma WithinBound(gap: int, within: real)
    ensures gap as real > within * 1000000.0 <==> gap > (within * 1000000.0).Floor
  {
  }

  /** Passing keys complete the line of any earlier state. */
  lemma PassingCompletes(names: seq<Field>, within: Option<real>, keys: map<Field, Key>, after: map<Field, Key>)
    requires Passes(Order(names, within, after))
    requires forall n :: n in keys ==> n in after && after[n] == keys[n]
    ensures Completes(LineOf(names, within, keys), KeysOf(names, after))
  {
    var l, c := LineOf(names, within, keys), KeysOf(names, after);
    KnownAll(names, after);
    assert Known(names, after) == c;
    forall p | 0 <= p < |c| - 1 ensures StepAt(l, c, p) {
      assert KeyAtMost(c[p], c[p + 1]);
      assert !GapExceeded(names, within, after, p);
      if within.Some? { WithinBound(c[p + 1].0 - c[p].0, within.value); }
      if IsTied(names, p) { TiedAreEqual(names, c, p); }
    }
  }

  /** And keys that complete the line pass. */
  lemma CompletionPasses(names: seq<Field>, within: Option<real>, keys: map<Field, Key>, after: map<Field, Key>)
    requires AllKnown(names, after) && Completes(LineOf(names, within, keys), KeysOf(names, after))
    ensures Passes(Order(names, within, after))
  {
    var l, c := LineOf(names, within, keys), KeysOf(names, after);
    KnownAll(names, after);
    assert Known(names, after) == c;
    forall p | 0 <= p < |c| - 1 ensures KeyAtMost(c[p], c[p + 1]) && !GapExceeded(names, within, after, p) {
      assert StepAt(l, c, p);
      if within.Some? { WithinBound(c[p + 1].0 - c[p].0, within.value); }
    }
  }

  /** One key for each name. */
  predicate Agree(names: seq<Field>, keys: map<Field, Key>, c: seq<Key>) {
    |c| == |names| && forall p :: 0 <= p < |names| && names[p] in keys ==> keys[names[p]] == c[p]
  }

  predicate OnePerName(names: seq<Field>, c: seq<Key>) {
    |c| == |names| && forall i, j :: 0 <= i < j < |names| && names[i] == names[j] ==> c[i] == c[j]
  }

  function Occurrence(name: Field, k: Key): Event {
    Event(name, Some(k.0), Some(k.1), map[])
  }

  /** Let every listed name occur, with the keys as given. */
  lemma {:induction false} AllOccur(r: Running, c: seq<Key>, n: nat, idx: int) returns (more: seq<Event>)
    requires r.state.Order? && n <= |r.state.names| && Agree(r.state.names, r.state.keys, c) &&
      OnePerName(r.state.names, c)
    requires forall p :: 0 <= p < n ==> r.state.names[p] in r.state.keys
    ensures var m := Feed(r, more, idx).state;
            m.Order? && m == r.state.(keys := m.keys) && AllKnown(m.names, m.keys) && KeysOf(m.names, m.keys) == c
    decreases |r.state.names| - n
  {
    var names := r.state.names;
    if n == |names| {
      more := [];
    } else {
      var e := Occurrence(names[n], c[n]);
      var next := Step(r, e, idx);
      assert next.state.keys == if names[n] in r.state.keys then r.state.keys else r.state.keys[names[n] := c[n]];
      var rest := AllOccur(next, c, n + 1, idx + 1);
      more := [e] + rest;
      assert more[0] == e && more[1..] == rest;
    }
  }

  lemma CompletionAgrees(names: seq<Field>, within: Option<real>, keys: map<Field, Key>, c: seq<Key>)
    requires Completes(LineOf(names, within, keys), c)
    ensures Agree(names, keys, c) && OnePerName(names, c)
  {
    var l := LineOf(names, within, keys);
    forall i, j | 0 <= i < j < |names| && names[i] == names[j] ensures c[i] == c[j] {
      forall p | i <= p < j ensures l.tied[p] { assert IsTied(names, p); }
      CompletedSpan(l, c, i, j);
    }
    forall p | 0 <= p < |names| && names[p] in keys ensures keys[names[p]] == c[p] {
      assert l.ks[p] == Some(keys[names[p]]);
    }
  }

  /** An order monitor can still pass exactly if the keys that it knows leave room for the others. */
  lemma OrderCanPass(r: Running)
    requires r.state.Order?
    ensures CanPass(r, None) <==> Room(LineOf(r.state.names, r.state.within, r.state.keys))
  {
    var names, within, keys := r.state.names, r.state.within, r.state.keys;
    var l := LineOf(names, within, keys);
    if CanPass(r, None) {
      var more: seq<Event> :| Passes(Feed(r, more, 0).state);
      OrderGrows(r, more, 0);
      var after := Feed(r, more, 0).state.keys;
      PassingCompletes(names, within, keys, after);
      CompletionHasRoom(l, KeysOf(names, after));
    }
    if Room(l) {
      var c := RoomIsFilled(l);
      CompletionAgrees(names, within, keys, c);
      var more := AllOccur(r, c, 0, 0);
      CompletionPasses(names, within, keys, Feed(r, more, 0).state.keys);
      assert AllCome(None, more) && Passes(Feed(r, more, 0).state);
    }
  }

  /** It can still fail exactly if it would not pass now: once all first occurrences are known, nothing changes. */
  lemma OrderCanFail(r: Running)
    requires r.state.Order?
    ensures CanFail(r, None) <==> !Passes(r.state)
  {
    if Passes(r.state) {
      forall more: seq<Event> ensures Passes(Feed(r, more, 0).state) {
        OrderStays(r, more, 0);
      }
    } else {
      assert AllCome(None, []) && Feed(r, [], 0).state == r.state;
    }
  }

  lemma {:induction false} OrderStays(r: Running, events: seq<Event>, idx: int)
    requires r.state.Order? && AllKnown(r.state.names, r.state.keys)
    ensures Feed(r, events, idx).state == r.state
    decreases |events|
  {
    if events != [] { OrderStays(Step(r, events[0], idx), events[1..], idx + 1); }
  }
}
