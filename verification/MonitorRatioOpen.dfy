/** Which shares a ratio monitor can still come to. */
module MonitorRatioOpen {
  import opened Common
  import opened MonitorModel
  import opened MonitorSoundness
  import opened MonitorMatching

  /** Which kinds of events may still come: good but not counted in the total, counted but not good, and both. */
  datatype Mix = Mix(onlyGood: bool, onlyAll: bool, both: bool)

  function MixOf(good: Matcher, all: Matcher, last: Option<Event>): Mix {
    Mix(Separable([good], [all], last), Separable([all], [good], last), Compatible(good, all, last))
  }

  /** So many events of each kind can come. */
  predicate Possible(x: Mix, a: nat, b: nat, c: nat) {
    (a > 0 ==> x.onlyGood) && (b > 0 ==> x.onlyAll) && (c > 0 ==> x.both)
  }

  predicate ShareHolds(op: Op, share: real, goods: nat, total: nat) {
    total > 0 && Holds(op, goods as real / total as real, share)
  }

  /** Some number of further events makes the comparison hold. */
  ghost predicate Ahead(x: Mix, op: Op, share: real, goods: nat, total: nat) {
    exists a: nat, b: nat, c: nat {:trigger Possible(x, a, b, c)} ::
      Possible(x, a, b, c) && ShareHolds(op, share, goods + a + c, total + b + c)
  }

  /** The comparison that holds where the other does not. */
  function Opposite(op: Op): Op {
    match op
    case Ge => Lt
    case Gt => Le
    case Eq => Ne
    case Ne => Eq
    case Le => Gt
    case Lt => Ge
  }

  // -------------------------------------------------------------------------
  // from streams to three numbers
  // -------------------------------------------------------------------------

  ghost predicate Added(r: Running, n: Running, a: nat, b: nat, c: nat)
    requires r.state.Ratio?
  {
    n.state == r.state.(goods := r.state.goods + a + c, total := r.state.total + b + c)
  }

  lemma RepeatedEvent(r: Running, e: Event, n: nat, idx: int)
    requires r.state.Ratio?
    ensures Feed(r, Copies(e, n), idx).state ==
            r.state.(goods := r.state.goods + if Matches(e, r.state.good) then n else 0,
                     total := r.state.total + if Matches(e, r.state.all) then n else 0)
    decreases n
  {
    if n > 0 {
      assert Copies(e, n)[1..] == Copies(e, n - 1);
      RepeatedEvent(Step(r, e, idx), e, n - 1, idx + 1);
    }
  }

  predicate IsThere(x: Mix, inGood: bool, inAll: bool) {
    if inGood && inAll then x.both else if inGood then x.onlyGood else x.onlyAll
  }

  /** An event of a kind, if there is any. */
  lemma KindComes(good: Matcher, all: Matcher, last: Option<Event>, inGood: bool, inAll: bool) returns (e: Event)
    requires (inGood || inAll) && IsThere(MixOf(good, all, last), inGood, inAll)
    ensures Matches(e, good) == inGood && Matches(e, all) == inAll && Comes(last, e)
  {
    if inGood && inAll {
      BothIffCompatible(good, all, last);
      e :| MatchesBoth(e, good, all, last);
    } else {
      var yes, no := if inGood then good else all, if inGood then all else good;
      OffenderIffSeparable([yes], [no], last);
      e :| Offends(e, [yes], [no], last);
      var i :| 0 <= i < 1 && Matches(e, [yes][i]);
      assert !Matches(e, [no][0]);
    }
  }

  lemma SomeCome(r: Running, last: Option<Event>, n: nat, inGood: bool, inAll: bool, idx: int)
    returns (more: seq<Event>)
    requires r.state.Ratio? && (inGood || inAll)
    requires n > 0 ==> IsThere(MixOf(r.state.good, r.state.all, last), inGood, inAll)
    ensures AllCome(last, more)
    ensures Feed(r, more, idx).state ==
            r.state.(goods := r.state.goods + if inGood then n else 0, total := r.state.total + if inAll then n else 0)
  {
    if n == 0 {
      more := [];
    } else {
      var e := KindComes(r.state.good, r.state.all, last, inGood, inAll);
      more := Copies(e, n);
      RepeatedEvent(r, e, n, idx);
    }
  }

  lemma MoreCome(r: Running, last: Option<Event>, before: seq<Event>, now: Running, n: nat, inGood: bool, inAll: bool)
    returns (more: seq<Event>)
    requires Shaped(r.state) && now == Feed(r, before, 0) && now.state.Ratio? && (inGood || inAll) &&
      AllCome(last, before)
    requires n > 0 ==> IsThere(MixOf(now.state.good, now.state.all, last), inGood, inAll)
    ensures AllCome(last, more)
    ensures Feed(r, more, 0).state ==
            now.state.(goods := now.state.goods + if inGood then n else 0,
                       total := now.state.total + if inAll then n else 0)
  {
    var rest := SomeCome(now, last, n, inGood, inAll, |before|);
    FeedInPieces(r, before, rest, 0);
    more := before + rest;
  }

  lemma PossibleComes(r: Running, last: Option<Event>, a: nat, b: nat, c: nat) returns (more: seq<Event>)
    requires r.state.Ratio? && Possible(MixOf(r.state.good, r.state.all, last), a, b, c)
    ensures AllCome(last, more) && Added(r, Feed(r, more, 0), a, b, c)
  {
    more := SomeCome(r, last, a, true, false, 0);
    more := MoreCome(r, last, more, Feed(r, more, 0), b, false, true);
    more := MoreCome(r, last, more, Feed(r, more, 0), c, true, true);
  }

  lemma KindExists(good: Matcher, all: Matcher, last: Option<Event>, e: Event)
    requires Comes(last, e) && (Matches(e, good) || Matches(e, all))
    ensures IsThere(MixOf(good, all, last), Matches(e, good), Matches(e, all))
  {
    assert [good][0] == good && [all][0] == all;
    BothIffCompatible(good, all, last);
    OffenderIffSeparable([good], [all], last);
    OffenderIffSeparable([all], [good], last);
    assert MatchesBoth(e, good, all, last) <==> Matches(e, good) && Matches(e, all);
    assert MatchesAny(e, [good]) <==> Matches(e, good);
    assert MatchesAny(e, [all]) <==> Matches(e, all);
    assert Offends(e, [good], [all], last) <==> Matches(e, good) && !Matches(e, all);
    assert Offends(e, [all], [good], last) <==> Matches(e, all) && !Matches(e, good);
  }

  lemma {:induction false} WhatComesIsPossible(r: Running, last: Option<Event>, more: seq<Event>, idx: int)
    returns (a: nat, b: nat, c: nat)
    requires r.state.Ratio? && AllCome(last, more)
    ensures Possible(MixOf(r.state.good, r.state.all, last), a, b, c) && Added(r, Feed(r, more, idx), a, b, c)
    decreases |more|
  {
    if more == [] {
      a, b, c := 0, 0, 0;
    } else {
      var e := more[0];
      assert e in more && AllCome(last, more[1..]);
      var inGood, inAll := Matches(e, r.state.good), Matches(e, r.state.all);
      if inGood || inAll { KindExists(r.state.good, r.state.all, last, e); }
      a, b, c := WhatComesIsPossible(Step(r, e, idx), last, more[1..], idx + 1);
      if inGood && inAll { c := c + 1; } else if inGood { a := a + 1; } else if inAll { b := b + 1; }
    }
  }

  lemma PassedIsAhead(r: Running, last: Option<Event>, more: seq<Event>)
    requires r.state.Ratio? && AllCome(last, more) && Passes(Feed(r, more, 0).state)
    ensures Ahead(MixOf(r.state.good, r.state.all, last), r.state.op, r.state.share, r.state.goods, r.state.total)
  {
    var a, b, c := WhatComesIsPossible(r, last, more, 0);
    assert ShareHolds(r.state.op, r.state.share, r.state.goods + a + c, r.state.total + b + c);
  }

  lemma AheadPasses(r: Running, last: Option<Event>) returns (more: seq<Event>)
    requires r.state.Ratio?
    requires Ahead(MixOf(r.state.good, r.state.all, last), r.state.op, r.state.share, r.state.goods, r.state.total)
    ensures AllCome(last, more) && Passes(Feed(r, more, 0).state)
  {
    var m, x := r.state, MixOf(r.state.good, r.state.all, last);
    var a: nat, b: nat, c: nat :| Possible(x, a, b, c) && ShareHolds(m.op, m.share, m.goods + a + c, m.total + b + c);
    more := PossibleComes(r, last, a, b, c);
  }

  lemma RatioCanPass(r: Running, last: Option<Event>)
    requires r.state.Ratio?
    ensures CanPass(r, last) <==>
      Ahead(MixOf(r.state.good, r.state.all, last), r.state.op, r.state.share, r.state.goods, r.state.total)
  {
    if CanPass(r, last) {
      var more: seq<Event> :| AllCome(last, more) && Passes(Feed(r, more, 0).state);
      PassedIsAhead(r, last, more);
    }
    if Ahead(MixOf(r.state.good, r.state.all, last), r.state.op, r.state.share, r.state.goods, r.state.total) {
      var more := AheadPasses(r, last);
    }
  }

  lemma FailedIsAhead(r: Running, last: Option<Event>, more: seq<Event>)
    requires r.state.Ratio? && r.state.total > 0 && AllCome(last, more) && !Passes(Feed(r, more, 0).state)
    ensures Ahead(MixOf(r.state.good, r.state.all, last), Opposite(r.state.op), r.state.share, r.state.goods,
      r.state.total)
  {
    var a, b, c := WhatComesIsPossible(r, last, more, 0);
    assert ShareHolds(Opposite(r.state.op), r.state.share, r.state.goods + a + c, r.state.total + b + c);
  }

  lemma AheadFails(r: Running, last: Option<Event>) returns (more: seq<Event>)
    requires r.state.Ratio?
    requires Ahead(MixOf(r.state.good, r.state.all, last), Opposite(r.state.op), r.state.share, r.state.goods,
      r.state.total)
    ensures AllCome(last, more) && !Passes(Feed(r, more, 0).state)
  {
    var m, x, op := r.state, MixOf(r.state.good, r.state.all, last), Opposite(r.state.op);
    var a: nat, b: nat, c: nat :| Possible(x, a, b, c) && ShareHolds(op, m.share, m.goods + a + c, m.total + b + c);
    more := PossibleComes(r, last, a, b, c);
    FailsThere(m, m.goods + a + c, m.total + b + c);
  }

  lemma FailsThere(m: Monitor, goods: nat, total: nat)
    requires m.Ratio? && ShareHolds(Opposite(m.op), m.share, goods, total)
    ensures !Passes(m.(goods := goods, total := total))
  {
  }

  lemma RatioCanFail(r: Running, last: Option<Event>)
    requires r.state.Ratio?
    ensures CanFail(r, last) <==>
      || r.state.total == 0
      || Ahead(MixOf(r.state.good, r.state.all, last), Opposite(r.state.op), r.state.share, r.state.goods,
          r.state.total)
  {
    if CanFail(r, last) && r.state.total > 0 {
      var more: seq<Event> :| AllCome(last, more) && !Passes(Feed(r, more, 0).state);
      FailedIsAhead(r, last, more);
    }
    if r.state.total == 0 {
      assert AllCome(last, []) && Feed(r, [], 0).state == r.state;
    } else if Ahead(MixOf(r.state.good, r.state.all, last), Opposite(r.state.op), r.state.share, r.state.goods,
      r.state.total) {
      var more := AheadFails(r, last);
    }
  }

  // -------------------------------------------------------------------------
  // from three numbers to the share
  // -------------------------------------------------------------------------

  /** `n` times `v`, added up. */
  ghost function Times(n: nat, v: real): real {
    if n == 0 then 0.0 else Times(n - 1, v) + v
  }

  lemma {:induction false} TimesIsProduct(n: nat, v: real)
    ensures Times(n, v) == n as real * v
  {
    if n > 0 {
      TimesIsProduct(n - 1, v);
      assert n as real * v == (n - 1) as real * v + v;
    }
  }

  lemma {:induction false} TimesAdd(n: nat, m: nat, v: real)
    ensures Times(n + m, v) == Times(n, v) + Times(m, v)
    decreases m
  {
    if m > 0 { TimesAdd(n, m - 1, v); }
  }

  lemma {:induction false} TimesRest(n: nat, v: real)
    ensures Times(n, 1.0 - v) == n as real - Times(n, v)
    ensures Times(n, -v) == -Times(n, v)
  {
    if n > 0 { TimesRest(n - 1, v); }
  }

  lemma {:induction false} TimesPositive(n: nat, v: real)
    requires v >= 0.0
    ensures Times(n, v) >= if n > 0 then v else 0.0
  {
    if n > 0 { TimesPositive(n - 1, v); }
  }

  /** How far the good events are above the wanted share of the total. */
  ghost function Level(share: real, goods: nat, total: nat): real {
    goods as real - Times(total, share)
  }

  lemma Quotient(g: real, t: real, s: real)
    requires t > 0.0
    ensures g / t > s <==> g - s * t > 0.0
    ensures g / t == s <==> g - s * t == 0.0
  {
    var q := g / t;
    assert q * t == g;
    if q > s { assert (q - s) * t > 0.0; }
    if q < s { assert (s - q) * t > 0.0; }
  }

  lemma ShareIsLevel(op: Op, share: real, goods: nat, total: nat)
    requires total > 0
    ensures ShareHolds(op, share, goods, total) <==> Holds(op, Level(share, goods, total), 0.0)
  {
    Quotient(goods as real, total as real, share);
    TimesIsProduct(total, share);
  }

  lemma LevelAfter(share: real, goods: nat, total: nat, a: nat, b: nat, c: nat)
    ensures Level(share, goods + a + c, total + b + c) ==
            Level(share, goods, total) + a as real - Times(b, share) + Times(c, 1.0 - share)
  {
    TimesAdd(total, b, share);
    TimesAdd(total + b, c, share);
    TimesRest(c, share);
  }

  /** The level can be raised, or lowered, without end. */
  predicate Climbs(x: Mix, share: real, total: nat) {
    (x.onlyGood && (total > 0 || x.onlyAll || x.both)) || (x.onlyAll && share < 0.0) || (x.both && share < 1.0)
  }

  predicate Sinks(x: Mix, share: real) {
    (x.onlyAll && share > 0.0) || (x.both && share > 1.0)
  }

  /** The comparison holds as things stand or, before the first counted event, after one. */
  predicate HoldsSoon(x: Mix, op: Op, share: real, goods: nat, total: nat) {
    if total > 0 then ShareHolds(op, share, goods, total)
    else (x.onlyAll && ShareHolds(op, share, goods, 1)) || (x.both && ShareHolds(op, share, goods + 1, 1))
  }

  predicate IsFraction(share: real, p: nat, q: nat) {
    q > 0 && share * q as real == p as real
  }

  /** The fraction in lowest terms. */
  ghost predicate IsLeastFraction(share: real, p: nat, q: nat) {
    IsFraction(share, p, q) && forall p': nat, q': nat {:trigger IsFraction(share, p', q')} ::
      IsFraction(share, p', q') ==> q <= q'
  }

  /** Events of these kinds can add so much to the two counts. */
  predicate CanAdd(x: Mix, goods: int, total: int) {
    && goods >= 0 && total >= 0
    && (goods > total ==> x.onlyGood) && (goods < total ==> x.onlyAll)
    && (goods > 0 && total > 0 ==> x.both || (x.onlyGood && x.onlyAll))
  }

  predicate CanComeTo(x: Mix, goods: nat, total: nat, p: nat, q: nat, k: nat) {
    CanAdd(x, k * p - goods, k * q - total)
  }

  /**
    The share is a fraction, and the counts can be raised to a multiple of its lowest terms. Only the multiples up to
    one more than the sum of the counts have to be tried.
  */
  ghost predicate CanEqual(x: Mix, share: real, goods: nat, total: nat) {
    exists p: nat, q: nat, k: nat {:trigger IsLeastFraction(share, p, q), CanComeTo(x, goods, total, p, q, k)} ::
      IsLeastFraction(share, p, q) && 1 <= k <= goods + total + 1 && CanComeTo(x, goods, total, p, q, k)
  }

  /** What the share, the counts and the kinds of events say: whether the comparison can come to hold. */
  ghost predicate CanHold(x: Mix, op: Op, share: real, goods: nat, total: nat) {
    match op
    case Ge => Climbs(x, share, total) || HoldsSoon(x, op, share, goods, total)
    case Gt => Climbs(x, share, total) || HoldsSoon(x, op, share, goods, total)
    case Le => Sinks(x, share) || HoldsSoon(x, op, share, goods, total)
    case Lt => Sinks(x, share) || HoldsSoon(x, op, share, goods, total)
    case Ne => Climbs(x, share, total) || Sinks(x, share) || HoldsSoon(x, op, share, goods, total)
    case Eq => CanEqual(x, share, goods, total)
  }

  lemma Enough(level: real, slope: real) returns (n: nat)
    requires slope > 0.0
    ensures n >= 1 && level + Times(n, slope) > 0.0
  {
    var q := -level / slope;
    n := if q >= 0.0 then q.Floor + 1 else 1;
    assert n as real > q;
    assert q * slope == -level;
    assert (n as real - q) * slope > 0.0;
    TimesIsProduct(n, slope);
  }

  lemma ItComes(x: Mix, op: Op, share: real, goods: nat, total: nat, a: nat, b: nat, c: nat)
    requires Possible(x, a, b, c) && total + b + c > 0
    requires Holds(op, Level(share, goods, total) + a as real - Times(b, share) + Times(c, 1.0 - share), 0.0)
    ensures Ahead(x, op, share, goods, total)
  {
    LevelAfter(share, goods, total, a, b, c);
    ShareIsLevel(op, share, goods + a + c, total + b + c);
    assert ShareHolds(op, share, goods + a + c, total + b + c);
  }

  lemma ClimbsThere(x: Mix, op: Op, share: real, goods: nat, total: nat)
    requires Climbs(x, share, total) && (op == Ge || op == Gt || op == Ne)
    ensures Ahead(x, op, share, goods, total)
  {
    var level := Level(share, goods, total);
    if x.onlyAll && share < 0.0 {
      var n := Enough(level, -share);
      TimesRest(n, share);
      ItComes(x, op, share, goods, total, 0, n, 0);
    } else if x.both && share < 1.0 {
      var n := Enough(level, 1.0 - share);
      ItComes(x, op, share, goods, total, 0, 0, n);
    } else {
      var b: nat, c: nat := if x.onlyAll then 1 else 0, if x.both then 1 else 0;
      var n := Enough(level - Times(b, share) + Times(c, 1.0 - share), 1.0);
      TimesIsProduct(n, 1.0);
      ItComes(x, op, share, goods, total, n, b, c);
    }
  }

  lemma SinksThere(x: Mix, op: Op, share: real, goods: nat, total: nat)
    requires Sinks(x, share) && (op == Le || op == Lt || op == Ne)
    ensures Ahead(x, op, share, goods, total)
  {
    var level := Level(share, goods, total);
    if x.onlyAll && share > 0.0 {
      var n := Enough(-level, share);
      ItComes(x, op, share, goods, total, 0, n, 0);
    } else {
      var n := Enough(-level, share - 1.0);
      TimesRest(n, 1.0 - share);
      TimesRest(n, share);
      assert -(1.0 - share) == share - 1.0;
      ItComes(x, op, share, goods, total, 0, 0, n);
    }
  }

  lemma SoonIsAhead(x: Mix, op: Op, share: real, goods: nat, total: nat)
    requires HoldsSoon(x, op, share, goods, total)
    ensures Ahead(x, op, share, goods, total)
  {
    if total > 0 {
      assert Possible(x, 0, 0, 0) && ShareHolds(op, share, goods + 0 + 0, total + 0 + 0);
    } else if x.onlyAll && ShareHolds(op, share, goods, 1) {
      assert Possible(x, 0, 1, 0) && ShareHolds(op, share, goods + 0 + 0, total + 1 + 0);
    } else {
      assert Possible(x, 0, 0, 1) && ShareHolds(op, share, goods + 0 + 1, total + 0 + 1);
    }
  }

  /** What only sinks holds soon or never. */
  lemma OnlySinks(x: Mix, op: Op, share: real, goods: nat, total: nat, a: nat, b: nat, c: nat)
    requires !Climbs(x, share, total) && (op == Ge || op == Gt)
    requires Possible(x, a, b, c) && ShareHolds(op, share, goods + a + c, total + b + c)
    ensures HoldsSoon(x, op, share, goods, total)
  {
    LevelAfter(share, goods, total, a, b, c);
    ShareIsLevel(op, share, goods + a + c, total + b + c);
    assert a == 0;
    if b > 0 { TimesPositive(b, share); }
    TimesRest(c, 1.0 - share);
    assert -(1.0 - share) == share - 1.0;
    if c > 0 { TimesPositive(c, share - 1.0); }
    HoldsAtOnce(op, share, goods, total);
  }

  lemma HoldsAtOnce(op: Op, share: real, goods: nat, total: nat)
    ensures total > 0 ==> (ShareHolds(op, share, goods, total) <==> Holds(op, Level(share, goods, total), 0.0))
    ensures ShareHolds(op, share, goods, 1) <==> Holds(op, goods as real - share, 0.0)
    ensures ShareHolds(op, share, goods + 1, 1) <==> Holds(op, goods as real + 1.0 - share, 0.0)
    ensures Level(share, goods, 0) == goods as real
  {
    if total > 0 { ShareIsLevel(op, share, goods, total); }
    ShareIsLevel(op, share, goods, 1);
    ShareIsLevel(op, share, goods + 1, 1);
    assert Times(1, share) == Times(0, share) + share;
  }

  /** And what only climbs. */
  lemma OnlyClimbs(x: Mix, op: Op, share: real, goods: nat, total: nat, a: nat, b: nat, c: nat)
    requires !Sinks(x, share) && (op == Le || op == Lt)
    requires Possible(x, a, b, c) && ShareHolds(op, share, goods + a + c, total + b + c)
    ensures HoldsSoon(x, op, share, goods, total)
  {
    LevelAfter(share, goods, total, a, b, c);
    ShareIsLevel(op, share, goods + a + c, total + b + c);
    TimesRest(b, share);
    if b > 0 { TimesPositive(b, -share); }
    if c > 0 { TimesPositive(c, 1.0 - share); }
    HoldsAtOnce(op, share, goods, total);
  }

  // -------------------------------------------------------------------------
  // equality
  // -------------------------------------------------------------------------

  lemma EqualIsFraction(share: real, goods: nat, total: nat)
    requires total > 0
    ensures ShareHolds(Eq, share, goods, total) <==> IsFraction(share, goods, total)
  {
    Quotient(goods as real, total as real, share);
  }

  lemma {:induction false} LeastFractionExists(share: real, p0: nat, q0: nat) returns (p: nat, q: nat)
    requires IsFraction(share, p0, q0)
    ensures IsLeastFraction(share, p, q)
    decreases q0
  {
    if p1: nat, q1: nat :| IsFraction(share, p1, q1) && q1 < q0 {
      p, q := LeastFractionExists(share, p1, q1);
    } else {
      p, q := p0, q0;
    }
  }

  lemma FractionsSubtract(share: real, p: nat, q: nat, p0: nat, q0: nat)
    requires IsFraction(share, p, q) && IsFraction(share, p0, q0) && q <= q0
    ensures p <= p0 && (q < q0 ==> IsFraction(share, p0 - p, q0 - q)) && (q == q0 ==> p == p0)
  {
    assert share < 0.0 ==> share * q as real < 0.0;
    var d := (q0 - q) as real;
    assert share * d == p0 as real - p as real;
    assert share * d >= 0.0;
  }

  /** Every fraction of the same value is a multiple of the least one. */
  lemma {:induction false} IsMultiple(share: real, p: nat, q: nat, p0: nat, q0: nat) returns (k: nat)
    requires IsLeastFraction(share, p, q) && IsFraction(share, p0, q0)
    ensures k >= 1 && p0 == k * p && q0 == k * q
    decreases q0
  {
    FractionsSubtract(share, p, q, p0, q0);
    if q == q0 {
      k := 1;
    } else {
      var j := IsMultiple(share, p, q, p0 - p, q0 - q);
      k := j + 1;
      Distribute(j, p);
      Distribute(j, q);
    }
  }

  lemma Distribute(j: nat, n: nat)
    ensures (j + 1) * n == j * n + n
  {
  }

  lemma AtLeast(k: nat, n: nat)
    ensures k * n >= if n > 0 then k else 0
    ensures n == 0 ==> k * n == 0
  {
    if n > 0 { assert k * n == k * (n - 1) + k; }
  }

  lemma Split(k: nat, p: nat, q: nat)
    requires p <= q
    ensures k * p + k * (q - p) == k * q
  {
  }

  /** How the multiples of a fraction lie. */
  lemma MultipleLies(p: nat, q: nat, k: nat)
    requires q > 0
    ensures (p > 0 ==> k * p >= k) && (p == 0 ==> k * p == 0) && k * q >= k
    ensures (p < q ==> k * q - k * p >= k) && (p > q ==> k * p - k * q >= k) && (p == q ==> k * p == k * q)
  {
    AtLeast(k, p);
    AtLeast(k, q);
    if p <= q {
      Split(k, p, q);
      AtLeast(k, q - p);
    } else {
      Split(k, q, p);
      AtLeast(k, p - q);
    }
  }

  lemma RealProduct(k: nat, n: nat)
    ensures (k * n) as real == k as real * n as real
  {
  }

  lemma Scale(share: real, p: real, q: real, k: real)
    requires share * q == p
    ensures share * (k * q) == k * p
  {
    assert share * (k * q) == k * (share * q);
  }

  lemma MultipleIsFraction(share: real, p: nat, q: nat, k: nat)
    requires IsFraction(share, p, q) && k >= 1
    ensures IsFraction(share, k * p, k * q)
  {
    AtLeast(k, q);
    RealProduct(k, p);
    RealProduct(k, q);
    Scale(share, p as real, q as real, k as real);
  }

  lemma AddedIsPossible(x: Mix, goods: int, total: int) returns (a: nat, b: nat, c: nat)
    requires CanAdd(x, goods, total)
    ensures Possible(x, a, b, c) && goods == a + c && total == b + c
  {
    c := if !x.both then 0 else if goods < total then goods else total;
    a, b := goods - c, total - c;
  }

  lemma EqualComes(x: Mix, share: real, goods: nat, total: nat)
    requires CanEqual(x, share, goods, total)
    ensures Ahead(x, Eq, share, goods, total)
  {
    var p: nat, q: nat, k: nat :|
      IsLeastFraction(share, p, q) && 1 <= k <= goods + total + 1 && CanComeTo(x, goods, total, p, q, k);
    MultipleIsFraction(share, p, q, k);
    var kp, kq := k * p, k * q;
    var a, b, c := AddedIsPossible(x, kp - goods, kq - total);
    EqualIsFraction(share, kp, kq);
    assert ShareHolds(Eq, share, goods + a + c, total + b + c);
  }

  /** Once a multiple is past both counts, a smaller one that is past them too does as well. */
  lemma SmallerMultiple(x: Mix, goods: nat, total: nat, p: nat, q: nat, k: nat, least: nat)
    requires q > 0 && CanComeTo(x, goods, total, p, q, k) && k >= least == goods + total + 1
    ensures CanComeTo(x, goods, total, p, q, least)
  {
    MultipleLies(p, q, k);
    MultipleLies(p, q, least);
  }

  lemma EqualIsAhead(x: Mix, share: real, goods: nat, total: nat, a: nat, b: nat, c: nat)
    requires Possible(x, a, b, c) && ShareHolds(Eq, share, goods + a + c, total + b + c)
    ensures CanEqual(x, share, goods, total)
  {
    EqualIsFraction(share, goods + a + c, total + b + c);
    var p, q := LeastFractionExists(share, goods + a + c, total + b + c);
    var k := IsMultiple(share, p, q, goods + a + c, total + b + c);
    assert CanComeTo(x, goods, total, p, q, k);
    if k > goods + total + 1 { SmallerMultiple(x, goods, total, p, q, k, goods + total + 1); }
  }

  // -------------------------------------------------------------------------
  // main result
  // -------------------------------------------------------------------------

  lemma HeldCanHold(x: Mix, op: Op, share: real, goods: nat, total: nat)
    requires Ahead(x, op, share, goods, total)
    ensures CanHold(x, op, share, goods, total)
  {
    var a: nat, b: nat, c: nat :| Possible(x, a, b, c) && ShareHolds(op, share, goods + a + c, total + b + c);
    match op {
      case Eq => EqualIsAhead(x, share, goods, total, a, b, c);
      case Ne =>
        if ShareHolds(Gt, share, goods + a + c, total + b + c) {
          if !Climbs(x, share, total) { OnlySinks(x, Gt, share, goods, total, a, b, c); }
        } else {
          assert ShareHolds(Lt, share, goods + a + c, total + b + c);
          if !Sinks(x, share) { OnlyClimbs(x, Lt, share, goods, total, a, b, c); }
        }
      case Ge => if !Climbs(x, share, total) { OnlySinks(x, op, share, goods, total, a, b, c); }
      case Gt => if !Climbs(x, share, total) { OnlySinks(x, op, share, goods, total, a, b, c); }
      case Le => if !Sinks(x, share) { OnlyClimbs(x, op, share, goods, total, a, b, c); }
      case Lt => if !Sinks(x, share) { OnlyClimbs(x, op, share, goods, total, a, b, c); }
    }
  }

  /** The condition on the share, the counts and the kinds of events is exact. */
  lemma AheadIffCanHold(x: Mix, op: Op, share: real, goods: nat, total: nat)
    ensures Ahead(x, op, share, goods, total) <==> CanHold(x, op, share, goods, total)
  {
    if Ahead(x, op, share, goods, total) { HeldCanHold(x, op, share, goods, total); }
    if CanHold(x, op, share, goods, total) {
      if op == Eq { EqualComes(x, share, goods, total); }
      else if HoldsSoon(x, op, share, goods, total) { SoonIsAhead(x, op, share, goods, total); }
      else if op != Le && op != Lt && Climbs(x, share, total) { ClimbsThere(x, op, share, goods, total); }
      else { SinksThere(x, op, share, goods, total); }
    }
  }

  /** A ratio can pass if its comparison can come to hold, and fail if the opposite can, or without any evidence. */
  lemma RatioIsOpen(r: Running, last: Option<Event>)
    requires r.state.Ratio?
    ensures var m, x := r.state, MixOf(r.state.good, r.state.all, last);
            && (CanPass(r, last) <==> CanHold(x, m.op, m.share, m.goods, m.total))
            && (CanFail(r, last) <==> m.total == 0 || CanHold(x, Opposite(m.op), m.share, m.goods, m.total))
  {
    var m, x := r.state, MixOf(r.state.good, r.state.all, last);
    RatioCanPass(r, last);
    RatioCanFail(r, last);
    AheadIffCanHold(x, m.op, m.share, m.goods, m.total);
    AheadIffCanHold(x, Opposite(m.op), m.share, m.goods, m.total);
  }
}
