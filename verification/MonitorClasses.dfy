/** The monitor objects, which `step` updates in place, and the set of monitors that a live stream feeds. */
module MonitorClasses {
  import opened Common
  import opened MonitorModel

  class CountMonitor {
    const m: Matcher
    const op: Op
    const want: int
    var got: nat
    var latch: Latch

    ghost function View(): Running
      reads this
    {
      Running(Count(m, op, want, got), latch)
    }

    constructor (m: Matcher, op: Op, want: int)
      ensures View() == Start(Count(m, op, want, 0))
    {
      this.m, this.op, this.want, this.got := m, op, want, 0;
      this.latch := if op == Ge && want <= 0 then Settle(OPEN, Sat, -1) else OPEN;
    }

    method StepOn(e: Event, idx: int)
      modifies this
      ensures View() == Step(old(View()), e, idx)
    {
      if !Matches(e, m) { return; }
      got := got + 1;
      if (op == Ge || op == Gt) && HoldsInt(op, got, want) {
        latch := Settle(latch, Sat, idx);
      } else if op == Eq && got > want {
        latch := Settle(latch, Viol, idx);
      } else if op == Le && got > want {
        latch := Settle(latch, Viol, idx);
      } else if op == Lt && got >= want {
        latch := Settle(latch, Viol, idx);
      }
    }

    method CollapseTo(reachable: bool) returns (c: CheckResult)
      ensures c == Collapse(View(), reachable)
    {
      c := CheckResult(reachable && HoldsInt(op, got, want), latch.verdict, latch.settledAt);
    }
  }

  class PresentMonitor {
    const matchers: seq<Matcher>
    var hit: seq<bool>
    var latch: Latch

    ghost predicate Valid()
      reads this
    {
      |hit| == |matchers|
    }

    ghost function View(): Running
      reads this
    {
      Running(Present(matchers, hit), latch)
    }

    constructor (matchers: seq<Matcher>)
      ensures Valid() && Fresh(View().state) && View() == Start(View().state) && this.matchers == matchers
    {
      this.matchers, this.latch := matchers, OPEN;
      this.hit := seq(|matchers|, _ => false);
    }

    method StepOn(e: Event, idx: int)
      requires Valid()
      modifies this
      ensures Valid() && View() == Step(old(View()), e, idx)
    {
      for i := 0 to |matchers|
        invariant Valid() && latch == old(latch)
        invariant forall k :: 0 <= k < i ==> hit[k] == (old(hit)[k] || Matches(e, matchers[k]))
        invariant forall k :: i <= k < |matchers| ==> hit[k] == old(hit)[k]
      {
        if !hit[i] && Matches(e, matchers[i]) {
          hit := hit[i := true];
        }
      }
      if AllHit(hit) {
        latch := Settle(latch, Sat, idx);
      }
      assert hit == Step(old(View()), e, idx).state.hit;
    }

    method CollapseTo(reachable: bool) returns (c: CheckResult)
      requires Valid()
      ensures c == Collapse(View(), reachable)
    {
      var missing := [];
      for i := 0 to |matchers|
        invariant missing == [] <==> forall k :: 0 <= k < i ==> hit[k]
      {
        if !hit[i] { missing := missing + [matchers[i]]; }
      }
      c := CheckResult(reachable && missing == [], latch.verdict, latch.settledAt);
    }
  }

  class AbsentMonitor {
    const matchers: seq<Matcher>
    const allow: seq<Matcher>
    var offenders: seq<Event>
    var latch: Latch

    ghost function View(): Running
      reads this
    {
      Running(Absent(matchers, allow, offenders), latch)
    }

    constructor (matchers: seq<Matcher>, allow: seq<Matcher>)
      ensures View() == Start(Absent(matchers, allow, []))
    {
      this.matchers, this.allow, this.offenders, this.latch := matchers, allow, [], OPEN;
    }

    method StepOn(e: Event, idx: int)
      modifies this
      ensures View() == Step(old(View()), e, idx)
    {
      if MatchesAny(e, allow) { return; }
      if MatchesAny(e, matchers) {
        offenders := offenders + [e];
        latch := Settle(latch, Viol, idx);
      }
    }

    method CollapseTo(reachable: bool) returns (c: CheckResult)
      ensures c == Collapse(View(), reachable)
    {
      c := CheckResult(reachable && offenders == [], latch.verdict, latch.settledAt);
    }
  }

  class OrderMonitor {
    const names: seq<Field>
    const within: Option<real>
    var firsts: map<Field, int>
    var keys: map<Field, Key>
    var latch: Latch

    ghost predicate Valid()
      reads this
    {
      firsts.Keys == keys.Keys && forall n :: n in keys ==> firsts[n] == keys[n].0
    }

    ghost function View(): Running
      reads this
    {
      Running(Order(names, within, keys), latch)
    }

    constructor (names: seq<Field>, within: Option<real>)
      ensures Valid() && View() == Start(Order(names, within, map[]))
    {
      this.names, this.within, this.firsts, this.keys, this.latch := names, within, map[], map[], OPEN;
    }

    /** The known first occurrences, in the listed order. */
    method KnownKeys() returns (known: seq<Key>)
      ensures known == Known(names, keys)
    {
      known := [];
      var i := |names|;
      while i > 0
        invariant 0 <= i <= |names|
        invariant known == Known(names[i..], keys)
      {
        i := i - 1;
        assert names[i..][1..] == names[i + 1..];
        if names[i] in keys { known := [keys[names[i]]] + known; }
      }
      assert names[0..] == names;
    }

    /** The neighbours that lie too far apart. */
    method GapsExceeded() returns (gaps: seq<nat>)
      requires Valid()
      ensures forall i :: i in gaps <==> 0 <= i < |names| - 1 && GapExceeded(names, within, keys, i)
      ensures gaps != [] <==> SomeGap(names, within, keys)
    {
      gaps := [];
      if within.None? { return; }
      var bound := within.value * 1000000.0;
      var i := 0;
      while i < |names| - 1
        invariant 0 <= i && (i <= |names| - 1 || i == 0)
        invariant forall k :: k in gaps <==> 0 <= k < i && k < |names| - 1 && GapExceeded(names, within, keys, k)
      {
        var a, b := names[i], names[i + 1];
        if a in firsts && b in firsts && (firsts[b] - firsts[a]) as real > bound {
          gaps := gaps + [i];
        }
        i := i + 1;
      }
      if gaps != [] { assert gaps[0] in gaps; }
    }

    method StepOn(e: Event, idx: int)
      requires Valid()
      modifies this
      ensures Valid() && View() == Step(old(View()), e, idx)
    {
      if e.name !in names || e.ts.None? { return; }
      if e.name !in firsts {
        firsts := firsts[e.name := e.ts.value];
        keys := keys[e.name := KeyOf(e)];
      }
      var known := KnownKeys();
      var gaps := GapsExceeded();
      if !Rising(known) || gaps != [] {
        latch := Settle(latch, Viol, idx);
        return;
      }
      if AllKnown(names, keys) {
        latch := Settle(latch, Sat, idx);
      }
    }

    method CollapseTo(reachable: bool) returns (c: CheckResult)
      requires Valid()
      ensures c == Collapse(View(), reachable)
    {
      var known := KnownKeys();
      var ordered := AllKnown(names, keys) && Rising(known);
      var gaps := [];
      if ordered { gaps := GapsExceeded(); }
      c := CheckResult(reachable && ordered && gaps == [], latch.verdict, latch.settledAt);
    }
  }

  class HeartbeatMonitor {
    const name: Field
    const every: real
    var beats: nat
    var lastTs: Option<int>
    var maxGap: int
    var latch: Latch

    ghost function View(): Running
      reads this
    {
      Running(Heartbeat(name, every, beats, lastTs, maxGap), latch)
    }

    constructor (name: Field, every: real)
      ensures View() == Start(Heartbeat(name, every, 0, None, 0))
    {
      this.name, this.every, this.beats, this.lastTs, this.maxGap, this.latch := name, every, 0, None, 0, OPEN;
    }

    method StepOn(e: Event, idx: int)
      modifies this
      ensures View() == Step(old(View()), e, idx)
    {
      if e.name != name || e.ts.None? { return; }
      var ts := e.ts.value;
      beats := beats + 1;
      if lastTs.Some? {
        var gap := ts - lastTs.value;
        maxGap := if gap > maxGap then gap else maxGap;
        if gap as real > every * 1000000.0 {
          latch := Settle(latch, Viol, idx);
        }
      }
      lastTs := Some(ts);
    }

    method CollapseTo(reachable: bool) returns (c: CheckResult)
      ensures c == Collapse(View(), reachable)
    {
      if beats == 0 { return CheckResult(false, latch.verdict, latch.settledAt); }
      c := CheckResult(reachable && maxGap as real <= every * 1000000.0, latch.verdict, latch.settledAt);
    }
  }

  class RatioMonitor {
    const good: Matcher
    const all: Matcher
    const op: Op
    const share: real
    var goods: nat
    var total: nat
    var latch: Latch

    ghost function View(): Running
      reads this
    {
      Running(Ratio(good, all, op, share, goods, total), latch)
    }

    constructor (good: Matcher, all: Matcher, op: Op, share: real)
      ensures View() == Start(Ratio(good, all, op, share, 0, 0))
    {
      this.good, this.all, this.op, this.share, this.goods, this.total, this.latch := good, all, op, share, 0, 0, OPEN;
    }

    method StepOn(e: Event, idx: int)
      modifies this
      ensures View() == Step(old(View()), e, idx)
    {
      if Matches(e, good) { goods := goods + 1; }
      if Matches(e, all) { total := total + 1; }
    }

    method CollapseTo(reachable: bool) returns (c: CheckResult)
      ensures c == Collapse(View(), reachable)
    {
      if total == 0 { return CheckResult(false, latch.verdict, latch.settledAt); }
      c := CheckResult(reachable && Holds(op, goods as real / total as real, share), latch.verdict, latch.settledAt);
    }
  }

  class ConformsMonitor {
    const target: Field
    const ontology: Option<Ontology>
    const closed: bool
    var checked: nat
    var violations: seq<Violation>
    var unknown: seq<Field>
    var latch: Latch

    ghost function View(): Running
      reads this
    {
      Running(Conforms(target, ontology, closed, checked, violations, unknown), latch)
    }

    constructor (target: Field, ontology: Option<Ontology>, closedWorld: Option<bool>)
      ensures View() == Start(Conforms(target, ontology, ClosedWorld(ontology, closedWorld), 0, [], []))
    {
      this.target, this.ontology, this.closed := target, ontology, ClosedWorld(ontology, closedWorld);
      this.checked, this.violations, this.unknown, this.latch := 0, [], [], OPEN;
    }

    method StepOn(e: Event, idx: int)
      modifies this
      ensures View() == Step(old(View()), e, idx)
    {
      if ontology.None? || !InScope(target, e) { return; }
      if e.name !in ontology.value.faulty {
        if closed {
          unknown := unknown + [e.name];
          violations := violations + [Violation(e.name, idx)];
          latch := Settle(latch, Viol, idx);
        }
        return;
      }
      checked := checked + 1;
      if ontology.value.faulty[e.name](e) {
        violations := violations + [Violation(e.name, idx)];
        latch := Settle(latch, Viol, idx);
      }
    }

    method CollapseTo(reachable: bool) returns (c: CheckResult)
      ensures c == Collapse(View(), reachable)
    {
      if ontology.None? { return CheckResult(false, latch.verdict, latch.settledAt); }
      c := CheckResult(reachable && |violations| == 0, latch.verdict, latch.settledAt);
    }
  }

  /** Any of the monitor objects. */
  datatype Handle =
    | ACount(c: CountMonitor)
    | APresent(p: PresentMonitor)
    | AnAbsent(a: AbsentMonitor)
    | AnOrder(o: OrderMonitor)
    | AHeartbeat(h: HeartbeatMonitor)
    | ARatio(r: RatioMonitor)
    | AConforms(k: ConformsMonitor)
  {
    ghost function Object(): object {
      match this
      case ACount(c) => c
      case APresent(p) => p
      case AnAbsent(a) => a
      case AnOrder(o) => o
      case AHeartbeat(h) => h
      case ARatio(r) => r
      case AConforms(k) => k
    }

    ghost predicate Valid()
      reads Object()
    {
      match this
      case APresent(p) => p.Valid()
      case AnOrder(o) => o.Valid()
      case _ => true
    }

    ghost function View(): (r: Running)
      requires Valid()
      reads Object()
      ensures Shaped(r.state)
    {
      match this
      case ACount(c) => c.View()
      case APresent(p) => p.View()
      case AnAbsent(a) => a.View()
      case AnOrder(o) => o.View()
      case AHeartbeat(h) => h.View()
      case ARatio(r) => r.View()
      case AConforms(k) => k.View()
    }

    method StepOn(e: Event, idx: int)
      requires Valid()
      modifies Object()
      ensures Valid() && View() == Step(old(View()), e, idx)
    {
      match this
      case ACount(c) => c.StepOn(e, idx);
      case APresent(p) => p.StepOn(e, idx);
      case AnAbsent(a) => a.StepOn(e, idx);
      case AnOrder(o) => o.StepOn(e, idx);
      case AHeartbeat(h) => h.StepOn(e, idx);
      case ARatio(r) => r.StepOn(e, idx);
      case AConforms(k) => k.StepOn(e, idx);
    }

    method CollapseTo(reachable: bool) returns (c: CheckResult)
      requires Valid()
      ensures c == Collapse(View(), reachable)
    {
      match this
      case ACount(x) => c := x.CollapseTo(reachable);
      case APresent(p) => c := p.CollapseTo(reachable);
      case AnAbsent(a) => c := a.CollapseTo(reachable);
      case AnOrder(o) => c := o.CollapseTo(reachable);
      case AHeartbeat(h) => c := h.CollapseTo(reachable);
      case ARatio(r) => c := r.CollapseTo(reachable);
      case AConforms(k) => c := k.CollapseTo(reachable);
    }
  }

  /** `run_monitor`: the whole stream through one monitor, then its result. */
  method RunOn(h: Handle, events: seq<Event>, reachable: bool) returns (c: CheckResult)
    requires h.Valid()
    modifies h.Object()
    ensures h.Valid() && h.View() == Feed(old(h.View()), events, 0) && c == Collapse(h.View(), reachable)
  {
    for idx := 0 to |events|
      invariant h.Valid() && Feed(h.View(), events[idx..], idx) == Feed(old(h.View()), events, 0)
    {
      assert events[idx..][0] == events[idx] && events[idx..][1..] == events[idx + 1..];
      h.StepOn(events[idx], idx);
    }
    c := h.CollapseTo(reachable);
  }

  /** One event to every monitor of a set. */
  function StepAll(rs: seq<Running>, e: Event, idx: int): (ns: seq<Running>)
    requires forall k :: 0 <= k < |rs| ==> Shaped(rs[k].state)
    ensures |ns| == |rs| && forall k :: 0 <= k < |ns| ==> Shaped(ns[k].state)
  {
    seq(|rs|, k requires 0 <= k < |rs| => Step(rs[k], e, idx))
  }

  class LiveMonitorSet {
    const monitors: seq<Handle>
    var next: int

    ghost function Objects(): set<object> {
      set k | 0 <= k < |monitors| :: monitors[k].Object()
    }

    ghost predicate Valid()
      reads this, Objects()
    {
      && this !in Objects()
      && (forall k :: 0 <= k < |monitors| ==> monitors[k].Valid())
      && forall j, k :: 0 <= j < k < |monitors| ==> monitors[j].Object() != monitors[k].Object()
    }

    /** The states of the monitors. */
    ghost function Views(): (rs: seq<Running>)
      requires Valid()
      reads this, Objects()
      ensures |rs| == |monitors| && forall k :: 0 <= k < |rs| ==> Shaped(rs[k].state)
    {
      seq(|monitors|, k requires 0 <= k < |monitors| && monitors[k].Valid() reads this, Objects() => monitors[k].View())
    }

    constructor (monitors: seq<Handle>)
      requires forall k :: 0 <= k < |monitors| ==> monitors[k].Valid()
      requires forall j, k :: 0 <= j < k < |monitors| ==> monitors[j].Object() != monitors[k].Object()
      ensures Valid() && this.monitors == monitors && next == 0
      ensures forall k :: 0 <= k < |monitors| ==> Views()[k] == old(monitors[k].View())
    {
      this.monitors, this.next := monitors, 0;
    }

    /** `feed`: one event to every monitor, with the given index or the next one. */
    method FeedOne(e: Event, idx: Option<int>)
      requires Valid()
      modifies this, Objects()
      ensures Valid()
      ensures Views() == StepAll(old(Views()), e, if idx.Some? then idx.value else old(next))
      ensures next == (if idx.Some? then idx.value else old(next)) + 1
    {
      var i := if idx.Some? then idx.value else next;
      ghost var before := Views();
      for k := 0 to |monitors|
        invariant Valid() && next == old(next)
        invariant forall j :: 0 <= j < k ==> monitors[j].View() == Step(before[j], e, i)
        invariant forall j :: k <= j < |monitors| ==> monitors[j].View() == before[j]
      {
        monitors[k].StepOn(e, i);
      }
      next := i + 1;
    }

    /** `verdicts`. */
    method Verdicts() returns (vs: seq<Verdict>)
      requires Valid()
      ensures |vs| == |monitors| && forall k :: 0 <= k < |vs| ==> vs[k] == Views()[k].latch.verdict
    {
      vs := [];
      for k := 0 to |monitors|
        invariant |vs| == k && forall j :: 0 <= j < k ==> vs[j] == Views()[j].latch.verdict
      {
        var c := monitors[k].CollapseTo(true);
        vs := vs + [c.verdict];
      }
    }

    /** `collapse`: a read that is unreachable or cut off never passes. */
    method CollapseAll(reachable: bool, complete: bool) returns (cs: seq<CheckResult>)
      requires Valid()
      ensures |cs| == |monitors| && forall k :: 0 <= k < |cs| ==> cs[k] == Collapse(Views()[k], reachable && complete)
    {
      cs := [];
      for k := 0 to |monitors|
        invariant |cs| == k && forall j :: 0 <= j < k ==> cs[j] == Collapse(Views()[j], reachable && complete)
      {
        var c := monitors[k].CollapseTo(reachable && complete);
        cs := cs + [c];
      }
    }

    /** A live stream: every event fed as it arrives. */
    method FeedStream(events: seq<Event>)
      requires Valid()
      modifies this, Objects()
      ensures Valid() && next == old(next) + |events|
      ensures Views() == FeedAll(old(Views()), events, old(next))
    {
      for n := 0 to |events|
        invariant Valid() && next == old(next) + n
        invariant FeedAll(Views(), events[n..], next) == FeedAll(old(Views()), events, old(next))
      {
        assert events[n..][0] == events[n] && events[n..][1..] == events[n + 1..];
        FeedOne(events[n], None);
      }
    }

    /** A whole live stream, and what is read off at its end. */
    method FeedAndRead(events: seq<Event>, reachable: bool, complete: bool)
      returns (vs: seq<Verdict>, cs: seq<CheckResult>)
      requires Valid()
      modifies this, Objects()
      ensures Valid() && Views() == FeedAll(old(Views()), events, old(next))
      ensures |vs| == |cs| == |monitors|
      ensures forall k :: 0 <= k < |monitors| ==>
        vs[k] == Views()[k].latch.verdict && cs[k] == Collapse(Views()[k], reachable && complete)
    {
      FeedStream(events);
      vs := Verdicts();
      cs := CollapseAll(reachable, complete);
    }
  }

  function FeedAll(rs: seq<Running>, events: seq<Event>, idx: int): (ns: seq<Running>)
    requires forall k :: 0 <= k < |rs| ==> Shaped(rs[k].state)
    ensures |ns| == |rs| && forall k :: 0 <= k < |ns| ==> Shaped(ns[k].state)
    decreases |events|
  {
    if events == [] then rs else FeedAll(StepAll(rs, events[0], idx), events[1..], idx + 1)
  }

  /** Monitors fed side by side, event by event, end like each of them run alone over the whole stream. */
  lemma {:induction false} SideBySide(rs: seq<Running>, events: seq<Event>, idx: int, k: nat)
    requires forall j :: 0 <= j < |rs| ==> Shaped(rs[j].state)
    requires k < |rs|
    ensures FeedAll(rs, events, idx)[k] == Feed(rs[k], events, idx)
    decreases |events|
  {
    if events != [] { SideBySide(StepAll(rs, events[0], idx), events[1..], idx + 1, k); }
  }

  lemma AllSideBySide(rs: seq<Running>, events: seq<Event>)
    requires forall j :: 0 <= j < |rs| ==> Shaped(rs[j].state)
    ensures forall k :: 0 <= k < |rs| ==> FeedAll(rs, events, 0)[k] == Feed(rs[k], events, 0)
  {
    forall k | 0 <= k < |rs| ensures FeedAll(rs, events, 0)[k] == Feed(rs[k], events, 0) {
      SideBySide(rs, events, 0, k);
    }
  }

  /**
    The live path on objects: a set of monitors is fed the stream event by event and read at the end. Each monitor's
    verdict and result are those that `RunOn` gives it alone over the whole stream.
  */
  method RunLive(monitors: seq<Handle>, events: seq<Event>, reachable: bool, complete: bool)
    returns (vs: seq<Verdict>, cs: seq<CheckResult>)
    requires forall k :: 0 <= k < |monitors| ==> monitors[k].Valid()
    requires forall j, k :: 0 <= j < k < |monitors| ==> monitors[j].Object() != monitors[k].Object()
    modifies set k | 0 <= k < |monitors| :: monitors[k].Object()
    ensures |vs| == |cs| == |monitors|
    ensures forall k :: 0 <= k < |monitors| ==>
      && monitors[k].Valid() && monitors[k].View() == Feed(old(monitors[k].View()), events, 0)
      && vs[k] == monitors[k].View().latch.verdict && cs[k] == Collapse(monitors[k].View(), reachable && complete)
  {
    var live := new LiveMonitorSet(monitors);
    ghost var before := live.Views();
    AllSideBySide(before, events);
    vs, cs := live.FeedAndRead(events, reachable, complete);
  }

  /** Live and batch give one result: the outcome, the verdict and the place where it settled. */
  lemma LiveIsBatch(ms: seq<Monitor>, events: seq<Event>, k: nat, reachable: bool)
    requires (forall j :: 0 <= j < |ms| ==> Fresh(ms[j])) && k < |ms|
    ensures var started := seq(|ms|, j requires 0 <= j < |ms| && Fresh(ms[j]) => Start(ms[j]));
            Collapse(FeedAll(started, events, 0)[k], reachable) == RunMonitor(ms[k], events, reachable)
  {
    var started := seq(|ms|, j requires 0 <= j < |ms| && Fresh(ms[j]) => Start(ms[j]));
    SideBySide(started, events, 0, k);
  }
}
