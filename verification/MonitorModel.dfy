/** The streaming monitors of `_vendor/ooptdd/engine/monitor.py`: what one event does to a monitor, and how it ends. */
module MonitorModel {
  import opened Common

  /** A field value; `Nil` is Python's None, which a missing key reads as. */
  datatype Field = Nil | Num(n: int) | Str(s: string)

  /** An event: its name, the store's timestamp in microseconds, the tie-break number, and the other fields. */
  datatype Event = Event(name: Field, ts: Option<int>, sq: Option<int>, more: map<string, Field>)

  /** `event=None` matches any name; every field of `where` must be equal. */
  datatype Matcher = Matcher(event: Field, where: map<string, Field>)

  datatype Verdict = Pend | Sat | Viol

  datatype Op = Ge | Gt | Eq | Ne | Le | Lt

  /** An event type is known by which events it finds fault with. */
  datatype Ontology = Ontology(faulty: map<Field, Event -> bool>, closedWorld: bool)

  datatype Violation = Violation(event: Field, index: int)

  /** A first occurrence: its timestamp, then the tie-break number. */
  type Key = (int, int)

  datatype Monitor =
    | Count(m: Matcher, op: Op, want: int, got: nat)
    | Present(matchers: seq<Matcher>, hit: seq<bool>)
    | Absent(matchers: seq<Matcher>, allow: seq<Matcher>, offenders: seq<Event>)
    | Order(names: seq<Field>, within: Option<real>, keys: map<Field, Key>)
    | Heartbeat(name: Field, every: real, beats: nat, lastTs: Option<int>, maxGap: int)
    | Ratio(good: Matcher, all: Matcher, op: Op, share: real, goods: nat, total: nat)
    | Conforms(target: Field, ontology: Option<Ontology>, closed: bool, checked: nat, violations: seq<Violation>,
      unknown: seq<Field>)

  datatype Latch = Latch(verdict: Verdict, settledAt: Option<int>)

  /** A monitor in use: its counters, and the verdict it may have committed to. */
  datatype Running = Running(state: Monitor, latch: Latch)

  datatype CheckResult = CheckResult(passed: bool, verdict: Verdict, settledAt: Option<int>)

  const OPEN: Latch := Latch(Pend, None)

  /** `ev.get(k)`. */
  function Lookup(e: Event, k: string): Field {
    if k == "event" then e.name
    else if k == "_timestamp" then (if e.ts.Some? then Num(e.ts.value) else Nil)
    else if k == "_seq" then (if e.sq.Some? then Num(e.sq.value) else Nil)
    else if k in e.more then e.more[k]
    else Nil
  }

  predicate Matches(e: Event, m: Matcher) {
    (m.event.Nil? || e.name == m.event) && forall k :: k in m.where ==> Lookup(e, k) == m.where[k]
  }

  predicate MatchesAny(e: Event, ms: seq<Matcher>) {
    exists i :: 0 <= i < |ms| && Matches(e, ms[i])
  }

  predicate Holds(op: Op, x: real, y: real) {
    match op
    case Ge => x >= y
    case Gt => x > y
    case Eq => x == y
    case Ne => x != y
    case Le => x <= y
    case Lt => x < y
  }

  predicate HoldsInt(op: Op, x: int, y: int) {
    match op
    case Ge => x >= y
    case Gt => x > y
    case Eq => x == y
    case Ne => x != y
    case Le => x <= y
    case Lt => x < y
  }

  /** The first verdict wins and is permanent. */
  function Settle(l: Latch, v: Verdict, idx: int): Latch {
    if l.verdict.Pend? then Latch(v, Some(idx)) else l
  }

  predicate KeyAtMost(a: Key, b: Key) {
    a.0 < b.0 || (a.0 == b.0 && a.1 <= b.1)
  }

  function KeyOf(e: Event): Key
    requires e.ts.Some?
  {
    (e.ts.value, SeqOf(e))
  }

  /** `stream_key`: by timestamp and tie-break number; events without a timestamp come last. */
  predicate StreamAtMost(a: Event, b: Event) {
    if a.ts.None? != b.ts.None? then b.ts.None?
    else
      var ta := if a.ts.Some? then a.ts.value else 0;
      var tb := if b.ts.Some? then b.ts.value else 0;
      KeyAtMost((ta, SeqOf(a)), (tb, SeqOf(b)))
  }

  function SeqOf(e: Event): int {
    if e.sq.Some? then e.sq.value else 0
  }

  /** The event may follow the last one of a stream in store-timestamp order; `None` asks nothing. */
  predicate Comes(last: Option<Event>, e: Event) {
    last.None? || StreamAtMost(last.value, e)
  }

  /** The first occurrences that are known, in the listed order. */
  function Known(names: seq<Field>, keys: map<Field, Key>): seq<Key> {
    if names == [] then []
    else if names[0] in keys then [keys[names[0]]] + Known(names[1..], keys)
    else Known(names[1..], keys)
  }

  predicate Rising(ks: seq<Key>) {
    forall i :: 0 <= i < |ks| - 1 ==> KeyAtMost(ks[i], ks[i + 1])
  }

  /** Two neighbours in the list are both known and further apart than allowed. */
  predicate GapExceeded(names: seq<Field>, within: Option<real>, keys: map<Field, Key>, i: int)
    requires 0 <= i < |names| - 1
  {
    within.Some? && names[i] in keys && names[i + 1] in keys &&
    (keys[names[i + 1]].0 - keys[names[i]].0) as real > within.value * 1000000.0
  }

  predicate SomeGap(names: seq<Field>, within: Option<real>, keys: map<Field, Key>) {
    exists i :: 0 <= i < |names| - 1 && GapExceeded(names, within, keys, i)
  }

  predicate AllKnown(names: seq<Field>, keys: map<Field, Key>) {
    forall i :: 0 <= i < |names| ==> names[i] in keys
  }

  predicate AllHit(hit: seq<bool>) {
    forall i :: 0 <= i < |hit| ==> hit[i]
  }

  predicate Shaped(m: Monitor) {
    m.Present? ==> |m.hit| == |m.matchers|
  }

  /** The event matters to a conformance monitor: it has the target's name, or every name is in scope. */
  predicate InScope(target: Field, e: Event) {
    target == Nil || target == Str("*") || e.name == target
  }

  /** `step` of each monitor. */
  function Step(r: Running, e: Event, idx: int): (n: Running)
    requires Shaped(r.state)
    ensures Shaped(n.state)
  {
    var l := r.latch;
    match r.state
    case Count(m, op, want, got) =>
      if !Matches(e, m) then r
      else
        Running(Count(m, op, want, got + 1),
          if (op == Ge || op == Gt) && HoldsInt(op, got + 1, want) then Settle(l, Sat, idx)
          else if op == Eq && got + 1 > want then Settle(l, Viol, idx)
          else if op == Le && got + 1 > want then Settle(l, Viol, idx)
          else if op == Lt && got + 1 >= want then Settle(l, Viol, idx)
          else l)
    case Present(ms, hit) =>
      var after := seq(|ms|, i requires 0 <= i < |ms| && |hit| == |ms| => hit[i] || Matches(e, ms[i]));
      Running(Present(ms, after), if AllHit(after) then Settle(l, Sat, idx) else l)
    case Absent(ms, allow, offenders) =>
      if MatchesAny(e, allow) || !MatchesAny(e, ms) then r
      else Running(Absent(ms, allow, offenders + [e]), Settle(l, Viol, idx))
    case Order(names, within, keys) =>
      if e.name !in names || e.ts.None? then r
      else
        var after := if e.name in keys then keys else keys[e.name := KeyOf(e)];
        Running(Order(names, within, after),
          if !Rising(Known(names, after)) || SomeGap(names, within, after) then Settle(l, Viol, idx)
          else if AllKnown(names, after) then Settle(l, Sat, idx)
          else l)
    case Heartbeat(name, every, beats, lastTs, maxGap) =>
      if e.name != name || e.ts.None? then r
      else if lastTs.None? then Running(Heartbeat(name, every, beats + 1, e.ts, maxGap), l)
      else
        var gap := e.ts.value - lastTs.value;
        Running(Heartbeat(name, every, beats + 1, e.ts, if gap > maxGap then gap else maxGap),
          if gap as real > every * 1000000.0 then Settle(l, Viol, idx) else l)
    case Ratio(good, all, op, share, goods, total) =>
      var g, t := if Matches(e, good) then goods + 1 else goods, if Matches(e, all) then total + 1 else total;
      Running(Ratio(good, all, op, share, g, t), l)
    case Conforms(target, ontology, closed, checked, violations, unknown) =>
      if ontology.None? || !InScope(target, e) then r
      else if e.name !in ontology.value.faulty then
        if closed then
          Running(Conforms(target, ontology, closed, checked, violations + [Violation(e.name, idx)],
            unknown + [e.name]), Settle(l, Viol, idx))
        else r
      else if ontology.value.faulty[e.name](e) then
        Running(Conforms(target, ontology, closed, checked + 1, violations + [Violation(e.name, idx)], unknown),
          Settle(l, Viol, idx))
      else Running(Conforms(target, ontology, closed, checked + 1, violations, unknown), l)
  }

  /** The `passed` of `collapse(True)`. */
  predicate Passes(m: Monitor) {
    match m
    case Count(_, op, want, got) => HoldsInt(op, got, want)
    case Present(_, hit) => AllHit(hit)
    case Absent(_, _, offenders) => offenders == []
    case Order(names, within, keys) => AllKnown(names, keys) && Rising(Known(names, keys)) &&
      !SomeGap(names, within, keys)
    case Heartbeat(_, every, beats, _, maxGap) => beats > 0 && maxGap as real <= every * 1000000.0
    case Ratio(_, _, op, share, goods, total) => total > 0 && Holds(op, goods as real / total as real, share)
    case Conforms(_, ontology, _, _, violations, _) => ontology.Some? && violations == []
  }

  /** `collapse`: a read that is not clean never passes. */
  function Collapse(r: Running, reachable: bool): CheckResult {
    CheckResult(reachable && Passes(r.state), r.latch.verdict, r.latch.settledAt)
  }

  /** The monitor that has seen nothing yet. */
  predicate Fresh(m: Monitor) {
    match m
    case Count(_, _, _, got) => got == 0
    case Present(ms, hit) => |hit| == |ms| && forall i :: 0 <= i < |hit| ==> !hit[i]
    case Absent(_, _, offenders) => offenders == []
    case Order(_, _, keys) => keys == map[]
    case Heartbeat(_, _, beats, lastTs, maxGap) => beats == 0 && lastTs == None && maxGap == 0
    case Ratio(_, _, _, _, goods, total) => goods == 0 && total == 0
    case Conforms(_, _, _, checked, violations, unknown) => checked == 0 && violations == [] && unknown == []
  }

  /** Whether undeclared event names are faults: the rule's own word, else the ontology's. */
  function ClosedWorld(ontology: Option<Ontology>, closedWorld: Option<bool>): bool {
    if closedWorld.Some? then closedWorld.value else ontology.Some? && ontology.value.closedWorld
  }

  /** `__init__`: only a count of at least zero or less is settled before the first event. */
  function Start(m: Monitor): Running
    requires Fresh(m)
  {
    Running(m, if m.Count? && m.op == Ge && m.want <= 0 then Settle(OPEN, Sat, -1) else OPEN)
  }

  /** The events one after the other, the first with index `idx`. */
  function Feed(r: Running, events: seq<Event>, idx: int): (n: Running)
    requires Shaped(r.state)
    ensures Shaped(n.state)
    decreases |events|
  {
    if events == [] then r else Feed(Step(r, events[0], idx), events[1..], idx + 1)
  }

  /** What `run_monitor` gives. */
  function RunMonitor(m: Monitor, events: seq<Event>, reachable: bool): CheckResult
    requires Fresh(m)
  {
    Collapse(Feed(Start(m), events, 0), reachable)
  }
}
