/** Which events a matcher lets through after the last event of a stream, told from the matcher alone. */
module MonitorMatching {
  import opened Common
  import opened MonitorModel

  /** What a matcher asks of a field, if it asks anything: its `where` entry, or its name. */
  function Forced(m: Matcher, k: string): Option<Field> {
    if k in m.where then Some(m.where[k]) else if k == "event" && !m.event.Nil? then Some(m.event) else None
  }

  /** The matcher does not contradict itself, and asks for no text where the store keeps a number. */
  predicate Consistent(m: Matcher) {
    && ("event" in m.where && !m.event.Nil? ==> m.where["event"] == m.event)
    && ("_timestamp" in m.where ==> !m.where["_timestamp"].Str?)
    && ("_seq" in m.where ==> !m.where["_seq"].Str?)
  }

  /** Everything that `b` asks, `a` asks as well. */
  predicate Implies(a: Matcher, b: Matcher) {
    && (b.event.Nil? || Forced(a, "event") == Some(b.event))
    && forall k :: k in b.where ==> Forced(a, k) == Some(b.where[k])
  }

  lemma MatchedIsForced(e: Event, m: Matcher, k: string)
    requires Matches(e, m) && Forced(m, k).Some?
    ensures Lookup(e, k) == Forced(m, k).value
  {
  }

  lemma MatchedIsConsistent(e: Event, m: Matcher)
    requires Matches(e, m)
    ensures Consistent(m)
  {
    if "event" in m.where { assert Lookup(e, "event") == m.where["event"]; }
    if "_timestamp" in m.where { assert Lookup(e, "_timestamp") == m.where["_timestamp"]; }
    if "_seq" in m.where { assert Lookup(e, "_seq") == m.where["_seq"]; }
  }

  lemma ImpliedMatches(e: Event, a: Matcher, b: Matcher)
    requires Matches(e, a) && Implies(a, b)
    ensures Matches(e, b)
  {
    if !b.event.Nil? { MatchedIsForced(e, a, "event"); }
    forall k | k in b.where ensures Lookup(e, k) == b.where[k] { MatchedIsForced(e, a, k); }
  }

  function KeysOf(ms: seq<Matcher>): set<string> {
    set i, k | 0 <= i < |ms| && k in ms[i].where :: k
  }

  function ValuesOf(ms: seq<Matcher>): set<Field> {
    (set i, k | 0 <= i < |ms| && k in ms[i].where :: ms[i].where[k]) + (set i | 0 <= i < |ms| :: ms[i].event)
  }

  function AsNumber(f: Option<Field>, n: int): Option<int> {
    match f
    case Some(Num(x)) => Some(x)
    case Some(_) => None
    case None => Some(n)
  }

  function ForcedOr(m: Matcher, k: string, n: int): Field {
    if Forced(m, k).Some? then Forced(m, k).value else Num(n)
  }

  /** An event that does what the matcher asks, and has the number `n` in every other field of interest. */
  function Witness(m: Matcher, others: set<string>, n: int): Event {
    Event(ForcedOr(m, "event", n), AsNumber(Forced(m, "_timestamp"), n), AsNumber(Forced(m, "_seq"), n),
          map k | k in m.where.Keys + others :: ForcedOr(m, k, n))
  }

  lemma WitnessLooks(m: Matcher, others: set<string>, n: int, k: string)
    requires Consistent(m) && (k in others || k in m.where || k == "event")
    ensures Lookup(Witness(m, others, n), k) == ForcedOr(m, k, n)
  {
  }

  lemma WitnessMatches(m: Matcher, others: set<string>, n: int)
    requires Consistent(m)
    ensures Matches(Witness(m, others, n), m)
  {
    var e := Witness(m, others, n);
    WitnessLooks(m, others, n, "event");
    forall k | k in m.where ensures Lookup(e, k) == m.where[k] { WitnessLooks(m, others, n, k); }
  }

  // -------------------------------------------------------------------------
  // after the last event of a stream
  // -------------------------------------------------------------------------

  /** After an event without a timestamp every event lacks one, as if the matcher asked for that. */
  function Narrow(m: Matcher, last: Option<Event>): Matcher {
    if last.Some? && last.value.ts.None? && "_timestamp" !in m.where then m.(where := m.where["_timestamp" := Nil])
      else m
  }

  /** The matcher asks for no tie-break number below that of the last event. */
  predicate SeqInTime(m: Matcher, last: Event) {
    match Forced(m, "_seq")
    case Some(Num(n)) => n >= SeqOf(last)
    case Some(_) => 0 >= SeqOf(last)
    case None => true
  }

  /** The matcher asks for no place in the stream before the last event. */
  predicate InTime(m: Matcher, last: Event) {
    match Forced(m, "_timestamp")
    case Some(Num(t)) => last.ts.Some? && (t > last.ts.value || (t == last.ts.value && SeqInTime(m, last)))
    case _ => last.ts.Some? || SeqInTime(m, last)
  }

  /** Some event that may still come matches: told from the matcher and the last event. */
  predicate Matchable(m: Matcher, last: Option<Event>) {
    Consistent(Narrow(m, last)) && (last.Some? ==> InTime(Narrow(m, last), last.value))
  }

  /** A number later than anything in the last event. */
  function LaterThan(last: Option<Event>): int {
    match last
    case None => 0
    case Some(e) =>
      var ts := if e.ts.Some? then e.ts.value else 0;
      (if ts > SeqOf(e) then ts else SeqOf(e)) + 1
  }

  lemma NarrowMatches(e: Event, m: Matcher, last: Option<Event>)
    requires Comes(last, e)
    ensures Matches(e, m) <==> Matches(e, Narrow(m, last))
  {
    if Matches(e, Narrow(m, last)) {
      forall k | k in m.where ensures Lookup(e, k) == m.where[k] { assert k in Narrow(m, last).where; }
    }
  }

  lemma WitnessComes(m: Matcher, last: Option<Event>, others: set<string>, n: int)
    requires Matchable(m, last) && n >= LaterThan(last)
    ensures Comes(last, Witness(Narrow(m, last), others, n))
  {
  }

  lemma MatchedIsInTime(e: Event, m: Matcher, last: Option<Event>)
    requires Matches(e, m) && Comes(last, e)
    ensures Matchable(m, last)
  {
    var n := Narrow(m, last);
    NarrowMatches(e, m, last);
    MatchedIsConsistent(e, n);
    if Forced(n, "_timestamp").Some? { MatchedIsForced(e, n, "_timestamp"); }
    if Forced(n, "_seq").Some? { MatchedIsForced(e, n, "_seq"); }
  }

  lemma WitnessServes(m: Matcher, last: Option<Event>, others: set<string>, n: int)
    requires Matchable(m, last) && n >= LaterThan(last)
    ensures var e := Witness(Narrow(m, last), others, n); Matches(e, m) && Comes(last, e)
  {
    WitnessMatches(Narrow(m, last), others, n);
    WitnessComes(m, last, others, n);
    NarrowMatches(Witness(Narrow(m, last), others, n), m, last);
  }

  /** Some event that may still come matches exactly if the matcher is consistent and asks for nothing past. */
  lemma MatchableIsExact(m: Matcher, last: Option<Event>)
    ensures (exists e :: Matches(e, m) && Comes(last, e)) <==> Matchable(m, last)
  {
    if Matchable(m, last) {
      WitnessServes(m, last, {}, LaterThan(last));
    }
    if e :| Matches(e, m) && Comes(last, e) {
      MatchedIsInTime(e, m, last);
    }
  }

  // -------------------------------------------------------------------------
  // one matcher and not another
  // -------------------------------------------------------------------------

  lemma FreshNumber(s: set<Field>, least: int) returns (n: int)
    ensures n >= least && Num(n) !in s
  {
    n := least;
    ghost var rest := s;
    while Num(n) in s
      invariant n >= least && rest == set f | f in s && !(f.Num? && least <= f.n < n)
      decreases rest
    {
      rest := rest - {Num(n)};
      n := n + 1;
    }
  }

  /** A number that `b` never mentions makes the event of `a` match `b` only if it has to. */
  lemma WitnessAvoids(a: Matcher, b: Matcher, others: set<string>, n: int)
    requires Consistent(a) && b.where.Keys <= others && Num(n) !in b.where.Values && Num(n) != b.event
    ensures Matches(Witness(a, others, n), b) ==> Implies(a, b)
  {
    var e := Witness(a, others, n);
    WitnessLooks(a, others, n, "event");
    forall k | k in b.where ensures Lookup(e, k) == ForcedOr(a, k, n) { WitnessLooks(a, others, n, k); }
  }

  /** One of the first matchers can still be met, and does not imply any of the others. */
  predicate Separable(ms: seq<Matcher>, allow: seq<Matcher>, last: Option<Event>) {
    exists i :: 0 <= i < |ms| && Matchable(ms[i], last) &&
      forall j :: 0 <= j < |allow| ==> !Implies(Narrow(ms[i], last), allow[j])
  }

  ghost predicate Offends(e: Event, ms: seq<Matcher>, allow: seq<Matcher>, last: Option<Event>) {
    MatchesAny(e, ms) && !MatchesAny(e, allow) && Comes(last, e)
  }

  lemma Separate(m: Matcher, allow: seq<Matcher>, last: Option<Event>) returns (e: Event)
    requires Matchable(m, last) && forall j :: 0 <= j < |allow| ==> !Implies(Narrow(m, last), allow[j])
    ensures Matches(e, m) && !MatchesAny(e, allow) && Comes(last, e)
  {
    var n := FreshNumber(ValuesOf(allow), LaterThan(last));
    var others := KeysOf(allow);
    e := Witness(Narrow(m, last), others, n);
    WitnessServes(m, last, others, n);
    forall j | 0 <= j < |allow| ensures !Matches(e, allow[j]) {
      WitnessAvoids(Narrow(m, last), allow[j], others, n);
    }
  }

  /**
    The matchers and the last event tell whether an event may still come that matches one of `ms` and none of `allow`.
  */
  lemma OffenderIffSeparable(ms: seq<Matcher>, allow: seq<Matcher>, last: Option<Event>)
    ensures (exists e :: Offends(e, ms, allow, last)) <==> Separable(ms, allow, last)
  {
    if Separable(ms, allow, last) {
      var i :| 0 <= i < |ms| && Matchable(ms[i], last) &&
        forall j :: 0 <= j < |allow| ==> !Implies(Narrow(ms[i], last), allow[j]);
      var e := Separate(ms[i], allow, last);
      assert Offends(e, ms, allow, last);
    }
    if e :| Offends(e, ms, allow, last) {
      var i :| 0 <= i < |ms| && Matches(e, ms[i]);
      MatchedIsInTime(e, ms[i], last);
      NarrowMatches(e, ms[i], last);
      forall j | 0 <= j < |allow| ensures !Implies(Narrow(ms[i], last), allow[j]) {
        if Implies(Narrow(ms[i], last), allow[j]) { ImpliedMatches(e, Narrow(ms[i], last), allow[j]); }
      }
    }
  }

  // -------------------------------------------------------------------------
  // two matchers at once
  // -------------------------------------------------------------------------

  /** What two matchers ask together, where they do not disagree. */
  function Merged(a: Matcher, b: Matcher): Matcher {
    Matcher(if a.event.Nil? then b.event else a.event, a.where + b.where)
  }

  predicate Compatible(a: Matcher, b: Matcher, last: Option<Event>) {
    && (!a.event.Nil? && !b.event.Nil? ==> a.event == b.event)
    && (forall k :: k in a.where && k in b.where ==> a.where[k] == b.where[k])
    && Matchable(Merged(a, b), last)
  }

  ghost predicate MatchesBoth(e: Event, a: Matcher, b: Matcher, last: Option<Event>) {
    Matches(e, a) && Matches(e, b) && Comes(last, e)
  }

  lemma BothIsMerged(e: Event, a: Matcher, b: Matcher)
    requires !a.event.Nil? && !b.event.Nil? ==> a.event == b.event
    requires forall k :: k in a.where && k in b.where ==> a.where[k] == b.where[k]
    ensures Matches(e, a) && Matches(e, b) <==> Matches(e, Merged(a, b))
  {
    var m := Merged(a, b);
    if Matches(e, m) {
      forall k | k in a.where ensures Lookup(e, k) == a.where[k] { assert k in m.where && m.where[k] == a.where[k]; }
      forall k | k in b.where ensures Lookup(e, k) == b.where[k] { assert k in m.where && m.where[k] == b.where[k]; }
    }
  }

  /** And whether one may come that matches both. */
  lemma BothIffCompatible(a: Matcher, b: Matcher, last: Option<Event>)
    ensures (exists e :: MatchesBoth(e, a, b, last)) <==> Compatible(a, b, last)
  {
    if Compatible(a, b, last) {
      MatchableIsExact(Merged(a, b), last);
      var e :| Matches(e, Merged(a, b)) && Comes(last, e);
      BothIsMerged(e, a, b);
      assert MatchesBoth(e, a, b, last);
    }
    if e :| MatchesBoth(e, a, b, last) {
      forall k | k in a.where && k in b.where ensures a.where[k] == b.where[k] {
        assert Lookup(e, k) == a.where[k] && Lookup(e, k) == b.where[k];
      }
      BothIsMerged(e, a, b);
      MatchedIsInTime(e, Merged(a, b), last);
    }
  }
}
