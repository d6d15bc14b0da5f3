/**
  The limiter of `app/ratelimit.py` on Redis, shared by many replicas. A step is one atomic pipeline, the separate
  `zrem` of a refused request (which may come late or never), or a call that could not use Redis. One key; times are
  milliseconds, and a replica's own clock is taken to run evenly with the others.
*/
module RedisLimiter {
  import opened Common
  import RateLimit

  type Member = nat

  type Replica = nat

  /**
    How the limiter is set up, and how many replicas there are (their numbers lie below `replicas`); timestamps lag
    the order of execution by at most `delta`.
  */
  datatype Settings = Settings(maxEvents: int, window: real, delta: real, failClosed: bool, replicas: nat)

  /** What a call of `allow` came to: `Refused` is False, `Unavailable` the exception. */
  datatype Answer = Allowed | Refused | Unavailable

  datatype Call = Call(at: real, answer: Answer)

  /**
    The sorted set with its expiry time, the server's clock, the members over the limit and not yet removed, how many
    members were ever added, what each in-process limiter admitted and when it was last asked, and the calls that
    returned. `admitted` holds the timestamp of each member whose call was allowed.
  */
  datatype State = State(
    set_: map<Member, real>, expires: real, clock: real, refused: map<Member, real>, issued: nat,
    admitted: map<Member, real>, local: map<Replica, seq<real>>, asked: map<Replica, real>, calls: seq<Call>)

  /**
    `Pipeline`: the pipeline of a request with timestamp `now` runs at server time `at`, with a new member, here the
    next number; without `delivered` its reply is lost. `Remove`: the `zrem` of a request that was over the limit,
    which then returns False. `Bypass`: a call on replica `r` that could not reach Redis, or lost it on the way.
  */
  datatype Step =
    | Pipeline(now: real, at: real, delivered: bool)
    | Remove(m: Member)
    | Bypass(r: Replica, now: real)

  const START: State := State(map[], 0.0, 0.0, map[], 0, map[], map[], map[], [])

  ghost predicate CanStep(p: Settings, s: State, step: Step) {
    match step
    case Pipeline(now, at, _) => s.clock <= at && at - p.delta <= now <= at
    case Remove(m) => m in s.refused
    case Bypass(r, now) => r < p.replicas && (r in s.asked ==> s.asked[r] <= now)
  }

  /** The set as the pipeline finds it. */
  function Found(s: State, at: real): map<Member, real> {
    if s.expires <= at then map[] else s.set_
  }

  /** `zremrangebyscore(rk, 0, now - window)`: both ends belong to the range. */
  function Trimmed(set_: map<Member, real>, now: real, window: real): map<Member, real> {
    map m | m in set_ && !(0.0 <= set_[m] <= now - window) :: set_[m]
  }

  function Without(set_: map<Member, real>, x: Member): map<Member, real> {
    map m | m in set_ && m != x :: set_[m]
  }

  /** What the in-process limiter of a replica has admitted. */
  function LocalTimes(local: map<Replica, seq<real>>, r: Replica): seq<real> {
    if r in local then local[r] else []
  }

  function DoStep(p: Settings, s: State, step: Step): State {
    match step
    case Pipeline(now, at, delivered) =>
      var m, after := s.issued, Trimmed(Found(s, at), now, p.window)[s.issued := now];
      var count := |after|;
      var allowed := delivered && count <= p.maxEvents;
      s.(set_ := after, expires := at + p.window + 1000.0, clock := at,
         refused := if delivered && count > p.maxEvents then s.refused[m := now] else s.refused,
         issued := s.issued + 1,
         admitted := if allowed then s.admitted[m := now] else s.admitted,
         calls := if allowed then s.calls + [Call(now, Allowed)] else s.calls)
    case Remove(m) =>
      if m !in s.refused then s
      else s.(set_ := Without(s.set_, m), refused := Without(s.refused, m),
        calls := s.calls + [Call(s.refused[m], Refused)])
    case Bypass(r, now) =>
      if p.failClosed then s.(asked := s.asked[r := now], calls := s.calls + [Call(now, Unavailable)])
      else
        var past := LocalTimes(s.local, r);
        var ok := RateLimit.Count(past, now - p.window, now) < p.maxEvents;
        s.(local := s.local[r := RateLimit.Next(p.maxEvents, p.window, past, now)], asked := s.asked[r := now],
           calls := s.calls + [Call(now, if ok then Allowed else Refused)])
  }

  ghost predicate Follows(p: Settings, s: State, steps: seq<Step>)
    decreases |steps|
  {
    steps == [] || (CanStep(p, s, steps[0]) && Follows(p, DoStep(p, s, steps[0]), steps[1..]))
  }

  function Run(p: Settings, s: State, steps: seq<Step>): State
    decreases |steps|
  {
    if steps == [] then s else Run(p, DoStep(p, s, steps[0]), steps[1..])
  }

  /** What the fleet can come to. */
  ghost predicate Reachable(p: Settings, s: State) {
    exists steps :: Follows(p, START, steps) && Run(p, START, steps) == s
  }

  lemma {:induction false} FollowsOn(p: Settings, s: State, steps: seq<Step>, step: Step)
    requires Follows(p, s, steps) && CanStep(p, Run(p, s, steps), step)
    ensures Follows(p, s, steps + [step]) && Run(p, s, steps + [step]) == DoStep(p, Run(p, s, steps), step)
    decreases |steps|
  {
    var all := steps + [step];
    if steps == [] {
      assert all[1..] == [];
    } else {
      assert all[1..] == steps[1..] + [step];
      FollowsOn(p, DoStep(p, s, steps[0]), steps[1..], step);
    }
  }

  lemma ReachOn(p: Settings, s: State, step: Step) returns (t: State)
    requires Reachable(p, s) && CanStep(p, s, step)
    ensures t == DoStep(p, s, step) && Reachable(p, t)
  {
    var steps :| Follows(p, START, steps) && Run(p, START, steps) == s;
    FollowsOn(p, START, steps, step);
    t := DoStep(p, s, step);
  }

  lemma StartIsReachable(p: Settings)
    ensures Reachable(p, START)
  {
    assert Follows(p, START, []) && Run(p, START, []) == START;
  }

  function Cap(p: Settings): nat {
    if p.maxEvents > 0 then p.maxEvents else 0
  }

  // -------------------------------------------------------------------------
  // invariants
  // -------------------------------------------------------------------------

  /** An admitted member is still counted, or it is too old to share a window with anything that comes. */
  predicate Tracked(p: Settings, s: State, m: Member)
    requires m in s.admitted
  {
    (m in s.set_ && s.set_[m] == s.admitted[m]) || s.admitted[m] <= s.clock - p.window
  }

  ghost predicate MembersOk(p: Settings, s: State) {
    && (forall m :: m in s.admitted ==> m < s.issued && m !in s.refused)
    && (forall m :: m in s.refused || m in s.set_ ==> m < s.issued)
    && (forall m :: m in s.admitted ==> Tracked(p, s, m))
    && (s.set_ != map[] ==> s.expires == s.clock + p.window + 1000.0)
    && (forall m :: m in s.admitted ==> s.admitted[m] <= s.clock)
  }

  /** The admitted members with a timestamp in the half-open window. */
  function InWindow(admitted: map<Member, real>, t: real, length: real): set<Member> {
    set m | m in admitted && t <= admitted[m] < t + length
  }

  predicate BoundedAt(p: Settings, admitted: map<Member, real>, t: real) {
    |InWindow(admitted, t, p.window - p.delta)| <= Cap(p)
  }

  ghost predicate Bounded(p: Settings, admitted: map<Member, real>) {
    forall t :: BoundedAt(p, admitted, t)
  }

  lemma PipelineKeepsMembers(p: Settings, s: State, step: Step)
    requires step.Pipeline? && MembersOk(p, s) && CanStep(p, s, step)
    ensures MembersOk(p, DoStep(p, s, step))
  {
    var next := DoStep(p, s, step);
    forall m | m in next.admitted ensures Tracked(p, next, m) {
      if m != s.issued { assert Tracked(p, s, m); }
    }
  }

  lemma RemoveKeepsMembers(p: Settings, s: State, m: Member)
    requires MembersOk(p, s) && m in s.refused
    ensures MembersOk(p, DoStep(p, s, Remove(m)))
  {
    var next := DoStep(p, s, Remove(m));
    forall x | x in next.admitted ensures Tracked(p, next, x) {
      assert Tracked(p, s, x);
    }
  }

  /** Whatever shares a window with an admission is in the set when the pipeline counts. */
  lemma WindowIsCounted(p: Settings, s: State, step: Step, t: real)
    requires step.Pipeline? && MembersOk(p, s) && CanStep(p, s, step) && DoStep(p, s, step).admitted != s.admitted
    requires t <= step.now < t + (p.window - p.delta)
    ensures |InWindow(DoStep(p, s, step).admitted, t, p.window - p.delta)| <= p.maxEvents
  {
    var next := DoStep(p, s, step);
    var inside := InWindow(next.admitted, t, p.window - p.delta);
    forall m | m in inside ensures m in next.set_ {
      if m != s.issued { assert Tracked(p, s, m); }
    }
    SubsetSize(inside, next.set_.Keys);
    assert |next.set_.Keys| == |next.set_|;
  }

  lemma AdmittedNext(p: Settings, s: State, step: Step)
    requires step.Pipeline? && MembersOk(p, s)
    ensures s.issued !in s.admitted
    ensures var next := DoStep(p, s, step);
            && next.local == s.local
            && ((next.admitted == s.admitted && next.calls == s.calls)
                || (next.admitted == s.admitted[s.issued := step.now] &&
                    next.calls == s.calls + [Call(step.now, Allowed)]))
  {
  }

  lemma NextKeepsWindow(p: Settings, before: map<Member, real>, after: map<Member, real>, m: Member, now: real, t: real)
    requires BoundedAt(p, before, t) && m !in before && (after == before || after == before[m := now])
    requires after != before && t <= now < t + (p.window - p.delta) ==>
      |InWindow(after, t, p.window - p.delta)| <= p.maxEvents
    ensures BoundedAt(p, after, t)
  {
    if after == before || !(t <= now < t + (p.window - p.delta)) {
      SameWindow(before, after, m, now, t, p.window - p.delta);
    }
  }

  lemma PipelineKeepsWindow(p: Settings, s: State, step: Step, t: real)
    requires step.Pipeline? && MembersOk(p, s) && BoundedAt(p, s.admitted, t) && CanStep(p, s, step)
    ensures BoundedAt(p, DoStep(p, s, step).admitted, t)
  {
    var after := DoStep(p, s, step).admitted;
    AdmittedNext(p, s, step);
    if after != s.admitted && t <= step.now < t + (p.window - p.delta) {
      WindowIsCounted(p, s, step, t);
    }
    NextKeepsWindow(p, s.admitted, after, s.issued, step.now, t);
  }

  lemma SameWindow(before: map<Member, real>, after: map<Member, real>, m: Member, now: real, t: real, length: real)
    requires after == before || (after == before[m := now] && m !in before && !(t <= now < t + length))
    ensures InWindow(after, t, length) == InWindow(before, t, length)
  {
  }

  lemma PipelineKeepsBound(p: Settings, s: State, step: Step)
    requires step.Pipeline? && MembersOk(p, s) && Bounded(p, s.admitted) && CanStep(p, s, step)
    ensures Bounded(p, DoStep(p, s, step).admitted)
  {
    forall t ensures BoundedAt(p, DoStep(p, s, step).admitted, t) {
      assert BoundedAt(p, s.admitted, t);
      PipelineKeepsWindow(p, s, step, t);
    }
  }

  lemma StepKeepsBound(p: Settings, s: State, step: Step)
    requires MembersOk(p, s) && Bounded(p, s.admitted) && CanStep(p, s, step)
    ensures MembersOk(p, DoStep(p, s, step)) && Bounded(p, DoStep(p, s, step).admitted)
  {
    match step {
      case Pipeline(_, _, _) =>
        PipelineKeepsMembers(p, s, step);
        PipelineKeepsBound(p, s, step);
      case Remove(m) => RemoveKeepsMembers(p, s, m);
      case Bypass(_, _) =>
        forall m | m in s.admitted ensures Tracked(p, DoStep(p, s, step), m) { assert Tracked(p, s, m); }
    }
  }

  // -------------------------------------------------------------------------
  // what the in-process limiters admit
  // -------------------------------------------------------------------------

  predicate LocalBounded(p: Settings, local: map<Replica, seq<real>>, r: Replica, t: real) {
    RateLimit.Count(LocalTimes(local, r), t, t + p.window) <= Cap(p)
  }

  predicate NotLater(times: seq<real>, now: real) {
    forall i :: 0 <= i < |times| ==> times[i] <= now
  }

  ghost predicate LocalOk(p: Settings, s: State) {
    && (p.failClosed ==> s.local == map[])
    && (forall r, t {:trigger LocalBounded(p, s.local, r, t)} :: LocalBounded(p, s.local, r, t))
    && (forall r :: r in s.local ==> r in s.asked && NotLater(s.local[r], s.asked[r]))
  }

  lemma StepKeepsLocal(p: Settings, s: State, step: Step)
    requires LocalOk(p, s) && CanStep(p, s, step)
    ensures LocalOk(p, DoStep(p, s, step))
  {
    if step.Bypass? && !p.failClosed {
      var next := DoStep(p, s, step);
      forall r, t ensures LocalBounded(p, next.local, r, t) {
        assert LocalBounded(p, s.local, r, t);
        if r == step.r { RateLimit.NextKeepsBound(p.maxEvents, p.window, LocalTimes(s.local, r), step.now, t); }
      }
    }
  }

  /** What the in-process limiters of the first `n` replicas admitted in the closed window. */
  function LocalSum(local: map<Replica, seq<real>>, n: nat, lo: real, hi: real): nat {
    if n == 0 then 0 else LocalSum(local, n - 1, lo, hi) + RateLimit.Count(LocalTimes(local, n - 1), lo, hi)
  }

  lemma {:induction false} LocalSumGrows(local: map<Replica, seq<real>>, n: nat, r: Replica, times: seq<real>,
                                         lo: real, hi: real)
    ensures LocalSum(local[r := times], n, lo, hi) == LocalSum(local, n, lo, hi) +
              if r < n then RateLimit.Count(times, lo, hi) - RateLimit.Count(LocalTimes(local, r), lo, hi) else 0
  {
    if n > 0 { LocalSumGrows(local, n - 1, r, times, lo, hi); }
  }

  lemma {:induction false} LocalSumIsBounded(p: Settings, local: map<Replica, seq<real>>, n: nat, t: real)
    requires forall r {:trigger LocalBounded(p, local, r, t)} :: LocalBounded(p, local, r, t)
    ensures LocalSum(local, n, t, t + p.window) <= n * Cap(p)
  {
    if n > 0 {
      LocalSumIsBounded(p, local, n - 1, t);
      assert LocalBounded(p, local, n - 1, t);
      assert n * Cap(p) == (n - 1) * Cap(p) + Cap(p);
    }
  }

  lemma {:induction false} NoLocalSum(n: nat, lo: real, hi: real)
    ensures LocalSum(map[], n, lo, hi) == 0
  {
    if n > 0 { NoLocalSum(n - 1, lo, hi); }
  }

  // -------------------------------------------------------------------------
  // the fleet is bounded
  // -------------------------------------------------------------------------

  lemma StepKeepsAll(p: Settings, s: State, step: Step)
    requires MembersOk(p, s) && Bounded(p, s.admitted) && LocalOk(p, s) && CanStep(p, s, step)
    ensures MembersOk(p, DoStep(p, s, step)) && Bounded(p, DoStep(p, s, step).admitted) &&
      LocalOk(p, DoStep(p, s, step))
  {
    StepKeepsBound(p, s, step);
    StepKeepsLocal(p, s, step);
  }

  lemma StartIsOk(p: Settings)
    ensures MembersOk(p, START) && Bounded(p, START.admitted) && LocalOk(p, START)
  {
    forall u ensures BoundedAt(p, START.admitted, u) {
      assert InWindow(START.admitted, u, p.window - p.delta) == {};
    }
    forall r, t ensures LocalBounded(p, START.local, r, t) {
      assert LocalTimes(START.local, r) == [];
    }
  }

  lemma {:induction false} RunKeepsBound(p: Settings, s: State, steps: seq<Step>)
    requires MembersOk(p, s) && Bounded(p, s.admitted) && LocalOk(p, s) && Follows(p, s, steps)
    ensures Bounded(p, Run(p, s, steps).admitted) && LocalOk(p, Run(p, s, steps))
    decreases |steps|
  {
    if steps != [] {
      StepKeepsAll(p, s, steps[0]);
      RunKeepsBound(p, DoStep(p, s, steps[0]), steps[1..]);
    }
  }

  lemma BoundedHere(p: Settings, admitted: map<Member, real>, t: real)
    requires Bounded(p, admitted)
    ensures |InWindow(admitted, t, p.window - p.delta)| <= Cap(p)
  {
    assert BoundedAt(p, admitted, t);
  }

  lemma ReachableBound(p: Settings, s: State)
    requires Reachable(p, s)
    ensures Bounded(p, s.admitted) && LocalOk(p, s)
  {
    var steps :| Follows(p, START, steps) && Run(p, START, steps) == s;
    StartIsOk(p);
    RunKeepsBound(p, START, steps);
  }

  /**
    However the pipelines of the replicas, the late or lost removals and the lost replies interleave, every half-open
    window of length `window - delta` holds at most the limit of timestamps of requests that Redis admitted.
  */
  lemma FleetIsBounded(p: Settings, s: State, t: real)
    requires Reachable(p, s)
    ensures |InWindow(s.admitted, t, p.window - p.delta)| <= Cap(p)
  {
    ReachableBound(p, s);
    BoundedHere(p, s.admitted, t);
  }

  /** How many calls were allowed with a timestamp in the half-open window. */
  function AllowedCalls(calls: seq<Call>, t: real, length: real): nat {
    if calls == [] then 0
    else
      var last := calls[|calls| - 1];
      AllowedCalls(calls[..|calls| - 1], t, length)
        + if last.answer == Allowed && t <= last.at < t + length then 1 else 0
  }

  lemma OneMoreCall(calls: seq<Call>, c: Call, t: real, length: real)
    ensures AllowedCalls(calls + [c], t, length) ==
              AllowedCalls(calls, t, length) + if c.answer == Allowed && t <= c.at < t + length then 1 else 0
  {
    assert (calls + [c])[..|calls + [c]| - 1] == calls;
  }

  /** Every allowed call was admitted by Redis or by an in-process limiter. */
  predicate Accounted(p: Settings, s: State, t: real) {
    AllowedCalls(s.calls, t, p.window - p.delta) <=
      |InWindow(s.admitted, t, p.window - p.delta)| + LocalSum(s.local, p.replicas, t, t + p.window)
  }

  lemma PipelineAccounts(p: Settings, s: State, step: Step, t: real)
    requires step.Pipeline? && MembersOk(p, s) && Accounted(p, s, t)
    ensures Accounted(p, DoStep(p, s, step), t)
  {
    AdmittedNext(p, s, step);
    NextAccounts(p, s, DoStep(p, s, step), step.now, t);
  }

  lemma NextAccounts(p: Settings, s: State, next: State, now: real, t: real)
    requires Accounted(p, s, t) && s.issued !in s.admitted && next.local == s.local
    requires (next.admitted == s.admitted && next.calls == s.calls)
          || (next.admitted == s.admitted[s.issued := now] && next.calls == s.calls + [Call(now, Allowed)])
    ensures Accounted(p, next, t)
  {
    var length := p.window - p.delta;
    OneMoreCall(s.calls, Call(now, Allowed), t, length);
    if next.admitted != s.admitted && t <= now < t + length {
      NewInWindow(s.admitted, s.issued, now, t, length);
    } else {
      SameWindow(s.admitted, next.admitted, s.issued, now, t, length);
    }
  }

  /** A request that an in-process limiter admits counts in every window of that limiter that holds it. */
  lemma LocalGrows(p: Settings, local: map<Replica, seq<real>>, r: Replica, now: real, lo: real, hi: real)
    requires r < p.replicas
    ensures var past := LocalTimes(local, r);
            LocalSum(local[r := RateLimit.Next(p.maxEvents, p.window, past, now)], p.replicas, lo, hi) ==
            LocalSum(local, p.replicas, lo, hi) +
            if RateLimit.Count(past, now - p.window, now) < p.maxEvents && lo <= now <= hi then 1 else 0
  {
    var past := LocalTimes(local, r);
    RateLimit.CountOneMore(past, now, lo, hi);
    LocalSumGrows(local, p.replicas, r, RateLimit.Next(p.maxEvents, p.window, past, now), lo, hi);
  }

  lemma BypassedNext(p: Settings, s: State, r: Replica, now: real)
    ensures var past, next := LocalTimes(s.local, r), DoStep(p, s, Bypass(r, now));
            next.admitted == s.admitted && exists c ::
              && next.calls == s.calls + [c] && c.at == now
              && if p.failClosed then next.local == s.local && c.answer == Unavailable
                 else
                   && next.local == s.local[r := RateLimit.Next(p.maxEvents, p.window, past, now)]
                   && (c.answer == Allowed ==> RateLimit.Count(past, now - p.window, now) < p.maxEvents)
  {
    var next := DoStep(p, s, Bypass(r, now));
    var c := next.calls[|s.calls|];
    assert next.calls == s.calls + [c];
  }

  lemma BypassAccounts(p: Settings, s: State, r: Replica, now: real, t: real)
    requires p.delta >= 0.0 && r < p.replicas && Accounted(p, s, t)
    ensures Accounted(p, DoStep(p, s, Bypass(r, now)), t)
  {
    BypassedNext(p, s, r, now);
    var next := DoStep(p, s, Bypass(r, now));
    var c :| next.calls == s.calls + [c] && c.at == now;
    OneMoreCall(s.calls, c, t, p.window - p.delta);
    LocalGrows(p, s.local, r, now, t, t + p.window);
  }

  lemma StepAccounts(p: Settings, s: State, step: Step, t: real)
    requires p.delta >= 0.0 && MembersOk(p, s) && CanStep(p, s, step) && Accounted(p, s, t)
    ensures Accounted(p, DoStep(p, s, step), t)
  {
    match step {
      case Pipeline(_, _, _) => PipelineAccounts(p, s, step, t);
      case Bypass(r, now) => BypassAccounts(p, s, r, now, t);
      case Remove(m) => OneMoreCall(s.calls, Call(s.refused[m], Refused), t, p.window - p.delta);
    }
  }

  lemma NewInWindow(before: map<Member, real>, m: Member, now: real, t: real, length: real)
    requires m !in before && t <= now < t + length
    ensures |InWindow(before[m := now], t, length)| == |InWindow(before, t, length)| + 1
  {
    var was, is_ := InWindow(before, t, length), InWindow(before[m := now], t, length);
    assert m !in was && is_ == was + {m};
    OneMoreElement(was, is_, m);
  }

  lemma OneMoreElement(was: set<Member>, is_: set<Member>, m: Member)
    requires m !in was && is_ == was + {m}
    ensures |is_| == |was| + 1
  {
  }

  lemma {:induction false} RunAccounts(p: Settings, s: State, steps: seq<Step>, t: real)
    requires p.delta >= 0.0 && MembersOk(p, s) && Bounded(p, s.admitted) && LocalOk(p, s) && Follows(p, s, steps) &&
      Accounted(p, s, t)
    ensures Accounted(p, Run(p, s, steps), t)
    decreases |steps|
  {
    if steps != [] {
      StepAccounts(p, s, steps[0], t);
      StepKeepsAll(p, s, steps[0]);
      RunAccounts(p, DoStep(p, s, steps[0]), steps[1..], t);
    }
  }

  /**
    What the fleet can let through in one window: the limit, once for Redis and, failing open, once for each replica.
  */
  function Share(p: Settings): nat {
    if p.failClosed then Cap(p) else Cap(p) + p.replicas * Cap(p)
  }

  /** The half-open window of length `window - delta` at `t` holds at most `n` allowed calls. */
  predicate CallsBoundedAt(p: Settings, s: State, t: real, n: nat) {
    AllowedCalls(s.calls, t, p.window - p.delta) <= n
  }

  /** No such window ever holds more. */
  ghost predicate CallsBounded(p: Settings, n: nat) {
    forall s, t {:trigger CallsBoundedAt(p, s, t, n)} :: Reachable(p, s) ==> CallsBoundedAt(p, s, t, n)
  }

  lemma ReachableAccounts(p: Settings, s: State, t: real)
    requires p.delta >= 0.0 && Reachable(p, s)
    ensures Accounted(p, s, t)
  {
    var steps :| Follows(p, START, steps) && Run(p, START, steps) == s;
    StartIsOk(p);
    RunAccounts(p, START, steps, t);
  }

  lemma AccountedIsShare(p: Settings, s: State, t: real)
    requires Accounted(p, s, t) && LocalOk(p, s) && |InWindow(s.admitted, t, p.window - p.delta)| <= Cap(p)
    ensures AllowedCalls(s.calls, t, p.window - p.delta) <= Share(p)
  {
    if p.failClosed {
      NoLocalSum(p.replicas, t, t + p.window);
    } else {
      LocalSumIsBounded(p, s.local, p.replicas, t);
    }
  }

  lemma CallsAreBounded(p: Settings, s: State, t: real)
    requires p.delta >= 0.0 && Reachable(p, s)
    ensures AllowedCalls(s.calls, t, p.window - p.delta) <= Share(p)
  {
    FleetIsBounded(p, s, t);
    ReachableBound(p, s);
    ReachableAccounts(p, s, t);
    AccountedIsShare(p, s, t);
  }

  // -------------------------------------------------------------------------
  // and not by less
  // -------------------------------------------------------------------------

  /** Redis holds `n` requests, all of time zero and all admitted. */
  predicate Holds(p: Settings, s: State, n: nat) {
    && s.set_ == s.admitted && |s.admitted| == n == s.issued && s.refused == map[]
    && (forall m :: m in s.admitted ==> m < n && s.admitted[m] == 0.0)
    && s.clock == 0.0 && (n > 0 ==> s.expires == p.window + 1000.0)
  }

  function Early(p: Settings, s: State): nat {
    AllowedCalls(s.calls, 0.0, p.window - p.delta)
  }

  predicate Usual(p: Settings) {
    0.0 <= p.delta < p.window
  }

  /** One request of time zero more, as long as all before were of time zero and the limit is not reached. */
  lemma AdmitNext(p: Settings, s: State, n: nat)
    requires Usual(p) && Holds(p, s, n) && n < p.maxEvents
    ensures var next := DoStep(p, s, Pipeline(0.0, 0.0, true));
            && next.set_ == next.admitted == s.admitted[n := 0.0] && next.issued == n + 1 && next.refused == map[]
            && next.clock == 0.0 && next.expires == p.window + 1000.0
            && next.calls == s.calls + [Call(0.0, Allowed)]
  {
    assert n !in s.admitted;
    assert Trimmed(Found(s, 0.0), 0.0, p.window) == s.admitted;
    OneMoreRequest(s.admitted, n);
  }

  lemma OneMoreRequest(admitted: map<Member, real>, n: nat)
    requires |admitted| == n && n !in admitted
    ensures |admitted[n := 0.0]| == n + 1
  {
  }

  lemma AdmitStep(p: Settings, s: State, n: nat)
    requires Usual(p) && Holds(p, s, n) && n < p.maxEvents
    ensures CanStep(p, s, Pipeline(0.0, 0.0, true))
    ensures Holds(p, DoStep(p, s, Pipeline(0.0, 0.0, true)), n + 1)
    ensures Early(p, DoStep(p, s, Pipeline(0.0, 0.0, true))) == Early(p, s) + 1
  {
    AdmitNext(p, s, n);
    OneMoreRequest(s.admitted, n);
    OneMoreCall(s.calls, Call(0.0, Allowed), 0.0, p.window - p.delta);
  }

  /** Redis admits the limit at time zero. */
  lemma {:induction false} AdmitAll(p: Settings, s: State, n: nat) returns (t: State)
    requires Usual(p) && Reachable(p, s) && Holds(p, s, n) && n <= Cap(p)
    ensures Reachable(p, t) && Holds(p, t, Cap(p)) && Early(p, t) == Early(p, s) + Cap(p) - n
    decreases Cap(p) - n
  {
    if n == Cap(p) {
      t := s;
    } else {
      AdmitStep(p, s, n);
      var u := ReachOn(p, s, Pipeline(0.0, 0.0, true));
      t := AdmitAll(p, u, n + 1);
    }
  }

  function ZeroTimes(n: nat): seq<real> {
    seq(n, _ => 0.0)
  }

  /** Cut off from Redis at time zero, the limiter of `r` has admitted `n` requests, those of higher replicas none. */
  ghost predicate Filled(p: Settings, s: State, r: Replica, n: nat) {
    && Holds(p, s, 0)
    && (forall q :: q in s.asked ==> q <= r && s.asked[q] <= 0.0)
    && (forall q :: q in s.local ==> q <= r)
    && LocalTimes(s.local, r) == ZeroTimes(n)
  }

  lemma BypassNext(p: Settings, s: State, r: Replica, n: nat)
    requires Usual(p) && !p.failClosed && n < p.maxEvents && LocalTimes(s.local, r) == ZeroTimes(n)
    ensures DoStep(p, s, Bypass(r, 0.0)) ==
      s.(local := s.local[r := ZeroTimes(n + 1)], asked := s.asked[r := 0.0], calls := s.calls + [Call(0.0, Allowed)])
  {
    RateLimit.CountAll(ZeroTimes(n), 0.0 - p.window, 0.0, true);
    assert ZeroTimes(n) + [0.0] == ZeroTimes(n + 1);
  }

  lemma FilledNext(p: Settings, s: State, next: State, r: Replica, n: nat)
    requires Filled(p, s, r, n)
    requires next == s.(local := s.local[r := ZeroTimes(n + 1)], asked := s.asked[r := 0.0], calls := next.calls)
    ensures Filled(p, next, r, n + 1)
  {
  }

  lemma BypassStep(p: Settings, s: State, r: Replica, n: nat)
    requires Usual(p) && !p.failClosed && r < p.replicas && n < p.maxEvents && Filled(p, s, r, n)
    ensures CanStep(p, s, Bypass(r, 0.0)) && Filled(p, DoStep(p, s, Bypass(r, 0.0)), r, n + 1)
    ensures Early(p, DoStep(p, s, Bypass(r, 0.0))) == Early(p, s) + 1
  {
    BypassNext(p, s, r, n);
    FilledNext(p, s, DoStep(p, s, Bypass(r, 0.0)), r, n);
    OneMoreCall(s.calls, Call(0.0, Allowed), 0.0, p.window - p.delta);
  }

  lemma {:induction false} FillOne(p: Settings, s: State, r: Replica, n: nat) returns (t: State)
    requires Usual(p) && !p.failClosed && Reachable(p, s) && r < p.replicas && n <= Cap(p) && Filled(p, s, r, n)
    ensures Reachable(p, t) && Filled(p, t, r, Cap(p)) && Early(p, t) == Early(p, s) + Cap(p) - n
    decreases Cap(p) - n
  {
    if n == Cap(p) {
      t := s;
    } else {
      BypassStep(p, s, r, n);
      var u := ReachOn(p, s, Bypass(r, 0.0));
      t := FillOne(p, u, r, n + 1);
    }
  }

  lemma NextReplica(p: Settings, s: State, r: Replica, n: nat)
    requires Filled(p, s, r, n)
    ensures Filled(p, s, r + 1, 0)
  {
  }

  /** Every replica by itself admits the limit at time zero. */
  lemma {:induction false} FillAll(p: Settings, s: State, r: Replica) returns (t: State)
    requires Usual(p) && !p.failClosed && Reachable(p, s) && r <= p.replicas && Filled(p, s, r, 0)
    ensures Reachable(p, t) && Holds(p, t, 0) && Early(p, t) == Early(p, s) + Copies(Cap(p), p.replicas - r)
    decreases p.replicas - r
  {
    if r == p.replicas {
      t := s;
    } else {
      var u := FillOne(p, s, r, 0);
      NextReplica(p, u, r, Cap(p));
      t := FillAll(p, u, r + 1);
    }
  }

  function Copies(cap: nat, n: nat): nat {
    if n == 0 then 0 else Copies(cap, n - 1) + cap
  }

  lemma {:induction false} CopiesAre(cap: nat, n: nat)
    ensures Copies(cap, n) == n * cap
    ensures n >= 1 && cap > 0 ==> n * cap > 0
  {
    if n > 0 {
      CopiesAre(cap, n - 1);
      assert n * cap == (n - 1) * cap + cap;
    }
  }

  lemma StartHoldsNothing(p: Settings)
    ensures Holds(p, START, 0) && Filled(p, START, 0, 0) && Early(p, START) == 0
  {
  }

  /** A run that has not begun. */
  lemma Begin(p: Settings) returns (s: State)
    ensures Reachable(p, s) && Holds(p, s, 0) && Filled(p, s, 0, 0) && Early(p, s) == 0
  {
    s := START;
    StartIsReachable(p);
    StartHoldsNothing(p);
  }

  /** Before Redis admits anything, the replicas may have used up what they can admit by themselves. */
  lemma LocalShare(p: Settings) returns (t: State)
    requires Usual(p)
    ensures Reachable(p, t) && Holds(p, t, 0) && Early(p, t) == if p.failClosed then 0 else Copies(Cap(p), p.replicas)
  {
    t := Begin(p);
    if !p.failClosed {
      t := FillAll(p, t, 0);
    }
  }

  /** The fleet can let through all of its share within one window. */
  lemma ShareIsReached(p: Settings) returns (t: State)
    requires Usual(p)
    ensures Reachable(p, t) && Early(p, t) == Share(p)
  {
    CopiesAre(Cap(p), p.replicas);
    t := LocalShare(p);
    t := AdmitAll(p, t, 0);
  }

  /**
    The smallest bound on the calls that the fleet allows in a half-open window is the limit when it fails closed, and
    the limit times one more than the number of replicas when it fails open.
  */
  lemma BoundIsExact(p: Settings, n: nat)
    requires Usual(p)
    ensures CallsBounded(p, n) <==> n >= Share(p)
  {
    if n >= Share(p) {
      forall s, t | Reachable(p, s) ensures CallsBoundedAt(p, s, t, n) {
        CallsAreBounded(p, s, t);
      }
    } else {
      var s := ShareIsReached(p);
      assert Reachable(p, s) && !CallsBoundedAt(p, s, 0.0, n);
    }
  }

  /** The fleet as a whole keeps to the limit, whatever happens, exactly if it fails closed or admits nothing at all. */
  lemma BoundedIffFailClosed(p: Settings)
    requires Usual(p) && p.replicas >= 1
    ensures CallsBounded(p, Cap(p)) <==> p.failClosed || p.maxEvents <= 0
  {
    BoundIsExact(p, Cap(p));
    CopiesAre(Cap(p), p.replicas);
  }

  // -------------------------------------------------------------------------
  // closed windows
  // -------------------------------------------------------------------------

  function InClosed(admitted: map<Member, real>, t: real, length: real): set<Member> {
    set m | m in admitted && t <= admitted[m] <= t + length
  }

  predicate ClosedBoundedAt(p: Settings, s: State, t: real, length: real) {
    |InClosed(s.admitted, t, length)| <= Cap(p)
  }

  /** No closed window of this length ever holds more admitted requests than the limit. */
  ghost predicate ClosedBounded(p: Settings, length: real) {
    forall s, t {:trigger ClosedBoundedAt(p, s, t, length)} :: Reachable(p, s) ==> ClosedBoundedAt(p, s, t, length)
  }

  lemma ShortWindowIsBounded(p: Settings, s: State, t: real, length: real)
    requires Reachable(p, s) && (length < p.window - p.delta || p.maxEvents <= 0)
    ensures |InClosed(s.admitted, t, length)| <= Cap(p)
  {
    if length < p.window - p.delta {
      FleetIsBounded(p, s, t);
      SubsetSize(InClosed(s.admitted, t, length), InWindow(s.admitted, t, p.window - p.delta));
    } else {
      NothingIsAdmitted(p, s);
      assert InClosed(s.admitted, t, length) == {};
    }
  }

  lemma {:induction false} NothingAdmittedOn(p: Settings, s: State, steps: seq<Step>)
    requires p.maxEvents <= 0 && s.admitted == map[] && Follows(p, s, steps)
    ensures Run(p, s, steps).admitted == map[]
    decreases |steps|
  {
    if steps != [] { NothingAdmittedOn(p, DoStep(p, s, steps[0]), steps[1..]); }
  }

  lemma NothingIsAdmitted(p: Settings, s: State)
    requires p.maxEvents <= 0 && Reachable(p, s)
    ensures s.admitted == map[]
  {
    var steps :| Follows(p, START, steps) && Run(p, START, steps) == s;
    NothingAdmittedOn(p, START, steps);
  }

  /**
    The set was trimmed at time `window`, with room left; the requests of time zero are still the only admitted ones
    before `window`.
  */
  ghost predicate Roomy(p: Settings, s: State) {
    && s.clock == p.window < s.expires
    && |s.set_| < p.maxEvents && (forall m :: m in s.set_ ==> s.set_[m] == p.window)
    && s.issued !in s.admitted
    && |InClosed(s.admitted, 0.0, 0.0)| == p.maxEvents
  }

  /** With a limit above one, a request of time `window` trims the set and leaves room. */
  lemma TrimWithRoom(p: Settings, s: State, step: Step)
    requires Usual(p) && p.maxEvents >= 2 && Holds(p, s, p.maxEvents) && step == Pipeline(p.window, p.window, true)
    ensures CanStep(p, s, step) && Roomy(p, DoStep(p, s, step))
  {
    assert p.maxEvents !in s.admitted;
    assert Trimmed(Found(s, p.window), p.window, p.window) == map[];
    var next := DoStep(p, s, step);
    assert next.set_ == map[p.maxEvents := p.window] && next.admitted == s.admitted[p.maxEvents := p.window];
    assert InClosed(next.admitted, 0.0, 0.0) == s.admitted.Keys;
  }

  ghost predicate FirstLeft(p: Settings, s: State) {
    var half := p.window / 2.0;
    && s.set_ == map[0 := 0.0, 1 := half] && s.refused == map[1 := half] && s.issued == 2
    && s.expires == half + p.window + 1000.0 && s.clock == half && s.admitted == map[0 := 0.0]
  }

  ghost predicate BothLeft(p: Settings, s: State) {
    && s.set_ == s.refused == map[1 := p.window / 2.0, 2 := p.window] && s.issued == 3
    && s.clock == p.window < s.expires && s.admitted == map[0 := 0.0]
  }

  lemma HoldsOnlyZero(p: Settings, s: State)
    requires Holds(p, s, 1)
    ensures s.set_ == s.admitted == map[0 := 0.0]
  {
    var m :| m in s.admitted.Keys;
    SubsetSize({m}, s.admitted.Keys);
  }

  /** With a limit of one, a request of time `window / 2` is refused. */
  lemma FirstRefused(p: Settings, s: State, half: real)
    requires Usual(p) && p.maxEvents == 1 && Holds(p, s, 1) && half == p.window / 2.0
    ensures CanStep(p, s, Pipeline(half, half, true)) && FirstLeft(p, DoStep(p, s, Pipeline(half, half, true)))
  {
    HoldsOnlyZero(p, s);
    assert Trimmed(Found(s, half), half, p.window) == s.set_;
  }

  /** And while it is in the set, one of time `window` is refused, which trims the one of time zero. */
  lemma SecondRefused(p: Settings, s: State)
    requires Usual(p) && p.maxEvents == 1 && FirstLeft(p, s)
    ensures CanStep(p, s, Pipeline(p.window, p.window, true)) &&
      BothLeft(p, DoStep(p, s, Pipeline(p.window, p.window, true)))
  {
    assert Trimmed(Found(s, p.window), p.window, p.window) == map[1 := p.window / 2.0];
  }

  lemma RefuseBoth(p: Settings, s: State) returns (t: State)
    requires Usual(p) && p.maxEvents == 1 && Reachable(p, s) && Holds(p, s, 1)
    ensures Reachable(p, t) && BothLeft(p, t)
  {
    var half := p.window / 2.0;
    FirstRefused(p, s, half);
    var u := ReachOn(p, s, Pipeline(half, half, true));
    SecondRefused(p, u);
    t := ReachOn(p, u, Pipeline(p.window, p.window, true));
  }

  lemma BothRemoved(p: Settings, s: State)
    requires p.maxEvents == 1 && BothLeft(p, s)
    ensures CanStep(p, s, Remove(1)) && CanStep(p, DoStep(p, s, Remove(1)), Remove(2))
    ensures Roomy(p, DoStep(p, DoStep(p, s, Remove(1)), Remove(2)))
  {
    assert DoStep(p, DoStep(p, s, Remove(1)), Remove(2)).set_ == map[];
    assert InClosed(s.admitted, 0.0, 0.0) == {0};
  }

  /** With a limit of one, two refused requests, removed late, make the room. */
  lemma TrimByRefused(p: Settings, s: State) returns (t: State)
    requires Usual(p) && p.maxEvents == 1 && Reachable(p, s) && Holds(p, s, 1)
    ensures Reachable(p, t) && Roomy(p, t)
  {
    t := RefuseBoth(p, s);
    BothRemoved(p, t);
    t := ReachOn(p, t, Remove(1));
    t := ReachOn(p, t, Remove(2));
  }

  /** One request more, dated `window - delta`. */
  lemma AdmitLate(p: Settings, s: State, step: Step)
    requires Usual(p) && p.maxEvents >= 1 && Roomy(p, s) && step == Pipeline(p.window - p.delta, p.window, true)
    ensures CanStep(p, s, step) && |InClosed(DoStep(p, s, step).admitted, 0.0, p.window - p.delta)| > p.maxEvents
  {
    assert Trimmed(Found(s, p.window), p.window - p.delta, p.window) == s.set_;
    assert DoStep(p, s, step).admitted == s.admitted[s.issued := step.now];
    OneMoreInClosed(s.admitted, s.issued, p.window - p.delta);
  }

  lemma OneMoreInClosed(admitted: map<Member, real>, m: Member, now: real)
    requires m !in admitted && now > 0.0
    ensures |InClosed(admitted[m := now], 0.0, now)| > |InClosed(admitted, 0.0, 0.0)|
  {
    SubsetSize(InClosed(admitted, 0.0, 0.0) + {m}, InClosed(admitted[m := now], 0.0, now));
  }

  /** A closed window of length `window - delta` can hold one admitted request too many. */
  lemma OneTooMany(p: Settings) returns (t: State)
    requires Usual(p) && p.maxEvents >= 1
    ensures Reachable(p, t) && |InClosed(t.admitted, 0.0, p.window - p.delta)| > p.maxEvents
  {
    t := Begin(p);
    t := AdmitAll(p, t, 0);
    if p.maxEvents == 1 {
      t := TrimByRefused(p, t);
    } else {
      var trim := Pipeline(p.window, p.window, true);
      TrimWithRoom(p, t, trim);
      t := ReachOn(p, t, trim);
    }
    var late := Pipeline(p.window - p.delta, p.window, true);
    AdmitLate(p, t, late);
    t := ReachOn(p, t, late);
  }

  lemma WiderClosed(admitted: map<Member, real>, t: real, length: real, longer: real)
    requires length <= longer
    ensures |InClosed(admitted, t, length)| <= |InClosed(admitted, t, longer)|
  {
    SubsetSize(InClosed(admitted, t, length), InClosed(admitted, t, longer));
  }

  /**
    The closed windows that the limit holds for are exactly those shorter than `window - delta`, except when nothing is
    admitted at all. The range that the pipeline removes includes its end, unlike the in-process one.
  */
  lemma ClosedBoundedIff(p: Settings, length: real)
    requires Usual(p)
    ensures ClosedBounded(p, length) <==> length < p.window - p.delta || p.maxEvents <= 0
  {
    if length < p.window - p.delta || p.maxEvents <= 0 {
      forall s, t | Reachable(p, s) ensures ClosedBoundedAt(p, s, t, length) {
        ShortWindowIsBounded(p, s, t, length);
      }
    } else {
      var s := OneTooMany(p);
      WiderClosed(s.admitted, 0.0, p.window - p.delta, length);
      assert Reachable(p, s) && !ClosedBoundedAt(p, s, 0.0, length);
    }
  }

  // -------------------------------------------------------------------------
  // the limiter object
  // -------------------------------------------------------------------------

  /** How long the breaker stays open, in seconds. */
  const COOLDOWN: real := 30.0

  class RateLimiter {
    const configured: bool
    const failClosed: bool
    const mem: RateLimit.SlidingWindowRateLimiter
    /** Whether a client is cached, and until when the breaker is open. */
    var connected: bool
    var retryAfter: real

    constructor (maxEvents: int, windowSeconds: int, configured: bool, failClosed: bool)
      ensures this.configured == configured && this.failClosed == failClosed && !connected && retryAfter == 0.0
      ensures fresh(mem) && mem.Valid() && mem.history == map[] && mem.maxEvents == maxEvents &&
        mem.windowSeconds == windowSeconds
    {
      this.configured, this.failClosed, this.connected, this.retryAfter := configured, failClosed, false, 0.0;
      this.mem := new RateLimit.SlidingWindowRateLimiter(maxEvents, windowSeconds);
    }

    /**
      `_get_redis`: Redis is tried only if it is configured and the breaker is closed, and a new connection is pinged;
      a failed ping opens the breaker for the cooldown.
    */
    method GetRedis(now: real, end: real, ping: bool) returns (usable: bool)
      requires now <= end
      modifies this
      ensures usable == (configured && old(retryAfter) <= now && (old(connected) || ping))
      ensures connected == (old(connected) || usable)
      ensures retryAfter == if configured && old(retryAfter) <= now && !usable then end + COOLDOWN else old(retryAfter)
    {
      if !configured || now < retryAfter {
        return false;
      }
      if connected {
        return true;
      }
      if ping {
        connected := true;
        return true;
      }
      retryAfter, connected := end + COOLDOWN, false;
      return false;
    }

    /**
      `allow` called at `now`, given whether a ping and then the pipeline would succeed, and with what count; whatever
      is not awaited longer happens at `end`. Only a count from Redis within the limit makes a call that fails closed
      answer True, and the in-process limiter is not asked; failing open, that one answers whenever Redis is not
      usable. A failure keeps Redis from being tried again for the cooldown, a success closes the breaker.
    */
    method Allow(key: string, now: real, end: real, ping: bool, count: Option<nat>) returns (answer: Answer)
      requires mem.Valid() && (mem.history == map[] || mem.clock <= end) && now <= end
      modifies this, mem
      ensures mem.Valid()
      ensures var tried := configured && old(retryAfter) <= now;
              var replied := tried && (old(connected) || ping) && count.Some?;
              && (replied ==> answer == (if count.value > mem.maxEvents then Refused else Allowed))
              && (!replied && failClosed ==> answer == Unavailable)
              && (replied || failClosed ==> mem.history == old(mem.history) && mem.hits == old(mem.hits))
              && (!replied && !failClosed ==>
                    && answer == (if RateLimit.Count(old(RateLimit.TimesOf(mem.history, key)),
                        end - mem.windowSeconds as real, end) < mem.maxEvents
                                  then Allowed else Refused)
                    && mem.history == RateLimit.After(mem.maxEvents, mem.windowSeconds as real, old(mem.history),
                        RateLimit.Request(key, end)))
              && retryAfter == (if replied then 0.0 else if tried then end + COOLDOWN else old(retryAfter))
              && connected == (if tried then replied else old(connected))
    {
      var usable := GetRedis(now, end, ping);
      if !usable {
        if failClosed { return Unavailable; }
        var ok := mem.Allow(key, end);
        return if ok then Allowed else Refused;
      }
      if count.Some? {
        retryAfter := 0.0;
        return if count.value > mem.maxEvents then Refused else Allowed;
      }
      retryAfter, connected := end + COOLDOWN, false;
      if failClosed { return Unavailable; }
      var ok := mem.Allow(key, end);
      return if ok then Allowed else Refused;
    }
  }
}
