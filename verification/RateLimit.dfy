/** The in-process sliding window of `app/ratelimit.py`. */
module RateLimit {

  datatype Request = Request(key: string, at: real)

  /** The times of a key's admissions, for each key. */
  type History = map<string, seq<real>>

  function TimesOf(h: History, key: string): seq<real> {
    if key in h then h[key] else []
  }

  /** How many of the times lie in the closed window. */
  function Count(ts: seq<real>, lo: real, hi: real): nat {
    if ts == [] then 0
    else
      var last := ts[|ts| - 1];
      Count(ts[..|ts| - 1], lo, hi) + if lo <= last <= hi then 1 else 0
  }

  predicate Rising(ts: seq<real>) {
    forall i, j :: 0 <= i < j < |ts| ==> ts[i] <= ts[j]
  }

  /** A key's history after one more request: admitted if fewer than the limit lie in the window before. */
  function Next(maxEvents: int, window: real, past: seq<real>, t: real): seq<real> {
    if Count(past, t - window, t) < maxEvents then past + [t] else past
  }

  /** One key's history after its requests at the given times. */
  function Admitted(maxEvents: int, window: real, past: seq<real>, ts: seq<real>): seq<real>
    decreases |ts|
  {
    if ts == [] then past else Admitted(maxEvents, window, Next(maxEvents, window, past, ts[0]), ts[1..])
  }

  /** The histories after one request, of whatever key. */
  function After(maxEvents: int, window: real, h: History, r: Request): History {
    h[r.key := Next(maxEvents, window, TimesOf(h, r.key), r.at)]
  }

  function AfterAll(maxEvents: int, window: real, h: History, rs: seq<Request>): History
    decreases |rs|
  {
    if rs == [] then h else AfterAll(maxEvents, window, After(maxEvents, window, h, rs[0]), rs[1..])
  }

  /** Time does not run backwards. */
  predicate Timed(rs: seq<Request>) {
    forall i, j :: 0 <= i < j < |rs| ==> rs[i].at <= rs[j].at
  }

  // -------------------------------------------------------------------------
  // every window is bounded
  // -------------------------------------------------------------------------

  lemma CountOneMore(ts: seq<real>, t: real, lo: real, hi: real)
    ensures Count(ts + [t], lo, hi) == Count(ts, lo, hi) + if lo <= t <= hi then 1 else 0
  {
    assert (ts + [t])[..|ts|] == ts;
  }

  lemma {:induction false} WiderWindow(ts: seq<real>, lo: real, hi: real, lo': real, hi': real)
    requires forall i :: 0 <= i < |ts| && lo <= ts[i] <= hi ==> lo' <= ts[i] <= hi'
    ensures Count(ts, lo, hi) <= Count(ts, lo', hi')
    decreases |ts|
  {
    if ts != [] { WiderWindow(ts[..|ts| - 1], lo, hi, lo', hi'); }
  }

  /** One request keeps every window within the limit, if it comes no earlier than what was admitted. */
  lemma NextKeepsBound(maxEvents: int, window: real, past: seq<real>, now: real, t: real)
    requires forall i :: 0 <= i < |past| ==> past[i] <= now
    requires Count(past, t, t + window) <= if maxEvents > 0 then maxEvents else 0
    ensures Count(Next(maxEvents, window, past, now), t, t + window) <= if maxEvents > 0 then maxEvents else 0
  {
    CountOneMore(past, now, t, t + window);
    if t <= now <= t + window {
      WiderWindow(past, t, t + window, now - window, now);
    }
  }

  /** With time that does not run backwards, no closed window of the configured length holds more than the limit. */
  lemma {:induction false} EveryWindowIsBounded(maxEvents: int, window: real, past: seq<real>, ts: seq<real>, t: real)
    requires Rising(ts) && forall i, j :: 0 <= i < |past| && 0 <= j < |ts| ==> past[i] <= ts[j]
    requires Count(past, t, t + window) <= if maxEvents > 0 then maxEvents else 0
    ensures Count(Admitted(maxEvents, window, past, ts), t, t + window) <= if maxEvents > 0 then maxEvents else 0
    decreases |ts|
  {
    if ts != [] {
      NextKeepsBound(maxEvents, window, past, ts[0], t);
      EveryWindowIsBounded(maxEvents, window, Next(maxEvents, window, past, ts[0]), ts[1..], t);
    }
  }

  // -------------------------------------------------------------------------
  // keys do not affect each other
  // -------------------------------------------------------------------------

  /** The times at which a key was asked for. */
  function Asked(rs: seq<Request>, key: string): seq<real> {
    if rs == [] then []
    else if rs[0].key == key then [rs[0].at] + Asked(rs[1..], key)
    else Asked(rs[1..], key)
  }

  /** A key's history depends on that key's requests only. */
  lemma {:induction false} KeysAreIndependent(maxEvents: int, window: real, h: History, rs: seq<Request>, key: string)
    ensures TimesOf(AfterAll(maxEvents, window, h, rs), key) ==
      Admitted(maxEvents, window, TimesOf(h, key), Asked(rs, key))
    decreases |rs|
  {
    if rs != [] {
      var h' := After(maxEvents, window, h, rs[0]);
      KeysAreIndependent(maxEvents, window, h', rs[1..], key);
      if rs[0].key == key {
        assert Asked(rs, key)[0] == rs[0].at && Asked(rs, key)[1..] == Asked(rs[1..], key);
      }
    }
  }

  lemma {:induction false} AskedSince(rs: seq<Request>, key: string, since: real)
    requires forall i :: 0 <= i < |rs| ==> since <= rs[i].at
    ensures forall i :: 0 <= i < |Asked(rs, key)| ==> since <= Asked(rs, key)[i]
  {
    if rs != [] {
      AskedSince(rs[1..], key, since);
      var rest := Asked(rs[1..], key);
      assert forall i :: 0 <= i < |rest| ==> since <= rest[i];
      assert Asked(rs, key) == if rs[0].key == key then [rs[0].at] + rest else rest;
    }
  }

  lemma {:induction false} AskedRises(rs: seq<Request>, key: string)
    requires Timed(rs)
    ensures Rising(Asked(rs, key))
  {
    if rs != [] {
      AskedRises(rs[1..], key);
      AskedSince(rs[1..], key, rs[0].at);
      var rest := Asked(rs[1..], key);
      assert Rising(rest) && forall i :: 0 <= i < |rest| ==> rs[0].at <= rest[i];
      assert Asked(rs, key) == if rs[0].key == key then [rs[0].at] + rest else rest;
    }
  }

  /** However the requests of the keys interleave, each key stays within the limit in every closed window. */
  lemma EveryKeyIsBounded(maxEvents: int, window: real, rs: seq<Request>, key: string, t: real)
    requires Timed(rs)
    ensures Count(TimesOf(AfterAll(maxEvents, window, map[], rs), key), t, t + window) <=
            if maxEvents > 0 then maxEvents else 0
  {
    AskedRises(rs, key);
    KeysAreIndependent(maxEvents, window, map[], rs, key);
    EveryWindowIsBounded(maxEvents, window, [], Asked(rs, key), t);
  }

  // -------------------------------------------------------------------------
  // the class
  // -------------------------------------------------------------------------

  /** A deque is what is left of a key's admissions; what was pruned lies outside every window from now on. */
  ghost predicate IsLeft(all: seq<real>, gone: seq<real>, q: seq<real>, clock: real, window: real) {
    && all == gone + q && Rising(all)
    && (forall i :: 0 <= i < |all| ==> all[i] <= clock)
    && forall i :: 0 <= i < |gone| ==> gone[i] < clock - window
  }

  lemma {:induction false} CountConcat(a: seq<real>, b: seq<real>, lo: real, hi: real)
    ensures Count(a + b, lo, hi) == Count(a, lo, hi) + Count(b, lo, hi)
    decreases |b|
  {
    if b == [] {
      assert a + b == a;
    } else {
      var n := |b| - 1;
      CountConcat(a, b[..n], lo, hi);
      CountOneMore(a + b[..n], b[n], lo, hi);
      assert a + b == (a + b[..n]) + [b[n]];
    }
  }

  lemma {:induction false} CountAll(ts: seq<real>, lo: real, hi: real, inside: bool)
    requires forall i :: 0 <= i < |ts| ==> (lo <= ts[i] <= hi) == inside
    ensures Count(ts, lo, hi) == if inside then |ts| else 0
    decreases |ts|
  {
    if ts != [] { CountAll(ts[..|ts| - 1], lo, hi, inside); }
  }

  /** What is not pruned lies in the window, if its first time does. */
  lemma RestIsInside(all: seq<real>, gone: seq<real>, q: seq<real>, lo: real, hi: real)
    requires all == gone + q && Rising(all) && (forall i :: 0 <= i < |all| ==> all[i] <= hi)
    requires q != [] ==> lo <= q[0]
    ensures forall i :: 0 <= i < |q| ==> lo <= q[i] <= hi
  {
    forall i | 0 <= i < |q| ensures lo <= q[i] <= hi {
      assert q[i] == all[|gone| + i] && q[0] == all[|gone|];
    }
  }

  lemma PrunedCount(gone: seq<real>, q: seq<real>, lo: real, hi: real)
    requires (forall i :: 0 <= i < |gone| ==> gone[i] < lo) && (forall i :: 0 <= i < |q| ==> lo <= q[i] <= hi)
    ensures Count(gone + q, lo, hi) == |q|
  {
    CountConcat(gone, q, lo, hi);
    CountAll(gone, lo, hi, false);
    CountAll(q, lo, hi, true);
  }

  /** One request on one key's deque: pruned by the front, and extended if it was admitted. */
  lemma LeftAfter(all: seq<real>, gone: seq<real>, front: seq<real>, q: seq<real>, clock: real, now: real, window: real)
    requires IsLeft(all, gone, front + q, clock, window) && (all == [] || clock <= now)
    requires forall i :: 0 <= i < |front| ==> front[i] < now - window
    requires q != [] ==> now - window <= q[0]
    ensures Count(all, now - window, now) == |q|
    ensures IsLeft(all, gone + front, q, now, window)
    ensures IsLeft(all + [now], gone + front, q + [now], now, window)
  {
    var before := gone + front;
    assert all == before + q && all + [now] == before + (q + [now]);
    assert forall i :: 0 <= i < |before| ==> before[i] < now - window;
    RestIsInside(all, before, q, now - window, now);
    PrunedCount(before, q, now - window, now);
  }

  /** Every key's deque is what is left of its history. */
  ghost predicate LeftOf(h: History, pruned: History, hits: History, clock: real, window: real, key: string) {
    IsLeft(TimesOf(h, key), TimesOf(pruned, key), TimesOf(hits, key), clock, window)
  }

  ghost predicate AllLeft(h: History, pruned: History, hits: History, clock: real, window: real) {
    forall key {:trigger LeftOf(h, pruned, hits, clock, window, key)} :: LeftOf(h, pruned, hits, clock, window, key)
  }

  lemma OthersLeft(h: History, pruned: History, hits: History, clock: real, window: real,
                   h': History, pruned': History, hits': History, now: real, key: string)
    requires AllLeft(h, pruned, hits, clock, window) && (h == map[] || clock <= now)
    requires LeftOf(h', pruned', hits', now, window, key)
    requires forall k :: k != key ==> TimesOf(h', k) == TimesOf(h, k) && TimesOf(pruned', k) == TimesOf(pruned, k)
    requires forall k :: k != key ==> TimesOf(hits', k) == TimesOf(hits, k)
    ensures AllLeft(h', pruned', hits', now, window)
  {
    forall k ensures LeftOf(h', pruned', hits', now, window, k) {
      assert LeftOf(h, pruned, hits, clock, window, k);
    }
  }

  /** One request: its key's deque is pruned and perhaps extended, the others stay as they are. */
  lemma AllowKeeps(h: History, pruned: History, hits: History, clock: real, now: real, window: real, maxEvents: int,
                   key: string, front: seq<real>, q: seq<real>)
    requires AllLeft(h, pruned, hits, clock, window) && (h == map[] || clock <= now)
    requires TimesOf(hits, key) == front + q
    requires (forall i :: 0 <= i < |front| ==> front[i] < now - window) && (q != [] ==> now - window <= q[0])
    ensures Count(TimesOf(h, key), now - window, now) == |q|
    ensures AllLeft(After(maxEvents, window, h, Request(key, now)), pruned[key := TimesOf(pruned, key) + front],
                    hits[key := if |q| < maxEvents then q + [now] else q], now, window)
  {
    assert LeftOf(h, pruned, hits, clock, window, key);
    LeftAfter(TimesOf(h, key), TimesOf(pruned, key), front, q, clock, now, window);
    OthersLeft(h, pruned, hits, clock, window, After(maxEvents, window, h, Request(key, now)),
               pruned[key := TimesOf(pruned, key) + front], hits[key := if |q| < maxEvents then q + [now] else q],
                 now, key);
  }

  class SlidingWindowRateLimiter {
    const maxEvents: int
    const windowSeconds: int
    var hits: map<string, seq<real>>
    /** Every admission, those already pruned, and the time of the latest request. */
    ghost var history: History
    ghost var pruned: History
    ghost var clock: real

    ghost predicate Valid()
      reads this
    {
      AllLeft(history, pruned, hits, clock, windowSeconds as real)
    }

    constructor (maxEvents: int, windowSeconds: int)
      ensures Valid() && history == map[] && this.maxEvents == maxEvents && this.windowSeconds == windowSeconds
    {
      this.maxEvents, this.windowSeconds, this.hits := maxEvents, windowSeconds, map[];
      this.history, this.pruned, this.clock := map[], map[], 0.0;
    }

    /** The loop that pops the times before the cutoff from the left. */
    static method Prune(q: seq<real>, cutoff: real) returns (r: seq<real>, ghost front: seq<real>)
      ensures q == front + r && (forall i :: 0 <= i < |front| ==> front[i] < cutoff)
      ensures r != [] ==> cutoff <= r[0]
    {
      r, front := q, [];
      while r != [] && r[0] < cutoff
        invariant q == front + r && (forall i :: 0 <= i < |front| ==> front[i] < cutoff)
      {
        front := front + [r[0]];
        r := r[1..];
      }
    }

    /**
      `allow`: admitted exactly if the full history of the key holds fewer than the limit in the closed window before,
      although only a pruned part of it is kept; the history grows by that admission and nothing else.
    */
    method Allow(key: string, now: real) returns (ok: bool)
      requires Valid() && (history == map[] || clock <= now)
      modifies this
      ensures Valid() && clock == now
      ensures ok <==> Count(old(TimesOf(history, key)), now - windowSeconds as real, now) < maxEvents
      ensures history == After(maxEvents, windowSeconds as real, old(history), Request(key, now))
      ensures key in hits && hits == old(hits)[key := hits[key]]
    {
      var queue := if key in hits then hits[key] else [];
      var q, front := Prune(queue, now - windowSeconds as real);
      AllowKeeps(history, pruned, hits, clock, now, windowSeconds as real, maxEvents, key, front, q);
      ok := |q| < maxEvents;
      if ok {
        q := q + [now];
      }
      hits := hits[key := q];
      history := After(maxEvents, windowSeconds as real, history, Request(key, now));
      pruned := pruned[key := TimesOf(pruned, key) + front];
      clock := now;
    }
  }

  /** A limiter that answers a list of requests has admitted exactly those that the full history admits. */
  method AllowAll(limiter: SlidingWindowRateLimiter, rs: seq<Request>)
    requires limiter.Valid() && limiter.history == map[] && Timed(rs)
    modifies limiter
    ensures limiter.Valid() && limiter.history == AfterAll(limiter.maxEvents, limiter.windowSeconds as real, map[], rs)
  {
    var n := 0;
    while n < |rs|
      invariant n <= |rs| && limiter.Valid()
      invariant AfterAll(limiter.maxEvents, limiter.windowSeconds as real, limiter.history, rs[n..]) ==
                AfterAll(limiter.maxEvents, limiter.windowSeconds as real, map[], rs)
      invariant n == 0 ==> limiter.history == map[]
      invariant n > 0 ==> limiter.clock == rs[n - 1].at
    {
      assert rs[n..][0] == rs[n] && rs[n..][1..] == rs[n + 1..];
      var _ := limiter.Allow(rs[n].key, rs[n].at);
      n := n + 1;
    }
  }
}
