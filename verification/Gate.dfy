/** `compile_check` of the monitor kernel and `evaluate_events` of `_vendor/ooptdd/engine/gate.py`. */
module Gate {
  import opened Common
  import opened MonitorModel
  import opened MonitorMeaning

  // -------------------------------------------------------------------------
  // rules and the monitors they denote
  // -------------------------------------------------------------------------

  /** A matcher as written in a rule: it may refer to a named indicator and extend it. */
  datatype RawMatcher = RawMatcher(indicatorRef: Option<string>, event: Option<Field>, where: map<string, Field>)

  datatype Indicator = Indicator(event: Field, where: map<string, Field>)

  /** A rule: which keywords it carries, and the fields that go with them. */
  datatype Rule = Rule(
    absent: Option<seq<RawMatcher>>, forbid: Option<seq<RawMatcher>>,
    heartbeat: Option<Field>, everyS: real,
    mustOrder: Option<seq<Field>>, trajectory: Option<seq<Field>>, withinS: Option<real>,
    present: Option<seq<RawMatcher>>,
    ratioMetric: Option<(RawMatcher, RawMatcher)>,
    conforms: Option<Field>, closedWorld: Option<bool>,
    own: RawMatcher, op: Op, want: real,
    optional: bool, pending: bool, weight: real)

  datatype Context = Context(indicators: map<string, Indicator>, ontology: Option<Ontology>, allow: seq<RawMatcher>)

  /** `_resolve_matcher`: inline fields override and extend the indicator's. */
  function Resolve(raw: RawMatcher, indicators: map<string, Indicator>): Matcher {
    if raw.indicatorRef.Some? then
      var base := if raw.indicatorRef.value in indicators then indicators[raw.indicatorRef.value]
        else Indicator(Nil, map[]);
      Matcher(if raw.event.Some? then raw.event.value else base.event, base.where + raw.where)
    else Matcher(if raw.event.Some? then raw.event.value else Nil, raw.where)
  }

  function ResolveAll(raws: seq<RawMatcher>, indicators: map<string, Indicator>): (ms: seq<Matcher>)
    ensures |ms| == |raws|
  {
    seq(|raws|, i requires 0 <= i < |raws| => Resolve(raws[i], indicators))
  }

  /** Python's `int(x)`: towards zero. */
  function Truncate(x: real): int {
    if x >= 0.0 then x.Floor else -((-x).Floor)
  }

  /** `compile_check`; None where Python raises, on an order rule without any list of names. */
  function Compile(rule: Rule, ctx: Context): (m: Option<Monitor>)
    ensures m.Some? ==> Fresh(m.value)
  {
    if rule.absent.Some? || rule.forbid.Some? then
      var raw := if rule.absent.Some? then rule.absent.value else rule.forbid.value;
      Some(Absent(ResolveAll(raw, ctx.indicators), ResolveAll(ctx.allow, ctx.indicators), []))
    else if rule.heartbeat.Some? then Some(Heartbeat(rule.heartbeat.value, rule.everyS, 0, None, 0))
    else if rule.mustOrder.Some? || rule.trajectory.Some? then
      if rule.mustOrder.Some? && rule.mustOrder.value != [] then Some(Order(rule.mustOrder.value, rule.withinS, map[]))
      else if rule.trajectory.Some? then Some(Order(rule.trajectory.value, rule.withinS, map[]))
      else None
    else if rule.present.Some? then
      Some(Present(ResolveAll(rule.present.value, ctx.indicators), seq(|rule.present.value|, _ => false)))
    else if rule.ratioMetric.Some? then
      Some(Ratio(Resolve(rule.ratioMetric.value.0, ctx.indicators), Resolve(rule.ratioMetric.value.1, ctx.indicators),
        rule.op, rule.want, 0, 0))
    else if rule.conforms.Some? then
      Some(Conforms(rule.conforms.value, ctx.ontology, ClosedWorld(ctx.ontology, rule.closedWorld), 0, [], []))
    else Some(Count(Resolve(rule.own, ctx.indicators), rule.op, Truncate(rule.want), 0))
  }

  datatype Keyword = KAbsent | KForbid | KHeartbeat | KMustOrder | KTrajectory | KPresent | KRatio | KConforms

  datatype Kind = IsAbsent | IsHeartbeat | IsMustOrder | IsPresent | IsRatio | IsConforms | IsCount

  predicate Carries(rule: Rule, k: Keyword) {
    match k
    case KAbsent => rule.absent.Some?
    case KForbid => rule.forbid.Some?
    case KHeartbeat => rule.heartbeat.Some?
    case KMustOrder => rule.mustOrder.Some?
    case KTrajectory => rule.trajectory.Some?
    case KPresent => rule.present.Some?
    case KRatio => rule.ratioMetric.Some?
    case KConforms => rule.conforms.Some?
  }

  /** The gate's own table of keywords and the checks they select. */
  const PROBES: seq<(Keyword, Kind)> := [
    (KAbsent, IsAbsent), (KForbid, IsAbsent), (KHeartbeat, IsHeartbeat), (KMustOrder, IsMustOrder),
    (KTrajectory, IsMustOrder), (KPresent, IsPresent), (KRatio, IsRatio), (KConforms, IsConforms)]

  /** `_detect_check_key`: the first keyword of the table that the rule carries; a count otherwise. */
  method DetectKind(rule: Rule) returns (kind: Kind)
    ensures exists i :: 0 <= i <= |PROBES| && (forall j :: 0 <= j < i ==> !Carries(rule, PROBES[j].0)) &&
              if i < |PROBES| then Carries(rule, PROBES[i].0) && kind == PROBES[i].1 else kind == IsCount
    ensures forall ctx :: Compile(rule, ctx).Some? ==> KindOf(Compile(rule, ctx).value) == kind
  {
    for i := 0 to |PROBES|
      invariant forall j :: 0 <= j < i ==> !Carries(rule, PROBES[j].0)
    {
      if Carries(rule, PROBES[i].0) {
        kind := PROBES[i].1;
        FirstProbeDecides(rule, i);
        return;
      }
    }
    FirstProbeDecides(rule, |PROBES|);
    kind := IsCount;
  }

  function KindOf(m: Monitor): Kind {
    match m
    case Count(_, _, _, _) => IsCount
    case Present(_, _) => IsPresent
    case Absent(_, _, _) => IsAbsent
    case Order(_, _, _) => IsMustOrder
    case Heartbeat(_, _, _, _, _) => IsHeartbeat
    case Ratio(_, _, _, _, _, _) => IsRatio
    case Conforms(_, _, _, _, _, _) => IsConforms
  }

  /** The gate's table and the kernel's chain of tests select the same check for every rule. */
  lemma FirstProbeDecides(rule: Rule, i: nat)
    requires i <= |PROBES| && (forall j :: 0 <= j < i ==> !Carries(rule, PROBES[j].0))
    requires i < |PROBES| ==> Carries(rule, PROBES[i].0)
    ensures forall ctx :: Compile(rule, ctx).Some? ==>
              KindOf(Compile(rule, ctx).value) == if i < |PROBES| then PROBES[i].1 else IsCount
  {
    assert i > 0 ==> !Carries(rule, PROBES[0].0);
    assert i > 1 ==> !Carries(rule, PROBES[1].0);
    assert i > 2 ==> !Carries(rule, PROBES[2].0);
    assert i > 3 ==> !Carries(rule, PROBES[3].0);
    assert i > 4 ==> !Carries(rule, PROBES[4].0);
    assert i > 5 ==> !Carries(rule, PROBES[5].0);
    assert i > 6 ==> !Carries(rule, PROBES[6].0);
    assert i > 7 ==> !Carries(rule, PROBES[7].0);
  }

  // -------------------------------------------------------------------------
  // evaluate_events
  // -------------------------------------------------------------------------

  datatype GateSpec = GateSpec(
    expected: seq<Rule>, forbidErrors: bool, errorLevels: seq<string>, allowErrors: seq<RawMatcher>,
    threshold: Option<real>, indicators: map<string, Indicator>)

  datatype Check = Check(passed: bool, optional: bool, pending: bool, tautological: bool, weight: real)

  datatype GateResult = GateResult(ok: bool, vacuous: bool, score: Option<real>, checks: seq<Check>)

  const ANYTHING: RawMatcher := RawMatcher(None, None, map[])

  /** The rule that forbids records of the error levels. */
  function ForbidRule(levels: seq<string>): Rule {
    Rule(Some(seq(|levels|, i requires 0 <= i < |levels| => RawMatcher(None, None, map["level" := Str(levels[i])]))),
         None, None, 0.0, None, None, None, None, None, None, None, ANYTHING, Ge, 1.0, false, false, 1.0)
  }

  function Rules(spec: GateSpec): seq<Rule> {
    var levels := if spec.errorLevels != [] then spec.errorLevels else ["ERROR", "CRITICAL"];
    spec.expected + if spec.forbidErrors then [ForbidRule(levels)] else []
  }

  predicate Tautological(m: Monitor) {
    m.Count? && m.op == Ge && m.want <= 0
  }

  function CheckOf(rule: Rule, m: Monitor, s: seq<Event>, clean: bool): Check
    requires Fresh(m)
  {
    Check(RunMonitor(m, s, clean).passed, rule.optional, rule.pending, Tautological(m), rule.weight)
  }

  predicate Compiles(rules: seq<Rule>, ctx: Context) {
    forall i :: 0 <= i < |rules| ==> Compile(rules[i], ctx).Some?
  }

  /** The checks of the rules, in order. */
  function ChecksOf(rules: seq<Rule>, ctx: Context, s: seq<Event>, clean: bool): (cs: seq<Check>)
    requires Compiles(rules, ctx)
    ensures |cs| == |rules|
  {
    seq(|rules|, i requires 0 <= i < |rules| && Compiles(rules, ctx) =>
      CheckOf(rules[i], Compile(rules[i], ctx).value, s, clean))
  }

  /** Only a check that can fail and is neither optional nor pending decides. */
  predicate Decides(c: Check) {
    !c.optional && !c.pending && !c.tautological
  }

  function Gating(cs: seq<Check>): seq<Check> {
    if cs == [] then [] else if Decides(cs[0]) then [cs[0]] + Gating(cs[1..]) else Gating(cs[1..])
  }

  function Weight(cs: seq<Check>): real {
    if cs == [] then 0.0 else cs[0].weight + Weight(cs[1..])
  }

  function PassedWeight(cs: seq<Check>): real {
    if cs == [] then 0.0 else (if cs[0].passed then cs[0].weight else 0.0) + PassedWeight(cs[1..])
  }

  function Score(gating: seq<Check>): real {
    if Weight(gating) == 0.0 then 1.0 else PassedWeight(gating) / Weight(gating)
  }

  predicate RequiredOk(gating: seq<Check>, threshold: Option<real>) {
    if threshold.None? then forall i :: 0 <= i < |gating| ==> gating[i].passed else Score(gating) >= threshold.value
  }

  /** The fold into `ok`. */
  function Fold(cs: seq<Check>, threshold: Option<real>, reachable: bool, complete: bool): GateResult {
    var gating := Gating(cs);
    GateResult(
      reachable && complete && gating != [] && RequiredOk(gating, threshold),
      cs != [] && gating == [],
      if threshold.Some? then Some(Score(gating)) else None,
      cs)
  }

  function Evaluate(spec: GateSpec, ontology: Option<Ontology>, events: seq<Event>, reachable: bool,
                    complete: bool): Option<GateResult>
  {
    var rules, ctx := Rules(spec), Context(spec.indicators, ontology, spec.allowErrors);
    if !Compiles(rules, ctx) then None
    else
      var checks := ChecksOf(rules, ctx, SortEvents(events), reachable && complete);
      Some(Fold(checks, spec.threshold, reachable, complete))
  }

  /** The loop over the rules: one check each, and those that count on the side. */
  method RunRules(rules: seq<Rule>, ctx: Context, s: seq<Event>, clean: bool)
    returns (compiled: bool, checks: seq<Check>, gating: seq<Check>)
    ensures compiled <==> Compiles(rules, ctx)
    ensures compiled ==> checks == ChecksOf(rules, ctx, s, clean) && gating == Gating(checks)
  {
    checks, gating := [], [];
    for n := 0 to |rules|
      invariant |checks| == n && gating == Gating(checks)
      invariant forall i :: 0 <= i < n ==>
        Compile(rules[i], ctx).Some? && checks[i] == CheckOf(rules[i], Compile(rules[i], ctx).value, s, clean)
    {
      var m := Compile(rules[n], ctx);
      if m.None? {
        return false, [], [];
      }
      var check := CheckOf(rules[n], m.value, s, clean);
      GatingConcat(checks, [check]);
      assert [check][1..] == [];
      checks := checks + [check];
      if Decides(check) { gating := gating + [check]; }
    }
    compiled := true;
  }

  /** The sums over the deciding checks. */
  method Weigh(gating: seq<Check>) returns (allPassed: bool, score: real)
    ensures allPassed <==> forall i :: 0 <= i < |gating| ==> gating[i].passed
    ensures score == Score(gating)
  {
    var wtot, wpass := 0.0, 0.0;
    allPassed := true;
    for i := 0 to |gating|
      invariant wtot == Weight(gating) - Weight(gating[i..]) &&
        wpass == PassedWeight(gating) - PassedWeight(gating[i..])
      invariant allPassed <==> forall k :: 0 <= k < i ==> gating[k].passed
    {
      assert gating[i..][0] == gating[i] && gating[i..][1..] == gating[i + 1..];
      wtot := wtot + gating[i].weight;
      if gating[i].passed { wpass := wpass + gating[i].weight; } else { allPassed := false; }
    }
    score := if wtot == 0.0 then 1.0 else wpass / wtot;
  }

  method FoldChecks(checks: seq<Check>, gating: seq<Check>, threshold: Option<real>, reachable: bool, complete: bool)
    returns (r: GateResult)
    requires gating == Gating(checks)
    ensures r == Fold(checks, threshold, reachable, complete)
  {
    var allPassed, score := Weigh(gating);
    var requiredOk := if threshold.None? then allPassed else score >= threshold.value;
    r := GateResult(reachable && complete && gating != [] && requiredOk, checks != [] && gating == [],
                    if threshold.Some? then Some(score) else None, checks);
  }

  /** `evaluate_events`: sort, one check per rule, and the fold. */
  method EvaluateEvents(spec: GateSpec, ontology: Option<Ontology>, events: seq<Event>, reachable: bool, complete: bool)
    returns (result: Option<GateResult>)
    ensures result == Evaluate(spec, ontology, events, reachable, complete)
  {
    var sorted := SortEvents(events);
    var rules := spec.expected;
    if spec.forbidErrors {
      var levels := if spec.errorLevels != [] then spec.errorLevels else ["ERROR", "CRITICAL"];
      rules := rules + [ForbidRule(levels)];
    }
    assert rules == Rules(spec);
    var compiled, checks, gating := RunRules(rules, Context(spec.indicators, ontology, spec.allowErrors), sorted,
      reachable && complete);
    if !compiled {
      return None;
    }
    var r := FoldChecks(checks, gating, spec.threshold, reachable, complete);
    return Some(r);
  }

  // -------------------------------------------------------------------------
  // main results
  // -------------------------------------------------------------------------

  lemma ChecksIgnoreOrder(rules: seq<Rule>, ctx: Context, a: seq<Event>, b: seq<Event>, clean: bool)
    requires multiset(a) == multiset(b) && Compiles(rules, ctx)
    ensures ChecksOf(rules, ctx, SortEvents(a), clean) == ChecksOf(rules, ctx, SortEvents(b), clean)
  {
    forall i | 0 <= i < |rules|
      ensures CheckOf(rules[i], Compile(rules[i], ctx).value, SortEvents(a), clean) ==
        CheckOf(rules[i], Compile(rules[i], ctx).value, SortEvents(b), clean)
    {
      BackendOrderIsForgotten(Compile(rules[i], ctx).value, a, b, clean);
    }
  }

  /** The verdict of a gate, and of each of its checks, depends on which events came back, not on their order. */
  lemma GateIgnoresOrder(spec: GateSpec, ontology: Option<Ontology>, a: seq<Event>, b: seq<Event>, reachable: bool,
                         complete: bool)
    requires multiset(a) == multiset(b)
    ensures Evaluate(spec, ontology, a, reachable, complete) == Evaluate(spec, ontology, b, reachable, complete)
  {
    var rules, ctx := Rules(spec), Context(spec.indicators, ontology, spec.allowErrors);
    if Compiles(rules, ctx) { ChecksIgnoreOrder(rules, ctx, a, b, reachable && complete); }
  }

  lemma {:induction false} GatingConcat(a: seq<Check>, b: seq<Check>)
    ensures Gating(a + b) == Gating(a) + Gating(b)
  {
    if a == [] {
      assert a + b == b;
    } else {
      assert (a + b)[0] == a[0] && (a + b)[1..] == a[1..] + b;
      GatingConcat(a[1..], b);
    }
  }

  lemma ChecksConcat(a: seq<Rule>, b: seq<Rule>, ctx: Context, s: seq<Event>, clean: bool)
    ensures Compiles(a + b, ctx) <==> Compiles(a, ctx) && Compiles(b, ctx)
    ensures Compiles(a + b, ctx) ==>
      ChecksOf(a + b, ctx, s, clean) == ChecksOf(a, ctx, s, clean) + ChecksOf(b, ctx, s, clean)
  {
    var both := a + b;
    assert forall i :: 0 <= i < |a| ==> both[i] == a[i];
    assert forall i :: 0 <= i < |b| ==> both[i + |a|] == b[i];
  }

  /** A rule that is optional, pending or cannot fail, put anywhere in the list, changes neither `ok` nor the score. */
  lemma IdleRulesDoNotDecide(spec: GateSpec, ontology: Option<Ontology>, events: seq<Event>, reachable: bool,
                             complete: bool,
                             n: nat, rule: Rule)
    requires n <= |spec.expected|
    requires var m := Compile(rule, Context(spec.indicators, ontology, spec.allowErrors));
             m.Some? && (rule.optional || rule.pending || Tautological(m.value))
    ensures var with := Evaluate(spec.(expected := spec.expected[..n] + [rule] + spec.expected[n..]), ontology,
      events, reachable, complete);
            var without := Evaluate(spec, ontology, events, reachable, complete);
            && (with.Some? <==> without.Some?)
            && (with.Some? ==> with.value.ok == without.value.ok && with.value.score == without.value.score)
  {
    var ctx := Context(spec.indicators, ontology, spec.allowErrors);
    var s, clean := SortEvents(events), reachable && complete;
    var front, tail := spec.expected[..n], Rules(spec.(expected := spec.expected[n..]));
    RulesSplit(spec, n, rule);
    IdleRule(front, rule, tail, ctx, s, clean);
    if Compiles(front + tail, ctx) {
      FoldAlike(ChecksOf(front + ([rule] + tail), ctx, s, clean), ChecksOf(front + tail, ctx, s, clean),
        spec.threshold, reachable, complete);
    }
  }

  lemma RulesSplit(spec: GateSpec, n: nat, rule: Rule)
    requires n <= |spec.expected|
    ensures var front, tail := spec.expected[..n], Rules(spec.(expected := spec.expected[n..]));
            && Rules(spec) == front + tail
            && Rules(spec.(expected := front + [rule] + spec.expected[n..])) == front + ([rule] + tail)
  {
  }

  lemma FoldAlike(a: seq<Check>, b: seq<Check>, threshold: Option<real>, reachable: bool, complete: bool)
    requires Gating(a) == Gating(b)
    ensures Fold(a, threshold, reachable, complete).ok == Fold(b, threshold, reachable, complete).ok
    ensures Fold(a, threshold, reachable, complete).score == Fold(b, threshold, reachable, complete).score
  {
  }

  lemma IdleRule(front: seq<Rule>, rule: Rule, tail: seq<Rule>, ctx: Context, s: seq<Event>, clean: bool)
    requires var m := Compile(rule, ctx); m.Some? && (rule.optional || rule.pending || Tautological(m.value))
    ensures Compiles(front + ([rule] + tail), ctx) <==> Compiles(front + tail, ctx)
    ensures Compiles(front + tail, ctx) ==>
              Gating(ChecksOf(front + ([rule] + tail), ctx, s, clean)) == Gating(ChecksOf(front + tail, ctx, s, clean))
  {
    ChecksConcat(front, tail, ctx, s, clean);
    ChecksConcat(front, [rule] + tail, ctx, s, clean);
    ChecksConcat([rule], tail, ctx, s, clean);
    if Compiles(front + tail, ctx) {
      var one := ChecksOf([rule], ctx, s, clean);
      assert one == [CheckOf(rule, Compile(rule, ctx).value, s, clean)];
      IdleCheck(ChecksOf(front, ctx, s, clean), one[0], ChecksOf(tail, ctx, s, clean));
    }
  }

  lemma IdleCheck(x: seq<Check>, c: Check, y: seq<Check>)
    requires !Decides(c)
    ensures Gating(x + ([c] + y)) == Gating(x + y)
  {
    GatingConcat(x, y);
    GatingConcat(x, [c] + y);
    GatingConcat([c], y);
    assert [c][1..] == [];
  }

  /** The weight of the rules, among the first `n`, that decide about the gate. */
  ghost function CountedWeight(rules: seq<Rule>, ctx: Context, n: nat): real
    requires n <= |rules|
  {
    if n == 0 then 0.0
    else CountedWeight(rules, ctx, n - 1) + if Counts(rules, ctx, n - 1) then rules[n - 1].weight else 0.0
  }

  /** The weight of those that the stream satisfies. */
  ghost function SatisfiedWeight(rules: seq<Rule>, ctx: Context, s: seq<Event>, n: nat): real
    requires n <= |rules|
  {
    if n == 0 then 0.0
    else
      SatisfiedWeight(rules, ctx, s, n - 1) +
      if Counts(rules, ctx, n - 1) && Judge(Compile(rules[n - 1], ctx).value, s) then rules[n - 1].weight else 0.0
  }

  /** The share of the deciding weight that the stream satisfies. */
  ghost function Share(rules: seq<Rule>, ctx: Context, s: seq<Event>): real {
    if CountedWeight(rules, ctx, |rules|) == 0.0 then 1.0
    else SatisfiedWeight(rules, ctx, s, |rules|) / CountedWeight(rules, ctx, |rules|)
  }

  lemma {:induction false} WeightConcat(a: seq<Check>, c: Check)
    ensures Weight(a + [c]) == Weight(a) + c.weight
    ensures PassedWeight(a + [c]) == PassedWeight(a) + if c.passed then c.weight else 0.0
  {
    if a == [] {
      assert a + [c] == [c] && [c][1..] == [];
    } else {
      assert (a + [c])[0] == a[0] && (a + [c])[1..] == a[1..] + [c];
      WeightConcat(a[1..], c);
    }
  }

  lemma GatingMore(before: seq<Check>, c: Check)
    ensures Weight(Gating(before + [c])) == Weight(Gating(before)) + if Decides(c) then c.weight else 0.0
    ensures PassedWeight(Gating(before + [c])) == PassedWeight(Gating(before))
      + if Decides(c) && c.passed then c.weight else 0.0
  {
    assert [c][1..] == [];
    GatingConcat(before, [c]);
    if Decides(c) {
      assert Gating([c]) == [c];
      WeightConcat(Gating(before), c);
    } else {
      assert Gating(before) + [] == Gating(before);
    }
  }

  lemma {:induction false} WeightsTell(rules: seq<Rule>, ctx: Context, s: seq<Event>, clean: bool, cs: seq<Check>,
                                       n: nat)
    requires Compiles(rules, ctx) && n <= |rules| && cs == ChecksOf(rules, ctx, s, clean)
    ensures Weight(Gating(cs[..n])) == CountedWeight(rules, ctx, n)
    ensures PassedWeight(Gating(cs[..n])) == if clean then SatisfiedWeight(rules, ctx, s, n) else 0.0
  {
    if n > 0 {
      var c := cs[n - 1];
      WeightsTell(rules, ctx, s, clean, cs, n - 1);
      CheckTells(rules, ctx, s, clean, cs, n - 1);
      assert cs[..n] == cs[..n - 1] + [c];
      GatingMore(cs[..n - 1], c);
    }
  }

  lemma CheckTells(rules: seq<Rule>, ctx: Context, s: seq<Event>, clean: bool, cs: seq<Check>, i: nat)
    requires Compiles(rules, ctx) && i < |rules| && cs == ChecksOf(rules, ctx, s, clean)
    ensures cs[i].weight == rules[i].weight && (Decides(cs[i]) <==> Counts(rules, ctx, i))
    ensures cs[i].passed == (clean && Judge(Compile(rules[i], ctx).value, s))
  {
    ChecksTell(rules, ctx, s, clean);
  }

  /**
    A gate is green exactly if the read was clean, some check can fail and counts, and the sorted stream satisfies
    every check that counts, or, with a threshold, satisfies that share of their weight; that share is the score.
  */
  lemma GreenMeans(spec: GateSpec, ontology: Option<Ontology>, events: seq<Event>, reachable: bool, complete: bool)
    requires Evaluate(spec, ontology, events, reachable, complete).Some?
    ensures var rules, ctx, s := Rules(spec), Context(spec.indicators, ontology, spec.allowErrors), SortEvents(events);
            var result := Evaluate(spec, ontology, events, reachable, complete).value;
            && (result.ok <==>
                  && reachable && complete
                  && (exists i :: Counts(rules, ctx, i))
                  && match spec.threshold
                     case None => forall i :: Counts(rules, ctx, i) ==> Judge(Compile(rules[i], ctx).value, s)
                     case Some(least) => Share(rules, ctx, s) >= least)
            && (reachable && complete && spec.threshold.Some? ==> result.score == Some(Share(rules, ctx, s)))
  {
    var rules, ctx, s := Rules(spec), Context(spec.indicators, ontology, spec.allowErrors), SortEvents(events);
    var cs := ChecksOf(rules, ctx, s, reachable && complete);
    GatingMeans(rules, ctx, s, reachable && complete);
    WeightsTell(rules, ctx, s, reachable && complete, cs, |rules|);
    assert cs[..|rules|] == cs;
  }

  lemma GatingMeans(rules: seq<Rule>, ctx: Context, s: seq<Event>, clean: bool)
    requires Compiles(rules, ctx)
    ensures var gating := Gating(ChecksOf(rules, ctx, s, clean));
            && (gating != [] <==> exists i :: Counts(rules, ctx, i))
            && ((forall k :: 0 <= k < |gating| ==> gating[k].passed) <==>
                  forall i :: Counts(rules, ctx, i) ==> clean && Judge(Compile(rules[i], ctx).value, s))
  {
    ChecksTell(rules, ctx, s, clean);
    GatingTells(ChecksOf(rules, ctx, s, clean));
  }

  /** The rule decides about the gate. */
  predicate Counts(rules: seq<Rule>, ctx: Context, i: int) {
    0 <= i < |rules| && Compile(rules[i], ctx).Some? &&
    !rules[i].optional && !rules[i].pending && !Tautological(Compile(rules[i], ctx).value)
  }

  lemma ChecksTell(rules: seq<Rule>, ctx: Context, s: seq<Event>, clean: bool)
    requires Compiles(rules, ctx)
    ensures var cs := ChecksOf(rules, ctx, s, clean);
            forall i {:trigger cs[i]} {:trigger rules[i]} :: 0 <= i < |rules| ==>
              && (Decides(cs[i]) <==> Counts(rules, ctx, i))
              && cs[i].passed == (clean && Judge(Compile(rules[i], ctx).value, s))
  {
    var cs := ChecksOf(rules, ctx, s, clean);
    forall i | 0 <= i < |rules|
      ensures (Decides(cs[i]) <==> Counts(rules, ctx, i)) &&
        cs[i].passed == (clean && Judge(Compile(rules[i], ctx).value, s))
    {
      PassesIffJudged(Compile(rules[i], ctx).value, s);
    }
  }

  lemma {:induction false} GatingTells(cs: seq<Check>)
    ensures Gating(cs) != [] <==> exists i :: 0 <= i < |cs| && Decides(cs[i])
    ensures (forall k :: 0 <= k < |Gating(cs)| ==> Gating(cs)[k].passed) <==>
      forall i :: 0 <= i < |cs| && Decides(cs[i]) ==> cs[i].passed
  {
    if cs != [] {
      GatingTells(cs[1..]);
      assert forall i :: 0 < i < |cs| ==> cs[i] == cs[1..][i - 1];
      var g := Gating(cs[1..]);
      if Decides(cs[0]) {
        assert Gating(cs)[0] == cs[0] && forall k :: 0 <= k < |g| ==> Gating(cs)[k + 1] == g[k];
      }
      if exists i :: 0 <= i < |cs[1..]| && Decides(cs[1..][i]) {
        var i :| 0 <= i < |cs[1..]| && Decides(cs[1..][i]);
        assert Decides(cs[i + 1]);
      }
    }
  }
}
