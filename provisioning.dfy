/**
 * What one provisioning call computes: per objective a plan (forward path,
 * and reverse path when symmetric), and for a list of plans the rules the
 * call accumulates, stopping at the first path that cannot be selected.
 */
module Provisioning {
  import opened Wrappers
  import opened Graphs
  import opened SwitchIds
  import opened MatchPatterns
  import opened PathSelection

  datatype PassByPathObjective =
    PassByPathObjective(matchPattern: MatchPattern, switches: seq<SwitchRef>, symmetric: bool)

  datatype MinLatencyObjective =
    MinLatencyObjective(matchPattern: MatchPattern, srcSwitch: SwitchRef, dstSwitch: SwitchRef, symmetric: bool)

  datatype MaxBandwidthObjective =
    MaxBandwidthObjective(matchPattern: MatchPattern, srcSwitch: SwitchRef, dstSwitch: SwitchRef, symmetric: bool)

  datatype ActionType = Forward | Drop
  datatype Action = Action(actionType: ActionType, outPort: Option<int>)
  datatype Rule = Rule(switchId: Node, matchPattern: MatchPattern, action: Action)

  /** `calculate_rules_for_path(path, pattern, include_in_port=True)` against a topology. */
  type RuleCompiler = (Graph, Path, MatchPattern) -> seq<Rule>

  /** The paths one objective asks for; `reverse` matters only when `symmetric`. */
  datatype Plan = Plan(
    forward: Result<Path, PathError>,
    pattern: MatchPattern,
    symmetric: bool,
    reverse: Result<Path, PathError>)

  /** Rules accumulated so far, and the error that aborted the call, if any. */
  datatype Outcome = Outcome(rules: seq<Rule>, error: Option<PathError>)

  predicate Succeeds(p: Plan) {
    p.forward.Ok? && (p.symmetric ==> p.reverse.Ok?)
  }

  /** Forward rules, then reverse rules; a failing reverse path keeps the forward rules already added. */
  function ObjectiveRules(g: Graph, compile: RuleCompiler, p: Plan): (o: Outcome)
    ensures o.error.None? <==> Succeeds(p)
  {
    match p.forward
    case Err(e) => Outcome([], Some(e))
    case Ok(fwd) =>
      var rules := compile(g, fwd, p.pattern);
      if !p.symmetric then Outcome(rules, None)
      else
        match p.reverse
        case Err(e) => Outcome(rules, Some(e))
        case Ok(rev) => Outcome(rules + compile(g, rev, ReversePattern(p.pattern)), None)
  }

  /** Continue an outcome with the next one, unless it was already aborted. */
  function Then(first: Outcome, next: Outcome): Outcome {
    if first.error.Some? then first else Outcome(first.rules + next.rules, next.error)
  }

  /**
   * The rule list after running over the plans in order from an empty list.
   * An aborted call reports the error of one of its objectives.
   */
  function Provision(g: Graph, compile: RuleCompiler, plans: seq<Plan>): (r: Outcome)
    ensures r.error.Some? ==> exists i :: 0 <= i < |plans| && ObjectiveRules(g, compile, plans[i]).error == r.error
    decreases |plans|
  {
    if plans == [] then Outcome([], None)
    else Then(Provision(g, compile, plans[..|plans| - 1]), ObjectiveRules(g, compile, plans[|plans| - 1]))
  }

  lemma ThenAssociative(a: Outcome, b: Outcome, c: Outcome)
    ensures Then(Then(a, b), c) == Then(a, Then(b, c))
  {
    if a.error.None? && b.error.None? {
      assert a.rules + b.rules + c.rules == a.rules + (b.rules + c.rules);
    }
  }

  /** Provisioning two lists of objectives one after the other concatenates their rules. */
  lemma {:induction false} ProvisionAppend(g: Graph, compile: RuleCompiler, a: seq<Plan>, b: seq<Plan>)
    ensures Provision(g, compile, a + b) == Then(Provision(g, compile, a), Provision(g, compile, b))
    decreases |b|
  {
    if b == [] {
      assert a + b == a;
      assert Provision(g, compile, a).rules + [] == Provision(g, compile, a).rules;
    } else {
      var init := b[..|b| - 1];
      assert (a + b)[..|a + b| - 1] == a + init;
      ProvisionAppend(g, compile, a, init);
      ThenAssociative(Provision(g, compile, a), Provision(g, compile, init), ObjectiveRules(g, compile, b[|b| - 1]));
    }
  }

  /** A call completes exactly when every objective's paths can be selected. */
  lemma {:induction false} ProvisionSucceedsIff(g: Graph, compile: RuleCompiler, plans: seq<Plan>)
    ensures Provision(g, compile, plans).error.None? <==> forall i :: 0 <= i < |plans| ==> Succeeds(plans[i])
    decreases |plans|
  {
    if plans != [] {
      var init := plans[..|plans| - 1];
      ProvisionSucceedsIff(g, compile, init);
      assert forall i :: 0 <= i < |init| ==> init[i] == plans[i];
    }
  }

  /**
   * The rules of a completed call are those of the objectives before k, then
   * objective k's forward and reverse rules, then those of the objectives after it.
   */
  lemma ProvisionRulesInOrder(g: Graph, compile: RuleCompiler, plans: seq<Plan>, k: nat)
    requires k < |plans|
    requires Provision(g, compile, plans).error.None?
    ensures Provision(g, compile, plans).rules
            == Provision(g, compile, plans[..k]).rules
               + ObjectiveRules(g, compile, plans[k]).rules
               + Provision(g, compile, plans[k + 1..]).rules
  {
    assert plans == plans[..k] + [plans[k]] + plans[k + 1..];
    ProvisionAppend(g, compile, plans[..k] + [plans[k]], plans[k + 1..]);
    ProvisionAppend(g, compile, plans[..k], [plans[k]]);
    assert Provision(g, compile, [plans[k]]) == Then(Outcome([], None), ObjectiveRules(g, compile, plans[k]));
  }

  /**
   * A call aborts at its first failing objective: the rules left behind are
   * those of the objectives before it plus any forward rules of the failing one.
   */
  lemma ProvisionStopsAtFirstFailure(g: Graph, compile: RuleCompiler, plans: seq<Plan>, k: nat)
    requires k < |plans|
    requires Provision(g, compile, plans[..k]).error.None?
    requires !Succeeds(plans[k])
    ensures Provision(g, compile, plans)
            == Outcome(Provision(g, compile, plans[..k]).rules + ObjectiveRules(g, compile, plans[k]).rules,
                       ObjectiveRules(g, compile, plans[k]).error)
    ensures Provision(g, compile, plans).error.Some?
  {
    assert plans == plans[..k + 1] + plans[k + 1..];
    assert plans[..k + 1][..k] == plans[..k];
    ProvisionAppend(g, compile, plans[..k + 1], plans[k + 1..]);
  }

  // ------------------------------------------------------ plans per mode

  /** A pass-by objective names its path outright; the reverse path is that path backwards. */
  function PassByPlan(o: PassByPathObjective): (r: Plan)
    ensures r.forward.Ok? && r.reverse.Ok?
    ensures r.reverse.value == Reverse(r.forward.value)
    ensures r.pattern == o.matchPattern && r.symmetric == o.symmetric
  {
    PassByReverseIsReversal(o.switches);
    Plan(Ok(StrPath(o.switches)), o.matchPattern, o.symmetric, Ok(StrPath(Reverse(o.switches))))
  }

  /**
   * A min-latency objective asks for a shortest path each way; the reverse one
   * is a fresh selection from the destination back to the source.
   */
  function MinLatencyPlan(g: Graph, o: MinLatencyObjective): (r: Plan)
    requires WellFormed(g)
    ensures var src, dst := Str(o.srcSwitch), Str(o.dstSwitch);
            && (r.forward.Ok? <==> Reachable(g, src, dst))
            && (r.reverse.Ok? <==> Reachable(g, dst, src))
            && (r.forward.Ok? ==> Walk(g, r.forward.value, src, dst))
            && (r.reverse.Ok? ==> Walk(g, r.reverse.value, dst, src))
    ensures r.pattern == o.matchPattern && r.symmetric == o.symmetric
  {
    var src, dst := Str(o.srcSwitch), Str(o.dstSwitch);
    ShortestPathFailsIffUnreachable(g, src, dst);
    ShortestPathFailsIffUnreachable(g, dst, src);
    Plan(ShortestPath(g, src, dst), o.matchPattern, o.symmetric, ShortestPath(g, dst, src))
  }

  /**
   * A max-bandwidth objective asks for a widest path each way; the reverse one
   * is a fresh selection from the destination back to the source.
   */
  function MaxBandwidthPlan(g: Graph, o: MaxBandwidthObjective): (r: Plan)
    requires WellFormed(g)
    ensures var src, dst := Str(o.srcSwitch), Str(o.dstSwitch);
            && (r.forward.Ok? <==> HasCandidate(g, src, dst))
            && (r.reverse.Ok? <==> HasCandidate(g, dst, src))
            && (r.forward.Ok? ==> SimplePath(g, r.forward.value, src, dst))
            && (r.reverse.Ok? ==> SimplePath(g, r.reverse.value, dst, src))
    ensures r.pattern == o.matchPattern && r.symmetric == o.symmetric
  {
    var src, dst := Str(o.srcSwitch), Str(o.dstSwitch);
    WidestPathFailsIffNoCandidate(g, src, dst);
    WidestPathFailsIffNoCandidate(g, dst, src);
    Plan(WidestPath(g, src, dst), o.matchPattern, o.symmetric, WidestPath(g, dst, src))
  }

  function PassByPlans(objs: seq<PassByPathObjective>): (r: seq<Plan>)
    ensures |r| == |objs|
  {
    seq(|objs|, i requires 0 <= i < |objs| => PassByPlan(objs[i]))
  }

  function MinLatencyPlans(g: Graph, objs: seq<MinLatencyObjective>): (r: seq<Plan>)
    requires WellFormed(g)
    ensures |r| == |objs|
  {
    seq(|objs|, i requires 0 <= i < |objs| => MinLatencyPlan(g, objs[i]))
  }

  function MaxBandwidthPlans(g: Graph, objs: seq<MaxBandwidthObjective>): (r: seq<Plan>)
    requires WellFormed(g)
    ensures |r| == |objs|
  {
    seq(|objs|, i requires 0 <= i < |objs| => MaxBandwidthPlan(g, objs[i]))
  }

  /** Pass-by provisioning never aborts: no path is computed. */
  lemma PassByNeverFails(g: Graph, compile: RuleCompiler, objs: seq<PassByPathObjective>)
    ensures Provision(g, compile, PassByPlans(objs)).error.None?
  {
    ProvisionSucceedsIff(g, compile, PassByPlans(objs));
  }

  ghost predicate Reachable(g: Graph, src: Node, dst: Node) {
    exists w :: Walk(g, w, src, dst)
  }

  /** Min-latency provisioning completes iff every needed direction of every objective is reachable. */
  lemma MinLatencySucceedsIff(g: Graph, compile: RuleCompiler, objs: seq<MinLatencyObjective>)
    requires WellFormed(g)
    ensures Provision(g, compile, MinLatencyPlans(g, objs)).error.None?
            <==> forall i :: 0 <= i < |objs| ==>
                   var src, dst := Str(objs[i].srcSwitch), Str(objs[i].dstSwitch);
                   Reachable(g, src, dst) && (objs[i].symmetric ==> Reachable(g, dst, src))
  {
    var plans := MinLatencyPlans(g, objs);
    ProvisionSucceedsIff(g, compile, plans);
    forall i | 0 <= i < |objs|
      ensures Succeeds(plans[i]) <==>
                var src, dst := Str(objs[i].srcSwitch), Str(objs[i].dstSwitch);
                Reachable(g, src, dst) && (objs[i].symmetric ==> Reachable(g, dst, src))
    {
      assert plans[i] == MinLatencyPlan(g, objs[i]);
    }
  }

  ghost predicate HasCandidate(g: Graph, src: Node, dst: Node) {
    exists q :: SimplePath(g, q, src, dst) && |q| >= 2
  }

  /** Max-bandwidth provisioning completes iff every needed direction has a simple path of at least one edge. */
  lemma MaxBandwidthSucceedsIff(g: Graph, compile: RuleCompiler, objs: seq<MaxBandwidthObjective>)
    requires WellFormed(g)
    ensures Provision(g, compile, MaxBandwidthPlans(g, objs)).error.None?
            <==> forall i :: 0 <= i < |objs| ==>
                   var src, dst := Str(objs[i].srcSwitch), Str(objs[i].dstSwitch);
                   HasCandidate(g, src, dst) && (objs[i].symmetric ==> HasCandidate(g, dst, src))
  {
    var plans := MaxBandwidthPlans(g, objs);
    ProvisionSucceedsIff(g, compile, plans);
    forall i | 0 <= i < |objs|
      ensures Succeeds(plans[i]) <==>
                var src, dst := Str(objs[i].srcSwitch), Str(objs[i].dstSwitch);
                HasCandidate(g, src, dst) && (objs[i].symmetric ==> HasCandidate(g, dst, src))
    {
      assert plans[i] == MaxBandwidthPlan(g, objs[i]);
    }
  }
}
