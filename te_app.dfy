/**
 * The traffic-engineering app: three objective lists, the rule list being
 * built, the mode that produced the last pushed rule list, and the messages
 * sent to the controller.
 */
module TrafficEngineering {
  import opened Wrappers
  import opened Graphs
  import opened SwitchIds
  import opened MatchPatterns
  import opened PathSelection
  import opened Provisioning

  const NoMode := "None"
  const PassByMode := "pass_by"
  const MinLatencyMode := "min_latency"
  const MaxBandwidthMode := "max_bandwidth"

  predicate IsModeName(m: string) {
    m == NoMode || m == PassByMode || m == MinLatencyMode || m == MaxBandwidthMode
  }

  /** A rule list sent to the switches, to install (`Push`) or to delete (`Withdraw`). */
  datatype ControllerMessage = Push(rules: seq<Rule>) | Withdraw(rules: seq<Rule>)

  /** Why `on_notified` stopped: no `mode` keyword, or a path that could not be selected. */
  datatype NotifyError = MissingMode | SelectionFailed(cause: PathError)

  function SelectionError(e: Option<PathError>): (r: Option<NotifyError>)
    ensures r.None? <==> e.None?
    ensures r.Some? ==> r.value == SelectionFailed(e.value)
  {
    if e.None? then None else Some(SelectionFailed(e.value))
  }

  lemma AppendAssociative<T>(a: seq<T>, b: seq<T>, c: seq<T>)
    ensures a + b + c == a + (b + c)
  {
  }

  class TEApp {
    var passByPaths: seq<PassByPathObjective>
    var minLatency: seq<MinLatencyObjective>
    var maxBandwidth: seq<MaxBandwidthObjective>
    var mode: string
    var rules: seq<Rule>
    var topo: Graph
    /** Everything sent to the controller so far, oldest first. */
    var channel: seq<ControllerMessage>
    const topoFile: Option<string>
    /** The rule calculation of the base app, for a path and a pattern on a topology. */
    const compile: RuleCompiler

    ghost predicate Valid()
      reads this
    {
      WellFormed(topo) && IsModeName(mode)
    }

    /** A new app: no objectives, no mode, no rules, nothing sent. */
    constructor (topoFile: Option<string>, topo: Graph, compile: RuleCompiler)
      requires WellFormed(topo)
      ensures Valid()
      ensures passByPaths == [] && minLatency == [] && maxBandwidth == []
      ensures mode == NoMode && rules == [] && channel == []
      ensures this.topo == topo && this.topoFile == topoFile && this.compile == compile
    {
      this.topoFile := topoFile;
      this.topo := topo;
      this.compile := compile;
      passByPaths, minLatency, maxBandwidth := [], [], [];
      mode := NoMode;
      rules := [];
      channel := [];
    }

    method AddPassByPathObj(o: PassByPathObjective)
      modifies this`passByPaths
      ensures passByPaths == old(passByPaths) + [o]
      ensures minLatency == old(minLatency) && maxBandwidth == old(maxBandwidth) && mode == old(mode)
    {
      passByPaths := passByPaths + [o];
    }

    method AddMinLatencyObj(o: MinLatencyObjective)
      modifies this`minLatency
      ensures minLatency == old(minLatency) + [o]
      ensures passByPaths == old(passByPaths) && maxBandwidth == old(maxBandwidth) && mode == old(mode)
    {
      minLatency := minLatency + [o];
    }

    method AddMaxBandwidthObj(o: MaxBandwidthObjective)
      modifies this`maxBandwidth
      ensures maxBandwidth == old(maxBandwidth) + [o]
      ensures passByPaths == old(passByPaths) && minLatency == old(minLatency) && mode == old(mode)
    {
      maxBandwidth := maxBandwidth + [o];
    }

    /** The base app's `add_rule`: append one rule. */
    method AddRule(r: Rule)
      modifies this`rules
      ensures rules == old(rules) + [r]
    {
      rules := rules + [r];
    }

    /** `for r in rules: self.add_rule(r)`. */
    method AddRules(rs: seq<Rule>)
      modifies this`rules
      ensures rules == old(rules) + rs
    {
      for j := 0 to |rs|
        invariant rules == old(rules) + rs[..j]
      {
        AddRule(rs[j]);
        assert rs[..j + 1] == rs[..j] + [rs[j]];
      }
      assert rs[..|rs|] == rs;
    }

    /** The base app's `send_openflow_rules`: send the current rule list. */
    method SendOpenflowRules(delete: bool)
      modifies this`channel
      ensures channel == old(channel) + [if delete then Withdraw(rules) else Push(rules)]
    {
      channel := channel + [if delete then Withdraw(rules) else Push(rules)];
    }

    /** `provision_pass_by_paths`: rules for every pass-by objective, pushed, mode `pass_by`. */
    method ProvisionPassByPaths()
      requires Valid()
      modifies this`rules, this`mode, this`channel
      ensures Valid()
      ensures rules == Provision(topo, compile, PassByPlans(passByPaths)).rules
      ensures mode == PassByMode
      ensures channel == old(channel) + [Push(rules)]
    {
      rules := [];
      ghost var plans := PassByPlans(passByPaths);
      for i := 0 to |passByPaths|
        invariant Provision(topo, compile, plans[..i]) == Outcome(rules, None)
        invariant mode == old(mode) && channel == old(channel)
      {
        var obj := passByPaths[i];
        var pattern := obj.matchPattern;
        var path := Stringify(obj.switches);
        assert path == StrPath(obj.switches);
        AddRules(compile(topo, path, pattern));
        if obj.symmetric {
          var reversePattern := ReversePattern(obj.matchPattern);
          var reversePath := Stringify(Reverse(obj.switches));
          assert reversePath == StrPath(Reverse(obj.switches));
          AddRules(compile(topo, reversePath, reversePattern));
        }
        assert plans[..i + 1][..i] == plans[..i];
      }
      assert plans[..|plans|] == plans;
      SendOpenflowRules(false);
      mode := PassByMode;
    }

    /** One iteration of the min-latency loop: forward rules, then reverse rules when symmetric. */
    method AddMinLatencyObjective(obj: MinLatencyObjective) returns (err: Option<PathError>)
      requires WellFormed(topo)
      modifies this`rules
      ensures Outcome(rules, err) == Then(Outcome(old(rules), None), ObjectiveRules(topo, compile, MinLatencyPlan(topo, obj)))
    {
      var pattern := obj.matchPattern;
      var path := ShortestPath(topo, Str(obj.srcSwitch), Str(obj.dstSwitch));
      if path.Err? {
        return Some(path.error);
      }
      AddRules(compile(topo, path.value, pattern));
      if obj.symmetric {
        ghost var forwardRules := compile(topo, path.value, pattern);
        var reversePattern := ReversePattern(obj.matchPattern);
        var reversePath := ShortestPath(topo, Str(obj.dstSwitch), Str(obj.srcSwitch));
        if reversePath.Err? {
          return Some(reversePath.error);
        }
        AddRules(compile(topo, reversePath.value, reversePattern));
        AppendAssociative(old(rules), forwardRules, compile(topo, reversePath.value, reversePattern));
      }
      return None;
    }

    /**
     * `provision_min_latency_paths`. A path that cannot be selected aborts
     * the call: the rules built so far stay, nothing is pushed, the mode is kept.
     */
    method ProvisionMinLatencyPaths() returns (err: Option<PathError>)
      requires Valid()
      modifies this`rules, this`mode, this`channel
      ensures Valid()
      ensures Outcome(rules, err) == Provision(topo, compile, MinLatencyPlans(topo, minLatency))
      ensures err.None? ==> mode == MinLatencyMode && channel == old(channel) + [Push(rules)]
      ensures err.Some? ==> mode == old(mode) && channel == old(channel)
    {
      rules := [];
      ghost var plans := MinLatencyPlans(topo, minLatency);
      for i := 0 to |minLatency|
        invariant Provision(topo, compile, plans[..i]) == Outcome(rules, None)
        invariant mode == old(mode) && channel == old(channel)
      {
        ghost var step := ObjectiveRules(topo, compile, plans[i]);
        assert plans[i] == MinLatencyPlan(topo, minLatency[i]);
        ghost var before := rules;
        err := AddMinLatencyObjective(minLatency[i]);
        assert rules == before + step.rules && err == step.error;
        if err.Some? {
          ProvisionStopsAtFirstFailure(topo, compile, plans, i);
          return;
        }
        assert plans[..i + 1][..i] == plans[..i];
        assert Provision(topo, compile, plans[..i + 1]) == Then(Outcome(before, None), step);
      }
      assert plans[..|plans|] == plans;
      SendOpenflowRules(false);
      mode := MinLatencyMode;
      err := None;
    }

    /** One iteration of the max-bandwidth loop: forward rules, then reverse rules when symmetric. */
    method AddMaxBandwidthObjective(obj: MaxBandwidthObjective) returns (err: Option<PathError>)
      requires WellFormed(topo)
      modifies this`rules
      ensures Outcome(rules, err) == Then(Outcome(old(rules), None), ObjectiveRules(topo, compile, MaxBandwidthPlan(topo, obj)))
    {
      ghost var plan := MaxBandwidthPlan(topo, obj);
      var pattern := obj.matchPattern;
      var path := MaxBandwidthPath(topo, Str(obj.srcSwitch), Str(obj.dstSwitch));
      assert path == plan.forward;
      if path.Err? {
        return Some(path.error);
      }
      AddRules(compile(topo, path.value, pattern));
      if obj.symmetric {
        ghost var forwardRules := compile(topo, path.value, pattern);
        var reversePattern := ReversePattern(obj.matchPattern);
        var reversePath := MaxBandwidthPath(topo, Str(obj.dstSwitch), Str(obj.srcSwitch));
        assert reversePath == plan.reverse;
        if reversePath.Err? {
          return Some(reversePath.error);
        }
        AddRules(compile(topo, reversePath.value, reversePattern));
        AppendAssociative(old(rules), forwardRules, compile(topo, reversePath.value, reversePattern));
      }
      return None;
    }

    /**
     * `provision_max_bandwidth_paths`. An endpoint outside the topology or an
     * empty candidate list aborts the call as in the min-latency case.
     */
    method ProvisionMaxBandwidthPaths() returns (err: Option<PathError>)
      requires Valid()
      modifies this`rules, this`mode, this`channel
      ensures Valid()
      ensures Outcome(rules, err) == Provision(topo, compile, MaxBandwidthPlans(topo, maxBandwidth))
      ensures err.None? ==> mode == MaxBandwidthMode && channel == old(channel) + [Push(rules)]
      ensures err.Some? ==> mode == old(mode) && channel == old(channel)
    {
      rules := [];
      ghost var plans := MaxBandwidthPlans(topo, maxBandwidth);
      for i := 0 to |maxBandwidth|
        invariant Provision(topo, compile, plans[..i]) == Outcome(rules, None)
        invariant mode == old(mode) && channel == old(channel)
      {
        ghost var step := ObjectiveRules(topo, compile, plans[i]);
        assert plans[i] == MaxBandwidthPlan(topo, maxBandwidth[i]);
        ghost var before := rules;
        err := AddMaxBandwidthObjective(maxBandwidth[i]);
        assert rules == before + step.rules && err == step.error;
        if err.Some? {
          ProvisionStopsAtFirstFailure(topo, compile, plans, i);
          return;
        }
        assert plans[..i + 1][..i] == plans[..i];
        assert Provision(topo, compile, plans[..i + 1]) == Then(Outcome(before, None), step);
      }
      assert plans[..|plans|] == plans;
      SendOpenflowRules(false);
      mode := MaxBandwidthMode;
      err := None;
    }

    /**
     * `on_notified(mode=...)`: reload the topology when the app has a topology
     * file, withdraw the current rule list, clear it, and provision again in
     * the mode the caller names. A notification without a mode stops with
     * `MissingMode` after the withdrawal and the clearing.
     */
    method OnNotified(modeArg: Option<string>, reloaded: Graph) returns (err: Option<NotifyError>)
      requires Valid() && WellFormed(reloaded)
      modifies this`topo, this`rules, this`mode, this`channel
      ensures Valid()
      ensures topo == if topoFile.Some? && topoFile.value != "" then reloaded else old(topo)
      ensures |channel| > |old(channel)| && channel[..|old(channel)| + 1] == old(channel) + [Withdraw(old(rules))]
      ensures modeArg.None? ==>
                err == Some(MissingMode) && rules == [] && mode == old(mode)
                && channel == old(channel) + [Withdraw(old(rules))]
      ensures modeArg == Some(PassByMode) ==>
                && err.None?
                && rules == Provision(topo, compile, PassByPlans(passByPaths)).rules
                && mode == PassByMode
                && channel == old(channel) + [Withdraw(old(rules))] + [Push(rules)]
      ensures modeArg == Some(MinLatencyMode) ==>
                var o := Provision(topo, compile, MinLatencyPlans(topo, minLatency));
                && rules == o.rules && err == SelectionError(o.error)
                && mode == (if err.None? then MinLatencyMode else old(mode))
                && channel == old(channel) + [Withdraw(old(rules))] + (if err.None? then [Push(rules)] else [])
      ensures modeArg == Some(MaxBandwidthMode) ==>
                var o := Provision(topo, compile, MaxBandwidthPlans(topo, maxBandwidth));
                && rules == o.rules && err == SelectionError(o.error)
                && mode == (if err.None? then MaxBandwidthMode else old(mode))
                && channel == old(channel) + [Withdraw(old(rules))] + (if err.None? then [Push(rules)] else [])
      ensures modeArg.Some? && !(modeArg.value in {PassByMode, MinLatencyMode, MaxBandwidthMode}) ==>
                err.None? && rules == [] && mode == old(mode) && channel == old(channel) + [Withdraw(old(rules))]
    {
      if topoFile.Some? && topoFile.value != "" {
        topo := reloaded;
      }
      SendOpenflowRules(true);
      rules := [];
      if modeArg.None? {
        return Some(MissingMode);
      }
      var m := modeArg.value;
      if m == PassByMode {
        ProvisionPassByPaths();
        err := None;
      } else if m == MinLatencyMode {
        var e := ProvisionMinLatencyPaths();
        err := SelectionError(e);
      } else if m == MaxBandwidthMode {
        var e := ProvisionMaxBandwidthPaths();
        err := SelectionError(e);
      } else {
        err := None;
      }
    }
  }
}
