# Traffic-engineering app of an SDN controller, in Dafny

This project models `TEApp` (`sdn_apps/app_te.py`), the traffic-engineering
application of a software-defined-network controller. The app keeps three
lists of objectives:

- pass-by-path: follow this exact list of switches;
- min-latency: take the path of least total `delay` between two switches;
- max-bandwidth: take the simple path whose narrowest edge (`bw`) is widest.

Each `provision_*` call turns one list into a rule list, pushes it to the
controller and records the mode. `on_notified` withdraws the rules, reloads
the topology and provisions again.

Modules, one per component:

- `Graphs` (`graphs.dfy`): the topology. It has successor lists in adjacency
  order and integer `delay`/`bw` attributes on every edge. The file defines
  paths, walks, simple paths, total delay and the bottleneck scan.
- `SimplePaths` (`simple_paths.dfy`): the simple-path enumeration used by
  max-bandwidth selection. It is a depth-first search that is proved sound and
  complete.
- `PathSelection` (`path_selection.dfy`): the three path selectors, the
  candidate loop, the bottleneck loop and `max`'s first-maximum rule.
- `MatchPatterns` (`match_patterns.dfy`): match patterns and the reverse
  pattern built for symmetric objectives.
- `SwitchIds` (`switch_ids.dfy`): switch references in objectives and Python's
  `str` on them.
- `Provisioning` (`provisioning.dfy`): the specification of
  one provisioning call. An objective becomes a plan (forward path, plus a
  reverse path when symmetric). A list of plans becomes the rules the call
  accumulates. The call stops at the first path that cannot be selected.
- `TrafficEngineering` (`te_app.dfy`): the `TEApp` class. Its fields are the
  three objective lists, `rules`, `mode`, `topo` and a log of the messages
  sent to the controller. Its methods have the loops of the source and are
  proved against `Provisioning`.

The model follows the code in these points, where it is less forgiving than it could be:

- A path that cannot be selected raises inside the loop. So one unreachable
  objective aborts the whole call. Nothing is pushed and `mode` keeps its old
  value. `rules` keeps whatever had been appended before the failure.
- `on_notified` re-provisions for the mode its caller names, not for the
  recorded `mode`. An unknown name leaves `rules` empty. A notification
  without a `mode` keyword still reloads, withdraws and clears `rules`, and
  then stops with `MissingMode` (Python's `KeyError`).
- `on_notified` withdraws the current `rules`. After an aborted call, these are
  the partly built rules, not the last list that was pushed.

## Model

| member | source | states |
|---|---|---|
| `TrafficEngineering.TEApp.constructor` | sdn_apps/app_te.py:11-16 | a new app has three empty objective lists, mode `'None'`, no rules and has sent nothing |
| `TrafficEngineering.TEApp.AddPassByPathObj` | sdn_apps/app_te.py:18-19 | appends exactly the objective to the pass-by list; the other two lists and `mode` are unchanged |
| `TrafficEngineering.TEApp.AddMinLatencyObj` | sdn_apps/app_te.py:21-22 | appends exactly the objective to the min-latency list; the other lists and `mode` are unchanged |
| `TrafficEngineering.TEApp.AddMaxBandwidthObj` | sdn_apps/app_te.py:24-25 | appends exactly the objective to the max-bandwidth list; the other lists and `mode` are unchanged |
| `TrafficEngineering.TEApp.AddRule` | sdn_apps/app_te.py:79 | adding a rule appends it to `rules` |
| `TrafficEngineering.TEApp.AddRules` | sdn_apps/app_te.py:77-79 | the loop over a compiled rule list appends all of it, in order |
| `TrafficEngineering.TEApp.SendOpenflowRules` | sdn_apps/app_te.py:98 | sending logs the current rule list once, as a push or (with `delete`) a withdrawal |
| `TrafficEngineering.TEApp.ProvisionPassByPaths` | sdn_apps/app_te.py:59-99 | `rules` becomes exactly the pass-by specification's rule list, with nothing kept from earlier calls; that list is pushed once; `mode` becomes `'pass_by'` |
| `TrafficEngineering.TEApp.AddMinLatencyObjective` | sdn_apps/app_te.py:111-140 | one loop iteration appends the objective's forward rules, then its reverse rules; a failed path selection returns that error |
| `TrafficEngineering.TEApp.ProvisionMinLatencyPaths` | sdn_apps/app_te.py:107-143 | `rules` and the returned error equal the min-latency specification; push and `mode := 'min_latency'` happen only on success; on failure nothing is sent and `mode` is unchanged |
| `TrafficEngineering.TEApp.AddMaxBandwidthObjective` | sdn_apps/app_te.py:155-213 | one loop iteration appends the objective's forward rules, then its reverse rules; a failed selection returns that error |
| `TrafficEngineering.TEApp.ProvisionMaxBandwidthPaths` | sdn_apps/app_te.py:152-216 | as for min-latency, with the widest-path selector and mode `'max_bandwidth'` |
| `TrafficEngineering.TEApp.OnNotified` | sdn_apps/app_te.py:219-231 | reloads the topology only when there is a topology file; first sends a withdrawal of the old `rules` and clears them; without a `mode` keyword it then stops with `MissingMode`; otherwise it re-provisions for exactly the mode the caller names, a failed selection coming back as `SelectionFailed`; for any other name `rules` stays empty and `mode` is unchanged |
| `PathSelection.Stringify` | sdn_apps/app_te.py:74-76 | the pass-by path has the objective's length and order, each switch stringified |
| `PathSelection.PassByReverseIsReversal` | sdn_apps/app_te.py:91-93 | the reverse pass-by path is exactly the reversal of the forward path |
| `MatchPatterns.ReversePattern` | sdn_apps/app_te.py:82-89 | the reverse pattern swaps source and destination MAC, IP and port, keeps both protocol fields and has no `in_port` |
| `MatchPatterns.ReversePatternTwice` | sdn_apps/app_te.py:128-135 | reversing twice restores every field except `in_port` |
| `Graphs.Bottleneck` | sdn_apps/app_te.py:171-175 | the scan's result never exceeds the sentinel 1000000000, nor the first edge's `bw` |
| `Graphs.BottleneckIsMinimum` | sdn_apps/app_te.py:171-177 | the bottleneck is at most the sentinel 1000000000 and at most every edge's `bw`, and it equals one of them |
| `PathSelection.PathBottleneck` | sdn_apps/app_te.py:171-175 | the `min_bw` loop computes the path's bottleneck |
| `PathSelection.FirstMaxIndex` | sdn_apps/app_te.py:179 | `max` by key gives a candidate whose key no other candidate exceeds, and the first such one |
| `PathSelection.Candidates` | sdn_apps/app_te.py:168-177 | candidate i is path i with its bottleneck |
| `PathSelection.MaxBandwidthPath` | sdn_apps/app_te.py:167-179 | the candidate loop followed by `max` returns the widest-path selection, including its errors |
| `PathSelection.WidestPath` | sdn_apps/app_te.py:196-208 | a selected path is a simple path of at least one edge from source to target |
| `PathSelection.WidestPathIsWidest` | sdn_apps/app_te.py:179 | no simple path between the endpoints has a larger bottleneck than the selected one |
| `PathSelection.WidestPathIsFirst` | sdn_apps/app_te.py:208 | the selected path is the first enumerated candidate that reaches the widest bottleneck |
| `PathSelection.WidestPathFailsIffNoCandidate` | sdn_apps/app_te.py:167-179 | selection fails exactly when no simple path of at least one edge exists; this covers source equal to target and unreachable targets |
| `SimplePaths.Extensions` | sdn_apps/app_te.py:167 | every enumerated path is a simple path to the target that extends the current prefix |
| `SimplePaths.AllSimplePaths` | sdn_apps/app_te.py:196 | an error exactly when an endpoint is not in the topology; otherwise only simple paths of at least one edge from source to target |
| `SimplePaths.ExtensionsComplete` | sdn_apps/app_te.py:167 | the search finds every simple path to the target through the current prefix |
| `SimplePaths.AllSimplePathsComplete` | sdn_apps/app_te.py:196 | every simple path of at least one edge between the endpoints is enumerated |
| `PathSelection.FirstMinIndex` | sdn_apps/app_te.py:122 | the chosen delay is no larger than any other, and it is the first such one |
| `PathSelection.ShortestPath` | sdn_apps/app_te.py:122 | a selected path is a walk over existing edges from source to target |
| `PathSelection.ShortestPathIsShortest` | sdn_apps/app_te.py:122 | whenever some walk joins the endpoints, a path is selected, and its total delay is no larger than that walk's |
| `PathSelection.ShortestPathFailsIffUnreachable` | sdn_apps/app_te.py:122 | shortest-path selection fails exactly when the target cannot be reached from the source |
| `Graphs.Shortcut` | sdn_apps/app_te.py:122 | any walk yields a simple path with the same endpoints, made of the walk's nodes, with no larger delay |
| `SwitchIds.DecimalRoundTrip` | sdn_apps/app_te.py:76 | the decimal rendering of a switch number reads back as that number |
| `SwitchIds.StrNumInjective` | sdn_apps/app_te.py:122 | distinct switch numbers get distinct node names |
| `Provisioning.PassByPlan` | sdn_apps/app_te.py:74-93 | a pass-by objective always has both paths, and its reverse path is its forward path backwards |
| `Provisioning.MinLatencyPlan` | sdn_apps/app_te.py:122-137 | the forward (reverse) shortest path exists exactly when the destination (source) is reachable, and is a walk between the endpoints in that direction; the reverse is a fresh selection with swapped endpoints |
| `Provisioning.MaxBandwidthPlan` | sdn_apps/app_te.py:167-208 | the forward (reverse) widest path exists exactly when a simple path of at least one edge joins the endpoints in that direction, and is such a path; the reverse is a fresh selection with swapped endpoints |
| `Provisioning.Provision` | sdn_apps/app_te.py:110-140 | the rule list the loop accumulates; an aborted call reports the error of one of its objectives |
| `Provisioning.ObjectiveRules` | sdn_apps/app_te.py:77-96 | an objective contributes without error exactly when its forward path can be selected, and also its reverse path when it is symmetric |
| `Provisioning.ProvisionAppend` | sdn_apps/app_te.py:62-96 | provisioning two lists in turn concatenates their rules; an abort in the first list ends the call |
| `Provisioning.ProvisionSucceedsIff` | sdn_apps/app_te.py:110-142 | a call completes exactly when every objective succeeds |
| `Provisioning.ProvisionRulesInOrder` | sdn_apps/app_te.py:60-97 | the rules of a completed call are the earlier objectives' rules, then objective k's forward and reverse rules, then the later objectives' rules |
| `Provisioning.ProvisionStopsAtFirstFailure` | sdn_apps/app_te.py:122-140 | an aborted call leaves the earlier objectives' rules and the failing objective's forward rules; it never includes rules of later objectives |
| `Provisioning.PassByNeverFails` | sdn_apps/app_te.py:59-99 | pass-by provisioning always completes |
| `Provisioning.MinLatencySucceedsIff` | sdn_apps/app_te.py:107-143 | min-latency provisioning completes exactly when each objective's target is reachable; symmetric objectives also need the reverse direction |
| `Provisioning.MaxBandwidthSucceedsIff` | sdn_apps/app_te.py:152-216 | max-bandwidth provisioning completes exactly when every needed direction has a simple path of at least one edge |

## Left out

- `from_json` / `to_json` (sdn_apps/app_te.py:32-52): JSON files and serialisation. Objectives are typed datatypes, so the `KeyError` of a missing dictionary key is not modelled.
- Topology reload: `nx.read_graphml` is file parsing. `OnNotified` receives the parsed graph as a parameter.
- `calculate_rules_for_path` is an uninterpreted function of the topology, path and pattern. Every call passes `include_in_port=True`, so that flag is not a parameter.
- `add_rule` and `send_openflow_rules` belong to the base class, which is not part of this model. They are modelled as appending a rule and as logging a push or withdrawal message.
- The base class constructor is not part of this model. The model assumes it loads the topology and starts with an empty rule list.
- `print` calls are left out.
- Concurrency is left out: the source is single-threaded.
- Weights are naturals: float `delay`/`bw` values are not modelled. Every edge must carry both attributes (`Graphs.WellFormed`), so networkx's default delay of 1 for a missing attribute is not modelled. The `KeyError` on a missing `bw` is not modelled either.
- Multigraph topologies are not modelled.
- Switch references are integers or strings. `str` of other JSON values is not modelled. `symmetric` is a boolean: the source tests `== True`, so the JSON values 1 and 1.0 would also count as symmetric while other truthy values such as 2 or "yes" would not; non-boolean values are not modelled.
- PathSelection.ShortestPath: networkx computes it with Dijkstra. The model returns the first minimum-delay simple path in search order. This path has the same least total delay, but it may be a different one of several equal-delay paths.
- SimplePaths.AllSimplePaths: a target that is not a node is reported as an error, as networkx before 2.4 does. From networkx 2.4 on, such a target string is read as the set of its characters, each a possible target. With those versions the source can then complete with a path to a different switch: for a switch "13" that is not in the topology, paths to the nodes "1" and "3" are enumerated. The model does not capture this, and neither do `PathSelection.WidestPath`, `PathSelection.MaxBandwidthPath`, `PathSelection.WidestPathFailsIffNoCandidate`, `Provisioning.MaxBandwidthPlan` and `Provisioning.MaxBandwidthSucceedsIff`, which build on it.
- Exceptions become a returned `Option<PathError>` (`Option<NotifyError>` for `OnNotified`): the method stops where Python would raise.
- `sdn_apps/app_fw.py` is not part of this model.
