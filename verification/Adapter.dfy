/**
 The adapter from a plan, whose steps list their predecessors, to a workflow
 definition, whose nodes list their successors behind a synthetic entry node.
 */
module Adapter {
  import opened Common
  import opened Projections
  import opened Sorting

  datatype NodeType =
    | Trigger | ValidateEvent | RuleRouter | RagRetrieve | MemoryContext | AgentTask
    | EvidenceEvaluate | RiskGate | HumanApproval | ActionNode | Close

  datatype PlanStep = PlanStep(
    stepId: string, stepType: NodeType, objective: string, dependsOn: seq<string>, maxRetries: int, timeoutSeconds: int,
    agentType: string, actionType: string, metadata: Fields)

  datatype NodeConfig = NodeConfig(
    nodeId: string, nodeType: NodeType, nodeLabel: string, description: string, config: Fields, nextNodes: seq<string>,
    condition: Option<string>, timeoutSeconds: int, maxAttempts: int, retryDelaySeconds: int)

  datatype Error = MissingDependency(stepId: string)

  function MaxAttempts(s: PlanStep): int {
    if s.maxRetries + 1 >= 1 then s.maxRetries + 1 else 1
  }

  function Ids(steps: seq<PlanStep>): seq<string> {
    seq(|steps|, i requires 0 <= i < |steps| => steps[i].stepId)
  }

  predicate Closed(steps: seq<PlanStep>) {
    forall s, d | s in steps && d in s.dependsOn :: d in Ids(steps)
  }

  /** Some step depends on a step that the plan does not have. */
  predicate MissesDependency(steps: seq<PlanStep>, id: string) {
    id !in Ids(steps) && exists s | s in steps :: id in s.dependsOn
  }

  /** One entry per time a step names the dependency. */
  function Occurrences(id: string, a: string, deps: seq<string>): seq<string> {
    if deps == [] then [] else Occurrences(id, a, Init(deps)) + (if Last(deps) == a then [id] else [])
  }

  function Successors(steps: seq<PlanStep>, a: string): seq<string> {
    if steps == [] then []
    else Successors(Init(steps), a) + Occurrences(Last(steps).stepId, a, Last(steps).dependsOn)
  }

  /** The position of a step; the last one if an id is used twice. */
  function StepOrder(steps: seq<PlanStep>): map<string, int> {
    if steps == [] then map[] else StepOrder(Init(steps))[Last(steps).stepId := |steps| - 1]
  }

  function OrderOf(order: map<string, int>, id: string): int {
    if id in order then order[id] else 0
  }

  function OrderLeq(order: map<string, int>): (string, string) -> bool {
    (a, b) => OrderOf(order, a) <= OrderOf(order, b)
  }

  function Entries(steps: seq<PlanStep>): seq<string> {
    if steps == [] then []
    else Entries(Init(steps)) + (if Last(steps).dependsOn == [] then [Last(steps).stepId] else [])
  }

  const TRIGGER_LABEL := "\U{89E6}\U{53D1}\U{5165}\U{53E3}"
  const TRIGGER_DESCRIPTION := "\U{63A5}\U{6536}\U{4E8B}\U{4EF6}\U{FF0C}\U{8BBE}\U{7F6E} current_event"
  const QUERY_TEMPLATE := "{event_type} {road_name} \U{5904}\U{7F6E}\U{9884}\U{6848}"

  function Metadata(s: PlanStep, key: string, default: Json): Json {
    if key in s.metadata then s.metadata[key] else default
  }

  /** The agents of all agent steps that name one, in plan order. */
  function AgentTargets(steps: seq<PlanStep>): seq<Json> {
    if steps == [] then []
    else
      AgentTargets(Init(steps))
      + (if Last(steps).stepType == AgentTask && Last(steps).agentType != "" then [JStr(Last(steps).agentType)] else [])
  }

  /** The float nearest to 0.3. */
  const THREE_TENTHS: Float := FloatForm(5404319552844595, -54)

  function ConfigFor(s: PlanStep, targets: seq<Json>): Fields {
    match s.stepType
    case ValidateEvent => map["required_fields" := JList([JStr("eventType"), JStr("roadName")])]
    case RagRetrieve => map["top_k" := JInt(5), "query_template" := JStr(QUERY_TEMPLATE)]
    case MemoryContext => map["agent_targets" := JList(targets)]
    case AgentTask => map["agent_name" := JStr(s.agentType)]
    case EvidenceEvaluate => map["min_confidence" := JFloat(THREE_TENTHS), "min_evidence_count" := JInt(1)]
    case HumanApproval => map[
      "action_types" := JList(if s.actionType != "" then [JStr(s.actionType)] else []),
      "target_action_step_id" := Metadata(s, "targetActionStepId", JStr("")),
      "approval_identity_version" := Metadata(s, "approvalIdentityVersion", JInt(1))]
    case ActionNode => map[
      "action_type" := JStr(s.actionType),
      "action_params" := if Truthy(Metadata(s, "paramsTemplate", JNull)) then s.metadata["paramsTemplate"] else JObj(map[]),
      "approval_identity_version" := Metadata(s, "approvalIdentityVersion", JInt(1))]
    case _ => map[]
  }

  function TriggerOf(entries: seq<string>): NodeConfig {
    NodeConfig("trigger", Trigger, TRIGGER_LABEL, TRIGGER_DESCRIPTION, map["initial_event" := JObj(map[])], entries, None, 60, 1, 5)
  }

  function TriggerNode(steps: seq<PlanStep>): NodeConfig {
    TriggerOf(Sort(OrderLeq(StepOrder(steps)), Entries(steps)))
  }

  function NodeOf(s: PlanStep, nexts: seq<string>, targets: seq<Json>): NodeConfig {
    NodeConfig(s.stepId, s.stepType, if s.objective != "" then s.objective else s.stepId, s.objective, ConfigFor(s, targets), nexts,
               if s.stepType == RiskGate then Some("requires_approval") else None, s.timeoutSeconds, MaxAttempts(s), 5)
  }

  function StepNode(steps: seq<PlanStep>, s: PlanStep): NodeConfig {
    NodeOf(s, Sort(OrderLeq(StepOrder(steps)), Successors(steps, s.stepId)), AgentTargets(steps))
  }

  function DefinitionNodes(steps: seq<PlanStep>): seq<NodeConfig> {
    [TriggerNode(steps)] + seq(|steps|, i requires 0 <= i < |steps| => StepNode(steps, steps[i]))
  }

  method PlanToDefinition(steps: seq<PlanStep>) returns (r: Result<seq<NodeConfig>, Error>)
    ensures r.Ok? <==> Closed(steps)
    ensures r.Ok? ==> r.value == DefinitionNodes(steps)
    ensures r.Err? ==> MissesDependency(steps, r.error.stepId)
  {
    var order := StepOrder(steps);
    var built := BuildSuccessors(steps);
    if built.Err? {
      return Err(built.error);
    }
    var succ := SortLists(built.value, order);
    var entries := CollectEntries(steps);
    entries := Sort(OrderLeq(order), entries);
    forall i | 0 <= i < |steps|
      ensures steps[i].stepId in succ
      ensures NodeOf(steps[i], succ[steps[i].stepId], AgentTargets(steps)) == DefinitionNodes(steps)[i + 1]
    {
      NodeFromList(steps, succ, i);
    }
    var targets := CollectAgentTargets(steps);
    var nodes := BuildNodes(steps, succ, entries, targets, DefinitionNodes(steps));
    r := Ok(nodes);
  }

  lemma NodeFromList(steps: seq<PlanStep>, lists: map<string, seq<string>>, i: nat)
    requires i < |steps| && (forall id :: id in lists <==> id in Ids(steps))
    requires forall a | a in lists :: lists[a] == Sort(OrderLeq(StepOrder(steps)), Successors(steps, a))
    ensures steps[i].stepId in lists
    ensures NodeOf(steps[i], lists[steps[i].stepId], AgentTargets(steps)) == DefinitionNodes(steps)[i + 1]
  {
    assert Ids(steps)[i] == steps[i].stepId;
    NodesByPosition(steps, i);
  }

  /** Reverses the predecessor relation; an unknown dependency is a missing key. */
  method BuildSuccessors(steps: seq<PlanStep>) returns (r: Result<map<string, seq<string>>, Error>)
    ensures r.Ok? <==> Closed(steps)
    ensures r.Ok? ==> ListsSuccessors(steps, r.value)
    ensures r.Err? ==> MissesDependency(steps, r.error.stepId)
  {
    var succ: map<string, seq<string>> := map id | id in Ids(steps) :: [];
    for i := 0 to |steps|
      invariant forall id :: id in succ <==> id in Ids(steps)
      invariant forall a | a in succ :: succ[a] == Successors(steps[..i], a)
      invariant forall s, d | s in steps[..i] && d in s.dependsOn :: d in Ids(steps)
    {
      var added := AddStep(succ, steps[i]);
      if added.Err? {
        assert steps[i] in steps;
        return Err(added.error);
      }
      assert Init(steps[..i + 1]) == steps[..i];
      succ := added.value;
    }
    assert steps[..|steps|] == steps;
    r := Ok(succ);
  }

  /** Every list has the id appended once for each time its step occurs among the dependencies. */
  ghost predicate Appended(lists: map<string, seq<string>>, succ: map<string, seq<string>>, id: string, dependsOn: seq<string>) {
    lists.Keys == succ.Keys && forall a | a in succ :: lists[a] == succ[a] + Occurrences(id, a, dependsOn)
  }

  lemma AppendOne(lists: map<string, seq<string>>, succ: map<string, seq<string>>, id: string, dependsOn: seq<string>)
    requires dependsOn != [] && Appended(lists, succ, id, Init(dependsOn)) && Last(dependsOn) in lists
    ensures Appended(lists[Last(dependsOn) := lists[Last(dependsOn)] + [id]], succ, id, dependsOn)
  {
  }

  /** Appends a step to the list of each of its dependencies. */
  method AddStep(succ: map<string, seq<string>>, s: PlanStep) returns (r: Result<map<string, seq<string>>, Error>)
    ensures r.Ok? <==> forall d | d in s.dependsOn :: d in succ
    ensures r.Ok? ==> Appended(r.value, succ, s.stepId, s.dependsOn)
    ensures r.Err? ==> r.error.stepId in s.dependsOn && r.error.stepId !in succ
  {
    var updated := succ;
    for j := 0 to |s.dependsOn|
      invariant Appended(updated, succ, s.stepId, s.dependsOn[..j])
      invariant forall d | d in s.dependsOn[..j] :: d in succ
    {
      var dep := s.dependsOn[j];
      if dep !in updated {
        assert dep in s.dependsOn;
        return Err(MissingDependency(dep));
      }
      assert Init(s.dependsOn[..j + 1]) == s.dependsOn[..j];
      AppendOne(updated, succ, s.stepId, s.dependsOn[..j + 1]);
      updated := updated[dep := updated[dep] + [s.stepId]];
    }
    assert s.dependsOn[..|s.dependsOn|] == s.dependsOn;
    r := Ok(updated);
  }

  ghost predicate ListsSuccessors(steps: seq<PlanStep>, succ: map<string, seq<string>>) {
    (forall id :: id in succ <==> id in Ids(steps)) && forall a | a in succ :: succ[a] == Successors(steps, a)
  }

  method SortLists(lists: map<string, seq<string>>, order: map<string, int>) returns (sorted: map<string, seq<string>>)
    ensures sorted.Keys == lists.Keys && forall a | a in lists :: sorted[a] == Sort(OrderLeq(order), lists[a])
  {
    sorted := lists;
    var todo := lists.Keys;
    while todo != {}
      invariant todo <= lists.Keys && sorted.Keys == lists.Keys
      invariant forall a | a in lists :: sorted[a] == if a in todo then lists[a] else Sort(OrderLeq(order), lists[a])
      decreases todo
    {
      var k :| k in todo;
      sorted := sorted[k := Sort(OrderLeq(order), sorted[k])];
      todo := todo - {k};
    }
  }

  method CollectEntries(steps: seq<PlanStep>) returns (entries: seq<string>)
    ensures entries == Entries(steps)
  {
    entries := [];
    for i := 0 to |steps|
      invariant entries == Entries(steps[..i])
    {
      assert Init(steps[..i + 1]) == steps[..i];
      if steps[i].dependsOn == [] {
        entries := entries + [steps[i].stepId];
      }
    }
    assert steps[..|steps|] == steps;
  }

  method CollectAgentTargets(steps: seq<PlanStep>) returns (targets: seq<Json>)
    ensures targets == AgentTargets(steps)
  {
    targets := [];
    for i := 0 to |steps|
      invariant targets == AgentTargets(steps[..i])
    {
      assert Init(steps[..i + 1]) == steps[..i];
      if steps[i].stepType == AgentTask && steps[i].agentType != "" {
        targets := targets + [JStr(steps[i].agentType)];
      }
    }
    assert steps[..|steps|] == steps;
  }

  method BuildNodes(
    steps: seq<PlanStep>, succ: map<string, seq<string>>, entries: seq<string>, targets: seq<Json>, ghost expected: seq<NodeConfig>)
    returns (nodes: seq<NodeConfig>)
    requires forall i | 0 <= i < |steps| :: steps[i].stepId in succ
    requires |expected| == |steps| + 1
    requires expected[0] == TriggerOf(entries)
    requires forall i | 0 <= i < |steps| :: NodeOf(steps[i], succ[steps[i].stepId], targets) == expected[i + 1]
    ensures nodes == expected
  {
    nodes := [TriggerOf(entries)];
    for i := 0 to |steps|
      invariant nodes == expected[..i + 1]
    {
      nodes := nodes + [NodeOf(steps[i], succ[steps[i].stepId], targets)];
    }
  }

  // ---- successors are the inverse of dependencies ------------------------------------

  ghost predicate DistinctIds(steps: seq<PlanStep>) {
    Distinct(Ids(steps))
  }

  lemma {:induction false} OccurrencesCount(id: string, a: string, deps: seq<string>)
    ensures forall b :: multiset(Occurrences(id, a, deps))[b] == if b == id then multiset(deps)[a] else 0
  {
    if deps != [] {
      OccurrencesCount(id, a, Init(deps));
      SplitLast(deps);
    }
  }

  lemma DistinctInit(steps: seq<PlanStep>)
    requires steps != [] && DistinctIds(steps)
    ensures DistinctIds(Init(steps))
    ensures forall i | 0 <= i < |steps| - 1 :: steps[i].stepId != Last(steps).stepId
  {
    var ids := Ids(steps);
    forall i | 0 <= i < |steps| - 1
      ensures steps[i].stepId != Last(steps).stepId
    {
      assert ids[i] != ids[|steps| - 1];
    }
    assert Ids(Init(steps)) == Init(ids);
  }

  lemma {:induction false} NotASuccessorElsewhere(steps: seq<PlanStep>, a: string, b: string)
    requires forall i | 0 <= i < |steps| :: steps[i].stepId != b
    ensures b !in Successors(steps, a)
  {
    if steps != [] {
      NotASuccessorElsewhere(Init(steps), a, b);
      OccurrencesCount(Last(steps).stepId, a, Last(steps).dependsOn);
      assert multiset(Occurrences(Last(steps).stepId, a, Last(steps).dependsOn))[b] == 0;
    }
  }

  /** b follows a exactly as often as b depends on a. */
  lemma {:induction false} SuccessorsInvertDependencies(steps: seq<PlanStep>, i: nat, a: string)
    requires DistinctIds(steps) && i < |steps|
    ensures multiset(Successors(steps, a))[steps[i].stepId] == multiset(steps[i].dependsOn)[a]
  {
    DistinctInit(steps);
    var last := Last(steps);
    OccurrencesCount(last.stepId, a, last.dependsOn);
    assert multiset(Successors(steps, a))
           == multiset(Successors(Init(steps), a)) + multiset(Occurrences(last.stepId, a, last.dependsOn));
    if i == |steps| - 1 {
      NotASuccessorElsewhere(Init(steps), a, last.stepId);
    } else {
      SuccessorsInvertDependencies(Init(steps), i, a);
    }
  }

  // ---- lists stand in plan order -------------------------------------------------------

  lemma {:induction false} OrderIsPosition(steps: seq<PlanStep>, i: nat)
    requires DistinctIds(steps) && i < |steps|
    ensures steps[i].stepId in StepOrder(steps) && StepOrder(steps)[steps[i].stepId] == i
  {
    DistinctInit(steps);
    if i < |steps| - 1 {
      OrderIsPosition(Init(steps), i);
    }
  }

  /** Ids drawn from the first n steps, in the order of those steps. */
  ghost predicate InPlanOrder(steps: seq<PlanStep>, ids: seq<string>, n: nat)
    requires n <= |steps|
  {
    && (forall k | 0 <= k < |ids| :: ids[k] in StepOrder(steps) && 0 <= StepOrder(steps)[ids[k]] < n)
    && Sorted(OrderLeq(StepOrder(steps)), ids)
  }

  lemma {:induction false} OccurrencesAreId(id: string, a: string, deps: seq<string>)
    ensures forall k | 0 <= k < |Occurrences(id, a, deps)| :: Occurrences(id, a, deps)[k] == id
  {
    if deps != [] {
      OccurrencesAreId(id, a, Init(deps));
    }
  }

  lemma {:induction false} SuccessorsInPlanOrder(steps: seq<PlanStep>, a: string, n: nat)
    requires DistinctIds(steps) && n <= |steps|
    ensures InPlanOrder(steps, Successors(steps[..n], a), n)
  {
    if n > 0 {
      SuccessorsInPlanOrder(steps, a, n - 1);
      assert Init(steps[..n]) == steps[..n - 1];
      OrderIsPosition(steps, n - 1);
      OccurrencesAreId(steps[n - 1].stepId, a, steps[n - 1].dependsOn);
    }
  }

  lemma {:induction false} EntriesInPlanOrder(steps: seq<PlanStep>, n: nat)
    requires DistinctIds(steps) && n <= |steps|
    ensures InPlanOrder(steps, Entries(steps[..n]), n)
  {
    if n > 0 {
      EntriesInPlanOrder(steps, n - 1);
      assert Init(steps[..n]) == steps[..n - 1];
      OrderIsPosition(steps, n - 1);
    }
  }

  lemma {:induction false} EntriesAreFreeSteps(steps: seq<PlanStep>, i: nat)
    requires DistinctIds(steps) && i < |steps|
    ensures steps[i].stepId in Entries(steps) <==> steps[i].dependsOn == []
  {
    DistinctInit(steps);
    if i < |steps| - 1 {
      EntriesAreFreeSteps(Init(steps), i);
    } else if Last(steps).stepId in Entries(Init(steps)) {
      EntriesFromSteps(Init(steps), Last(steps).stepId);
    }
  }

  lemma {:induction false} EntriesFromSteps(steps: seq<PlanStep>, id: string)
    requires id in Entries(steps)
    ensures exists i :: 0 <= i < |steps| && steps[i].stepId == id
  {
    if id in Entries(Init(steps)) {
      EntriesFromSteps(Init(steps), id);
      var i :| 0 <= i < |Init(steps)| && Init(steps)[i].stepId == id;
      assert steps[i].stepId == id;
    } else {
      assert steps[|steps| - 1].stepId == id;
    }
  }

  /** With distinct ids the lists are built in plan order, so sorting them changes nothing. */
  lemma SortingChangesNothing(steps: seq<PlanStep>, a: string)
    requires DistinctIds(steps)
    ensures var leq := OrderLeq(StepOrder(steps));
            && Sorted(leq, Successors(steps, a)) && Sort(leq, Successors(steps, a)) == Successors(steps, a)
            && Sort(leq, Entries(steps)) == Entries(steps)
  {
    var leq := OrderLeq(StepOrder(steps));
    assert steps[..|steps|] == steps;
    SuccessorsInPlanOrder(steps, a, |steps|);
    SortedIsFixed(leq, Successors(steps, a));
    EntriesInPlanOrder(steps, |steps|);
    SortedIsFixed(leq, Entries(steps));
  }

  lemma NodeLists(steps: seq<PlanStep>, i: nat)
    requires DistinctIds(steps) && i < |steps|
    ensures var nodes := DefinitionNodes(steps);
            && nodes[0].nextNodes == Entries(steps)
            && nodes[i + 1].nodeId == steps[i].stepId
            && nodes[i + 1].nextNodes == Successors(steps, steps[i].stepId)
            && Sorted(OrderLeq(StepOrder(steps)), nodes[i + 1].nextNodes)
  {
    NodesByPosition(steps, i);
    SortingChangesNothing(steps, steps[i].stepId);
  }

  lemma NodesByPosition(steps: seq<PlanStep>, i: nat)
    requires i < |steps|
    ensures DefinitionNodes(steps)[0] == TriggerNode(steps)
    ensures DefinitionNodes(steps)[i + 1] == StepNode(steps, steps[i])
  {
  }

  /**
   The definition inverts the plan: the lists of a node are in plan order, b
   stands in the list of a exactly as often as a stands in b's dependencies, and
   the entry node leads exactly to the steps without dependencies.
   */
  lemma {:induction false} DefinitionInvertsPlan(steps: seq<PlanStep>, i: nat, j: nat)
    requires DistinctIds(steps) && i < |steps| && j < |steps|
    ensures var nodes := DefinitionNodes(steps);
            && nodes[i + 1].nodeId == steps[i].stepId
            && multiset(nodes[i + 1].nextNodes)[steps[j].stepId] == multiset(steps[j].dependsOn)[steps[i].stepId]
            && Sorted(OrderLeq(StepOrder(steps)), nodes[i + 1].nextNodes)
            && OrderOf(StepOrder(steps), steps[j].stepId) == j
            && nodes[0].nextNodes == Entries(steps)
            && (steps[j].stepId in nodes[0].nextNodes <==> steps[j].dependsOn == [])
  {
    NodeLists(steps, i);
    SuccessorsInvertDependencies(steps, j, steps[i].stepId);
    EntriesAreFreeSteps(steps, j);
    OrderIsPosition(steps, j);
  }

  // ---- what a node carries of its step --------------------------------------------------

  /**
   The node of a step: its id, type, objective and timeout, one attempt more than retries, and
   a condition for risk gates.
   */
  lemma NodeCarriesStep(steps: seq<PlanStep>, i: nat)
    requires i < |steps|
    ensures |DefinitionNodes(steps)| == |steps| + 1
    ensures var node, s := DefinitionNodes(steps)[i + 1], steps[i];
            && node.nodeId == s.stepId && node.nodeType == s.stepType && node.description == s.objective
            && node.nodeLabel == (if s.objective == "" then s.stepId else s.objective)
            && node.timeoutSeconds == s.timeoutSeconds && node.retryDelaySeconds == 5
            && node.config == ConfigFor(s, AgentTargets(steps))
            && node.maxAttempts >= 1 && (s.maxRetries >= 0 ==> node.maxAttempts == s.maxRetries + 1)
            && (s.maxRetries < 0 ==> node.maxAttempts == 1)
            && node.condition == (if s.stepType.RiskGate? then Some("requires_approval") else None)
  {
    NodesByPosition(steps, i);
  }

  /** The entry node is the one structural node: a trigger without conditions, tried once. */
  lemma EntryNodeIsTrigger(steps: seq<PlanStep>)
    ensures var node := DefinitionNodes(steps)[0];
            && node.nodeId == "trigger" && node.nodeType == Trigger && node.condition == None
            && node.maxAttempts == 1 && node.timeoutSeconds == 60 && node.retryDelaySeconds == 5
            && node.config == map["initial_event" := JObj(map[])]
  {
  }

  /** An approval node is for the actions of its own step, and is bound to the action step it approves. */
  lemma ApprovalNodeNamesItsAction(s: PlanStep, targets: seq<Json>)
    requires s.stepType.HumanApproval?
    ensures var config := ConfigFor(s, targets);
            && config.Keys == {"action_types", "target_action_step_id", "approval_identity_version"}
            && config["action_types"] == JList(if s.actionType == "" then [] else [JStr(s.actionType)])
            && ("targetActionStepId" in s.metadata ==> config["target_action_step_id"] == s.metadata["targetActionStepId"])
            && ("targetActionStepId" !in s.metadata ==> config["target_action_step_id"] == JStr(""))
            && ("approvalIdentityVersion" in s.metadata ==>
                  config["approval_identity_version"] == s.metadata["approvalIdentityVersion"])
            && ("approvalIdentityVersion" !in s.metadata ==> config["approval_identity_version"] == JInt(1))
  {
  }

  /**
   An action node carries its action, the template of its parameters unless it is falsy, and
   the version of its approval.
   */
  lemma ActionNodeNamesItsAction(s: PlanStep, targets: seq<Json>)
    requires s.stepType.ActionNode?
    ensures var config := ConfigFor(s, targets);
            && config.Keys == {"action_type", "action_params", "approval_identity_version"}
            && config["action_type"] == JStr(s.actionType)
            && config["action_params"]
               == (if Truthy(Get(s.metadata, "paramsTemplate")) then Get(s.metadata, "paramsTemplate") else JObj(map[]))
            && ("approvalIdentityVersion" in s.metadata ==>
                  config["approval_identity_version"] == s.metadata["approvalIdentityVersion"])
            && ("approvalIdentityVersion" !in s.metadata ==> config["approval_identity_version"] == JInt(1))
  {
  }

  /**
   An agent node names its agent, a memory node the agents of the whole plan; gates, routers
   and the closing node need nothing.
   */
  lemma OtherNodesAreConfigured(s: PlanStep, targets: seq<Json>)
    ensures var config := ConfigFor(s, targets);
            && (s.stepType.AgentTask? ==> config == map["agent_name" := JStr(s.agentType)])
            && (s.stepType.MemoryContext? ==> config == map["agent_targets" := JList(targets)])
            && (s.stepType in [RuleRouter, RiskGate, Close, Trigger] ==> config == map[])
  {
  }

  lemma RetrievalNodesAreConfigured(s: PlanStep, targets: seq<Json>)
    ensures var config := ConfigFor(s, targets);
            && (s.stepType.EvidenceEvaluate? ==>
                  config == map["min_confidence" := JFloat(THREE_TENTHS), "min_evidence_count" := JInt(1)])
            && (s.stepType.RagRetrieve? ==> config == map["top_k" := JInt(5), "query_template" := JStr(QUERY_TEMPLATE)])
            && (s.stepType.ValidateEvent? ==> config == map["required_fields" := JList([JStr("eventType"), JStr("roadName")])])
  {
  }

  /** The agents a memory node serves are those of the agent steps, in plan order. */
  lemma {:induction false} AgentTargetsIff(steps: seq<PlanStep>, agent: string)
    ensures JStr(agent) in AgentTargets(steps) <==> exists s | s in steps :: s.stepType == AgentTask && s.agentType == agent != ""
    ensures |AgentTargets(steps)| == |Filter((s: PlanStep) => s.stepType == AgentTask && s.agentType != "", steps)|
  {
    if steps != [] {
      AgentTargetsIff(Init(steps), agent);
      assert steps == Init(steps) + [Last(steps)] && Last(steps) in steps;
      assert forall s :: s in steps <==> s in Init(steps) || s == Last(steps);
    }
  }

  // ---- what the entry node can reach -----------------------------------------------------

  /** Reached in at most n + 1 hops from the entry node. */
  ghost predicate Reached(nodes: seq<NodeConfig>, n: nat, id: string)
    requires nodes != []
  {
    if n == 0 then id in nodes[0].nextNodes
    else Reached(nodes, n - 1, id) || exists k :: 1 <= k < |nodes| && Reached(nodes, n - 1, nodes[k].nodeId) && id in nodes[k].nextNodes
  }

  ghost predicate Reachable(nodes: seq<NodeConfig>, id: string)
    requires nodes != []
  {
    exists n: nat :: Reached(nodes, n, id)
  }

  /** A set of steps none of which can ever start: each has dependencies, all of them in the set. */
  ghost predicate SelfSupporting(steps: seq<PlanStep>, waiting: set<nat>) {
    && waiting != {}
    && forall i | i in waiting ::
         && i < |steps| && steps[i].dependsOn != []
         && forall d | d in steps[i].dependsOn :: exists j :: j in waiting && j < |steps| && steps[j].stepId == d
  }

  ghost predicate AreSteps(steps: seq<PlanStep>, group: set<nat>) {
    group != {} && forall i | i in group :: i < |steps|
  }

  ghost predicate FreeWithin(steps: seq<PlanStep>, group: set<nat>, i: nat)
    requires AreSteps(steps, group)
  {
    i in group && forall j | j in group :: steps[j].stepId !in steps[i].dependsOn
  }

  /** Every set of steps has a member that depends on nothing in the set. */
  ghost predicate Acyclic(steps: seq<PlanStep>) {
    forall group | AreSteps(steps, group) :: exists i: nat :: FreeWithin(steps, group, i)
  }

  lemma EdgeIff(steps: seq<PlanStep>, i: nat, j: nat)
    requires DistinctIds(steps) && i < |steps| && j < |steps|
    ensures steps[j].stepId in DefinitionNodes(steps)[i + 1].nextNodes <==> steps[i].stepId in steps[j].dependsOn
  {
    DefinitionInvertsPlan(steps, i, j);
    var nexts := DefinitionNodes(steps)[i + 1].nextNodes;
    assert steps[j].stepId in nexts <==> multiset(nexts)[steps[j].stepId] > 0;
    assert steps[i].stepId in steps[j].dependsOn <==> multiset(steps[j].dependsOn)[steps[i].stepId] > 0;
  }

  /** All that reachability depends on: the nodes carry the inverted dependencies. */
  ghost predicate Inverts(steps: seq<PlanStep>, nodes: seq<NodeConfig>) {
    && |nodes| == |steps| + 1
    && (forall i | 0 <= i < |steps| :: nodes[i + 1].nodeId == steps[i].stepId)
    && (forall j | 0 <= j < |steps| :: steps[j].stepId in nodes[0].nextNodes <==> steps[j].dependsOn == [])
    && (forall i, j | 0 <= i < |steps| && 0 <= j < |steps| ::
          steps[j].stepId in nodes[i + 1].nextNodes <==> steps[i].stepId in steps[j].dependsOn)
  }

  lemma DefinitionInverts(steps: seq<PlanStep>)
    requires DistinctIds(steps)
    ensures Inverts(steps, DefinitionNodes(steps))
  {
    forall i, j | 0 <= i < |steps| && 0 <= j < |steps|
      ensures DefinitionNodes(steps)[i + 1].nodeId == steps[i].stepId
      ensures steps[j].stepId in DefinitionNodes(steps)[0].nextNodes <==> steps[j].dependsOn == []
      ensures steps[j].stepId in DefinitionNodes(steps)[i + 1].nextNodes <==> steps[i].stepId in steps[j].dependsOn
    {
      DefinitionInvertsPlan(steps, i, j);
      EdgeIff(steps, i, j);
    }
  }

  lemma NotReachedWithOneMoreHop(nodes: seq<NodeConfig>, n: nat, id: string)
    requires nodes != [] && !Reached(nodes, n, id)
    requires forall k | 1 <= k < |nodes| && id in nodes[k].nextNodes :: !Reached(nodes, n, nodes[k].nodeId)
    ensures !Reached(nodes, n + 1, id)
  {
  }

  /** Members of a self-supporting set are never reached. */
  lemma {:induction false} WaitingIsNotReached(steps: seq<PlanStep>, nodes: seq<NodeConfig>, waiting: set<nat>, n: nat, j: nat)
    requires Inverts(steps, nodes) && SelfSupporting(steps, waiting) && j in waiting
    ensures !Reached(nodes, n, steps[j].stepId)
  {
    if n > 0 {
      WaitingIsNotReached(steps, nodes, waiting, n - 1, j);
      forall k | 1 <= k < |nodes| && steps[j].stepId in nodes[k].nextNodes
        ensures !Reached(nodes, n - 1, nodes[k].nodeId)
      {
        assert steps[k - 1].stepId in steps[j].dependsOn;
        var d :| d in waiting && d < |steps| && steps[d].stepId == steps[k - 1].stepId;
        WaitingIsNotReached(steps, nodes, waiting, n - 1, d);
      }
      NotReachedWithOneMoreHop(nodes, n - 1, steps[j].stepId);
    }
  }

  lemma OneMoreHop(nodes: seq<NodeConfig>, k: nat, id: string)
    requires 1 <= k < |nodes| && Reachable(nodes, nodes[k].nodeId) && id in nodes[k].nextNodes
    ensures Reachable(nodes, id)
  {
    var n: nat :| Reached(nodes, n, nodes[k].nodeId);
    assert Reached(nodes, n + 1, id);
  }

  lemma EntriesAreReachable(steps: seq<PlanStep>, nodes: seq<NodeConfig>, i: nat)
    requires Inverts(steps, nodes) && i < |steps| && steps[i].dependsOn == []
    ensures Reachable(nodes, steps[i].stepId)
  {
    assert Reached(nodes, 0, steps[i].stepId);
  }

  /** An unreached step depends on unreached steps only. */
  lemma UnreachedDependency(steps: seq<PlanStep>, nodes: seq<NodeConfig>, i: nat, d: string) returns (j: nat)
    requires Inverts(steps, nodes) && Closed(steps) && i < |steps| && !Reachable(nodes, steps[i].stepId)
    requires d in steps[i].dependsOn
    ensures j < |steps| && steps[j].stepId == d && !Reachable(nodes, steps[j].stepId)
  {
    assert d in Ids(steps);
    j :| 0 <= j < |steps| && Ids(steps)[j] == d;
    if Reachable(nodes, steps[j].stepId) {
      OneMoreHop(nodes, j + 1, steps[i].stepId);
    }
  }

  /** The steps the entry node cannot reach support each other. */
  lemma UnreachedSupportEachOther(steps: seq<PlanStep>, nodes: seq<NodeConfig>, waiting: set<nat>)
    requires Inverts(steps, nodes) && Closed(steps) && waiting != {}
    requires waiting == set i | 0 <= i < |steps| && !Reachable(nodes, steps[i].stepId)
    ensures SelfSupporting(steps, waiting)
  {
    forall i | i in waiting
      ensures i < |steps| && steps[i].dependsOn != []
      ensures forall d | d in steps[i].dependsOn :: exists j :: j in waiting && j < |steps| && steps[j].stepId == d
    {
      if steps[i].dependsOn == [] {
        EntriesAreReachable(steps, nodes, i);
      }
      forall d | d in steps[i].dependsOn
        ensures exists j :: j in waiting && j < |steps| && steps[j].stepId == d
      {
        var j := UnreachedDependency(steps, nodes, i, d);
        assert j in waiting;
      }
    }
  }

  lemma AllReachableIff(steps: seq<PlanStep>, nodes: seq<NodeConfig>)
    requires Inverts(steps, nodes) && Closed(steps)
    ensures (forall i | 0 <= i < |steps| :: Reachable(nodes, steps[i].stepId)) <==> !exists waiting :: SelfSupporting(steps, waiting)
  {
    if waiting :| SelfSupporting(steps, waiting) {
      var j :| j in waiting;
      forall n: nat
        ensures !Reached(nodes, n, steps[j].stepId)
      {
        WaitingIsNotReached(steps, nodes, waiting, n, j);
      }
      assert !Reachable(nodes, steps[j].stepId);
    } else {
      var unreached: set<nat> := set i | 0 <= i < |steps| && !Reachable(nodes, steps[i].stepId);
      if unreached != {} {
        UnreachedSupportEachOther(steps, nodes, unreached);
      }
      forall i | 0 <= i < |steps|
        ensures Reachable(nodes, steps[i].stepId)
      {
        assert i !in unreached;
      }
    }
  }

  /** Every step is reachable from the entry node exactly when no set of steps has all its dependencies inside itself. */
  lemma AllReachableIffNoneSelfSupporting(steps: seq<PlanStep>)
    requires DistinctIds(steps) && Closed(steps)
    ensures (forall i | 0 <= i < |steps| :: Reachable(DefinitionNodes(steps), steps[i].stepId))
            <==> !exists waiting :: SelfSupporting(steps, waiting)
  {
    DefinitionInverts(steps);
    AllReachableIff(steps, DefinitionNodes(steps));
  }

  lemma WaitsForMember(steps: seq<PlanStep>, waiting: set<nat>, i: nat)
    requires SelfSupporting(steps, waiting) && i in waiting
    ensures exists j :: j in waiting && j < |steps| && steps[j].stepId in steps[i].dependsOn
  {
    assert steps[i].dependsOn[0] in steps[i].dependsOn;
  }

  /** In an acyclic plan every step is reachable from the entry node. */
  lemma AcyclicPlansAreReachable(steps: seq<PlanStep>)
    requires DistinctIds(steps) && Closed(steps) && Acyclic(steps)
    ensures forall i | 0 <= i < |steps| :: Reachable(DefinitionNodes(steps), steps[i].stepId)
  {
    AllReachableIffNoneSelfSupporting(steps);
    if waiting :| SelfSupporting(steps, waiting) {
      assert AreSteps(steps, waiting);
      var i: nat :| FreeWithin(steps, waiting, i);
      WaitsForMember(steps, waiting, i);
    }
  }
}
