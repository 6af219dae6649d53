/** The workflow plan that the automotive triage tool `analyze_multi_domain_request`
    returns. The source only builds literal plans; it never computes an execution
    order, parallel groups or a dispatch, so this module states well-formedness
    predicates about plans and proves which of them the two literal plans meet. */
module Workflow {
  import opened Common

  /** A value of the parameters dictionary (Dict[str, Any]). */
  datatype ParamValue = PStr(s: string) | PInt(i: int) | PReal(r: real)

  datatype WorkflowStep = WorkflowStep(
    stepId: string,
    agentType: string,
    action: string,
    parameters: map<string, ParamValue>,
    dependencies: seq<string>,
    status: string)

  datatype WorkflowPlan = WorkflowPlan(
    requestId: string,
    originalQuery: string,
    steps: seq<WorkflowStep>,
    executionOrder: seq<string>,
    parallelGroups: seq<seq<string>>)

  /** The `WorkflowResult` model of automotive_multi-agent.py (lines 36-40).
      The program declares it but never builds one, since it has no code that
      runs a plan; it is kept here as the declared shape only. */
  datatype WorkflowResult = WorkflowResult(
    stepId: string,
    success: bool,
    result: ParamValue,
    errorMessage: Option<string>)

  /** Pydantic construction of a step: `status` defaults to "pending". */
  function Step(stepId: string, agentType: string, action: string,
                parameters: map<string, ParamValue>, dependencies: seq<string>): (s: WorkflowStep)
    ensures s.status == "pending" && s.stepId == stepId && s.dependencies == dependencies
  {
    WorkflowStep(stepId, agentType, action, parameters, dependencies, "pending")
  }

  // ---------------------------------------------------------------------
  // Well-formedness predicates

  function StepIds(steps: seq<WorkflowStep>): (ids: seq<string>)
    ensures |ids| == |steps|
    ensures forall i :: 0 <= i < |steps| ==> ids[i] == steps[i].stepId
  {
    if steps == [] then [] else [steps[0].stepId] + StepIds(steps[1..])
  }

  predicate NoDuplicates(xs: seq<string>) {
    forall i, j :: 0 <= i < j < |xs| ==> xs[i] != xs[j]
  }

  /** Every dependency names a step declared in the same plan. */
  predicate DependenciesClosed(p: WorkflowPlan) {
    forall i, d :: 0 <= i < |p.steps| && d in p.steps[i].dependencies ==> d in StepIds(p.steps)
  }

  /** executionOrder lists every declared step id exactly once, and nothing else. */
  predicate OrderIsPermutation(p: WorkflowPlan) {
    && NoDuplicates(StepIds(p.steps))
    && NoDuplicates(p.executionOrder)
    && |p.executionOrder| == |p.steps|
    && (forall k :: 0 <= k < |p.executionOrder| ==> p.executionOrder[k] in StepIds(p.steps))
    && (forall k :: 0 <= k < |p.steps| ==> p.steps[k].stepId in p.executionOrder)
  }

  /** Each dependency that IS declared appears strictly before its dependent. */
  predicate OrderRespectsDeclaredDependencies(p: WorkflowPlan) {
    forall a, b, i :: 0 <= a < |p.executionOrder| && 0 <= b < |p.executionOrder| && 0 <= i < |p.steps|
      && p.steps[i].stepId == p.executionOrder[a] && p.executionOrder[b] in p.steps[i].dependencies
      ==> b < a
  }

  /** The invariant a scheduler would need before running a plan. */
  predicate WellFormed(p: WorkflowPlan) {
    DependenciesClosed(p) && OrderIsPermutation(p) && OrderRespectsDeclaredDependencies(p)
  }

  // ---------------------------------------------------------------------
  // The builder

  /** The keyword test at automotive_multi-agent.py:263. */
  predicate IsCompoundRequest(query: string) {
    Contains(Lower(query), "add part") && Contains(Lower(query), "payment link")
  }

  function CompoundSteps(): seq<WorkflowStep> {
    [ Step("validate_1", "repair_orders", "validate_repair_order",
           map["ro_number" := PStr("RO_001")], []),
      Step("validate_2", "parts", "validate_part_exists",
           map["part_number" := PStr("PART_001")], ["validate_1"]),
      Step("execute_1", "parts", "add_part_to_order",
           map["ro_number" := PStr("RO_001"), "part_number" := PStr("PART_001"), "quantity" := PInt(1)],
           ["validate_5"]),
      Step("execute_2", "payment", "create_payment_link",
           map["ro_number" := PStr("RO_001"), "amount" := PReal(100.0),
               "customer_email" := PStr("abc@gmail.com"), "currency" := PStr("USD")],
           ["execute_1"]) ]
  }

  function AnalyzeMultiDomainRequest(query: string): (plan: WorkflowPlan)
    ensures plan.originalQuery == query && plan.parallelGroups == []
    ensures forall i :: 0 <= i < |plan.steps| ==> plan.steps[i].status == "pending"
    ensures IsCompoundRequest(query) <==> |plan.steps| == 4
    ensures OrderIsPermutation(plan) && OrderRespectsDeclaredDependencies(plan)
    ensures DependenciesClosed(plan) <==> !IsCompoundRequest(query)
    ensures WellFormed(plan) <==> !IsCompoundRequest(query)
  {
    if IsCompoundRequest(query) then CompoundPlan(query) else GeneralPlan(query)
  }

  /** The defensive four-step plan of the compound branch. */
  function CompoundPlan(query: string): (plan: WorkflowPlan)
    ensures plan.originalQuery == query && plan.parallelGroups == [] && |plan.steps| == 4
    ensures plan.requestId == "REQ_001_DEFENSIVE" && plan.steps == CompoundSteps()
    ensures plan.executionOrder == ["validate_1", "validate_2", "execute_1", "execute_2"]
    ensures forall i :: 0 <= i < |plan.steps| ==> plan.steps[i].status == "pending"
    ensures OrderIsPermutation(plan) && OrderRespectsDeclaredDependencies(plan)
    ensures !DependenciesClosed(plan)
  {
    var plan := WorkflowPlan("REQ_001_DEFENSIVE", query, CompoundSteps(),
                             ["validate_1", "validate_2", "execute_1", "execute_2"], []);
    CompoundStepsFacts();
    AllPending(plan.steps);
    CompoundPlanShape(plan);
    plan
  }

  /** The one-step plan of every other query. */
  function GeneralPlan(query: string): (plan: WorkflowPlan)
    ensures plan.originalQuery == query && plan.parallelGroups == [] && |plan.steps| == 1
    ensures plan.steps[0].status == "pending"
    ensures WellFormed(plan)
  {
    var plan := WorkflowPlan("REQ_002", query,
                             [Step("step_1", "general", "handle_query", map["query" := PStr(query)], [])],
                             ["step_1"], []);
    SingleStepPlanShape(plan);
    plan
  }

  lemma CompoundPlanShape(p: WorkflowPlan)
    requires p.steps == CompoundSteps()
    requires p.executionOrder == ["validate_1", "validate_2", "execute_1", "execute_2"]
    ensures OrderIsPermutation(p) && OrderRespectsDeclaredDependencies(p)
    ensures !DependenciesClosed(p)
  {
    CompoundStepsFacts();
    OrderShape(p, ["validate_1", "validate_2", "execute_1", "execute_2"],
               [[], ["validate_1"], ["validate_5"], ["execute_1"]]);
  }

  lemma AllPending(steps: seq<WorkflowStep>)
    requires steps == CompoundSteps()
    ensures forall i :: 0 <= i < |steps| ==> steps[i].status == "pending"
  {
  }

  /** The parameters of the payment step. */
  lemma PaymentStepParameters()
    ensures |CompoundSteps()| == 4
    ensures CompoundSteps()[3].parameters["amount"] == PReal(100.0)
    ensures CompoundSteps()[3].parameters["customer_email"] == PStr("abc@gmail.com")
    ensures CompoundSteps()[3].parameters["currency"] == PStr("USD")
  {
  }

  lemma CompoundStepsFacts()
    ensures |CompoundSteps()| == 4
    ensures StepIds(CompoundSteps()) == ["validate_1", "validate_2", "execute_1", "execute_2"]
    ensures CompoundSteps()[0].dependencies == []
    ensures CompoundSteps()[1].dependencies == ["validate_1"]
    ensures CompoundSteps()[2].dependencies == ["validate_5"]
    ensures CompoundSteps()[3].dependencies == ["execute_1"]
  {
  }

  /** The four-step order check, stated over the ids and dependency lists only. */
  lemma OrderShape(p: WorkflowPlan, ids: seq<string>, deps: seq<seq<string>>)
    requires ids == ["validate_1", "validate_2", "execute_1", "execute_2"]
    requires deps == [[], ["validate_1"], ["validate_5"], ["execute_1"]]
    requires |p.steps| == 4 && StepIds(p.steps) == ids && p.executionOrder == ids
    requires forall i :: 0 <= i < 4 ==> p.steps[i].dependencies == deps[i]
    ensures OrderIsPermutation(p) && OrderRespectsDeclaredDependencies(p)
    ensures !DependenciesClosed(p)
  {
    OrderShapePermutation(p, ids);
    OrderShapeRespects(p, ids, deps);
    assert "validate_5" in p.steps[2].dependencies;
    assert "validate_5" !in ids;
  }

  lemma OrderShapePermutation(p: WorkflowPlan, ids: seq<string>)
    requires ids == ["validate_1", "validate_2", "execute_1", "execute_2"]
    requires |p.steps| == 4 && StepIds(p.steps) == ids && p.executionOrder == ids
    ensures OrderIsPermutation(p)
  {
    assert forall k :: 0 <= k < 4 ==> p.steps[k].stepId == ids[k];
  }

  lemma OrderShapeRespects(p: WorkflowPlan, ids: seq<string>, deps: seq<seq<string>>)
    requires ids == ["validate_1", "validate_2", "execute_1", "execute_2"]
    requires deps == [[], ["validate_1"], ["validate_5"], ["execute_1"]]
    requires |p.steps| == 4 && StepIds(p.steps) == ids && p.executionOrder == ids
    requires forall i :: 0 <= i < 4 ==> p.steps[i].dependencies == deps[i]
    ensures OrderRespectsDeclaredDependencies(p)
  {
    DependenciesPointBack(ids, deps);
    forall a, b, i | 0 <= a < 4 && 0 <= b < 4 && 0 <= i < 4
      && p.steps[i].stepId == p.executionOrder[a] && p.executionOrder[b] in p.steps[i].dependencies
      ensures b < a
    {
      assert p.steps[i].stepId == ids[i];
      assert i == a;
    }
  }

  /** Every listed dependency that is one of the ids names an earlier id. */
  lemma DependenciesPointBack(ids: seq<string>, deps: seq<seq<string>>)
    requires ids == ["validate_1", "validate_2", "execute_1", "execute_2"]
    requires deps == [[], ["validate_1"], ["validate_5"], ["execute_1"]]
    ensures forall a, b :: 0 <= a < 4 && 0 <= b < 4 && ids[b] in deps[a] ==> b < a
  {
  }

  lemma SingleStepPlanShape(p: WorkflowPlan)
    requires |p.steps| == 1 && p.steps[0].stepId == "step_1" && p.steps[0].dependencies == []
    requires p.executionOrder == ["step_1"]
    ensures WellFormed(p)
  {
    assert StepIds(p.steps) == ["step_1"];
  }

  // ---------------------------------------------------------------------
  // Properties of the literal plans

  /** The dangling dependency: execute_1 waits for a step nobody declares. */
  lemma CompoundPlanDanglingDependency(query: string)
    requires IsCompoundRequest(query)
    ensures var p := AnalyzeMultiDomainRequest(query);
      && p.steps[2].stepId == "execute_1"
      && p.steps[2].dependencies == ["validate_5"]
      && "validate_5" !in StepIds(p.steps)
      && !WellFormed(p)
  {
    CompoundStepsFacts();
  }

  /** The compound plan's steps and order are constants: only original_query varies. */
  lemma CompoundPlanIgnoresQuery(q1: string, q2: string)
    requires IsCompoundRequest(q1) && IsCompoundRequest(q2)
    ensures AnalyzeMultiDomainRequest(q1).(originalQuery := q2) == AnalyzeMultiDomainRequest(q2)
  {
  }

  /** The declared dependencies that exist (validate_2 on validate_1, execute_2 on
      execute_1) precede their dependents in execution_order. */
  lemma CompoundPlanOrder(query: string)
    requires IsCompoundRequest(query)
    ensures var p := AnalyzeMultiDomainRequest(query);
      && p.requestId == "REQ_001_DEFENSIVE"
      && p.executionOrder == StepIds(p.steps)
      && p.executionOrder == ["validate_1", "validate_2", "execute_1", "execute_2"]
      && p.steps[1].dependencies == ["validate_1"]
      && p.steps[3].dependencies == ["execute_1"]
      && p.steps[3].parameters["amount"] == PReal(100.0)
      && p.steps[3].parameters["customer_email"] == PStr("abc@gmail.com")
      && p.steps[3].parameters["currency"] == PStr("USD")
  {
    CompoundStepsFacts();
    PaymentStepParameters();
  }

  /** Any other query yields the one-step "general" plan carrying the query. */
  lemma DefaultPlan(query: string)
    requires !IsCompoundRequest(query)
    ensures var p := AnalyzeMultiDomainRequest(query);
      && p.requestId == "REQ_002"
      && p.steps == [WorkflowStep("step_1", "general", "handle_query",
                                  map["query" := PStr(query)], [], "pending")]
      && p.executionOrder == ["step_1"]
  {
  }

  /** The query the demo's main() sends, written as four pieces so that the two
      keyword positions can be named. */
  const DemoQuery: string :=
    "Add part" + "Number PART_001 to Repair order number RO_001, and send "
    + "payment link" + " of 100$ to abc@gmail.com"

  /** Lower-casing commutes with slicing. */
  lemma LowerSlice(s: string, i: int, j: int)
    requires 0 <= i <= j <= |s|
    ensures Lower(s)[i..j] == Lower(s[i..j])
  {
  }

  /** A query with "add part" and then "payment link" anywhere in it, in any
      case, is compound. */
  lemma KeywordsMakeCompound(p: string, a: string, b: string, c: string, d: string)
    requires Lower(a) == "add part" && Lower(c) == "payment link"
    ensures IsCompoundRequest(p + a + b + c + d)
  {
    var q := p + a + b + c + d;
    var i := |p|;
    var j := |p| + |a| + |b|;
    assert q[i..i + |a|] == a;
    LowerSlice(q, i, i + |a|);
    OccursContains(Lower(q), "add part", i);
    assert q[j..j + |c|] == c;
    LowerSlice(q, j, j + |c|);
    OccursContains(Lower(q), "payment link", j);
  }

  /** The demo query selects the compound plan: its lower-cased form contains
      "add part" (inside "add partnumber") and "payment link". */
  lemma DemoQueryIsCompound()
    ensures IsCompoundRequest(DemoQuery)
  {
    var a, c := "Add part", "payment link";
    assert Lower(a) == "add part";
    assert Lower(c) == "payment link";
    var b, d := "Number PART_001 to Repair order number RO_001, and send ", " of 100$ to abc@gmail.com";
    assert "" + a == a;
    KeywordsMakeCompound("", a, b, c, d);
  }
}
