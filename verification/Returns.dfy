/**
The Return Request of ReturnsOS: four workflows on one document, tied together by conditions, and
what holds between their states in every document that was ever saved.
*/
module Returns {
  import opened Results
  import opened Documents
  import opened Workflows

  // ----- The model ------------------------------------------------------------------

  const AGENT := ["Returns Agent", "Returns Manager"]
  const WAREHOUSE := ["Warehouse Inspector", "Returns Manager"]
  const FINANCE := ["Finance Approver", "Returns Manager"]
  const MANAGER := ["Returns Manager"]
  const RESOLVERS := ["Returns Agent", "Finance Approver", "Returns Manager"]

  const LOGISTICS_RECEIVED := Compare(Before, "logistics_state", Equals(Str("Received")))
  const INSPECTION_ACCEPTED := Compare(Before, "inspection_state", OneOf([Str("Passed"), Str("Partial")]))
  const REFUND_FINISHED := Compare(Before, "refund_state", OneOf([Str("Refunded"), Str("Rejected")]))
  const TRACKING_SET := Compare(Before, "tracking_number", IsSet)
  const AMOUNT_POSITIVE := Other("approved_amount gt 0")
  const REFUND_SCHEDULED := Compare(Before, "scheduled_refund_at", IsSet)
  const REFERENCE_GIVEN := All([Compare(Before, "refund_reference", IsSet), Compare(Before, "refund_reference", Differs(Str("")))])

  const CASE := Workflow("case", "case_state", "Draft", [
    Transition("submit", "Draft", "Submitted", Some(AGENT), Always),
    Transition("startProcessing", "Submitted", "Processing", Some(AGENT), Always),
    Transition("resolve", "Processing", "Resolved", Some(RESOLVERS), REFUND_FINISHED),
    Transition("close", "Resolved", "Closed", Some(MANAGER), Always)
  ])

  const LOGISTICS := Workflow("logistics", "logistics_state", "Not Started", [
    Transition("prepareShipment", "Not Started", "Awaiting Shipment", Some(AGENT), Always),
    Transition("markInTransit", "Awaiting Shipment", "In Transit", Some(AGENT), TRACKING_SET),
    Transition("receive", "In Transit", "Received", Some(WAREHOUSE), Always),
    Transition("reportLost", "In Transit", "Lost", Some(MANAGER), Always)
  ])

  const INSPECTION := Workflow("inspection", "inspection_state", "Pending", [
    Transition("pass", "Pending", "Passed", Some(WAREHOUSE), LOGISTICS_RECEIVED),
    Transition("markPartial", "Pending", "Partial", Some(WAREHOUSE), LOGISTICS_RECEIVED),
    Transition("fail", "Pending", "Failed", Some(WAREHOUSE), LOGISTICS_RECEIVED)
  ])

  const REFUND := Workflow("refund", "refund_state", "Not Eligible", [
    Transition("requestApproval", "Not Eligible", "Pending Approval", Some(AGENT), All([LOGISTICS_RECEIVED, INSPECTION_ACCEPTED])),
    Transition("approve", "Pending Approval", "Approved", Some(FINANCE), AMOUNT_POSITIVE),
    Transition("reject", "Pending Approval", "Rejected", Some(FINANCE), Always),
    Transition("beginProcessing", "Approved", "Processing", Some(FINANCE), REFUND_SCHEDULED),
    Transition("markRefunded", "Processing", "Refunded", Some(FINANCE), REFERENCE_GIVEN)
  ])

  const RETURN_REQUEST := [CASE, LOGISTICS, INSPECTION, REFUND]

  /** The plan of a composite command: the patch it proposes and the transitions it asks for, in order. */
  datatype Plan = Plan(patch: Data, intents: seq<Intent>)

  datatype InspectionOutcome = Passed | Partial | Failed

  function OutcomeState(outcome: InspectionOutcome): string {
    match outcome
    case Passed => "Passed"
    case Partial => "Partial"
    case Failed => "Failed"
  }

  function OutcomeAction(outcome: InspectionOutcome): string {
    match outcome
    case Passed => "pass"
    case Partial => "markPartial"
    case Failed => "fail"
  }

  /** Receives the shipment first if it is still in transit. */
  function InspectReturn(data: Data, outcome: InspectionOutcome, details: Data): Plan {
    var receive := Get(data, "logistics_state") == Str("In Transit");
    var state := map["inspection_state" := Str(OutcomeState(outcome))];
    Plan(details + state + (if receive then map["logistics_state" := Str("Received")] else map[]),
                (if receive then [Intent("logistics", "receive")] else []) + [Intent("inspection", OutcomeAction(outcome))])
  }

  function CompleteRefundAndResolve(reference: string): Plan {
    Plan(map["refund_reference" := Str(reference), "refund_state" := Str("Refunded"), "case_state" := Str("Resolved")],
                [Intent("refund", "markRefunded"), Intent("case", "resolve")])
  }

  predicate IsPlain(patch: Data) {
    forall w | w in RETURN_REQUEST :: w.stateField !in patch
  }

  // ----- Safety ----------------------------------------------------------------------------

  predicate IsInspected(data: Data) {
    StateOf(INSPECTION, data) != "Pending"
  }

  predicate IsAccepted(data: Data) {
    StateOf(INSPECTION, data) == "Passed" || StateOf(INSPECTION, data) == "Partial"
  }

  predicate IsReceived(data: Data) {
    StateOf(LOGISTICS, data) == "Received"
  }

  predicate IsRefunding(data: Data) {
    StateOf(REFUND, data) != "Not Eligible"
  }

  predicate IsRefundFinished(data: Data) {
    StateOf(REFUND, data) == "Refunded" || StateOf(REFUND, data) == "Rejected"
  }

  predicate IsSettled(data: Data) {
    StateOf(CASE, data) == "Resolved" || StateOf(CASE, data) == "Closed"
  }

  /**
  Nothing is inspected before it is received, nothing is refunded before it passed inspection at
  least in part, and no case is settled before its refund is.
  */
  predicate IsSafe(data: Data) {
    && (IsInspected(data) ==> IsReceived(data))
    && (IsRefunding(data) ==> IsReceived(data) && IsAccepted(data))
    && (IsSettled(data) ==> IsRefundFinished(data))
  }

  lemma FieldsDiffer()
    ensures "case_state" != "logistics_state" && "case_state" != "inspection_state" && "case_state" != "refund_state"
    ensures "logistics_state" != "inspection_state" && "logistics_state" != "refund_state"
    ensures "inspection_state" != "refund_state"
  {
    assert |"case_state"| == 10 && |"refund_state"| == 12 && |"logistics_state"| == 15 && |"inspection_state"| == 16;
  }

  /** Moving one workflow leaves the others where they are. */
  lemma {:induction false} OthersStay(data: Data, w: Workflow, state: string, other: Workflow)
    requires w in RETURN_REQUEST && other in RETURN_REQUEST && w != other
    ensures StateOf(other, Moved(data, w.stateField, state)) == StateOf(other, data)
    ensures StateOf(w, Moved(data, w.stateField, state)) == state
  {
    FieldsDiffer();
  }

  /** A shipment that was received stays received. */
  lemma {:induction false} LogisticsMove(data: Data, fact: Fact, actor: Actor, oracle: Oracle, t: Transition)
    requires IsGrantedBy(LOGISTICS, data, fact, actor, oracle, t) && t.fromState == StateOf(LOGISTICS, data)
    ensures !IsReceived(data)
  {
    hide Holds, HasRole;
    assert "Not Started"[0] == 'N' && "Awaiting Shipment"[0] == 'A' && "In Transit"[0] == 'I' && "Received"[0] == 'R';
  }

  /** An inspection happens once, after the shipment was received. */
  lemma {:induction false} InspectionMove(data: Data, fact: Fact, actor: Actor, oracle: Oracle, t: Transition)
    requires IsGrantedBy(INSPECTION, data, fact, actor, oracle, t) && t.fromState == StateOf(INSPECTION, data)
    ensures !IsInspected(data) && IsReceived(data)
  {
    hide HasRole;
    assert t.allowWhen == LOGISTICS_RECEIVED;
  }

  lemma {:induction false} ApprovalCondition(before: Data, after: Data, oracle: Oracle)
    requires Holds(All([LOGISTICS_RECEIVED, INSPECTION_ACCEPTED]), before, after, oracle)
    ensures IsReceived(before) && IsAccepted(before)
  {
    assert LOGISTICS_RECEIVED in [LOGISTICS_RECEIVED, INSPECTION_ACCEPTED];
    assert INSPECTION_ACCEPTED in [LOGISTICS_RECEIVED, INSPECTION_ACCEPTED];
    assert Holds(LOGISTICS_RECEIVED, before, after, oracle) && Holds(INSPECTION_ACCEPTED, before, after, oracle);
  }

  /** A refund starts only for an accepted return and does not move once finished. */
  lemma {:induction false} RefundMove(data: Data, fact: Fact, actor: Actor, oracle: Oracle, t: Transition)
    requires IsGrantedBy(REFUND, data, fact, actor, oracle, t) && t.fromState == StateOf(REFUND, data)
    ensures !IsRefundFinished(data)
    ensures IsRefunding(data) || (IsReceived(data) && IsAccepted(data))
  {
    hide Holds, HasRole;
    assert "Not Eligible"[0] == 'N' && "Approved"[0] == 'A' && "Refunded"[0] == 'R' && "Rejected"[0] == 'R';
    assert "Pending Approval"[0] == 'P' && "Processing"[0] == 'P';
    if t.fromState == "Not Eligible" {
      ApprovalCondition(data, Moved(data, "refund_state", t.toState), oracle);
    }
  }

  lemma {:induction false} FinishedCondition(before: Data, after: Data, oracle: Oracle)
    requires Holds(REFUND_FINISHED, before, after, oracle)
    ensures IsRefundFinished(before)
  {
  }

  /** A case is resolved only once its refund is finished, and closed only from there. */
  lemma {:induction false} CaseMove(data: Data, fact: Fact, actor: Actor, oracle: Oracle, t: Transition)
    requires IsGrantedBy(CASE, data, fact, actor, oracle, t) && t.fromState == StateOf(CASE, data)
    ensures t.toState == "Resolved" || t.toState == "Closed" ==> IsSettled(data) || IsRefundFinished(data)
  {
    hide Holds, HasRole;
    assert "Submitted"[0] == 'S' && "Processing"[0] == 'P' && "Resolved"[0] == 'R' && "Closed"[0] == 'C' && "Draft"[0] == 'D';
    if t.toState == "Resolved" {
      FinishedCondition(data, Moved(data, "case_state", t.toState), oracle);
    }
  }

  lemma {:induction false} SafeGranted(w: Workflow, data: Data, fact: Fact, actor: Actor, oracle: Oracle, t: Transition)
    requires w in RETURN_REQUEST && IsSafe(data)
    requires IsGrantedBy(w, data, fact, actor, oracle, t) && t.fromState == StateOf(w, data)
    ensures IsSafe(Moved(data, w.stateField, t.toState))
  {
    hide IsGrantedBy, StateOf;
    forall other | other in RETURN_REQUEST && other != w
      ensures StateOf(other, Moved(data, w.stateField, t.toState)) == StateOf(other, data)
    {
      OthersStay(data, w, t.toState, other);
    }
    WorkflowsDiffer();
    if w == CASE {
      CaseMove(data, fact, actor, oracle, t);
      OthersStay(data, w, t.toState, LOGISTICS);
    } else if w == LOGISTICS {
      LogisticsMove(data, fact, actor, oracle, t);
    } else if w == INSPECTION {
      InspectionMove(data, fact, actor, oracle, t);
    } else {
      RefundMove(data, fact, actor, oracle, t);
    }
  }

  /** Every transition the workflows allow keeps a safe document safe. */
  lemma {:induction false} SafeMove(w: Workflow, data: Data, action: string, actor: Actor, oracle: Oracle)
    requires w in RETURN_REQUEST && IsSafe(data)
    requires PlanTransition(w, data, action, actor, oracle).Ok?
    ensures var fact := PlanTransition(w, data, action, actor, oracle).value;
      fact.stateField == w.stateField && IsSafe(Moved(data, fact.stateField, fact.toState))
  {
    hide PlanTransition, IsSafe, StateOf, IsDeclared;
    PlannedFact(w, data, action, actor, oracle);
    var fact := PlanTransition(w, data, action, actor, oracle).value;
    var t :| IsGrantedBy(w, data, fact, actor, oracle, t);
    SafeGranted(w, data, fact, actor, oracle, t);
  }

  lemma WorkflowsDiffer()
    ensures CASE != LOGISTICS && CASE != INSPECTION && CASE != REFUND
    ensures LOGISTICS != INSPECTION && LOGISTICS != REFUND && INSPECTION != REFUND
    ensures CASE in RETURN_REQUEST && LOGISTICS in RETURN_REQUEST && INSPECTION in RETURN_REQUEST && REFUND in RETURN_REQUEST
    ensures DistinctWorkflows(RETURN_REQUEST)
  {
    FieldsDiffer();
    assert |"case"| == 4 && |"logistics"| == 9 && |"inspection"| == 10 && |"refund"| == 6;
    assert RETURN_REQUEST[0] == CASE && RETURN_REQUEST[1] == LOGISTICS;
    assert RETURN_REQUEST[2] == INSPECTION && RETURN_REQUEST[3] == REFUND;
  }

  /** Several transitions in one command keep it safe, each judged on the document as the ones before leave it. */
  lemma {:induction false} SafeIntents(data: Data, intents: seq<Intent>, actor: Actor, oracle: Oracle)
    requires IsSafe(data) && RunIntents(RETURN_REQUEST, data, intents, actor, oracle).Ok?
    ensures IsSafe(RunIntents(RETURN_REQUEST, data, intents, actor, oracle).value.data)
    decreases |intents|
  {
    hide IsSafe, PlanTransition, RunIntents;
    if intents != [] {
      var earlier, moving, fact := RunOne(RETURN_REQUEST, data, intents, actor, oracle);
      SafeIntents(data, intents[..|intents| - 1], actor, oracle);
      SafeMove(moving, earlier.data, intents[|intents| - 1].action, actor, oracle);
    } else {
      NoIntents(data, intents, actor, oracle);
    }
  }

  lemma {:induction false} NoIntents(data: Data, intents: seq<Intent>, actor: Actor, oracle: Oracle)
    requires intents == []
    ensures RunIntents(RETURN_REQUEST, data, intents, actor, oracle) == Ok(Progress(data, [], map[]))
  {
  }

  lemma {:induction false} SameStatesSameSafety(data: Data, other: Data)
    requires forall w | w in RETURN_REQUEST :: StateOf(w, data) == StateOf(w, other)
    ensures IsSafe(data) <==> IsSafe(other)
  {
    WorkflowsDiffer();
    hide StateOf;
  }

  /** Every accepted change keeps a safe document safe: the saved document is in the states that were planned. */
  lemma {:induction false} SafeSave(data: Data, change: Change, actor: Actor, oracle: Oracle)
    requires IsSafe(data) && Save(RETURN_REQUEST, data, change, actor, oracle).Ok?
    ensures IsSafe(Save(RETURN_REQUEST, data, change, actor, oracle).value.data)
  {
    WorkflowsDiffer();
    var saved := Save(RETURN_REQUEST, data, change, actor, oracle).value;
    var planned := PlannedData(data, change, actor, oracle);
    PlannedIsSafe(data, change, actor, oracle);
    hide Save, IsSafe, StateOf, PlannedData;
    forall w | w in RETURN_REQUEST
      ensures StateOf(w, planned) == StateOf(w, saved.data)
    {
      FactsChain(RETURN_REQUEST, data, change, actor, oracle, w);
      PlannedStates(data, change, actor, oracle, w);
    }
    SameStatesSameSafety(planned, saved.data);
  }

  /** The data as planned, before hooks and fetched fields add to them. */
  function PlannedData(data: Data, change: Change, actor: Actor, oracle: Oracle): Data
    requires Save(RETURN_REQUEST, data, change, actor, oracle).Ok?
  {
    match change
    case Update(_, _) => data
    case Transit(name, action, _, _) =>
      var fact := PlanTransition(FindWorkflow(RETURN_REQUEST, name).value, data, action, actor, oracle).value;
      Moved(data, fact.stateField, fact.toState)
    case Execute(patch, intents, _) =>
      RunIntents(RETURN_REQUEST, data + Ordinary(RETURN_REQUEST, patch), intents, actor, oracle).value.data
  }

  lemma {:induction false} PlannedIsSafe(data: Data, change: Change, actor: Actor, oracle: Oracle)
    requires IsSafe(data) && Save(RETURN_REQUEST, data, change, actor, oracle).Ok?
    ensures IsSafe(PlannedData(data, change, actor, oracle))
  {
    hide IsSafe, StateOf, PlanTransition, RunIntents, NoStateIssues, RespectsStates;
    match change
    case Update(_, _) =>
    case Transit(name, action, _, _) =>
      FoundIsWorkflow(RETURN_REQUEST, name);
      SafeMove(FindWorkflow(RETURN_REQUEST, name).value, data, action, actor, oracle);
    case Execute(patch, intents, _) =>
      var start := data + Ordinary(RETURN_REQUEST, patch);
      forall w | w in RETURN_REQUEST ensures StateOf(w, start) == StateOf(w, data) {
        OrdinaryKeepsStates(RETURN_REQUEST, data, patch, w);
      }
      SameStatesSameSafety(start, data);
      SafeIntents(start, intents, actor, oracle);
  }

  lemma {:induction false} TransitStates(data: Data, change: Change, actor: Actor, oracle: Oracle, w: Workflow)
    requires w in RETURN_REQUEST && change.Transit? && Save(RETURN_REQUEST, data, change, actor, oracle).Ok?
    ensures StateAfter(w, StateOf(w, data), Save(RETURN_REQUEST, data, change, actor, oracle).value.facts)
         == Some(StateOf(w, PlannedData(data, change, actor, oracle)))
  {
    hide Holds, NoStateIssues, IsDeclared, PlanTransition, FindWorkflow, DistinctWorkflows;
    WorkflowsDiffer();
    var moving := FindWorkflow(RETURN_REQUEST, change.workflow).value;
    FoundIsWorkflow(RETURN_REQUEST, change.workflow);
    PlannedFact(moving, data, change.action, actor, oracle);
    SameWorkflow(RETURN_REQUEST, w, moving);
    var fact := PlanTransition(moving, data, change.action, actor, oracle).value;
    assert [] + [fact] == [fact];
  }

  lemma {:induction false} ExecuteStates(data: Data, change: Change, actor: Actor, oracle: Oracle, w: Workflow)
    requires w in RETURN_REQUEST && change.Execute? && Save(RETURN_REQUEST, data, change, actor, oracle).Ok?
    ensures StateAfter(w, StateOf(w, data), Save(RETURN_REQUEST, data, change, actor, oracle).value.facts)
         == Some(StateOf(w, PlannedData(data, change, actor, oracle)))
  {
    hide StateAfter, RunIntents, NoStateIssues, RespectsStates, PlanTransition, StateOf, DistinctWorkflows;
    WorkflowsDiffer();
    var start := data + Ordinary(RETURN_REQUEST, change.patch);
    IntentsCarry(RETURN_REQUEST, start, change.intents, actor, oracle, w);
    OrdinaryKeepsStates(RETURN_REQUEST, data, change.patch, w);
  }

  /** The facts of a change lead from the stored document to the planned one. */
  lemma {:induction false} PlannedStates(data: Data, change: Change, actor: Actor, oracle: Oracle, w: Workflow)
    requires w in RETURN_REQUEST && Save(RETURN_REQUEST, data, change, actor, oracle).Ok?
    ensures StateAfter(w, StateOf(w, data), Save(RETURN_REQUEST, data, change, actor, oracle).value.facts)
         == Some(StateOf(w, PlannedData(data, change, actor, oracle)))
  {
    match change
    case Update(_, _) =>
    case Transit(_, _, _, _) => TransitStates(data, change, actor, oracle, w);
    case Execute(_, _, _) => ExecuteStates(data, change, actor, oracle, w);
  }

  /**
  In every document ever saved: inspected means received, refunding means received and accepted,
  settled means refunded or rejected.
  */
  lemma {:induction false} ReturnsAreSafe(history: seq<Data>, n: nat)
    requires IsHistory(RETURN_REQUEST, history) && n < |history|
    ensures IsSafe(history[n])
  {
    hide Save, IsSafe, StartsInitially;
    if n == 0 {
      InitialIsSafe(history[0]);
    } else {
      ReturnsAreSafe(history, n - 1);
      assert IsSaved(RETURN_REQUEST, history[n - 1], history[n]);
      var change, actor, oracle :| IsSavedBy(RETURN_REQUEST, history[n - 1], history[n], change, actor, oracle);
      SafeSave(history[n - 1], change, actor, oracle);
    }
  }

  lemma {:induction false} InitialIsSafe(data: Data)
    requires StartsInitially(RETURN_REQUEST, data)
    ensures IsSafe(data)
  {
    WorkflowsDiffer();
    assert StateOf(CASE, data) == "Draft" && StateOf(INSPECTION, data) == "Pending" && StateOf(REFUND, data) == "Not Eligible";
    assert "Draft"[0] == 'D' && "Resolved"[0] == 'R' && "Closed"[0] == 'C';
  }

  // ----- Composite commands ----------------------------------------------------------------

  lemma {:induction false} TwoIntents(data: Data, first: Intent, second: Intent, actor: Actor, oracle: Oracle,
                                      w: Workflow, v: Workflow)
    requires FindWorkflow(RETURN_REQUEST, first.workflow) == Some(w) && FindWorkflow(RETURN_REQUEST, second.workflow) == Some(v)
    requires PlanTransition(w, data, first.action, actor, oracle).Ok?
    requires var fact := PlanTransition(w, data, first.action, actor, oracle).value;
      PlanTransition(v, Moved(data, fact.stateField, fact.toState), second.action, actor, oracle).Ok?
    ensures RunIntents(RETURN_REQUEST, data, [first] + [second], actor, oracle).Ok?
    ensures var fact := PlanTransition(w, data, first.action, actor, oracle).value;
      var moved := Moved(data, fact.stateField, fact.toState);
      var next := PlanTransition(v, moved, second.action, actor, oracle).value;
      RunIntents(RETURN_REQUEST, data, [first] + [second], actor, oracle).value
      == Next(Next(Progress(data, [], map[]), fact), next)
  {
    hide PlanTransition, FindWorkflow;
    var intents := [first] + [second];
    assert intents[..1] == [first] && [first][..0] == [];
    assert RunIntents(RETURN_REQUEST, data, [], actor, oracle) == Ok(Progress(data, [], map[]));
  }

  lemma {:induction false} FindReturnWorkflow()
    ensures FindWorkflow(RETURN_REQUEST, "case") == Some(CASE) && FindWorkflow(RETURN_REQUEST, "logistics") == Some(LOGISTICS)
    ensures FindWorkflow(RETURN_REQUEST, "inspection") == Some(INSPECTION) && FindWorkflow(RETURN_REQUEST, "refund") == Some(REFUND)
  {
    WorkflowsDiffer();
    assert RETURN_REQUEST[0] == CASE && RETURN_REQUEST[1] == LOGISTICS;
    assert RETURN_REQUEST[2] == INSPECTION && RETURN_REQUEST[3] == REFUND;
    hide FindWorkflow, DistinctWorkflows;
    FindsItself(RETURN_REQUEST, 0);
    FindsItself(RETURN_REQUEST, 1);
    FindsItself(RETURN_REQUEST, 2);
    FindsItself(RETURN_REQUEST, 3);
  }

  /** The transition found for an action from the only state it starts in. */
  lemma {:induction false} FindAt(transitions: seq<Transition>, k: nat)
    requires k < |transitions|
    requires forall i | 0 <= i < k :: transitions[i].action != transitions[k].action
    ensures FindTransition(transitions, transitions[k].action, transitions[k].fromState) == Some(transitions[k])
    ensures HasAction(transitions, transitions[k].action)
  {
    assert transitions[k] in transitions;
    if k > 0 {
      FindAt(transitions[1..], k - 1);
    }
  }

  lemma {:induction false} ReceivePlanned(data: Data, actor: Actor, oracle: Oracle)
    requires StateOf(LOGISTICS, data) == "In Transit" && "Warehouse Inspector" in actor.roles
    ensures PlanTransition(LOGISTICS, data, "receive", actor, oracle)
         == Ok(Fact("logistics", "logistics_state", "receive", "In Transit", "Received"))
  {
    assert "prepareShipment"[0] == 'p' && "markInTransit"[0] == 'm' && "receive"[0] == 'r';
    assert LOGISTICS.transitions[2].action == "receive";
    FindAt(LOGISTICS.transitions, 2);
    assert "Warehouse Inspector" == WAREHOUSE[0] && WAREHOUSE[0] in WAREHOUSE;
    hide FindTransition;
  }

  lemma {:induction false} InspectionPlanned(data: Data, outcome: InspectionOutcome, actor: Actor, oracle: Oracle)
    requires Get(data, "logistics_state") == Str("Received") && StateOf(INSPECTION, data) == "Pending"
    requires "Warehouse Inspector" in actor.roles
    ensures PlanTransition(INSPECTION, data, OutcomeAction(outcome), actor, oracle)
         == Ok(Fact("inspection", "inspection_state", OutcomeAction(outcome), "Pending", OutcomeState(outcome)))
  {
    assert "pass"[0] == 'p' && "markPartial"[0] == 'm' && "fail"[0] == 'f';
    var k := match outcome case Passed => 0 case Partial => 1 case Failed => 2;
    FindAt(INSPECTION.transitions, k);
    assert "Warehouse Inspector" == WAREHOUSE[0] && WAREHOUSE[0] in WAREHOUSE;
    hide FindTransition;
  }

  /**
  One command receives a shipment in transit and inspects it: the inspection's condition is met by
  the transition planned just before it.
  */
  lemma {:induction false} InspectReturnReceives(data: Data, outcome: InspectionOutcome, details: Data, fetched: Data,
                                                 actor: Actor, oracle: Oracle)
    requires Get(data, "logistics_state") == Str("In Transit") && StateOf(INSPECTION, data) == "Pending"
    requires IsPlain(details) && IsPlain(fetched) && "Warehouse Inspector" in actor.roles
    ensures var command := InspectReturn(data, outcome, details);
      var saved := Save(RETURN_REQUEST, data, Execute(command.patch, command.intents, fetched), actor, oracle);
      saved.Ok? && IsReceived(saved.value.data) && StateOf(INSPECTION, saved.value.data) == OutcomeState(outcome)
  {
    hide RunIntents, StateOf, Save, DistinctWorkflows, RespectsStates, Ordinary, InspectReturn;
    var command := InspectReturn(data, outcome, details);
    InspectReturnRuns(data, outcome, details, actor, oracle);
    InspectionRespects(data, outcome, details);
    WorkflowsDiffer();
    ExecuteSavesIff(RETURN_REQUEST, data, Execute(command.patch, command.intents, fetched), actor, oracle);
  }

  lemma {:induction false} InspectionRespects(data: Data, outcome: InspectionOutcome, details: Data)
    requires Get(data, "logistics_state") == Str("In Transit") && IsPlain(details)
    ensures RespectsStates(RETURN_REQUEST, InspectReturn(data, outcome, details).patch,
                           map["logistics_state" := Str("Received"), "inspection_state" := Str(OutcomeState(outcome))])
  {
    FieldsDiffer();
    WorkflowsDiffer();
    hide DistinctWorkflows, OutcomeState;
  }

  lemma {:induction false} RefundRespects(reference: string)
    ensures RespectsStates(RETURN_REQUEST, CompleteRefundAndResolve(reference).patch,
                           map["refund_state" := Str("Refunded"), "case_state" := Str("Resolved")])
  {
    FieldsDiffer();
    assert "inspection_state"[0] == 'i' && "logistics_state"[0] == 'l' && "refund_reference"[0] == 'r';
    assert |"refund_reference"| == 16 && |"refund_state"| == 12;
    hide DistinctWorkflows;
  }

  lemma {:induction false} InspectReturnRuns(data: Data, outcome: InspectionOutcome, details: Data, actor: Actor, oracle: Oracle)
    requires Get(data, "logistics_state") == Str("In Transit") && StateOf(INSPECTION, data) == "Pending"
    requires IsPlain(details) && "Warehouse Inspector" in actor.roles
    ensures var command := InspectReturn(data, outcome, details);
      var start := data + Ordinary(RETURN_REQUEST, command.patch);
      var ran := RunIntents(RETURN_REQUEST, start, command.intents, actor, oracle);
      && ran.Ok? && IsReceived(ran.value.data) && StateOf(INSPECTION, ran.value.data) == OutcomeState(outcome)
      && ran.value.authorized
         == map["logistics_state" := Str("Received"), "inspection_state" := Str(OutcomeState(outcome))]
  {
    hide PlanTransition, RunIntents, FindWorkflow, Ordinary, DistinctWorkflows;
    var command := InspectReturn(data, outcome, details);
    var start := data + Ordinary(RETURN_REQUEST, command.patch);
    WorkflowsDiffer();
    OrdinaryKeepsStates(RETURN_REQUEST, data, command.patch, LOGISTICS);
    OrdinaryKeepsStates(RETURN_REQUEST, data, command.patch, INSPECTION);
    FindReturnWorkflow();
    assert StateOf(LOGISTICS, data) == "In Transit";
    ReceivePlanned(start, actor, oracle);
    var received := Moved(start, "logistics_state", "Received");
    OthersStay(start, LOGISTICS, "Received", INSPECTION);
    InspectionPlanned(received, outcome, actor, oracle);
    TwoIntents(start, Intent("logistics", "receive"), Intent("inspection", OutcomeAction(outcome)), actor, oracle,
               LOGISTICS, INSPECTION);
    OthersStay(received, INSPECTION, OutcomeState(outcome), LOGISTICS);
  }

  lemma {:induction false} ReferenceGiven(before: Data, after: Data, oracle: Oracle)
    requires Get(before, "refund_reference") != Null && Get(before, "refund_reference") != Str("")
    ensures Holds(REFERENCE_GIVEN, before, after, oracle)
  {
    forall c | c in REFERENCE_GIVEN.conditions
      ensures Holds(c, before, after, oracle)
    {
      assert c == Compare(Before, "refund_reference", IsSet) || c == Compare(Before, "refund_reference", Differs(Str("")));
    }
  }

  lemma {:induction false} RefundPlanned(data: Data, actor: Actor, oracle: Oracle)
    requires StateOf(REFUND, data) == "Processing" && "Finance Approver" in actor.roles
    requires Get(data, "refund_reference") != Null && Get(data, "refund_reference") != Str("")
    ensures PlanTransition(REFUND, data, "markRefunded", actor, oracle)
         == Ok(Fact("refund", "refund_state", "markRefunded", "Processing", "Refunded"))
  {
    assert "requestApproval"[0] == 'r' && "approve"[0] == 'a' && "reject"[0] == 'r' && "beginProcessing"[0] == 'b';
    assert "markRefunded"[0] == 'm' && REFUND.transitions[4].action == "markRefunded";
    FindAt(REFUND.transitions, 4);
    assert "Finance Approver" == FINANCE[0] && FINANCE[0] in FINANCE;
    ReferenceGiven(data, Moved(data, "refund_state", "Refunded"), oracle);
    hide FindTransition, Holds;
  }

  lemma {:induction false} ResolvePlanned(data: Data, actor: Actor, oracle: Oracle)
    requires StateOf(CASE, data) == "Processing" && "Finance Approver" in actor.roles
    requires Get(data, "refund_state") == Str("Refunded")
    ensures PlanTransition(CASE, data, "resolve", actor, oracle)
         == Ok(Fact("case", "case_state", "resolve", "Processing", "Resolved"))
  {
    assert "submit"[1] == 'u' && "startProcessing"[1] == 't' && "resolve"[1] == 'e';
    assert CASE.transitions[2].action == "resolve";
    FindAt(CASE.transitions, 2);
    assert "Finance Approver" == RESOLVERS[1] && RESOLVERS[1] in RESOLVERS;
    assert Str("Refunded") in [Str("Refunded"), Str("Rejected")];
    hide FindTransition;
  }

  /** One command completes the refund and resolves the case, whose condition the refund has just met. */
  lemma {:induction false} CompleteRefundResolves(data: Data, reference: string, fetched: Data, actor: Actor, oracle: Oracle)
    requires StateOf(REFUND, data) == "Processing" && StateOf(CASE, data) == "Processing"
    requires reference != "" && IsPlain(fetched) && "Finance Approver" in actor.roles
    ensures var command := CompleteRefundAndResolve(reference);
      var saved := Save(RETURN_REQUEST, data, Execute(command.patch, command.intents, fetched), actor, oracle);
      saved.Ok? && IsRefundFinished(saved.value.data) && IsSettled(saved.value.data)
  {
    hide RunIntents, StateOf, Save, DistinctWorkflows, RespectsStates, Ordinary, CompleteRefundAndResolve;
    var command := CompleteRefundAndResolve(reference);
    CompleteRefundRuns(data, reference, actor, oracle);
    RefundRespects(reference);
    WorkflowsDiffer();
    ExecuteSavesIff(RETURN_REQUEST, data, Execute(command.patch, command.intents, fetched), actor, oracle);
  }

  lemma {:induction false} CompleteRefundRuns(data: Data, reference: string, actor: Actor, oracle: Oracle)
    requires StateOf(REFUND, data) == "Processing" && StateOf(CASE, data) == "Processing"
    requires reference != "" && "Finance Approver" in actor.roles
    ensures var command := CompleteRefundAndResolve(reference);
      var start := data + Ordinary(RETURN_REQUEST, command.patch);
      var ran := RunIntents(RETURN_REQUEST, start, command.intents, actor, oracle);
      && ran.Ok? && IsRefundFinished(ran.value.data) && IsSettled(ran.value.data)
      && ran.value.authorized == map["refund_state" := Str("Refunded"), "case_state" := Str("Resolved")]
  {
    hide PlanTransition, RunIntents, FindWorkflow, Ordinary, DistinctWorkflows, StateOf;
    var command := CompleteRefundAndResolve(reference);
    var start := data + Ordinary(RETURN_REQUEST, command.patch);
    WorkflowsDiffer();
    OrdinaryKeepsStates(RETURN_REQUEST, data, command.patch, REFUND);
    OrdinaryKeepsStates(RETURN_REQUEST, data, command.patch, CASE);
    FindReturnWorkflow();
    ReferenceIsOrdinary(data, reference);
    RefundPlanned(start, actor, oracle);
    var refunded := Moved(start, "refund_state", "Refunded");
    OthersStay(start, REFUND, "Refunded", CASE);
    ResolvePlanned(refunded, actor, oracle);
    TwoIntents(start, Intent("refund", "markRefunded"), Intent("case", "resolve"), actor, oracle, REFUND, CASE);
    OthersStay(refunded, CASE, "Resolved", REFUND);
    assert command.intents == [Intent("refund", "markRefunded")] + [Intent("case", "resolve")];
  }

  lemma {:induction false} ReferenceIsOrdinary(data: Data, reference: string)
    ensures Get(data + Ordinary(RETURN_REQUEST, CompleteRefundAndResolve(reference).patch), "refund_reference") == Str(reference)
  {
    WorkflowsDiffer();
    var patch := CompleteRefundAndResolve(reference).patch;
    assert |"refund_reference"| == 16 && "refund_reference"[0] == 'r' && "inspection_state"[0] == 'i';
    assert |"case_state"| == 10 && |"refund_state"| == 12 && |"logistics_state"| == 15;
    assert "refund_reference" !in StateFields(RETURN_REQUEST);
    assert "refund_reference" in patch && patch["refund_reference"] == Str(reference);
  }
}
