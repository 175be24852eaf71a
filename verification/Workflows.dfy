/**
Named workflows on a document: which transitions are allowed, how a command plans several of them,
and what creating, updating, transitioning and executing commands may do to the state fields.
*/
module Workflows {
  import opened Results
  import opened Documents

  datatype Scope = Before | After

  datatype Test = Equals(expected: Json) | Differs(expected: Json) | OneOf(values: seq<Json>) | IsSet

  /** A condition on the document before and after; one that is not a test of a field is left to an oracle. */
  datatype Condition =
    | Always
    | Compare(scope: Scope, field: string, test: Test)
    | All(conditions: seq<Condition>)
    | Any(conditions: seq<Condition>)
    | Not(condition: Condition)
    | Other(name: string)

  type Oracle = (string, Data, Data) -> bool

  datatype Transition = Transition(action: string, fromState: string, toState: string, roles: Option<seq<string>>,
                                   allowWhen: Condition)

  datatype Workflow = Workflow(name: string, stateField: string, initialState: string, transitions: seq<Transition>)

  /** What a committed transition records. */
  datatype Fact = Fact(workflow: string, stateField: string, action: string, fromState: string, toState: string)

  datatype Intent = Intent(workflow: string, action: string)

  datatype Actor = Actor(roles: seq<string>)

  // ----- Conditions --------------------------------------------------------------

  predicate TestValue(data: Data, field: string, test: Test) {
    match test
    case Equals(expected) => field in data && data[field] == expected
    case Differs(expected) => field in data && data[field] != Null && data[field] != expected
    case OneOf(values) => field in data && data[field] != Null && data[field] in values
    case IsSet => field in data && data[field] != Null
  }

  predicate Holds(condition: Condition, before: Data, after: Data, oracle: Oracle) {
    match condition
    case Always => true
    case Compare(scope, field, test) => TestValue(if scope.Before? then before else after, field, test)
    case All(conditions) => forall c | c in conditions :: Holds(c, before, after, oracle)
    case Any(conditions) => exists c | c in conditions :: Holds(c, before, after, oracle)
    case Not(c) => !Holds(c, before, after, oracle)
    case Other(name) => oracle(name, before, after)
  }

  // ----- One transition --------------------------------------------------------------

  function Shown(value: Json): string {
    match value
    case Null => ""
    case Str(text) => text
    case Num(decimal) => decimal
    case Bool(b) => if b then "true" else "false"
    case Composite(json) => json
  }

  function StateOf(w: Workflow, data: Data): string {
    if Get(data, w.stateField) == Null then w.initialState else Shown(data[w.stateField])
  }

  function FindTransition(transitions: seq<Transition>, action: string, state: string): Option<Transition> {
    if transitions == [] then None
    else if transitions[0].action == action && transitions[0].fromState == state then Some(transitions[0])
    else FindTransition(transitions[1..], action, state)
  }

  predicate HasAction(transitions: seq<Transition>, action: string) {
    exists t | t in transitions :: t.action == action
  }

  predicate HasRole(actor: Actor, t: Transition) {
    t.roles.None? || (exists role | role in t.roles.value :: role in actor.roles)
  }

  function Moved(data: Data, stateField: string, state: string): Data {
    data[stateField := Str(state)]
  }

  /** The action must exist, start in the current state, be open to the actor, and have its condition met. */
  function PlanTransition(w: Workflow, data: Data, action: string, actor: Actor, oracle: Oracle): Result<Fact> {
    var current := StateOf(w, data);
    var found := FindTransition(w.transitions, action, current);
    if !HasAction(w.transitions, action) then Err(NotFound)
    else if found.None? then Err(Conflict)
    else if !HasRole(actor, found.value) then Err(Conflict)
    else if !Holds(found.value.allowWhen, data, Moved(data, w.stateField, found.value.toState), oracle) then Err(Conflict)
    else Ok(Fact(w.name, w.stateField, action, current, found.value.toState))
  }

  predicate IsDeclared(w: Workflow, fact: Fact) {
    exists t | t in w.transitions :: t.action == fact.action && t.fromState == fact.fromState && t.toState == fact.toState
  }

  /** The transition a planned fact comes from: declared, open to the actor, with its condition met. */
  predicate IsGrantedBy(w: Workflow, data: Data, fact: Fact, actor: Actor, oracle: Oracle, t: Transition) {
    && t in w.transitions && t.action == fact.action && t.fromState == fact.fromState && t.toState == fact.toState
    && HasRole(actor, t) && Holds(t.allowWhen, data, Moved(data, w.stateField, t.toState), oracle)
  }

  lemma {:induction false} FoundIsDeclared(transitions: seq<Transition>, action: string, state: string)
    ensures var found := FindTransition(transitions, action, state);
      found.Some? ==> found.value in transitions && found.value.action == action && found.value.fromState == state
    ensures FindTransition(transitions, action, state).None? ==>
              forall t | t in transitions :: !(t.action == action && t.fromState == state)
  {
    if transitions != [] {
      FoundIsDeclared(transitions[1..], action, state);
      assert transitions == [transitions[0]] + transitions[1..];
    }
  }

  /** A planned fact starts in the current state, moves the state it names, and was granted by a declared transition. */
  lemma {:induction false} PlannedFact(w: Workflow, data: Data, action: string, actor: Actor, oracle: Oracle)
    requires PlanTransition(w, data, action, actor, oracle).Ok?
    ensures var fact := PlanTransition(w, data, action, actor, oracle).value;
      && fact.workflow == w.name && fact.stateField == w.stateField
      && fact.fromState == StateOf(w, data) && fact.toState == StateOf(w, Moved(data, fact.stateField, fact.toState))
      && IsDeclared(w, fact)
      && (exists t :: IsGrantedBy(w, data, fact, actor, oracle, t))
  {
    FoundIsDeclared(w.transitions, action, StateOf(w, data));
    var t := FindTransition(w.transitions, action, StateOf(w, data)).value;
    var fact := PlanTransition(w, data, action, actor, oracle).value;
    assert IsGrantedBy(w, data, fact, actor, oracle, t);
  }

  // ----- Several transitions in one command --------------------------------------------

  predicate DistinctWorkflows(workflows: seq<Workflow>) {
    && (forall i, j | 0 <= i < j < |workflows| :: workflows[i].name != workflows[j].name)
    && (forall i, j | 0 <= i < j < |workflows| :: workflows[i].stateField != workflows[j].stateField)
  }

  function FindWorkflow(workflows: seq<Workflow>, name: string): Option<Workflow> {
    if workflows == [] then None
    else if workflows[0].name == name then Some(workflows[0])
    else FindWorkflow(workflows[1..], name)
  }

  lemma {:induction false} FoundIsWorkflow(workflows: seq<Workflow>, name: string)
    ensures var found := FindWorkflow(workflows, name);
      found.Some? ==> found.value in workflows && found.value.name == name
  {
    if workflows != [] {
      FoundIsWorkflow(workflows[1..], name);
    }
  }

  lemma {:induction false} FindsItself(workflows: seq<Workflow>, k: nat)
    requires DistinctWorkflows(workflows) && k < |workflows|
    ensures FindWorkflow(workflows, workflows[k].name) == Some(workflows[k])
  {
    if k > 0 {
      assert workflows[0].name != workflows[k].name;
      var rest := workflows[1..];
      assert DistinctWorkflows(rest) by {
        forall i, j | 0 <= i < j < |rest|
          ensures rest[i].name != rest[j].name && rest[i].stateField != rest[j].stateField
        {
          assert rest[i] == workflows[i + 1] && rest[j] == workflows[j + 1];
        }
      }
      FindsItself(rest, k - 1);
    }
  }

  function StateFields(workflows: seq<Workflow>): set<string> {
    set w | w in workflows :: w.stateField
  }

  /** The part of a patch that touches no state field. */
  function Ordinary(workflows: seq<Workflow>, patch: Data): Data {
    map field | field in patch && field !in StateFields(workflows) :: patch[field]
  }

  /** Where a command is after some of its transitions: the proposed data, the facts and the states they end in. */
  datatype Progress = Progress(data: Data, facts: seq<Fact>, authorized: Data)

  function Next(progress: Progress, fact: Fact): Progress {
    Progress(Moved(progress.data, fact.stateField, fact.toState), progress.facts + [fact],
             Moved(progress.authorized, fact.stateField, fact.toState))
  }

  function RunIntents(workflows: seq<Workflow>, data: Data, intents: seq<Intent>, actor: Actor, oracle: Oracle): Result<Progress> {
    if intents == [] then Ok(Progress(data, [], map[]))
    else
      var earlier, intent := RunIntents(workflows, data, intents[..|intents| - 1], actor, oracle), intents[|intents| - 1];
      if earlier.Err? then earlier
      else
        var w := FindWorkflow(workflows, intent.workflow);
        if w.None? then Err(NotFound)
        else
          var planned := PlanTransition(w.value, earlier.value.data, intent.action, actor, oracle);
          if planned.Err? then Err(planned.error) else Ok(Next(earlier.value, planned.value))
  }

  lemma {:induction false} OrdinaryKeepsStates(workflows: seq<Workflow>, data: Data, patch: Data, w: Workflow)
    requires w in workflows
    ensures StateOf(w, data + Ordinary(workflows, patch)) == StateOf(w, data)
  {
    assert w.stateField in StateFields(workflows);
  }

  /** A patch may name a state field only with the value its transitions end in. */
  predicate RespectsStates(workflows: seq<Workflow>, patch: Data, authorized: Data) {
    forall w | w in workflows && w.stateField in patch ::
      w.stateField in authorized && patch[w.stateField] == authorized[w.stateField]
  }

  function CommandPlan(workflows: seq<Workflow>, data: Data, patch: Data, intents: seq<Intent>, actor: Actor, oracle: Oracle):
    Result<Progress>
  {
    var ran := RunIntents(workflows, data + Ordinary(workflows, patch), intents, actor, oracle);
    if ran.Err? then ran
    else if !RespectsStates(workflows, patch, ran.value.authorized) then Err(Conflict)
    else ran
  }

  /** Plans the transitions one after the other, each against the document as the ones before it leave it. */
  method PlanDomainCommandTransitions(workflows: seq<Workflow>, data: Data, patch: Data, intents: seq<Intent>, actor: Actor,
                                      oracle: Oracle)
    returns (r: Result<Progress>)
    ensures r == CommandPlan(workflows, data, patch, intents, actor, oracle)
  {
    hide PlanTransition, FindWorkflow, Ordinary;
    var start := data + Ordinary(workflows, patch);
    var proposed := start;
    var facts: seq<Fact> := [];
    var authorized: Data := map[];
    var i := 0;
    while i < |intents|
      invariant 0 <= i <= |intents|
      invariant RunIntents(workflows, start, intents[..i], actor, oracle) == Ok(Progress(proposed, facts, authorized))
    {
      assert intents[..i + 1][..i] == intents[..i];
      var w := FindWorkflow(workflows, intents[i].workflow);
      if w.None? {
        RunFails(workflows, start, intents, i + 1, actor, oracle);
        return Err(NotFound);
      }
      var planned := PlanTransition(w.value, proposed, intents[i].action, actor, oracle);
      if planned.Err? {
        RunFails(workflows, start, intents, i + 1, actor, oracle);
        return Err(planned.error);
      }
      authorized := Moved(authorized, planned.value.stateField, planned.value.toState);
      facts := facts + [planned.value];
      proposed := Moved(proposed, planned.value.stateField, planned.value.toState);
      i := i + 1;
    }
    assert intents[..i] == intents;
    i := 0;
    while i < |workflows|
      invariant 0 <= i <= |workflows|
      invariant forall j | 0 <= j < i && workflows[j].stateField in patch ::
                  workflows[j].stateField in authorized && patch[workflows[j].stateField] == authorized[workflows[j].stateField]
    {
      var field := workflows[i].stateField;
      if field in patch && (field !in authorized || patch[field] != authorized[field]) {
        assert workflows[i] in workflows;
        return Err(Conflict);
      }
      i := i + 1;
    }
    r := Ok(Progress(proposed, facts, authorized));
  }

  /** The first intent that cannot be planned decides how the command fails. */
  lemma {:induction false} RunFails(workflows: seq<Workflow>, data: Data, intents: seq<Intent>, n: nat, actor: Actor, oracle: Oracle)
    requires n <= |intents| && RunIntents(workflows, data, intents[..n], actor, oracle).Err?
    ensures RunIntents(workflows, data, intents, actor, oracle) == RunIntents(workflows, data, intents[..n], actor, oracle)
    decreases |intents|
  {
    if n < |intents| {
      var init := intents[..|intents| - 1];
      assert init[..n] == intents[..n];
      RunFails(workflows, data, init, n, actor, oracle);
    } else {
      assert intents[..n] == intents;
    }
  }

  // ----- Saving --------------------------------------------------------------------------

  /** A new document has every workflow in its initial state. */
  predicate StartsInitially(workflows: seq<Workflow>, data: Data) {
    forall w | w in workflows :: StateOf(w, data) == w.initialState
  }

  /** No state field is touched, except to the state its transition was authorized for. */
  predicate NoStateIssues(workflows: seq<Workflow>, patch: Data, unset: set<string>, authorized: Data) {
    forall w | w in workflows && (w.stateField in patch || w.stateField in unset) ::
      w.stateField !in unset && w.stateField in authorized
      && w.stateField in patch && patch[w.stateField] == authorized[w.stateField]
  }

  /**
  A change to a stored document. Hooks and fetched fields are whatever they are: `hooked` is what
  the hooks made of a transition's patch, `fetched` what was fetched into fields the patch leaves open.
  */
  datatype Change =
    | Update(patch: Data, unset: set<string>)
    | Transit(workflow: string, action: string, hooked: Data, fetched: Data)
    | Execute(patch: Data, intents: seq<Intent>, fetched: Data)

  datatype Saved = Saved(data: Data, facts: seq<Fact>)

  function WithFetched(patch: Data, fetched: Data): Data {
    fetched + patch
  }

  function Save(workflows: seq<Workflow>, data: Data, change: Change, actor: Actor, oracle: Oracle): Result<Saved> {
    match change
    case Update(patch, unset) =>
      if NoStateIssues(workflows, patch, unset, map[]) then Ok(Saved(ApplyDataChange(data, patch, unset), []))
      else Err(Invalid)
    case Transit(name, action, hooked, fetched) =>
      var w := FindWorkflow(workflows, name);
      if w.None? then Err(NotFound)
      else
        var planned := PlanTransition(w.value, data, action, actor, oracle);
        if planned.Err? then Err(planned.error)
        else
          var fact := planned.value;
          var patch := WithFetched(Moved(hooked, fact.stateField, fact.toState), fetched);
          if NoStateIssues(workflows, patch, {}, Moved(map[], fact.stateField, fact.toState))
          then Ok(Saved(ApplyDataChange(data, patch, {}), [fact]))
          else Err(Invalid)
    case Execute(patch, intents, fetched) =>
      var ran := CommandPlan(workflows, data, patch, intents, actor, oracle);
      if ran.Err? then Err(ran.error)
      else
        var planned := Ordinary(workflows, patch) + ran.value.authorized;
        var final := WithFetched(planned, fetched);
        if NoStateIssues(workflows, final, {}, ran.value.authorized)
        then Ok(Saved(ApplyDataChange(data, final, {}), ran.value.facts))
        else Err(Invalid)
  }

  // ----- The facts chain ---------------------------------------------------------------------

  /** The state a workflow is in after the facts, each of which must start where the one before it ended. */
  function StateAfter(w: Workflow, start: string, facts: seq<Fact>): Option<string> {
    if facts == [] then Some(start)
    else
      var earlier, last := StateAfter(w, start, facts[..|facts| - 1]), facts[|facts| - 1];
      if last.workflow != w.name then earlier
      else if earlier == Some(last.fromState) then Some(last.toState)
      else None
  }

  predicate AllDeclared(workflows: seq<Workflow>, facts: seq<Fact>) {
    forall f | f in facts :: exists w | w in workflows :: w.name == f.workflow && w.stateField == f.stateField && IsDeclared(w, f)
  }

  lemma {:induction false} SameWorkflow(workflows: seq<Workflow>, a: Workflow, b: Workflow)
    requires DistinctWorkflows(workflows) && a in workflows && b in workflows
    ensures a.name == b.name || a.stateField == b.stateField ==> a == b
  {
    var i :| 0 <= i < |workflows| && workflows[i] == a;
    var j :| 0 <= j < |workflows| && workflows[j] == b;
    if i < j {
      assert workflows[i].name != workflows[j].name && workflows[i].stateField != workflows[j].stateField;
    } else if j < i {
      assert workflows[j].name != workflows[i].name && workflows[j].stateField != workflows[i].stateField;
    }
  }

  /** A state is where it was, or where the facts moved it. */
  predicate IsCarried(workflows: seq<Workflow>, w: Workflow, data: Data, progress: Progress) {
    && StateAfter(w, StateOf(w, data), progress.facts) == Some(StateOf(w, progress.data))
    && (if w.stateField in progress.authorized
        then w.stateField in progress.data && progress.data[w.stateField] == progress.authorized[w.stateField]
        else Get(progress.data, w.stateField) == Get(data, w.stateField))
  }

  /** One more fact of the workflow `moving` carries every workflow on. */
  lemma {:induction false} CarryOne(workflows: seq<Workflow>, w: Workflow, data: Data, progress: Progress, moving: Workflow,
                                    fact: Fact)
    requires DistinctWorkflows(workflows) && w in workflows && moving in workflows
    requires IsCarried(workflows, w, data, progress)
    requires fact.workflow == moving.name && fact.stateField == moving.stateField
    requires fact.fromState == StateOf(moving, progress.data)
    ensures IsCarried(workflows, w, data, Next(progress, fact))
  {
    SameWorkflow(workflows, w, moving);
    hide StateAfter, DistinctWorkflows;
  }

  /** What running one more intent comes to. */
  lemma {:induction false} RunOne(workflows: seq<Workflow>, data: Data, intents: seq<Intent>, actor: Actor, oracle: Oracle)
    returns (earlier: Progress, moving: Workflow, fact: Fact)
    requires intents != [] && RunIntents(workflows, data, intents, actor, oracle).Ok?
    ensures RunIntents(workflows, data, intents[..|intents| - 1], actor, oracle) == Ok(earlier)
    ensures RunIntents(workflows, data, intents, actor, oracle) == Ok(Next(earlier, fact))
    ensures moving in workflows && PlanTransition(moving, earlier.data, intents[|intents| - 1].action, actor, oracle) == Ok(fact)
  {
    hide PlanTransition;
    var intent := intents[|intents| - 1];
    earlier := RunIntents(workflows, data, intents[..|intents| - 1], actor, oracle).value;
    moving := FindWorkflow(workflows, intent.workflow).value;
    FoundIsWorkflow(workflows, intent.workflow);
    fact := PlanTransition(moving, earlier.data, intent.action, actor, oracle).value;
  }

  lemma {:induction false} IntentsCarry(workflows: seq<Workflow>, data: Data, intents: seq<Intent>, actor: Actor, oracle: Oracle,
                                        w: Workflow)
    requires DistinctWorkflows(workflows) && w in workflows
    requires RunIntents(workflows, data, intents, actor, oracle).Ok?
    ensures IsCarried(workflows, w, data, RunIntents(workflows, data, intents, actor, oracle).value)
    ensures RunIntents(workflows, data, intents, actor, oracle).value.authorized.Keys <= StateFields(workflows)
    ensures AllDeclared(workflows, RunIntents(workflows, data, intents, actor, oracle).value.facts)
    decreases |intents|
  {
    if intents != [] {
      var earlier, moving, fact := RunOne(workflows, data, intents, actor, oracle);
      IntentsCarry(workflows, data, intents[..|intents| - 1], actor, oracle, w);
      PlannedFact(moving, earlier.data, intents[|intents| - 1].action, actor, oracle);
      hide PlanTransition, RunIntents, IsCarried, AllDeclared, IsDeclared, DistinctWorkflows;
      CarryOne(workflows, w, data, earlier, moving, fact);
    }
  }

  /** Saving leaves every workflow in the state its facts lead to, one declared transition after the other. */
  lemma {:induction false} FactsChain(workflows: seq<Workflow>, data: Data, change: Change, actor: Actor, oracle: Oracle, w: Workflow)
    requires DistinctWorkflows(workflows) && w in workflows && Save(workflows, data, change, actor, oracle).Ok?
    ensures var saved := Save(workflows, data, change, actor, oracle).value;
      && StateAfter(w, StateOf(w, data), saved.facts) == Some(StateOf(w, saved.data))
      && AllDeclared(workflows, saved.facts)
  {
    match change
    case Update(_, _) =>
    case Transit(_, _, _, _) => TransitChain(workflows, data, change, actor, oracle, w);
    case Execute(_, _, _) => ExecuteChain(workflows, data, change, actor, oracle, w);
  }

  /**
  A command whose plan is accepted is saved exactly when nothing fetched touches a state field that
  its transitions leave alone, and its workflows end where the plan says.
  */
  lemma {:induction false} ExecuteSavesIff(workflows: seq<Workflow>, data: Data, change: Change, actor: Actor, oracle: Oracle)
    requires DistinctWorkflows(workflows) && change.Execute?
    ensures var plan := CommandPlan(workflows, data, change.patch, change.intents, actor, oracle);
      && (Save(workflows, data, change, actor, oracle).Ok? <==>
          plan.Ok? && forall w | w in workflows && w.stateField in change.fetched :: w.stateField in plan.value.authorized)
      && (Save(workflows, data, change, actor, oracle).Ok? ==>
          forall w | w in workflows :: StateOf(w, Save(workflows, data, change, actor, oracle).value.data) == StateOf(w, plan.value.data))
  {
    hide DistinctWorkflows, RunIntents;
    var plan := CommandPlan(workflows, data, change.patch, change.intents, actor, oracle);
    if plan.Ok? {
      var final := WithFetched(Ordinary(workflows, change.patch) + plan.value.authorized, change.fetched);
      forall w | w in workflows
        ensures w.stateField in final <==> w.stateField in change.fetched || w.stateField in plan.value.authorized
        ensures w.stateField in plan.value.authorized ==> final[w.stateField] == plan.value.authorized[w.stateField]
      {
        assert w.stateField in StateFields(workflows);
      }
      if Save(workflows, data, change, actor, oracle).Ok? {
        forall w | w in workflows
          ensures StateOf(w, Save(workflows, data, change, actor, oracle).value.data) == StateOf(w, plan.value.data)
        {
          ExecuteChain(workflows, data, change, actor, oracle, w);
          IntentsCarry(workflows, data + Ordinary(workflows, change.patch), change.intents, actor, oracle, w);
          OrdinaryKeepsStates(workflows, data, change.patch, w);
        }
      }
    }
  }

  lemma {:induction false} TransitChain(workflows: seq<Workflow>, data: Data, change: Change, actor: Actor, oracle: Oracle, w: Workflow)
    requires DistinctWorkflows(workflows) && w in workflows
    requires change.Transit? && Save(workflows, data, change, actor, oracle).Ok?
    ensures var saved := Save(workflows, data, change, actor, oracle).value;
      && StateAfter(w, StateOf(w, data), saved.facts) == Some(StateOf(w, saved.data))
      && AllDeclared(workflows, saved.facts)
  {
    var moving := FindWorkflow(workflows, change.workflow).value;
    FoundIsWorkflow(workflows, change.workflow);
    PlannedFact(moving, data, change.action, actor, oracle);
    SameWorkflow(workflows, w, moving);
    var fact := PlanTransition(moving, data, change.action, actor, oracle).value;
    assert [fact][..0] == [];
    hide PlanTransition, FindWorkflow, IsDeclared;
  }

  lemma {:induction false} ExecuteChain(workflows: seq<Workflow>, data: Data, change: Change, actor: Actor, oracle: Oracle, w: Workflow)
    requires DistinctWorkflows(workflows) && w in workflows
    requires change.Execute? && Save(workflows, data, change, actor, oracle).Ok?
    ensures var saved := Save(workflows, data, change, actor, oracle).value;
      && StateAfter(w, StateOf(w, data), saved.facts) == Some(StateOf(w, saved.data))
      && AllDeclared(workflows, saved.facts)
  {
    var start := data + Ordinary(workflows, change.patch);
    IntentsCarry(workflows, start, change.intents, actor, oracle, w);
    hide RunIntents, StateAfter, AllDeclared, RespectsStates;
    OrdinaryKeepsStates(workflows, data, change.patch, w);
  }

  // ----- Every document --------------------------------------------------------------------

  predicate IsMove(w: Workflow, trail: seq<string>, i: nat)
    requires i + 1 < |trail|
  {
    exists t | t in w.transitions :: t.fromState == trail[i] && t.toState == trail[i + 1]
  }

  /** States from the initial one, each reached from the one before by a declared transition. */
  predicate IsTrail(w: Workflow, trail: seq<string>) {
    trail != [] && trail[0] == w.initialState && (forall i | 0 <= i < |trail| - 1 :: IsMove(w, trail, i))
  }

  predicate IsTrailTo(w: Workflow, trail: seq<string>, state: string) {
    IsTrail(w, trail) && trail[|trail| - 1] == state
  }

  ghost predicate IsReachable(w: Workflow, state: string) {
    exists trail :: IsTrailTo(w, trail, state)
  }

  lemma {:induction false} InitialIsReachable(w: Workflow)
    ensures IsReachable(w, w.initialState)
  {
    assert IsTrailTo(w, [w.initialState], w.initialState);
  }

  lemma {:induction false} MoveIsReachable(w: Workflow, t: Transition)
    requires IsReachable(w, t.fromState) && t in w.transitions
    ensures IsReachable(w, t.toState)
  {
    var trail :| IsTrailTo(w, trail, t.fromState);
    var longer := trail + [t.toState];
    forall i | 0 <= i < |longer| - 1
      ensures IsMove(w, longer, i)
    {
      if i + 1 < |trail| {
        assert IsMove(w, trail, i);
      }
    }
    assert IsTrailTo(w, longer, t.toState);
  }

  lemma {:induction false} FactsReach(workflows: seq<Workflow>, w: Workflow, start: string, facts: seq<Fact>)
    requires DistinctWorkflows(workflows) && w in workflows && IsReachable(w, start)
    requires AllDeclared(workflows, facts) && StateAfter(w, start, facts).Some?
    ensures IsReachable(w, StateAfter(w, start, facts).value)
  {
    if facts != [] {
      var init, last := facts[..|facts| - 1], facts[|facts| - 1];
      assert AllDeclared(workflows, init);
      FactsReach(workflows, w, start, init);
      if last.workflow == w.name {
        assert last in facts;
        var owner :| owner in workflows && owner.name == last.workflow && IsDeclared(owner, last);
        SameWorkflow(workflows, w, owner);
        var t :| t in w.transitions && t.action == last.action && t.fromState == last.fromState && t.toState == last.toState;
        MoveIsReachable(w, t);
      }
    }
  }

  /** The documents a created one can become: each is saved from the one before by some accepted change. */
  ghost predicate IsHistory(workflows: seq<Workflow>, history: seq<Data>) {
    && history != [] && StartsInitially(workflows, history[0])
    && (forall n | 0 <= n < |history| - 1 :: IsSaved(workflows, history[n], history[n + 1]))
  }

  ghost predicate IsSaved(workflows: seq<Workflow>, data: Data, next: Data) {
    exists change, actor, oracle :: IsSavedBy(workflows, data, next, change, actor, oracle)
  }

  predicate IsSavedBy(workflows: seq<Workflow>, data: Data, next: Data, change: Change, actor: Actor, oracle: Oracle) {
    var saved := Save(workflows, data, change, actor, oracle);
    saved.Ok? && saved.value.data == next
  }

  /** Whatever is created, updated, transitioned or executed, every workflow is in a state its transitions lead to. */
  lemma {:induction false} StatesAreReachable(workflows: seq<Workflow>, history: seq<Data>, n: nat, w: Workflow)
    requires DistinctWorkflows(workflows) && IsHistory(workflows, history) && n < |history| && w in workflows
    ensures IsReachable(w, StateOf(w, history[n]))
  {
    hide Save;
    if n == 0 {
      InitialIsReachable(w);
    } else {
      StatesAreReachable(workflows, history, n - 1, w);
      assert IsSaved(workflows, history[n - 1], history[n]);
      var change, actor, oracle :| IsSavedBy(workflows, history[n - 1], history[n], change, actor, oracle);
      FactsChain(workflows, history[n - 1], change, actor, oracle, w);
      var saved := Save(workflows, history[n - 1], change, actor, oracle).value;
      FactsReach(workflows, w, StateOf(w, history[n - 1]), saved.facts);
    }
  }
}
