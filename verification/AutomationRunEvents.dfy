/**
The events of an automation run, their fold, and the projection that a run record is encoded
into and decoded from.

A run's stream is a sequence of events; the event at index `i` has sequence number `i + 1`.
*/
module AutomationRunEvents {
  import opened Results

  type Time = int

  datatype Source = Source(eventId: string, eventType: string, payloadKind: string, doctype: string,
                           documentName: string, actorId: string)

  datatype Transition = Transition(workflow: string, stateField: string, action: string, fromState: string, toState: string)

  datatype Workflow = Workflow(name: Option<string>, action: Option<string>, transitions: Option<seq<Transition>>)

  datatype Rule = Rule(ruleId: string, ruleName: string, actionId: string)

  /** The only kind of action: patch one document. */
  datatype Action = UpdateDocument(doctype: string, name: string, patch: map<string, Value>)

  datatype Retry = Retry(maxAttempts: int, baseDelaySeconds: int, maxDelaySeconds: int)

  /** What an enqueued event fixes about a run once and for all. */
  datatype RunInfo = RunInfo(source: Source, workflow: Workflow, rule: Rule, action: Action, retry: Retry,
                             causationId: string, correlationId: string, depth: nat, path: seq<string>)

  datatype Payload =
    | Enqueued(info: RunInfo)
    | Claimed(claimId: string, claimExpiresAt: Time)
    | Delivered(claimId: string)
    | Failed(claimId: string, error: string, retryAt: Time)
    | DeadLettered(claimId: string, error: string)
    | Suppressed(error: string)

  datatype Event = Event(occurredAt: Time, payload: Payload)

  type Log = seq<Event>

  datatype Status = IsPending | IsClaimed | IsDelivered | IsFailed | IsDead

  datatype Record = Record(id: string, info: RunInfo, status: Status, attempts: nat, enqueuedAt: Time,
                           claimedAt: Option<Time>, claimId: Option<string>, claimExpiresAt: Option<Time>,
                           deliveredAt: Option<Time>, failedAt: Option<Time>, error: Option<string>,
                           retryAt: Option<Time>, deadLetteredAt: Option<Time>, version: nat)

  // ----- The fold ------------------------------------------------------------

  function Apply(record: Record, e: Event, sequence: nat): Record {
    match e.payload
    case Enqueued(_) => record
    case Claimed(claimId, claimExpiresAt) =>
      record.(status := IsClaimed, attempts := record.attempts + 1, claimId := Some(claimId),
              claimedAt := Some(e.occurredAt), claimExpiresAt := Some(claimExpiresAt),
              error := None, retryAt := None, version := sequence)
    case Delivered(claimId) =>
      record.(status := IsDelivered, claimId := Some(claimId), deliveredAt := Some(e.occurredAt),
              error := None, retryAt := None, claimExpiresAt := None, version := sequence)
    case Failed(claimId, error, retryAt) =>
      record.(status := IsFailed, claimId := Some(claimId), failedAt := Some(e.occurredAt),
              error := Some(error), retryAt := Some(retryAt), version := sequence)
    case DeadLettered(claimId, error) =>
      record.(status := IsDead, claimId := Some(claimId), error := Some(error), deadLetteredAt := Some(e.occurredAt),
              retryAt := None, claimExpiresAt := None, version := sequence)
    case Suppressed(error) =>
      record.(status := IsDead, error := Some(error), deadLetteredAt := Some(e.occurredAt),
              retryAt := None, claimExpiresAt := None, version := sequence)
  }

  function Next(runId: string, record: Option<Record>, e: Event, sequence: nat): Option<Record> {
    if e.payload.Enqueued? then
      Some(Record(runId, e.payload.info, IsPending, 0, e.occurredAt, None, None, None, None, None, None, None, None, sequence))
    else if record.None? then None
    else Some(Apply(record.value, e, sequence))
  }

  /** Folds `events`, whose first has sequence `base + 1`, onto a record. */
  function FoldFrom(runId: string, initial: Option<Record>, events: Log, base: nat): Option<Record> {
    if events == [] then initial
    else Next(runId, FoldFrom(runId, initial, events[..|events| - 1], base), events[|events| - 1], base + |events|)
  }

  function Fold(runId: string, log: Log): Option<Record> {
    FoldFrom(runId, None, log, 0)
  }

  method FoldAutomationRunFrom(runId: string, initial: Option<Record>, events: Log, base: nat) returns (record: Option<Record>)
    ensures record == FoldFrom(runId, initial, events, base)
  {
    record := initial;
    var i := 0;
    while i < |events|
      invariant 0 <= i <= |events|
      invariant record == FoldFrom(runId, initial, events[..i], base)
    {
      assert events[..i + 1][..i] == events[..i];
      record := Next(runId, record, events[i], base + i + 1);
      i := i + 1;
    }
    assert events[..i] == events;
  }

  lemma FoldSnoc(runId: string, log: Log, e: Event)
    ensures Fold(runId, log + [e]) == Next(runId, Fold(runId, log), e, |log| + 1)
  {
    assert (log + [e])[..|log|] == log;
  }

  // ----- The projection ----------------------------------------------------------

  datatype Value = Null | Str(text: string) | Num(value: int) | Bool(b: bool) | Stamp(at: Time)
                 | Arr(items: seq<Value>) | Obj(fields: map<string, Value>)

  /** The field names of the projected data. */
  datatype Key = SourceEventId | SourceEventType | SourcePayloadKind | SourceDoctype | SourceDocumentName | SourceActorId
               | WorkflowName | WorkflowAction | WorkflowTransitions | RuleId | RuleName | ActionId | ActionKey | RetryKey
               | CausationId | CorrelationId | AutomationDepth | AutomationPath | StatusKey | AttemptsKey | EnqueuedAt
               | ClaimedAt | ClaimIdKey | ClaimExpiresAt | DeliveredAt | FailedAt | ErrorKey | RetryAt | DeadLetteredAt

  datatype DocStatus = Draft | SubmittedDoc | CancelledDoc

  datatype Snapshot = Snapshot(name: string, version: nat, docstatus: DocStatus, data: map<Key, Value>,
                               createdAt: Time, updatedAt: Time)

  function Text(text: Option<string>): Option<Value> {
    if text.None? then None else Some(Str(text.value))
  }

  function TimeValue(at: Option<Time>): Option<Value> {
    if at.None? then None else Some(Stamp(at.value))
  }

  function StatusName(status: Status): string {
    match status
    case IsPending => "pending"
    case IsClaimed => "claimed"
    case IsDelivered => "delivered"
    case IsFailed => "failed"
    case IsDead => "dead"
  }

  function TransitionValue(t: Transition): Value {
    Obj(map["workflow" := Str(t.workflow), "stateField" := Str(t.stateField), "action" := Str(t.action),
            "from" := Str(t.fromState), "to" := Str(t.toState)])
  }

  function ActionValue(action: Action): Value {
    Obj(map["kind" := Str("updateDocument"),
            "target" := Obj(map["doctype" := Str(action.doctype), "name" := Str(action.name)]),
            "patch" := Obj(action.patch)])
  }

  function RetryValue(retry: Retry): Value {
    Obj(map["maxAttempts" := Num(retry.maxAttempts), "baseDelaySeconds" := Num(retry.baseDelaySeconds),
            "maxDelaySeconds" := Num(retry.maxDelaySeconds)])
  }

  /** What the projection stores under a field name; nothing for an absent optional field. */
  function FieldValue(record: Record, key: Key): Option<Value> {
    var info := record.info;
    match key
    case SourceEventId => Some(Str(info.source.eventId))
    case SourceEventType => Some(Str(info.source.eventType))
    case SourcePayloadKind => Some(Str(info.source.payloadKind))
    case SourceDoctype => Some(Str(info.source.doctype))
    case SourceDocumentName => Some(Str(info.source.documentName))
    case SourceActorId => Some(Str(info.source.actorId))
    case WorkflowName => Text(info.workflow.name)
    case WorkflowAction => Text(info.workflow.action)
    case WorkflowTransitions =>
      if info.workflow.transitions.None? then None
      else
        var transitions := info.workflow.transitions.value;
        Some(Arr(seq(|transitions|, i requires 0 <= i < |transitions| => TransitionValue(transitions[i]))))
    case RuleId => Some(Str(info.rule.ruleId))
    case RuleName => Some(Str(info.rule.ruleName))
    case ActionId => Some(Str(info.rule.actionId))
    case ActionKey => Some(ActionValue(info.action))
    case RetryKey => Some(RetryValue(info.retry))
    case CausationId => Some(Str(info.causationId))
    case CorrelationId => Some(Str(info.correlationId))
    case AutomationDepth => Some(Num(info.depth))
    case AutomationPath => var path := info.path; Some(Arr(seq(|path|, i requires 0 <= i < |path| => Str(path[i]))))
    case StatusKey => Some(Str(StatusName(record.status)))
    case AttemptsKey => Some(Num(record.attempts))
    case EnqueuedAt => Some(Stamp(record.enqueuedAt))
    case ClaimedAt => TimeValue(record.claimedAt)
    case ClaimIdKey => Text(record.claimId)
    case ClaimExpiresAt => TimeValue(record.claimExpiresAt)
    case DeliveredAt => TimeValue(record.deliveredAt)
    case FailedAt => TimeValue(record.failedAt)
    case ErrorKey => Text(record.error)
    case RetryAt => TimeValue(record.retryAt)
    case DeadLetteredAt => TimeValue(record.deadLetteredAt)
  }

  function LatestTime(record: Record): Time {
    if record.deliveredAt.Some? then record.deliveredAt.value
    else if record.deadLetteredAt.Some? then record.deadLetteredAt.value
    else if record.failedAt.Some? then record.failedAt.value
    else if record.claimedAt.Some? then record.claimedAt.value
    else record.enqueuedAt
  }

  function DocStatusOf(status: Status): DocStatus {
    if status.IsDead? then CancelledDoc else if status.IsDelivered? then SubmittedDoc else Draft
  }

  function Encode(record: Record): Snapshot {
    var data := map key: Key | FieldValue(record, key).Some? :: FieldValue(record, key).value;
    Snapshot(record.id, record.version, DocStatusOf(record.status), data, record.enqueuedAt, LatestTime(record))
  }

  // ----- Decoding ------------------------------------------------------------------

  function Lookup<K(==)>(data: map<K, Value>, key: K): Option<Value> {
    if key in data then Some(data[key]) else None
  }

  function RequiredText(value: Option<Value>): Result<string> {
    if value.Some? && value.value.Str? then Ok(value.value.text) else Err(Invalid)
  }

  function RequiredTime(value: Option<Value>): Result<Time> {
    if value.Some? && value.value.Stamp? then Ok(value.value.at) else Err(Invalid)
  }

  function RequiredCount(value: Option<Value>): Result<nat> {
    if value.Some? && value.value.Num? && value.value.value >= 0 then Ok(value.value.value) else Err(Invalid)
  }

  /** An optional field of another type is taken as absent. */
  function OptionalText(value: Option<Value>): Option<string> {
    if value.Some? && value.value.Str? then Some(value.value.text) else None
  }

  function OptionalTime(value: Option<Value>): Option<Time> {
    if value.Some? && value.value.Stamp? then Some(value.value.at) else None
  }

  predicate IsSafe(n: int) {
    -MAX_SAFE_INTEGER <= n <= MAX_SAFE_INTEGER
  }

  function DecodeTransition(value: Value): Result<Transition> {
    if !value.Obj? then Err(Invalid)
    else
      var workflow := RequiredText(Lookup(value.fields, "workflow"));
      var stateField := RequiredText(Lookup(value.fields, "stateField"));
      var action := RequiredText(Lookup(value.fields, "action"));
      var fromState := RequiredText(Lookup(value.fields, "from"));
      var toState := RequiredText(Lookup(value.fields, "to"));
      if workflow.Err? || stateField.Err? || action.Err? || fromState.Err? || toState.Err? then Err(Invalid)
      else Ok(Transition(workflow.value, stateField.value, action.value, fromState.value, toState.value))
  }

  function DecodeAll<T>(items: seq<Value>, decode: Value -> Result<T>): Result<seq<T>> {
    if items == [] then Ok([])
    else
      var first, rest := decode(items[0]), DecodeAll(items[1..], decode);
      if first.Err? || rest.Err? then Err(Invalid) else Ok([first.value] + rest.value)
  }

  function DecodeTransitions(value: Option<Value>): Result<Option<seq<Transition>>> {
    if value.None? then Ok(None)
    else if !value.value.Arr? then Err(Invalid)
    else
      var transitions := DecodeAll(value.value.items, DecodeTransition);
      if transitions.Err? then Err(Invalid) else Ok(Some(transitions.value))
  }

  function DecodeText(value: Value): Result<string> {
    if value.Str? then Ok(value.text) else Err(Invalid)
  }

  function DecodePath(value: Option<Value>): Result<seq<string>> {
    if value.Some? && value.value.Arr? then DecodeAll(value.value.items, DecodeText) else Err(Invalid)
  }

  function DecodeAction(value: Option<Value>): Result<Action> {
    if value.None? || !value.value.Obj? then Err(Invalid)
    else
      var fields := value.value.fields;
      var target, patch := Lookup(fields, "target"), Lookup(fields, "patch");
      if Lookup(fields, "kind") != Some(Str("updateDocument")) || target.None? || !target.value.Obj?
         || patch.None? || !patch.value.Obj? then Err(Invalid)
      else
        var doctype := RequiredText(Lookup(target.value.fields, "doctype"));
        var name := RequiredText(Lookup(target.value.fields, "name"));
        if doctype.Err? || name.Err? then Err(Invalid)
        else Ok(UpdateDocument(doctype.value, name.value, patch.value.fields))
  }

  function DecodeInteger(value: Option<Value>): Result<int> {
    if value.Some? && value.value.Num? && IsSafe(value.value.value) then Ok(value.value.value) else Err(Invalid)
  }

  function DecodeRetry(value: Option<Value>): Result<Retry> {
    if value.None? || !value.value.Obj? then Err(Invalid)
    else
      var maxAttempts := DecodeInteger(Lookup(value.value.fields, "maxAttempts"));
      var baseDelaySeconds := DecodeInteger(Lookup(value.value.fields, "baseDelaySeconds"));
      var maxDelaySeconds := DecodeInteger(Lookup(value.value.fields, "maxDelaySeconds"));
      if maxAttempts.Err? || baseDelaySeconds.Err? || maxDelaySeconds.Err? then Err(Invalid)
      else Ok(Retry(maxAttempts.value, baseDelaySeconds.value, maxDelaySeconds.value))
  }

  function DecodeStatus(value: Option<Value>): Result<Status> {
    if value == Some(Str("pending")) then Ok(IsPending)
    else if value == Some(Str("claimed")) then Ok(IsClaimed)
    else if value == Some(Str("delivered")) then Ok(IsDelivered)
    else if value == Some(Str("failed")) then Ok(IsFailed)
    else if value == Some(Str("dead")) then Ok(IsDead)
    else Err(Invalid)
  }

  function DecodeSource(data: map<Key, Value>): Result<Source> {
    var eventId := RequiredText(Lookup(data, SourceEventId));
    var eventType := RequiredText(Lookup(data, SourceEventType));
    var payloadKind := RequiredText(Lookup(data, SourcePayloadKind));
    var doctype := RequiredText(Lookup(data, SourceDoctype));
    var documentName := RequiredText(Lookup(data, SourceDocumentName));
    var actorId := RequiredText(Lookup(data, SourceActorId));
    if eventId.Err? || eventType.Err? || payloadKind.Err? || doctype.Err? || documentName.Err? || actorId.Err?
    then Err(Invalid)
    else Ok(Source(eventId.value, eventType.value, payloadKind.value, doctype.value, documentName.value, actorId.value))
  }

  function DecodeRule(data: map<Key, Value>): Result<Rule> {
    var ruleId := RequiredText(Lookup(data, RuleId));
    var ruleName := RequiredText(Lookup(data, RuleName));
    var actionId := RequiredText(Lookup(data, ActionId));
    if ruleId.Err? || ruleName.Err? || actionId.Err? then Err(Invalid)
    else Ok(Rule(ruleId.value, ruleName.value, actionId.value))
  }

  function DecodeInfo(data: map<Key, Value>): Result<RunInfo> {
    var source, rule := DecodeSource(data), DecodeRule(data);
    var transitions := DecodeTransitions(Lookup(data, WorkflowTransitions));
    var action, retry := DecodeAction(Lookup(data, ActionKey)), DecodeRetry(Lookup(data, RetryKey));
    var causationId, correlationId := RequiredText(Lookup(data, CausationId)), RequiredText(Lookup(data, CorrelationId));
    var depth, path := RequiredCount(Lookup(data, AutomationDepth)), DecodePath(Lookup(data, AutomationPath));
    if source.Err? || rule.Err? || transitions.Err? || action.Err? || retry.Err? || causationId.Err?
       || correlationId.Err? || depth.Err? || path.Err? then Err(Invalid)
    else
      var workflow := Workflow(OptionalText(Lookup(data, WorkflowName)), OptionalText(Lookup(data, WorkflowAction)),
                               transitions.value);
      Ok(RunInfo(source.value, workflow, rule.value, action.value, retry.value, causationId.value, correlationId.value,
                 depth.value, path.value))
  }

  function Decode(snapshot: Snapshot): Result<Record> {
    var data := snapshot.data;
    var info, status := DecodeInfo(data), DecodeStatus(Lookup(data, StatusKey));
    var attempts, enqueuedAt := RequiredCount(Lookup(data, AttemptsKey)), RequiredTime(Lookup(data, EnqueuedAt));
    if info.Err? || status.Err? || attempts.Err? || enqueuedAt.Err? then Err(Invalid)
    else Ok(Record(snapshot.name, info.value, status.value, attempts.value, enqueuedAt.value,
                   OptionalTime(Lookup(data, ClaimedAt)), OptionalText(Lookup(data, ClaimIdKey)),
                   OptionalTime(Lookup(data, ClaimExpiresAt)), OptionalTime(Lookup(data, DeliveredAt)),
                   OptionalTime(Lookup(data, FailedAt)), OptionalText(Lookup(data, ErrorKey)),
                   OptionalTime(Lookup(data, RetryAt)), OptionalTime(Lookup(data, DeadLetteredAt)), snapshot.version))
  }

  // ----- Round trip --------------------------------------------------------------------

  lemma EncodedName(record: Record)
    ensures Encode(record).name == record.id && Encode(record).version == record.version
  {
  }

  lemma FieldIsStored(record: Record, key: Key)
    ensures Lookup(Encode(record).data, key) == FieldValue(record, key)
  {
  }

  lemma {:induction false} TransitionsDecode(transitions: seq<Transition>)
    ensures DecodeAll(seq(|transitions|, i requires 0 <= i < |transitions| => TransitionValue(transitions[i])), DecodeTransition)
         == Ok(transitions)
  {
    var items := seq(|transitions|, i requires 0 <= i < |transitions| => TransitionValue(transitions[i]));
    if transitions != [] {
      var rest := transitions[1..];
      TransitionsDecode(rest);
      assert items[1..] == seq(|rest|, i requires 0 <= i < |rest| => TransitionValue(rest[i]));
      assert DecodeTransition(items[0]) == Ok(transitions[0]);
      assert [transitions[0]] + rest == transitions;
    }
  }

  lemma {:induction false} PathDecodes(path: seq<string>)
    ensures DecodeAll(seq(|path|, i requires 0 <= i < |path| => Str(path[i])), DecodeText) == Ok(path)
  {
    var items := seq(|path|, i requires 0 <= i < |path| => Str(path[i]));
    if path != [] {
      var rest := path[1..];
      PathDecodes(rest);
      assert items[1..] == seq(|rest|, i requires 0 <= i < |rest| => Str(rest[i]));
      assert [path[0]] + rest == path;
    }
  }

  lemma StatusDecodes(status: Status)
    ensures DecodeStatus(Some(Str(StatusName(status)))) == Ok(status)
  {
    assert "pending"[0] == 'p' && "claimed"[0] == 'c' && "failed"[0] == 'f' && |"delivered"| == 9 && |"dead"| == 4;
  }

  predicate IsSafeRetry(retry: Retry) {
    IsSafe(retry.maxAttempts) && IsSafe(retry.baseDelaySeconds) && IsSafe(retry.maxDelaySeconds)
  }

  lemma {:induction false} SourceDecodes(record: Record)
    ensures DecodeSource(Encode(record).data) == Ok(record.info.source)
    ensures DecodeRule(Encode(record).data) == Ok(record.info.rule)
  {
    hide Encode, Lookup;
    FieldIsStored(record, SourceEventId);
    FieldIsStored(record, SourceEventType);
    FieldIsStored(record, SourcePayloadKind);
    FieldIsStored(record, SourceDoctype);
    FieldIsStored(record, SourceDocumentName);
    FieldIsStored(record, SourceActorId);
    FieldIsStored(record, RuleId);
    FieldIsStored(record, RuleName);
    FieldIsStored(record, ActionId);
  }

  lemma {:induction false} ActionDecodes(action: Action, retry: Retry)
    ensures DecodeAction(Some(ActionValue(action))) == Ok(action)
    ensures DecodeRetry(Some(RetryValue(retry))) == if IsSafeRetry(retry) then Ok(retry) else Err(Invalid)
  {
  }

  lemma {:induction false} TransitionsFieldDecodes(record: Record)
    ensures DecodeTransitions(FieldValue(record, WorkflowTransitions)) == Ok(record.info.workflow.transitions)
  {
    if record.info.workflow.transitions.Some? {
      TransitionsDecode(record.info.workflow.transitions.value);
    }
    hide DecodeAll, DecodeTransition, TransitionValue;
  }

  lemma {:induction false} PathFieldDecodes(record: Record)
    ensures DecodePath(FieldValue(record, AutomationPath)) == Ok(record.info.path)
  {
    PathDecodes(record.info.path);
    hide DecodeAll;
  }

  lemma {:induction false} InfoDecodes(record: Record)
    ensures DecodeInfo(Encode(record).data) == if IsSafeRetry(record.info.retry) then Ok(record.info) else Err(Invalid)
  {
    hide Encode, Lookup, DecodeSource, DecodeRule, DecodeAction, DecodeRetry, DecodeTransitions, DecodePath, ActionValue, RetryValue;
    SourceDecodes(record);
    ActionDecodes(record.info.action, record.info.retry);
    TransitionsFieldDecodes(record);
    PathFieldDecodes(record);
    FieldIsStored(record, WorkflowName);
    FieldIsStored(record, WorkflowAction);
    FieldIsStored(record, WorkflowTransitions);
    FieldIsStored(record, ActionKey);
    FieldIsStored(record, RetryKey);
    FieldIsStored(record, CausationId);
    FieldIsStored(record, CorrelationId);
    FieldIsStored(record, AutomationDepth);
    FieldIsStored(record, AutomationPath);
  }

  lemma OptionalsDecode(at: Option<Time>, text: Option<string>)
    ensures OptionalTime(TimeValue(at)) == at && OptionalText(Text(text)) == text
  {
  }

  lemma {:induction false} ProgressDecodes(record: Record)
    ensures var data := Encode(record).data;
      && DecodeStatus(Lookup(data, StatusKey)) == Ok(record.status)
      && RequiredCount(Lookup(data, AttemptsKey)) == Ok(record.attempts)
      && RequiredTime(Lookup(data, EnqueuedAt)) == Ok(record.enqueuedAt)
  {
    hide Encode, Lookup, StatusName, DecodeStatus;
    StatusDecodes(record.status);
    FieldIsStored(record, StatusKey);
    FieldIsStored(record, AttemptsKey);
    FieldIsStored(record, EnqueuedAt);
  }

  lemma {:induction false} ClaimDecodes(record: Record)
    ensures var data := Encode(record).data;
      && OptionalTime(Lookup(data, ClaimedAt)) == record.claimedAt
      && OptionalText(Lookup(data, ClaimIdKey)) == record.claimId
      && OptionalTime(Lookup(data, ClaimExpiresAt)) == record.claimExpiresAt
  {
    hide Encode, Lookup, OptionalTime, OptionalText, TimeValue, Text;
    OptionalsDecode(record.claimedAt, record.claimId);
    OptionalsDecode(record.claimExpiresAt, None);
    FieldIsStored(record, ClaimedAt);
    FieldIsStored(record, ClaimIdKey);
    FieldIsStored(record, ClaimExpiresAt);
  }

  lemma {:induction false} OutcomeDecodes(record: Record)
    ensures var data := Encode(record).data;
      && OptionalTime(Lookup(data, DeliveredAt)) == record.deliveredAt
      && OptionalTime(Lookup(data, FailedAt)) == record.failedAt
      && OptionalText(Lookup(data, ErrorKey)) == record.error
      && OptionalTime(Lookup(data, RetryAt)) == record.retryAt
      && OptionalTime(Lookup(data, DeadLetteredAt)) == record.deadLetteredAt
  {
    hide Encode, Lookup, OptionalTime, OptionalText, TimeValue, Text;
    OptionalsDecode(record.deliveredAt, record.error);
    OptionalsDecode(record.failedAt, None);
    OptionalsDecode(record.retryAt, None);
    OptionalsDecode(record.deadLetteredAt, None);
    FieldIsStored(record, DeliveredAt);
    FieldIsStored(record, FailedAt);
    FieldIsStored(record, ErrorKey);
    FieldIsStored(record, RetryAt);
    FieldIsStored(record, DeadLetteredAt);
  }

  /** A projected record reads back as itself exactly when its retry numbers are safe integers; otherwise reading fails. */
  lemma {:induction false} DecodeInvertsEncode(record: Record)
    ensures Decode(Encode(record)) == if IsSafeRetry(record.info.retry) then Ok(record) else Err(Invalid)
  {
    hide Encode, Lookup, DecodeInfo, DecodeStatus, RequiredCount, RequiredTime, OptionalTime, OptionalText, IsSafeRetry;
    EncodedName(record);
    InfoDecodes(record);
    ProgressDecodes(record);
    ClaimDecodes(record);
    OutcomeDecodes(record);
  }
}
