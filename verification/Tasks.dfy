/**
The task broker's records and pure decisions: status, retry accounting in 32-bit integers, and the context slice bound
into an expert's payload before the task is saved.
*/
module Tasks {
  import opened Collections
  import opened Text
  import opened DataContext

  datatype TaskStatus = Unspecified | Pending | Dispatched | Retrying | Completed | Failed | Cancelled {
    predicate IsTerminal() {
      this == Completed || this == Failed || this == Cancelled
    }
  }

  datatype TaskError = TaskError(code: string, message: string)

  datatype Task = Task(
    id: string,
    workflowId: string,
    capability: string,
    payload: Payload,
    timeoutSeconds: int,
    maxRetries: int,
    retryCount: int,
    status: TaskStatus,
    dispatchedTo: string,
    result: Payload,
    error: Option<TaskError>,
    createdAt: int,
    dispatchedAt: int,
    completedAt: int)

  // ---------------------------------------------------------------------------------------------------------------
  // Acknowledgement

  const MAX_INT32 := 0x7fff_ffff
  const MIN_INT32 := -0x8000_0000

  predicate IsInt32(n: int) {
    MIN_INT32 <= n <= MAX_INT32
  }

  /** `n + 1` in 32 bits. */
  function Inc32(n: int): int {
    if n == MAX_INT32 then MIN_INT32 else n + 1
  }

  /** `applyAcknowledgement`: a failure is retried while the count allows; any other status but completed cancels. */
  function ApplyAcknowledgement(task: Task, newStatus: TaskStatus, result: Payload, error: Option<TaskError>,
      now: int): Task
  {
    match newStatus
    case Completed => task.(status := Completed, result := result, completedAt := now)
    case Failed =>
      var count := Inc32(task.retryCount);
      if count <= task.maxRetries then task.(status := Retrying, retryCount := count)
      else task.(status := Failed, error := error, completedAt := now)
    case _ => task.(status := Cancelled, completedAt := now)
  }

  /** What `DispatchTask` fixes when it saves a task. */
  predicate SameIdentity(a: Task, b: Task) {
    && a.id == b.id
    && a.workflowId == b.workflowId
    && a.capability == b.capability
    && a.payload == b.payload
    && a.timeoutSeconds == b.timeoutSeconds
    && a.maxRetries == b.maxRetries
    && a.createdAt == b.createdAt
  }

  /** The record is as it was but for what a change of status may touch. */
  predicate Keeps(was: Task, now: Task) {
    && SameIdentity(was, now)
    && now.dispatchedTo == was.dispatchedTo
    && now.dispatchedAt == was.dispatchedAt
  }

  predicate Completes(was: Task, now: Task, result: Payload, at: int) {
    && Keeps(was, now) && now.retryCount == was.retryCount && now.error == was.error
    && now.status == Completed && now.result == result && now.completedAt == at
  }

  predicate Cancels(was: Task, now: Task, at: int) {
    && Keeps(was, now) && now.retryCount == was.retryCount && now.error == was.error && now.result == was.result
    && now.status == Cancelled && now.completedAt == at
  }

  /** A failure: one retry more while there is one left, else the end, with the error. At the largest count it wraps. */
  predicate Fails(was: Task, now: Task, error: Option<TaskError>, at: int) {
    && Keeps(was, now) && now.result == was.result
    && (now.status == Retrying || now.status == Failed)
    && (now.status == Retrying <==>
          was.retryCount < was.maxRetries || (was.retryCount == MAX_INT32 && MIN_INT32 <= was.maxRetries))
    && (now.status == Retrying ==>
          && now.retryCount == (if was.retryCount == MAX_INT32 then MIN_INT32 else was.retryCount + 1)
          && now.error == was.error && now.completedAt == was.completedAt)
    && (now.status == Failed ==> now.retryCount == was.retryCount && now.error == error && now.completedAt == at)
  }

  /** What each report leaves in a record, field by field. */
  lemma AcknowledgementIs(t: Task, result: Payload, error: Option<TaskError>, at: int)
    ensures Completes(t, ApplyAcknowledgement(t, Completed, result, error, at), result, at)
    ensures Fails(t, ApplyAcknowledgement(t, Failed, result, error, at), error, at)
    ensures Cancels(t, ApplyAcknowledgement(t, Cancelled, result, error, at), at)
  {
  }

  /** A task as `DispatchTask` saves it: pending, no retry spent. */
  predicate Fresh(t: Task) {
    t.status == Pending && t.retryCount == 0
  }

  function Max(a: int, b: int): int {
    if a < b then b else a
  }

  predicate RetryBound(t: Task) {
    0 <= t.retryCount <= Max(0, t.maxRetries)
  }

  /**
  An acknowledgement keeps `0 <= RetryCount <= max(0, MaxRetries)` for every task with a given 32-bit retry budget
  exactly when the budget is below the largest 32-bit integer; at the largest, the count wraps to the smallest and the
  task is retried without end.
  */
  lemma RetryBoundKeptIff(maxRetries: int)
    requires IsInt32(maxRetries)
    ensures (forall t: Task, s, r, e, now :: t.maxRetries == maxRetries && RetryBound(t) ==>
      RetryBound(ApplyAcknowledgement(t, s, r, e, now)))
            <==> maxRetries < MAX_INT32
  {
    if maxRetries == MAX_INT32 {
      var t := Task("", "", "", Empty, 0, MAX_INT32, MAX_INT32, Dispatched, "", Empty, None, 0, 0, 0);
      assert RetryBound(t);
      var t' := ApplyAcknowledgement(t, Failed, Empty, None, 0);
      assert t'.retryCount == MIN_INT32 && t'.status == Retrying && !RetryBound(t');
    }
  }

  /** A failure report either spends one retry or ends the task, by whether any is left. */
  lemma FailureSpendsARetry(t: Task, e: Option<TaskError>, now: int)
    requires RetryBound(t) && t.maxRetries < MAX_INT32
    ensures var t' := ApplyAcknowledgement(t, Failed, Empty, e, now);
            && (t'.status == Retrying <==> t.retryCount < t.maxRetries)
            && (t'.status == Retrying ==> t'.retryCount == t.retryCount + 1)
            && (t'.status != Retrying ==> t'.status == Failed && t'.retryCount == t.retryCount && t'.error == e)
  {
  }

  // ---------------------------------------------------------------------------------------------------------------
  // Context slices

  /** An agent's registered schema: no slice declared, a slice, or a schema that does not parse. */
  datatype Schema = NoSlice | DeclaresSlice(files: seq<string>, maxTokens: int) | Unparsable

  datatype AgentInfo = AgentInfo(agentId: string, name: string, schema: Schema)

  datatype DispatchError = InvalidArgument | NoEligibleAgent(expert: string) | BadSchema(expert: string) | SelectFailed

  const EXPERT_KEY := "expert"
  const SLICE_KEY := "context_slice"

  /** `json.Unmarshal` of the payload into a map of raw fields. */
  function FieldsOf(p: Payload): Option<map<string, Json>> {
    if p.Document? then AsObject(p.json) else None
  }

  function ExpertTarget(p: Payload): Option<string> {
    var fields := FieldsOf(p);
    if fields.None? || EXPERT_KEY !in fields.value then None
    else
      match fields.value[EXPERT_KEY]
      case Text(s) => if s == "" then None else Some(s)
      case _ => None
  }

  predicate Called(agent: AgentInfo, expert: string) {
    agent.name == expert || agent.agentId == expert
  }

  /** The first agent of that name or id; there is no fallback to another. */
  function SelectExpert(agents: seq<AgentInfo>, expert: string): (r: Option<AgentInfo>)
    ensures r.Some? ==> exists i :: 0 <= i < |agents| && agents[i] == r.value && Called(agents[i], expert)
                                    && forall j :: 0 <= j < i ==> !Called(agents[j], expert)
    ensures r.None? <==> forall i :: 0 <= i < |agents| ==> !Called(agents[i], expert)
  {
    var n := First(agents, (agent: AgentInfo) => Called(agent, expert));
    if n < |agents| then Some(agents[n]) else None
  }

  function IntText(n: int): string {
    if n < 0 then "-" + Digits(-n) else Digits(n)
  }

  function SliceJson(files: seq<string>, maxTokens: int): Json {
    Object(map["files" := Array(seq(|files|, i requires 0 <= i < |files| => Json.Text(files[i]))),
      "max_tokens" := Number(IntText(maxTokens))])
  }

  /** `bindContextSlice`: whatever slice the caller sent is dropped, and the declared one put in its place. */
  function BindContextSlice(fields: map<string, Json>, slice: Option<Json>): map<string, Json> {
    var rest := fields - {SLICE_KEY};
    if slice.Some? then rest[SLICE_KEY := slice.value] else rest
  }

  function DeclaredSlice(schema: Schema): Option<Json> {
    if schema.DeclaresSlice? then Some(SliceJson(schema.files, schema.maxTokens)) else None
  }

  /** `json.Marshal` of an object's fields. */
  type Encoder = map<string, Json> -> string

  function PrepareExpertDispatch(p: Payload, agents: seq<AgentInfo>, encode: Encoder): Result<Payload, DispatchError> {
    var expert := ExpertTarget(p);
    if expert.None? then Ok(p)
    else
      var agent := SelectExpert(agents, expert.value);
      if agent.None? then Err(NoEligibleAgent(expert.value))
      else if agent.value.schema.Unparsable? then Err(BadSchema(expert.value))
      else
        var bound := BindContextSlice(FieldsOf(p).value, DeclaredSlice(agent.value.schema));
        Ok(Document(encode(bound), Object(bound)))
  }

  /**
  A bound payload asks for the same expert, carries that expert's declared slice or none, whatever the caller put there,
  and is otherwise what the caller sent; a payload for no expert is passed on as it is. Binding twice changes nothing.
  */
  lemma BindingIsolates(p: Payload, agents: seq<AgentInfo>, encode: Encoder)
    requires PrepareExpertDispatch(p, agents, encode).Ok?
    ensures var q := PrepareExpertDispatch(p, agents, encode).value;
            && ExpertTarget(q) == ExpertTarget(p)
            && (ExpertTarget(p).None? ==> q == p)
            && (ExpertTarget(p).Some? ==>
                  var agent := SelectExpert(agents, ExpertTarget(p).value);
                  && agent.Some?
                  && FieldsOf(q).Some?
                  && (forall k :: k != SLICE_KEY ==> (k in FieldsOf(q).value <==> k in FieldsOf(p).value))
                  && (forall k :: k != SLICE_KEY && k in FieldsOf(p).value ==>
                    FieldsOf(q).value[k] == FieldsOf(p).value[k])
                  && (if SLICE_KEY in FieldsOf(q).value then Some(FieldsOf(q).value[SLICE_KEY]) else None) ==
                    DeclaredSlice(agent.value.schema))
            && PrepareExpertDispatch(q, agents, encode) == Ok(q)
  {
    hide SliceJson, SelectExpert;
    if ExpertTarget(p).Some? {
      assert EXPERT_KEY != SLICE_KEY;
      var agent := SelectExpert(agents, ExpertTarget(p).value).value;
      var fields, slice := FieldsOf(p).value, DeclaredSlice(agent.schema);
      var bound := BindContextSlice(fields, slice);
      assert bound[EXPERT_KEY] == fields[EXPERT_KEY];
      assert BindContextSlice(bound, slice) == bound;
    }
  }

  /** Two callers that differ only in the slice they plant get the same payload. */
  lemma PlantedSliceIsDiscarded(a: string, b: string, fields: map<string, Json>, planted: Json, agents: seq<AgentInfo>,
      encode: Encoder)
    requires ExpertTarget(Document(a, Object(fields))).Some?
    ensures PrepareExpertDispatch(Document(b, Object(fields[SLICE_KEY := planted])), agents, encode) ==
            PrepareExpertDispatch(Document(a, Object(fields)), agents, encode)
  {
    hide SliceJson, SelectExpert;
    assert EXPERT_KEY != SLICE_KEY;
    assert fields[SLICE_KEY := planted] - {SLICE_KEY} == fields - {SLICE_KEY};
  }

  /** The payload is an object that names the expert. */
  ghost predicate AsksFor(p: Payload, expert: string) {
    && p.Document? && p.json.Object? && expert != ""
    && "expert" in p.json.fields && p.json.fields["expert"] == Json.Text(expert)
  }

  /** The slice a schema declares, and nothing where it declares none. */
  ghost predicate CarriesSlice(fields: map<string, Json>, schema: Schema) {
    match schema
    case DeclaresSlice(files, maxTokens) =>
      && "context_slice" in fields && fields["context_slice"].Object?
      && var slice := fields["context_slice"].fields;
      && slice.Keys == {"files", "max_tokens"}
      && slice["files"].Array? && |slice["files"].items| == |files|
      && (forall i :: 0 <= i < |files| ==> slice["files"].items[i] == Json.Text(files[i]))
      && slice["max_tokens"] == Number(if maxTokens < 0 then "-" + Digits(-maxTokens) else Digits(maxTokens))
    case _ => "context_slice" !in fields
  }

  /** The payload of an expert: what the caller sent, but for the slice, which is the schema's. */
  ghost predicate BoundTo(p: Payload, q: Payload, schema: Schema, encode: Encoder) {
    && p.Document? && p.json.Object? && q.Document? && q.json.Object? && q.raw == encode(q.json.fields)
    && (forall k :: k != "context_slice" ==> (k in q.json.fields <==> k in p.json.fields))
    && (forall k :: k != "context_slice" && k in p.json.fields && k in q.json.fields ==>
      q.json.fields[k] == p.json.fields[k])
    && CarriesSlice(q.json.fields, schema)
  }

  /**
  What becomes of every payload: one that names no expert is passed on; one that does goes to the first agent of that
  name or id, bound to its slice, and is refused if there is none or its schema does not parse.
  */
  lemma PreparedIs(p: Payload, agents: seq<AgentInfo>, encode: Encoder)
    ensures var r := PrepareExpertDispatch(p, agents, encode);
      && ((forall e :: !AsksFor(p, e)) ==> r == Ok(p))
      && forall e :: AsksFor(p, e) ==>
           && ((forall i :: 0 <= i < |agents| ==> agents[i].name != e && agents[i].agentId != e) ==>
             r == Err(NoEligibleAgent(e)))
           && forall i :: FirstCalled(agents, e, i) ==>
                if agents[i].schema.Unparsable? then r == Err(BadSchema(e))
                else r.Ok? && BoundTo(p, r.value, agents[i].schema, encode)
  {
    hide SelectExpert, Digits;
    ExpertIs(p);
    if ExpertTarget(p).Some? {
      var e := ExpertTarget(p).value;
      forall i | FirstCalled(agents, e, i)
        ensures SelectExpert(agents, e) == Some(agents[i])
      {
      }
    }
  }

  ghost predicate FirstCalled(agents: seq<AgentInfo>, expert: string, i: int) {
    && 0 <= i < |agents| && (agents[i].name == expert || agents[i].agentId == expert)
    && forall j :: 0 <= j < i ==> agents[j].name != expert && agents[j].agentId != expert
  }

  lemma ExpertIs(p: Payload)
    ensures forall e :: AsksFor(p, e) <==> ExpertTarget(p) == Some(e)
  {
  }
}
