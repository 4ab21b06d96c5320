/**
The task service: dispatch, acknowledgement, cancellation, background execution and recovery over the repository. A
goroutine it starts appears in `launched`; the clock and the selector are given functions.
*/
module TaskBroker {
  import opened Text
  import opened DataContext
  import opened Tasks
  import opened TaskRepo

  /** The four read-check-write pairs of the service. Background execution is a launch and then a settlement. */
  datatype Op =
    | Acknowledge(newStatus: TaskStatus, result: Payload, error: Option<TaskError>)
    | Cancel
    | Launch(agentId: string)
    | Settle(result: Payload, failure: Option<TaskError>)

  /** What a pair writes back for the record it read. */
  function Transform(op: Op, t: Task, now: int): Task {
    match op
    case Acknowledge(newStatus, result, error) => ApplyAcknowledgement(t, newStatus, result, error, now)
    case Cancel => t.(status := Cancelled, completedAt := now)
    case Launch(agentId) => t.(status := Dispatched, dispatchedTo := agentId, dispatchedAt := now)
    case Settle(result, failure) =>
      if failure.Some? then ApplyAcknowledgement(t, Failed, Empty, failure, now)
      else ApplyAcknowledgement(t, Completed, result, None, now)
  }

  /** A launch, field by field. */
  predicate Launches(was: Task, now: Task, agentId: string, at: int) {
    && SameIdentity(was, now) && now.retryCount == was.retryCount && now.result == was.result && now.error == was.error
    && now.completedAt == was.completedAt
    && now.status == Dispatched && now.dispatchedTo == agentId && now.dispatchedAt == at
  }

  /** A whole background execution, field by field: launched on the agent, then completed or failed by its answer. */
  ghost predicate Executes(was: Task, now: Task, agentId: string, result: Payload, failure: Option<TaskError>,
      launchedAt: int,
      settledAt: int)
  {
    exists mid ::
      && Launches(was, mid, agentId, launchedAt)
      && if failure.None? then Completes(mid, now, result, settledAt) else Fails(mid, now, failure, settledAt)
  }

  /** What each pair does to a record, field by field. */
  predicate Does(op: Op, was: Task, now: Task, at: int) {
    match op
    case Acknowledge(Completed, result, _) => Completes(was, now, result, at)
    case Acknowledge(Failed, _, error) => Fails(was, now, error, at)
    case Acknowledge(_, _, _) => Cancels(was, now, at)
    case Cancel => Cancels(was, now, at)
    case Launch(agentId) => Launches(was, now, agentId, at)
    case Settle(result, None) => Completes(was, now, result, at)
    case Settle(_, failure) => Fails(was, now, failure, at)
  }

  lemma TransformDoes(op: Op, t: Task, now: int)
    ensures Does(op, t, Transform(op, t, now), now)
  {
    match op
    case Acknowledge(_, result, error) => AcknowledgementIs(t, result, error, now);
    case Settle(result, failure) => AcknowledgementIs(t, result, failure, now);
    case _ =>
  }

  /** A pair with nothing in between: a missing or terminal record is left alone. */
  function Perform(tasks: map<string, Task>, id: string, op: Op, now: int): map<string, Task> {
    if id !in tasks || tasks[id].status.IsTerminal() then tasks else tasks[id := Transform(op, tasks[id], now)]
  }

  predicate ValidAcknowledgement(newStatus: TaskStatus, result: Payload) {
    newStatus.IsTerminal() && (newStatus == Completed ==> result != Empty)
  }

  datatype Request = Request(workflowId: string, capability: string, payload: Payload, timeoutSeconds: int,
      maxRetries: int)

  datatype ServiceError = BadArgument | TaskNotFound | TaskTerminal(status: TaskStatus)

  /** Why a record is left alone, if it is. */
  function Refusal(tasks: map<string, Task>, id: string): Option<ServiceError> {
    if id !in tasks then Some(TaskNotFound)
    else if tasks[id].status.IsTerminal() then Some(TaskTerminal(tasks[id].status))
    else None
  }

  /** The record of a request, its payload bound, before anything has happened to it. */
  predicate RecordOf(t: Task, req: Request, payload: Payload) {
    && Fresh(t)
    && t.workflowId == req.workflowId && t.capability == req.capability && t.payload == payload
    && t.timeoutSeconds == req.timeoutSeconds && t.maxRetries == req.maxRetries
    && t.dispatchedTo == "" && t.result == Empty && t.error == None && t.dispatchedAt == 0 && t.completedAt == 0
  }

  predicate WellFormedRequest(req: Request) {
    req.workflowId != "" && req.capability != "" && req.payload.Document?
  }

  /** What a selection asks for: the capability, and the expert the payload names. */
  datatype Ask = Ask(capability: string, expert: Option<string>)

  function AskOf(capability: string, payload: Payload): Ask {
    Ask(capability, ExpertTarget(payload))
  }

  /** The selector is asked for the capability, and for the expert if the payload names one. */
  lemma AskIs(capability: string, payload: Payload)
    ensures AskOf(capability, payload).capability == capability
    ensures forall e :: AskOf(capability, payload).expert == Some(e) <==> AsksFor(payload, e)
  {
    ExpertIs(payload);
  }

  const RECOVERY_PAGE_SIZE := 100

  function ByStatus(status: TaskStatus, token: string): ListFilter {
    ListFilter("", status, "", token, RECOVERY_PAGE_SIZE)
  }

  class TaskService {
    const repo: MemoryRepo
    const selector: (nat, Ask) -> Option<AgentInfo>
    const clock: nat -> int
    const encode: Encoder
    var ticks: nat
    /** Every selection asked for, and every background execution started, in order. */
    var asked: seq<Ask>
    var launched: seq<(string, AgentInfo)>

    constructor (repo: MemoryRepo, selector: (nat, Ask) -> Option<AgentInfo>, clock: nat -> int, encode: Encoder)
      ensures this.repo == repo && this.selector == selector && this.clock == clock && this.encode == encode
      ensures asked == [] && launched == []
    {
      this.repo, this.selector, this.clock, this.encode := repo, selector, clock, encode;
      ticks, asked, launched := 0, [], [];
    }

    method Now() returns (now: int)
      modifies this`ticks
      ensures now == clock(old(ticks)) && ticks == old(ticks) + 1
    {
      now := clock(ticks);
      ticks := ticks + 1;
    }

    method Select(ask: Ask) returns (agent: Option<AgentInfo>)
      modifies this`asked
      ensures asked == old(asked) + [ask] && agent == selector(|old(asked)|, ask)
    {
      agent := selector(|asked|, ask);
      asked := asked + [ask];
    }

    /** Saves one pending task, its slice bound, and starts it; a refusal saves nothing and starts nothing. */
    method DispatchTask(req: Request, id: string) returns (r: Result<Task, DispatchError>)
      modifies this`ticks, this`asked, this`launched, repo
      ensures r.Err? ==> repo.tasks == old(repo.tasks) && launched == old(launched)
      ensures req.workflowId == "" || req.capability == "" || !req.payload.Document? ==>
        r == Err(InvalidArgument) && asked == old(asked)
      ensures WellFormedRequest(req) ==> asked == old(asked) + [AskOf(req.capability, req.payload)]
      ensures var agent := selector(|old(asked)|, AskOf(req.capability, req.payload));
        && (r.Ok? <==>
          && req.workflowId != "" && req.capability != "" && req.payload.Document? && agent.Some?
          && PrepareExpertDispatch(req.payload, [agent.value], encode).Ok?)
        && (r.Ok? ==>
              && RecordOf(r.value, req, PrepareExpertDispatch(req.payload, [agent.value], encode).value)
              && r.value.id == id && r.value.createdAt == clock(old(ticks))
              && repo.tasks == old(repo.tasks)[id := r.value]
              && launched == old(launched) + [(id, agent.value)])
    {
      hide PrepareExpertDispatch;
      if req.workflowId == "" || req.capability == "" || !req.payload.Document? {
        return Err(InvalidArgument);
      }
      var agent := Select(AskOf(req.capability, req.payload));
      if agent.None? {
        return Err(SelectFailed);
      }
      var bound := PrepareExpertDispatch(req.payload, [agent.value], encode);
      if bound.Err? {
        return Err(bound.error);
      }
      var now := Now();
      var task := Task(id, req.workflowId, req.capability, bound.value, req.timeoutSeconds, req.maxRetries, 0, Pending,
        "", Empty, None, now, 0, 0);
      repo.Save(task);
      launched := launched + [(id, agent.value)];
      return Ok(task);
    }

    /** One read-check-write pair. */
    method ReadCheckWrite(id: string, op: Op) returns (r: Result<Task, ServiceError>)
      requires KeyedById(repo.tasks)
      modifies this`ticks, repo
      ensures KeyedById(repo.tasks) && repo.tasks.Keys == old(repo.tasks).Keys
      ensures r.Err? <==> id !in old(repo.tasks) || old(repo.tasks)[id].status.IsTerminal()
      ensures r.Err? ==> repo.tasks == old(repo.tasks) && Some(r.error) == Refusal(old(repo.tasks), id)
      ensures r.Err? ==> ticks == old(ticks)
      ensures r.Ok? ==>
        && ticks == old(ticks) + 1
        && r.value == Transform(op, old(repo.tasks)[id], clock(old(ticks)))
        && repo.tasks == Perform(old(repo.tasks), id, op, clock(old(ticks)))
        && repo.tasks == old(repo.tasks)[id := r.value]
    {
      var found := repo.GetByID(id);
      if found.None? {
        return Err(TaskNotFound);
      }
      var task := found.value;
      if task.status.IsTerminal() {
        return Err(TaskTerminal(task.status));
      }
      var now := Now();
      assert Perform(repo.tasks, id, op, now) == repo.tasks[id := Transform(op, task, now)];
      task := Transform(op, task, now);
      TransformKeepsIdentity(op, found.value, now);
      var ok := repo.Update(task);
      return Ok(task);
    }

    /** The resulting status, which for a failure report says whether the task will be retried. */
    method AcknowledgeTask(id: string, newStatus: TaskStatus, result: Payload, error: Option<TaskError>)
        returns (r: Result<TaskStatus, ServiceError>)
      requires KeyedById(repo.tasks)
      modifies this`ticks, repo
      ensures KeyedById(repo.tasks)
      ensures r.Err? ==> repo.tasks == old(repo.tasks)
      ensures var valid := id != "" && newStatus in {Completed, Failed, Cancelled}
        && (newStatus == Completed ==> result != Empty);
        && (r.Ok? <==> valid && id in old(repo.tasks) && old(repo.tasks)[id].status !in {Completed, Failed, Cancelled})
        && (!valid ==> r == Err(BadArgument))
        && (valid && id !in old(repo.tasks) ==> r == Err(TaskNotFound))
        && (valid && id in old(repo.tasks) && r.Err? ==> r.error == TaskTerminal(old(repo.tasks)[id].status))
      ensures r.Ok? ==>
        && id in repo.tasks && repo.tasks == old(repo.tasks)[id := repo.tasks[id]]
        && r.value == repo.tasks[id].status
        && var was, now, at := old(repo.tasks)[id], repo.tasks[id], clock(old(ticks));
        && (newStatus == Completed ==> Completes(was, now, result, at))
        && (newStatus == Failed ==> Fails(was, now, error, at))
        && (newStatus == Cancelled ==> Cancels(was, now, at))
    {
      hide Transform, Completes, Fails, Cancels;
      if id == "" || !ValidAcknowledgement(newStatus, result) {
        return Err(BadArgument);
      }
      ghost var at := clock(ticks);
      var task := ReadCheckWrite(id, Acknowledge(newStatus, result, error));
      if task.Err? {
        return Err(task.error);
      }
      TransformDoes(Acknowledge(newStatus, result, error), old(repo.tasks)[id], at);
      return Ok(task.value.status);
    }

    method CancelTask(id: string) returns (r: Result<int, ServiceError>)
      requires KeyedById(repo.tasks)
      modifies this`ticks, repo
      ensures KeyedById(repo.tasks)
      ensures r.Err? ==> repo.tasks == old(repo.tasks)
      ensures r.Ok? <==>
        id != "" && id in old(repo.tasks) && old(repo.tasks)[id].status !in {Completed, Failed, Cancelled}
      ensures id == "" ==> r == Err(BadArgument)
      ensures id != "" && id !in old(repo.tasks) ==> r == Err(TaskNotFound)
      ensures id != "" && id in old(repo.tasks) && r.Err? ==> r.error == TaskTerminal(old(repo.tasks)[id].status)
      ensures r.Ok? ==>
        && id in repo.tasks && repo.tasks == old(repo.tasks)[id := repo.tasks[id]]
        && r.value == clock(old(ticks)) && Cancels(old(repo.tasks)[id], repo.tasks[id], r.value)
    {
      if id == "" {
        return Err(BadArgument);
      }
      var task := ReadCheckWrite(id, Cancel);
      if task.Err? {
        return Err(task.error);
      }
      return Ok(task.value.completedAt);
    }

    /** Background execution with the executor's answer already known, when nothing else runs in between. */
    method ExecuteAsync(id: string, agentId: string, result: Payload, failure: Option<TaskError>) returns (done: bool)
      requires KeyedById(repo.tasks)
      modifies this`ticks, repo
      ensures KeyedById(repo.tasks)
      ensures done <==> id in old(repo.tasks) && !old(repo.tasks)[id].status.IsTerminal()
      ensures !done ==> repo.tasks == old(repo.tasks)
      ensures done ==>
        && id in repo.tasks && repo.tasks == old(repo.tasks)[id := repo.tasks[id]]
        && Executes(old(repo.tasks)[id], repo.tasks[id], agentId, result, failure, clock(old(ticks)),
          clock(old(ticks) + 1))
    {
      hide Transform, Launches, Completes, Fails;
      var launch := ReadCheckWrite(id, Launch(agentId));
      if launch.Err? {
        return false;
      }
      LaunchIsNotTerminal(old(repo.tasks), id, agentId);
      TransformDoes(Launch(agentId), old(repo.tasks)[id], clock(old(ticks)));
      TransformDoes(Settle(result, failure), launch.value, clock(ticks));
      var settle := ReadCheckWrite(id, Settle(result, failure));
      return true;
    }

    /** Asks again for the expert the saved payload names, and starts the task if there is one. */
    method Relaunch(task: Task) returns (started: bool)
      modifies this`asked, this`launched
      ensures asked == old(asked) + [AskOf(task.capability, task.payload)]
      ensures var agent := selector(|old(asked)|, AskOf(task.capability, task.payload));
        && (started <==> agent.Some?)
        && launched == old(launched) + if started then [(task.id, agent.value)] else []
    {
      var agent := Select(AskOf(task.capability, task.payload));
      if agent.None? {
        return false;
      }
      launched := launched + [(task.id, agent.value)];
      return true;
    }

    /** The tasks of one page, in turn. */
    method RelaunchPage(tasks: seq<Task>) returns (recovered: nat)
      modifies this`asked, this`launched
      ensures asked == old(asked) + AsksOf(tasks)
      ensures launched == old(launched) + LaunchesOf(selector, |old(asked)|, tasks)
      ensures recovered == |LaunchesOf(selector, |old(asked)|, tasks)|
    {
      hide LaunchesOf, AsksOf, AskOf;
      NoLaunchesOf(selector, |asked|);
      recovered := 0;
      assert tasks[..0] == [];
      for i := 0 to |tasks|
        invariant asked == old(asked) + AsksOf(tasks[..i]) && |AsksOf(tasks[..i])| == i
        invariant launched == old(launched) + LaunchesOf(selector, |old(asked)|, tasks[..i])
        invariant recovered == |LaunchesOf(selector, |old(asked)|, tasks[..i])|
      {
        assert tasks[..i + 1] == tasks[..i] + [tasks[i]];
        AsksAppend(tasks[..i], tasks[i]);
        OneLaunch(selector, |old(asked)|, tasks[..i], tasks[i]);
        var started := Relaunch(tasks[i]);
        if started {
          recovered := recovered + 1;
        }
      }
      assert tasks[..|tasks|] == tasks;
    }

    /** Tries, page by page, every task of one status: each once, in listing order. */
    method RecoverByStatus(status: TaskStatus) returns (recovered: nat, ghost tried: seq<Task>)
      requires KeyedById(repo.tasks) && repo.codec.Lawful()
      modifies this`asked, this`launched
      ensures IsListing(repo.tasks, ByStatus(status, ""), tried)
      ensures asked == old(asked) + AsksOf(tried)
      ensures launched == old(launched) + LaunchesOf(selector, |old(asked)|, tried)
      ensures recovered == |LaunchesOf(selector, |old(asked)|, tried)|
    {
      hide IsListing, KeyedById, LaunchesOf, AsksOf;
      recovered := 0;
      var token := "";
      var page;
      page, tried := repo.List(ByStatus(status, ""));
      ghost var offset := 0;
      NoLaunchesOf(selector, |asked|);
      assert tried[..0] == [];
      while true
        invariant IsListing(repo.tasks, ByStatus(status, ""), tried)
        invariant 0 <= offset <= |tried| && AtOffset(ByStatus(status, token), repo.codec, offset)
        invariant page == PageOf(tried, ByStatus(status, token), repo.codec)
        invariant asked == old(asked) + AsksOf(tried[..offset]) && |AsksOf(tried[..offset])| == offset
        invariant launched == old(launched) + LaunchesOf(selector, |old(asked)|, tried[..offset])
        invariant recovered == |LaunchesOf(selector, |old(asked)|, tried[..offset])|
        decreases |tried| - offset
        modifies this`asked, this`launched
      {
        var n := RelaunchPage(page.tasks);
        recovered := recovered + n;
        AsksConcat(tried[..offset], page.tasks);
        LaunchesConcat(selector, |old(asked)|, tried[..offset], page.tasks);
        if page.nextPageToken == "" {
          assert tried[..offset] + page.tasks == tried;
          return;
        }
        assert tried[..offset] + page.tasks == tried[..offset + RECOVERY_PAGE_SIZE];
        offset := offset + RECOVERY_PAGE_SIZE;
        token := page.nextPageToken;
        ghost var again;
        page, again := repo.List(ByStatus(status, token));
        SameListing(repo.tasks, status, token, tried, again);
      }
    }

    /** Startup recovery tries every pending, dispatched and retrying task exactly once. */
    method RecoverInFlight() returns (recovered: nat, ghost tried: seq<Task>)
      requires KeyedById(repo.tasks) && repo.codec.Lawful()
      modifies this`asked, this`launched
      ensures multiset(tried) == multiset(InFlight(repo.tasks))
      ensures asked == old(asked) + AsksOf(tried)
      ensures launched == old(launched) + LaunchesOf(selector, |old(asked)|, tried)
      ensures recovered == |LaunchesOf(selector, |old(asked)|, tried)|
    {
      hide Matches, AsksOf, LaunchesOf;
      ghost var a, b, c;
      var m, n;
      recovered, a := RecoverByStatus(Pending);
      m, b := RecoverByStatus(Dispatched);
      n, c := RecoverByStatus(Retrying);
      recovered := recovered + m + n;
      tried := a + b + c;
      AsksConcat(a, b);
      AsksConcat(a + b, c);
      LaunchesConcat(selector, |old(asked)|, a, b);
      LaunchesConcat(selector, |old(asked)|, a + b, c);
      ThreeListings(repo.tasks);
    }
  }

  // ---------------------------------------------------------------------------------------------------------------

  lemma TransformKeepsIdentity(op: Op, t: Task, now: int)
    ensures SameIdentity(t, Transform(op, t, now))
  {
  }

  lemma LaunchIsNotTerminal(tasks: map<string, Task>, id: string, agentId: string)
    requires id in tasks && !tasks[id].status.IsTerminal()
    ensures forall now :: !Perform(tasks, id, Launch(agentId), now)[id].status.IsTerminal()
  {
  }

  /** The tasks that startup recovery is for. */
  ghost function InFlight(tasks: map<string, Task>): set<Task> {
    set id | id in tasks && tasks[id].status in {Pending, Dispatched, Retrying} :: tasks[id]
  }

  ghost function AsksOf(tasks: seq<Task>): seq<Ask> {
    seq(|tasks|, i requires 0 <= i < |tasks| => AskOf(tasks[i].capability, tasks[i].payload))
  }

  /** The executions started when the tasks are asked for in turn, the first as selection number `n`. */
  ghost function LaunchesOf(selector: (nat, Ask) -> Option<AgentInfo>, n: nat,
      tasks: seq<Task>): seq<(string, AgentInfo)>
  {
    if tasks == [] then []
    else
      var k := |tasks| - 1;
      var agent := selector(n + k, AskOf(tasks[k].capability, tasks[k].payload));
      LaunchesOf(selector, n, tasks[..k]) + if agent.Some? then [(tasks[k].id, agent.value)] else []
  }

  lemma NoLaunchesOf(selector: (nat, Ask) -> Option<AgentInfo>, n: nat)
    ensures LaunchesOf(selector, n, []) == [] && AsksOf([]) == []
  {
  }

  lemma OneLaunch(selector: (nat, Ask) -> Option<AgentInfo>, n: nat, tasks: seq<Task>, t: Task)
    ensures LaunchesOf(selector, n, tasks + [t]) ==
            var agent := selector(n + |tasks|, AskOf(t.capability, t.payload));
            LaunchesOf(selector, n, tasks) + if agent.Some? then [(t.id, agent.value)] else []
  {
    hide AskOf;
    assert (tasks + [t])[..|tasks|] == tasks;
  }

  lemma {:induction false} LaunchesConcat(selector: (nat, Ask) -> Option<AgentInfo>, n: nat, a: seq<Task>, b: seq<Task>)
    ensures LaunchesOf(selector, n, a + b) == LaunchesOf(selector, n, a) + LaunchesOf(selector, n + |a|, b)
  {
    hide AskOf, LaunchesOf;
    if b == [] {
      NoLaunchesOf(selector, n + |a|);
      assert a + b == a;
    } else {
      var k := |b| - 1;
      var front, t := b[..k], b[k];
      LaunchesConcat(selector, n, a, front);
      OneLaunch(selector, n, a + front, t);
      OneLaunch(selector, n + |a|, front, t);
      assert a + b == a + front + [t] && b == front + [t];
    }
  }

  lemma AsksAppend(tasks: seq<Task>, t: Task)
    ensures AsksOf(tasks + [t]) == AsksOf(tasks) + [AskOf(t.capability, t.payload)]
      && |AsksOf(tasks + [t])| == |tasks| + 1
  {
  }

  lemma AsksConcat(a: seq<Task>, b: seq<Task>)
    ensures AsksOf(a + b) == AsksOf(a) + AsksOf(b) && |AsksOf(a)| == |a| && |AsksOf(b)| == |b|
  {
  }

  /** The listing does not depend on the page token. */
  lemma SameListing(tasks: map<string, Task>, status: TaskStatus, token: string, xs: seq<Task>, ys: seq<Task>)
    requires KeyedById(tasks) && IsListing(tasks, ByStatus(status, ""), xs)
      && IsListing(tasks, ByStatus(status, token), ys)
    ensures xs == ys
  {
    hide TaskLe;
    assert Matching(tasks, ByStatus(status, "")) == Matching(tasks, ByStatus(status, token));
    ListingIsUnique(tasks, ByStatus(status, ""), xs, ys);
  }

  lemma ThreeListings(tasks: map<string, Task>)
    requires KeyedById(tasks)
    ensures var p, d, r := Matching(tasks, ByStatus(Pending, "")), Matching(tasks, ByStatus(Dispatched, "")),
      Matching(tasks, ByStatus(Retrying, ""));
            multiset(p) + multiset(d) + multiset(r) == multiset(InFlight(tasks))
  {
    var p, d, r := Matching(tasks, ByStatus(Pending, "")), Matching(tasks, ByStatus(Dispatched, "")),
      Matching(tasks, ByStatus(Retrying, ""));
    assert InFlight(tasks) == p + d + r;
    assert p !! d && p !! r && d !! r;
    assert multiset(p + d) == multiset(p) + multiset(d);
    assert multiset(p + d + r) == multiset(p + d) + multiset(r);
  }

  /** When no status is unspecified, in flight is every task that is not terminal. */
  lemma InFlightIsNonTerminal(tasks: map<string, Task>)
    requires forall id :: id in tasks ==> tasks[id].status != Unspecified
    ensures InFlight(tasks) == set id | id in tasks && !tasks[id].status.IsTerminal() :: tasks[id]
  {
  }
}
