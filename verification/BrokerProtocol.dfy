/**
The broker with any number of requests and background executions at once. `GetByID` and `Update` are atomic, the pair of
them is not: between its read and its write a worker holds a snapshot that others may have made stale.
*/
module BrokerProtocol {
  import opened Text
  import opened DataContext
  import opened Tasks
  import opened TaskBroker

  /** A worker before its read, between read and write, or done. */
  datatype Worker =
    | Reading(id: string, op: Op)
    | Writing(snapshot: Task, next: Task, op: Op)
    | Finished

  /** `saved` remembers each task as it was saved; `outcomes` lists the updates in order. */
  datatype System = System(tasks: map<string, Task>, saved: map<string, Task>, workers: map<nat, Worker>,
      outcomes: seq<(string, TaskStatus)>)

  datatype Event =
    | Submit(task: Task, w: nat, agentId: string)
    | Arrive(w: nat, id: string, op: Op)
    | Read(w: nat, now: int)
    | Write(w: nat, answer: Op)

  /** What a client can ask for: a valid acknowledgement, a cancellation, or (recovery) a launch. */
  predicate Requestable(op: Op) {
    match op
    case Acknowledge(newStatus, result, _) => ValidAcknowledgement(newStatus, result)
    case Cancel => true
    case Launch(_) => true
    case Settle(_, _) => false
  }

  ghost predicate Enabled(s: System, e: Event) {
    match e
    case Submit(task, w, _) => Fresh(task) && task.id !in s.tasks && w !in s.workers
    case Arrive(w, _, op) => w !in s.workers && Requestable(op)
    case Read(w, _) => w in s.workers && s.workers[w].Reading?
    case Write(w, answer) => w in s.workers && s.workers[w].Writing? && answer.Settle?
  }

  function AfterRead(s: System, w: nat, now: int): System
    requires w in s.workers && s.workers[w].Reading?
  {
    var id, op := s.workers[w].id, s.workers[w].op;
    if id !in s.tasks || s.tasks[id].status.IsTerminal() then s.(workers := s.workers[w := Finished])
    else s.(workers := s.workers[w := Writing(s.tasks[id], Transform(op, s.tasks[id], now), op)])
  }

  /** The update. A launch then waits for its executor, whose answer is the settlement it goes on to read for. */
  function AfterWrite(s: System, w: nat, answer: Op): System
    requires w in s.workers && s.workers[w].Writing?
  {
    var next, op := s.workers[w].next, s.workers[w].op;
    if next.id !in s.tasks then s.(workers := s.workers[w := Finished])
    else
      System(s.tasks[next.id := next], s.saved,
             s.workers[w := if op.Launch? then Reading(next.id, answer) else Finished],
             s.outcomes + [(next.id, next.status)])
  }

  ghost function Apply(s: System, e: Event): System
    requires Enabled(s, e)
  {
    match e
    case Submit(task, w, agentId) =>
      System(s.tasks[task.id := task], s.saved[task.id := task], s.workers[w := Reading(task.id, Launch(agentId))],
        s.outcomes)
    case Arrive(w, id, op) => s.(workers := s.workers[w := Reading(id, op)])
    case Read(w, now) => AfterRead(s, w, now)
    case Write(w, answer) => AfterWrite(s, w, answer)
  }

  ghost predicate Initial(s: System) {
    s.tasks == map[] && s.saved == map[] && s.workers == map[] && s.outcomes == []
  }

  ghost predicate Step(s: System, s': System) {
    exists e :: Enabled(s, e) && s' == Apply(s, e)
  }

  ghost predicate IsRun(run: seq<System>) {
    run != [] && Initial(run[0]) && forall i :: 0 <= i < |run| - 1 ==> Step(run[i], run[i + 1])
  }

  // ---------------------------------------------------------------------------------------------------------------
  // What every interleaving keeps

  ghost predicate RetryOk(t: Task) {
    t.maxRetries < MAX_INT32 ==> RetryBound(t)
  }

  /** A record that the broker can have: what was saved, moved on. */
  ghost predicate RecordOk(saved: map<string, Task>, t: Task) {
    t.id in saved && SameIdentity(saved[t.id], t) && RetryOk(t) && t.status != Unspecified
  }

  /** A worker about to write read a task that was not terminal, and writes a status that is not pending. */
  ghost predicate WorkerOk(saved: map<string, Task>, w: Worker) {
    w.Writing? ==>
      && RecordOk(saved, w.snapshot)
      && RecordOk(saved, w.next)
      && !w.snapshot.status.IsTerminal()
      && w.next.status != Pending
      && w.next.id == w.snapshot.id
  }

  ghost predicate Inv(s: System) {
    && s.saved.Keys == s.tasks.Keys
    && (forall id :: id in s.tasks ==> s.tasks[id].id == id && RecordOk(s.saved, s.tasks[id]))
    && (forall w :: w in s.workers ==> WorkerOk(s.saved, s.workers[w]))
  }

  lemma TransformKeepsRecord(saved: map<string, Task>, op: Op, t: Task, now: int)
    requires RecordOk(saved, t)
    ensures RecordOk(saved, Transform(op, t, now)) && Transform(op, t, now).status != Pending
      && Transform(op, t, now).id == t.id
  {
  }

  lemma SubmitKeeps(s: System, task: Task, w: nat, agentId: string)
    requires Inv(s) && Enabled(s, Submit(task, w, agentId))
    ensures Inv(Apply(s, Submit(task, w, agentId)))
  {
    var s' := Apply(s, Submit(task, w, agentId));
    forall t | RecordOk(s.saved, t)
      ensures RecordOk(s'.saved, t)
    {
    }
    assert RecordOk(s'.saved, task);
    forall v | v in s'.workers
      ensures WorkerOk(s'.saved, s'.workers[v])
    {
      if v != w {
        assert WorkerOk(s.saved, s.workers[v]);
      }
    }
  }

  lemma ReadKeeps(s: System, w: nat, now: int)
    requires Inv(s) && Enabled(s, Read(w, now))
    ensures Inv(Apply(s, Read(w, now)))
  {
    hide RecordOk, Transform;
    var id, op := s.workers[w].id, s.workers[w].op;
    if id in s.tasks && !s.tasks[id].status.IsTerminal() {
      TransformKeepsRecord(s.saved, op, s.tasks[id], now);
    }
  }

  lemma WriteKeeps(s: System, w: nat, answer: Op)
    requires Inv(s) && Enabled(s, Write(w, answer))
    ensures Inv(Apply(s, Write(w, answer)))
  {
    hide RecordOk;
    assert WorkerOk(s.saved, s.workers[w]);
  }

  lemma StepKeeps(s: System, e: Event)
    requires Inv(s) && Enabled(s, e)
    ensures Inv(Apply(s, e))
  {
    match e
    case Submit(task, w, agentId) => SubmitKeeps(s, task, w, agentId);
    case Arrive(_, _, _) => { hide RecordOk; }
    case Read(w, now) => ReadKeeps(s, w, now);
    case Write(w, answer) => WriteKeeps(s, w, answer);
  }

  lemma RunPrefix(run: seq<System>)
    requires IsRun(run) && |run| > 1
    ensures IsRun(run[..|run| - 1]) && Step(run[|run| - 2], run[|run| - 1])
  {
    hide Step;
    var p := run[..|run| - 1];
    forall i | 0 <= i < |p| - 1
      ensures Step(p[i], p[i + 1])
    {
      assert Step(run[i], run[i + 1]);
    }
    assert Step(run[|run| - 2], run[|run| - 2 + 1]);
  }

  /**
  Under every interleaving: a task keeps the identity, budget and slice-bound payload it was saved with, `RetryCount`
  stays between zero and the budget (for budgets below the largest 32-bit integer), and no update comes from a terminal
  snapshot.
  */
  lemma {:induction false} EveryInterleaving(run: seq<System>)
    requires IsRun(run)
    ensures Inv(run[|run| - 1])
    decreases |run|
  {
    hide Inv, Apply, Enabled;
    if |run| == 1 {
      InitialOk(run[0]);
    } else {
      RunPrefix(run);
      EveryInterleaving(run[..|run| - 1]);
      var e :| Enabled(run[|run| - 2], e) && run[|run| - 1] == Apply(run[|run| - 2], e);
      StepKeeps(run[|run| - 2], e);
    }
  }

  lemma InitialOk(s: System)
    requires Initial(s)
    ensures Inv(s)
  {
  }

  /** One step: a task does not go away, keeps its identity, and once past pending stays past it. */
  lemma StepMovesOn(s: System, e: Event, id: string)
    requires Inv(s) && Enabled(s, e) && id in s.tasks
    ensures var s' := Apply(s, e);
            id in s'.tasks && SameIdentity(s.tasks[id], s'.tasks[id])
              && (s.tasks[id].status != Pending ==> s'.tasks[id].status != Pending)
  {
    hide RetryOk;
    if e.Write? {
      assert WorkerOk(s.saved, s.workers[e.w]);
    }
  }

  /**
  Over any stretch of any run: identity never changes, a task never returns to pending, and recovery asks for the same
  expert as the dispatch did.
  */
  lemma {:induction false} TasksMoveOn(run: seq<System>, i: nat, j: nat, id: string)
    requires IsRun(run) && i <= j < |run| && id in run[i].tasks
    ensures id in run[j].tasks && SameIdentity(run[i].tasks[id], run[j].tasks[id])
    ensures run[i].tasks[id].status != Pending ==> run[j].tasks[id].status != Pending
    ensures AskOf(run[j].tasks[id].capability, run[j].tasks[id].payload) ==
      AskOf(run[i].tasks[id].capability, run[i].tasks[id].payload)
    decreases j - i
  {
    hide Apply, Enabled, Inv;
    if i == j {
    } else {
      TasksMoveOn(run, i, j - 1, id);
      InvAt(run, j - 1);
      assert Step(run[j - 1], run[j - 1 + 1]);
      var e :| Enabled(run[j - 1], e) && run[j] == Apply(run[j - 1], e);
      StepMovesOn(run[j - 1], e, id);
    }
  }

  lemma InvAt(run: seq<System>, i: nat)
    requires IsRun(run) && i < |run|
    ensures Inv(run[i])
  {
    hide Inv, Step;
    var p := run[..i + 1];
    forall k | 0 <= k < |p| - 1
      ensures Step(p[k], p[k + 1])
    {
      assert Step(run[k], run[k + 1]);
    }
    EveryInterleaving(p);
  }

  // ---------------------------------------------------------------------------------------------------------------
  // Terminal records, whatever the interleaving

  ghost predicate IsRunFrom(run: seq<System>, s: System) {
    run != [] && run[0] == s && forall i :: 0 <= i < |run| - 1 ==> Step(run[i], run[i + 1])
  }

  /** The worker is between its read and its write of the task. */
  ghost predicate Writes(s: System, w: nat, id: string) {
    w in s.workers && s.workers[w].Writing? && s.workers[w].next.id == id
  }

  /** No worker is about to write something else over the record. */
  ghost predicate NoneStale(s: System, id: string)
    requires id in s.tasks
  {
    forall w :: Writes(s, w, id) ==> s.workers[w].next == s.tasks[id]
  }

  ghost predicate Unchanged(run: seq<System>, id: string, t: Task) {
    forall i :: 0 <= i < |run| ==> id in run[i].tasks && run[i].tasks[id] == t
  }

  lemma StepLeavesTerminal(s: System, e: Event, id: string)
    requires Inv(s) && Enabled(s, e) && id in s.tasks && s.tasks[id].status.IsTerminal() && NoneStale(s, id)
    ensures var s' := Apply(s, e); id in s'.tasks && s'.tasks[id] == s.tasks[id] && NoneStale(s', id)
  {
    hide RecordOk, Transform;
    if e.Read? && s.workers[e.w].id in s.tasks {
      TransformKeepsRecord(s.saved, s.workers[e.w].op, s.tasks[s.workers[e.w].id], e.now);
    }
  }

  lemma {:induction false} NoneStaleStays(run: seq<System>, s: System, id: string, i: nat)
    requires IsRunFrom(run, s) && Inv(s) && id in s.tasks && s.tasks[id].status.IsTerminal() && NoneStale(s, id)
      && i < |run|
    ensures Inv(run[i]) && id in run[i].tasks && run[i].tasks[id] == s.tasks[id] && NoneStale(run[i], id)
  {
    hide Inv, Apply, Enabled, NoneStale;
    if i == 0 {
    } else {
      NoneStaleStays(run, s, id, i - 1);
      assert Step(run[i - 1], run[i - 1 + 1]);
      var e :| Enabled(run[i - 1], e) && run[i] == Apply(run[i - 1], e);
      StepKeeps(run[i - 1], e);
      StepLeavesTerminal(run[i - 1], e, id);
    }
  }

  /**
  A terminal record stays as it is on every run from here if and only if no worker holds something else to write over
  it.
  */
  lemma TerminalStaysIff(s: System, id: string)
    requires Inv(s) && id in s.tasks && s.tasks[id].status.IsTerminal()
    ensures (forall run :: IsRunFrom(run, s) ==> Unchanged(run, id, s.tasks[id])) <==> NoneStale(s, id)
  {
    hide Inv, Apply, Enabled;
    if NoneStale(s, id) {
      forall run: seq<System>, i | IsRunFrom(run, s) && 0 <= i < |run|
        ensures id in run[i].tasks && run[i].tasks[id] == s.tasks[id]
      {
        NoneStaleStays(run, s, id, i);
      }
    } else {
      var w :| Writes(s, w, id) && s.workers[w].next != s.tasks[id];
      var s' := WriteBreaks(s, w, id);
      assert IsRunFrom([s, s'], s);
      assert !Unchanged([s, s'], id, s.tasks[id]) by { assert [s, s'][1] == s'; }
    }
  }

  lemma WriteBreaks(s: System, w: nat, id: string) returns (s': System)
    requires id in s.tasks && w in s.workers && s.workers[w].Writing?
    requires s.workers[w].next.id == id && s.workers[w].next != s.tasks[id]
    ensures Step(s, s') && id in s'.tasks && s'.tasks[id] != s.tasks[id]
  {
    var e := Write(w, Settle(Empty, None));
    s' := Apply(s, e);
  }

  // ---------------------------------------------------------------------------------------------------------------
  // Pairs on one task, serialised

  /**
  The task is read only while no other worker is between its read and its write of it; pairs on other tasks may overlap.
  */
  ghost predicate SerialEvent(s: System, e: Event, id: string) {
    e.Read? && e.w in s.workers && s.workers[e.w].Reading? && s.workers[e.w].id == id ==>
      forall w :: !Writes(s, w, id)
  }

  ghost predicate SerialStep(s: System, s': System, id: string) {
    exists e :: Enabled(s, e) && SerialEvent(s, e, id) && s' == Apply(s, e)
  }

  ghost predicate IsSerialRun(run: seq<System>, id: string) {
    run != [] && Initial(run[0]) && forall i :: 0 <= i < |run| - 1 ==> SerialStep(run[i], run[i + 1], id)
  }

  /** At most one worker is about to write the task, and what it read is still there. */
  ghost predicate Undisturbed(s: System, id: string) {
    && (forall v, w :: Writes(s, v, id) && Writes(s, w, id) ==> v == w)
    && (forall w :: Writes(s, w, id) ==> id in s.tasks && s.tasks[id] == s.workers[w].snapshot)
  }

  /** The number of retrying outcomes a task has had. */
  ghost function Retries(outcomes: seq<(string, TaskStatus)>, id: string): nat {
    if outcomes == [] then 0
    else Retries(outcomes[..|outcomes| - 1], id) + if outcomes[|outcomes| - 1] == (id, Retrying) then 1 else 0
  }

  /**
  For budgets below the wrap-around, the retry count is the number of retries there have been, and the next write
  accounts for itself.
  */
  ghost predicate Accounted(s: System, id: string) {
    && (id in s.tasks && s.tasks[id].maxRetries < MAX_INT32 ==> s.tasks[id].retryCount == Retries(s.outcomes, id))
    && (id !in s.tasks ==> Retries(s.outcomes, id) == 0)
    && (forall w :: Writes(s, w, id) && s.workers[w].snapshot.maxRetries < MAX_INT32 ==>
          s.workers[w].next.retryCount == s.workers[w].snapshot.retryCount +
            if s.workers[w].next.status == Retrying then 1 else 0)
  }

  lemma TransformAccounts(op: Op, t: Task, now: int)
    requires t.maxRetries < MAX_INT32 && RetryBound(t)
    ensures Transform(op, t, now).retryCount == t.retryCount + if Transform(op, t, now).status == Retrying then 1 else 0
  {
  }

  ghost predicate SerialInv(s: System, id: string) {
    Inv(s) && Undisturbed(s, id) && Accounted(s, id)
  }

  lemma RetriesAppend(outcomes: seq<(string, TaskStatus)>, o: (string, TaskStatus), id: string)
    ensures Retries(outcomes + [o], id) == Retries(outcomes, id) + if o == (id, Retrying) then 1 else 0
  {
    assert (outcomes + [o])[..|outcomes|] == outcomes;
  }

  lemma ReadAccounts(s: System, id: string, op: Op, now: int)
    requires Inv(s) && id in s.tasks
    ensures Transform(op, s.tasks[id], now).id == id
    ensures s.tasks[id].maxRetries < MAX_INT32 ==>
      Transform(op, s.tasks[id], now).retryCount == s.tasks[id].retryCount +
        if Transform(op, s.tasks[id], now).status == Retrying then 1 else 0
  {
    hide Transform, SameIdentity;
    assert RecordOk(s.saved, s.tasks[id]);
    TransformKeepsRecord(s.saved, op, s.tasks[id], now);
    if s.tasks[id].maxRetries < MAX_INT32 {
      TransformAccounts(op, s.tasks[id], now);
    }
  }

  lemma SerialReadKeeps(s: System, w: nat, now: int, id: string)
    requires SerialInv(s, id) && Enabled(s, Read(w, now)) && SerialEvent(s, Read(w, now), id)
    ensures Undisturbed(Apply(s, Read(w, now)), id) && Accounted(Apply(s, Read(w, now)), id)
  {
    hide Transform, Retries, Inv;
    var read, op, s' := s.workers[w].id, s.workers[w].op, Apply(s, Read(w, now));
    assert forall v :: Writes(s', v, id) && v != w ==> Writes(s, v, id) && s'.workers[v] == s.workers[v];
    if read in s.tasks {
      ReadAccounts(s, read, op, now);
    }
  }

  lemma SerialWriteKeeps(s: System, w: nat, answer: Op, id: string)
    requires SerialInv(s, id) && Enabled(s, Write(w, answer))
    ensures Undisturbed(Apply(s, Write(w, answer)), id) && Accounted(Apply(s, Write(w, answer)), id)
  {
    hide Retries, RetryOk;
    var next, s' := s.workers[w].next, Apply(s, Write(w, answer));
    assert forall v :: Writes(s', v, id) ==> v != w && Writes(s, v, id) && s'.workers[v] == s.workers[v];
    assert WorkerOk(s.saved, s.workers[w]);
    assert next.id == id ==> Writes(s, w, id);
    RetriesAppend(s.outcomes, (next.id, next.status), id);
  }

  lemma SerialSubmitKeeps(s: System, e: Event, id: string)
    requires e.Submit? && SerialInv(s, id) && Enabled(s, e)
    ensures Undisturbed(Apply(s, e), id) && Accounted(Apply(s, e), id)
  {
    hide Retries, RetryOk, SameIdentity;
    var s' := Apply(s, e);
    assert forall v :: Writes(s', v, id) ==> Writes(s, v, id) && s'.workers[v] == s.workers[v];
  }

  lemma SerialStepKeeps(s: System, e: Event, id: string)
    requires SerialInv(s, id) && Enabled(s, e) && SerialEvent(s, e, id)
    ensures SerialInv(Apply(s, e), id)
  {
    StepKeeps(s, e);
    match e
    case Submit(_, _, _) => { hide Inv, Retries; SerialSubmitKeeps(s, e, id); }
    case Arrive(_, _, _) =>
      hide Inv, Retries;
      var s' := Apply(s, e);
      assert forall v :: Writes(s', v, id) ==> Writes(s, v, id) && s'.workers[v] == s.workers[v];
    case Read(w, now) => { hide Inv; SerialReadKeeps(s, w, now, id); }
    case Write(w, answer) => { hide Inv; SerialWriteKeeps(s, w, answer, id); }
  }

  lemma {:induction false} SerialRunKeeps(run: seq<System>, i: nat, id: string)
    requires IsSerialRun(run, id) && i < |run|
    ensures SerialInv(run[i], id)
  {
    hide SerialInv, Apply, Enabled, SerialEvent;
    if i == 0 {
      SerialInitial(run[0], id);
    } else {
      SerialRunKeeps(run, i - 1, id);
      assert SerialStep(run[i - 1], run[i - 1 + 1], id);
      var e :| Enabled(run[i - 1], e) && SerialEvent(run[i - 1], e, id) && run[i] == Apply(run[i - 1], e);
      SerialStepKeeps(run[i - 1], e, id);
    }
  }

  lemma SerialInitial(s: System, id: string)
    requires Initial(s)
    ensures SerialInv(s, id)
  {
  }

  /** With pairs on a task serialised nothing stale is ever held against its terminal record. */
  lemma SerialIsNeverStale(s: System, id: string)
    requires SerialInv(s, id) && id in s.tasks && s.tasks[id].status.IsTerminal()
    ensures NoneStale(s, id)
  {
    hide Accounted, RecordOk;
    assert forall w :: w in s.workers ==> WorkerOk(s.saved, s.workers[w]);
  }

  /** With the pairs on a task serialised, whatever happens to other tasks, its terminal record never changes again. */
  lemma {:induction false} TerminalIsFinal(run: seq<System>, i: nat, j: nat, id: string)
    requires IsSerialRun(run, id) && i <= j < |run| && id in run[i].tasks && run[i].tasks[id].status.IsTerminal()
    ensures id in run[j].tasks && run[j].tasks[id] == run[i].tasks[id]
    decreases j - i
  {
    hide Inv, Undisturbed, Accounted, Apply, Enabled, SerialEvent, NoneStale;
    if i == j {
    } else {
      TerminalIsFinal(run, i, j - 1, id);
      SerialRunKeeps(run, j - 1, id);
      SerialIsNeverStale(run[j - 1], id);
      assert SerialStep(run[j - 1], run[j - 1 + 1], id);
      var e :| Enabled(run[j - 1], e) && SerialEvent(run[j - 1], e, id) && run[j] == Apply(run[j - 1], e);
      StepLeavesTerminal(run[j - 1], e, id);
    }
  }

  /** And the task is retried at most as often as its budget says, a failure report on a spent budget ending it. */
  lemma RetriesAreBounded(run: seq<System>, i: nat, id: string)
    requires IsSerialRun(run, id) && i < |run| && id in run[i].tasks && run[i].tasks[id].maxRetries < MAX_INT32
    ensures Retries(run[i].outcomes, id) == run[i].tasks[id].retryCount <= Max(0, run[i].tasks[id].maxRetries)
    ensures Retries(run[i].outcomes, id) >= run[i].tasks[id].maxRetries ==>
      forall e, now :: ApplyAcknowledgement(run[i].tasks[id], Failed, Empty, e, now).status == Failed
  {
    hide IsSerialRun, Retries, Undisturbed;
    SerialRunKeeps(run, i, id);
    assert RecordOk(run[i].saved, run[i].tasks[id]);
  }

  // ---------------------------------------------------------------------------------------------------------------
  // Pairs that overlap

  /** The system after worker `v` and then worker `w` have read. */
  ghost function BothRead(s: System, v: nat, w: nat, t: int, u: int): System
    requires v in s.workers && w in s.workers && v != w && s.workers[v].Reading? && s.workers[w].Reading?
  {
    AfterRead(AfterRead(s, v, t), w, u)
  }

  /**
  Two pairs of any kind that have both read a task: the first to write stores what it made of the record, and the second
  then stores what it made of the same record, the first one's work lost.
  */
  lemma OverlapOverwrites(s: System, v: nat, w: nat, t: int, u: int, answer: Op)
    requires v in s.workers && w in s.workers && v != w && s.workers[v].Reading? && s.workers[w].Reading?
      && answer.Settle?
    requires s.workers[v].id == s.workers[w].id
    requires var id := s.workers[v].id; id in s.tasks && s.tasks[id].id == id && !s.tasks[id].status.IsTerminal()
    ensures var r := BothRead(s, v, w, t, u);
            var id := s.workers[v].id;
            && v in r.workers && r.workers[v].Writing? && w in r.workers && r.workers[w].Writing?
            && id in AfterWrite(r, v, answer).tasks
              && AfterWrite(r, v, answer).tasks[id] == Transform(s.workers[v].op, s.tasks[id], t)
            && w in AfterWrite(r, v, answer).workers && AfterWrite(r, v, answer).workers[w] == r.workers[w]
            && id in AfterWrite(AfterWrite(r, v, answer), w, answer).tasks
            && AfterWrite(AfterWrite(r, v, answer), w, answer).tasks[id] == Transform(s.workers[w].op, s.tasks[id], u)
  {
    hide Transform;
    var id := s.workers[v].id;
    TransformKeepsIdentity(s.workers[v].op, s.tasks[id], t);
    TransformKeepsIdentity(s.workers[w].op, s.tasks[id], u);
  }

  ghost function Example(): Task {
    Task("t", "wf", "cap", Document("null", Null), 0, 0, 0, Pending, "", Empty, None, 0, 0, 0)
  }

  ghost predicate CompletedThenCancelled(run: seq<System>, i: nat, j: nat, id: string) {
    && i < j < |run| && id in run[i].tasks && id in run[j].tasks
    && run[i].tasks[id].status == Completed && run[j].tasks[id].status == Cancelled
  }

  lemma ExampleEnds()
    ensures Transform(Acknowledge(Completed, Document("null", Null), None), Example(), 0).status == Completed
    ensures Transform(Cancel, Example(), 0).status == Cancelled && !Example().status.IsTerminal()
  {
  }

  lemma StepBy(s: System, e: Event)
    requires Enabled(s, e)
    ensures Step(s, Apply(s, e))
  {
  }

  /** A dispatched task with a completion and a cancellation about to read it. */
  lemma TwoArrive() returns (s0: System, s1: System, s2: System, s: System)
    ensures Initial(s0) && Step(s0, s1) && Step(s1, s2) && Step(s2, s)
    ensures 1 in s.workers && s.workers[1] == Reading("t", Acknowledge(Completed, Document("null", Null), None))
    ensures 2 in s.workers && s.workers[2] == Reading("t", Cancel)
    ensures "t" in s.tasks && s.tasks["t"] == Example()
  {
    hide Step;
    var ack := Acknowledge(Completed, Document("null", Null), None);
    s0 := System(map[], map[], map[], []);
    StepBy(s0, Submit(Example(), 0, "agent"));
    s1 := Apply(s0, Submit(Example(), 0, "agent"));
    StepBy(s1, Arrive(1, "t", ack));
    s2 := Apply(s1, Arrive(1, "t", ack));
    StepBy(s2, Arrive(2, "t", Cancel));
    s := Apply(s2, Arrive(2, "t", Cancel));
  }

  /** Such an overlap is reachable: a dispatched task, a completion and a cancellation at once. */
  lemma TerminalCanBeOverwritten()
    ensures exists run, i, j, id :: IsRun(run) && CompletedThenCancelled(run, i, j, id)
  {
    hide Transform, Step, AfterRead, AfterWrite, Initial;
    var answer := Settle(Empty, None);
    var s0, s1, s2, s3 := TwoArrive();
    OverlapOverwrites(s3, 1, 2, 0, 0, answer);
    ExampleEnds();
    StepBy(s3, Read(1, 0));
    var s4 := Apply(s3, Read(1, 0));
    ReadFrame(s3, 1, 2, 0);
    StepBy(s4, Read(2, 0));
    var s5 := Apply(s4, Read(2, 0));
    StepBy(s5, Write(1, answer));
    var s6 := Apply(s5, Write(1, answer));
    StepBy(s6, Write(2, answer));
    var s7 := Apply(s6, Write(2, answer));
    var run := [s0, s1, s2, s3, s4, s5, s6, s7];
    assert IsRun(run);
    assert CompletedThenCancelled(run, 6, 7, "t");
  }

  lemma ReadFrame(s: System, v: nat, w: nat, now: int)
    requires v in s.workers && w in s.workers && v != w && s.workers[v].Reading?
    ensures w in AfterRead(s, v, now).workers && AfterRead(s, v, now).workers[w] == s.workers[w]
  {
  }

  // ---------------------------------------------------------------------------------------------------------------
  // The service's calls as runs

  /** A worker's read, and its write if it gets that far. */
  lemma PairSteps(s: System, w: nat, now: int, answer: Op) returns (run: seq<System>)
    requires w in s.workers && s.workers[w].Reading? && answer.Settle? &&
      forall id :: id in s.tasks ==> s.tasks[id].id == id
    ensures IsRunFrom(run, s)
    ensures var id, op, z := s.workers[w].id, s.workers[w].op, run[|run| - 1];
      && z.tasks == Perform(s.tasks, id, op, now)
      && z.workers == s.workers[w := if op.Launch? && Refusal(s.tasks, id).None? then Reading(id, answer) else Finished]
      && z.saved == s.saved
  {
    hide Transform, Step;
    var id, op := s.workers[w].id, s.workers[w].op;
    StepBy(s, Read(w, now));
    var r := Apply(s, Read(w, now));
    run := [s, r];
    if Refusal(s.tasks, id).None? {
      TransformKeepsIdentity(op, s.tasks[id], now);
      StepBy(r, Write(w, answer));
      run := [s, r, Apply(r, Write(w, answer))];
      assert s.workers[w := r.workers[w]][w := run[2].workers[w]] == s.workers[w := run[2].workers[w]];
    }
  }

  /** A call of the service, with nothing in between, is a run of one new worker that ends with what the call leaves. */
  lemma CallIsARun(s: System, w: nat, id: string, op: Op, now: int) returns (run: seq<System>)
    requires w !in s.workers && Requestable(op) && forall t :: t in s.tasks ==> s.tasks[t].id == t
    ensures IsRunFrom(run, s) && run[|run| - 1].tasks == Perform(s.tasks, id, op, now)
    ensures Refusal(s.tasks, id).Some? ==> run[|run| - 1].tasks == s.tasks
    ensures Refusal(s.tasks, id).None? ==>
      var tasks := run[|run| - 1].tasks;
      && id in tasks && tasks == s.tasks[id := tasks[id]]
      && Does(op, s.tasks[id], tasks[id], now)
  {
    hide Step, Requestable, Transform, Does;
    if Refusal(s.tasks, id).None? {
      TransformDoes(op, s.tasks[id], now);
    }
    StepBy(s, Arrive(w, id, op));
    var a := Apply(s, Arrive(w, id, op));
    var rest := PairSteps(a, w, now, Settle(Empty, None));
    run := [s] + rest;
    Joins(s, rest);
  }

  lemma Joins(s: System, rest: seq<System>)
    requires rest != [] && IsRunFrom(rest, rest[0]) && Step(s, rest[0])
    ensures IsRunFrom([s] + rest, s)
  {
    hide Step;
    var run := [s] + rest;
    forall i | 0 <= i < |run| - 1
      ensures Step(run[i], run[i + 1])
    {
      if i > 0 {
        assert Step(rest[i - 1], rest[i - 1 + 1]);
      }
    }
  }

  /** So is a background execution: one worker that launches, waits for its executor, and settles. */
  lemma ExecutionIsARun(s: System, w: nat, id: string, agentId: string, result: Payload, failure: Option<TaskError>,
      t: int, u: int)
    returns (run: seq<System>)
    requires w !in s.workers && forall x :: x in s.tasks ==> s.tasks[x].id == x
    ensures IsRunFrom(run, s)
    ensures run[|run| - 1].tasks == Perform(Perform(s.tasks, id, Launch(agentId), t), id, Settle(result, failure), u)
    ensures Refusal(s.tasks, id).Some? ==> run[|run| - 1].tasks == s.tasks
    ensures Refusal(s.tasks, id).None? ==>
      var tasks := run[|run| - 1].tasks;
      && id in tasks && tasks == s.tasks[id := tasks[id]]
      && Executes(s.tasks[id], tasks[id], agentId, result, failure, t, u)
  {
    PerformExecutes(s.tasks, id, agentId, result, failure, t, u);
    hide Step, Transform;
    StepBy(s, Arrive(w, id, Launch(agentId)));
    var a := Apply(s, Arrive(w, id, Launch(agentId)));
    var first := PairSteps(a, w, t, Settle(result, failure));
    Joins(s, first);
    var z := first[|first| - 1];
    if Refusal(s.tasks, id).None? {
      TransformKeepsIdentity(Launch(agentId), s.tasks[id], t);
      var second := PairSteps(z, w, u, Settle(Empty, None));
      run := [s] + first + second[1..];
      Splices([s] + first, second);
    } else {
      run := [s] + first;
    }
  }

  /** A launch and a settlement, said of the record's fields. */
  lemma PerformExecutes(tasks: map<string, Task>, id: string, agentId: string, result: Payload,
      failure: Option<TaskError>,
      t: int, u: int)
    ensures var after := Perform(Perform(tasks, id, Launch(agentId), t), id, Settle(result, failure), u);
      if Refusal(tasks, id).Some? then after == tasks
      else
        && id in after && after == tasks[id := after[id]]
        && Executes(tasks[id], after[id], agentId, result, failure, t, u)
  {
    hide Transform, Launches, Completes, Fails;
    if Refusal(tasks, id).None? {
      LaunchIsNotTerminal(tasks, id, agentId);
      TransformDoes(Launch(agentId), tasks[id], t);
      TransformDoes(Settle(result, failure), Transform(Launch(agentId), tasks[id], t), u);
    }
  }

  lemma Splices(a: seq<System>, b: seq<System>)
    requires a != [] && IsRunFrom(a, a[0]) && IsRunFrom(b, a[|a| - 1])
    ensures IsRunFrom(a + b[1..], a[0]) && (a + b[1..])[|a + b[1..]| - 1] == b[|b| - 1]
  {
    hide Step;
    var run := a + b[1..];
    forall i | 0 <= i < |run| - 1
      ensures Step(run[i], run[i + 1])
    {
      if i < |a| - 1 {
        assert Step(a[i], a[i + 1]);
      } else {
        assert Step(b[i - |a| + 1], b[i - |a| + 1 + 1]);
      }
    }
  }
}
