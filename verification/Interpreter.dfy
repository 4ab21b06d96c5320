/**
The interpreter as the engine adapter runs it: loops that update the execution context and the data context in place.
Everything it does is a run of the state machine in `Machine`, so what is proved there of every run holds of it.
*/
module Interpreter {
  import opened Text
  import opened Collections
  import opened WorkflowIR
  import opened DataContext
  import opened Machine
  import opened RunProperties
  import opened Environments
  import opened RunLaws

  datatype OutputSizeError = OutputSizeError(key: string, size: nat, limit: nat)

  /** Accepts exactly the outputs within both bounds; a refusal names an oversized value, or carries the exact total. */
  method EnforceOutputBounds(outputs: map<string, string>) returns (err: Option<OutputSizeError>)
    ensures err.None? <==> WithinBounds(outputs)
    ensures err.None? <==>
      && (forall k :: k in outputs ==> |outputs[k]| <= 65536)
      && TotalOver(outputs.Keys, EntrySize(outputs)) <= 262144
    ensures forall k :: k in outputs ==> EntrySize(outputs)(k) == |k| + |outputs[k]|
    ensures err.Some? && err.value.limit == 65536 ==>
      err.value.key in outputs && err.value.size == |outputs[err.value.key]| > 65536
    ensures err.Some? && err.value.limit != 65536 ==>
      err.value == OutputSizeError("", TotalOver(outputs.Keys, EntrySize(outputs)), 262144)
  {
    hide TotalOver;
    assert TotalOver({}, EntrySize(outputs)) == 0 by { NothingWeighsNothing(outputs); }
    var total := 0;
    var todo := outputs.Keys;
    assert outputs.Keys - todo == {};
    while todo != {}
      invariant todo <= outputs.Keys
      invariant forall k :: k in outputs && k !in todo ==> |outputs[k]| <= MAX_OUTPUT_VALUE_BYTES
      invariant total == TotalOver(outputs.Keys - todo, EntrySize(outputs))
      decreases |todo|
    {
      var k :| k in todo;
      if |outputs[k]| > MAX_OUTPUT_VALUE_BYTES {
        return Some(OutputSizeError(k, |outputs[k]|, MAX_OUTPUT_VALUE_BYTES));
      }
      total := total + |k| + |outputs[k]|;
      TotalOverAdd(outputs.Keys - todo, EntrySize(outputs), k);
      assert outputs.Keys - (todo - {k}) == outputs.Keys - todo + {k};
      todo := todo - {k};
    }
    assert outputs.Keys - todo == outputs.Keys;
    if total > MAX_OUTPUTS_TOTAL_BYTES {
      return Some(OutputSizeError("", total, MAX_OUTPUTS_TOTAL_BYTES));
    }
    return None;
  }

  lemma NothingWeighsNothing(outputs: map<string, string>)
    ensures TotalOver({}, EntrySize(outputs)) == 0
  {
  }

  method AllGuardsHold(w: World, conditions: map<string, string>, ctx: Ctx) returns (ok: bool)
    ensures ok <==> GuardsMatch(w, conditions, ctx)
  {
    var todo := conditions.Keys;
    while todo != {}
      invariant todo <= conditions.Keys
      invariant forall k :: k in conditions && k !in todo ==> w.guard(conditions[k], ctx)
      decreases |todo|
    {
      var k :| k in todo;
      if !w.guard(conditions[k], ctx) {
        return false;
      }
      todo := todo - {k};
    }
    return true;
  }

  /** The search loop finds the transition the machine takes. */
  method FirstFiring(w: World, ts: seq<TransitionIR>, eventType: string, ctx: Ctx) returns (r: Option<TransitionIR>)
    ensures r == ResolveTransition(w, ts, eventType, ctx)
  {
    for i := 0 to |ts|
      invariant forall j :: 0 <= j < i ==> !Fires(w, ts[j], eventType, ctx)
    {
      if eventType != "" && ts[i].eventType != eventType {
        continue;
      }
      var fires := AllGuardsHold(w, ts[i].conditions, ctx);
      if fires {
        SettlesOn(w, ts, i, eventType, ctx);
        return Some(ts[i]);
      }
    }
    SettlesOn(w, ts, |ts|, eventType, ctx);
    return None;
  }

  lemma SettlesOn(w: World, ts: seq<TransitionIR>, n: nat, eventType: string, ctx: Ctx)
    requires n <= |ts| && (n < |ts| ==> Fires(w, ts[n], eventType, ctx))
    requires forall j :: 0 <= j < n ==> !Fires(w, ts[j], eventType, ctx)
    ensures RuntimeChoice(w, ts, eventType, ctx) == n
  {
    hide Fires;
    var m := RuntimeChoice(w, ts, eventType, ctx);
    assert m < |ts| ==> Fires(w, ts[m], eventType, ctx);
  }

  class Execution {
    const ir: IR
    const world: World
    const env: Environment
    const scope: Scope
    const data: WorkflowDataContext

    var current: string
    var ctx: Ctx
    /** Publish attempts so far. */
    var trace: seq<Publish>
    var calls: nat

    ghost var phase: Phase
    ghost var log: seq<Entry>
    ghost var run: seq<Config>

    ghost function Snapshot(): Config
      reads this, data
    {
      Config(current, phase, ctx, data.store, trace, log)
    }

    /** The history is a run of the machine, driven by the environment, that ends where this execution is. */
    ghost predicate Valid()
      reads this, data
    {
      && History()
      && Last(run) == Snapshot()
      && calls == Calls(log)
    }

    ghost predicate History()
      reads this, data
    {
      data.scope == scope && run != [] && IsRun(ir, world, run) && Driven(env, ir, world, run)
    }

    constructor (ir: IR, world: World, env: Environment)
      ensures Valid() && fresh(data)
      ensures this.ir == ir && this.world == world && this.env == env && run == [Init(ir)]
    {
      this.ir, this.world, this.env := ir, world, env;
      this.scope := Scope(ir.workflowId, ir.namespace);
      this.data := new WorkflowDataContext(Scope(ir.workflowId, ir.namespace));
      current, ctx, trace, calls := ir.initialState, map[], [], 0;
      phase, log, run := Top, [], [Init(ir)];
    }

    /** A ghost record of one machine step: the fields now hold what the machine holds after choice `ch`. */
    ghost method Record(ch: Choice)
      requires History() && !Last(run).phase.Halted? && calls == Calls(log)
      requires Legal(ir, Last(run), ch) && Given(env, ir, world, Last(run), ch)
      requires Snapshot() == Next(ir, world, Last(run), ch)
      modifies this`run
      ensures Valid() && run == old(run) + [Snapshot()]
    {
      hide Legal, Next, Given, IsRun, Driven;
      assert Step(ir, world, Last(run), Snapshot());
      assert StepGiven(env, ir, world, Last(run), Snapshot());
      RunExtends(ir, world, run, Snapshot());
      DrivenExtends(env, ir, world, run, Snapshot());
      run := run + [Snapshot()];
    }

    method Publish(event: Publish) returns (ok: bool)
      modifies this`trace
      ensures trace == old(trace) + [event] && ok == env.publisher(|old(trace)|)
    {
      ok := env.publisher(|trace|);
      trace := trace + [event];
    }

    method PublishFailed()
      modifies this`trace
      ensures trace == old(trace) + [Failed(current)]
    {
      var ok := Publish(Failed(current));
    }

    method CaptureTerminalOutputs(st: StateIR) returns (r: Outcome)
      requires Valid() && phase == Top && FindState(ir.states, current) == Some(st) && st.kind.Terminal?
      modifies this`trace, this`phase, this`run
      ensures Valid() && phase == Halted(r) && old(run) <= run
    {
      hide Resolve, WithinBounds, IsRun, Driven;
      ghost var ch := Choice(env.publisher(|trace|), ExecError, DataReference("", "", NotFound), map[]);
      var outputs := data.ResolveInputs(scope, st.outputs);
      if outputs.Err? {
        PublishFailed();
        ch := ch.(blame := outputs.error);
        r := Failure(Data(outputs.error));
      } else {
        var tooLarge := EnforceOutputBounds(outputs.value);
        if tooLarge.Some? {
          PublishFailed();
          r := Failure(OutputTooLarge);
        } else if !world.encodes(outputs.value) {
          PublishFailed();
          r := Failure(Unencodable);
        } else {
          var ok := Publish(Completed(current, outputs.value));
          r := Success(outputs.value);
        }
      }
      phase := Halted(r);
      Record(ch);
    }

    /** One action; on failure the failed event is published as `Run` does before it returns. */
    method ExecuteAction(st: StateIR, n: nat, last: Option<ActivityResult>)
        returns (r: Result<ActivityResult, RunError>)
      requires Valid() && phase == Acting(n, last) && FindState(ir.states, current) == Some(st)
      requires n < |st.actions| && !st.actions[n].async
      modifies this`trace, this`phase, this`log, this`run, this`calls, data
      ensures Valid() && old(run) <= run
      ensures r.Ok? ==> phase == Acting(n + 1, Some(r.value))
      ensures r.Err? ==> phase == Halted(Failure(r.error))
    {
      hide Resolve, Extract, IsRun, Driven, Keyed, PartOf, AllExtract, Extracted, Calls;
      var a := st.actions[n];
      ghost var ch := Choice(true, ExecError, DataReference("", "", NotFound), map[]);
      var inputs := data.ResolveInputs(scope, a.inputBindings);
      if inputs.Err? {
        r := Err(Data(inputs.error));
        PublishFailed();
        phase, ch := Halted(Failure(r.error)), ch.(blame := inputs.error);
        Record(ch);
        return;
      }
      var rendered := world.render(a.template, ctx + inputs.value);
      if rendered.None? {
        r := Err(TemplateError(a.capability));
        PublishFailed();
        phase, ch := Halted(Failure(r.error)), ch.(exec := ExecError);
        Record(ch);
        return;
      }
      r := Dispatch(st, n, last, inputs.value, rendered.value);
    }

    /** The machine stands at the dispatch of action `n` with this payload. */
    ghost predicate Dispatching(st: StateIR, n: nat, payload: string)
      reads this, data
    {
      && History() && Last(run).phase.Acting? && Last(run).phase.next == n
      && FindState(ir.states, Last(run).current) == Some(st) && n < |st.actions| && !st.actions[n].async
      && Resolvable(Last(run).store, st.actions[n].inputBindings)
      && world.render(st.actions[n].template,
        Last(run).ctx + Resolved(Last(run).store, st.actions[n].inputBindings)) == Some(payload)
    }

    /** The call to the executor. */
    method Dispatch(st: StateIR, n: nat, last: Option<ActivityResult>, inputs: map<string, string>, payload: string)
      returns (r: Result<ActivityResult, RunError>)
      requires Valid() && phase == Acting(n, last) && Dispatching(st, n, payload)
      requires inputs == Resolved(data.store, st.actions[n].inputBindings)
      modifies this`trace, this`phase, this`log, this`run, this`calls, data
      ensures Valid() && old(run) <= run
      ensures r.Ok? ==> phase == Acting(n + 1, Some(r.value))
      ensures r.Err? ==> phase == Halted(Failure(r.error))
    {
      hide Resolvable, Resolved, IsRun, Driven, Keyed, Calls, Next, Legal, Given, Settle, FindState, FailsHonestly;
      ghost var c := Last(run);
      var a := st.actions[n];
      OneEntry(log, Dispatched(st.id, n, inputs, payload));
      log := log + [Dispatched(st.id, n, inputs, payload)];
      var answer := env.executor(calls, a.capability, payload);
      calls := calls + 1;
      if answer.ExecError? {
        ghost var ch := Choice(true, answer, DataReference("", "", NotFound), map[]);
        r := Err(DispatchError(a.capability));
        PublishFailed();
        phase := Halted(Failure(r.error));
        Settles(env, ir, world, c, st, payload, ch);
        SettlesAt(c.(log := log), st, a, n, ch);
        Record(ch);
        return;
      }
      r := Store(st, n, payload, answer.result);
    }

    /** The storing of an answer's outputs. */
    method Store(st: StateIR, n: nat, payload: string, result: ActivityResult)
        returns (r: Result<ActivityResult, RunError>)
      requires Dispatching(st, n, payload) && calls == Calls(log)
      requires env.executor(Calls(Last(run).log), st.actions[n].capability, payload) == ExecOk(result)
      requires Snapshot() == Last(run).(log :=
        Last(run).log + [Dispatched(st.id, n, Resolved(Last(run).store, st.actions[n].inputBindings), payload)])
      modifies this`trace, this`phase, this`log, this`run, data
      ensures Valid() && old(run) <= run
      ensures r.Ok? ==> phase == Acting(n + 1, Some(r.value))
      ensures r.Err? ==> phase == Halted(Failure(r.error))
    {
      hide Resolvable, Resolved, IsRun, Driven, Keyed, Calls, Next, Legal, Given, Settle, FindState;
      hide Writes, WrittenBy, BlamesOutput, TopLevel, PartOf, Extracted;
      ghost var c, asked := Last(run), Snapshot();
      ghost var ch := Choice(true, ExecOk(result), DataReference("", "", NotFound), map[]);
      var a := st.actions[n];
      FoundStateIsKnown(ir, c.current);
      ghost var written;
      var err;
      err, written := data.WriteOutputs(scope, st.id, a.outputBindings, result.payload);
      OneEntry(log, Wrote(st.id, result.payload, written));
      log := log + [Wrote(st.id, result.payload, written)];
      if err.Some? {
        r := Err(Data(err.value));
        PublishFailed();
        phase, ch := Halted(Failure(r.error)), ch.(blame := err.value, partial := written);
      } else {
        r := Ok(result);
        phase := Acting(n + 1, Some(r.value));
      }
      Settles(env, ir, world, c, st, payload, ch);
      SettlesAt(asked, st, a, n, ch);
      Record(ch);
    }

    /**
    Runs the synchronous actions in order; the last result drives the transition, or the sentinel if there was none.
    */
    method ExecuteActions(st: StateIR) returns (r: Result<ActivityResult, RunError>)
      requires Valid() && phase == Acting(0, None) && FindState(ir.states, current) == Some(st)
      modifies this`trace, this`phase, this`log, this`run, this`calls, data
      ensures Valid() && old(run) <= run
      ensures r.Ok? ==> phase == Choosing(r.value)
      ensures r.Err? ==> phase == Halted(Failure(r.error))
    {
      hide IsRun, Driven, Resolvable, Resolved, Settle, Calls;
      var last: Option<ActivityResult> := None;
      ghost var ch := Choice(true, ExecError, DataReference("", "", NotFound), map[]);
      var n := 0;
      while n < |st.actions|
        invariant 0 <= n <= |st.actions|
        invariant Valid() && phase == Acting(n, last) && old(run) <= run
        modifies this`trace, this`phase, this`log, this`run, this`calls, data
      {
        if st.actions[n].async {
          phase := Acting(n + 1, last);
          NothingRead(ir, Last(run), ch);
          Record(ch);
        } else {
          r := ExecuteAction(st, n, last);
          if r.Err? {
            return;
          }
          last := Some(r.value);
        }
        n := n + 1;
      }
      r := Ok(if last.Some? then last.value else ActivityResult("", Empty));
      phase := Choosing(r.value);
      NothingRead(ir, Last(run), ch);
      Record(ch);
    }

    /** Adds the payload's top-level strings to the template context, key by key. */
    method MergeInto(payload: Payload)
      modifies this`ctx
      ensures ctx == MergePayload(old(ctx), payload)
    {
      hide TextFields;
      var top := TopLevel(payload);
      if top.None? {
        return;
      }
      var fields := top.value;
      var todo := fields.Keys;
      assert TextFields(fields - todo) == map[] by { NoFields(fields); }
      while todo != {}
        invariant todo <= fields.Keys
        invariant ctx == old(ctx) + TextFields(fields - todo)
        decreases |todo|
        modifies this`ctx
      {
        var k :| k in todo;
        MergeStep(fields, todo, k);
        OverlayUpdate(old(ctx), TextFields(fields - todo), k, if fields[k].Text? then fields[k].text else "");
        todo := todo - {k};
        if k == "_event" {
          continue;
        }
        if fields[k].Text? {
          ctx := ctx[k := fields[k].text];
        }
      }
      assert fields - todo == fields;
    }

    /** Leaves the state, or fails for want of a transition. */
    method TakeTransition(st: StateIR, result: ActivityResult) returns (e: Option<RunError>)
      requires Valid() && phase == Choosing(result) && FindState(ir.states, current) == Some(st)
      modifies this`trace, this`phase, this`run, this`ctx, this`current
      ensures Valid() && old(run) <= run
      ensures e.None? ==> phase == Top
      ensures e.Some? ==> phase == Halted(Failure(e.value))
    {
      hide IsRun, Driven, ResolveTransition, MergePayload, Calls;
      ghost var ch := Choice(true, ExecError, DataReference("", "", NotFound), map[]);
      NothingRead(ir, Last(run), ch);
      var t := FirstFiring(world, st.transitions, result.eventType, ctx);
      if t.None? {
        e := Some(NoTransition(result.eventType));
        PublishFailed();
        phase := Halted(Failure(e.value));
        Record(ch);
        return;
      }
      var ok := Publish(Exited(current));
      MergeInto(result.payload);
      current := t.value.targetState;
      phase := Top;
      e := None;
      Record(ch);
    }

    /** One iteration of the loop of `Run`: a whole state. */
    method RunState() returns (r: Option<Outcome>)
      requires Valid() && phase == Top
      modifies this, data
      ensures Valid() && old(run) < run
      ensures r.Some? ==> phase == Halted(r.value)
      ensures r.None? ==> phase == Top
    {
      hide IsRun, Driven, Finish, Resolvable, Calls;
      ghost var ch := Choice(env.publisher(|trace|), ExecError, DataReference("", "", NotFound), map[]);
      var found := FindState(ir.states, current);
      if found.None? {
        phase := Halted(Failure(StateNotFound(current)));
        NothingRead(ir, Last(run), ch);
        assert trace + [] == trace;
        Record(ch);
        return Some(Failure(StateNotFound(current)));
      }
      var st := found.value;
      if st.kind.Terminal? {
        var outcome := CaptureTerminalOutputs(st);
        return Some(outcome);
      }
      NothingRead(ir, Last(run), ch);
      var ok := Publish(Entered(current));
      if !ok {
        phase := Halted(Failure(PublishError));
        Record(ch);
        return Some(Failure(PublishError));
      }
      phase := Acting(0, None);
      Record(ch);
      var result := ExecuteActions(st);
      if result.Err? {
        return Some(Failure(result.error));
      }
      var e := TakeTransition(st, result.value);
      if e.Some? {
        return Some(Failure(e.value));
      }
      return None;
    }

    /**
    `Run`, for at most `fuel` states: a run may go on for ever, so the loop is given a bound, and returns nothing if it
    is reached.
    */
    method Run(fuel: nat) returns (r: Option<Outcome>)
      requires Valid() && phase == Top
      modifies this, data
      ensures Valid() && old(run) <= run
      ensures r.Some? ==> phase == Halted(r.value) && Ended(ir, trace, current, r.value)
      ensures PublisherDecides(env, trace, phase)
      ensures r.Some? ==> |run| > 1 && Explained(env, ir, world, run[|run| - 2], Last(run))
      ensures r.None? ==> phase == Top && Walk(ir, trace, ir.initialState, current) && |run| >= |old(run)| + fuel
    {
      hide IsRun, Driven, Walk, Ended, Calls, PublisherDecides, Explained;
      r := None;
      var left := fuel;
      while left > 0
        invariant r.None? && Valid() && phase == Top && old(run) <= run && |run| >= |old(run)| + (fuel - left)
        modifies this, data
      {
        r := RunState();
        if r.Some? {
          EveryRunsEvents(ir, world, run);
          EveryRunHeedsPublisher(env, ir, world, run);
          EveryStepIsExplained(env, ir, world, run);
          return;
        }
        left := left - 1;
      }
      EveryRunsEvents(ir, world, run);
      EveryRunHeedsPublisher(env, ir, world, run);
    }
  }

  lemma NoFields(fields: map<string, Json>)
    ensures TextFields(fields - fields.Keys) == map[]
  {
  }

  lemma MergeStep(fields: map<string, Json>, todo: set<string>, k: string)
    requires k in todo && todo <= fields.Keys
    ensures TextFields(fields - (todo - {k})) ==
            if k != "_event" && fields[k].Text? then TextFields(fields - todo)[k := fields[k].text]
              else TextFields(fields - todo)
  {
    assert fields - (todo - {k}) == (fields - todo)[k := fields[k]];
  }

  /** Any choice is legal where nothing is read and nothing dispatched. */
  lemma NothingRead(ir: IR, c: Config, ch: Choice)
    requires Reading(ir, c) == map[] && Pending(ir, c).None?
    ensures Legal(ir, c, ch)
  {
  }
}
