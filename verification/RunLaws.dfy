/**
What the answers a run is given make of it: when the publisher ends it, why it fails, and that it fails for no other
reason.
*/
module RunLaws {
  import opened Text
  import opened References
  import opened WorkflowIR
  import opened DataContext
  import opened Machine
  import opened RunProperties
  import opened Environments

  lemma DrivenPrefix(env: Environment, ir: IR, w: World, run: seq<Config>)
    requires |run| > 1 && Driven(env, ir, w, run)
    ensures Driven(env, ir, w, run[..|run| - 1]) && StepGiven(env, ir, w, run[|run| - 2], Last(run))
  {
    hide StepGiven;
    var p := run[..|run| - 1];
    forall i | 0 <= i < |p| - 1
      ensures StepGiven(env, ir, w, p[i], p[i + 1])
    {
      assert StepGiven(env, ir, w, run[i], run[i + 1]);
    }
    assert StepGiven(env, ir, w, run[|run| - 2], run[|run| - 2 + 1]);
  }

  // ---------------------------------------------------------------------------------------------------------------
  // The publisher

  /** An entered event the publisher did not take is the last event of all, and the end of the run. */
  ghost predicate PublisherDecides(env: Environment, trace: seq<Publish>, phase: Phase) {
    && (phase == Halted(Failure(PublishError)) <==>
          trace != [] && trace[|trace| - 1].Entered? && !env.publisher(|trace| - 1))
    && (forall k :: 0 <= k < |trace| - 1 && trace[k].Entered? ==> env.publisher(k))
  }

  /** A step adds at most one event, and an entered one only at the top of a state, where the publisher is heeded. */
  ghost predicate OneEvent(c: Config, d: Config, pubOk: bool) {
    || (d.trace == c.trace && d.phase != Halted(Failure(PublishError)))
    || (exists e: Publish :: d.trace == c.trace + [e] && !e.Entered? && d.phase != Halted(Failure(PublishError)))
    || (exists s ::
      && d.trace == c.trace + [Entered(s)] && c.phase.Top?
      && (d.phase == Halted(Failure(PublishError)) <==> !pubOk))
  }

  lemma ActPublishes(w: World, c: Config, st: StateIR, n: nat, last: Option<ActivityResult>, ch: Choice)
    ensures OneEvent(c, Act(w, c, st, n, last, ch), ch.pubOk)
  {
    hide Resolvable, Resolved, Writes, WrittenBy, Keyed;
  }

  lemma StepPublishes(ir: IR, w: World, c: Config, ch: Choice)
    requires !c.phase.Halted?
    ensures OneEvent(c, Next(ir, w, c, ch), ch.pubOk)
  {
    hide FindState, Resolvable, Resolved, WithinBounds, RuntimeChoice, MergePayload, Act;
    var st := FindState(ir.states, c.current);
    if st.None? {
      assert c.trace + [] == c.trace;
    } else if c.phase.Acting? {
      ActPublishes(w, c, st.value, c.phase.next, c.phase.last, ch);
    }
  }

  lemma StepHeedsPublisher(env: Environment, ir: IR, w: World, c: Config, ch: Choice)
    requires !c.phase.Halted? && Given(env, ir, w, c, ch) && PublisherDecides(env, c.trace, c.phase)
    ensures var d := Next(ir, w, c, ch); PublisherDecides(env, d.trace, d.phase)
  {
    hide Next, Calls, Call;
    var d := Next(ir, w, c, ch);
    StepPublishes(ir, w, c, ch);
    forall k | 0 <= k < |d.trace| - 1 && d.trace[k].Entered?
      ensures env.publisher(k)
    {
      assert d.trace[k] == c.trace[k];
    }
  }

  /** A run ends for the publisher if and only if its last event is an entered one the publisher did not take. */
  lemma {:induction false} EveryRunHeedsPublisher(env: Environment, ir: IR, w: World, run: seq<Config>)
    requires IsRun(ir, w, run) && Driven(env, ir, w, run)
    ensures PublisherDecides(env, Last(run).trace, Last(run).phase)
    decreases |run|
  {
    hide Next, Legal, Given, Step, PublisherDecides;
    if |run| == 1 {
      assert PublisherDecides(env, [], Top) by { NothingPublished(env); }
    } else {
      RunPrefix(ir, w, run);
      DrivenPrefix(env, ir, w, run);
      EveryRunHeedsPublisher(env, ir, w, run[..|run| - 1]);
      var c := Last(run[..|run| - 1]);
      var ch :| Legal(ir, c, ch) && Given(env, ir, w, c, ch) && Last(run) == Next(ir, w, c, ch);
      StepHeedsPublisher(env, ir, w, c, ch);
    }
  }

  lemma NothingPublished(env: Environment)
    ensures PublisherDecides(env, [], Top)
  {
  }

  // ---------------------------------------------------------------------------------------------------------------
  // Why a run ends

  /** One map laid over another. */
  ghost predicate Overlay(base: Ctx, over: Ctx, m: Ctx) {
    m.Keys == base.Keys + over.Keys && forall k :: k in m ==> m[k] == if k in over then over[k] else base[k]
  }

  /** The action is the one to be waited for next. */
  ghost predicate Due(ir: IR, c: Config, a: ActionIR) {
    && c.phase.Acting? && !a.async
    && var st := FindState(ir.states, c.current);
    && st.Some? && c.phase.next < |st.value.actions| && st.value.actions[c.phase.next] == a
  }

  /** What the action's template is rendered from: its inputs, as last written, over the context. */
  ghost predicate Fed(c: Config, a: ActionIR, inputs: map<string, string>, m: Ctx) {
    FedBy(LastWrites(c.log), a.inputBindings, inputs) && Overlay(c.ctx, inputs, m)
  }

  /** The executor is asked for the action with the payload. */
  ghost predicate Asks(ir: IR, w: World, c: Config, a: ActionIR, payload: string) {
    Due(ir, c, a) && exists inputs, m :: Fed(c, a, inputs, m) && w.render(a.template, m) == Some(payload)
  }

  ghost predicate CannotAsk(ir: IR, w: World, c: Config, a: ActionIR) {
    Due(ir, c, a) && exists inputs, m :: Fed(c, a, inputs, m) && w.render(a.template, m).None?
  }

  /** The run is at its end, with these outputs to show: for each the value last written, or the literal. */
  ghost predicate Shows(ir: IR, c: Config, outputs: map<string, string>) {
    && c.phase.Top? && AtTerminal(ir, c.current)
    && FedBy(LastWrites(c.log), FindState(ir.states, c.current).value.outputs, outputs)
  }

  ghost predicate Passes(w: World, t: TransitionIR, event: string, ctx: Ctx) {
    (event == "" || t.eventType == event) && forall k :: k in t.conditions ==> w.guard(t.conditions[k], ctx)
  }

  /** What the answer to an action lacks. */
  ghost predicate Lacks(state: string, bindings: map<string, string>, answer: Payload, f: Failure) {
    && bindings != map[] && f.DataReference?
    && if exists doc :: Decodes(answer, doc)
       then exists doc ::
         && Decodes(answer, doc)
         && f.inputKey in bindings && f.reference == bindings[f.inputKey] && YieldsNothing(doc, f.reference, f.reason)
       else !answer.Empty? && f == DataReference(state, answer.raw, PayloadNotObject)
  }

  /** The reason the error gives is there. */
  ghost predicate Cause(env: Environment, ir: IR, w: World, c: Config, e: RunError) {
    match e
    case StateNotFound(id) => id == c.current && id !in Ids(ir)
    case PublishError => c.phase.Top? && AtWork(ir, c.current) && !env.publisher(|c.trace|)
    case TemplateError(capability) => exists a :: CannotAsk(ir, w, c, a) && a.capability == capability
    case DispatchError(capability) =>
      exists a, payload ::
        Asks(ir, w, c, a, payload) && a.capability == capability
          && env.executor(Calls(c.log), capability, payload).ExecError?
    case Data(f) =>
      || BlamesBinding(c.store, Reading(ir, c), f)
      || exists a, payload, result ::
           && Asks(ir, w, c, a, payload)
           && env.executor(Calls(c.log), a.capability, payload) == ExecOk(result)
           && Lacks(c.current, a.outputBindings, result.payload, f)
    case NoTransition(event) =>
      && c.phase.Choosing? && event == c.phase.result.eventType
      && var st := FindState(ir.states, c.current);
      && st.Some? && forall i :: 0 <= i < |st.value.transitions| ==> !Passes(w, st.value.transitions[i], event, c.ctx)
    case OutputTooLarge => exists outputs :: Shows(ir, c, outputs) && !WithinBounds(outputs)
    case Unencodable => exists outputs :: Shows(ir, c, outputs) && WithinBounds(outputs) && !w.encodes(outputs)
  }

  /** A step fails with an error whose reason is there, and only if one is. */
  ghost predicate Explained(env: Environment, ir: IR, w: World, c: Config, d: Config) {
    match d.phase
    case Halted(Failure(e)) => Cause(env, ir, w, c, e)
    case Halted(Success(outputs)) =>
      && (forall e :: !Cause(env, ir, w, c, e))
      && Shows(ir, c, outputs) && WithinBounds(outputs) && w.encodes(outputs)
    case _ => forall e :: !Cause(env, ir, w, c, e)
  }

  lemma FedOnce(view: View, bindings: map<string, string>, x: map<string, string>, y: map<string, string>)
    requires FedBy(view, bindings, x) && FedBy(view, bindings, y)
    ensures x == y
  {
    hide ParseBindingRef;
    forall k | k in bindings
      ensures x[k] == y[k]
    {
      assert FedRef(view, bindings[k], x[k]) && FedRef(view, bindings[k], y[k]);
    }
  }

  lemma OverlayIs(base: Ctx, over: Ctx)
    ensures forall m :: Overlay(base, over, m) <==> m == base + over
  {
  }

  /** The outputs a resolvable end shows are those. */
  lemma ShowsIs(ir: IR, c: Config, st: StateIR)
    requires StoreInv(ir, c) && c.phase.Top? && FindState(ir.states, c.current) == Some(st) && st.kind.Terminal?
    requires Resolvable(c.store, st.outputs)
    ensures forall outputs :: Shows(ir, c, outputs) <==> outputs == Resolved(c.store, st.outputs)
  {
    hide FedBy, Resolvable, Resolved, LastWrites, ReadsMatch, Faithful, KnownStates, AllFed, Separate, FindState;
    var outputs := Resolved(c.store, st.outputs);
    InputsFromView(c.store, LastWrites(c.log), st.outputs);
    forall o | Shows(ir, c, o)
      ensures o == outputs
    {
      FedOnce(LastWrites(c.log), st.outputs, o, outputs);
    }
  }

  /** What a resolvable action is asked with is its template rendered from the inputs over the context. */
  lemma AsksIs(ir: IR, w: World, c: Config, a: ActionIR)
    requires StoreInv(ir, c) && Due(ir, c, a) && Resolvable(c.store, a.inputBindings)
    ensures forall payload :: Asks(ir, w, c, a, payload) <==>
      w.render(a.template, c.ctx + Resolved(c.store, a.inputBindings)) == Some(payload)
    ensures CannotAsk(ir, w, c, a) <==> w.render(a.template, c.ctx + Resolved(c.store, a.inputBindings)).None?
  {
    hide FedBy, Resolvable, Resolved, LastWrites, ReadsMatch, Faithful, KnownStates, AllFed, Separate, Due, Overlay;
    var inputs := Resolved(c.store, a.inputBindings);
    InputsFromView(c.store, LastWrites(c.log), a.inputBindings);
    OverlayIs(c.ctx, inputs);
    assert Fed(c, a, inputs, c.ctx + inputs);
    forall x, m | Fed(c, a, x, m)
      ensures x == inputs && m == c.ctx + inputs
    {
      FedOnce(LastWrites(c.log), a.inputBindings, x, inputs);
    }
  }

  lemma OneDue(ir: IR, c: Config, a: ActionIR)
    requires Due(ir, c, a)
    ensures forall b :: Due(ir, c, b) ==> b == a
    ensures Pending(ir, c) == Some(a) && Reading(ir, c) == a.inputBindings
  {
    hide FindState;
  }

  lemma LacksIff(state: string, bindings: map<string, string>, answer: Payload)
    ensures forall f :: Lacks(state, bindings, answer, f) <==>
      !Writes(bindings, answer) && BlamesOutput(state, bindings, answer, f)
  {
    hide Extract, YieldsNothing, Yields, TopLevel, Decodes;
    DecodesIff(answer);
    forall f: Failure | f.DataReference? && f.inputKey in bindings && TopLevel(answer).Some?
      ensures Extract(TopLevel(answer).value, f.reference) == Err(f.reason) <==>
              YieldsNothing(TopLevel(answer).value, f.reference, f.reason)
    {
      ExtractIff(TopLevel(answer).value, f.reference);
    }
    assert TopLevel(answer).None? ==> !answer.Empty? by { NothingDecodes(); }
    if TopLevel(answer).Some? {
      assert Decodes(answer, TopLevel(answer).value);
    }
  }

  lemma NothingDecodes()
    ensures TopLevel(Empty) == Some(map[])
  {
  }

  lemma FinishExplained(env: Environment, ir: IR, w: World, c: Config, st: StateIR, ch: Choice)
    requires StoreInv(ir, c) && c.phase.Top? && FindState(ir.states, c.current) == Some(st) && st.kind.Terminal?
    requires Legal(ir, c, ch)
    ensures Explained(env, ir, w, c, Finish(w, c, st, ch))
  {
    hide FindState, StoreInv, Resolved, Resolvable, FedBy, WithinBounds, Ids;
    FoundStateIsKnown(ir, c.current);
    if Resolvable(c.store, st.outputs) {
      ShowsIs(ir, c, st);
      NoBlame(c.store, st.outputs);
      assert Shows(ir, c, Resolved(c.store, st.outputs));
    }
  }

  lemma NoBlame(store: map<string, string>, bindings: map<string, string>)
    requires bindings == map[] || Resolvable(store, bindings)
    ensures forall f :: !BlamesBinding(store, bindings, f)
  {
  }

  lemma EnterExplained(env: Environment, ir: IR, w: World, c: Config, ch: Choice)
    requires c.phase.Top? && AtWork(ir, c.current) && ch.pubOk == env.publisher(|c.trace|)
    ensures Explained(env, ir, w, c, Enter(c, ch))
  {
    hide FindState, FedBy, WithinBounds, Ids;
    FoundStateIsKnown(ir, c.current);
  }

  lemma ChooseExplained(env: Environment, ir: IR, w: World, c: Config, st: StateIR)
    requires c.phase.Choosing? && FindState(ir.states, c.current) == Some(st)
    ensures Explained(env, ir, w, c, Leave(w, c, st, c.phase.result))
  {
    hide FindState, FedBy, WithinBounds, Ids, MergePayload, ResolveTransition;
    FoundStateIsKnown(ir, c.current);
    var event := c.phase.result.eventType;
    PassesIff(w, st.transitions, event, c.ctx);
    var t := ResolveTransition(w, st.transitions, event, c.ctx);
  }

  lemma PassesIff(w: World, ts: seq<TransitionIR>, event: string, ctx: Ctx)
    ensures forall i :: 0 <= i < |ts| ==> (Fires(w, ts[i], event, ctx) <==> Passes(w, ts[i], event, ctx))
  {
  }

  lemma ActExplained(env: Environment, ir: IR, w: World, c: Config, st: StateIR, ch: Choice)
    requires StoreInv(ir, c) && c.phase.Acting? && FindState(ir.states, c.current) == Some(st)
    requires Legal(ir, c, ch) && Given(env, ir, w, c, ch)
    ensures Explained(env, ir, w, c, Act(w, c, st, c.phase.next, c.phase.last, ch))
  {
    hide FindState, StoreInv, Resolved, Resolvable, FedBy, WithinBounds, Ids, Writes, WrittenBy, Keyed, Calls,
      BlamesOutput,
      BlamesBinding, Lacks, PartOf, TopLevel, LastWrites, Overlay;
    FoundStateIsKnown(ir, c.current);
    var n := c.phase.next;
    if n < |st.actions| && !st.actions[n].async {
      var a := st.actions[n];
      OneDue(ir, c, a);
      if Resolvable(c.store, a.inputBindings) {
        AsksIs(ir, w, c, a);
        NoBlame(c.store, a.inputBindings);
        if ch.exec.ExecOk? {
          LacksIff(c.current, a.outputBindings, ch.exec.result.payload);
        }
      }
    } else {
      NoBlame(c.store, map[]);
      assert Reading(ir, c) == map[];
    }
  }

  lemma StepExplained(env: Environment, ir: IR, w: World, c: Config, ch: Choice)
    requires StoreInv(ir, c) && !c.phase.Halted? && Legal(ir, c, ch) && Given(env, ir, w, c, ch)
    ensures Explained(env, ir, w, c, Next(ir, w, c, ch))
  {
    hide FindState, StoreInv, Explained, Act, Finish, Leave, Enter, Legal, Ids;
    var st := FindState(ir.states, c.current);
    if st.None? {
      NotFoundExplained(env, ir, w, c);
    } else {
      match c.phase
      case Top =>
        if st.value.kind.Terminal? {
          FinishExplained(env, ir, w, c, st.value, ch);
        } else {
          EnterExplained(env, ir, w, c, ch);
        }
      case Acting(_, _) => ActExplained(env, ir, w, c, st.value, ch);
      case Choosing(_) => ChooseExplained(env, ir, w, c, st.value);
    }
  }

  lemma NotFoundExplained(env: Environment, ir: IR, w: World, c: Config)
    requires FindState(ir.states, c.current).None?
    ensures Explained(env, ir, w, c, Halt(c, StateNotFound(c.current), []))
  {
  }

  /** Every step of every run under an environment: it fails for a reason that is there, if and only if there is one. */
  lemma EveryStepIsExplained(env: Environment, ir: IR, w: World, run: seq<Config>)
    requires IsRun(ir, w, run) && Driven(env, ir, w, run) && |run| > 1
    ensures Explained(env, ir, w, run[|run| - 2], Last(run))
  {
    hide StoreInv, WritesInv, Next, Legal, Given, Step, Explained;
    RunPrefix(ir, w, run);
    DrivenPrefix(env, ir, w, run);
    var c := run[|run| - 2];
    EveryRunsStore(ir, w, run[..|run| - 1]);
    var ch :| Legal(ir, c, ch) && Given(env, ir, w, c, ch) && Last(run) == Next(ir, w, c, ch);
    StepExplained(env, ir, w, c, ch);
  }
}
