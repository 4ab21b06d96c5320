/**
One run of the IR interpreter as a state machine. Each step is one decision of `IRInterpreter.Run`: entering a state,
one action, choosing a transition, finishing. What the outside world decides (the publisher's and executor's answers,
which of several bad bindings a map visit meets first) is a `Choice`; guards, templates and the outputs' encoding are
arbitrary total functions of a `World`.
*/
module Machine {
  import opened Text
  import opened Collections
  import opened WorkflowIR
  import opened DataContext

  type Ctx = map<string, string>

  datatype ActivityResult = ActivityResult(eventType: string, payload: Payload)

  datatype ExecOutcome = ExecOk(result: ActivityResult) | ExecError

  datatype World = World(
    guard: (string, Ctx) -> bool,
    render: (string, Ctx) -> Option<string>,
    encodes: map<string, string> -> bool)

  /** A lifecycle publish attempt, whether or not the publisher took it. */
  datatype Publish =
    | Entered(state: string)
    | Exited(state: string)
    | Completed(state: string, outputs: map<string, string>)
    | Failed(state: string)

  /** What an action did: the capability call with its resolved inputs, and the outputs it stored. */
  datatype Entry =
    | Dispatched(state: string, action: nat, inputs: map<string, string>, payload: string)
    | Wrote(state: string, answer: Payload, vals: map<string, string>)

  datatype RunError =
    | StateNotFound(id: string)
    | PublishError
    | Data(failure: Failure)
    | TemplateError(capability: string)
    | DispatchError(capability: string)
    | NoTransition(eventType: string)
    | OutputTooLarge
    | Unencodable

  datatype Outcome = Success(outputs: map<string, string>) | Failure(error: RunError)

  datatype Phase =
    | Top
    | Acting(next: nat, last: Option<ActivityResult>)
    | Choosing(result: ActivityResult)
    | Halted(outcome: Outcome)

  datatype Config = Config(current: string, phase: Phase, ctx: Ctx, store: map<string, string>, trace: seq<Publish>,
      log: seq<Entry>)

  datatype Choice = Choice(pubOk: bool, exec: ExecOutcome, blame: DataContext.Failure, partial: map<string, string>)

  // ---------------------------------------------------------------------------------------------------------------
  // Pure decisions

  const MAX_OUTPUT_VALUE_BYTES := 65536
  const MAX_OUTPUTS_TOTAL_BYTES := 262144

  ghost function EntrySize(outputs: map<string, string>): string -> nat {
    k => |k| + if k in outputs then |outputs[k]| else 0
  }

  ghost predicate WithinBounds(outputs: map<string, string>) {
    && (forall k :: k in outputs ==> |outputs[k]| <= MAX_OUTPUT_VALUE_BYTES)
    && TotalOver(outputs.Keys, EntrySize(outputs)) <= MAX_OUTPUTS_TOTAL_BYTES
  }

  ghost predicate GuardsMatch(w: World, conditions: map<string, string>, ctx: Ctx) {
    forall k :: k in conditions ==> w.guard(conditions[k], ctx)
  }

  /** An empty event is for any transition. */
  predicate IsFor(own: string, event: string) {
    event == "" || own == event
  }

  ghost predicate Fires(w: World, t: TransitionIR, eventType: string, ctx: Ctx) {
    IsFor(t.eventType, eventType) && GuardsMatch(w, t.conditions, ctx)
  }

  /** The index the runtime settles on: the first transition that fires, or the number of transitions. */
  ghost function RuntimeChoice(w: World, ts: seq<TransitionIR>, eventType: string, ctx: Ctx): int {
    First(ts, (t: TransitionIR) => Fires(w, t, eventType, ctx))
  }

  ghost function ResolveTransition(w: World, ts: seq<TransitionIR>, eventType: string,
      ctx: Ctx): (r: Option<TransitionIR>)
    ensures r.Some? ==> exists i :: 0 <= i < |ts| && ts[i] == r.value && Fires(w, ts[i], eventType, ctx)
                                    && forall j :: 0 <= j < i ==> !Fires(w, ts[j], eventType, ctx)
    ensures r.None? ==> forall i :: 0 <= i < |ts| ==> !Fires(w, ts[i], eventType, ctx)
  {
    var n := RuntimeChoice(w, ts, eventType, ctx);
    if n < |ts| then Some(ts[n]) else None
  }

  /** Top-level strings of a result payload join the template context; `_event` is reserved. */
  function MergePayload(ctx: Ctx, payload: Payload): Ctx {
    var fields := TopLevel(payload);
    if fields.None? then ctx else ctx + TextFields(fields.value)
  }

  function TextFields(fields: map<string, Json>): map<string, string> {
    map k | k in fields && k != "_event" && fields[k].Text? :: fields[k].text
  }

  // ---------------------------------------------------------------------------------------------------------------
  // Steps

  function Init(ir: IR): Config {
    Config(ir.initialState, Top, map[], map[], [], [])
  }

  function Halt(c: Config, e: RunError, tail: seq<Publish>): Config {
    c.(phase := Halted(Failure(e)), trace := c.trace + tail)
  }

  /** `captureTerminalOutputs`. */
  ghost function Finish(w: World, c: Config, st: StateIR, ch: Choice): Config {
    if !Resolvable(c.store, st.outputs) then Halt(c, Data(ch.blame), [Failed(c.current)])
    else
      var outputs := Resolved(c.store, st.outputs);
      if !WithinBounds(outputs) then Halt(c, OutputTooLarge, [Failed(c.current)])
      else if !w.encodes(outputs) then Halt(c, Unencodable, [Failed(c.current)])
      else c.(phase := Halted(Success(outputs)), trace := c.trace + [Completed(c.current, outputs)])
  }

  /** Entering a state that still has work: the entered event must be accepted. */
  function Enter(c: Config, ch: Choice): Config {
    if ch.pubOk then c.(phase := Acting(0, None), trace := c.trace + [Entered(c.current)])
    else Halt(c, PublishError, [Entered(c.current)])
  }

  /** The answer of the executor to a dispatched action. */
  ghost function Settle(c: Config, st: StateIR, a: ActionIR, n: nat, ch: Choice): Config {
    match ch.exec
    case ExecError => Halt(c, DispatchError(a.capability), [Failed(c.current)])
    case ExecOk(result) =>
      if Writes(a.outputBindings, result.payload) then
        var vals := WrittenBy(a.outputBindings, result.payload);
        c.(store := c.store + Keyed(st.id, vals), log := c.log + [Wrote(st.id, result.payload, vals)],
          phase := Acting(n + 1, Some(result)))
      else
        Halt(c.(store := c.store + Keyed(st.id, ch.partial),
          log := c.log + [Wrote(st.id, result.payload, ch.partial)]), Data(ch.blame), [Failed(c.current)])
  }

  /** One iteration of `executeActions`. */
  ghost function Act(w: World, c: Config, st: StateIR, n: nat, last: Option<ActivityResult>, ch: Choice): Config {
    if n >= |st.actions| then
      c.(phase := Choosing(if last.Some? then last.value else ActivityResult("", Empty)))
    else
      var a := st.actions[n];
      if a.async then c.(phase := Acting(n + 1, last))
      else if !Resolvable(c.store, a.inputBindings) then Halt(c, Data(ch.blame), [Failed(c.current)])
      else
        var inputs := Resolved(c.store, a.inputBindings);
        var rendered := w.render(a.template, c.ctx + inputs);
        if rendered.None? then Halt(c, TemplateError(a.capability), [Failed(c.current)])
        else Settle(c.(log := c.log + [Dispatched(st.id, n, inputs, rendered.value)]), st, a, n, ch)
  }

  /** Leaving a state along the first transition that fires; the exited event is best effort. */
  ghost function Leave(w: World, c: Config, st: StateIR, result: ActivityResult): Config {
    var t := ResolveTransition(w, st.transitions, result.eventType, c.ctx);
    if t.None? then Halt(c, NoTransition(result.eventType), [Failed(c.current)])
    else
      Config(t.value.targetState, Top, MergePayload(c.ctx, result.payload), c.store,
        c.trace + [Exited(c.current)], c.log)
  }

  ghost function Next(ir: IR, w: World, c: Config, ch: Choice): Config
    requires !c.phase.Halted?
  {
    var st := FindState(ir.states, c.current);
    if st.None? then Halt(c, StateNotFound(c.current), [])
    else
      match c.phase
      case Top => if st.value.kind.Terminal? then Finish(w, c, st.value, ch) else Enter(c, ch)
      case Acting(n, last) => Act(w, c, st.value, n, last, ch)
      case Choosing(result) => Leave(w, c, st.value, result)
  }

  /** The action a configuration is about to dispatch, if any. */
  ghost function Pending(ir: IR, c: Config): Option<ActionIR> {
    var st := FindState(ir.states, c.current);
    if st.Some? && c.phase.Acting? && c.phase.next < |st.value.actions| && !st.value.actions[c.phase.next].async
    then Some(st.value.actions[c.phase.next]) else None
  }

  /** The capability and payload the executor is about to be asked for, if it is. */
  ghost function Call(ir: IR, w: World, c: Config): Option<(string, string)> {
    var a := Pending(ir, c);
    if a.None? || !Resolvable(c.store, a.value.inputBindings) then None
    else
      var payload := w.render(a.value.template, c.ctx + Resolved(c.store, a.value.inputBindings));
      if payload.None? then None else Some((a.value.capability, payload.value))
  }

  /** The bindings a configuration is about to resolve. */
  ghost function Reading(ir: IR, c: Config): map<string, string> {
    var st := FindState(ir.states, c.current);
    if st.Some? && c.phase.Top? && st.value.kind.Terminal? then st.value.outputs
    else if Pending(ir, c).Some? then Pending(ir, c).value.inputBindings
    else map[]
  }

  /** A choice the code can make: blame falls on something at fault, and a failed write stored extracted values only. */
  ghost predicate Legal(ir: IR, c: Config, ch: Choice) {
    && (!Resolvable(c.store, Reading(ir, c)) ==> BlamesBinding(c.store, Reading(ir, c), ch.blame))
    && (Pending(ir, c).Some? && Resolvable(c.store, Reading(ir, c)) && ch.exec.ExecOk? ==>
          FailsHonestly(c.current, Pending(ir, c).value.outputBindings, ch.exec.result.payload, ch))
  }

  ghost predicate FailsHonestly(state: string, bindings: map<string, string>, payload: Payload, ch: Choice) {
    !Writes(bindings, payload) ==>
      && BlamesOutput(state, bindings, payload, ch.blame)
      && (TopLevel(payload).None? ==> ch.partial == map[])
      && (TopLevel(payload).Some? ==> PartOf(ch.partial, TopLevel(payload).value, bindings))
  }

  ghost predicate Step(ir: IR, w: World, c: Config, c': Config) {
    !c.phase.Halted? && exists ch :: Legal(ir, c, ch) && c' == Next(ir, w, c, ch)
  }

  ghost predicate IsRun(ir: IR, w: World, run: seq<Config>) {
    && run != []
    && run[0] == Init(ir)
    && forall i :: 0 <= i < |run| - 1 ==> Step(ir, w, run[i], run[i + 1])
  }

  ghost function Last(run: seq<Config>): Config
    requires run != []
  {
    run[|run| - 1]
  }

  lemma RunPrefix(ir: IR, w: World, run: seq<Config>)
    requires IsRun(ir, w, run) && |run| > 1
    ensures IsRun(ir, w, run[..|run| - 1]) && Step(ir, w, Last(run[..|run| - 1]), Last(run))
  {
    hide Step;
    var p := run[..|run| - 1];
    forall i | 0 <= i < |p| - 1
      ensures Step(ir, w, p[i], p[i + 1])
    {
      assert Step(ir, w, run[i], run[i + 1]);
    }
    assert Step(ir, w, run[|run| - 2], run[|run| - 2 + 1]);
  }

  lemma RunExtends(ir: IR, w: World, run: seq<Config>, c: Config)
    requires IsRun(ir, w, run) && Step(ir, w, Last(run), c)
    ensures IsRun(ir, w, run + [c])
  {
    hide Step;
    var r := run + [c];
    forall i | 0 <= i < |r| - 1
      ensures Step(ir, w, r[i], r[i + 1])
    {
      if i < |run| - 1 {
        assert Step(ir, w, run[i], run[i + 1]);
      }
    }
  }

  /** A world that renders every template as it is and lets no guard hold. */
  lemma PlainWorld() returns (w: World)
    ensures forall template, ctx :: w.render(template, ctx) == Some(template)
    ensures forall guard, ctx :: !w.guard(guard, ctx)
  {
    w := World((_, _) => false, (template, _) => Some(template), _ => true);
  }

  /** The machine never gets stuck: until it halts, some choice is legal. */
  lemma NeverStuck(ir: IR, w: World, c: Config)
    requires !c.phase.Halted?
    ensures exists c' :: Step(ir, w, c, c')
  {
    var blame := DataReference("", "", NotFound);
    var reading := Reading(ir, c);
    if !Resolvable(c.store, reading) {
      var k :| k in reading && Resolve(c.store, reading[k]).Err?;
      blame := DataReference(k, reading[k], Resolve(c.store, reading[k]).error);
    }
    var ch := Choice(false, ExecError, blame, map[]);
    assert Legal(ir, c, ch);
    assert Step(ir, w, c, Next(ir, w, c, ch));
  }
}
