/**
Which transitions of a state can ever be taken: the duplicate-transition validator trusts guards that the compiled
workflow does not carry.
*/
module Routing {
  import opened Text
  import opened Collections
  import opened DataContext
  import opened ManifestParser
  import opened Machine
  import opened Compiler
  import opened WorkflowIR
  import opened RunProperties
  import opened CompiledRuns

  /** No event has two unguarded transitions. */
  ghost predicate Unambiguous(ts: seq<Transition>) {
    forall i, j :: 0 <= i < j < |ts| && ts[i].guard == "" && ts[j].guard == "" ==> ts[i].eventType != ts[j].eventType
  }

  /** The validator reports an unguarded transition for each unguarded one before it with the same event, once each. */
  ghost predicate Repeats(ts: seq<Transition>, j: int) {
    0 <= j < |ts| && ts[j].guard == "" &&
      exists i :: 0 <= i < j && ts[i].guard == "" && ts[i].eventType == ts[j].eventType
  }

  method DuplicateTransitions(ts: seq<Transition>) returns (errs: seq<int>)
    ensures forall j :: j in errs <==> Repeats(ts, j)
    ensures forall a, b :: 0 <= a < b < |errs| ==> errs[a] < errs[b]
    ensures errs == [] <==> Unambiguous(ts)
  {
    errs := [];
    var seen: set<string> := {};
    for k := 0 to |ts|
      invariant forall e :: e in seen <==> exists i :: 0 <= i < k && ts[i].guard == "" && ts[i].eventType == e
      invariant forall j :: j in errs <==> j < k && Repeats(ts, j)
      invariant forall a :: 0 <= a < |errs| ==> errs[a] < k
      invariant forall a, b :: 0 <= a < b < |errs| ==> errs[a] < errs[b]
    {
      if ts[k].guard != "" {
        continue;
      }
      if ts[k].eventType in seen {
        assert Repeats(ts, k);
        errs := errs + [k];
      } else {
        seen := seen + {ts[k].eventType};
      }
    }
    NoRepeats(ts);
    assert errs != [] ==> errs[0] in errs;
  }

  lemma NoRepeats(ts: seq<Transition>)
    ensures (forall j :: !Repeats(ts, j)) <==> Unambiguous(ts)
  {
    if forall j :: !Repeats(ts, j) {
      forall i, j | 0 <= i < j < |ts| && ts[i].guard == "" && ts[j].guard == ""
        ensures ts[i].eventType != ts[j].eventType
      {
        assert !Repeats(ts, j);
      }
    }
  }

  // ---------------------------------------------------------------------------------------------------------------
  // What the runtime takes

  /** The first transition for an event. */
  ghost function FirstFor(ts: seq<Transition>, event: string): (n: int)
    ensures 0 <= n <= |ts|
  {
    First(ts, (t: Transition) => IsFor(t.eventType, event))
  }

  function Compiled(ts: seq<Transition>): seq<TransitionIR> {
    seq(|ts|, i requires 0 <= i < |ts| => ToTransitionIR(ts[i]))
  }

  ghost predicate Unconditional(ts: seq<Transition>) {
    forall i :: 0 <= i < |ts| ==> ts[i].conditions == map[]
  }

  lemma FireIffFor(w: World, ts: seq<Transition>, event: string, ctx: Ctx)
    requires Unconditional(ts)
    ensures forall i :: 0 <= i < |ts| ==> (Fires(w, Compiled(ts)[i], event, ctx) <==> IsFor(ts[i].eventType, event))
  {
  }

  /** Without conditions the runtime takes the first transition for the event. */
  lemma TakesTheFirst(w: World, ts: seq<Transition>, event: string, ctx: Ctx)
    requires Unconditional(ts)
    ensures RuntimeChoice(w, Compiled(ts), event, ctx) == FirstFor(ts, event)
  {
    hide First, Fires, IsFor, Unconditional;
    FireIffFor(w, ts, event, ctx);
  }

  /** The state has an action whose result gives the event; without one the event is always empty. */
  ghost predicate HasSync(st: State) {
    exists i :: 0 <= i < |st.actions| && !st.actions[i].async
  }

  /** Some result the state can give makes the runtime take the transition, in some world. */
  ghost predicate CanBeTaken(st: State, j: nat) {
    exists w, event, ctx :: (HasSync(st) || event == "") && RuntimeChoice(w, Compiled(st.transitions), event, ctx) == j
  }

  /** No earlier transition is for the event, which has a name. */
  ghost predicate FirstForItsEvent(ts: seq<Transition>, j: nat)
    requires j < |ts|
  {
    ts[j].eventType != "" && forall i :: 0 <= i < j ==> ts[i].eventType != ts[j].eventType
  }

  /**
  A transition without conditions can be taken exactly when it is the first of its state, or the state has a synchronous
  action and the transition is the first for a named event.
  */
  lemma CanBeTakenIff(st: State, j: nat)
    requires j < |st.transitions| && Unconditional(st.transitions)
    ensures CanBeTaken(st, j) <==> j == 0 || (HasSync(st) && FirstForItsEvent(st.transitions, j))
  {
    hide RuntimeChoice, FirstFor, HasSync;
    var ts := st.transitions;
    forall w, event, ctx
      ensures RuntimeChoice(w, Compiled(ts), event, ctx) == FirstFor(ts, event)
    {
      TakesTheFirst(w, ts, event, ctx);
    }
    forall event
      ensures FirstFor(ts, event) == j <==>
              IsFor(ts[j].eventType, event) && forall i :: 0 <= i < j ==> !IsFor(ts[i].eventType, event)
    {
      FirstIs(ts, event, j);
    }
    if CanBeTaken(st, j) && j > 0 {
      var w, event, ctx :| (HasSync(st) || event == "") && RuntimeChoice(w, Compiled(ts), event, ctx) == j;
      assert FirstFor(ts, event) == j;
      assert IsFor(ts[j].eventType, event) && !IsFor(ts[0].eventType, event);
    }
    var w := PlainWorld();
    if j == 0 {
      assert RuntimeChoice(w, Compiled(ts), "", map[]) == 0;
    } else if HasSync(st) && FirstForItsEvent(ts, j) {
      assert RuntimeChoice(w, Compiled(ts), ts[j].eventType, map[]) == j;
    }
  }

  lemma FirstIs(ts: seq<Transition>, event: string, j: nat)
    requires j < |ts|
    ensures FirstFor(ts, event) == j <==>
      IsFor(ts[j].eventType, event) && forall i :: 0 <= i < j ==> !IsFor(ts[i].eventType, event)
  {
    hide First, IsFor;
    var does := (t: Transition) => IsFor(t.eventType, event);
    var n := First(ts, does);
    assert n < |ts| ==> does(ts[n]);
    assert does(ts[j]) <==> IsFor(ts[j].eventType, event);
  }

  ghost predicate AllCanBeTaken(st: State) {
    forall j :: 0 <= j < |st.transitions| ==> CanBeTaken(st, j)
  }

  ghost predicate DistinctEvents(ts: seq<Transition>) {
    forall i, j :: 0 <= i < j < |ts| ==> ts[i].eventType != ts[j].eventType
  }

  /**
  Of a parsed state every transition can be taken exactly when there is at most one, or the state has a synchronous
  action and no event occurs twice, guarded or not.
  */
  lemma AllCanBeTakenIff(y: YamlManifest, id: string)
    requires YamlOk(y) && id in y.states
    ensures var st := ToManifest(y).states[id];
      AllCanBeTaken(st) <==> |st.transitions| <= 1 || (HasSync(st) && DistinctEvents(st.transitions))
  {
    hide CanBeTaken, HasSync;
    var st := ToManifest(y).states[id];
    var ts := st.transitions;
    ParsedManifestShape(y, id);
    assert forall j :: 0 <= j < |ts| ==> TransitionOk(y.states[id].on[j]) && ts[j] == ToTransition(y.states[id].on[j]);
    forall j | 0 <= j < |ts|
      ensures CanBeTaken(st, j) <==>
        j == 0 || (HasSync(st) && forall i :: 0 <= i < j ==> ts[i].eventType != ts[j].eventType)
    {
      CanBeTakenIff(st, j);
    }
    if AllCanBeTaken(st) && |ts| > 1 {
      assert CanBeTaken(st, 1);
    }
  }

  /** No guarded transition shares its event with another transition of the state. */
  ghost predicate GuardsStandAlone(ts: seq<Transition>) {
    forall i, j :: 0 <= i < j < |ts| && (ts[i].guard != "" || ts[j].guard != "") ==> ts[i].eventType != ts[j].eventType
  }

  /**
  Of a parsed state the validator accepts, every transition can be taken if and only if there is at most one, or the
  state has a synchronous action and no guarded transition shares its event.
  */
  lemma AcceptedAreTakenIff(y: YamlManifest, id: string)
    requires YamlOk(y) && id in y.states && Unambiguous(ToManifest(y).states[id].transitions)
    ensures var st := ToManifest(y).states[id];
      AllCanBeTaken(st) <==> |st.transitions| <= 1 || (HasSync(st) && GuardsStandAlone(st.transitions))
  {
    hide AllCanBeTaken, HasSync;
    AllCanBeTakenIff(y, id);
  }

  /** A second transition for an event, after a guarded one, passes the validator and can never be taken. */
  lemma GuardedTransitionIsShadowed(st: State, event: string, a: string, b: string, g: string, h: string)
    requires g != "" && st.transitions == [Transition(event, a, g, map[]), Transition(event, b, h, map[])]
    ensures Unambiguous(st.transitions) && !CanBeTaken(st, 1)
  {
    hide CanBeTaken;
    CanBeTakenIff(st, 1);
    assert st.transitions[0].eventType == event && st.transitions[1].eventType == event;
  }

  // ---------------------------------------------------------------------------------------------------------------
  // What runs take

  /** In a compiled state without conditions the runtime settles on the first transition for the event. */
  lemma CompiledChoice(m: Manifest, ir: IR, marshal: Marshal, id: string, w: World, event: string, ctx: Ctx)
    requires CompiledFrom(ir, m, marshal) && id in m.states && Unconditional(m.states[id].transitions)
    ensures FindState(ir.states, id).Some?
      && FindState(ir.states, id).value.transitions == Compiled(m.states[id].transitions)
    ensures Answers(FindState(ir.states, id).value) <==> HasSync(m.states[id])
    ensures RuntimeChoice(w, FindState(ir.states, id).value.transitions, event, ctx) ==
      FirstFor(m.states[id].transitions, event)
  {
    hide FirstFor, RuntimeChoice, Mirrors, FindState, HasSync, Answers;
    FindStateMirrors(ir, WorkflowGraph(m.name, m.namespace, m.initialState, m.states), marshal, id);
    assert FindState(ir.states, id).value.transitions == Compiled(m.states[id].transitions);
    AnswersIff(m.states[id], FindState(ir.states, id).value);
    TakesTheFirst(w, m.states[id].transitions, event, ctx);
  }

  /** The compiled state has an action that is waited for. */
  ghost predicate Answers(st: StateIR) {
    exists i :: 0 <= i < |st.actions| && !st.actions[i].async
  }

  /** A result that is there to choose by, or an event that has a name, comes from an action that was waited for. */
  ghost predicate EventInv(ir: IR, c: Config) {
    var st := FindState(ir.states, c.current);
    match c.phase
    case Acting(_, last) => last.Some? ==> st.Some? && Answers(st.value)
    case Choosing(result) => result.eventType != "" ==> st.Some? && Answers(st.value)
    case _ => true
  }

  lemma NextKeepsEvent(ir: IR, w: World, c: Config, ch: Choice)
    requires !c.phase.Halted? && EventInv(ir, c)
    ensures EventInv(ir, Next(ir, w, c, ch))
  {
    hide FindState, Resolvable, Resolved, Writes, WrittenBy, Keyed, WithinBounds, RuntimeChoice, MergePayload;
  }

  lemma {:induction false} EveryRunsEvent(ir: IR, w: World, run: seq<Config>)
    requires IsRun(ir, w, run)
    ensures EventInv(ir, Last(run))
    decreases |run|
  {
    hide Next, EventInv, Legal;
    if |run| == 1 {
      assert EventInv(ir, Init(ir)) by { NoEventYet(ir); }
    } else {
      RunPrefix(ir, w, run);
      EveryRunsEvent(ir, w, run[..|run| - 1]);
      var c := Last(run[..|run| - 1]);
      var ch :| Legal(ir, c, ch) && Last(run) == Next(ir, w, c, ch);
      NextKeepsEvent(ir, w, c, ch);
    }
  }

  lemma NoEventYet(ir: IR)
    ensures EventInv(ir, Init(ir))
  {
  }

  lemma StepTakesTheChoice(ir: IR, w: World, c: Config, st: StateIR, c': Config)
    requires Step(ir, w, c, c') && c.phase.Choosing? && FindState(ir.states, c.current) == Some(st)
    ensures var j := RuntimeChoice(w, st.transitions, c.phase.result.eventType, c.ctx);
      if j < |st.transitions| then c'.phase.Top? && c'.current == st.transitions[j].targetState
      else c'.current == c.current && c'.phase == Halted(Failure(NoTransition(c.phase.result.eventType)))
  {
    hide RuntimeChoice, FindState, Legal;
  }

  /**
  Every run of a compiled workflow leaves a state without conditions along a transition that can be taken, and stops
  exactly where no transition is for the event.
  */
  lemma EveryRunTakes(m: Manifest, ir: IR, marshal: Marshal, w: World, run: seq<Config>, c: Config)
    requires CompiledFrom(ir, m, marshal) && IsRun(ir, w, run) && Step(ir, w, Last(run), c) && Last(run).phase.Choosing?
    requires Last(run).current in m.states && Unconditional(m.states[Last(run).current].transitions)
    ensures var st, event := m.states[Last(run).current], Last(run).phase.result.eventType;
      var j := FirstFor(st.transitions, event);
      if j < |st.transitions| then CanBeTaken(st, j) && c.phase.Top? && c.current == st.transitions[j].targetState
      else c.current == Last(run).current && c.phase == Halted(Failure(NoTransition(event)))
  {
    hide Step, FindState, RuntimeChoice, CompiledFrom, FirstFor, Answers, HasSync;
    var id, event, ctx := Last(run).current, Last(run).phase.result.eventType, Last(run).ctx;
    CompiledChoice(m, ir, marshal, id, w, event, ctx);
    EveryRunsEvent(ir, w, run);
    StepTakesTheChoice(ir, w, Last(run), FindState(ir.states, id).value, c);
    assert CanBeTaken(m.states[id], FirstFor(m.states[id].transitions, event));
  }

  /** An action that reads and publishes nothing, so nothing but the executor can make it fail. */
  ghost predicate Unbound(st: StateIR) {
    forall i :: 0 <= i < |st.actions| ==> st.actions[i].inputBindings == map[] && st.actions[i].outputBindings == map[]
  }

  ghost predicate Renders(w: World) {
    forall template, ctx :: w.render(template, ctx).Some?
  }

  ghost function Said(st: StateIR, n: nat, event: string): Option<ActivityResult>
    requires n <= |st.actions|
  {
    if exists i :: 0 <= i < n && !st.actions[i].async then Some(ActivityResult(event, Empty)) else None
  }

  lemma ActStep(ir: IR, w: World, c: Config, st: StateIR, n: nat, event: string) returns (d: Config)
    requires FindState(ir.states, c.current) == Some(st) && Unbound(st) && Renders(w)
    requires n < |st.actions| && c.phase == Acting(n, Said(st, n, event))
    ensures Step(ir, w, c, d) && d.current == c.current && d.phase == Acting(n + 1, Said(st, n + 1, event))
  {
    hide FindState, Keyed;
    var ch := Choice(true, ExecOk(ActivityResult(event, Empty)), DataReference("", "", NotFound), map[]);
    assert st.actions[n].inputBindings == map[] && st.actions[n].outputBindings == map[];
    assert Legal(ir, c, ch);
    d := Next(ir, w, c, ch);
    if st.actions[n].async {
      assert Said(st, n + 1, event) == Said(st, n, event);
    }
  }

  lemma {:induction false} ActsThrough(ir: IR, w: World, run: seq<Config>, st: StateIR, n: nat, event: string)
    returns (out: seq<Config>)
    requires IsRun(ir, w, run) && FindState(ir.states, Last(run).current) == Some(st) && Unbound(st) && Renders(w)
    requires n <= |st.actions| && Last(run).phase == Acting(n, Said(st, n, event))
    ensures IsRun(ir, w, out) && run <= out && Last(out).current == Last(run).current
    ensures Last(out).phase == Choosing(ActivityResult(if Answers(st) then event else "", Empty))
    decreases |st.actions| - n
  {
    hide FindState, Step, Unbound;
    if n == |st.actions| {
      var c := Chooses(ir, w, Last(run), st, event);
      RunExtends(ir, w, run, c);
      out := run + [c];
    } else {
      var c := ActStep(ir, w, Last(run), st, n, event);
      RunExtends(ir, w, run, c);
      out := ActsThrough(ir, w, run + [c], st, n + 1, event);
    }
  }

  lemma Chooses(ir: IR, w: World, c: Config, st: StateIR, event: string) returns (d: Config)
    requires FindState(ir.states, c.current) == Some(st)
      && c.phase == Acting(|st.actions|, Said(st, |st.actions|, event))
    ensures Step(ir, w, c, d) && d.current == c.current
    ensures d.phase == Choosing(ActivityResult(if Answers(st) then event else "", Empty))
  {
    hide FindState;
    var ch := Choice(true, ExecError, DataReference("", "", NotFound), map[]);
    assert Legal(ir, c, ch);
    d := Next(ir, w, c, ch);
  }

  /**
  And back: wherever a run comes to a state whose actions bind nothing, in a world that renders its templates, each
  transition that can be taken is the one some continuation is about to take.
  */
  lemma TakenOnARun(m: Manifest, ir: IR, marshal: Marshal, w: World, run: seq<Config>, j: nat)
      returns (out: seq<Config>)
    requires CompiledFrom(ir, m, marshal) && IsRun(ir, w, run) && Renders(w)
    requires Last(run).phase.Top? && Last(run).current in m.states
      && Unconditional(m.states[Last(run).current].transitions)
    requires AtWork(ir, Last(run).current) && Unbound(FindState(ir.states, Last(run).current).value)
    requires j < |m.states[Last(run).current].transitions| && CanBeTaken(m.states[Last(run).current], j)
    ensures IsRun(ir, w, out) && run <= out && Last(out).current == Last(run).current && Last(out).phase.Choosing?
    ensures FirstFor(m.states[Last(run).current].transitions, Last(out).phase.result.eventType) == j
  {
    hide Step, FindState, RuntimeChoice, CompiledFrom, FirstFor, Unbound, Renders, HasSync, Answers;
    var st := m.states[Last(run).current];
    var v, event, ctx :| (HasSync(st) || event == "") && RuntimeChoice(v, Compiled(st.transitions), event, ctx) == j;
    CompiledChoice(m, ir, marshal, Last(run).current, v, event, ctx);
    var compiled := FindState(ir.states, Last(run).current).value;
    var c := EnterStep(ir, w, Last(run));
    RunExtends(ir, w, run, c);
    assert Said(compiled, 0, event) == None;
    out := ActsThrough(ir, w, run + [c], compiled, 0, event);
  }

  lemma AnswersIff(st: State, compiled: StateIR)
    requires |compiled.actions| == |st.actions|
    requires forall i :: 0 <= i < |st.actions| ==> compiled.actions[i].async == st.actions[i].async
    ensures Answers(compiled) <==> HasSync(st)
  {
    if i :| 0 <= i < |st.actions| && !st.actions[i].async {
      assert !compiled.actions[i].async;
    }
  }

  /** A human decides between two ends, and nothing is dispatched. */
  ghost function Review(): Manifest {
    var over := (id: string) => State(id, Terminal, [], [], map[], 0);
    var ts := [Transition("approve", "yes", "", map[]), Transition("reject", "no", "", map[])];
    Manifest("m", "n", "review", map[
      "review" := State("review", HumanInTheLoop, [], ts, map[], 0), "yes" := over("yes"), "no" := over("no")])
  }

  lemma ReviewIsAccepted()
    ensures WellFormed(Review()) && DistinctEvents(Review().states["review"].transitions)
  {
    hide AllInputsDeclared, AllOutputsProper;
    var g := Review().states;
    BareStatesBindNothing(g);
    assert g["review"].transitions[0].targetState == "yes" && g["review"].transitions[1].targetState == "no";
    assert Targets(g, "review", "yes") && Targets(g, "review", "no");
    assert g["yes"].kind.Terminal?;
  }

  ghost predicate AtReview(c: Config) {
    c.current == "review" || (c.current == "yes" && (c.phase.Top? || c.phase.Halted?))
  }

  lemma StaysInside(ir: IR, w: World, c: Config, c': Config)
    requires Step(ir, w, c, c') && !c.phase.Choosing?
    ensures !c.phase.Halted? && c'.current == c.current
    ensures c.phase.Top? && AtTerminal(ir, c.current) ==> c'.phase.Halted?
  {
    hide FindState, Resolvable, Resolved, Writes, WrittenBy, Keyed, WithinBounds;
  }

  /**
  Distinct events and no guard, but no action that could tell them apart: no run of this accepted workflow is ever
  rejected.
  */
  lemma {:induction false} RejectIsNeverTaken(ir: IR, marshal: Marshal, w: World, run: seq<Config>)
    requires CompiledFrom(ir, Review(), marshal) && IsRun(ir, w, run)
    ensures AtReview(Last(run))
    decreases |run|
  {
    hide Step, FindState, Mirrors, CanBeTaken, FirstFor;
    var m := Review();
    var st := m.states["review"];
    if |run| == 1 {
      StartsAtInitial(ir, m, marshal);
    } else {
      RunPrefix(ir, w, run);
      var p := run[..|run| - 1];
      RejectIsNeverTaken(ir, marshal, w, p);
      if Last(p).phase.Choosing? {
        EveryRunTakes(m, ir, marshal, w, p, Last(run));
        var j := FirstFor(st.transitions, Last(p).phase.result.eventType);
        if j < |st.transitions| {
          CanBeTakenIff(st, j);
        }
      } else {
        FindStateMirrors(ir, WorkflowGraph(m.name, m.namespace, m.initialState, m.states), marshal, Last(p).current);
        assert Last(p).current == "yes" ==> AtTerminal(ir, "yes");
        StaysInside(ir, w, Last(p), Last(run));
      }
    }
  }

  // ---------------------------------------------------------------------------------------------------------------
  // What the guards were for

  /**
  A YAML guard never reaches the runtime: `convertState` keeps it beside `conditions`, `convertTransitions` copies only
  `conditions`. So in every compiled manifest the transition taken is the first one for the event, whatever the guards
  say and whatever the context holds; a later transition for the same event is never taken.
  */
  lemma GuardsAreDropped(y: YamlManifest, ir: IR, marshal: Marshal, id: string, w: World, event: string, ctx: Ctx)
    requires YamlOk(y) && CompiledFrom(ir, ToManifest(y), marshal) && id in y.states
    ensures FindState(ir.states, id).Some?
    ensures RuntimeChoice(w, FindState(ir.states, id).value.transitions, event, ctx) ==
            FirstFor(ToManifest(y).states[id].transitions, event)
  {
    hide FirstFor, RuntimeChoice, CompiledFrom, FindState;
    ParsedManifestShape(y, id);
    CompiledChoice(ToManifest(y), ir, marshal, id, w, event, ctx);
  }

  /** The index a runtime that had the guards would settle on. */
  ghost function GuardedChoice(w: World, ts: seq<Transition>, event: string, ctx: Ctx): int {
    First(ts, (t: Transition) => IsFor(t.eventType, event) && (t.guard == "" || w.guard(t.guard, ctx)))
  }

  /**
  The compiled state takes the transition its guards ask for, whatever they evaluate to, if and only if it has none for
  the event or the first one for it has no guard.
  */
  lemma GuardsAreRespectedIff(y: YamlManifest, ir: IR, marshal: Marshal, id: string, event: string)
    requires YamlOk(y) && CompiledFrom(ir, ToManifest(y), marshal) && id in y.states
    ensures FindState(ir.states, id).Some?
    ensures var ts, cs := ToManifest(y).states[id].transitions, FindState(ir.states, id).value.transitions;
      var first := FirstFor(ts, event);
      (forall w, ctx :: RuntimeChoice(w, cs, event, ctx) == GuardedChoice(w, ts, event, ctx)) <==>
      (first == |ts| || ts[first].guard == "")
  {
    hide First, RuntimeChoice, Mirrors, FindState;
    var ts := ToManifest(y).states[id].transitions;
    var plain := PlainWorld();
    GuardsAreDropped(y, ir, marshal, id, plain, event, map[]);
    var cs := FindState(ir.states, id).value.transitions;
    var first := FirstFor(ts, event);
    forall w, ctx
      ensures RuntimeChoice(w, cs, event, ctx) == first
    {
      GuardsAreDropped(y, ir, marshal, id, w, event, ctx);
    }
    if first == |ts| || ts[first].guard == "" {
      forall w, ctx
        ensures GuardedChoice(w, ts, event, ctx) == first
      {
      }
    } else {
      assert GuardedChoice(plain, ts, event, map[]) != first;
    }
  }
}
