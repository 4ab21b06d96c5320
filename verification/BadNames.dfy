/**
Names that `Build` accepts and a run cannot do with: state ids whose outputs share a store key, and output keys with a
dot.
*/
module BadNames {
  import opened Text
  import opened References
  import opened Compiler
  import opened WorkflowIR
  import opened DataContext
  import opened Machine
  import opened RunProperties
  import opened CompiledRuns

  /** A state that publishes one output and goes on. */
  ghost function Publishes(id: string, key: string, next: string): State {
    State(id, Normal, [Action("c", map[], map[key := "v"], map[], false)], [Transition("e", next, "", map[])], map[], 0)
  }

  ghost function Publisher(id: string, key: string, next: string): StateIR {
    StateIR(id, Normal, [ActionIR("c", "", false, map[key := "v"], map[])], [TransitionIR("e", next, map[])], map[])
  }

  lemma CompiledPublisher(m: Manifest, ir: IR, marshal: Marshal, id: string, key: string, next: string)
    requires CompiledFrom(ir, m, marshal) && id in m.states && m.states[id] == Publishes(id, key, next)
    ensures FindState(ir.states, id) == Some(Publisher(id, key, next))
  {
    hide Mirrors, FindState;
    FindStateMirrors(ir, WorkflowGraph(m.name, m.namespace, m.initialState, m.states), marshal, id);
    var st := FindState(ir.states, id).value;
    assert st.actions == Publisher(id, key, next).actions && st.transitions == Publisher(id, key, next).transitions;
  }

  // ---------------------------------------------------------------------------------------------------------------
  // Steps of a publisher

  ghost function Answer(val: string): ActivityResult {
    ActivityResult("", Document("", Object(map["v" := Json.Text(val)])))
  }

  lemma AnswerIsTaken(key: string, val: string)
    ensures Writes(map[key := "v"], Answer(val).payload)
      && WrittenBy(map[key := "v"], Answer(val).payload) == map[key := val]
  {
    SplitDotFree("v");
    var fields := map["v" := Json.Text(val)];
    assert Follow(fields, ["v"]) == Ok(val);
    assert Extract(fields, "v") == Ok(val);
  }

  lemma PublishStep(ir: IR, w: World, c: Config, key: string, next: string, val: string) returns (d: Config)
    requires c.phase == Acting(0, None) && FindState(ir.states, c.current) == Some(Publisher(c.current, key, next))
    requires w.render("", c.ctx + map[]) == Some("")
    ensures Step(ir, w, c, d) && d.phase == Acting(1, Some(Answer(val))) && d.current == c.current
    ensures d.store == c.store + Keyed(c.current, map[key := val])
    ensures LastWrites(d.log) == LastWrites(c.log) + Tagged(c.current, map[key := val])
  {
    hide Keyed, FindState, LastWrites, Writes, WrittenBy, Answer, Tagged;
    AnswerIsTaken(key, val);
    var ch := Choice(true, ExecOk(Answer(val)), DataReference("", "", NotFound), map[]);
    assert Resolved(c.store, map[]) == map[];
    assert Legal(ir, c, ch);
    d := Next(ir, w, c, ch);
    var e := Dispatched(c.current, 0, map[], "");
    LogDispatch(c.log, e);
    LogWrite(c.log + [e], c.current, Answer(val).payload, map[key := val]);
  }

  lemma LeaveSteps(ir: IR, w: World, c: Config, key: string, next: string, val: string) returns (d: Config, e: Config)
    requires c.phase == Acting(1, Some(Answer(val)))
      && FindState(ir.states, c.current) == Some(Publisher(c.current, key, next))
    ensures Step(ir, w, c, d) && Step(ir, w, d, e)
    ensures e.phase == Top && e.current == next && e.store == c.store && e.log == c.log
  {
    hide FindState, MergePayload;
    var ch := Choice(true, ExecError, DataReference("", "", NotFound), map[]);
    assert Legal(ir, c, ch);
    d := Next(ir, w, c, ch);
    assert Legal(ir, d, ch);
    e := Next(ir, w, d, ch);
  }

  lemma NoWrites()
    ensures LastWrites([]) == map[]
  {
  }

  /** Enters a publisher, publishes and leaves. */
  lemma Visit(ir: IR, w: World, run: seq<Config>, key: string, next: string, val: string) returns (out: seq<Config>)
    requires IsRun(ir, w, run) && Last(run).phase == Top && forall ctx :: w.render("", ctx) == Some("")
    requires FindState(ir.states, Last(run).current) == Some(Publisher(Last(run).current, key, next))
    ensures IsRun(ir, w, out) && Last(out).phase == Top && Last(out).current == next
    ensures Last(out).store == Last(run).store + Keyed(Last(run).current, map[key := val])
    ensures LastWrites(Last(out).log) == LastWrites(Last(run).log) + Tagged(Last(run).current, map[key := val])
  {
    hide Keyed, Tagged, LastWrites, Step, FindState;
    var c := EnterStep(ir, w, Last(run));
    RunExtends(ir, w, run, c);
    var d := PublishStep(ir, w, c, key, next, val);
    RunExtends(ir, w, run + [c], d);
    var e, f := LeaveSteps(ir, w, d, key, next, val);
    RunExtends(ir, w, run + [c] + [d], e);
    RunExtends(ir, w, run + [c] + [d] + [e], f);
    out := run + [c] + [d] + [e] + [f];
  }

  // ---------------------------------------------------------------------------------------------------------------
  // Ids that collide

  /** Two outputs under one store key, written one after the other, leave the store unfaithful. */
  lemma CollisionIsUnfaithful(s: string, k: string, t: string, l: string)
    requires s != t && OutputKey(s, k) == OutputKey(t, l)
    ensures !Faithful(Keyed(s, map[k := "a"]) + Keyed(t, map[l := "b"]),
      Tagged(s, map[k := "a"]) + Tagged(t, map[l := "b"]))
  {
    hide OutputKey, Keyed;
    KeyedEntries(s, map[k := "a"]);
    KeyedEntries(t, map[l := "b"]);
    var store, view := Keyed(s, map[k := "a"]) + Keyed(t, map[l := "b"]),
      Tagged(s, map[k := "a"]) + Tagged(t, map[l := "b"]);
    assert store[OutputKey(t, l)] == "b";
    assert (s, k) in view && view[(s, k)] == "a";
  }

  /** Two states that publish one output each, one after the other. */
  ghost function Twins(s: string, k: string, t: string, l: string, done: string): Manifest {
    Manifest("m", "n", s, map[s := Publishes(s, k, t), t := Publishes(t, l, done),
      done := State(done, Terminal, [], [], map[], 0)])
  }

  lemma TwinsAreAccepted(s: string, k: string, t: string, l: string, done: string)
    requires s != t && s != done && t != done
    ensures WellFormed(Twins(s, k, t, l, done))
  {
    var g := Twins(s, k, t, l, done).states;
    assert g[s].transitions[0].targetState == t && g[t].transitions[0].targetState == done;
    assert Targets(g, s, t) && Targets(g, t, done) && g[done].kind.Terminal?;
  }

  lemma CollidingRun(m: Manifest, ir: IR, marshal: Marshal, s: string, k: string, t: string, l: string, done: string,
      w: World)
    returns (run: seq<Config>)
    requires s != t && s != done && t != done && m == Twins(s, k, t, l, done) && CompiledFrom(ir, m, marshal)
    requires forall ctx :: w.render("", ctx) == Some("")
    ensures IsRun(ir, w, run)
    ensures Last(run).store == Keyed(s, map[k := "a"]) + Keyed(t, map[l := "b"])
    ensures LastWrites(Last(run).log) == Tagged(s, map[k := "a"]) + Tagged(t, map[l := "b"])
  {
    hide Keyed, Tagged, LastWrites, Step, Publisher, FindState, CompiledFrom;
    CompiledPublisher(m, ir, marshal, s, k, t);
    CompiledPublisher(m, ir, marshal, t, l, done);
    StartsAtInitial(ir, m, marshal);
    run := Visit(ir, w, [Init(ir)], k, t, "a");
    run := Visit(ir, w, run, l, done, "b");
    NoWrites();
    assert map[] + Keyed(s, map[k := "a"]) == Keyed(s, map[k := "a"]);
    assert map[] + Tagged(s, map[k := "a"]) == Tagged(s, map[k := "a"]);
  }

  /** Some run leaves a store that is not the last-write view. */
  ghost predicate ViewBreaks(ir: IR) {
    exists w, run :: IsRun(ir, w, run) && !Faithful(Last(run).store, LastWrites(Last(run).log))
  }

  /**
  For any two ids that may collide `Build` accepts a workflow with these states that breaks the view, however it is
  compiled.
  */
  lemma CollisionBreaksView(s: string, t: string, done: string)
    requires s != t && s != done && t != done && MayCollide(s, t)
    ensures exists k, l :: (
      && WellFormed(Twins(s, k, t, l, done))
      && forall ir, marshal :: CompiledFrom(ir, Twins(s, k, t, l, done), marshal) ==> ViewBreaks(ir))
  {
    hide OutputKey, MayCollide, Keyed, Tagged, LastWrites, Faithful, IsRun, Twins, CompiledFrom, WellFormed;
    OutputKeysCollideIff(s, t);
    var k, l :| k != "" && l != "" && OutputKey(s, k) == OutputKey(t, l);
    TwinsAreAccepted(s, k, t, l, done);
    CollisionIsUnfaithful(s, k, t, l);
    forall ir, marshal | CompiledFrom(ir, Twins(s, k, t, l, done), marshal)
      ensures ViewBreaks(ir)
    {
      var w := PlainWorld();
      var run := CollidingRun(Twins(s, k, t, l, done), ir, marshal, s, k, t, l, done, w);
    }
  }

  // ---------------------------------------------------------------------------------------------------------------
  // Keys with a dot

  /** A state publishes one output, and the workflow's result is that output. */
  ghost function Passes(s: string, key: string, done: string): Manifest {
    var outputs := map["x" := DATA_PREFIX + OutputKey(s, key)];
    Manifest("m", "n", s, map[s := Publishes(s, key, done), done := State(done, Terminal, [], [], outputs, 0)])
  }

  lemma PassesIsAccepted(s: string, key: string, done: string)
    requires s != done && DotFree(s) && s != "" && key != ""
    ensures WellFormed(Passes(s, key, done))
  {
    hide OutputKey, ParseBindingRef;
    var g := Passes(s, key, done).states;
    assert g[s].transitions[0].targetState == done && Targets(g, s, done) && g[done].kind.Terminal?;
    CompilerReads(s, key);
    assert key in g[s].actions[0].outputBindings && Declares(g, s, key);
  }

  lemma DottedIsUnplain(s: string, key: string)
    requires DotFree(s) && s != "" && key != "" && !DotFree(key)
    ensures !Plain(DATA_PREFIX + OutputKey(s, key))
  {
    hide OutputKey, ParseBindingRef;
    CompilerReads(s, key);
  }

  lemma AtTheEnd(ir: IR, marshal: Marshal, s: string, key: string, done: string, c: Config)
    requires s != done && CompiledFrom(ir, Passes(s, key, done), marshal) && c.phase == Top && AtTerminal(ir, c.current)
    ensures Reading(ir, c) == map["x" := DATA_PREFIX + OutputKey(s, key)]
  {
    hide Mirrors, FindState, OutputKey;
    var m := Passes(s, key, done);
    FindStateMirrors(ir, WorkflowGraph(m.name, m.namespace, m.initialState, m.states), marshal, c.current);
  }

  lemma SuccessAtTheEnd(ir: IR, w: World, c: Config, c': Config)
    requires Step(ir, w, c, c') && c'.phase.Halted? && c'.phase.outcome.Success?
    ensures !c.phase.Halted? && c.phase == Top && AtTerminal(ir, c.current)
  {
    hide FindState, Resolvable, Resolved, Writes, WrittenBy, Keyed, WithinBounds, RuntimeChoice, MergePayload;
  }

  /**
  `Build` accepts a reference to a key with a dot, and no run of the workflow, however it is compiled, ever succeeds.
  */
  lemma DottedKeyNeverSucceeds(ir: IR, marshal: Marshal, w: World, run: seq<Config>, s: string, key: string,
      done: string)
    requires s != done && DotFree(s) && s != "" && key != "" && !DotFree(key)
    requires CompiledFrom(ir, Passes(s, key, done), marshal) && IsRun(ir, w, run)
    ensures WellFormed(Passes(s, key, done))
    ensures Last(run).phase.Halted? ==> Last(run).phase.outcome.Failure?
  {
    hide Step, CompiledFrom, Passes, OutputKey, WellFormed, Plain, Reading;
    PassesIsAccepted(s, key, done);
    if Last(run).phase.Halted? && Last(run).phase.outcome.Success? {
      RunPrefix(ir, w, run);
      var c := Last(run[..|run| - 1]);
      SuccessAtTheEnd(ir, w, c, Last(run));
      AtTheEnd(ir, marshal, s, key, done, c);
      DottedIsUnplain(s, key);
      UnplainIsFatal(ir, w, c, "x");
    }
  }

  /** And one run of it does get as far as the reference, and fails on that. */
  lemma DottedKeyFails(ir: IR, marshal: Marshal, s: string, key: string, done: string)
      returns (w: World, run: seq<Config>)
    requires s != done && DotFree(s) && s != "" && key != "" && !DotFree(key)
    requires CompiledFrom(ir, Passes(s, key, done), marshal)
    ensures IsRun(ir, w, run)
    ensures Last(run).phase == Halted(Failure(Data(DataReference("x", DATA_PREFIX + OutputKey(s, key), Malformed))))
  {
    hide Step, CompiledFrom, FindState, OutputKey, Plain, Reading, Publisher, Keyed, Tagged, LastWrites;
    var m := Passes(s, key, done);
    w := PlainWorld();
    CompiledPublisher(m, ir, marshal, s, key, done);
    StartsAtInitial(ir, m, marshal);
    run := Visit(ir, w, [Init(ir)], key, done, "a");
    DoneIsTerminal(ir, marshal, s, key, done);
    var c := Last(run);
    AtTheEnd(ir, marshal, s, key, done, c);
    DottedIsUnplain(s, key);
    UnplainIsFatal(ir, w, c, "x");
    var d :| Step(ir, w, c, d) && d.phase.outcome == Failure(Data(DataReference("x", Reading(ir, c)["x"], Malformed)));
    RunExtends(ir, w, run, d);
    run := run + [d];
  }

  lemma DoneIsTerminal(ir: IR, marshal: Marshal, s: string, key: string, done: string)
    requires CompiledFrom(ir, Passes(s, key, done), marshal)
    ensures AtTerminal(ir, done)
  {
    hide Mirrors, FindState, OutputKey;
    var m := Passes(s, key, done);
    FindStateMirrors(ir, WorkflowGraph(m.name, m.namespace, m.initialState, m.states), marshal, done);
  }
}
