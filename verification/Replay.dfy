/**
Replay: a workflow engine re-executes a workflow against recorded answers, so the same answers must lead along the same
way. Go visits a map of bindings in no fixed order; this module says exactly where that shows.
*/
module Replay {
  import opened Text
  import opened DataContext
  import opened References
  import opened Compiler
  import opened WorkflowIR
  import opened Machine
  import opened RunProperties
  import opened CompiledRuns
  import opened Environments

  ghost predicate DataFailed(c: Config) {
    c.phase.Halted? && c.phase.outcome.Failure? && c.phase.outcome.error.Data?
  }

  /** Equal, or both failed on data after the same way: only the reference blamed and a partial write may differ. */
  ghost predicate SameButBlame(c: Config, d: Config) {
    c == d || (DataFailed(c) && DataFailed(d) && c.current == d.current && c.ctx == d.ctx && c.trace == d.trace)
  }

  ghost predicate Fails(store: map<string, string>, bindings: map<string, string>, k: string) {
    k in bindings && Resolve(store, bindings[k]).Err?
  }

  /** Two of the bindings about to be resolved cannot be. */
  ghost predicate TwoFail(ir: IR, c: Config) {
    exists k, l :: k != l && Fails(c.store, Reading(ir, c), k) && Fails(c.store, Reading(ir, c), l)
  }

  /** The object the executor is about to answer with, if it is asked and does. */
  ghost function Answered(env: Environment, ir: IR, w: World, c: Config): (r: Option<map<string, Json>>)
    ensures r.Some? ==> Pending(ir, c).Some?
  {
    var call := Call(ir, w, c);
    if call.None? then None
    else
      var answer := env.executor(Calls(c.log), call.value.0, call.value.1);
      if answer.ExecError? then None else TopLevel(answer.result.payload)
  }

  /** The executor's answer is an object from which not all of several outputs can be taken. */
  ghost predicate WriteFailsHalfway(env: Environment, ir: IR, w: World, c: Config) {
    && Answered(env, ir, w, c).Some?
    && !AllExtract(Answered(env, ir, w, c).value, Pending(ir, c).value.outputBindings)
    && |Pending(ir, c).value.outputBindings| > 1
  }

  ghost predicate PathFails(doc: map<string, Json>, bindings: map<string, string>, k: string) {
    k in bindings && Extract(doc, bindings[k]).Err?
  }

  /** The executor's answer is an object from which two of the outputs cannot be taken. */
  ghost predicate TwoPathsFail(env: Environment, ir: IR, w: World, c: Config) {
    && Answered(env, ir, w, c).Some?
    && var doc, bindings := Answered(env, ir, w, c).value, Pending(ir, c).value.outputBindings;
    && exists k, l :: k != l && PathFails(doc, bindings, k) && PathFails(doc, bindings, l)
  }

  /** Map order shows in the next step. */
  ghost predicate OrderShows(env: Environment, ir: IR, w: World, c: Config) {
    TwoFail(ir, c) || WriteFailsHalfway(env, ir, w, c)
  }

  /** Map order shows in what the next step reports. */
  ghost predicate BlameShows(env: Environment, ir: IR, w: World, c: Config) {
    TwoFail(ir, c) || TwoPathsFail(env, ir, w, c)
  }

  // ---------------------------------------------------------------------------------------------------------------
  // Where it does not show

  /** A write of an object goes through exactly when no path fails. */
  lemma NoPathFails(bindings: map<string, string>, payload: Payload)
    requires TopLevel(payload).Some?
    ensures Writes(bindings, payload) <==> AllExtract(TopLevel(payload).value, bindings)
    ensures Writes(bindings, payload) <==> forall k :: !PathFails(TopLevel(payload).value, bindings, k)
  {
    hide Extract, TopLevel;
    if forall k :: !PathFails(TopLevel(payload).value, bindings, k) {
      assert forall k :: k in bindings ==> !PathFails(TopLevel(payload).value, bindings, k);
    }
  }

  lemma OneBlame(ir: IR, c: Config, x: Choice, y: Choice)
    requires !Resolvable(c.store, Reading(ir, c)) && Legal(ir, c, x) && Legal(ir, c, y) && !TwoFail(ir, c)
    ensures x.blame == y.blame
  {
    hide Reading, Resolve;
    assert Fails(c.store, Reading(ir, c), x.blame.inputKey) && Fails(c.store, Reading(ir, c), y.blame.inputKey);
  }

  lemma OnlyKey(bindings: map<string, string>, k: string, l: string)
    requires |bindings| <= 1 && k in bindings && l in bindings
    ensures k == l
  {
    var rest := bindings.Keys - {k};
    assert |rest| == |bindings.Keys| - 1 && |bindings.Keys| == |bindings|;
    assert rest == {};
  }

  lemma OneWrite(state: string, bindings: map<string, string>, payload: Payload, x: Choice, y: Choice)
    requires FailsHonestly(state, bindings, payload, x) && FailsHonestly(state, bindings, payload, y)
    requires !Writes(bindings, payload) && (TopLevel(payload).Some? ==> |bindings| <= 1)
    ensures x.blame == y.blame && x.partial == y.partial
  {
    hide Extract, TopLevel;
    if TopLevel(payload).Some? {
      var k := x.blame.inputKey;
      OnlyKey(bindings, k, y.blame.inputKey);
      forall l | l in bindings
        ensures l == k
      {
        OnlyKey(bindings, k, l);
      }
      assert x.partial == map[] && y.partial == map[];
    }
  }

  lemma NextIsDetermined(env: Environment, ir: IR, w: World, c: Config, x: Choice, y: Choice)
    requires !c.phase.Halted? && Legal(ir, c, x) && Legal(ir, c, y) && Given(env, ir, w, c, x)
      && Given(env, ir, w, c, y)
    requires !OrderShows(env, ir, w, c)
    ensures Next(ir, w, c, x) == Next(ir, w, c, y)
  {
    hide Resolvable, Resolved, Writes, WrittenBy, Keyed, WithinBounds, FindState, Leave, Calls, BlamesBinding,
      FailsHonestly, TwoFail, TopLevel;
    if !Resolvable(c.store, Reading(ir, c)) {
      OneBlame(ir, c, x, y);
    } else if Call(ir, w, c).Some? && x.exec.ExecOk?
      && !Writes(Pending(ir, c).value.outputBindings, x.exec.result.payload) {
      assert TopLevel(x.exec.result.payload) == Answered(env, ir, w, c);
      if TopLevel(x.exec.result.payload).Some? {
        NoPathFails(Pending(ir, c).value.outputBindings, x.exec.result.payload);
      }
      OneWrite(c.current, Pending(ir, c).value.outputBindings, x.exec.result.payload, x, y);
    }
  }

  lemma OneBlamedOutput(state: string, bindings: map<string, string>, payload: Payload, x: Choice, y: Choice)
    requires FailsHonestly(state, bindings, payload, x) && FailsHonestly(state, bindings, payload, y)
      && !Writes(bindings, payload)
    requires TopLevel(payload).Some? ==>
      var doc := TopLevel(payload).value;
      forall k, l :: PathFails(doc, bindings, k) && PathFails(doc, bindings, l) ==> k == l
    ensures x.blame == y.blame
  {
    hide Extract, TopLevel;
    if TopLevel(payload).Some? {
      var doc := TopLevel(payload).value;
      assert PathFails(doc, bindings, x.blame.inputKey) && PathFails(doc, bindings, y.blame.inputKey);
    }
  }

  lemma ReportIsDetermined(env: Environment, ir: IR, w: World, c: Config, x: Choice, y: Choice)
    requires !c.phase.Halted? && Legal(ir, c, x) && Legal(ir, c, y) && Given(env, ir, w, c, x)
      && Given(env, ir, w, c, y)
    requires !BlameShows(env, ir, w, c)
    ensures Next(ir, w, c, x).phase == Next(ir, w, c, y).phase
  {
    hide Resolvable, Resolved, Writes, WrittenBy, Keyed, WithinBounds, FindState, Leave, Calls, BlamesBinding,
      FailsHonestly;
    hide TwoFail, TopLevel, PathFails;
    if !Resolvable(c.store, Reading(ir, c)) {
      OneBlame(ir, c, x, y);
    } else if Call(ir, w, c).Some? && x.exec.ExecOk?
      && !Writes(Pending(ir, c).value.outputBindings, x.exec.result.payload) {
      assert TopLevel(x.exec.result.payload) == Answered(env, ir, w, c);
      OneBlamedOutput(c.current, Pending(ir, c).value.outputBindings, x.exec.result.payload, x, y);
    }
  }

  lemma StepReportsOnce(env: Environment, ir: IR, w: World, c: Config, a: Config, b: Config)
    requires StepGiven(env, ir, w, c, a) && StepGiven(env, ir, w, c, b) && !BlameShows(env, ir, w, c)
    ensures a.phase == b.phase
  {
    hide Legal, Given, Next, BlameShows;
    var x :| Legal(ir, c, x) && Given(env, ir, w, c, x) && a == Next(ir, w, c, x);
    var y :| Legal(ir, c, y) && Given(env, ir, w, c, y) && b == Next(ir, w, c, y);
    ReportIsDetermined(env, ir, w, c, x, y);
  }

  lemma StepIsDetermined(env: Environment, ir: IR, w: World, c: Config, a: Config, b: Config)
    requires StepGiven(env, ir, w, c, a) && StepGiven(env, ir, w, c, b) && !OrderShows(env, ir, w, c)
    ensures a == b
  {
    hide Legal, Given, Next, OrderShows;
    var x :| Legal(ir, c, x) && Given(env, ir, w, c, x) && a == Next(ir, w, c, x);
    var y :| Legal(ir, c, y) && Given(env, ir, w, c, y) && b == Next(ir, w, c, y);
    NextIsDetermined(env, ir, w, c, x, y);
  }

  // ---------------------------------------------------------------------------------------------------------------
  // Where it does

  lemma StepTo(env: Environment, ir: IR, w: World, c: Config, ch: Choice)
    requires !c.phase.Halted? && Legal(ir, c, ch) && Given(env, ir, w, c, ch)
    ensures StepGiven(env, ir, w, c, Next(ir, w, c, ch))
  {
  }

  /** The end of an execution that blames binding `k`. */
  ghost function FailsOn(ir: IR, c: Config, k: string): Phase
    requires Fails(c.store, Reading(ir, c), k)
  {
    Halted(Failure(Data(DataReference(k, Reading(ir, c)[k], Resolve(c.store, Reading(ir, c)[k]).error))))
  }

  lemma Blames(env: Environment, ir: IR, w: World, c: Config, k: string) returns (a: Config)
    requires !c.phase.Halted? && Fails(c.store, Reading(ir, c), k)
    ensures StepGiven(env, ir, w, c, a) && a.phase == FailsOn(ir, c, k)
  {
    hide Resolve, Extract, Writes;
    var bindings := Reading(ir, c);
    var blame := DataReference(k, bindings[k], Resolve(c.store, bindings[k]).error);
    var ch := Choice(env.publisher(|c.trace|), ExecError, blame, map[]);
    assert !Resolvable(c.store, bindings);
    StepTo(env, ir, w, c, ch);
    a := Next(ir, w, c, ch);
  }

  /** An answer that fails to be stored, blamed on `k` with `partial` stored. */
  lemma WriteFails(env: Environment, ir: IR, w: World, c: Config, k: string, partial: map<string, string>)
      returns (a: Config)
    requires !c.phase.Halted? && Answered(env, ir, w, c).Some?
    requires var doc, bindings := Answered(env, ir, w, c).value, Pending(ir, c).value.outputBindings;
      PathFails(doc, bindings, k) && PartOf(partial, doc, bindings)
    ensures StepGiven(env, ir, w, c, a)
    ensures DataFailed(a) && a.phase.outcome.error.failure.DataReference? && a.phase.outcome.error.failure.inputKey == k
    ensures a.log != [] && a.log[|a.log| - 1].Wrote? && a.log[|a.log| - 1].vals == partial
  {
    hide Resolvable, Resolved, Extract, Writes, PartOf, Calls, FindState, Keyed, WrittenBy;
    var call := Call(ir, w, c).value;
    var answer := env.executor(Calls(c.log), call.0, call.1);
    var st := FindState(ir.states, c.current).value;
    var action := st.actions[c.phase.next];
    FoundStateIsKnown(ir, c.current);
    NoPathFails(action.outputBindings, answer.result.payload);
    var blame := DataReference(k, action.outputBindings[k],
      Extract(TopLevel(answer.result.payload).value, action.outputBindings[k]).error);
    var ch := Choice(true, answer, blame, partial);
    Settles(env, ir, w, c, st, call.1, ch);
    var asked := Dispatched(st.id, c.phase.next, Resolved(c.store, action.inputBindings), call.1);
    SettlesAt(c.(log := c.log + [asked]), st, action, c.phase.next, ch);
    StepTo(env, ir, w, c, ch);
    a := Next(ir, w, c, ch);
  }

  /** Of several bindings that do not all extract, one fails and another is there. */
  lemma FailingKeys(bindings: map<string, string>, doc: map<string, Json>) returns (k: string, l: string)
    requires |bindings| > 1 && !AllExtract(doc, bindings)
    ensures k in bindings && l in bindings && k != l && Extract(doc, bindings[k]).Err?
  {
    hide Extract;
    k :| k in bindings && Extract(doc, bindings[k]).Err?;
    var rest := bindings.Keys - {k};
    assert |rest| == |bindings.Keys| - 1 && |bindings.Keys| == |bindings|;
    l :| l in rest;
  }

  lemma TwoReports(env: Environment, ir: IR, w: World, c: Config) returns (a: Config, b: Config)
    requires !c.phase.Halted? && BlameShows(env, ir, w, c)
    ensures StepGiven(env, ir, w, c, a) && StepGiven(env, ir, w, c, b) && a.phase != b.phase
  {
    hide StepGiven, Reading, Resolve, PathFails, Pending, Answered;
    if TwoFail(ir, c) {
      var k, l :| k != l && Fails(c.store, Reading(ir, c), k) && Fails(c.store, Reading(ir, c), l);
      a := Blames(env, ir, w, c, k);
      b := Blames(env, ir, w, c, l);
    } else {
      var doc, bindings := Answered(env, ir, w, c).value, Pending(ir, c).value.outputBindings;
      var k, l :| k != l && PathFails(doc, bindings, k) && PathFails(doc, bindings, l);
      a := WriteFails(env, ir, w, c, k, map[]);
      b := WriteFails(env, ir, w, c, l, map[]);
    }
  }

  lemma TwoWays(env: Environment, ir: IR, w: World, c: Config) returns (a: Config, b: Config)
    requires !c.phase.Halted? && OrderShows(env, ir, w, c)
    ensures StepGiven(env, ir, w, c, a) && StepGiven(env, ir, w, c, b) && a != b
  {
    hide StepGiven, Reading, Extract, Pending, Answered;
    if BlameShows(env, ir, w, c) {
      a, b := TwoReports(env, ir, w, c);
    } else {
      var doc, bindings := Answered(env, ir, w, c).value, Pending(ir, c).value.outputBindings;
      var k, l := FailingKeys(bindings, doc);
      assert PathFails(doc, bindings, k) && !PathFails(doc, bindings, l);
      a := WriteFails(env, ir, w, c, k, map[]);
      b := WriteFails(env, ir, w, c, k, map[l := Extract(doc, bindings[l]).value]);
    }
  }

  /**
  The answers leave open what the next step reports if and only if two references about to be read cannot be, or the
  executor's answer is an object from which two of the outputs cannot be taken.
  */
  lemma BlameDependsOnMapOrderIff(env: Environment, ir: IR, w: World, c: Config)
    requires !c.phase.Halted?
    ensures (exists a, b :: StepGiven(env, ir, w, c, a) && StepGiven(env, ir, w, c, b) && a.phase != b.phase) <==>
            BlameShows(env, ir, w, c)
  {
    hide StepGiven, BlameShows;
    if BlameShows(env, ir, w, c) {
      var a, b := TwoReports(env, ir, w, c);
    } else {
      forall a, b | StepGiven(env, ir, w, c, a) && StepGiven(env, ir, w, c, b)
        ensures a.phase == b.phase
      {
        StepReportsOnce(env, ir, w, c, a, b);
      }
    }
  }

  /**
  They leave the next configuration open, which holds the store of a run that is over too, if and only if two references
  about to be read cannot be, or the answer is an object from which not all of several outputs can be taken.
  */
  lemma StepDependsOnMapOrderIff(env: Environment, ir: IR, w: World, c: Config)
    requires !c.phase.Halted?
    ensures (exists a, b :: StepGiven(env, ir, w, c, a) && StepGiven(env, ir, w, c, b) && a != b) <==>
      OrderShows(env, ir, w, c)
  {
    hide StepGiven, OrderShows;
    if OrderShows(env, ir, w, c) {
      var a, b := TwoWays(env, ir, w, c);
    } else {
      forall a, b | StepGiven(env, ir, w, c, a) && StepGiven(env, ir, w, c, b)
        ensures a == b
      {
        StepIsDetermined(env, ir, w, c, a, b);
      }
    }
  }

  // ---------------------------------------------------------------------------------------------------------------
  // Whole executions

  lemma NextAgrees(env: Environment, ir: IR, w: World, c: Config, x: Choice, y: Choice)
    requires !c.phase.Halted? && Given(env, ir, w, c, x) && Given(env, ir, w, c, y)
    ensures SameButBlame(Next(ir, w, c, x), Next(ir, w, c, y))
  {
    hide Resolvable, Resolved, Writes, WrittenBy, Keyed, WithinBounds, FindState, Leave, Calls;
  }

  lemma StepAgrees(env: Environment, ir: IR, w: World, c: Config, a: Config, b: Config)
    requires StepGiven(env, ir, w, c, a) && StepGiven(env, ir, w, c, b)
    ensures SameButBlame(a, b)
  {
    hide Legal, Given, Next, SameButBlame;
    var x :| Legal(ir, c, x) && Given(env, ir, w, c, x) && a == Next(ir, w, c, x);
    var y :| Legal(ir, c, y) && Given(env, ir, w, c, y) && b == Next(ir, w, c, y);
    NextAgrees(env, ir, w, c, x, y);
  }

  /**
  Two executions under the same answers are the same configuration by configuration. Only the last may differ, only
  where map order shows in the step to it, and then only in what a failed write has stored and in the blame for a data
  failure; the blame only where map order shows in that.
  */
  lemma {:induction false} ReplaysAgree(env: Environment, ir: IR, w: World, r: seq<Config>, s: seq<Config>, i: nat)
    requires IsRun(ir, w, r) && Driven(env, ir, w, r) && IsRun(ir, w, s) && Driven(env, ir, w, s)
    requires i < |r| && i < |s|
    ensures SameButBlame(r[i], s[i])
    ensures i + 1 < |r| || i + 1 < |s| ==> r[i] == s[i]
    ensures r[i] != s[i] ==> i > 0 && r[i - 1] == s[i - 1] && OrderShows(env, ir, w, r[i - 1])
    ensures r[i].phase != s[i].phase ==> BlameShows(env, ir, w, r[i - 1])
    decreases i
  {
    hide Init, Step, OrderShows, BlameShows;
    if i == 0 {
    } else {
      ReplaysAgree(env, ir, w, r, s, i - 1);
      assert StepGiven(env, ir, w, r[i - 1], r[i - 1 + 1]) && StepGiven(env, ir, w, s[i - 1], s[i - 1 + 1]);
      StepAgrees(env, ir, w, r[i - 1], r[i], s[i]);
      if !OrderShows(env, ir, w, r[i - 1]) {
        StepIsDetermined(env, ir, w, r[i - 1], r[i], s[i]);
      }
      if !BlameShows(env, ir, w, r[i - 1]) {
        StepReportsOnce(env, ir, w, r[i - 1], r[i], s[i]);
      }
    }
    if i + 1 < |r| {
      assert StepGiven(env, ir, w, r[i], r[i + 1]);
    }
    if i + 1 < |s| {
      assert StepGiven(env, ir, w, s[i], s[i + 1]);
    }
  }

  // ---------------------------------------------------------------------------------------------------------------
  // An accepted workflow whose replays differ

  /** A workflow that is over at once, with two outputs that look like references. */
  ghost function Sample(): Manifest {
    Manifest("m", "n", "s", map["s" := State("s", Terminal, [], [], map["x" := "$.a", "y" := "$.b"], 0)])
  }

  lemma SampleIsAccepted()
    ensures WellFormed(Sample())
  {
    var g := Sample().states;
    assert g["s"].kind.Terminal?;
    assert !(STATES_PREFIX <= "$.a") && !(STATES_PREFIX <= "$.b");
  }

  lemma SampleFails(ref: string)
    requires DATA_PREFIX <= ref
    ensures Resolve(map[], ref).Err?
  {
    hide CanonicalRefKey;
  }

  ghost predicate BothDriven(env: Environment, ir: IR, w: World, r: seq<Config>, s: seq<Config>) {
    r != [] && s != [] && IsRun(ir, w, r) && Driven(env, ir, w, r) && IsRun(ir, w, s) && Driven(env, ir, w, s)
  }

  lemma OneStepRun(env: Environment, ir: IR, w: World, a: Config)
    requires StepGiven(env, ir, w, Init(ir), a)
    ensures IsRun(ir, w, [Init(ir), a]) && Driven(env, ir, w, [Init(ir), a])
  {
    hide Next, Legal, Given;
    assert Step(ir, w, Init(ir), a);
  }

  /** Whatever the environment answers, `Build` accepts a workflow two of whose executions end differently. */
  lemma ReplaysCanDiffer(env: Environment, w: World, marshal: Marshal, workflowId: string)
    ensures WellFormed(Sample())
    ensures exists ir, r, s ::
      CompiledFrom(ir, Sample(), marshal) && BothDriven(env, ir, w, r, s) && Last(r).phase != Last(s).phase
  {
    hide StepGiven, IsRun, Driven, Resolve;
    SampleIsAccepted();
    var m := Sample();
    var st := ToStateIR("s", m.states["s"], marshal);
    var ir := IR(workflowId, m.namespace, m.initialState, [st]);
    assert ir.states[0].id == "s";
    assert CompiledFrom(ir, m, marshal);
    var c := Init(ir);
    assert FindState(ir.states, c.current) == Some(st);
    SampleFails("$.a");
    SampleFails("$.b");
    assert Reading(ir, c) == map["x" := "$.a", "y" := "$.b"];
    assert Fails(c.store, Reading(ir, c), "x") && Fails(c.store, Reading(ir, c), "y");
    var a, b := TwoReports(env, ir, w, c);
    OneStepRun(env, ir, w, a);
    OneStepRun(env, ir, w, b);
    assert BothDriven(env, ir, w, [c, a], [c, b]);
  }
}
