/**
What a run's past tells of its present: which answer decides where it goes, what it has dispatched, and what its
template context holds.
*/
module RunHistory {
  import opened Text
  import opened References
  import opened WorkflowIR
  import opened DataContext
  import opened Machine
  import opened RunProperties
  import opened Environments
  import opened RunLaws

  // ---------------------------------------------------------------------------------------------------------------
  // What decides where a run goes

  /** A run leaves a state along the first transition that is for the event and whose guards hold. */
  lemma EveryLeaveIsTheFirst(ir: IR, w: World, c: Config, d: Config)
    requires Step(ir, w, c, d) && c.phase.Choosing? && d.phase.Top?
    ensures FindState(ir.states, c.current).Some?
    ensures var ts, event := FindState(ir.states, c.current).value.transitions, c.phase.result.eventType;
      exists i ::
        && 0 <= i < |ts| && d.current == ts[i].targetState && Passes(w, ts[i], event, c.ctx)
        && forall j :: 0 <= j < i ==> !Passes(w, ts[j], event, c.ctx)
  {
    hide FindState, MergePayload, ResolveTransition, Legal, Fires, Passes;
    var st := FindState(ir.states, c.current).value;
    PassesIff(w, st.transitions, c.phase.result.eventType, c.ctx);
  }

  /** The last action waited for among the first `n`. */
  ghost predicate LastSync(st: StateIR, n: nat, k: int) {
    0 <= k < n <= |st.actions| && !st.actions[k].async && forall i :: k < i < n ==> st.actions[i].async
  }

  /** The result at hand is the answer to the last action waited for, and there is none if none was. */
  ghost predicate AnswersLast(env: Environment, st: StateIR, n: nat, last: Option<ActivityResult>, log: seq<Entry>) {
    && n <= |st.actions|
    && (last.Some? <==> exists k :: LastSync(st, n, k))
    && (forall k :: LastSync(st, n, k) ==>
          && |log| >= 2 && log[|log| - 2].Dispatched? && log[|log| - 2].state == st.id && log[|log| - 2].action == k
          && last.Some?
          && env.executor(Calls(log[..|log| - 2]), st.actions[k].capability, log[|log| - 2].payload) ==
            ExecOk(last.value))
  }

  ghost predicate ResultInv(env: Environment, ir: IR, c: Config) {
    match c.phase
    case Acting(n, last) =>
      var st := FindState(ir.states, c.current);
      st.Some? && AnswersLast(env, st.value, n, last, c.log)
    case Choosing(result) =>
      var st := FindState(ir.states, c.current);
      st.Some? && exists last ::
        && AnswersLast(env, st.value, |st.value.actions|, last, c.log)
        && result == if last.Some? then last.value else ActivityResult("", Empty)
    case _ => true
  }

  lemma AsyncKeepsLast(env: Environment, st: StateIR, n: nat, last: Option<ActivityResult>, log: seq<Entry>)
    requires AnswersLast(env, st, n, last, log) && n < |st.actions| && st.actions[n].async
    ensures AnswersLast(env, st, n + 1, last, log)
  {
    hide Calls;
    assert forall k :: LastSync(st, n + 1, k) <==> LastSync(st, n, k);
  }

  lemma SyncIsLast(env: Environment, st: StateIR, n: nat, result: ActivityResult, log: seq<Entry>, d: Entry, e: Entry)
    requires n < |st.actions| && !st.actions[n].async
    requires d.Dispatched? && d.state == st.id && d.action == n
    requires env.executor(Calls(log), st.actions[n].capability, d.payload) == ExecOk(result)
    ensures AnswersLast(env, st, n + 1, Some(result), log + [d] + [e])
  {
    hide Calls;
    var longer := log + [d] + [e];
    assert longer[..|longer| - 2] == log && longer[|longer| - 2] == d;
    assert LastSync(st, n + 1, n);
  }

  lemma ActKeepsResult(env: Environment, ir: IR, w: World, c: Config, st: StateIR, ch: Choice)
    requires c.phase.Acting? && FindState(ir.states, c.current) == Some(st) && ResultInv(env, ir, c)
    requires Given(env, ir, w, c, ch)
    ensures ResultInv(env, ir, Act(w, c, st, c.phase.next, c.phase.last, ch))
  {
    hide FindState, Resolved, Resolvable, Writes, WrittenBy, Keyed, Calls, AnswersLast, Ids;
    FoundStateIsKnown(ir, c.current);
    var n := c.phase.next;
    if n >= |st.actions| {
      assert n == |st.actions| by { WithinActions(env, st, n, c.phase.last, c.log); }
      assert AnswersLast(env, st, |st.actions|, c.phase.last, c.log);
    } else if st.actions[n].async {
      AsyncKeepsLast(env, st, n, c.phase.last, c.log);
    } else if Call(ir, w, c).Some? && ch.exec.ExecOk? {
      var a, answer := st.actions[n], ch.exec.result.payload;
      if Writes(a.outputBindings, answer) {
        var d := Dispatched(st.id, n, Resolved(c.store, a.inputBindings), Call(ir, w, c).value.1);
        SyncIsLast(env, st, n, ch.exec.result, c.log, d, Wrote(st.id, answer, WrittenBy(a.outputBindings, answer)));
      }
    }
  }

  lemma WithinActions(env: Environment, st: StateIR, n: nat, last: Option<ActivityResult>, log: seq<Entry>)
    requires AnswersLast(env, st, n, last, log)
    ensures n <= |st.actions|
  {
  }

  lemma StepKeepsResult(env: Environment, ir: IR, w: World, c: Config, ch: Choice)
    requires !c.phase.Halted? && ResultInv(env, ir, c) && Given(env, ir, w, c, ch)
    ensures ResultInv(env, ir, Next(ir, w, c, ch))
  {
    hide FindState, Act, Finish, Leave, AnswersLast;
    var st := FindState(ir.states, c.current);
    if st.Some? {
      match c.phase
      case Acting(_, _) => ActKeepsResult(env, ir, w, c, st.value, ch);
      case Top =>
        if st.value.kind.Terminal? {
          Finishes(w, c, st.value, ch);
        } else {
          NothingYet(env, st.value, c.log);
        }
      case Choosing(result) => Leaves(w, c, st.value, result);
    }
  }

  lemma Finishes(w: World, c: Config, st: StateIR, ch: Choice)
    ensures Finish(w, c, st, ch).phase.Halted? && Finish(w, c, st, ch).log == c.log
  {
  }

  lemma Leaves(w: World, c: Config, st: StateIR, result: ActivityResult)
    ensures var d := Leave(w, c, st, result); (d.phase.Halted? || d.phase.Top?) && d.log == c.log
  {
  }

  lemma NothingYet(env: Environment, st: StateIR, log: seq<Entry>)
    ensures AnswersLast(env, st, 0, None, log)
  {
  }

  /**
  Whenever a run chooses where to go, it chooses by the executor's answer to the last action of the state that was
  waited for, or by the empty result if none was.
  */
  lemma {:induction false} EveryChoiceIsTheLastAnswer(env: Environment, ir: IR, w: World, run: seq<Config>)
    requires IsRun(ir, w, run) && Driven(env, ir, w, run)
    ensures ResultInv(env, ir, Last(run))
    decreases |run|
  {
    hide Next, Legal, Given, Step, ResultInv;
    if |run| == 1 {
      assert ResultInv(env, ir, Init(ir)) by { NoResultYet(env, ir); }
    } else {
      RunPrefix(ir, w, run);
      DrivenPrefix(env, ir, w, run);
      EveryChoiceIsTheLastAnswer(env, ir, w, run[..|run| - 1]);
      var c := Last(run[..|run| - 1]);
      var ch :| Legal(ir, c, ch) && Given(env, ir, w, c, ch) && Last(run) == Next(ir, w, c, ch);
      StepKeepsResult(env, ir, w, c, ch);
    }
  }

  lemma NoResultYet(env: Environment, ir: IR)
    ensures ResultInv(env, ir, Init(ir))
  {
  }

  // ---------------------------------------------------------------------------------------------------------------
  // What a run dispatches

  /** A step that adds to the log adds the dispatch of the action due, rendered from its inputs over the context. */
  ghost predicate Renders(ir: IR, w: World, c: Config, d: Config) {
    d.log != c.log ==>
      && |d.log| > |c.log| && c.log <= d.log
      && var e := d.log[|c.log|];
      && e.Dispatched? && e.state == c.current && c.phase.Acting? && e.action == c.phase.next
      && exists a, m :: Due(ir, c, a) && Fed(c, a, e.inputs, m) && w.render(a.template, m) == Some(e.payload)
  }

  lemma EveryDispatchIsRendered(ir: IR, w: World, run: seq<Config>)
    requires IsRun(ir, w, run) && |run| > 1
    ensures Renders(ir, w, run[|run| - 2], Last(run))
  {
    hide StoreInv, WritesInv, Next, Legal, Due, Fed;
    RunPrefix(ir, w, run);
    var c := run[|run| - 2];
    EveryRunsStore(ir, w, run[..|run| - 1]);
    var ch :| Legal(ir, c, ch) && Last(run) == Next(ir, w, c, ch);
    if Call(ir, w, c).None? {
      QuietStep(ir, w, c, ch);
    } else {
      CallRenders(ir, w, c, ch);
    }
  }

  lemma CallRenders(ir: IR, w: World, c: Config, ch: Choice)
    requires StoreInv(ir, c) && !c.phase.Halted? && Call(ir, w, c).Some?
    ensures Renders(ir, w, c, Next(ir, w, c, ch))
  {
    hide FindState, Resolved, Resolvable, Writes, WrittenBy, Keyed, FedBy, Overlay, ReadsMatch, Faithful,
      KnownStates, AllFed,
      Separate, Ids, LastWrites;
    FoundStateIsKnown(ir, c.current);
    var st := FindState(ir.states, c.current).value;
    var a := st.actions[c.phase.next];
    var inputs := Resolved(c.store, a.inputBindings);
    InputsFromView(c.store, LastWrites(c.log), a.inputBindings);
    OverlayIs(c.ctx, inputs);
    assert Due(ir, c, a) && Fed(c, a, inputs, c.ctx + inputs);
    var d := Next(ir, w, c, ch);
    assert d.log[|c.log|] == Dispatched(st.id, c.phase.next, inputs, Call(ir, w, c).value.1);
  }

  /** The actions dispatched in a stretch of the log, in order. */
  ghost function Asked(log: seq<Entry>): seq<int> {
    if log == [] then []
    else
      var e := log[|log| - 1];
      Asked(log[..|log| - 1]) + if e.Dispatched? then [e.action] else []
  }

  /** Exactly the actions to be waited for among the first `n`, one after the other. */
  ghost predicate InOrder(st: StateIR, n: nat, asked: seq<int>) {
    && n <= |st.actions|
    && (forall i, j :: 0 <= i < j < |asked| ==> asked[i] < asked[j])
    && (forall k :: k in asked <==> 0 <= k < n && !st.actions[k].async)
  }

  /** The run has been in its state since `j`, where it came to it. */
  ghost predicate Since(run: seq<Config>, j: int) {
    && 0 <= j < |run| && run[j].phase.Top? && run[j].current == Last(run).current && run[j].log <= Last(run).log
    && forall i :: j < i < |run| ==> !run[i].phase.Top?
  }

  ghost predicate VisitInv(ir: IR, run: seq<Config>)
    requires run != []
  {
    var c := Last(run);
    match c.phase
    case Acting(n, _) =>
      && FindState(ir.states, c.current).Some?
      && exists j :: Since(run, j) && InOrder(FindState(ir.states, c.current).value, n, Asked(c.log[|run[j].log|..]))
    case Choosing(_) =>
      && FindState(ir.states, c.current).Some?
      && var st := FindState(ir.states, c.current).value;
      && exists j :: Since(run, j) && InOrder(st, |st.actions|, Asked(c.log[|run[j].log|..]))
    case _ => true
  }

  lemma SinceExtends(run: seq<Config>, j: int, d: Config)
    requires run != [] && Since(run, j) && !d.phase.Top? && d.current == Last(run).current && Last(run).log <= d.log
    ensures Since(run + [d], j)
  {
  }

  lemma AskedAppend(log: seq<Entry>, e: Entry)
    ensures Asked(log + [e]) == Asked(log) + if e.Dispatched? then [e.action] else []
  {
    assert (log + [e])[..|log|] == log;
  }

  lemma OneMoreInOrder(st: StateIR, n: nat, asked: seq<int>)
    requires InOrder(st, n, asked) && n < |st.actions|
    ensures InOrder(st, n + 1, if st.actions[n].async then asked else asked + [n])
  {
    if !st.actions[n].async {
      var more := asked + [n];
      forall i, j | 0 <= i < j < |more|
        ensures more[i] < more[j]
      {
        assert more[i] in asked;
      }
      assert forall k :: k in more <==> k in asked || k == n;
    }
  }

  /** One action: skipped, or dispatched and stored, or the end. */
  lemma ActAsks(w: World, c: Config, st: StateIR, n: nat, last: Option<ActivityResult>, ch: Choice)
    requires n < |st.actions|
    ensures var d := Act(w, c, st, n, last, ch);
      || d.phase.Halted?
      || (d.phase.Acting? && d.phase.next == n + 1 && d.current == c.current &&
          if st.actions[n].async then d.log == c.log
          else |d.log| == |c.log| + 2 && c.log <= d.log && d.log[|c.log|].Dispatched? && d.log[|c.log|].action == n
               && d.log[|c.log| + 1].Wrote?)
  {
    hide Resolvable, Resolved, Writes, WrittenBy, Keyed;
  }

  lemma PairAsked(log: seq<Entry>, longer: seq<Entry>, from: nat, n: nat)
    requires from <= |log| && |longer| == |log| + 2 && log <= longer
    requires longer[|log|].Dispatched? && longer[|log|].action == n && longer[|log| + 1].Wrote?
    ensures Asked(longer[from..]) == Asked(log[from..]) + [n]
  {
    var tail, d, e := log[from..], longer[|log|], longer[|log| + 1];
    assert longer[from..] == tail + [d] + [e];
    AskedAppend(tail, d);
    AskedAppend(tail + [d], e);
  }

  lemma ActKeepsVisit(ir: IR, w: World, run: seq<Config>, st: StateIR, ch: Choice)
    requires run != [] && VisitInv(ir, run) && Last(run).phase.Acting?
      && FindState(ir.states, Last(run).current) == Some(st)
    ensures var c := Last(run); VisitInv(ir, run + [Act(w, c, st, c.phase.next, c.phase.last, ch)])
  {
    hide FindState, Asked, InOrder;
    var c := Last(run);
    var n := c.phase.next;
    var d := Act(w, c, st, n, c.phase.last, ch);
    var j :| Since(run, j) && InOrder(st, n, Asked(c.log[|run[j].log|..]));
    InOrderBound(st, n, Asked(c.log[|run[j].log|..]));
    if n < |st.actions| {
      ActAsks(w, c, st, n, c.phase.last, ch);
      hide Act;
      if d.phase.Acting? {
        OneMoreInOrder(st, n, Asked(c.log[|run[j].log|..]));
        if !st.actions[n].async {
          PairAsked(c.log, d.log, |run[j].log|, n);
        }
        SinceExtends(run, j, d);
        assert (run + [d])[j] == run[j];
      }
    } else {
      SinceExtends(run, j, d);
      assert (run + [d])[j] == run[j];
    }
  }

  lemma InOrderBound(st: StateIR, n: nat, asked: seq<int>)
    requires InOrder(st, n, asked)
    ensures n <= |st.actions|
  {
  }

  lemma EnterBeginsVisit(ir: IR, run: seq<Config>, st: StateIR, ch: Choice)
    requires run != [] && Last(run).phase.Top? && FindState(ir.states, Last(run).current) == Some(st)
    ensures VisitInv(ir, run + [Enter(Last(run), ch)])
  {
    hide FindState;
    var c, r := Last(run), run + [Enter(Last(run), ch)];
    assert r[|run| - 1] == c && c.log[|c.log|..] == [];
    assert Since(r, |run| - 1);
    assert InOrder(st, 0, Asked(c.log[|r[|run| - 1].log|..]));
  }

  lemma StepKeepsVisit(ir: IR, w: World, run: seq<Config>, ch: Choice)
    requires run != [] && VisitInv(ir, run) && !Last(run).phase.Halted?
    ensures VisitInv(ir, run + [Next(ir, w, Last(run), ch)])
  {
    hide FindState, Act, Finish, Leave, Enter;
    var c := Last(run);
    var st := FindState(ir.states, c.current);
    if st.Some? {
      match c.phase
      case Acting(_, _) => ActKeepsVisit(ir, w, run, st.value, ch);
      case Top =>
        if st.value.kind.Terminal? {
          Finishes(w, c, st.value, ch);
        } else {
          EnterBeginsVisit(ir, run, st.value, ch);
        }
      case Choosing(result) => Leaves(w, c, st.value, result);
    }
  }

  /**
  By the time a run chooses where to go it has dispatched every action to be waited for of its state, once each and in
  order.
  */
  lemma {:induction false} EveryVisitDispatches(ir: IR, w: World, run: seq<Config>)
    requires IsRun(ir, w, run)
    ensures VisitInv(ir, run)
    decreases |run|
  {
    hide Next, Legal, VisitInv;
    if |run| == 1 {
      assert VisitInv(ir, [Init(ir)]) by { NoVisitYet(ir); }
      assert run == [Init(ir)];
    } else {
      RunPrefix(ir, w, run);
      var p := run[..|run| - 1];
      EveryVisitDispatches(ir, w, p);
      var ch :| Legal(ir, Last(p), ch) && Last(run) == Next(ir, w, Last(p), ch);
      StepKeepsVisit(ir, w, p, ch);
      assert run == p + [Last(run)];
    }
  }

  lemma NoVisitYet(ir: IR)
    ensures VisitInv(ir, [Init(ir)])
  {
  }

  // ---------------------------------------------------------------------------------------------------------------
  // What the template context holds

  /** On leaving a state after `i`, the result had the text under the key. */
  ghost predicate Says(run: seq<Config>, i: int, k: string, v: string) {
    && 0 <= i < |run| - 1 && run[i].phase.Choosing? && run[i + 1].phase.Top?
    && Tells(run[i].phase.result.payload, k, v)
  }

  ghost predicate Tells(payload: Payload, k: string, v: string) {
    k != "_event" && exists fields :: Decodes(payload, fields) && k in fields && fields[k] == Json.Text(v)
  }

  /** Nothing is said under the key after `i`. */
  ghost predicate LastWord(run: seq<Config>, i: int, k: string) {
    forall j, v :: i < j ==> !Says(run, j, k, v)
  }

  /** The context holds, under each key, the last thing said there, and nothing else. */
  ghost predicate ContextIs(run: seq<Config>, ctx: Ctx) {
    && (forall k :: k in ctx ==> exists i :: Says(run, i, k, ctx[k]) && LastWord(run, i, k))
    && (forall k, v, i :: Says(run, i, k, v) && LastWord(run, i, k) ==> k in ctx && ctx[k] == v)
  }

  lemma MergeIs(ctx: Ctx, payload: Payload)
    ensures var m := MergePayload(ctx, payload);
      && (forall k, v :: Tells(payload, k, v) ==> k in m && m[k] == v)
      && (forall k :: (forall v :: !Tells(payload, k, v)) ==> (k in m <==> k in ctx) && (k in m ==> m[k] == ctx[k]))
  {
    DecodesIff(payload);
    var fields := TopLevel(payload);
    if fields.Some? {
      var texts := TextFields(fields.value);
      forall k | k in texts
        ensures Tells(payload, k, texts[k])
      {
        assert Decodes(payload, fields.value);
      }
    }
  }

  lemma SaysStays(run: seq<Config>, d: Config)
    ensures forall i, k, v :: Says(run, i, k, v) ==> Says(run + [d], i, k, v)
    ensures forall i, k, v :: Says(run + [d], i, k, v) && i != |run| - 1 ==> Says(run, i, k, v)
  {
    hide Tells;
  }

  lemma QuietContext(run: seq<Config>, d: Config)
    requires run != [] && ContextIs(run, Last(run).ctx) && d.ctx == Last(run).ctx
    requires !(Last(run).phase.Choosing? && d.phase.Top?)
    ensures ContextIs(run + [d], d.ctx)
  {
    hide Says;
    var r := run + [d];
    SaysStays(run, d);
    SaysNothing(run, d, r, |run| - 1);
    assert forall i, k :: LastWord(run, i, k) <==> LastWord(r, i, k);
  }

  lemma SaysNothing(run: seq<Config>, d: Config, r: seq<Config>, n: int)
    requires run != [] && !(Last(run).phase.Choosing? && d.phase.Top?) && r == run + [d] && n == |run| - 1
    ensures forall k, v :: !Says(r, n, k, v)
  {
  }

  lemma SaysAtLast(run: seq<Config>, d: Config, k: string, v: string)
    requires run != [] && Last(run).phase.Choosing? && d.phase.Top?
    ensures Says(run + [d], |run| - 1, k, v) <==> Tells(Last(run).phase.result.payload, k, v)
  {
    hide Tells;
    var r := run + [d];
    assert r[|run| - 1] == Last(run) && r[|run|] == d;
  }

  lemma LeavingMerges(run: seq<Config>, d: Config)
    requires run != [] && ContextIs(run, Last(run).ctx) && Last(run).phase.Choosing? && d.phase.Top?
    requires d.ctx == MergePayload(Last(run).ctx, Last(run).phase.result.payload)
    ensures ContextIs(run + [d], d.ctx)
  {
    hide Says, Tells, MergePayload;
    var r, n, c := run + [d], |run| - 1, Last(run);
    var payload := c.phase.result.payload;
    SaysStays(run, d);
    MergeIs(c.ctx, payload);
    SaysInRange(r);
    forall k, v
      ensures Says(r, n, k, v) <==> Tells(payload, k, v)
    {
      SaysAtLast(run, d, k, v);
    }
    forall k | k in d.ctx
      ensures exists i :: Says(r, i, k, d.ctx[k]) && LastWord(r, i, k)
    {
      if v :| Tells(payload, k, v) {
        assert Says(r, n, k, d.ctx[k]) && LastWord(r, n, k);
      } else {
        var i :| Says(run, i, k, c.ctx[k]) && LastWord(run, i, k);
        assert LastWord(r, i, k);
      }
    }
    forall k, v, i | Says(r, i, k, v) && LastWord(r, i, k)
      ensures k in d.ctx && d.ctx[k] == v
    {
      if i != n {
        assert forall u :: !Tells(payload, k, u);
        assert LastWord(run, i, k);
      }
    }
  }

  lemma SaysInRange(run: seq<Config>)
    ensures forall i, k, v :: Says(run, i, k, v) ==> 0 <= i < |run| - 1
  {
  }

  lemma StepContext(ir: IR, w: World, c: Config, ch: Choice)
    requires !c.phase.Halted?
    ensures var d := Next(ir, w, c, ch);
      if c.phase.Choosing? && d.phase.Top? then d.ctx == MergePayload(c.ctx, c.phase.result.payload) else d.ctx == c.ctx
  {
    hide FindState, Resolvable, Resolved, Writes, WrittenBy, Keyed, WithinBounds, RuntimeChoice, MergePayload;
  }

  /** At every point of every run the template context holds exactly what the results it left states with last said. */
  lemma {:induction false} EveryRunsContext(ir: IR, w: World, run: seq<Config>)
    requires IsRun(ir, w, run)
    ensures ContextIs(run, Last(run).ctx)
    decreases |run|
  {
    hide Next, Legal, ContextIs, MergePayload;
    if |run| == 1 {
      assert ContextIs(run, Init(ir).ctx) by { NothingSaid(ir, run); }
    } else {
      RunPrefix(ir, w, run);
      var p, d := run[..|run| - 1], Last(run);
      EveryRunsContext(ir, w, p);
      var ch :| Legal(ir, Last(p), ch) && d == Next(ir, w, Last(p), ch);
      StepContext(ir, w, Last(p), ch);
      if Last(p).phase.Choosing? && d.phase.Top? {
        LeavingMerges(p, d);
      } else {
        QuietContext(p, d);
      }
      assert run == p + [d];
    }
  }

  lemma NothingSaid(ir: IR, run: seq<Config>)
    requires |run| == 1
    ensures ContextIs(run, Init(ir).ctx)
  {
  }
}
