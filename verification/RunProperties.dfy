/**
What holds of every run of the interpreter, of any length and under any behaviour of executor, publisher and guards:
the shape of its lifecycle events, the meaning of its data store, and what its dispatched actions were given.
*/
module RunProperties {
  import opened Text
  import opened References
  import opened WorkflowIR
  import opened DataContext
  import opened Machine

  // ---------------------------------------------------------------------------------------------------------------
  // Lifecycle events

  ghost predicate Edge(ir: IR, s: string, t: string) {
    var st := FindState(ir.states, s);
    st.Some? && exists i :: 0 <= i < |st.value.transitions| && st.value.transitions[i].targetState == t
  }

  ghost predicate AtTerminal(ir: IR, s: string) {
    FindState(ir.states, s).Some? && FindState(ir.states, s).value.kind.Terminal?
  }

  ghost predicate AtWork(ir: IR, s: string) {
    FindState(ir.states, s).Some? && !FindState(ir.states, s).value.kind.Terminal?
  }

  /** Entered and exited pairs of non-terminal states, along transitions of the IR, from one state to another. */
  ghost predicate Walk(ir: IR, trace: seq<Publish>, from: string, to: string)
    decreases |trace|
  {
    if trace == [] then from == to
    else
      var n := |trace|;
      n >= 2 && trace[n - 1].Exited? &&
      var s := trace[n - 1].state;
      trace[n - 2] == Entered(s) && AtWork(ir, s) && Edge(ir, s, to) && Walk(ir, trace[..n - 2], from, s)
  }

  /** The five ways a run can end, with the outcome each goes with. */
  ghost predicate Ending(ir: IR, tail: seq<Publish>, at: string, outcome: Outcome) {
    match outcome
    case Success(outputs) =>
      && tail == [Completed(at, outputs)]
      && AtTerminal(ir, at)
      && outputs.Keys == FindState(ir.states, at).value.outputs.Keys
      && WithinBounds(outputs)
    case Failure(e) =>
      || (tail == [] && FindState(ir.states, at).None? && e == StateNotFound(at))
      || (tail == [Failed(at)] && AtTerminal(ir, at) && (e.Data? || e.OutputTooLarge? || e.Unencodable?))
      || (tail == [Entered(at)] && AtWork(ir, at) && e.PublishError?)
      || (tail == [Entered(at), Failed(at)] && AtWork(ir, at)
        && (e.Data? || e.TemplateError? || e.DispatchError? || e.NoTransition?))
  }

  ghost predicate Ended(ir: IR, trace: seq<Publish>, at: string, outcome: Outcome) {
    exists walk, tail :: trace == walk + tail && Walk(ir, walk, ir.initialState, at) && Ending(ir, tail, at, outcome)
  }

  ghost predicate InState(ir: IR, trace: seq<Publish>, at: string) {
    && AtWork(ir, at)
    && trace != []
    && trace[|trace| - 1] == Entered(at)
    && Walk(ir, trace[..|trace| - 1], ir.initialState, at)
  }

  ghost predicate TraceInv(ir: IR, c: Config) {
    match c.phase
    case Top => Walk(ir, c.trace, ir.initialState, c.current)
    case Acting(_, _) => InState(ir, c.trace, c.current)
    case Choosing(_) => InState(ir, c.trace, c.current)
    case Halted(outcome) => Ended(ir, c.trace, c.current, outcome)
  }

  lemma EndsBecause(ir: IR, walk: seq<Publish>, tail: seq<Publish>, at: string, outcome: Outcome)
    requires Walk(ir, walk, ir.initialState, at) && Ending(ir, tail, at, outcome)
    ensures Ended(ir, walk + tail, at, outcome)
  {
  }

  /** Failing inside a state adds the failed event to the entered one. */
  lemma FailsInState(ir: IR, c: Config, e: RunError)
    requires InState(ir, c.trace, c.current)
    requires e.Data? || e.TemplateError? || e.DispatchError? || e.NoTransition?
    ensures TraceInv(ir, Halt(c, e, [Failed(c.current)]))
  {
    hide Walk;
    var walk, tail := c.trace[..|c.trace| - 1], [Entered(c.current), Failed(c.current)];
    assert c.trace + [Failed(c.current)] == walk + tail;
    EndsBecause(ir, walk, tail, c.current, Failure(e));
  }

  lemma FinishKeepsTrace(ir: IR, w: World, c: Config, ch: Choice)
    requires TraceInv(ir, c) && c.phase.Top? && AtTerminal(ir, c.current)
    ensures TraceInv(ir, Finish(w, c, FindState(ir.states, c.current).value, ch))
  {
    hide Walk;
    var st := FindState(ir.states, c.current).value;
    var c' := Finish(w, c, st, ch);
    if c'.phase.outcome.Success? {
      EndsBecause(ir, c.trace, [Completed(c.current, c'.phase.outcome.outputs)], c.current, c'.phase.outcome);
    } else {
      EndsBecause(ir, c.trace, [Failed(c.current)], c.current, c'.phase.outcome);
    }
  }

  lemma EnterKeepsTrace(ir: IR, c: Config, ch: Choice)
    requires TraceInv(ir, c) && c.phase.Top? && AtWork(ir, c.current)
    ensures TraceInv(ir, Enter(c, ch))
  {
    hide Walk;
    var trace := c.trace + [Entered(c.current)];
    assert trace[..|trace| - 1] == c.trace;
    EndsBecause(ir, c.trace, [Entered(c.current)], c.current, Failure(PublishError));
  }

  lemma ActKeepsTrace(ir: IR, w: World, c: Config, ch: Choice)
    requires TraceInv(ir, c) && c.phase.Acting?
    ensures TraceInv(ir, Act(w, c, FindState(ir.states, c.current).value, c.phase.next, c.phase.last, ch))
  {
    hide Walk, Resolvable, Resolved, Writes, WrittenBy, Keyed;
    var st := FindState(ir.states, c.current).value;
    var n := c.phase.next;
    if n < |st.actions| && !st.actions[n].async {
      var a := st.actions[n];
      FailsInState(ir, c, Data(ch.blame));
      FailsInState(ir, c, TemplateError(a.capability));
      if Resolvable(c.store, a.inputBindings) {
        var inputs := Resolved(c.store, a.inputBindings);
        var rendered := w.render(a.template, c.ctx + inputs);
        if rendered.Some? {
          SettleKeepsTrace(ir, c.(log := c.log + [Dispatched(st.id, n, inputs, rendered.value)]), st, a, n, ch);
        }
      }
    }
  }

  lemma SettleKeepsTrace(ir: IR, c: Config, st: StateIR, a: ActionIR, n: nat, ch: Choice)
    requires InState(ir, c.trace, c.current)
    ensures TraceInv(ir, Settle(c, st, a, n, ch))
  {
    hide Walk, Writes, WrittenBy, Keyed;
    FailsInState(ir, c, DispatchError(a.capability));
    if ch.exec.ExecOk? {
      FailsInState(ir, c.(store := c.store + Keyed(st.id, ch.partial),
        log := c.log + [Wrote(st.id, ch.exec.result.payload, ch.partial)]), Data(ch.blame));
    }
  }

  lemma LeaveKeepsTrace(ir: IR, w: World, c: Config)
    requires TraceInv(ir, c) && c.phase.Choosing?
    ensures TraceInv(ir, Leave(w, c, FindState(ir.states, c.current).value, c.phase.result))
  {
    var st := FindState(ir.states, c.current).value;
    var t := ResolveTransition(w, st.transitions, c.phase.result.eventType, c.ctx);
    if t.None? {
      FailsInState(ir, c, NoTransition(c.phase.result.eventType));
    } else {
      assert Edge(ir, c.current, t.value.targetState);
      var trace := c.trace + [Exited(c.current)];
      assert trace[..|trace| - 2] == c.trace[..|c.trace| - 1];
    }
  }

  lemma NextKeepsTrace(ir: IR, w: World, c: Config, ch: Choice)
    requires TraceInv(ir, c) && !c.phase.Halted?
    ensures TraceInv(ir, Next(ir, w, c, ch))
  {
    hide Walk, Act, Leave, Finish, Enter;
    if FindState(ir.states, c.current).None? {
      EndsBecause(ir, c.trace, [], c.current, Failure(StateNotFound(c.current)));
    } else {
      match c.phase
      case Top =>
        if AtTerminal(ir, c.current) {
          FinishKeepsTrace(ir, w, c, ch);
        } else {
          EnterKeepsTrace(ir, c, ch);
        }
      case Acting(_, _) => ActKeepsTrace(ir, w, c, ch);
      case Choosing(_) => LeaveKeepsTrace(ir, w, c);
    }
  }

  /**
  Lifecycle events of every run: entered and exited pairs along the IR's transitions from the initial state, then, if
  the run is over, one of the five endings. The run succeeds exactly when its last event is a completed one.
  */
  lemma {:induction false} EveryRunsEvents(ir: IR, w: World, run: seq<Config>)
    requires IsRun(ir, w, run)
    ensures TraceInv(ir, Last(run))
    ensures Last(run).phase.Halted? ==>
            var trace := Last(run).trace;
            Last(run).phase.outcome.Success? <==> trace != [] && trace[|trace| - 1].Completed?
    decreases |run|
  {
    hide Walk, Next;
    if |run| == 1 {
      assert Walk(ir, [], ir.initialState, ir.initialState) by { WalkNowhere(ir, ir.initialState); }
    } else {
      RunPrefix(ir, w, run);
      EveryRunsEvents(ir, w, run[..|run| - 1]);
      var c := Last(run[..|run| - 1]);
      var ch :| Legal(ir, c, ch) && Last(run) == Next(ir, w, c, ch);
      NextKeepsTrace(ir, w, c, ch);
    }
    if Last(run).phase.Halted? {
      LastEventTells(ir, Last(run).trace, Last(run).current, Last(run).phase.outcome);
    }
  }

  lemma WalkNowhere(ir: IR, s: string)
    ensures Walk(ir, [], s, s)
  {
  }

  lemma LastEventTells(ir: IR, trace: seq<Publish>, at: string, outcome: Outcome)
    requires Ended(ir, trace, at, outcome)
    ensures outcome.Success? <==> trace != [] && trace[|trace| - 1].Completed?
  {
    var walk, tail :| trace == walk + tail && Walk(ir, walk, ir.initialState, at) && Ending(ir, tail, at, outcome);
    if tail == [] {
      assert trace == walk;
    } else {
      assert trace[|trace| - 1] == tail[|tail| - 1];
    }
  }

  // ---------------------------------------------------------------------------------------------------------------
  // The data store

  type View = map<(string, string), string>

  ghost function Tagged(state: string, vals: map<string, string>): View {
    map k | k in vals :: (state, k) := vals[k]
  }

  /** The last value written for each state and key, over the whole history of writes. */
  ghost function LastWrites(log: seq<Entry>): View {
    if log == [] then map[]
    else
      var before := LastWrites(log[..|log| - 1]);
      match log[|log| - 1]
      case Wrote(state, _, vals) => before + Tagged(state, vals)
      case Dispatched(_, _, _, _) => before
  }

  ghost function Ids(ir: IR): set<string> {
    set i | 0 <= i < |ir.states| :: ir.states[i].id
  }

  /** The store holds exactly the view: every pair of the view under its own key, and nothing else. */
  ghost predicate Faithful(store: map<string, string>, view: View) {
    && (forall s, k :: (s, k) in view ==> OutputKey(s, k) in store && store[OutputKey(s, k)] == view[(s, k)])
    && (forall x :: x in store ==> exists s, k :: (s, k) in view && x == OutputKey(s, k))
  }

  /**
  What the runtime can look up is exactly what the view has under it: for dot-free states and keys the store is the
  view.
  */
  ghost predicate ReadsMatch(store: map<string, string>, view: View) {
    forall s, k :: DotFree(s) && DotFree(k) ==>
      && (OutputKey(s, k) in store <==> (s, k) in view)
      && ((s, k) in view ==> store[OutputKey(s, k)] == view[(s, k)])
  }

  ghost predicate KnownStates(ir: IR, view: View) {
    forall s, k :: (s, k) in view ==> s in Ids(ir)
  }

  lemma WriteStaysFaithful(ir: IR, store: map<string, string>, view: View, state: string, vals: map<string, string>)
    requires Separate(Ids(ir)) && Faithful(store, view) && KnownStates(ir, view) && state in Ids(ir)
    ensures Faithful(store + Keyed(state, vals), view + Tagged(state, vals))
  {
    hide OutputKey, Keyed, Separate, MayCollide, Ids;
    var keyed, store', view' := Keyed(state, vals), store + Keyed(state, vals), view + Tagged(state, vals);
    KeyedEntries(state, vals);
    forall s, k | (s, k) in view'
      ensures OutputKey(s, k) in store' && store'[OutputKey(s, k)] == view'[(s, k)]
    {
      if OutputKey(s, k) in keyed {
        var l :| l in vals && OutputKey(s, k) == OutputKey(state, l);
        SeparateKeysAreInjective(Ids(ir), s, k, state, l);
      }
    }
    forall x | x in store'
      ensures exists s, k :: (s, k) in view' && x == OutputKey(s, k)
    {
      if x in keyed {
        var k :| k in vals && x == OutputKey(state, k);
        assert (state, k) in view';
      } else {
        var s, k :| (s, k) in view && x == OutputKey(s, k);
        assert (s, k) in view';
      }
    }
  }

  /** Whatever the ids: a write changes what can be looked up for its own state and keys only. */
  lemma WriteKeepsReads(store: map<string, string>, view: View, state: string, vals: map<string, string>)
    requires ReadsMatch(store, view)
    ensures ReadsMatch(store + Keyed(state, vals), view + Tagged(state, vals))
  {
    hide OutputKey, Keyed, DotFree;
    var keyed, store', view' := Keyed(state, vals), store + Keyed(state, vals), view + Tagged(state, vals);
    KeyedEntries(state, vals);
    forall s, k | DotFree(s) && DotFree(k)
      ensures OutputKey(s, k) in store' <==> (s, k) in view'
      ensures (s, k) in view' ==> store'[OutputKey(s, k)] == view'[(s, k)]
    {
      if OutputKey(s, k) in keyed {
        var l :| l in vals && OutputKey(s, k) == OutputKey(state, l);
        ReadableKeyIsUnambiguous(s, k, state, l);
      }
    }
  }

  lemma LogWrite(log: seq<Entry>, state: string, answer: Payload, vals: map<string, string>)
    ensures LastWrites(log + [Wrote(state, answer, vals)]) == LastWrites(log) + Tagged(state, vals)
  {
    assert (log + [Wrote(state, answer, vals)])[..|log|] == log;
  }

  lemma LogDispatch(log: seq<Entry>, e: Entry)
    requires e.Dispatched?
    ensures LastWrites(log + [e]) == LastWrites(log)
  {
    assert (log + [e])[..|log|] == log;
  }

  /**
  A dispatch was given, for each reference, the value last written for its state and key; for each literal, itself.
  */
  ghost predicate FedFrom(ir: IR, view: View, e: Entry) {
    e.Dispatched? ==>
      var st := FindState(ir.states, e.state);
      && st.Some?
      && e.action < |st.value.actions|
      && !st.value.actions[e.action].async
      && FedBy(view, st.value.actions[e.action].inputBindings, e.inputs)
  }

  ghost predicate FedBy(view: View, bindings: map<string, string>, inputs: map<string, string>) {
    && inputs.Keys == bindings.Keys
    && forall k :: k in bindings ==> FedRef(view, bindings[k], inputs[k])
  }

  ghost predicate FedRef(view: View, ref: string, value: string) {
    if DATA_PREFIX <= ref
    then
      var r := ParseBindingRef(ref);
      r.Some? && (r.value.state, r.value.key) in view && value == view[(r.value.state, r.value.key)]
    else value == ref
  }

  lemma ResolvedFromView(store: map<string, string>, view: View, ref: string)
    requires ReadsMatch(store, view) && Resolve(store, ref).Ok?
    ensures FedRef(view, ref, Resolve(store, ref).value)
  {
    hide OutputKey, ParseBindingRef, CanonicalRefKey, DotFree;
    if DATA_PREFIX <= ref {
      ReadFailures(store, ref);
      ReadersAgree(ref);
    }
  }

  lemma InputsFromView(store: map<string, string>, view: View, bindings: map<string, string>)
    requires ReadsMatch(store, view) && Resolvable(store, bindings)
    ensures FedBy(view, bindings, Resolved(store, bindings))
  {
    hide ReadsMatch, FedRef, Resolve;
    forall k | k in bindings
      ensures FedRef(view, bindings[k], Resolved(store, bindings)[k])
    {
      ResolvedFromView(store, view, bindings[k]);
    }
  }

  ghost predicate AllFed(ir: IR, log: seq<Entry>) {
    forall i :: 0 <= i < |log| ==> FedFrom(ir, LastWrites(log[..i]), log[i])
  }

  ghost predicate StoreInv(ir: IR, c: Config) {
    && ReadsMatch(c.store, LastWrites(c.log))
    && KnownStates(ir, LastWrites(c.log))
    && AllFed(ir, c.log)
    && (Separate(Ids(ir)) ==> Faithful(c.store, LastWrites(c.log)))
  }

  lemma AppendFed(ir: IR, log: seq<Entry>, e: Entry)
    requires AllFed(ir, log) && FedFrom(ir, LastWrites(log), e)
    ensures AllFed(ir, log + [e])
  {
    hide FedFrom, LastWrites;
    var log' := log + [e];
    forall i | 0 <= i < |log'|
      ensures FedFrom(ir, LastWrites(log'[..i]), log'[i])
    {
      assert log'[..i] == log[..i];
      assert i == |log| ==> log[..i] == log;
    }
  }

  lemma DispatchKeepsStore(ir: IR, c: Config, e: Entry)
    requires StoreInv(ir, c) && e.Dispatched? && FedFrom(ir, LastWrites(c.log), e)
    ensures StoreInv(ir, c.(log := c.log + [e]))
  {
    hide ReadsMatch, Faithful, KnownStates, FedFrom, AllFed, LastWrites, Separate, Ids;
    LogDispatch(c.log, e);
    AppendFed(ir, c.log, e);
  }

  lemma WriteKeepsStore(ir: IR, c: Config, state: string, answer: Payload, vals: map<string, string>)
    requires StoreInv(ir, c) && state in Ids(ir)
    ensures StoreInv(ir, c.(store := c.store + Keyed(state, vals), log := c.log + [Wrote(state, answer, vals)]))
  {
    hide ReadsMatch, Faithful, AllFed, LastWrites, Keyed, Separate, Ids;
    LogWrite(c.log, state, answer, vals);
    AppendFed(ir, c.log, Wrote(state, answer, vals));
    WriteKeepsReads(c.store, LastWrites(c.log), state, vals);
    if Separate(Ids(ir)) {
      WriteStaysFaithful(ir, c.store, LastWrites(c.log), state, vals);
    }
  }

  /** The invariant speaks of store and log only. */
  lemma StoreInvFrame(ir: IR, c: Config, c': Config)
    requires StoreInv(ir, c) && c'.store == c.store && c'.log == c.log
    ensures StoreInv(ir, c')
  {
    hide ReadsMatch, Faithful, KnownStates, AllFed, LastWrites, Separate, Ids;
  }

  lemma SettleKeepsStore(ir: IR, c: Config, st: StateIR, a: ActionIR, n: nat, ch: Choice)
    requires StoreInv(ir, c) && st.id in Ids(ir)
    ensures StoreInv(ir, Settle(c, st, a, n, ch))
  {
    hide StoreInv, Keyed, Separate, Writes, WrittenBy;
    var c' := Settle(c, st, a, n, ch);
    if ch.exec.ExecError? {
      StoreInvFrame(ir, c, c');
    } else {
      var vals := if Writes(a.outputBindings, ch.exec.result.payload)
                  then WrittenBy(a.outputBindings, ch.exec.result.payload) else ch.partial;
      WriteKeepsStore(ir, c, st.id, ch.exec.result.payload, vals);
      StoreInvFrame(ir, c.(store := c.store + Keyed(st.id, vals),
        log := c.log + [Wrote(st.id, ch.exec.result.payload, vals)]), c');
    }
  }

  lemma FoundStateIsKnown(ir: IR, id: string)
    requires FindState(ir.states, id).Some?
    ensures FindState(ir.states, id).value.id == id && id in Ids(ir)
  {
  }

  lemma ActKeepsStore(ir: IR, w: World, c: Config, st: StateIR, n: nat, last: Option<ActivityResult>, ch: Choice)
    requires StoreInv(ir, c) && FindState(ir.states, c.current) == Some(st)
    ensures StoreInv(ir, Act(w, c, st, n, last, ch))
  {
    hide StoreInv, Keyed, Separate, Writes, WrittenBy, Settle, Resolvable, Resolved, FedBy, Ids;
    FoundStateIsKnown(ir, c.current);
    var c' := Act(w, c, st, n, last, ch);
    if n < |st.actions| && !st.actions[n].async && Resolvable(c.store, st.actions[n].inputBindings) {
      var a := st.actions[n];
      var inputs := Resolved(c.store, a.inputBindings);
      var rendered := w.render(a.template, c.ctx + inputs);
      if rendered.Some? {
        var e := Dispatched(st.id, n, inputs, rendered.value);
        FedByStore(ir, c, st, n, e);
        DispatchKeepsStore(ir, c, e);
        SettleKeepsStore(ir, c.(log := c.log + [e]), st, a, n, ch);
        return;
      }
    }
    StoreInvFrame(ir, c, c');
  }

  lemma FedByStore(ir: IR, c: Config, st: StateIR, n: nat, e: Entry)
    requires StoreInv(ir, c) && FindState(ir.states, c.current) == Some(st) && n < |st.actions| && !st.actions[n].async
    requires Resolvable(c.store, st.actions[n].inputBindings)
    requires e.Dispatched? && e.state == c.current && e.action == n
      && e.inputs == Resolved(c.store, st.actions[n].inputBindings)
    ensures FedFrom(ir, LastWrites(c.log), e)
  {
    hide Resolvable, Resolved, ReadsMatch, Faithful, AllFed, KnownStates, LastWrites, FedBy, Separate, Ids;
    InputsFromView(c.store, LastWrites(c.log), st.actions[n].inputBindings);
  }

  lemma NextKeepsStore(ir: IR, w: World, c: Config, ch: Choice)
    requires StoreInv(ir, c) && !c.phase.Halted?
    ensures StoreInv(ir, Next(ir, w, c, ch))
  {
    hide StoreInv, Act, Separate, Ids;
    var st := FindState(ir.states, c.current);
    if st.Some? && c.phase.Acting? {
      ActKeepsStore(ir, w, c, st.value, c.phase.next, c.phase.last, ch);
    } else {
      StoreInvFrame(ir, c, Next(ir, w, c, ch));
    }
  }

  // ---------------------------------------------------------------------------------------------------------------
  // What is written

  ghost function ActionOf(ir: IR, e: Entry): Option<ActionIR> {
    var st := FindState(ir.states, e.state);
    if st.Some? && e.Dispatched? && e.action < |st.value.actions| then Some(st.value.actions[e.action]) else None
  }

  /** Values taken from an answer by output bindings: each the scalar its path leads to in the object answered. */
  ghost predicate TakenFrom(vals: map<string, string>, bindings: map<string, string>, answer: Payload) {
    forall k :: k in vals ==> k in bindings && exists doc :: Decodes(answer, doc) && Yields(doc, bindings[k], vals[k])
  }

  lemma PartIsTaken(vals: map<string, string>, bindings: map<string, string>, answer: Payload)
    requires TopLevel(answer).None? ==> vals == map[]
    requires TopLevel(answer).Some? ==> PartOf(vals, TopLevel(answer).value, bindings)
    ensures TakenFrom(vals, bindings, answer)
  {
    hide Extract, Yields, TopLevel, Decodes;
    DecodesIff(answer);
    forall k | k in vals
      ensures k in bindings && exists doc :: Decodes(answer, doc) && Yields(doc, bindings[k], vals[k])
    {
      var doc := TopLevel(answer).value;
      ExtractIff(doc, bindings[k]);
      assert Decodes(answer, doc);
    }
  }

  lemma AllAreTaken(bindings: map<string, string>, answer: Payload)
    requires Writes(bindings, answer)
    ensures TakenFrom(WrittenBy(bindings, answer), bindings, answer)
      && WrittenBy(bindings, answer).Keys == bindings.Keys
  {
    hide Extract, TopLevel;
    if bindings != map[] {
      PartIsTaken(WrittenBy(bindings, answer), bindings, answer);
    }
  }

  /**
  A write follows the dispatch of an action of its state and is what that action's output bindings take from the answer,
  a dispatch is followed by its write; only the last entry of a failed run may fall short.
  */
  ghost predicate EntryOk(ir: IR, log: seq<Entry>, i: nat, failed: bool)
    requires i < |log|
  {
    var short := failed && i == |log| - 1;
    match log[i]
    case Dispatched(_, _, _, _) => ActionOf(ir, log[i]).Some? && (short || (i + 1 < |log| && log[i + 1].Wrote?))
    case Wrote(state, answer, vals) =>
      && i > 0 && log[i - 1].state == state && ActionOf(ir, log[i - 1]).Some?
      && TakenFrom(vals, ActionOf(ir, log[i - 1]).value.outputBindings, answer)
      && (short || vals.Keys == ActionOf(ir, log[i - 1]).value.outputBindings.Keys)
  }

  ghost predicate HasFailed(c: Config) {
    c.phase.Halted? && c.phase.outcome.Failure?
  }

  ghost predicate WritesInv(ir: IR, c: Config) {
    forall i :: 0 <= i < |c.log| ==> EntryOk(ir, c.log, i, HasFailed(c))
  }

  lemma EntryStays(ir: IR, log: seq<Entry>, longer: seq<Entry>, i: nat, failed: bool)
    requires i < |log| && log <= longer && EntryOk(ir, log, i, false)
    ensures EntryOk(ir, longer, i, failed)
  {
    hide ActionOf, TakenFrom;
  }

  lemma WritesInvFrame(ir: IR, c: Config, c': Config)
    requires WritesInv(ir, c) && !c.phase.Halted? && c'.log == c.log
    ensures WritesInv(ir, c')
  {
    hide EntryOk;
    forall i | 0 <= i < |c'.log|
      ensures EntryOk(ir, c'.log, i, HasFailed(c'))
    {
      assert EntryOk(ir, c.log, i, HasFailed(c));
      EntryStays(ir, c.log, c'.log, i, HasFailed(c'));
    }
  }

  lemma DispatchFailedOk(ir: IR, c: Config, c': Config, e: Entry)
    requires WritesInv(ir, c) && !c.phase.Halted? && c'.log == c.log + [e] && HasFailed(c')
    requires e.Dispatched? && ActionOf(ir, e).Some?
    ensures WritesInv(ir, c')
  {
    hide ActionOf, TakenFrom;
    forall i | 0 <= i < |c'.log|
      ensures EntryOk(ir, c'.log, i, true)
    {
      if i < |c.log| {
        assert EntryOk(ir, c.log, i, HasFailed(c));
        EntryStays(ir, c.log, c'.log, i, true);
      }
    }
  }

  lemma WriteOk(ir: IR, c: Config, c': Config, e: Entry, answer: Payload, vals: map<string, string>)
    requires WritesInv(ir, c) && !c.phase.Halted? && c'.log == c.log + [e] + [Wrote(e.state, answer, vals)]
    requires e.Dispatched? && ActionOf(ir, e).Some?
    requires TakenFrom(vals, ActionOf(ir, e).value.outputBindings, answer)
    requires HasFailed(c') || vals.Keys == ActionOf(ir, e).value.outputBindings.Keys
    ensures WritesInv(ir, c')
  {
    hide ActionOf, TakenFrom;
    var failed, log := HasFailed(c'), c'.log;
    assert log[|c.log|] == e && log[|c.log| + 1] == Wrote(e.state, answer, vals);
    forall i | 0 <= i < |log|
      ensures EntryOk(ir, log, i, failed)
    {
      if i < |c.log| {
        assert EntryOk(ir, c.log, i, HasFailed(c));
        EntryStays(ir, c.log, log, i, failed);
      }
    }
  }

  lemma SettleKeepsWrites(ir: IR, c: Config, st: StateIR, n: nat, e: Entry, ch: Choice)
    requires WritesInv(ir, c) && !c.phase.Halted? && FindState(ir.states, st.id) == Some(st) && n < |st.actions|
    requires e.Dispatched? && e.state == st.id && e.action == n
    requires ch.exec.ExecOk? ==> FailsHonestly(st.id, st.actions[n].outputBindings, ch.exec.result.payload, ch)
    ensures WritesInv(ir, Settle(c.(log := c.log + [e]), st, st.actions[n], n, ch))
  {
    hide WritesInv, Writes, WrittenBy, PartOf, TopLevel, BlamesOutput, FindState, Keyed, TakenFrom;
    var a, c' := st.actions[n], Settle(c.(log := c.log + [e]), st, st.actions[n], n, ch);
    if ch.exec.ExecError? {
      DispatchFailedOk(ir, c, c', e);
    } else {
      var answer := ch.exec.result.payload;
      if Writes(a.outputBindings, answer) {
        AllAreTaken(a.outputBindings, answer);
      } else {
        PartIsTaken(ch.partial, a.outputBindings, answer);
      }
      WriteOk(ir, c, c', e, answer,
        if Writes(a.outputBindings, answer) then WrittenBy(a.outputBindings, answer) else ch.partial);
    }
  }

  lemma ActKeepsWrites(ir: IR, w: World, c: Config, ch: Choice)
    requires WritesInv(ir, c) && c.phase.Acting? && FindState(ir.states, c.current).Some? && Legal(ir, c, ch)
    ensures WritesInv(ir, Act(w, c, FindState(ir.states, c.current).value, c.phase.next, c.phase.last, ch))
  {
    hide WritesInv, Settle, Resolvable, Resolved, FindState, FailsHonestly, BlamesBinding, Ids;
    FoundStateIsKnown(ir, c.current);
    var st, n := FindState(ir.states, c.current).value, c.phase.next;
    var c' := Act(w, c, st, n, c.phase.last, ch);
    if n < |st.actions| && !st.actions[n].async && Resolvable(c.store, st.actions[n].inputBindings) {
      var inputs := Resolved(c.store, st.actions[n].inputBindings);
      var rendered := w.render(st.actions[n].template, c.ctx + inputs);
      if rendered.Some? {
        SettleKeepsWrites(ir, c, st, n, Dispatched(st.id, n, inputs, rendered.value), ch);
        return;
      }
    }
    WritesInvFrame(ir, c, c');
  }

  /**
  Whatever the state ids: everything written is an executed action's outputs, taken from its answer, and all of them
  unless the run has failed.
  */
  lemma {:induction false} EveryRunsWrites(ir: IR, w: World, run: seq<Config>)
    requires IsRun(ir, w, run)
    ensures WritesInv(ir, Last(run))
    decreases |run|
  {
    hide WritesInv, Act, Legal, Finish, Leave, FindState;
    if |run| == 1 {
      NothingWritten(ir);
    } else {
      RunPrefix(ir, w, run);
      EveryRunsWrites(ir, w, run[..|run| - 1]);
      var c := Last(run[..|run| - 1]);
      var ch :| Legal(ir, c, ch) && Last(run) == Next(ir, w, c, ch);
      if c.phase.Acting? && FindState(ir.states, c.current).Some? {
        ActKeepsWrites(ir, w, c, ch);
      } else {
        QuietStep(ir, w, c, ch);
        WritesInvFrame(ir, c, Last(run));
      }
    }
  }

  lemma QuietStep(ir: IR, w: World, c: Config, ch: Choice)
    requires !c.phase.Halted? && Call(ir, w, c).None?
    ensures Next(ir, w, c, ch).log == c.log
  {
    hide FindState, Resolvable, Resolved, WithinBounds, ResolveTransition, MergePayload;
  }

  lemma NothingWritten(ir: IR)
    ensures WritesInv(ir, Init(ir))
  {
  }

  /**
  At every point of every run what the runtime can look up is exactly what was last written there, and every action
  dispatched so far was given, for each of its references, the value last written when it was dispatched. If no state id
  extends another by `.output` the whole store is the last-write view of the executed actions' outputs; dot-free ids
  never do (`DotFreeIsSeparate`), and two ids that do can overwrite each other's outputs (`OutputKeysCollideIff`),
  though only under keys no reference can name.
  */
  lemma {:induction false} EveryRunsStore(ir: IR, w: World, run: seq<Config>)
    requires IsRun(ir, w, run)
    ensures StoreInv(ir, Last(run)) && WritesInv(ir, Last(run))
    decreases |run|
  {
    hide StoreInv, WritesInv, Next, Separate, Legal, Ids;
    EveryRunsWrites(ir, w, run);
    if |run| == 1 {
      EmptyStore(ir);
    } else {
      RunPrefix(ir, w, run);
      EveryRunsStore(ir, w, run[..|run| - 1]);
      var c := Last(run[..|run| - 1]);
      var ch :| Legal(ir, c, ch) && Last(run) == Next(ir, w, c, ch);
      NextKeepsStore(ir, w, c, ch);
    }
  }

  lemma EmptyStore(ir: IR)
    ensures StoreInv(ir, Init(ir))
  {
  }

  lemma EnterStep(ir: IR, w: World, c: Config) returns (d: Config)
    requires c.phase == Top && AtWork(ir, c.current)
    ensures Step(ir, w, c, d) && d.phase == Acting(0, None) && d.current == c.current && d.store == c.store
      && d.log == c.log
  {
    var ch := Choice(true, ExecError, DataReference("", "", NotFound), map[]);
    assert Legal(ir, c, ch);
    d := Next(ir, w, c, ch);
  }
}
