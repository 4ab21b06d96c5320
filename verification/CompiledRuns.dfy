/**
Compile time and run time together: what `Build`'s acceptance of a manifest promises about every run of the IR compiled
from it.
*/
module CompiledRuns {
  import opened Text
  import opened References
  import opened Compiler
  import opened WorkflowIR
  import opened DataContext
  import opened Machine
  import opened RunProperties

  /** A binding value the runtime can read: a literal, or a reference to a dot-free state and key. */
  ghost predicate Plain(ref: string) {
    DATA_PREFIX <= ref ==>
      var r := ParseBindingRef(ref);
      r.Some? && DotFree(r.value.state) && DotFree(r.value.key)
  }

  ghost predicate AllPlain(bindings: map<string, string>) {
    forall k :: k in bindings ==> Plain(bindings[k])
  }

  /** Everything a run may read, of any of the states. */
  ghost predicate PlainRefs(states: map<string, State>) {
    forall id :: id in states ==>
      && AllPlain(states[id].outputs)
      && forall i :: 0 <= i < |states[id].actions| ==> AllPlain(states[id].actions[i].inputBindings)
  }

  ghost predicate DotFreeNames(states: map<string, State>) {
    forall id :: id in states ==>
      && DotFree(id)
      && forall i, k :: 0 <= i < |states[id].actions| && k in states[id].actions[i].outputBindings ==> DotFree(k)
  }

  /** No output value looks like a reference to the runtime only. */
  ghost predicate PlainLiterals(states: map<string, State>) {
    forall id, name :: id in states && name in states[id].outputs && DATA_PREFIX <= states[id].outputs[name] ==>
      STATES_PREFIX <= states[id].outputs[name]
  }

  lemma DeclaredIsPlain(states: map<string, State>, ref: string)
    requires RefDeclared(states, ref) && DotFreeNames(states)
    ensures Plain(ref)
  {
    var r := ParseBindingRef(ref).value;
    assert Declares(states, r.state, r.key);
  }

  /** Naming states and outputs without dots is enough for `Build` to accept only what the runtime can read. */
  lemma DotFreeNamesArePlain(m: Manifest)
    requires WellFormed(m) && DotFreeNames(m.states) && PlainLiterals(m.states)
    ensures PlainRefs(m.states)
  {
    hide RefDeclared, Plain, DotFreeNames;
    forall id | id in m.states
      ensures AllPlain(m.states[id].outputs)
    {
      assert OutputsProper(m.states, id);
      forall name | name in m.states[id].outputs
        ensures Plain(m.states[id].outputs[name])
      {
        if STATES_PREFIX <= m.states[id].outputs[name] {
          DeclaredIsPlain(m.states, m.states[id].outputs[name]);
        } else {
          NotAReference(m.states[id].outputs[name]);
        }
      }
    }
    forall id, i | id in m.states && 0 <= i < |m.states[id].actions|
      ensures AllPlain(m.states[id].actions[i].inputBindings)
    {
      assert InputsDeclared(m.states, id);
      var bindings := m.states[id].actions[i].inputBindings;
      forall k | k in bindings
        ensures Plain(bindings[k])
      {
        DeclaredIsPlain(m.states, bindings[k]);
      }
    }
  }

  lemma NotAReference(ref: string)
    requires !(DATA_PREFIX <= ref)
    ensures Plain(ref)
  {
  }

  ghost predicate ReadError(e: RunError) {
    e.Data? && e.failure.DataReference? && e.failure.reason in {Malformed, NotFound}
  }

  /** Some state of the workflow reads the reference: an action does, or it is one of the state's outputs. */
  ghost predicate Read(states: map<string, State>, ref: string) {
    exists id :: id in states &&
      (ref in states[id].outputs.Values ||
        exists i :: 0 <= i < |states[id].actions| && ref in states[id].actions[i].inputBindings.Values)
  }

  /** A run of an accepted manifest never loses its way, and only a reference the runtime cannot read is malformed. */
  ghost predicate SafeError(states: map<string, State>, e: RunError) {
    && !e.StateNotFound?
    && (e.Data? ==> e.failure.DataReference?)
    && (e.Data? && e.failure.reason.Malformed? ==> Read(states, e.failure.reference) && !Plain(e.failure.reference))
  }

  ghost predicate SafeInv(states: map<string, State>, c: Config) {
    match c.phase
    case Halted(Success(_)) => true
    case Halted(Failure(e)) => SafeError(states, e)
    case _ => c.current in states
  }

  /** The IR a graph compiles to. */
  ghost predicate CompiledFrom(ir: IR, m: Manifest, marshal: Marshal) {
    Mirrors(ir, WorkflowGraph(m.name, m.namespace, m.initialState, m.states), marshal)
  }

  lemma StartsAtInitial(ir: IR, m: Manifest, marshal: Marshal)
    requires CompiledFrom(ir, m, marshal)
    ensures Init(ir).current == m.initialState
  {
  }

  lemma {:induction false} FollowErrors(cur: map<string, Json>, segments: seq<string>)
    requires segments != []
    ensures Follow(cur, segments).Err? ==> Follow(cur, segments).error in {PathNotFound, PathThroughScalar, NotScalar}
    decreases |segments|
  {
    if segments[0] !in cur || |segments| == 1 || AsObject(cur[segments[0]]).None? {
    } else {
      FollowErrors(AsObject(cur[segments[0]]).value, segments[1..]);
    }
  }

  lemma OutputBlame(state: string, bindings: map<string, string>, payload: Payload, e: DataContext.Failure)
    requires BlamesOutput(state, bindings, payload, e)
    ensures e.reason != Malformed && e.reason != NotFound
  {
    if TopLevel(payload).Some? && e.reference != "" {
      FollowErrors(TopLevel(payload).value, Split(e.reference));
    }
  }

  lemma NextIsSafe(m: Manifest, ir: IR, marshal: Marshal, w: World, c: Config, ch: Choice)
    requires TargetsKnown(m.states) && CompiledFrom(ir, m, marshal)
    requires !c.phase.Halted? && SafeInv(m.states, c) && Legal(ir, c, ch)
    ensures SafeInv(m.states, Next(ir, w, c, ch))
  {
    hide Plain, Resolvable, Resolved, BlamesBinding, BlamesOutput, Writes, WrittenBy, Keyed, Mirrors,
      WithinBounds, PartOf;
    hide Leave, ResolveTransition, MergePayload, Read, TargetsKnown, ToStateIR, StateMarshals, FindState;
    FindStateMirrors(ir, WorkflowGraph(m.name, m.namespace, m.initialState, m.states), marshal, c.current);
    if c.phase.Choosing? {
      ChoosingIsSafe(m, ir, marshal, w, c);
    } else if !Resolvable(c.store, Reading(ir, c)) {
      BlameIsRead(m, ir, marshal, c, ch.blame);
      MalformedNeedsUnplain(c.store, Reading(ir, c), ch.blame);
    } else if Pending(ir, c).Some? && ch.exec.ExecOk?
      && !Writes(Pending(ir, c).value.outputBindings, ch.exec.result.payload) {
      OutputBlame(c.current, Pending(ir, c).value.outputBindings, ch.exec.result.payload, ch.blame);
      OutputBlameShape(c.current, Pending(ir, c).value.outputBindings, ch.exec.result.payload, ch.blame);
    }
  }

  lemma ChoosingIsSafe(m: Manifest, ir: IR, marshal: Marshal, w: World, c: Config)
    requires TargetsKnown(m.states) && CompiledFrom(ir, m, marshal) && c.phase.Choosing? && c.current in m.states
    ensures FindState(ir.states, c.current).Some?
    ensures SafeInv(m.states, Leave(w, c, FindState(ir.states, c.current).value, c.phase.result))
  {
    hide Leave, Mirrors, TargetsKnown, FindState, SafeInv;
    FindStateMirrors(ir, WorkflowGraph(m.name, m.namespace, m.initialState, m.states), marshal, c.current);
    LeaveIsSafe(m, w, c, FindState(ir.states, c.current).value);
  }

  lemma OutputBlameShape(state: string, bindings: map<string, string>, payload: Payload, e: DataContext.Failure)
    requires BlamesOutput(state, bindings, payload, e)
    ensures e.DataReference?
  {
  }

  lemma BlameIsRead(m: Manifest, ir: IR, marshal: Marshal, c: Config, e: DataContext.Failure)
    requires CompiledFrom(ir, m, marshal) && BlamesBinding(c.store, Reading(ir, c), e)
    ensures e.DataReference? && Read(m.states, e.reference)
  {
    hide Mirrors, Resolve;
    FindStateMirrors(ir, WorkflowGraph(m.name, m.namespace, m.initialState, m.states), marshal, c.current);
    var k := e.inputKey;
    if Pending(ir, c).Some? {
      assert k in m.states[c.current].actions[c.phase.next].inputBindings;
    } else {
      assert k in m.states[c.current].outputs;
    }
  }

  lemma LeaveIsSafe(m: Manifest, w: World, c: Config, st: StateIR)
    requires TargetsKnown(m.states) && c.current in m.states && c.phase.Choosing?
    requires |st.transitions| == |m.states[c.current].transitions|
    requires forall i :: 0 <= i < |st.transitions| ==>
      st.transitions[i].targetState == m.states[c.current].transitions[i].targetState
    ensures SafeInv(m.states, Leave(w, c, st, c.phase.result))
  {
    hide Fires;
    var t := ResolveTransition(w, st.transitions, c.phase.result.eventType, c.ctx);
    if t.Some? {
      var i :| 0 <= i < |st.transitions| && st.transitions[i] == t.value;
      assert Targets(m.states, c.current, m.states[c.current].transitions[i].targetState);
    }
  }

  /**
  Every run of an accepted manifest, of any length and under any executor, guard and publisher: it is always at a state
  of the manifest, never fails for a missing state, and a malformed reference is one of the manifest's that is not
  plain. If all of them are plain, the only failed reads left are of outputs not (yet) in the data context.
  */
  lemma {:induction false} AcceptedRunsAreSafe(m: Manifest, ir: IR, marshal: Marshal, w: World, run: seq<Config>)
    requires WellFormed(m) && CompiledFrom(ir, m, marshal) && IsRun(ir, w, run)
    ensures SafeInv(m.states, Last(run))
    ensures PlainRefs(m.states) ==> NeverMalformed(Last(run))
    decreases |run|
  {
    hide Next, PlainRefs, AllInputsDeclared, AllOutputsProper, AllReached, Legal, Read, Plain;
    if |run| == 1 {
    } else {
      RunPrefix(ir, w, run);
      AcceptedRunsAreSafe(m, ir, marshal, w, run[..|run| - 1]);
      var c := Last(run[..|run| - 1]);
      var ch :| Legal(ir, c, ch) && Last(run) == Next(ir, w, c, ch);
      NextIsSafe(m, ir, marshal, w, c, ch);
    }
    if PlainRefs(m.states) {
      ReadIsPlain(m.states);
    }
  }

  ghost predicate NeverMalformed(c: Config) {
    c.phase.Halted? && c.phase.outcome.Failure? && c.phase.outcome.error.Data? ==>
      c.phase.outcome.error.failure.DataReference? && !c.phase.outcome.error.failure.reason.Malformed?
  }

  lemma ReadIsPlain(states: map<string, State>)
    requires PlainRefs(states)
    ensures forall ref :: Read(states, ref) ==> Plain(ref)
  {
    hide Plain;
  }

  /** Whatever the IR: a run that fails on a malformed reference had one to read that is not plain. */
  lemma MalformedNeedsUnplain(store: map<string, string>, bindings: map<string, string>, e: DataContext.Failure)
    requires BlamesBinding(store, bindings, e)
    ensures e.reason == Malformed <==> !Plain(e.reference)
  {
    hide ParseBindingRef;
    ReadFailures(store, e.reference);
  }

  /**
  And back: a run that comes to read a value that is not plain cannot get past it, and some run fails there with a
  malformed reference.
  */
  lemma UnplainIsFatal(ir: IR, w: World, c: Config, key: string)
    requires !c.phase.Halted? && key in Reading(ir, c) && !Plain(Reading(ir, c)[key])
    ensures forall c' :: Step(ir, w, c, c') ==>
      c'.phase.Halted? && c'.phase.outcome.Failure? && ReadError(c'.phase.outcome.error)
    ensures exists c' ::
      && Step(ir, w, c, c')
      && c'.phase.outcome == Failure(Data(DataReference(key, Reading(ir, c)[key], Malformed)))
  {
    hide Plain, Resolve;
    var reading := Reading(ir, c);
    var ref := reading[key];
    assert Resolve(c.store, ref) == Err(Malformed) by { UnplainIsMalformed(c.store, ref); }
    assert !Resolvable(c.store, reading);
    forall ch | Legal(ir, c, ch)
      ensures Next(ir, w, c, ch).phase == Halted(Failure(Data(ch.blame))) && ReadError(Data(ch.blame))
    {
      ReadFailureReason(c.store, ch.blame.reference);
    }
    var ch := Choice(true, ExecError, DataReference(key, ref, Malformed), map[]);
    assert Legal(ir, c, ch);
    assert Step(ir, w, c, Next(ir, w, c, ch));
  }

  lemma UnplainIsMalformed(store: map<string, string>, ref: string)
    requires !Plain(ref)
    ensures Resolve(store, ref) == Err(Malformed)
  {
    hide ParseBindingRef, Resolve;
    ReadFailures(store, ref);
  }

  lemma ReadFailureReason(store: map<string, string>, ref: string)
    ensures Resolve(store, ref).Err? ==> Resolve(store, ref).error in {Malformed, NotFound}
  {
  }

  /**
  A reference is not found, at any point of any run, exactly when it can be read and no action has written its output.
  */
  lemma NotFoundMeansUnwritten(ir: IR, w: World, run: seq<Config>, ref: string)
    requires IsRun(ir, w, run)
    ensures Resolve(Last(run).store, ref) == Err(NotFound) <==>
      && DATA_PREFIX <= ref && Plain(ref)
      && var r := ParseBindingRef(ref).value; (r.state, r.key) !in LastWrites(Last(run).log)
  {
    hide ParseBindingRef, LastWrites, OutputKey, AllFed, KnownStates, IsRun, Separate, CanonicalRefKey, DotFree,
      WritesInv;
    EveryRunsStore(ir, w, run);
    if DATA_PREFIX <= ref {
      ReadersAgree(ref);
    }
  }
}
