/**
The workflow compiler's graph builder: `Build` and its validators, which visit Go maps in an unspecified order and
collect every error, against the order-free multiset of errors and the declarative notion of a well-formed manifest.
*/
module Compiler {
  import opened Text
  import opened References
  import opened Collections

  datatype StateType = Normal | Terminal | HumanInTheLoop

  /** A YAML scalar or tree: only strings are ever looked into. */
  datatype Value = Str(text: string) | Other(repr: string)

  datatype Action = Action(
    capability: string,
    input: map<string, Value>,
    outputBindings: map<string, string>,
    inputBindings: map<string, string>,
    async: bool)

  datatype Transition = Transition(
    eventType: string,
    targetState: string,
    guard: string,
    conditions: map<string, string>)

  datatype State = State(
    id: string,
    kind: StateType,
    actions: seq<Action>,
    transitions: seq<Transition>,
    outputs: map<string, string>,
    line: nat)

  datatype Manifest = Manifest(name: string, namespace: string, initialState: string, states: map<string, State>)

  datatype WorkflowGraph = WorkflowGraph(name: string, namespace: string, initialState: string,
      states: map<string, State>)

  datatype ErrorCode = UnknownStateReference | NoTerminalState | OrphanState | InvalidFieldValue

  /** Where a reference is used: an action's input, or a terminal state's output. */
  datatype Site = InputOf(state: string, action: nat, key: string) | OutputOf(state: string, name: string)

  /** The message templates, with the values formatted into them. */
  datatype Message =
    | InitialUndefined(initial: string)
    | TargetUndefined(source: string, target: string)
    | NoTerminal
    | Untargeted(state: string)
    | MalformedRef(site: Site, ref: string)
    | UnknownSource(site: Site, source: string)
    | UndeclaredOutput(site: Site, key: string, source: string)
    | OutputsOffTerminal(state: string)

  datatype ParseError = ParseError(code: ErrorCode, message: Message, line: nat, stateName: string)

  // ---------------------------------------------------------------------------------------------------------------
  // What a well-formed manifest is

  ghost predicate Targets(m: map<string, State>, id: string, target: string) {
    id in m && exists i :: 0 <= i < |m[id].transitions| && m[id].transitions[i].targetState == target
  }

  /** Some action of state `id` publishes `key`. */
  ghost predicate Declares(m: map<string, State>, id: string, key: string) {
    id in m && exists i :: 0 <= i < |m[id].actions| && key in m[id].actions[i].outputBindings
  }

  /** The reference parses and names an output some action of the named state declares. */
  ghost predicate RefDeclared(m: map<string, State>, ref: string) {
    var r := ParseBindingRef(ref);
    r.Some? && Declares(m, r.value.state, r.value.key)
  }

  ghost predicate ActionDeclared(m: map<string, State>, a: Action) {
    forall key :: key in a.inputBindings ==> RefDeclared(m, a.inputBindings[key])
  }

  ghost predicate InputsDeclared(m: map<string, State>, id: string) {
    id in m && forall i :: 0 <= i < |m[id].actions| ==> ActionDeclared(m, m[id].actions[i])
  }

  ghost predicate OutputsProper(m: map<string, State>, id: string) {
    id in m &&
    (m[id].outputs != map[] ==> m[id].kind.Terminal?) &&
    forall name :: name in m[id].outputs && STATES_PREFIX <= m[id].outputs[name] ==> RefDeclared(m, m[id].outputs[name])
  }

  ghost predicate TargetsKnown(m: map<string, State>) {
    forall id, target :: Targets(m, id, target) ==> target in m
  }

  ghost predicate HasTerminal(m: map<string, State>) {
    exists id :: id in m && m[id].kind.Terminal?
  }

  /** What `Build` calls reachable: the initial state, or the target of some transition of some state. */
  ghost predicate Reached(m: Manifest, id: string) {
    id == m.initialState || exists source :: Targets(m.states, source, id)
  }

  ghost predicate AllReached(m: Manifest) {
    forall id :: id in m.states ==> Reached(m, id)
  }

  ghost predicate AllInputsDeclared(m: map<string, State>) {
    forall id :: id in m ==> InputsDeclared(m, id)
  }

  ghost predicate AllOutputsProper(m: map<string, State>) {
    forall id :: id in m ==> OutputsProper(m, id)
  }

  ghost predicate WellFormed(m: Manifest) {
    && m.initialState in m.states
    && TargetsKnown(m.states)
    && HasTerminal(m.states)
    && AllReached(m)
    && AllInputsDeclared(m.states)
    && AllOutputsProper(m.states)
  }

  lemma BareStatesBindNothing(m: map<string, State>)
    requires forall id :: id in m ==> m[id].actions == [] && m[id].outputs == map[]
    ensures AllInputsDeclared(m) && AllOutputsProper(m)
  {
  }

  // ---------------------------------------------------------------------------------------------------------------
  // The errors of a manifest, as multisets: no visiting order appears in them

  function InitialErrors(m: Manifest): multiset<ParseError> {
    if m.initialState in m.states then multiset{}
    else multiset{ParseError(UnknownStateReference, InitialUndefined(m.initialState), 0, m.initialState)}
  }

  /** The unknown targets of one state's transitions, in transition order. */
  function UnknownTargets(m: map<string, State>, id: string, ts: seq<Transition>): seq<ParseError>
    requires id in m
  {
    if ts == [] then []
    else
      var t := ts[|ts| - 1];
      UnknownTargets(m, id, ts[..|ts| - 1]) +
      if t.targetState in m then []
      else [ParseError(UnknownStateReference, TargetUndefined(id, t.targetState), m[id].line, t.targetState)]
  }

  ghost function TargetErrors(m: map<string, State>): string -> multiset<ParseError> {
    id => if id in m then multiset(UnknownTargets(m, id, m[id].transitions)) else multiset{}
  }

  ghost function TerminalErrors(m: map<string, State>): multiset<ParseError> {
    if HasTerminal(m) then multiset{} else multiset{ParseError(NoTerminalState, NoTerminal, 0, "")}
  }

  ghost function OrphanErrors(m: Manifest): string -> multiset<ParseError> {
    id =>
      if id in m.states && !Reached(m, id)
      then multiset{ParseError(OrphanState, Untargeted(id), m.states[id].line, id)} else multiset{}
  }

  /** `resolveBinding` and `resolveWorkflowOutput`: nil, or why the reference does not resolve. */
  function ResolveRef(site: Site, ref: string, line: nat, declared: map<string, set<string>>): Option<ParseError> {
    var r := ParseBindingRef(ref);
    if r.None? then Some(ParseError(InvalidFieldValue, MalformedRef(site, ref), line, site.state))
    else if r.value.state !in declared then
      Some(ParseError(InvalidFieldValue, UnknownSource(site, r.value.state), line, site.state))
    else if r.value.key !in declared[r.value.state] then
      Some(ParseError(InvalidFieldValue, UndeclaredOutput(site, r.value.key, r.value.state), line, site.state))
    else None
  }

  function AsMultiset<E>(o: Option<E>): multiset<E> {
    if o.Some? then multiset{o.value} else multiset{}
  }

  function ActionErrors(declared: map<string, set<string>>, st: State, id: string,
      ai: nat): string -> multiset<ParseError>
    requires ai < |st.actions|
  {
    key =>
      if key in st.actions[ai].inputBindings
      then AsMultiset(ResolveRef(InputOf(id, ai, key), st.actions[ai].inputBindings[key], st.line, declared))
      else multiset{}
  }

  ghost function ActionSum(declared: map<string, set<string>>, st: State, id: string, ai: nat): multiset<ParseError>
    requires ai < |st.actions|
  {
    SumOver(st.actions[ai].inputBindings.Keys, ActionErrors(declared, st, id, ai))
  }

  ghost function ActionsErrors(declared: map<string, set<string>>, st: State, id: string, n: nat): multiset<ParseError>
    requires n <= |st.actions|
  {
    if n == 0 then multiset{}
    else
      ActionsErrors(declared, st, id, n - 1) + ActionSum(declared, st, id, n - 1)
  }

  ghost function InputErrors(m: map<string, State>): string -> multiset<ParseError> {
    id => if id in m then ActionsErrors(DeclaredOutputs(m), m[id], id, |m[id].actions|) else multiset{}
  }

  function NamedOutputErrors(declared: map<string, set<string>>, st: State, id: string): string -> multiset<ParseError>
  {
    name =>
      if name in st.outputs && STATES_PREFIX <= st.outputs[name]
      then AsMultiset(ResolveRef(OutputOf(id, name), st.outputs[name], st.line, declared))
      else multiset{}
  }

  ghost function OutputErrors(m: map<string, State>): string -> multiset<ParseError> {
    id =>
      if id !in m || m[id].outputs == map[] then multiset{}
      else if !m[id].kind.Terminal? then multiset{ParseError(InvalidFieldValue, OutputsOffTerminal(id), m[id].line, id)}
      else SumOver(m[id].outputs.Keys, NamedOutputErrors(DeclaredOutputs(m), m[id], id))
  }

  ghost function BuildErrors(m: Manifest): multiset<ParseError> {
    var ids := m.states.Keys;
    InitialErrors(m)
    + SumOver(ids, TargetErrors(m.states))
    + TerminalErrors(m.states)
    + SumOver(ids, OrphanErrors(m))
    + SumOver(ids, InputErrors(m.states))
    + SumOver(ids, OutputErrors(m.states))
  }

  // ---------------------------------------------------------------------------------------------------------------
  // Declared outputs

  function KeysOf(actions: seq<Action>): set<string> {
    if actions == [] then {} else KeysOf(actions[..|actions| - 1]) + actions[|actions| - 1].outputBindings.Keys
  }

  /** State id to the output keys its actions declare; states that declare none are absent. */
  function DeclaredOutputs(m: map<string, State>): map<string, set<string>> {
    map id | id in m && KeysOf(m[id].actions) != {} :: KeysOf(m[id].actions)
  }

  lemma {:induction false} KeysOfIff(actions: seq<Action>, key: string)
    ensures key in KeysOf(actions) <==> exists i :: 0 <= i < |actions| && key in actions[i].outputBindings
  {
    if actions == [] {
    } else {
      var n := |actions| - 1;
      KeysOfIff(actions[..n], key);
      if i :| 0 <= i < n && key in actions[..n][i].outputBindings {
        assert key in actions[i].outputBindings;
      }
      if i :| 0 <= i < |actions| && key in actions[i].outputBindings && i < n {
        assert key in actions[..n][i].outputBindings;
      }
    }
  }

  lemma DeclaresIff(m: map<string, State>, id: string, key: string)
    ensures Declares(m, id, key) <==> id in DeclaredOutputs(m) && key in DeclaredOutputs(m)[id]
  {
    if id in m {
      KeysOfIff(m[id].actions, key);
    }
  }

  lemma ResolveRefIff(m: map<string, State>, site: Site, ref: string, line: nat)
    ensures ResolveRef(site, ref, line, DeclaredOutputs(m)).None? <==> RefDeclared(m, ref)
  {
    var r := ParseBindingRef(ref);
    if r.Some? {
      DeclaresIff(m, r.value.state, r.value.key);
    }
  }

  /** `declared[id]` with `keys` added, left absent when there is nothing to add. */
  function WithKeys(declared: map<string, set<string>>, id: string, keys: set<string>): map<string, set<string>> {
    if keys == {} then declared
    else declared[id := (if id in declared then declared[id] else {}) + keys]
  }

  lemma WithKeysTwice(declared: map<string, set<string>>, id: string, a: set<string>, b: set<string>)
    ensures WithKeys(WithKeys(declared, id, a), id, b) == WithKeys(declared, id, a + b)
  {
    var known := if id in declared then declared[id] else {};
    assert known + a + b == known + (a + b);
    if a == {} {
      assert a + b == b;
    } else if b == {} {
      assert a + b == a;
    }
  }

  method IndexAction(before: map<string, set<string>>, id: string, outputs: set<string>)
    returns (declared: map<string, set<string>>)
    ensures declared == WithKeys(before, id, outputs)
  {
    declared := before;
    var keys := outputs;
    while keys != {}
      invariant keys <= outputs
      invariant declared == WithKeys(before, id, outputs - keys)
      decreases |keys|
    {
      var key :| key in keys;
      assert outputs - (keys - {key}) == outputs - keys + {key};
      WithKeysTwice(before, id, outputs - keys, {key});
      ghost var next := WithKeys(declared, id, {key});
      if id !in declared {
        declared := declared[id := {}];
      }
      declared := declared[id := declared[id] + {key}];
      assert declared == next;
      keys := keys - {key};
    }
    assert outputs - keys == outputs;
  }

  method IndexState(before: map<string, set<string>>, id: string, actions: seq<Action>)
    returns (declared: map<string, set<string>>)
    ensures declared == WithKeys(before, id, KeysOf(actions))
  {
    declared := before;
    var n := 0;
    while n < |actions|
      invariant 0 <= n <= |actions|
      invariant declared == WithKeys(before, id, KeysOf(actions[..n]))
    {
      assert actions[..n + 1][..n] == actions[..n];
      WithKeysTwice(before, id, KeysOf(actions[..n]), actions[n].outputBindings.Keys);
      declared := IndexAction(declared, id, actions[n].outputBindings.Keys);
      n := n + 1;
    }
    assert actions[..n] == actions;
  }

  method IndexDeclaredOutputs(states: map<string, State>) returns (declared: map<string, set<string>>)
    ensures declared == DeclaredOutputs(states)
  {
    hide KeysOf;
    declared := map[];
    var todo := states.Keys;
    while todo != {}
      invariant todo <= states.Keys
      invariant declared == map id | id in states && id !in todo && KeysOf(states[id].actions) != {} ::
        KeysOf(states[id].actions)
      decreases |todo|
    {
      var id :| id in todo;
      declared := IndexState(declared, id, states[id].actions);
      todo := todo - {id};
    }
  }

  // ---------------------------------------------------------------------------------------------------------------
  // Build

  method UnknownTargetsOf(m: map<string, State>, id: string) returns (errs: seq<ParseError>)
    requires id in m
    ensures errs == UnknownTargets(m, id, m[id].transitions)
  {
    errs := [];
    var st := m[id];
    var n := 0;
    while n < |st.transitions|
      invariant 0 <= n <= |st.transitions|
      invariant errs == UnknownTargets(m, id, st.transitions[..n])
    {
      var t := st.transitions[n];
      assert st.transitions[..n + 1][..n] == st.transitions[..n];
      if t.targetState !in m {
        errs := errs + [ParseError(UnknownStateReference, TargetUndefined(id, t.targetState), st.line, t.targetState)];
      }
      n := n + 1;
    }
    assert st.transitions[..n] == st.transitions;
  }

  method UnknownTargetErrors(m: map<string, State>) returns (errs: seq<ParseError>)
    ensures multiset(errs) == SumOver(m.Keys, TargetErrors(m))
  {
    hide SumOver, UnknownTargets;
    errs := [];
    SumOverEmpty({}, TargetErrors(m));
    var todo := m.Keys;
    assert m.Keys - todo == {};
    while todo != {}
      invariant todo <= m.Keys
      invariant multiset(errs) == SumOver(m.Keys - todo, TargetErrors(m))
      decreases |todo|
    {
      var id :| id in todo;
      var more := UnknownTargetsOf(m, id);
      errs := errs + more;
      SumOverAdd(m.Keys - todo, TargetErrors(m), id);
      assert m.Keys - (todo - {id}) == m.Keys - todo + {id};
      todo := todo - {id};
    }
    assert m.Keys - todo == m.Keys;
  }

  method FindTerminal(m: map<string, State>) returns (found: bool)
    ensures found <==> HasTerminal(m)
  {
    found := false;
    var todo := m.Keys;
    while todo != {} && !found
      invariant todo <= m.Keys
      invariant found ==> HasTerminal(m)
      invariant !found ==> forall id :: id in m && id !in todo ==> !m[id].kind.Terminal?
      decreases |todo|
    {
      var id :| id in todo;
      if m[id].kind.Terminal? {
        found := true;
      }
      todo := todo - {id};
    }
  }

  /** The `reachable` set of `Build`: the initial state and every transition target. */
  method CollectTargets(m: Manifest) returns (reachable: set<string>)
    ensures forall id :: id in reachable <==> Reached(m, id)
  {
    reachable := {m.initialState};
    var todo := m.states.Keys;
    while todo != {}
      invariant todo <= m.states.Keys
      invariant forall id :: id in reachable <==>
        id == m.initialState || exists source :: source !in todo && Targets(m.states, source, id)
      decreases |todo|
    {
      var source :| source in todo;
      var ts := m.states[source].transitions;
      ghost var before := reachable;
      var n := 0;
      while n < |ts|
        invariant 0 <= n <= |ts|
        invariant forall id :: id in reachable <==> id in before || exists i :: 0 <= i < n && ts[i].targetState == id
      {
        reachable := reachable + {ts[n].targetState};
        n := n + 1;
      }
      assert forall id :: id in reachable <==> id in before || Targets(m.states, source, id);
      todo := todo - {source};
    }
  }

  method OrphanStateErrors(m: Manifest, reachable: set<string>) returns (errs: seq<ParseError>)
    requires forall id :: id in reachable <==> Reached(m, id)
    ensures multiset(errs) == SumOver(m.states.Keys, OrphanErrors(m))
  {
    hide SumOver, Reached;
    errs := [];
    SumOverEmpty({}, OrphanErrors(m));
    var todo := m.states.Keys;
    assert m.states.Keys - todo == {};
    while todo != {}
      invariant todo <= m.states.Keys
      invariant multiset(errs) == SumOver(m.states.Keys - todo, OrphanErrors(m))
      decreases |todo|
    {
      var id :| id in todo;
      if id !in reachable {
        errs := errs + [ParseError(OrphanState, Untargeted(id), m.states[id].line, id)];
      }
      SumOverAdd(m.states.Keys - todo, OrphanErrors(m), id);
      assert m.states.Keys - (todo - {id}) == m.states.Keys - todo + {id};
      todo := todo - {id};
    }
    assert m.states.Keys - todo == m.states.Keys;
  }

  method ValidateAction(declared: map<string, set<string>>, st: State, id: string, ai: nat)
      returns (errs: seq<ParseError>)
    requires ai < |st.actions|
    ensures multiset(errs) == ActionSum(declared, st, id, ai)
  {
    hide SumOver, ResolveRef;
    errs := [];
    var bindings := st.actions[ai].inputBindings;
    ghost var f := ActionErrors(declared, st, id, ai);
    SumOverEmpty({}, f);
    var todo := bindings.Keys;
    assert bindings.Keys - todo == {};
    while todo != {}
      invariant todo <= bindings.Keys
      invariant multiset(errs) == SumOver(bindings.Keys - todo, f)
      decreases |todo|
    {
      var key :| key in todo;
      var perr := ResolveRef(InputOf(id, ai, key), bindings[key], st.line, declared);
      if perr.Some? {
        errs := errs + [perr.value];
      }
      SumOverAdd(bindings.Keys - todo, f, key);
      assert bindings.Keys - (todo - {key}) == bindings.Keys - todo + {key};
      todo := todo - {key};
    }
    assert bindings.Keys - todo == bindings.Keys;
  }

  method ValidateActions(declared: map<string, set<string>>, st: State, id: string) returns (errs: seq<ParseError>)
    ensures multiset(errs) == ActionsErrors(declared, st, id, |st.actions|)
  {
    errs := [];
    var ai := 0;
    while ai < |st.actions|
      invariant 0 <= ai <= |st.actions|
      invariant multiset(errs) == ActionsErrors(declared, st, id, ai)
    {
      var more := ValidateAction(declared, st, id, ai);
      AppendActionErrors(declared, st, id, ai, errs, more);
      errs := errs + more;
      ai := ai + 1;
    }
  }

  lemma AppendActionErrors(declared: map<string, set<string>>, st: State, id: string, ai: nat, errs: seq<ParseError>,
      more: seq<ParseError>)
    requires ai < |st.actions|
    requires multiset(errs) == ActionsErrors(declared, st, id, ai)
    requires multiset(more) == ActionSum(declared, st, id, ai)
    ensures multiset(errs + more) == ActionsErrors(declared, st, id, ai + 1)
  {
  }

  method ValidateInputBindings(states: map<string, State>) returns (errs: seq<ParseError>)
    ensures multiset(errs) == SumOver(states.Keys, InputErrors(states))
  {
    hide SumOver, ActionsErrors, DeclaredOutputs;
    var declared := IndexDeclaredOutputs(states);
    errs := [];
    SumOverEmpty({}, InputErrors(states));
    var todo := states.Keys;
    assert states.Keys - todo == {};
    while todo != {}
      invariant todo <= states.Keys
      invariant multiset(errs) == SumOver(states.Keys - todo, InputErrors(states))
      decreases |todo|
    {
      var id :| id in todo;
      var more := ValidateActions(declared, states[id], id);
      errs := errs + more;
      SumOverAdd(states.Keys - todo, InputErrors(states), id);
      assert states.Keys - (todo - {id}) == states.Keys - todo + {id};
      todo := todo - {id};
    }
    assert states.Keys - todo == states.Keys;
  }

  method ValidateOutputsOf(declared: map<string, set<string>>, st: State, id: string) returns (errs: seq<ParseError>)
    ensures multiset(errs) == SumOver(st.outputs.Keys, NamedOutputErrors(declared, st, id))
  {
    hide SumOver, ResolveRef;
    errs := [];
    ghost var f := NamedOutputErrors(declared, st, id);
    SumOverEmpty({}, f);
    var todo := st.outputs.Keys;
    assert st.outputs.Keys - todo == {};
    while todo != {}
      invariant todo <= st.outputs.Keys
      invariant multiset(errs) == SumOver(st.outputs.Keys - todo, f)
      decreases |todo|
    {
      var name :| name in todo;
      var ref := st.outputs[name];
      SumOverAdd(st.outputs.Keys - todo, f, name);
      assert st.outputs.Keys - (todo - {name}) == st.outputs.Keys - todo + {name};
      todo := todo - {name};
      if STATES_PREFIX <= ref {
        var perr := ResolveRef(OutputOf(id, name), ref, st.line, declared);
        if perr.Some? {
          errs := errs + [perr.value];
        }
      }
    }
    assert st.outputs.Keys - todo == st.outputs.Keys;
  }

  method ValidateWorkflowOutputs(states: map<string, State>) returns (errs: seq<ParseError>)
    ensures multiset(errs) == SumOver(states.Keys, OutputErrors(states))
  {
    hide SumOver, NamedOutputErrors;
    var declared := IndexDeclaredOutputs(states);
    errs := [];
    SumOverEmpty({}, OutputErrors(states));
    var todo := states.Keys;
    assert states.Keys - todo == {};
    while todo != {}
      invariant todo <= states.Keys
      invariant multiset(errs) == SumOver(states.Keys - todo, OutputErrors(states))
      decreases |todo|
    {
      var id :| id in todo;
      var st := states[id];
      SumOverAdd(states.Keys - todo, OutputErrors(states), id);
      assert states.Keys - (todo - {id}) == states.Keys - todo + {id};
      todo := todo - {id};
      if st.outputs == map[] {
        continue;
      }
      if !st.kind.Terminal? {
        errs := errs + [ParseError(InvalidFieldValue, OutputsOffTerminal(id), st.line, id)];
        continue;
      }
      var more := ValidateOutputsOf(declared, st, id);
      errs := errs + more;
    }
    assert states.Keys - todo == states.Keys;
  }

  method CollectErrors(m: Manifest) returns (errs: seq<ParseError>)
    ensures multiset(errs) == BuildErrors(m)
  {
    errs := [];
    if m.initialState !in m.states {
      errs := [ParseError(UnknownStateReference, InitialUndefined(m.initialState), 0, m.initialState)];
    }
    assert multiset(errs) == InitialErrors(m);
    var targets := UnknownTargetErrors(m.states);
    var hasTerminal := FindTerminal(m.states);
    var terminal := [];
    if !hasTerminal {
      terminal := [ParseError(NoTerminalState, NoTerminal, 0, "")];
    }
    assert multiset(terminal) == TerminalErrors(m.states);
    var reachable := CollectTargets(m);
    var orphans := OrphanStateErrors(m, reachable);
    var inputs := ValidateInputBindings(m.states);
    var outputs := ValidateWorkflowOutputs(m.states);
    errs := errs + targets + terminal + orphans + inputs + outputs;
  }

  /**
  Returns every error found, in whatever order the maps were visited, and a graph exactly when the manifest is
  well formed.
  */
  method Build(m: Manifest) returns (g: Option<WorkflowGraph>, errs: seq<ParseError>)
    ensures multiset(errs) == BuildErrors(m)
    ensures g.Some? <==> WellFormed(m)
    ensures g.Some? <==> errs == []
    ensures g.Some? ==> g.value == WorkflowGraph(m.name, m.namespace, m.initialState, m.states)
  {
    errs := CollectErrors(m);
    BuildAcceptsIff(m);
    assert |multiset(errs)| == |errs|;
    if |errs| > 0 {
      return None, errs;
    }
    return Some(WorkflowGraph(m.name, m.namespace, m.initialState, m.states)), [];
  }

  // ---------------------------------------------------------------------------------------------------------------
  // No errors means well formed, and back

  lemma {:induction false} UnknownTargetsEmpty(m: map<string, State>, id: string, ts: seq<Transition>)
    requires id in m
    ensures UnknownTargets(m, id, ts) == [] <==> forall i :: 0 <= i < |ts| ==> ts[i].targetState in m
  {
    if ts == [] {
    } else {
      var n := |ts| - 1;
      UnknownTargetsEmpty(m, id, ts[..n]);
      assert forall i :: 0 <= i < n ==> ts[..n][i] == ts[i];
    }
  }

  lemma TargetErrorsEmpty(m: map<string, State>)
    ensures SumOver(m.Keys, TargetErrors(m)) == multiset{} <==> TargetsKnown(m)
  {
    SumOverEmpty(m.Keys, TargetErrors(m));
    forall id | id in m
      ensures TargetErrors(m)(id) == multiset{} <==> forall target :: Targets(m, id, target) ==> target in m
    {
      var ts := m[id].transitions;
      UnknownTargetsEmpty(m, id, ts);
      var errs := UnknownTargets(m, id, ts);
      assert |multiset(errs)| == |errs|;
      if forall target :: Targets(m, id, target) ==> target in m {
        assert forall i :: 0 <= i < |ts| ==> Targets(m, id, ts[i].targetState);
      }
    }
  }

  lemma OrphanErrorsEmpty(m: Manifest)
    ensures SumOver(m.states.Keys, OrphanErrors(m)) == multiset{} <==> AllReached(m)
  {
    SumOverEmpty(m.states.Keys, OrphanErrors(m));
  }

  lemma ActionErrorsEmpty(m: map<string, State>, id: string, ai: nat)
    requires id in m && ai < |m[id].actions|
    ensures ActionSum(DeclaredOutputs(m), m[id], id, ai) == multiset{} <==> ActionDeclared(m, m[id].actions[ai])
  {
    var bindings, f := m[id].actions[ai].inputBindings, ActionErrors(DeclaredOutputs(m), m[id], id, ai);
    SumOverEmpty(bindings.Keys, f);
    forall key | key in bindings
      ensures f(key) == multiset{} <==> RefDeclared(m, bindings[key])
    {
      ResolveRefIff(m, InputOf(id, ai, key), bindings[key], m[id].line);
    }
  }

  lemma {:induction false} ActionsErrorsEmpty(declared: map<string, set<string>>, st: State, id: string, n: nat)
    requires n <= |st.actions|
    ensures ActionsErrors(declared, st, id, n) == multiset{} <==>
      forall i :: 0 <= i < n ==> ActionSum(declared, st, id, i) == multiset{}
  {
    hide ActionSum;
    if n == 0 {
    } else {
      ActionsErrorsEmpty(declared, st, id, n - 1);
      NoneOfTwo(ActionsErrors(declared, st, id, n - 1), ActionSum(declared, st, id, n - 1));
    }
  }

  lemma NoneOfTwo<E>(a: multiset<E>, b: multiset<E>)
    ensures a + b == multiset{} <==> a == multiset{} && b == multiset{}
  {
    assert |a + b| == |a| + |b|;
  }

  lemma InputErrorsEmpty(m: map<string, State>)
    ensures SumOver(m.Keys, InputErrors(m)) == multiset{} <==> AllInputsDeclared(m)
  {
    SumOverEmpty(m.Keys, InputErrors(m));
    forall id | id in m
      ensures InputErrors(m)(id) == multiset{} <==> InputsDeclared(m, id)
    {
      ActionsErrorsEmpty(DeclaredOutputs(m), m[id], id, |m[id].actions|);
      forall i | 0 <= i < |m[id].actions|
        ensures ActionSum(DeclaredOutputs(m), m[id], id, i) == multiset{} <==> ActionDeclared(m, m[id].actions[i])
      {
        ActionErrorsEmpty(m, id, i);
      }
    }
  }

  lemma OutputErrorsEmpty(m: map<string, State>)
    ensures SumOver(m.Keys, OutputErrors(m)) == multiset{} <==> AllOutputsProper(m)
  {
    SumOverEmpty(m.Keys, OutputErrors(m));
    forall id | id in m
      ensures OutputErrors(m)(id) == multiset{} <==> OutputsProper(m, id)
    {
      var outputs, f := m[id].outputs, NamedOutputErrors(DeclaredOutputs(m), m[id], id);
      SumOverEmpty(outputs.Keys, f);
      forall name | name in outputs
        ensures f(name) == multiset{} <==> (STATES_PREFIX <= outputs[name] ==> RefDeclared(m, outputs[name]))
      {
        ResolveRefIff(m, OutputOf(id, name), outputs[name], m[id].line);
      }
    }
  }

  /** `Build` finds an error exactly when the manifest is not well formed. */
  lemma BuildAcceptsIff(m: Manifest)
    ensures BuildErrors(m) == multiset{} <==> WellFormed(m)
  {
    TargetErrorsEmpty(m.states);
    OrphanErrorsEmpty(m);
    InputErrorsEmpty(m.states);
    OutputErrorsEmpty(m.states);
    var ids := m.states.Keys;
    NoneOfSix(
      InitialErrors(m), SumOver(ids, TargetErrors(m.states)), TerminalErrors(m.states),
      SumOver(ids, OrphanErrors(m)), SumOver(ids, InputErrors(m.states)), SumOver(ids, OutputErrors(m.states)));
  }

  lemma NoneOfSix<E>(a: multiset<E>, b: multiset<E>, c: multiset<E>, d: multiset<E>, e: multiset<E>, f: multiset<E>)
    ensures a + b + c + d + e + f == multiset{} <==>
            a == multiset{} && b == multiset{} && c == multiset{} && d == multiset{} && e == multiset{}
              && f == multiset{}
  {
    assert |a + b + c + d + e + f| == |a| + |b| + |c| + |d| + |e| + |f|;
  }
}
