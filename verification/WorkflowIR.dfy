/**
The compiled form: `ToIR` lists the states of a graph in id order and copies actions, bindings, transitions and outputs.
*/
module WorkflowIR {
  import opened Text
  import opened Collections
  import opened Compiler

  datatype ActionIR = ActionIR(
    capability: string,
    template: string,
    async: bool,
    outputBindings: map<string, string>,
    inputBindings: map<string, string>)

  datatype TransitionIR = TransitionIR(eventType: string, targetState: string, conditions: map<string, string>)

  datatype StateIR = StateIR(
    id: string,
    kind: StateType,
    actions: seq<ActionIR>,
    transitions: seq<TransitionIR>,
    outputs: map<string, string>)

  datatype IR = IR(workflowId: string, namespace: string, initialState: string, states: seq<StateIR>)

  /** `json.Marshal` of a literal input map, which may fail. */
  type Marshal = map<string, Value> -> Option<string>

  function TemplateOf(input: map<string, Value>, marshal: Marshal): Option<string> {
    if input == map[] then Some("") else marshal(input)
  }

  predicate ActionMarshals(a: Action, marshal: Marshal) {
    TemplateOf(a.input, marshal).Some?
  }

  predicate StateMarshals(s: State, marshal: Marshal) {
    forall i :: 0 <= i < |s.actions| ==> ActionMarshals(s.actions[i], marshal)
  }

  function ToActionIR(a: Action, marshal: Marshal): ActionIR
    requires ActionMarshals(a, marshal)
  {
    ActionIR(a.capability, TemplateOf(a.input, marshal).value, a.async, a.outputBindings, a.inputBindings)
  }

  /** The guard of the domain transition has no counterpart in the compiled one. */
  function ToTransitionIR(t: Transition): TransitionIR {
    TransitionIR(t.eventType, t.targetState, t.conditions)
  }

  function ToStateIR(id: string, s: State, marshal: Marshal): StateIR
    requires StateMarshals(s, marshal)
  {
    StateIR(
      id, s.kind,
      seq(|s.actions|, i requires 0 <= i < |s.actions| => ToActionIR(s.actions[i], marshal)),
      seq(|s.transitions|, i requires 0 <= i < |s.transitions| => ToTransitionIR(s.transitions[i])),
      s.outputs)
  }

  /** An action as it is compiled: everything as it was, and the literal inputs encoded, nothing for none. */
  ghost predicate CompilesAction(a: Action, compiled: ActionIR, marshal: Marshal) {
    && compiled.capability == a.capability && compiled.async == a.async
    && compiled.outputBindings == a.outputBindings && compiled.inputBindings == a.inputBindings
    && if a.input == map[] then compiled.template == "" else marshal(a.input) == Some(compiled.template)
  }

  /** A state as it is compiled, field by field; of a transition the guard is lost. */
  ghost predicate CompilesState(id: string, s: State, compiled: StateIR, marshal: Marshal) {
    && compiled.id == id && compiled.kind == s.kind && compiled.outputs == s.outputs
    && |compiled.actions| == |s.actions|
    && (forall i :: 0 <= i < |s.actions| ==> CompilesAction(s.actions[i], compiled.actions[i], marshal))
    && |compiled.transitions| == |s.transitions|
    && (forall i :: 0 <= i < |s.transitions| ==>
          && compiled.transitions[i].eventType == s.transitions[i].eventType
          && compiled.transitions[i].targetState == s.transitions[i].targetState
          && compiled.transitions[i].conditions == s.transitions[i].conditions)
  }

  lemma ToStateCompiles(id: string, s: State, marshal: Marshal)
    requires StateMarshals(s, marshal)
    ensures CompilesState(id, s, ToStateIR(id, s, marshal), marshal)
  {
    assert forall i :: 0 <= i < |s.actions| ==> ActionMarshals(s.actions[i], marshal);
  }

  /** The IR lists exactly the states of the graph, once each, in id order. */
  ghost predicate Mirrors(ir: IR, g: WorkflowGraph, marshal: Marshal) {
    && ir.namespace == g.namespace
    && ir.initialState == g.initialState
    && (forall i, j :: 0 <= i < j < |ir.states| ==>
      ir.states[i].id != ir.states[j].id && LexLe(ir.states[i].id, ir.states[j].id))
    && (forall i :: 0 <= i < |ir.states| ==>
          && ir.states[i].id in g.states
          && StateMarshals(g.states[ir.states[i].id], marshal)
          && ir.states[i] == ToStateIR(ir.states[i].id, g.states[ir.states[i].id], marshal))
    && (forall id :: id in g.states ==> exists i :: 0 <= i < |ir.states| && ir.states[i].id == id)
  }

  method ConvertActions(actions: seq<Action>, marshal: Marshal) returns (out: Option<seq<ActionIR>>)
    ensures out.Some? <==> forall i :: 0 <= i < |actions| ==> ActionMarshals(actions[i], marshal)
    ensures out.Some? ==>
      && |out.value| == |actions|
      && forall i :: 0 <= i < |actions| ==> out.value[i] == ToActionIR(actions[i], marshal)
  {
    var list := [];
    for i := 0 to |actions|
      invariant |list| == i
      invariant forall j :: 0 <= j < i ==>
        ActionMarshals(actions[j], marshal) && list[j] == ToActionIR(actions[j], marshal)
    {
      var a := actions[i];
      var template := TemplateOf(a.input, marshal);
      if template.None? {
        assert !ActionMarshals(actions[i], marshal);
        return None;
      }
      list := list + [ActionIR(a.capability, template.value, a.async, a.outputBindings, a.inputBindings)];
    }
    return Some(list);
  }

  method ConvertStates(g: WorkflowGraph, ids: seq<string>, marshal: Marshal) returns (out: Option<seq<StateIR>>)
    requires forall i :: 0 <= i < |ids| ==> ids[i] in g.states
    ensures out.Some? <==> forall i :: 0 <= i < |ids| ==> StateMarshals(g.states[ids[i]], marshal)
    ensures out.Some? ==>
      && |out.value| == |ids|
      && forall i :: 0 <= i < |ids| ==> out.value[i] == ToStateIR(ids[i], g.states[ids[i]], marshal)
  {
    var list := [];
    for i := 0 to |ids|
      invariant |list| == i
      invariant forall j :: 0 <= j < i ==>
        StateMarshals(g.states[ids[j]], marshal) && list[j] == ToStateIR(ids[j], g.states[ids[j]], marshal)
    {
      var s := g.states[ids[i]];
      var actions := ConvertActions(s.actions, marshal);
      if actions.None? {
        assert !StateMarshals(s, marshal);
        return None;
      }
      var ts := [];
      for k := 0 to |s.transitions|
        invariant |ts| == k && forall j :: 0 <= j < k ==> ts[j] == ToTransitionIR(s.transitions[j])
      {
        ts := ts + [TransitionIR(s.transitions[k].eventType, s.transitions[k].targetState,
          s.transitions[k].conditions)];
      }
      var next := StateIR(ids[i], s.kind, actions.value, ts, s.outputs);
      assert next.actions == ToStateIR(ids[i], s, marshal).actions;
      assert next.transitions == ToStateIR(ids[i], s, marshal).transitions;
      list := list + [next];
    }
    return Some(list);
  }

  lemma ToStateId(id: string, s: State, marshal: Marshal)
    requires StateMarshals(s, marshal)
    ensures ToStateIR(id, s, marshal).id == id
  {
  }

  lemma ListingMirrors(r: IR, g: WorkflowGraph, ids: seq<string>, marshal: Marshal)
    requires r.namespace == g.namespace && r.initialState == g.initialState
    requires Sorted(ids, LexLe) && multiset(ids) == multiset(g.states.Keys) && |r.states| == |ids|
    requires forall i :: 0 <= i < |ids| ==> ids[i] in g.states && StateMarshals(g.states[ids[i]], marshal)
    requires forall i :: 0 <= i < |ids| ==> r.states[i] == ToStateIR(ids[i], g.states[ids[i]], marshal)
    ensures Mirrors(r, g, marshal)
  {
    hide StateMarshals, ToStateIR, LexLe;
    ListingIsInjective(ids, g.states.Keys);
    forall i | 0 <= i < |ids|
      ensures r.states[i].id == ids[i]
    {
      ToStateId(ids[i], g.states[ids[i]], marshal);
    }
    forall id | id in g.states
      ensures exists i :: 0 <= i < |r.states| && r.states[i].id == id
    {
      var i :| 0 <= i < |ids| && ids[i] == id;
      assert r.states[i].id == id;
    }
  }

  method ToIR(g: WorkflowGraph, workflowId: string, marshal: Marshal) returns (ir: Option<IR>)
    ensures ir.Some? <==> workflowId != "" && forall id :: id in g.states ==> StateMarshals(g.states[id], marshal)
    ensures ir.Some? ==> Mirrors(ir.value, g, marshal) && ir.value.workflowId == workflowId
    ensures ir.Some? ==> forall i :: 0 <= i < |ir.value.states| ==>
      var st := ir.value.states[i]; st.id in g.states && CompilesState(st.id, g.states[st.id], st, marshal)
  {
    hide StateMarshals, ToStateIR, Mirrors, CompilesState;
    if workflowId == "" {
      return None;
    }
    var ids := SortedKeys(g.states.Keys);
    ListingIsInjective(ids, g.states.Keys);
    assert forall i :: 0 <= i < |ids| ==> ids[i] in ids;
    var states := ConvertStates(g, ids, marshal);
    if states.None? {
      return None;
    }
    var r := IR(workflowId, g.namespace, g.initialState, states.value);
    ListingMirrors(r, g, ids, marshal);
    forall i | 0 <= i < |r.states|
      ensures CompilesState(ids[i], g.states[ids[i]], r.states[i], marshal) && r.states[i].id == ids[i]
    {
      ToStateCompiles(ids[i], g.states[ids[i]], marshal);
      CompiledId(ids[i], g.states[ids[i]], r.states[i], marshal);
    }
    return Some(r);
  }

  lemma CompiledId(id: string, s: State, compiled: StateIR, marshal: Marshal)
    requires CompilesState(id, s, compiled, marshal)
    ensures compiled.id == id
  {
  }

  /** The first state with the given id. */
  function FindState(states: seq<StateIR>, id: string): (r: Option<StateIR>)
    ensures r.Some? <==> exists i :: 0 <= i < |states| && states[i].id == id
    ensures r.Some? ==> r.value in states && r.value.id == id
  {
    if states == [] then None
    else if states[0].id == id then Some(states[0])
    else
      assert forall i :: 0 < i < |states| ==> states[i] == states[1..][i - 1];
      FindState(states[1..], id)
  }

  lemma {:induction false} FindStateIsFirst(states: seq<StateIR>, id: string, i: nat)
    requires i < |states| && states[i].id == id && forall j :: 0 <= j < i ==> states[j].id != id
    ensures FindState(states, id) == Some(states[i])
  {
    if i == 0 {
    } else {
      assert forall j :: 0 < j < |states| ==> states[1..][j - 1] == states[j];
      FindStateIsFirst(states[1..], id, i - 1);
    }
  }

  /** Looking a state up in the compiled form is looking it up in the graph. */
  lemma FindStateMirrors(ir: IR, g: WorkflowGraph, marshal: Marshal, id: string)
    requires Mirrors(ir, g, marshal)
    ensures FindState(ir.states, id).Some? <==> id in g.states
    ensures id in g.states ==>
      StateMarshals(g.states[id], marshal) && FindState(ir.states, id).value == ToStateIR(id, g.states[id], marshal)
  {
    var r := FindState(ir.states, id);
    if r.Some? {
      var i :| 0 <= i < |ir.states| && ir.states[i] == r.value;
      assert ir.states[i].id in g.states;
    }
  }
}
