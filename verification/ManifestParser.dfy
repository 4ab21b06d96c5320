/**
From decoded YAML to the compiler's manifest (`ParseManifest`, phases three and four), and the command line's
independent data-flow check over the same YAML (`DataFlowBytes`).
*/
module ManifestParser {
  import opened Text
  import opened References
  import opened Collections
  import opened Compiler

  /** `timeoutOk`: the timeout is absent or `time.ParseDuration` accepts it. */
  datatype YamlAction = YamlAction(
    capability: string,
    timeoutOk: bool,
    input: map<string, Value>,
    output: map<string, Value>,
    async: bool)

  datatype YamlTransition = YamlTransition(event: string, next: string, guard: string)

  /** `kind` is the `type` field after `strings.ToLower`. */
  datatype YamlState = YamlState(
    kind: string,
    actions: seq<YamlAction>,
    on: seq<YamlTransition>,
    outputs: map<string, Value>,
    line: nat)

  datatype YamlManifest = YamlManifest(
    kind: string,
    name: string,
    namespace: string,
    initialState: string,
    states: map<string, YamlState>)

  /** Where a source path stands: in an action's output bindings, or in a state's outputs. */
  datatype PathSite = BindingOf(state: string, action: nat) | ResultOf(state: string)

  datatype Complaint =
    | WrongKind(kind: string)
    | NoName
    | NoInitialState
    | NoStates
    | UnknownType(state: string)
    | NoCapability(state: string, action: nat)
    | BadTimeout(state: string, action: nat)
    | BadPath(site: PathSite, key: string)
    | NoEvent(state: string, index: nat)
    | NoGoto(state: string, index: nat)

  datatype ManifestError = ManifestError(complaint: Complaint, line: nat)

  const WORKFLOW_KIND := "Workflow"
  const DEFAULT_NAMESPACE := "default"

  // ---------------------------------------------------------------------------------------------------------------
  // Conversion

  predicate IsBinding(v: Value) {
    v.Str? && STATES_PREFIX <= v.text
  }

  /** Every input is either a literal or a binding, never both and never lost. */
  method SplitInputBindings(raw: map<string, Value>)
      returns (literals: map<string, Value>, bindings: map<string, string>)
    ensures bindings == Bindings(raw) && literals == Literals(raw)
    ensures literals.Keys !! bindings.Keys && SplitsInputs(raw, literals, bindings)
  {
    literals, bindings := map[], map[];
    var todo := raw.Keys;
    while todo != {}
      invariant todo <= raw.Keys
      invariant literals == Literals(raw - todo)
      invariant bindings == Bindings(raw - todo)
      decreases |todo|
    {
      var key :| key in todo;
      SplitStep(raw, todo, key);
      todo := todo - {key};
      if IsBinding(raw[key]) {
        bindings := bindings[key := raw[key].text];
        continue;
      }
      literals := literals[key := raw[key]];
    }
    assert raw - todo == raw;
  }

  lemma SplitStep(raw: map<string, Value>, todo: set<string>, key: string)
    requires key in todo && todo <= raw.Keys
    ensures var r, r' := raw - todo, raw - (todo - {key});
            if IsBinding(raw[key])
            then Bindings(r') == Bindings(r)[key := raw[key].text] && Literals(r') == Literals(r)
            else Bindings(r') == Bindings(r) && Literals(r') == Literals(r)[key := raw[key]]
  {
    assert raw - (todo - {key}) == (raw - todo)[key := raw[key]];
  }

  function Bindings(raw: map<string, Value>): map<string, string> {
    map k | k in raw && IsBinding(raw[k]) :: raw[k].text
  }

  function Literals(raw: map<string, Value>): map<string, Value> {
    map k | k in raw && !IsBinding(raw[k]) :: raw[k]
  }

  predicate AllStrings(raw: map<string, Value>) {
    forall k :: k in raw ==> raw[k].Str?
  }

  function Strings(raw: map<string, Value>): map<string, string> {
    map k | k in raw && raw[k].Str? :: raw[k].text
  }

  function PathErrors(raw: map<string, Value>, site: PathSite, line: nat): string -> multiset<ManifestError> {
    k => if k in raw && !raw[k].Str? then multiset{ManifestError(BadPath(site, k), line)} else multiset{}
  }

  /**
  `convertOutputBindings` and `convertWorkflowOutputs`: a string path per key, and an error for each that is not one.
  */
  method ConvertPaths(raw: map<string, Value>, site: PathSite, line: nat)
      returns (out: map<string, string>, errs: seq<ManifestError>)
    ensures out == Strings(raw)
    ensures multiset(errs) == SumOver(raw.Keys, PathErrors(raw, site, line))
    ensures errs == [] <==> AllStrings(raw)
  {
    hide SumOver, Strings, AllStrings;
    out, errs := map[], [];
    ghost var f := PathErrors(raw, site, line);
    SumOverEmpty({}, f);
    var todo := raw.Keys;
    assert raw.Keys - todo == {};
    NoStrings(raw);
    while todo != {}
      invariant todo <= raw.Keys
      invariant out == Strings(raw - todo)
      invariant multiset(errs) == SumOver(raw.Keys - todo, f)
      decreases |todo|
    {
      var key :| key in todo;
      SumOverAdd(raw.Keys - todo, f, key);
      StringsStep(raw, todo, key);
      assert raw.Keys - (todo - {key}) == raw.Keys - todo + {key};
      todo := todo - {key};
      if !raw[key].Str? {
        errs := errs + [ManifestError(BadPath(site, key), line)];
        continue;
      }
      out := out[key := raw[key].text];
    }
    assert raw.Keys - todo == raw.Keys && raw - todo == raw;
    PathErrorsEmpty(raw, site, line);
    NoneListed(errs);
  }

  lemma NoStrings(raw: map<string, Value>)
    ensures Strings(raw - raw.Keys) == map[]
  {
  }

  lemma StringsStep(raw: map<string, Value>, todo: set<string>, key: string)
    requires key in todo && todo <= raw.Keys
    ensures Strings(raw - (todo - {key})) ==
      if raw[key].Str? then Strings(raw - todo)[key := raw[key].text] else Strings(raw - todo)
  {
    assert raw - (todo - {key}) == (raw - todo)[key := raw[key]];
  }

  lemma PathErrorsEmpty(raw: map<string, Value>, site: PathSite, line: nat)
    ensures SumOver(raw.Keys, PathErrors(raw, site, line)) == multiset{} <==> AllStrings(raw)
  {
    hide SumOver;
    SumOverEmpty(raw.Keys, PathErrors(raw, site, line));
  }

  lemma NoneListed<E>(errs: seq<E>)
    ensures errs == [] <==> multiset(errs) == multiset{}
  {
    assert errs != [] ==> errs[0] in multiset(errs);
  }

  function KindOf(kind: string): Option<StateType> {
    if kind == "" || kind == "normal" then Some(Normal)
    else if kind == "terminal" then Some(Terminal)
    else if kind == "human_in_the_loop" then Some(HumanInTheLoop)
    else None
  }

  predicate ActionOk(ya: YamlAction) {
    ya.capability != "" && ya.timeoutOk && AllStrings(ya.output)
  }

  predicate TransitionOk(yt: YamlTransition) {
    yt.event != "" && yt.next != ""
  }

  predicate StateOk(ys: YamlState) {
    && KindOf(ys.kind).Some?
    && (forall i :: 0 <= i < |ys.actions| ==> ActionOk(ys.actions[i]))
    && (forall i :: 0 <= i < |ys.on| ==> TransitionOk(ys.on[i]))
    && AllStrings(ys.outputs)
  }

  function ToAction(ya: YamlAction): Action {
    Action(ya.capability, Literals(ya.input), Strings(ya.output), Bindings(ya.input), ya.async)
  }

  /** The YAML guard is kept on the domain transition; its `conditions` are never filled in. */
  function ToTransition(yt: YamlTransition): Transition {
    Transition(yt.event, yt.next, yt.guard, map[])
  }

  function ToState(name: string, ys: YamlState): State
    requires StateOk(ys)
  {
    State(
      name, KindOf(ys.kind).value,
      seq(|ys.actions|, i requires 0 <= i < |ys.actions| => ToAction(ys.actions[i])),
      seq(|ys.on|, i requires 0 <= i < |ys.on| => ToTransition(ys.on[i])),
      Strings(ys.outputs), ys.line)
  }

  // ---------------------------------------------------------------------------------------------------------------
  // What parsing reads, field by field

  ghost predicate ReadsPaths(raw: map<string, Value>, out: map<string, string>) {
    out.Keys == raw.Keys && forall k :: k in raw && k in out ==> raw[k] == Str(out[k])
  }

  /** The inputs that are strings beginning `$.states.` are references, the others literals. */
  ghost predicate SplitsInputs(raw: map<string, Value>, literals: map<string, Value>, bindings: map<string, string>) {
    && literals.Keys + bindings.Keys == raw.Keys
    && (forall k :: k in bindings ==> k in raw && raw[k] == Str(bindings[k]) && "$.states." <= bindings[k])
    && (forall k :: k in literals ==> k in raw && raw[k] == literals[k] && !(raw[k].Str? && "$.states." <= raw[k].text))
  }

  ghost predicate ReadsAction(ya: YamlAction, a: Action) {
    && a.capability == ya.capability && a.async == ya.async
    && SplitsInputs(ya.input, a.input, a.inputBindings)
    && ReadsPaths(ya.output, a.outputBindings)
  }

  ghost predicate ReadsTransition(yt: YamlTransition, t: Transition) {
    t.eventType == yt.event && t.targetState == yt.next && t.guard == yt.guard && t.conditions == map[]
  }

  ghost predicate ReadsState(name: string, ys: YamlState, st: State) {
    && st.id == name && st.line == ys.line
    && (st.kind == Normal <==> ys.kind == "" || ys.kind == "normal")
    && (st.kind == Terminal <==> ys.kind == "terminal")
    && (st.kind == HumanInTheLoop <==> ys.kind == "human_in_the_loop")
    && |st.actions| == |ys.actions| && (forall i :: 0 <= i < |ys.actions| ==> ReadsAction(ys.actions[i], st.actions[i]))
    && |st.transitions| == |ys.on| && (forall i :: 0 <= i < |ys.on| ==> ReadsTransition(ys.on[i], st.transitions[i]))
    && ReadsPaths(ys.outputs, st.outputs)
  }

  ghost predicate ReadsManifest(y: YamlManifest, m: Manifest) {
    && m.name == y.name && m.initialState == y.initialState
    && m.namespace == (if y.namespace == "" then "default" else y.namespace)
    && m.states.Keys == y.states.Keys
    && forall id :: id in y.states && id in m.states ==> ReadsState(id, y.states[id], m.states[id])
  }

  lemma SplitIs(raw: map<string, Value>)
    ensures SplitsInputs(raw, Literals(raw), Bindings(raw))
  {
  }

  lemma ToStateReads(name: string, ys: YamlState)
    requires StateOk(ys)
    ensures ReadsState(name, ys, ToState(name, ys))
  {
    hide Literals, Bindings;
    var st := ToState(name, ys);
    forall i | 0 <= i < |ys.actions|
      ensures ReadsAction(ys.actions[i], st.actions[i])
    {
      assert ActionOk(ys.actions[i]);
      SplitIs(ys.actions[i].input);
    }
  }

  // ---------------------------------------------------------------------------------------------------------------
  // The complaints, as multisets

  ghost function ActionComplaints(name: string, line: nat, ya: YamlAction, i: nat): multiset<ManifestError> {
    if ya.capability == "" then multiset{ManifestError(NoCapability(name, i), line)}
    else
      (if ya.timeoutOk then multiset{} else multiset{ManifestError(BadTimeout(name, i), line)})
      + SumOver(ya.output.Keys, PathErrors(ya.output, BindingOf(name, i), line))
  }

  ghost function ActionsComplaints(name: string, line: nat, yas: seq<YamlAction>, n: nat): multiset<ManifestError>
    requires n <= |yas|
  {
    if n == 0 then multiset{}
      else ActionsComplaints(name, line, yas, n - 1) + ActionComplaints(name, line, yas[n - 1], n - 1)
  }

  function TransitionComplaint(name: string, line: nat, yt: YamlTransition, i: nat): seq<ManifestError> {
    if yt.event == "" then [ManifestError(NoEvent(name, i), line)]
    else if yt.next == "" then [ManifestError(NoGoto(name, i), line)]
    else []
  }

  /** In transition order. */
  function TransitionComplaints(name: string, line: nat, yts: seq<YamlTransition>, n: nat): seq<ManifestError>
    requires n <= |yts|
  {
    if n == 0 then []
    else TransitionComplaints(name, line, yts, n - 1) + TransitionComplaint(name, line, yts[n - 1], n - 1)
  }

  ghost function StateComplaints(name: string, ys: YamlState): multiset<ManifestError> {
    (if KindOf(ys.kind).Some? then multiset{} else multiset{ManifestError(UnknownType(name), ys.line)})
    + ActionsComplaints(name, ys.line, ys.actions, |ys.actions|)
    + multiset(TransitionComplaints(name, ys.line, ys.on, |ys.on|))
    + SumOver(ys.outputs.Keys, PathErrors(ys.outputs, ResultOf(name), ys.line))
  }

  ghost function ComplaintsOf(ys: map<string, YamlState>): string -> multiset<ManifestError> {
    id => if id in ys then StateComplaints(id, ys[id]) else multiset{}
  }

  /** The missing top-level fields, in order; if there are none, the complaints about the states, in no order. */
  function TopComplaints(y: YamlManifest): seq<ManifestError> {
    (if y.kind != WORKFLOW_KIND then [ManifestError(WrongKind(y.kind), 0)] else [])
    + (if y.name == "" then [ManifestError(NoName, 0)] else [])
    + (if y.initialState == "" then [ManifestError(NoInitialState, 0)] else [])
    + (if y.states == map[] then [ManifestError(NoStates, 0)] else [])
  }

  ghost function ManifestComplaints(y: YamlManifest): multiset<ManifestError> {
    if TopComplaints(y) != [] then multiset(TopComplaints(y)) else SumOver(y.states.Keys, ComplaintsOf(y.states))
  }

  // ---------------------------------------------------------------------------------------------------------------

  method ConvertAction(name: string, line: nat, ya: YamlAction, i: nat)
      returns (action: Option<Action>, errs: seq<ManifestError>)
    ensures multiset(errs) == ActionComplaints(name, line, ya, i)
    ensures errs == [] <==> ActionOk(ya)
    ensures errs == [] ==> action == Some(ToAction(ya))
  {
    hide SumOver, AllStrings, Literals, Bindings, Strings;
    if ya.capability == "" {
      return None, [ManifestError(NoCapability(name, i), line)];
    }
    errs := [];
    if !ya.timeoutOk {
      errs := [ManifestError(BadTimeout(name, i), line)];
    }
    var outputs, outErrs := ConvertPaths(ya.output, BindingOf(name, i), line);
    errs := errs + outErrs;
    var literals, inputs := SplitInputBindings(ya.input);
    action := Some(Action(ya.capability, literals, outputs, inputs, ya.async));
  }

  method ConvertActions(name: string, line: nat, yas: seq<YamlAction>)
      returns (actions: seq<Action>, errs: seq<ManifestError>)
    ensures multiset(errs) == ActionsComplaints(name, line, yas, |yas|)
    ensures errs == [] <==> forall i :: 0 <= i < |yas| ==> ActionOk(yas[i])
    ensures errs == [] ==> |actions| == |yas| && forall i :: 0 <= i < |yas| ==> actions[i] == ToAction(yas[i])
  {
    hide ActionOk, ToAction, ActionComplaints;
    actions, errs := [], [];
    for i := 0 to |yas|
      invariant multiset(errs) == ActionsComplaints(name, line, yas, i)
      invariant errs == [] <==> forall j :: 0 <= j < i ==> ActionOk(yas[j])
      invariant errs == [] ==> |actions| == i && forall j :: 0 <= j < i ==> actions[j] == ToAction(yas[j])
    {
      var action, more := ConvertAction(name, line, yas[i], i);
      errs := errs + more;
      if action.Some? {
        actions := actions + [action.value];
      }
    }
  }

  method ConvertTransitions(name: string, line: nat, yts: seq<YamlTransition>)
      returns (ts: seq<Transition>, errs: seq<ManifestError>)
    ensures errs == TransitionComplaints(name, line, yts, |yts|)
    ensures errs == [] <==> forall i :: 0 <= i < |yts| ==> TransitionOk(yts[i])
    ensures errs == [] ==> |ts| == |yts| && forall i :: 0 <= i < |yts| ==> ts[i] == ToTransition(yts[i])
  {
    hide TransitionComplaints, TransitionOk, ToTransition;
    ts, errs := [], [];
    NoTransitionYet(name, line, yts);
    for i := 0 to |yts|
      invariant errs == TransitionComplaints(name, line, yts, i)
      invariant errs == [] <==> forall j :: 0 <= j < i ==> TransitionOk(yts[j])
      invariant errs == [] ==> |ts| == i && forall j :: 0 <= j < i ==> ts[j] == ToTransition(yts[j])
    {
      TransitionStep(name, line, yts, i);
      if yts[i].event == "" {
        errs := errs + [ManifestError(NoEvent(name, i), line)];
        continue;
      }
      if yts[i].next == "" {
        errs := errs + [ManifestError(NoGoto(name, i), line)];
        continue;
      }
      ts := ts + [Transition(yts[i].event, yts[i].next, yts[i].guard, map[])];
    }
  }

  lemma NoTransitionYet(name: string, line: nat, yts: seq<YamlTransition>)
    ensures TransitionComplaints(name, line, yts, 0) == []
  {
  }

  lemma TransitionStep(name: string, line: nat, yts: seq<YamlTransition>, i: nat)
    requires i < |yts|
    ensures TransitionComplaints(name, line, yts, i + 1) ==
      TransitionComplaints(name, line, yts, i) + TransitionComplaint(name, line, yts[i], i)
    ensures TransitionComplaint(name, line, yts[i], i) == [] <==> TransitionOk(yts[i])
    ensures ToTransition(yts[i]) == Transition(yts[i].event, yts[i].next, yts[i].guard, map[])
  {
  }

  method ConvertState(name: string, ys: YamlState) returns (st: Option<State>, errs: seq<ManifestError>)
    ensures multiset(errs) == StateComplaints(name, ys)
    ensures st.Some? <==> errs == []
    ensures st.Some? <==> StateOk(ys)
    ensures st.Some? ==> st.value == ToState(name, ys)
    ensures st.Some? ==> ReadsState(name, ys, st.value)
  {
    hide ReadsState, ActionsComplaints, TransitionComplaints, SumOver, ActionOk, TransitionOk, AllStrings, ToAction,
      ToTransition,
      Strings;
    errs := [];
    var kind := KindOf(ys.kind);
    if kind.None? {
      errs := [ManifestError(UnknownType(name), ys.line)];
    }
    var actions, actionErrs := ConvertActions(name, ys.line, ys.actions);
    var ts, tsErrs := ConvertTransitions(name, ys.line, ys.on);
    var outputs, outErrs := ConvertPaths(ys.outputs, ResultOf(name), ys.line);
    errs := errs + actionErrs + tsErrs + outErrs;
    if errs != [] {
      return None, errs;
    }
    st := Some(State(name, kind.value, actions, ts, outputs, ys.line));
    assert actions == ToState(name, ys).actions;
    assert ts == ToState(name, ys).transitions;
    ToStateReads(name, ys);
  }

  predicate YamlOk(y: YamlManifest) {
    && y.kind == WORKFLOW_KIND && y.name != "" && y.initialState != "" && y.states != map[]
    && forall id :: id in y.states ==> StateOk(y.states[id])
  }

  function ToManifest(y: YamlManifest): Manifest
    requires YamlOk(y)
  {
    Manifest(
      y.name, if y.namespace == "" then DEFAULT_NAMESPACE else y.namespace, y.initialState,
      map id | id in y.states :: ToState(id, y.states[id]))
  }

  ghost predicate StatesOk(ys: map<string, YamlState>) {
    forall id :: id in ys ==> StateOk(ys[id])
  }

  method ConvertStates(ys: map<string, YamlState>) returns (states: map<string, State>, errs: seq<ManifestError>)
    ensures multiset(errs) == SumOver(ys.Keys, ComplaintsOf(ys))
    ensures errs == [] <==> StatesOk(ys)
    ensures errs == [] ==> states.Keys == ys.Keys && forall id :: id in ys ==> states[id] == ToState(id, ys[id])
  {
    hide StateOk, ToState, SumOver, StateComplaints, OkAmong, Built;
    states, errs := map[], [];
    SumOverEmpty({}, ComplaintsOf(ys));
    var todo := ys.Keys;
    assert ys.Keys - todo == {};
    NoneBuilt(ys);
    while todo != {}
      invariant todo <= ys.Keys
      invariant multiset(errs) == SumOver(ys.Keys - todo, ComplaintsOf(ys))
      invariant errs == [] <==> OkAmong(ys, ys.Keys - todo)
      invariant errs == [] ==> states == Built(ys, ys.Keys - todo)
      decreases |todo|
    {
      var id :| id in todo;
      SumOverAdd(ys.Keys - todo, ComplaintsOf(ys), id);
      BuiltStep(ys, ys.Keys - todo, id);
      assert ys.Keys - (todo - {id}) == ys.Keys - todo + {id};
      todo := todo - {id};
      var st, more := ConvertState(id, ys[id]);
      errs := errs + more;
      if st.Some? {
        states := states[id := st.value];
      }
    }
    assert ys.Keys - todo == ys.Keys;
    AllBuilt(ys);
  }

  ghost predicate OkAmong(ys: map<string, YamlState>, done: set<string>) {
    forall id :: id in done ==> id in ys && StateOk(ys[id])
  }

  ghost function Built(ys: map<string, YamlState>, done: set<string>): map<string, State>
    requires OkAmong(ys, done)
  {
    map id | id in done :: ToState(id, ys[id])
  }

  lemma NoneBuilt(ys: map<string, YamlState>)
    ensures OkAmong(ys, {}) && Built(ys, {}) == map[]
  {
    hide ToState;
  }

  lemma BuiltStep(ys: map<string, YamlState>, done: set<string>, id: string)
    requires id in ys && id !in done
    ensures OkAmong(ys, done + {id}) <==> OkAmong(ys, done) && StateOk(ys[id])
    ensures OkAmong(ys, done + {id}) ==> Built(ys, done + {id}) == Built(ys, done)[id := ToState(id, ys[id])]
  {
    hide ToState, StateOk;
  }

  lemma AllBuilt(ys: map<string, YamlState>)
    ensures OkAmong(ys, ys.Keys) <==> StatesOk(ys)
    ensures StatesOk(ys) ==>
      && Built(ys, ys.Keys).Keys == ys.Keys
      && forall id :: id in ys ==> Built(ys, ys.Keys)[id] == ToState(id, ys[id])
  {
    hide ToState, StateOk;
  }

  method CheckTop(y: YamlManifest) returns (errs: seq<ManifestError>)
    ensures errs == TopComplaints(y)
  {
    errs := [];
    if y.kind != WORKFLOW_KIND {
      errs := errs + [ManifestError(WrongKind(y.kind), 0)];
    }
    if y.name == "" {
      errs := errs + [ManifestError(NoName, 0)];
    }
    if y.initialState == "" {
      errs := errs + [ManifestError(NoInitialState, 0)];
    }
    if y.states == map[] {
      errs := errs + [ManifestError(NoStates, 0)];
    }
  }

  /**
  The manifest, exactly when every field converts; else every complaint: about the top level, or else about the states.
  */
  method ParseManifest(y: YamlManifest) returns (m: Option<Manifest>, errs: seq<ManifestError>)
    ensures multiset(errs) == ManifestComplaints(y)
    ensures m.Some? <==> errs == []
    ensures m.Some? <==> YamlOk(y)
    ensures m.Some? ==> m.value == ToManifest(y)
    ensures m.Some? ==> ReadsManifest(y, m.value)
  {
    hide SumOver, StateOk, ToState, ReadsState;
    errs := CheckTop(y);
    if errs != [] {
      return None, errs;
    }
    var states;
    states, errs := ConvertStates(y.states);
    if errs != [] {
      return None, errs;
    }
    assert YamlOk(y);
    assert states == ToManifest(y).states;
    forall id | id in y.states
      ensures ReadsState(id, y.states[id], states[id])
    {
      ToStateReads(id, y.states[id]);
    }
    m := Some(Manifest(y.name, if y.namespace == "" then DEFAULT_NAMESPACE else y.namespace, y.initialState, states));
  }

  // ---------------------------------------------------------------------------------------------------------------
  // The command line's data-flow check

  datatype FlowError = InitialUnknown(initial: string) | GotoUnknown(state: string, index: nat, target: string)

  function FlowErrorsOf(y: YamlManifest, id: string, n: nat): seq<FlowError>
    requires id in y.states && n <= |y.states[id].on|
  {
    if n == 0 then []
    else
      var next := y.states[id].on[n - 1].next;
      FlowErrorsOf(y, id, n - 1) + if next != "" && next !in y.states then [GotoUnknown(id, n - 1, next)] else []
  }

  function FlowErrors(y: YamlManifest, names: seq<string>): seq<FlowError>
    requires forall i :: 0 <= i < |names| ==> names[i] in y.states
  {
    if names == [] then
      if y.initialState != "" && y.initialState !in y.states then [InitialUnknown(y.initialState)] else []
    else
      var id := names[|names| - 1];
      FlowErrors(y, names[..|names| - 1]) + FlowErrorsOf(y, id, |y.states[id].on|)
  }

  ghost predicate FlowSound(y: YamlManifest) {
    && (y.initialState == "" || y.initialState in y.states)
    && forall id, i :: id in y.states && 0 <= i < |y.states[id].on| ==>
         y.states[id].on[i].next == "" || y.states[id].on[i].next in y.states
  }

  method FlowErrorsOfState(y: YamlManifest, id: string) returns (errs: seq<FlowError>)
    requires id in y.states
    ensures errs == FlowErrorsOf(y, id, |y.states[id].on|)
  {
    errs := [];
    var on := y.states[id].on;
    for i := 0 to |on|
      invariant errs == FlowErrorsOf(y, id, i)
    {
      if on[i].next == "" {
        continue;
      }
      if on[i].next !in y.states {
        errs := errs + [GotoUnknown(id, i, on[i].next)];
      }
    }
  }

  method FlowErrorsInOrder(y: YamlManifest, names: seq<string>) returns (errs: seq<FlowError>)
    requires forall i :: 0 <= i < |names| ==> names[i] in y.states
    ensures errs == FlowErrors(y, names)
  {
    errs := [];
    if y.initialState != "" && y.initialState !in y.states {
      errs := errs + [InitialUnknown(y.initialState)];
    }
    assert names[..0] == [];
    for i := 0 to |names|
      invariant errs == FlowErrors(y, names[..i])
    {
      assert names[..i + 1][..i] == names[..i];
      var more := FlowErrorsOfState(y, names[i]);
      errs := errs + more;
    }
    assert names[..|names|] == names;
  }

  /** The names of the states, each once, in byte order. */
  ghost predicate NameOrder(y: YamlManifest, names: seq<string>) {
    && Sorted(names, LexLe)
    && multiset(names) == multiset(y.states.Keys)
    && forall i :: 0 <= i < |names| ==> names[i] in y.states
  }

  /** Reports, state by state in name order, every unknown target: nothing at all exactly when the flow is sound. */
  method DataFlow(y: YamlManifest) returns (errs: seq<FlowError>)
    ensures y.kind != WORKFLOW_KIND ==> errs == []
    ensures y.kind == WORKFLOW_KIND ==> (errs == [] <==> FlowSound(y))
    ensures y.kind == WORKFLOW_KIND ==> exists names :: NameOrder(y, names) && errs == FlowErrors(y, names)
  {
    errs := [];
    if y.kind != WORKFLOW_KIND {
      return;
    }
    var names := SortedKeys(y.states.Keys);
    ListingIsInjective(names, y.states.Keys);
    assert forall i :: 0 <= i < |names| ==> names[i] in names;
    assert NameOrder(y, names);
    errs := FlowErrorsInOrder(y, names);
    FlowErrorsEmpty(y, names);
  }

  lemma {:induction false} FlowErrorsOfEmpty(y: YamlManifest, id: string, n: nat)
    requires id in y.states && n <= |y.states[id].on|
    ensures FlowErrorsOf(y, id, n) == [] <==>
            forall i :: 0 <= i < n ==> y.states[id].on[i].next == "" || y.states[id].on[i].next in y.states
  {
    if n == 0 {
    } else {
      FlowErrorsOfEmpty(y, id, n - 1);
    }
  }

  lemma {:induction false} FlowErrorsEmpty(y: YamlManifest, names: seq<string>)
    requires forall i :: 0 <= i < |names| ==> names[i] in y.states
    ensures FlowErrors(y, names) == [] <==>
            && (y.initialState == "" || y.initialState in y.states)
            && forall id, i :: id in names && 0 <= i < |y.states[id].on| ==>
                 y.states[id].on[i].next == "" || y.states[id].on[i].next in y.states
  {
    if names == [] {
    } else {
      var n := |names| - 1;
      FlowErrorsEmpty(y, names[..n]);
      FlowErrorsOfEmpty(y, names[n], |y.states[names[n]].on|);
      assert forall id :: id in names <==> id in names[..n] || id == names[n] by {
        assert names == names[..n] + [names[n]];
      }
    }
  }

  /**
  Of a manifest the compiler can parse, the command-line check approves exactly the initial state and the transition
  targets; so whatever `Build` accepts, the command line reports nothing about.
  */
  lemma DataFlowChecksTargets(y: YamlManifest)
    requires YamlOk(y)
    ensures FlowSound(y) <==> ToManifest(y).initialState in ToManifest(y).states && TargetsKnown(ToManifest(y).states)
    ensures WellFormed(ToManifest(y)) ==> FlowSound(y)
  {
    var m := ToManifest(y).states;
    assert m.Keys == y.states.Keys;
    if FlowSound(y) {
      forall id, target | Targets(m, id, target)
        ensures target in m
      {
        var i :| 0 <= i < |m[id].transitions| && m[id].transitions[i].targetState == target;
        assert y.states[id].on[i].next == target;
        assert TransitionOk(y.states[id].on[i]);
      }
    }
    if TargetsKnown(m) {
      forall id, i | id in y.states && 0 <= i < |y.states[id].on|
        ensures y.states[id].on[i].next in y.states
      {
        assert m[id].transitions[i].targetState == y.states[id].on[i].next;
        assert Targets(m, id, y.states[id].on[i].next);
      }
    }
  }

  /**
  Every input binding of a parsed manifest carries the compiler's reference prefix, and no transition a condition.
  */
  lemma ParsedManifestShape(y: YamlManifest, id: string)
    requires YamlOk(y) && id in y.states
    ensures var st := ToManifest(y).states[id];
            && st.id == id
            && (forall i :: 0 <= i < |st.transitions| ==> st.transitions[i].conditions == map[])
            && (forall i, k :: 0 <= i < |st.actions| && k in st.actions[i].inputBindings ==>
              STATES_PREFIX <= st.actions[i].inputBindings[k])
  {
  }
}
