/**
The errors a manifest is refused with, said of the manifest itself: which errors are due, and that these and no others
are reported, by the parser, by `Build` and by the command line.
*/
module Complaints {
  import opened Text
  import opened Collections
  import opened References
  import opened Compiler
  import opened ManifestParser

  // ---------------------------------------------------------------------------------------------------------------
  // Build

  /** The reference stands there, as an action's input or as a terminal state's output. */
  ghost predicate Uses(m: map<string, State>, site: Site, ref: string) {
    match site
    case InputOf(id, i, key) =>
      && id in m && i < |m[id].actions|
      && key in m[id].actions[i].inputBindings && m[id].actions[i].inputBindings[key] == ref
    case OutputOf(id, name) =>
      && id in m && m[id].kind.Terminal? && name in m[id].outputs && m[id].outputs[name] == ref && "$.states." <= ref
  }

  ghost predicate DeclaresAny(m: map<string, State>, id: string) {
    exists key :: Declares(m, id, key)
  }

  /** What is wrong with a reference, if anything is. */
  ghost predicate BadRef(m: map<string, State>, site: Site, ref: string, message: Message) {
    var r := ParseBindingRef(ref);
    if r.None? then message == MalformedRef(site, ref)
    else if !DeclaresAny(m, r.value.state) then message == UnknownSource(site, r.value.state)
    else !Declares(m, r.value.state, r.value.key) && message == UndeclaredOutput(site, r.value.key, r.value.state)
  }

  /** The state an error is about, for its line and its name. */
  ghost predicate Blames(m: map<string, State>, e: ParseError, code: ErrorCode, id: string, name: string) {
    id in m && e.code == code && e.line == m[id].line && e.stateName == name
  }

  ghost predicate Due(m: Manifest, e: ParseError) {
    match e.message
    case InitialUndefined(id) =>
      id == m.initialState && id !in m.states && e.code == UnknownStateReference && e.line == 0 && e.stateName == id
    case TargetUndefined(source, target) =>
      && target !in m.states && Targets(m.states, source, target)
      && Blames(m.states, e, UnknownStateReference, source, target)
    case NoTerminal =>
      && (forall id :: id in m.states ==> !m.states[id].kind.Terminal?)
      && e.code == NoTerminalState && e.line == 0 && e.stateName == ""
    case Untargeted(id) =>
      && id != m.initialState && (forall source :: !Targets(m.states, source, id))
      && Blames(m.states, e, OrphanState, id, id)
    case OutputsOffTerminal(id) =>
      && Blames(m.states, e, InvalidFieldValue, id, id)
      && m.states[id].outputs != map[] && !m.states[id].kind.Terminal?
    case _ =>
      && e.message.site.state in m.states
        && Blames(m.states, e, InvalidFieldValue, e.message.site.state, e.message.site.state)
      && exists ref :: Uses(m.states, e.message.site, ref) && BadRef(m.states, e.message.site, ref, e.message)
  }

  lemma DeclaredIff(m: map<string, State>, id: string)
    ensures id in DeclaredOutputs(m) <==> DeclaresAny(m, id)
    ensures id in DeclaredOutputs(m) ==> forall key :: key in DeclaredOutputs(m)[id] <==> Declares(m, id, key)
  {
    hide KeysOf, Declares;
    if id in m {
      forall key
        ensures key in KeysOf(m[id].actions) <==> Declares(m, id, key)
      {
        KeysDeclare(m, id, key);
      }
      if KeysOf(m[id].actions) != {} {
        var key :| key in KeysOf(m[id].actions);
      }
    } else {
      NoneDeclared(m, id);
    }
  }

  lemma KeysDeclare(m: map<string, State>, id: string, key: string)
    requires id in m
    ensures key in KeysOf(m[id].actions) <==> Declares(m, id, key)
  {
    KeysOfIff(m[id].actions, key);
  }

  lemma NoneDeclared(m: map<string, State>, id: string)
    requires id !in m
    ensures forall key :: !Declares(m, id, key)
  {
  }

  /** The errors of one reference. */
  lemma RefErrors(m: map<string, State>, site: Site, ref: string, line: nat, e: ParseError)
    ensures ResolveRef(site, ref, line, DeclaredOutputs(m)) == Some(e) <==>
      e == ParseError(InvalidFieldValue, e.message, line, site.state) && BadRef(m, site, ref, e.message)
  {
    hide ParseBindingRef, DeclaredOutputs, Declares, DeclaresAny;
    var r := ParseBindingRef(ref);
    if r.Some? {
      DeclaredIff(m, r.value.state);
    }
  }

  lemma {:induction false} InUnknownTargets(m: map<string, State>, id: string, ts: seq<Transition>, e: ParseError)
    requires id in m
    ensures e in UnknownTargets(m, id, ts) <==>
      exists i :: 0 <= i < |ts| && ts[i].targetState !in m
        && e == ParseError(UnknownStateReference, TargetUndefined(id, ts[i].targetState), m[id].line, ts[i].targetState)
  {
    if ts == [] {
    } else {
      var n := |ts| - 1;
      InUnknownTargets(m, id, ts[..n], e);
      assert forall i :: 0 <= i < n ==> ts[..n][i] == ts[i];
    }
  }

  lemma InTargets(m: Manifest, e: ParseError)
    ensures e in SumOver(m.states.Keys, TargetErrors(m.states)) <==> e.message.TargetUndefined? && Due(m, e)
  {
    hide SumOver;
    InSum(m.states.Keys, TargetErrors(m.states), e);
    forall id | id in m.states
      ensures e in TargetErrors(m.states)(id) <==>
        e.message.TargetUndefined? && e.message.source == id && Due(m, e)
    {
      InUnknownTargets(m.states, id, m.states[id].transitions, e);
      assert e in multiset(UnknownTargets(m.states, id, m.states[id].transitions)) <==>
             e in UnknownTargets(m.states, id, m.states[id].transitions);
    }
  }

  lemma InOrphans(m: Manifest, e: ParseError)
    ensures e in SumOver(m.states.Keys, OrphanErrors(m)) <==> e.message.Untargeted? && Due(m, e)
  {
    hide SumOver, Targets;
    InSum(m.states.Keys, OrphanErrors(m), e);
  }

  lemma {:induction false} InActions(m: map<string, State>, id: string, n: nat, e: ParseError)
    requires id in m && n <= |m[id].actions|
    ensures e in ActionsErrors(DeclaredOutputs(m), m[id], id, n) <==>
      exists i :: 0 <= i < n && e in ActionSum(DeclaredOutputs(m), m[id], id, i)
  {
    hide ActionSum;
    if n == 0 {
    } else {
      InActions(m, id, n - 1, e);
    }
  }

  /** The error is due to a reference that stands there. */
  ghost predicate FromRef(m: map<string, State>, e: ParseError, site: Site, ref: string) {
    && Uses(m, site, ref) && site.state in m
    && e == ParseError(InvalidFieldValue, e.message, m[site.state].line, site.state) && BadRef(m, site, ref, e.message)
  }

  lemma InAction(m: map<string, State>, id: string, i: nat, e: ParseError)
    requires id in m && i < |m[id].actions|
    ensures e in ActionSum(DeclaredOutputs(m), m[id], id, i) <==>
      exists key, ref :: FromRef(m, e, InputOf(id, i, key), ref)
  {
    hide SumOver, BadRef, DeclaredOutputs, ResolveRef;
    var bindings := m[id].actions[i].inputBindings;
    var f := ActionErrors(DeclaredOutputs(m), m[id], id, i);
    InSum(bindings.Keys, f, e);
    forall key | key in bindings
      ensures e in f(key) <==> FromRef(m, e, InputOf(id, i, key), bindings[key])
    {
      RefErrors(m, InputOf(id, i, key), bindings[key], m[id].line, e);
    }
    if key, ref :| FromRef(m, e, InputOf(id, i, key), ref) {
      assert key in bindings && bindings[key] == ref;
    }
  }

  lemma InInputs(m: Manifest, e: ParseError)
    ensures e in SumOver(m.states.Keys, InputErrors(m.states)) <==>
      exists site: Site, ref :: site.InputOf? && FromRef(m.states, e, site, ref)
  {
    hide SumOver, FromRef, ActionSum, ActionsErrors, DeclaredOutputs;
    var g := m.states;
    InSum(g.Keys, InputErrors(g), e);
    forall id | id in g
      ensures e in InputErrors(g)(id) <==>
        exists i :: 0 <= i < |g[id].actions| && e in ActionSum(DeclaredOutputs(g), g[id], id, i)
    {
      InActions(g, id, |g[id].actions|, e);
    }
    if e in SumOver(g.Keys, InputErrors(g)) {
      var id :| id in g && e in InputErrors(g)(id);
      var i :| 0 <= i < |g[id].actions| && e in ActionSum(DeclaredOutputs(g), g[id], id, i);
      InAction(g, id, i, e);
      var key, ref :| FromRef(g, e, InputOf(id, i, key), ref);
      assert InputOf(id, i, key).InputOf?;
    }
    if site: Site, ref :| site.InputOf? && FromRef(g, e, site, ref) {
      UsedInput(g, e, site, ref);
      InAction(g, site.state, site.action, e);
      assert FromRef(g, e, InputOf(site.state, site.action, site.key), ref);
      assert e in InputErrors(g)(site.state);
    }
  }

  lemma UsedInput(m: map<string, State>, e: ParseError, site: Site, ref: string)
    requires site.InputOf? && FromRef(m, e, site, ref)
    ensures site.state in m && site.action < |m[site.state].actions|
  {
  }

  lemma InNamed(m: map<string, State>, id: string, name: string, e: ParseError)
    requires id in m && m[id].kind.Terminal? && name in m[id].outputs
    ensures e in NamedOutputErrors(DeclaredOutputs(m), m[id], id)(name) <==>
      FromRef(m, e, OutputOf(id, name), m[id].outputs[name])
  {
    hide BadRef, DeclaredOutputs, ResolveRef;
    RefErrors(m, OutputOf(id, name), m[id].outputs[name], m[id].line, e);
  }

  lemma InTerminal(m: map<string, State>, id: string, e: ParseError)
    requires id in m && m[id].kind.Terminal?
    ensures e in SumOver(m[id].outputs.Keys, NamedOutputErrors(DeclaredOutputs(m), m[id], id)) <==>
      exists name, ref :: FromRef(m, e, OutputOf(id, name), ref)
  {
    hide SumOver, FromRef, DeclaredOutputs, NamedOutputErrors;
    var outputs := m[id].outputs;
    InSum(outputs.Keys, NamedOutputErrors(DeclaredOutputs(m), m[id], id), e);
    forall name | name in outputs
      ensures e in NamedOutputErrors(DeclaredOutputs(m), m[id], id)(name) <==>
        FromRef(m, e, OutputOf(id, name), outputs[name])
    {
      InNamed(m, id, name, e);
    }
    if name, ref :| FromRef(m, e, OutputOf(id, name), ref) {
      Named(m, id, name, ref, e);
    }
  }

  lemma Named(m: map<string, State>, id: string, name: string, ref: string, e: ParseError)
    requires FromRef(m, e, OutputOf(id, name), ref)
    ensures id in m && m[id].kind.Terminal? && name in m[id].outputs && m[id].outputs[name] == ref
  {
    hide BadRef;
  }

  lemma InOutput(m: map<string, State>, id: string, e: ParseError)
    requires id in m
    ensures e in OutputErrors(m)(id) <==>
      || (e == ParseError(InvalidFieldValue, OutputsOffTerminal(id), m[id].line, id)
          && m[id].outputs != map[] && !m[id].kind.Terminal?)
      || exists name, ref :: FromRef(m, e, OutputOf(id, name), ref)
  {
    hide SumOver, FromRef, DeclaredOutputs, NamedOutputErrors;
    if name, ref :| FromRef(m, e, OutputOf(id, name), ref) {
      Named(m, id, name, ref, e);
    }
    if m[id].kind.Terminal? {
      InTerminal(m, id, e);
    }
  }

  lemma InOutputs(m: Manifest, e: ParseError)
    ensures e in SumOver(m.states.Keys, OutputErrors(m.states)) <==>
      || (e.message.OutputsOffTerminal? && Due(m, e))
      || exists site: Site, ref :: site.OutputOf? && FromRef(m.states, e, site, ref)
  {
    hide SumOver, FromRef, OutputErrors;
    var g := m.states;
    InSum(g.Keys, OutputErrors(g), e);
    forall id | id in g
      ensures e in OutputErrors(g)(id) <==>
        || (e.message.OutputsOffTerminal? && e.message.state == id && Due(m, e))
        || exists name, ref :: FromRef(g, e, OutputOf(id, name), ref)
    {
      InOutput(g, id, e);
    }
    if e in SumOver(g.Keys, OutputErrors(g)) && !(e.message.OutputsOffTerminal? && Due(m, e)) {
      var id :| id in g && e in OutputErrors(g)(id);
      var name, ref :| FromRef(g, e, OutputOf(id, name), ref);
      assert OutputOf(id, name).OutputOf?;
    }
    if site: Site, ref :| site.OutputOf? && FromRef(g, e, site, ref) {
      assert site.state in g by { UsedOutput(g, e, site, ref); }
      assert FromRef(g, e, OutputOf(site.state, site.name), ref);
    }
  }

  lemma UsedOutput(m: map<string, State>, e: ParseError, site: Site, ref: string)
    requires site.OutputOf? && FromRef(m, e, site, ref)
    ensures site.state in m
  {
  }

  predicate AboutRef(e: ParseError) {
    e.message.MalformedRef? || e.message.UnknownSource? || e.message.UndeclaredOutput?
  }

  lemma RefIsDue(m: Manifest, e: ParseError)
    ensures AboutRef(e) && Due(m, e) <==> exists site, ref :: FromRef(m.states, e, site, ref)
  {
    hide Uses, ParseBindingRef, Declares, DeclaresAny;
    if AboutRef(e) && Due(m, e) {
      var ref :| Uses(m.states, e.message.site, ref) && BadRef(m.states, e.message.site, ref, e.message);
      assert FromRef(m.states, e, e.message.site, ref);
    }
  }

  /** The errors `Build` returns are those that are due. */
  lemma BuildErrorsAreDue(m: Manifest, e: ParseError)
    ensures e in BuildErrors(m) <==> Due(m, e)
  {
    hide SumOver, FromRef, TargetErrors, OrphanErrors, InputErrors, OutputErrors;
    InTargets(m, e);
    InOrphans(m, e);
    InInputs(m, e);
    InOutputs(m, e);
    RefIsDue(m, e);
    if site, ref :| FromRef(m.states, e, site, ref) {
      assert site.InputOf? || site.OutputOf?;
    }
    OneByOne(m, e);
  }

  lemma OneByOne(m: Manifest, e: ParseError)
    ensures e in InitialErrors(m) <==> e.message.InitialUndefined? && Due(m, e)
    ensures e in TerminalErrors(m.states) <==> e.message.NoTerminal? && Due(m, e)
  {
  }

  // ---------------------------------------------------------------------------------------------------------------
  // The parser

  ghost predicate TopLevelOk(y: YamlManifest) {
    y.kind == "Workflow" && y.name != "" && y.initialState != "" && y.states != map[]
  }

  ghost predicate PathDue(y: YamlManifest, site: PathSite, key: string) {
    match site
    case BindingOf(id, i) =>
      && id in y.states && i < |y.states[id].actions| && y.states[id].actions[i].capability != ""
      && key in y.states[id].actions[i].output && !y.states[id].actions[i].output[key].Str?
    case ResultOf(id) => id in y.states && key in y.states[id].outputs && !y.states[id].outputs[key].Str?
  }

  /** The complaint is due about a state, or one of its actions, transitions or outputs. */
  ghost predicate DueInState(y: YamlManifest, c: Complaint, id: string) {
    && id in y.states
    && var ys := y.states[id];
    match c
    case UnknownType(s) => s == id && ys.kind !in {"", "normal", "terminal", "human_in_the_loop"}
    case NoCapability(s, i) => s == id && i < |ys.actions| && ys.actions[i].capability == ""
    case BadTimeout(s, i) => s == id && i < |ys.actions| && ys.actions[i].capability != "" && !ys.actions[i].timeoutOk
    case BadPath(site, key) => site.state == id && PathDue(y, site, key)
    case NoEvent(s, i) => s == id && i < |ys.on| && ys.on[i].event == ""
    case NoGoto(s, i) => s == id && i < |ys.on| && ys.on[i].event != "" && ys.on[i].next == ""
    case _ => false
  }

  ghost predicate DueAtTop(y: YamlManifest, c: Complaint) {
    match c
    case WrongKind(kind) => kind == y.kind && y.kind != "Workflow"
    case NoName => y.name == ""
    case NoInitialState => y.initialState == ""
    case NoStates => y.states == map[]
    case _ => false
  }

  /** About the top level, without a line; or, when nothing is wrong there, about a state, with its line. */
  ghost predicate ComplaintDue(y: YamlManifest, e: ManifestError) {
    || (DueAtTop(y, e.complaint) && e.line == 0)
    || (TopLevelOk(y) && exists id :: DueInState(y, e.complaint, id) && e.line == y.states[id].line)
  }

  lemma InPaths(raw: map<string, Value>, site: PathSite, line: nat, e: ManifestError)
    ensures e in SumOver(raw.Keys, PathErrors(raw, site, line)) <==>
      exists key :: key in raw && !raw[key].Str? && e == ManifestError(BadPath(site, key), line)
  {
    hide SumOver;
    InSum(raw.Keys, PathErrors(raw, site, line), e);
  }

  ghost predicate DueInAction(name: string, line: nat, ya: YamlAction, i: nat, e: ManifestError) {
    && e.line == line
    && match e.complaint
       case NoCapability(s, j) => s == name && j == i && ya.capability == ""
       case BadTimeout(s, j) => s == name && j == i && ya.capability != "" && !ya.timeoutOk
       case BadPath(BindingOf(s, j), key) =>
         s == name && j == i && ya.capability != "" && key in ya.output && !ya.output[key].Str?
       case _ => false
  }

  lemma InActionComplaints(name: string, line: nat, ya: YamlAction, i: nat, e: ManifestError)
    ensures e in ActionComplaints(name, line, ya, i) <==> DueInAction(name, line, ya, i, e)
  {
    hide SumOver, PathErrors;
    InPaths(ya.output, BindingOf(name, i), line, e);
  }

  lemma {:induction false} InActionsComplaints(name: string, line: nat, yas: seq<YamlAction>, n: nat, e: ManifestError)
    requires n <= |yas|
    ensures e in ActionsComplaints(name, line, yas, n) <==>
      exists i :: 0 <= i < n && DueInAction(name, line, yas[i], i, e)
  {
    hide ActionComplaints, DueInAction;
    if n == 0 {
    } else {
      InActionsComplaints(name, line, yas, n - 1, e);
      InActionComplaints(name, line, yas[n - 1], n - 1, e);
    }
  }

  ghost predicate DueInTransition(name: string, line: nat, yt: YamlTransition, i: nat, e: ManifestError) {
    && e.line == line
    && match e.complaint
       case NoEvent(s, j) => s == name && j == i && yt.event == ""
       case NoGoto(s, j) => s == name && j == i && yt.event != "" && yt.next == ""
       case _ => false
  }

  lemma {:induction false} InTransitions(name: string, line: nat, yts: seq<YamlTransition>, n: nat, e: ManifestError)
    requires n <= |yts|
    ensures e in TransitionComplaints(name, line, yts, n) <==>
      exists i :: 0 <= i < n && DueInTransition(name, line, yts[i], i, e)
  {
    hide DueInTransition;
    if n == 0 {
    } else {
      InTransitions(name, line, yts, n - 1, e);
      assert e in TransitionComplaint(name, line, yts[n - 1], n - 1) <==>
        DueInTransition(name, line, yts[n - 1], n - 1, e) by {
        InTransition(name, line, yts[n - 1], n - 1, e);
      }
    }
  }

  lemma InTransition(name: string, line: nat, yt: YamlTransition, i: nat, e: ManifestError)
    ensures e in TransitionComplaint(name, line, yt, i) <==> DueInTransition(name, line, yt, i, e)
  {
  }

  lemma InState(y: YamlManifest, id: string, e: ManifestError)
    requires id in y.states
    ensures e in StateComplaints(id, y.states[id]) <==> DueInState(y, e.complaint, id) && e.line == y.states[id].line
  {
    hide SumOver, PathErrors, ActionsComplaints, TransitionComplaints;
    var ys := y.states[id];
    InActionsComplaints(id, ys.line, ys.actions, |ys.actions|, e);
    InTransitions(id, ys.line, ys.on, |ys.on|, e);
    InPaths(ys.outputs, ResultOf(id), ys.line, e);
    assert e in multiset(TransitionComplaints(id, ys.line, ys.on, |ys.on|)) <==>
           e in TransitionComplaints(id, ys.line, ys.on, |ys.on|);
    ByComplaint(y, id, e);
  }

  /** What is due in a state, part by part. */
  lemma ByComplaint(y: YamlManifest, id: string, e: ManifestError)
    requires id in y.states
    ensures var ys := y.states[id];
      DueInState(y, e.complaint, id) && e.line == ys.line <==>
        || (KindOf(ys.kind).None? && e == ManifestError(UnknownType(id), ys.line))
        || (exists i :: 0 <= i < |ys.actions| && DueInAction(id, ys.line, ys.actions[i], i, e))
        || (exists i :: 0 <= i < |ys.on| && DueInTransition(id, ys.line, ys.on[i], i, e))
        || (exists key ::
          key in ys.outputs && !ys.outputs[key].Str?
          && e == ManifestError(BadPath(ResultOf(id), key), ys.line))
  {
    var ys := y.states[id];
    if DueInState(y, e.complaint, id) && e.line == ys.line {
      match e.complaint
      case NoCapability(_, i) => assert DueInAction(id, ys.line, ys.actions[i], i, e);
      case BadTimeout(_, i) => assert DueInAction(id, ys.line, ys.actions[i], i, e);
      case BadPath(BindingOf(_, i), _) => assert DueInAction(id, ys.line, ys.actions[i], i, e);
      case NoEvent(_, i) => assert DueInTransition(id, ys.line, ys.on[i], i, e);
      case NoGoto(_, i) => assert DueInTransition(id, ys.line, ys.on[i], i, e);
      case _ =>
    }
  }

  lemma InTop(y: YamlManifest, e: ManifestError)
    ensures e in TopComplaints(y) <==> DueAtTop(y, e.complaint) && e.line == 0
    ensures TopComplaints(y) == [] <==> TopLevelOk(y)
  {
    var kind := if y.kind != WORKFLOW_KIND then [ManifestError(WrongKind(y.kind), 0)] else [];
    var name := if y.name == "" then [ManifestError(NoName, 0)] else [];
    var initial := if y.initialState == "" then [ManifestError(NoInitialState, 0)] else [];
    var states := if y.states == map[] then [ManifestError(NoStates, 0)] else [];
    assert TopComplaints(y) == kind + name + initial + states;
    assert e in TopComplaints(y) <==> e in kind || e in name || e in initial || e in states;
  }

  lemma InStates(y: YamlManifest, e: ManifestError)
    ensures e in SumOver(y.states.Keys, ComplaintsOf(y.states)) <==>
      exists id :: DueInState(y, e.complaint, id) && e.line == y.states[id].line
  {
    hide SumOver, StateComplaints, DueInState;
    InSum(y.states.Keys, ComplaintsOf(y.states), e);
    forall id | id in y.states
      ensures e in ComplaintsOf(y.states)(id) <==> DueInState(y, e.complaint, id) && e.line == y.states[id].line
    {
      InState(y, id, e);
    }
    OnlyKnownStates(y, e.complaint);
  }

  lemma NothingAtTop(y: YamlManifest, c: Complaint)
    ensures TopLevelOk(y) ==> !DueAtTop(y, c)
  {
  }

  /** The errors the parser returns are those that are due. */
  lemma ParseErrorsAreDue(y: YamlManifest, e: ManifestError)
    ensures e in ManifestComplaints(y) <==> ComplaintDue(y, e)
  {
    hide SumOver, StateComplaints, DueInState, TopComplaints, TopLevelOk, DueAtTop, ComplaintsOf;
    InTop(y, e);
    InStates(y, e);
    NothingAtTop(y, e.complaint);
    assert e in multiset(TopComplaints(y)) <==> e in TopComplaints(y);
  }

  lemma OnlyKnownStates(y: YamlManifest, c: Complaint)
    ensures forall id :: DueInState(y, c, id) ==> id in y.states
  {
  }

  // ---------------------------------------------------------------------------------------------------------------
  // The command line

  ghost predicate FlowDue(y: YamlManifest, e: FlowError) {
    match e
    case InitialUnknown(id) => id == y.initialState && id != "" && id !in y.states
    case GotoUnknown(id, i, target) =>
      id in y.states && i < |y.states[id].on| && y.states[id].on[i].next == target && target != ""
        && target !in y.states
  }

  /** The initial state first, then by state name, then by transition. */
  ghost predicate Earlier(a: FlowError, b: FlowError) {
    b.GotoUnknown? && (a.InitialUnknown? || (if a.state == b.state then a.index < b.index else LexLe(a.state, b.state)))
  }

  ghost predicate FlowOrdered(errs: seq<FlowError>) {
    forall i, j :: 0 <= i < j < |errs| ==> Earlier(errs[i], errs[j])
  }

  lemma {:induction false} FlowErrorsOfIs(y: YamlManifest, id: string, n: nat)
    requires id in y.states && n <= |y.states[id].on|
    ensures forall e :: e in FlowErrorsOf(y, id, n) <==>
      e.GotoUnknown? && e.state == id && e.index < n && FlowDue(y, e)
    ensures FlowOrdered(FlowErrorsOf(y, id, n))
  {
    if n == 0 {
    } else {
      FlowErrorsOfIs(y, id, n - 1);
      var front, next := FlowErrorsOf(y, id, n - 1), y.states[id].on[n - 1].next;
      var last := if next != "" && next !in y.states then [GotoUnknown(id, n - 1, next)] else [];
      assert FlowErrorsOf(y, id, n) == front + last;
      assert forall i :: 0 <= i < |front| ==> front[i] in front;
    }
  }

  lemma OrderedAppend(a: seq<FlowError>, b: seq<FlowError>)
    requires FlowOrdered(a) && FlowOrdered(b) && forall x, z :: x in a && z in b ==> Earlier(x, z)
    ensures FlowOrdered(a + b)
  {
    hide Earlier;
    assert forall i :: 0 <= i < |a| ==> a[i] in a;
    assert forall i :: 0 <= i < |b| ==> b[i] in b;
  }

  lemma FlowStep(y: YamlManifest, names: seq<string>)
    requires names != [] && forall i :: 0 <= i < |names| ==> names[i] in y.states
    ensures var n := |names| - 1;
      FlowErrors(y, names) == FlowErrors(y, names[..n]) + FlowErrorsOf(y, names[n], |y.states[names[n]].on|)
  {
  }

  lemma FlowStart(y: YamlManifest)
    ensures forall e :: e in FlowErrors(y, []) <==> FlowDue(y, e) && e.InitialUnknown?
    ensures FlowOrdered(FlowErrors(y, []))
  {
  }

  /** The command line reports what is due. */
  lemma {:induction false} FlowErrorsAreDue(y: YamlManifest, names: seq<string>, e: FlowError)
    requires forall i :: 0 <= i < |names| ==> names[i] in y.states
    ensures e in FlowErrors(y, names) <==> FlowDue(y, e) && (e.InitialUnknown? || e.state in names)
    decreases |names|
  {
    hide FlowErrorsOf, FlowDue, FlowErrors, FlowOrdered;
    if names == [] {
      FlowStart(y);
    } else {
      var n := |names| - 1;
      FlowErrorsAreDue(y, names[..n], e);
      FlowErrorsOfIs(y, names[n], |y.states[names[n]].on|);
      FlowStep(y, names);
      OnlyItsOwn(y, names[n]);
      assert names == names[..n] + [names[n]];
    }
  }

  /** And in order, whatever order the map has. */
  lemma {:induction false} FlowErrorsAreOrdered(y: YamlManifest, names: seq<string>)
    requires forall i :: 0 <= i < |names| ==> names[i] in y.states
    requires Sorted(names, LexLe) && forall i, j :: 0 <= i < j < |names| ==> names[i] != names[j]
    ensures FlowOrdered(FlowErrors(y, names))
    decreases |names|
  {
    hide FlowErrorsOf, FlowDue, FlowErrors, FlowOrdered, LexLe;
    if names == [] {
      FlowStart(y);
    } else {
      var n := |names| - 1;
      var front, id := names[..n], names[n];
      FlowErrorsAreOrdered(y, front);
      FlowErrorsOfIs(y, id, |y.states[id].on|);
      FlowStep(y, names);
      forall x, z | x in FlowErrors(y, front) && z in FlowErrorsOf(y, id, |y.states[id].on|)
        ensures Earlier(x, z)
      {
        FlowErrorsAreDue(y, front, x);
        if x.GotoUnknown? {
          var i :| 0 <= i < n && front[i] == x.state;
          assert names[i] == x.state;
        }
      }
      OrderedAppend(FlowErrors(y, front), FlowErrorsOf(y, id, |y.states[id].on|));
    }
  }

  lemma OnlyItsOwn(y: YamlManifest, id: string)
    requires id in y.states
    ensures forall e: FlowError :: e.GotoUnknown? && e.state == id && FlowDue(y, e) ==> e.index < |y.states[id].on|
  {
  }
}
