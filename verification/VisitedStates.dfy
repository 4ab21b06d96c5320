/**
Which states of a workflow its runs can visit. The validators follow transitions; a run follows only those it can take,
from states that are not terminal.
*/
module VisitedStates {
  import opened Text
  import opened Compiler
  import opened Reachability
  import opened WorkflowIR
  import opened Machine
  import opened RunProperties
  import opened CompiledRuns
  import opened Routing

  ghost predicate AllUnconditional(m: Manifest) {
    forall id :: id in m.states ==> Unconditional(m.states[id].transitions)
  }

  /** Some transition from `u` to `v` can be taken. */
  ghost predicate Takes(m: Manifest, u: string, v: string) {
    && u in m.states && !m.states[u].kind.Terminal?
    && var ts := m.states[u].transitions;
      exists j :: 0 <= j < |ts| && CanBeTaken(m.states[u], j) && ts[j].targetState == v
  }

  ghost predicate IsWay(m: Manifest, p: seq<string>) {
    p != [] && p[0] == m.initialState && forall i :: 0 <= i < |p| - 1 ==> Takes(m, p[i], p[i + 1])
  }

  ghost predicate CanBeVisited(m: Manifest, id: string) {
    exists p :: IsWay(m, p) && p[|p| - 1] == id
  }

  // ---------------------------------------------------------------------------------------------------------------
  // Every run follows such a way

  lemma VisitStart(m: Manifest)
    ensures CanBeVisited(m, m.initialState)
  {
    assert IsWay(m, [m.initialState]);
  }

  lemma VisitOn(m: Manifest, u: string, v: string)
    requires CanBeVisited(m, u) && Takes(m, u, v)
    ensures CanBeVisited(m, v)
  {
    hide Takes;
    var p :| IsWay(m, p) && p[|p| - 1] == u;
    assert IsWay(m, p + [v]);
  }

  lemma LeavesWorkingState(m: Manifest, ir: IR, marshal: Marshal, w: World, run: seq<Config>)
    requires CompiledFrom(ir, m, marshal) && IsRun(ir, w, run) && Last(run).phase.Choosing?
    ensures Last(run).current in m.states && !m.states[Last(run).current].kind.Terminal?
  {
    hide Mirrors, FindState, Walk, Step;
    EveryRunsEvents(ir, w, run);
    FindStateMirrors(ir, WorkflowGraph(m.name, m.namespace, m.initialState, m.states), marshal, Last(run).current);
  }

  /** A run is only ever at a state that can be visited. */
  lemma {:induction false} EveryRunIsAWay(m: Manifest, ir: IR, marshal: Marshal, w: World, run: seq<Config>)
    requires AllUnconditional(m) && CompiledFrom(ir, m, marshal) && IsRun(ir, w, run)
    ensures CanBeVisited(m, Last(run).current)
    decreases |run|
  {
    hide CompiledFrom, Step, CanBeVisited, CanBeTaken, FirstFor, Unconditional;
    if |run| == 1 {
      StartsAtInitial(ir, m, marshal);
      VisitStart(m);
    } else {
      RunPrefix(ir, w, run);
      var p := run[..|run| - 1];
      EveryRunIsAWay(m, ir, marshal, w, p);
      if Last(p).phase.Choosing? {
        LeavesWorkingState(m, ir, marshal, w, p);
        EveryRunTakes(m, ir, marshal, w, p, Last(run));
        if Last(run).phase.Top? {
          VisitOn(m, Last(p).current, Last(run).current);
        }
      } else {
        StaysInside(ir, w, Last(p), Last(run));
      }
    }
  }

  /** What can be visited is reachable; `Review` shows that not all that is reachable can be visited. */
  lemma VisitedIsReachable(m: Manifest, id: string)
    requires CanBeVisited(m, id)
    ensures Reaches(m.states, m.initialState, id)
  {
    hide CanBeTaken;
    var p :| IsWay(m, p) && p[|p| - 1] == id;
    forall i | 0 <= i < |p| - 1
      ensures Targets(m.states, p[i], p[i + 1])
    {
      assert Takes(m, p[i], p[i + 1]);
    }
    assert PathBetween(m.states, p, m.initialState, id);
  }

  lemma ReviewIsNotVisited()
    ensures WellFormed(Review()) && Reaches(Review().states, "review", "no") && !CanBeVisited(Review(), "no")
  {
    hide CanBeTaken, WellFormed;
    var m := Review();
    ReviewIsAccepted();
    assert m.states["review"].transitions[1].targetState == "no";
    ReachesSelf(m.states, "review");
    ReachesOn(m.states, "review", "review", "no");
    if p :| IsWay(m, p) && p[|p| - 1] == "no" {
      assert Takes(m, p[|p| - 2], p[|p| - 2 + 1]);
      CanBeTakenIff(m.states["review"], 1);
    }
  }

  // ---------------------------------------------------------------------------------------------------------------
  // And every such way is followed by a run

  ghost predicate AllUnbound(ir: IR) {
    forall id :: FindState(ir.states, id).Some? ==> Unbound(FindState(ir.states, id).value)
  }

  lemma TakeStep(m: Manifest, ir: IR, marshal: Marshal, w: World, run: seq<Config>, v: string)
      returns (out: seq<Config>)
    requires AllUnconditional(m) && CompiledFrom(ir, m, marshal) && AllUnbound(ir) && Renders(w)
    requires IsRun(ir, w, run) && Last(run).phase.Top? && Takes(m, Last(run).current, v)
    ensures IsRun(ir, w, out) && Last(out).phase.Top? && Last(out).current == v
  {
    hide Mirrors, FindState, Step, CanBeTaken, FirstFor, Unbound, Renders, Unconditional;
    var u := Last(run).current;
    FindStateMirrors(ir, WorkflowGraph(m.name, m.namespace, m.initialState, m.states), marshal, u);
    var j :| 0 <= j < |m.states[u].transitions| && CanBeTaken(m.states[u], j)
      && m.states[u].transitions[j].targetState == v;
    var before := TakenOnARun(m, ir, marshal, w, run, j);
    NeverStuck(ir, w, Last(before));
    var c :| Step(ir, w, Last(before), c);
    EveryRunTakes(m, ir, marshal, w, before, c);
    RunExtends(ir, w, before, c);
    out := before + [c];
  }

  lemma {:induction false} WayIsARun(m: Manifest, ir: IR, marshal: Marshal, w: World, p: seq<string>)
      returns (run: seq<Config>)
    requires AllUnconditional(m) && CompiledFrom(ir, m, marshal) && AllUnbound(ir) && Renders(w) && IsWay(m, p)
    ensures IsRun(ir, w, run) && Last(run).phase.Top? && Last(run).current == p[|p| - 1]
    decreases |p|
  {
    hide CompiledFrom, AllUnbound, Renders, Takes, Step, AllUnconditional;
    if |p| == 1 {
      StartsAtInitial(ir, m, marshal);
      run := [Init(ir)];
    } else {
      var q := p[..|p| - 1];
      assert Takes(m, p[|p| - 2], p[|p| - 2 + 1]);
      run := WayIsARun(m, ir, marshal, w, q);
      run := TakeStep(m, ir, marshal, w, run, p[|p| - 1]);
    }
  }

  lemma PlainRenders(w: World)
    requires forall template, ctx :: w.render(template, ctx) == Some(template)
    ensures Renders(w)
  {
  }

  /** Where actions bind nothing, the states runs come to are exactly those that can be visited. */
  lemma VisitedIff(m: Manifest, ir: IR, marshal: Marshal, id: string)
    requires AllUnconditional(m) && CompiledFrom(ir, m, marshal) && AllUnbound(ir)
    ensures (exists w, run :: IsRun(ir, w, run) && Last(run).current == id) <==> CanBeVisited(m, id)
  {
    hide CompiledFrom, AllUnbound, Takes, Step, AllUnconditional, Renders;
    if w, run :| IsRun(ir, w, run) && Last(run).current == id {
      EveryRunIsAWay(m, ir, marshal, w, run);
    }
    if p :| IsWay(m, p) && p[|p| - 1] == id {
      var w := PlainWorld();
      assert Renders(w) by { PlainRenders(w); }
      var run := WayIsARun(m, ir, marshal, w, p);
    }
  }
}
