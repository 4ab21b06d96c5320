/**
The structural validators run after the graph is built: a terminal state exists, every state is reachable, and no cycle
is a trap; and what the three together mean for the paths of a workflow.
*/
module Validators {
  import opened Collections
  import opened Compiler
  import opened Reachability

  datatype Color = White | Gray | Black

  /** A reported cycle, with its first state repeated at the end. */
  datatype Trap = Trap(path: seq<string>)

  /** A closed walk of states none of which can reach a terminal state. */
  ghost predicate IsTrap(g: Graph, p: seq<string>) {
    |p| >= 2 && IsPath(g, p) && p[0] == p[|p| - 1] && forall i :: 0 <= i < |p| ==> !Productive(g, p[i])
  }

  ghost predicate Trapped(g: Graph) {
    exists p :: IsTrap(g, p)
  }

  ghost predicate Distinct(s: seq<string>) {
    forall i, j :: 0 <= i < j < |s| ==> s[i] != s[j]
  }

  /** Gray is on the stack, black is finished. */
  ghost predicate Colored(color: map<string, Color>, stack: seq<string>, order: seq<string>) {
    && (forall u :: u in stack <==> u in color && color[u] == Gray)
    && (forall u :: u in order <==> u in color && color[u] == Black)
    && (forall u :: u in color ==> color[u] != White)
    && Distinct(stack) && Distinct(order)
  }

  /** Whatever an unproductive finished state targets was finished before it. */
  ghost predicate InOrder(g: Graph, order: seq<string>) {
    forall i, v :: 0 <= i < |order| && !Productive(g, order[i]) && Targets(g, order[i], v) ==> v in order[..i]
  }

  ghost predicate AllTraps(g: Graph, errs: seq<Trap>) {
    forall i :: 0 <= i < |errs| ==> IsTrap(g, errs[i].path)
  }

  /**
  The search so far: the stack is a walk, every report is a trap and, with no report, the finished states are ordered.
  */
  ghost predicate Sound(g: Graph, color: map<string, Color>, stack: seq<string>, order: seq<string>, errs: seq<Trap>) {
    && Colored(color, stack, order)
    && (stack != [] ==> IsPath(g, stack))
    && (errs == [] ==> InOrder(g, order))
    && AllTraps(g, errs)
  }

  lemma Push(g: Graph, color: map<string, Color>, stack: seq<string>, order: seq<string>, errs: seq<Trap>, id: string)
    requires Sound(g, color, stack, order, errs) && id !in color
    requires stack != [] ==> Targets(g, stack[|stack| - 1], id)
    ensures Sound(g, color[id := Gray], stack + [id], order, errs) && id !in stack
  {
    hide Targets, Productive, InOrder, AllTraps;
  }

  lemma Pop(g: Graph, color: map<string, Color>, stack: seq<string>, order: seq<string>, errs: seq<Trap>, id: string)
    requires Sound(g, color, stack + [id], order, errs)
    requires errs == [] && !Productive(g, id) ==> forall v :: Targets(g, id, v) ==> v in order
    ensures Sound(g, color[id := Black], stack, order + [id], errs)
  {
    hide Targets, Productive, AllTraps, InOrder, Colored, IsPath;
    PopColored(color, stack, order, id);
    WalkFront(g, stack, id);
    if errs == [] {
      OrderGrows(g, order, id);
    }
  }

  lemma PopColored(color: map<string, Color>, stack: seq<string>, order: seq<string>, id: string)
    requires Colored(color, stack + [id], order)
    ensures Colored(color[id := Black], stack, order + [id])
  {
    var full, next := stack + [id], color[id := Black];
    assert full[|stack|] == id;
    assert id in full && id !in order;
    forall i | 0 <= i < |stack|
      ensures stack[i] != id && stack[i] in full
    {
      assert full[i] == stack[i];
    }
    forall u
      ensures u in stack <==> u in next && next[u] == Gray
    {
      assert u in full <==> u in stack || u == id;
    }
    forall i, j | 0 <= i < j < |stack|
      ensures stack[i] != stack[j]
    {
      assert full[i] == stack[i] && full[j] == stack[j];
    }
  }

  lemma WalkFront(g: Graph, stack: seq<string>, id: string)
    requires IsPath(g, stack + [id])
    ensures stack != [] ==> IsPath(g, stack)
  {
    hide Targets;
    forall i | 0 <= i < |stack| - 1
      ensures Targets(g, stack[i], stack[i + 1])
    {
      assert (stack + [id])[i] == stack[i] && (stack + [id])[i + 1] == stack[i + 1];
    }
  }

  lemma OrderGrows(g: Graph, order: seq<string>, id: string)
    requires InOrder(g, order)
    requires !Productive(g, id) ==> forall v :: Targets(g, id, v) ==> v in order
    ensures InOrder(g, order + [id])
  {
    hide Targets, Productive;
    var next := order + [id];
    forall i, v | 0 <= i < |next| && !Productive(g, next[i]) && Targets(g, next[i], v)
      ensures v in next[..i]
    {
      if i == |order| {
        assert next[..i] == order;
      } else {
        assert next[..i] == order[..i] && next[i] == order[i];
      }
    }
  }

  lemma ColorTells(g: Graph, color: map<string, Color>, stack: seq<string>, order: seq<string>, errs: seq<Trap>,
      u: string)
    requires Sound(g, color, stack, order, errs)
    ensures u in color ==> (color[u] == Gray && u in stack) || (color[u] == Black && u in order)
    ensures u in order ==> u in color && color[u] == Black
  {
  }

  lemma OnStack(g: Graph, color: map<string, Color>, stack: seq<string>, order: seq<string>, errs: seq<Trap>, u: string)
    requires Sound(g, color, stack, order, errs) && u in stack
    ensures u in color
  {
  }

  /** From an unproductive state nothing productive is targeted, so a walk from one stays unproductive. */
  lemma {:induction false} WalkStaysUnproductive(g: Graph, p: seq<string>, n: nat)
    requires IsPath(g, p) && n < |p| && !Productive(g, p[0])
    ensures !Productive(g, p[n])
  {
    hide Targets, Productive;
    if n == 0 {
    } else {
      WalkStaysUnproductive(g, p, n - 1);
      assert Targets(g, p[n - 1], p[n]);
      if Productive(g, p[n]) {
        ProductiveFrom(g, p[n - 1], p[n]);
      }
    }
  }

  /** The cycle a back edge closes. */
  lemma CycleOf(g: Graph, stack: seq<string>, start: nat)
    requires IsPath(g, stack) && start < |stack| && Targets(g, stack[|stack| - 1], stack[start])
    ensures IsPath(g, stack[start..] + [stack[start]])
  {
    hide Targets;
    var p := stack[start..] + [stack[start]];
    forall i | 0 <= i < |p| - 1
      ensures Targets(g, p[i], p[i + 1])
    {
      if i < |p| - 2 {
        assert p[i] == stack[start + i] && p[i + 1] == stack[start + i + 1];
      }
    }
  }

  /** On a cycle all states are productive or none is: one unproductive state makes it a trap. */
  lemma CycleIsTrapIff(g: Graph, p: seq<string>, n: nat)
    requires |p| >= 2 && IsPath(g, p) && p[0] == p[|p| - 1] && n < |p|
    ensures !Productive(g, p[n]) <==> IsTrap(g, p)
  {
    hide Targets, Productive, IsPath;
    if !Productive(g, p[n]) {
      Suffix(g, p, n);
      var q := p[n..];
      WalkStaysUnproductive(g, q, |q| - 1);
      assert q[|q| - 1] == p[0];
      forall i | 0 <= i < |p|
        ensures !Productive(g, p[i])
      {
        WalkStaysUnproductive(g, p, i);
      }
    }
  }

  lemma Suffix(g: Graph, p: seq<string>, n: nat)
    requires IsPath(g, p) && n < |p|
    ensures IsPath(g, p[n..])
  {
    hide Targets;
    forall i | 0 <= i < |p[n..]| - 1
      ensures Targets(g, p[n..][i], p[n..][i + 1])
    {
      assert Targets(g, p[n + i], p[n + i + 1]);
    }
  }

  ghost predicate FirstDone(ts: seq<Transition>, k: nat, order: seq<string>) {
    k <= |ts| && forall j :: 0 <= j < k ==> ts[j].targetState in order
  }

  lemma NoneDone(ts: seq<Transition>, order: seq<string>)
    ensures FirstDone(ts, 0, order)
  {
  }

  lemma OneMoreDone(ts: seq<Transition>, k: nat, order: seq<string>, longer: seq<string>)
    requires FirstDone(ts, k, order) && order <= longer && k < |ts| && ts[k].targetState in longer
    ensures FirstDone(ts, k + 1, longer)
  {
    assert forall u :: u in order ==> u in longer;
  }

  lemma AllDone(g: Graph, id: string, order: seq<string>)
    requires id in g && FirstDone(g[id].transitions, |g[id].transitions|, order)
    ensures forall v :: Targets(g, id, v) ==> v in order
  {
  }

  /** Depth-first search with a stack of gray states; the finishing order is kept to argue with. */
  class CircularTransitionDetector {
    const g: Graph
    const productive: set<string>
    ghost const universe: set<string>
    var color: map<string, Color>
    var stack: seq<string>
    var reported: set<string>
    var errs: seq<Trap>
    ghost var order: seq<string>

    constructor (g: Graph, initial: string, productive: set<string>)
      requires forall u :: u in productive <==> Productive(g, u)
      ensures Valid() && this.g == g && universe == Universe(g) + {initial} && this.productive == productive
      ensures color == map[] && stack == [] && errs == [] && order == []
    {
      this.g, this.productive, universe := g, productive, Universe(g) + {initial};
      color, stack, reported, errs, order := map[], [], {}, [], [];
    }

    ghost predicate Valid()
      reads this
    {
      && (forall u :: u in productive <==> Productive(g, u))
      && Universe(g) <= universe && color.Keys <= universe
      && Sound(g, color, stack, order, errs)
      && (reported != {} ==> errs != [])
    }

    /** Finishes `id` and all it leads to that was not begun before; the stack ends as it was. */
    method Dfs(id: string)
      requires Valid() && id !in color && id in universe
      requires stack != [] ==> Targets(g, stack[|stack| - 1], id)
      modifies this
      ensures Valid() && stack == old(stack) && id in order
      ensures old(color.Keys) <= color.Keys && old(order) <= order && old(errs) <= errs
      decreases |universe - color.Keys|, 0
    {
      hide *;
      Begin(id);
      Smaller(universe, old(color.Keys), color.Keys);
      Explore(id);
      ghost var finished := order;
      assert stack[..|stack| - 1] == old(stack);
      Finish(id);
      Prefixes(old(order), finished, order);
    }

    method Begin(id: string)
      requires Valid() && id !in color && id in universe
      requires stack != [] ==> Targets(g, stack[|stack| - 1], id)
      modifies `color, `stack
      ensures Valid() && stack == old(stack) + [id] && color.Keys == old(color.Keys) + {id} && color.Keys <= universe
    {
      hide Targets, Productive, Universe, Sound;
      Push(g, color, stack, order, errs, id);
      color := color[id := Gray];
      stack := stack + [id];
    }

    method Finish(id: string)
      requires Valid() && stack != [] && stack[|stack| - 1] == id
      requires errs == [] && id !in productive ==> forall v :: Targets(g, id, v) ==> v in order
      modifies `color, `stack, `order
      ensures Valid() && stack == old(stack)[..|old(stack)| - 1] && color.Keys == old(color.Keys)
        && order == old(order) + [id]
    {
      hide Targets, Productive, Universe, Sound;
      ghost var below := stack[..|stack| - 1];
      assert stack == below + [id];
      Pop(g, color, below, order, errs, id);
      OnStack(g, color, stack, order, errs, id);
      stack := stack[..|stack| - 1];
      color := color[id := Black];
      order := order + [id];
    }

    /** Takes every transition of the state on top of the stack; an undefined state has none. */
    method Explore(id: string)
      requires Valid() && stack != [] && stack[|stack| - 1] == id
      modifies this
      ensures Valid() && stack == old(stack)
      ensures old(color.Keys) <= color.Keys && old(order) <= order && old(errs) <= errs
      ensures errs == [] && id !in productive ==> forall v :: Targets(g, id, v) ==> v in order
      decreases |universe - color.Keys|, 2
    {
      hide Targets, Productive, Universe, Sound, FirstDone;
      if id !in g {
        NoTransitions(g, id);
        return;
      }
      var ts := g[id].transitions;
      NoneDone(ts, order);
      for k := 0 to |ts|
        invariant Valid() && stack == old(stack)
        invariant old(color.Keys) <= color.Keys && old(order) <= order && old(errs) <= errs
        invariant errs == [] && id !in productive ==> FirstDone(ts, k, order)
      {
        TargetsOf(g, id, k);
        Smaller(universe, old(color.Keys), color.Keys);
        ghost var done, found := order, errs;
        Visit(id, ts[k].targetState);
        Prefixes(old(order), done, order);
        Prefixes(old(errs), found, errs);
        if errs == [] && id !in productive {
          OneMoreDone(ts, k, done, order);
        }
      }
      if errs == [] && id !in productive {
        AllDone(g, id, order);
      }
    }

    /** One transition: into a new state, back onto the stack, or to a finished state. */
    method Visit(id: string, next: string)
      requires Valid() && stack != [] && stack[|stack| - 1] == id && Targets(g, id, next)
      modifies this
      ensures Valid() && stack == old(stack)
      ensures old(color.Keys) <= color.Keys && old(order) <= order && old(errs) <= errs
      ensures errs == [] && id !in productive ==> next in order
      decreases |universe - color.Keys|, 1
    {
      hide Targets, Productive, Universe, Sound, InOrder;
      TargetsInUniverse(g, id, next);
      ColorTells(g, color, stack, order, errs, next);
      if next !in color {
        Dfs(next);
      } else if color[next] == Gray {
        BackEdge(next);
      }
    }

    /** An edge back onto the stack closes a cycle: reported if no state on it is productive. */
    method BackEdge(next: string)
      requires Valid() && stack != [] && next in stack && Targets(g, stack[|stack| - 1], next)
      modifies `reported, `errs
      ensures Valid() && old(errs) <= errs
      ensures stack[|stack| - 1] !in productive ==> errs != []
    {
      hide Targets, Productive, Universe, InOrder, Colored;
      var start := 0;
      while stack[start] != next
        invariant 0 <= start < |stack| && next !in stack[..start]
        decreases |stack| - start
      {
        start := start + 1;
      }
      if next in reported {
        return;
      }
      var cycle := stack[start..];
      var trapped := NoneProductive(cycle);
      CycleOf(g, stack, start);
      var path := cycle + [next];
      CycleIsTrapIff(g, path, 0);
      CycleIsTrapIff(g, path, |cycle| - 1);
      assert path[0] == cycle[0] && path[|cycle| - 1] == stack[|stack| - 1];
      if trapped {
        reported := reported + {next};
        errs := errs + [Trap(path)];
      } else {
        ghost var j :| 0 <= j < |cycle| && cycle[j] in productive;
        CycleIsTrapIff(g, path, j);
      }
    }

    method NoneProductive(cycle: seq<string>) returns (trapped: bool)
      ensures trapped <==> forall j :: 0 <= j < |cycle| ==> cycle[j] !in productive
    {
      for i := 0 to |cycle|
        invariant forall j :: 0 <= j < i ==> cycle[j] !in productive
      {
        if cycle[i] in productive {
          return false;
        }
      }
      return true;
    }
  }

  // ---------------------------------------------------------------------------------------------------------------

  /** Along a walk of unproductive states the finishing position only falls. */
  lemma {:induction false} PositionsFall(g: Graph, order: seq<string>, p: seq<string>, i: nat, n: nat)
    requires InOrder(g, order) && IsPath(g, p) && (forall k :: 0 <= k < |p| ==> !Productive(g, p[k]))
    requires i < |order| && order[i] == p[0] && 0 < n < |p|
    ensures p[n] in order[..i]
    decreases n
  {
    hide Targets, Productive;
    if n == 1 {
      assert Targets(g, p[0], p[1]);
    } else {
      PositionsFall(g, order, p, i, n - 1);
      var j :| 0 <= j < i && order[j] == p[n - 1];
      assert Targets(g, p[n - 1], p[n]);
      assert p[n] in order[..j];
      assert order[..j] <= order[..i];
    }
  }

  lemma NotBefore(order: seq<string>, i: nat)
    requires Distinct(order) && i < |order|
    ensures order[i] !in order[..i]
  {
  }

  lemma OrderedIsUntrapped(g: Graph, order: seq<string>)
    requires InOrder(g, order) && Distinct(order) && forall u :: u in g ==> u in order
    ensures !Trapped(g)
  {
    hide Targets, Productive, InOrder;
    forall p | IsTrap(g, p)
      ensures false
    {
      assert Targets(g, p[0], p[1]);
      TargetsAre(g, p[0], p[1]);
      var i :| 0 <= i < |order| && order[i] == p[0];
      NotBefore(order, i);
      PositionsFall(g, order, p, i, |p| - 1);
    }
  }

  lemma KeysInUniverse(g: Graph)
    ensures g.Keys <= Universe(g)
  {
  }

  /** A trap is reported exactly when there is one, and every report is one. */
  method DetectTraps(g: Graph, initial: string) returns (errs: seq<Trap>)
    ensures errs != [] <==> Trapped(g)
    ensures AllTraps(g, errs)
  {
    hide Targets, Productive, Universe, Sound, IsTrap, InOrder, IsPath;
    var productive := ProductiveStates(g);
    var d := new CircularTransitionDetector(g, initial, productive);
    KeysInUniverse(g);
    d.Dfs(initial);
    var todo := g.Keys;
    while todo != {}
      invariant fresh(d) && d.g == g && d.Valid() && d.stack == [] && todo <= g.Keys
      invariant g.Keys <= d.universe
      invariant forall u :: u in g && u !in todo ==> u in d.order
      decreases |todo|
    {
      var id :| id in todo;
      ghost var before := d.order;
      if id !in d.color {
        d.Dfs(id);
      } else {
        ColorTells(g, d.color, d.stack, d.order, d.errs, id);
      }
      assert before <= d.order && id in d.order;
      todo := todo - {id};
    }
    errs := d.errs;
    SoundTells(g, d.color, d.stack, d.order, d.errs);
    if errs == [] {
      OrderedIsUntrapped(g, d.order);
    }
  }

  lemma SoundTells(g: Graph, color: map<string, Color>, stack: seq<string>, order: seq<string>, errs: seq<Trap>)
    requires Sound(g, color, stack, order, errs)
    ensures AllTraps(g, errs) && Distinct(order) && (errs == [] ==> InOrder(g, order))
    ensures errs != [] ==> Trapped(g)
  {
    if errs != [] {
      assert IsTrap(g, errs[0].path);
    }
  }

  /** The states reported as orphans, each once. */
  method OrphanStates(g: Graph, initial: string) returns (orphans: seq<string>)
    ensures Distinct(orphans)
    ensures forall id :: id in orphans <==> id in g && !Reaches(g, initial, id)
  {
    hide Reaches;
    orphans := [];
    var reachable := ReachableFrom(g, initial);
    var todo := g.Keys;
    while todo != {}
      invariant todo <= g.Keys && Distinct(orphans)
      invariant forall id :: id in orphans <==> id in g && id !in todo && !Reaches(g, initial, id)
      decreases |todo|
    {
      var id :| id in todo;
      if id !in reachable {
        orphans := orphans + [id];
      }
      todo := todo - {id};
    }
  }

  /** What the structural validators accept. */
  ghost predicate Validated(g: Graph, initial: string) {
    HasTerminal(g) && (forall id :: id in g ==> Reaches(g, initial, id)) && !Trapped(g)
  }

  method ValidateStructure(g: Graph, initial: string) returns (ok: bool)
    ensures ok <==> Validated(g, initial)
  {
    hide Reaches, Trapped;
    var terminal := FindTerminal(g);
    var orphans := OrphanStates(g, initial);
    var traps := DetectTraps(g, initial);
    assert orphans != [] ==> orphans[0] in orphans;
    ok := terminal && orphans == [] && traps == [];
  }

  // ---------------------------------------------------------------------------------------------------------------

  /** Nothing leads on from here. */
  ghost predicate DeadEnd(g: Graph, id: string) {
    id in g && g[id].transitions == [] && !g[id].kind.Terminal?
  }

  lemma {:induction false} Repeats(p: seq<string>, s: set<string>) returns (i: nat, j: nat)
    requires |p| > |s| && forall k :: 0 <= k < |p| ==> p[k] in s
    ensures i < j < |p| && p[i] == p[j]
    decreases |p|
  {
    var n := |p| - 1;
    if k :| 0 <= k < n && p[k] == p[n] {
      return k, n;
    }
    i, j := Repeats(p[..n], s - {p[n]});
  }

  /** An unproductive state of a graph without dead ends has an unproductive next state. */
  lemma GoesOn(g: Graph, u: string) returns (v: string)
    requires u in g && TargetsKnown(g) && !Productive(g, u) && !DeadEnd(g, u)
    ensures Targets(g, u, v) && v in g && !Productive(g, v)
  {
    hide Reaches, Productive;
    if g[u].kind.Terminal? {
      TerminalIsProductive(g, u);
    }
    v := g[u].transitions[0].targetState;
    TargetsOf(g, u, 0);
    if Productive(g, v) {
      ProductiveFrom(g, u, v);
    }
  }

  ghost predicate Wandering(g: Graph, p: seq<string>) {
    IsPath(g, p) && forall i :: 0 <= i < |p| ==> p[i] in g && !Productive(g, p[i])
  }

  lemma {:induction false} Wanders(g: Graph, u: string, n: nat) returns (p: seq<string>)
    requires u in g && TargetsKnown(g) && !Productive(g, u) && forall id :: !DeadEnd(g, id)
    ensures |p| == n + 1 && Wandering(g, p)
  {
    hide Targets, Productive, DeadEnd, TargetsKnown;
    if n == 0 {
      p := [u];
    } else {
      var q := Wanders(g, u, n - 1);
      var v := GoesOn(g, q[n - 1]);
      p := q + [v];
    }
  }

  /** The stretch between two visits to a state is a closed walk. */
  lemma Loop(g: Graph, p: seq<string>, i: nat, j: nat)
    requires IsPath(g, p) && i < j < |p| && p[i] == p[j]
    ensures var q := p[i..j + 1]; |q| >= 2 && IsPath(g, q) && q[0] == q[|q| - 1] == p[i]
  {
    hide Targets;
    var q := p[i..j + 1];
    forall k | 0 <= k < |q| - 1
      ensures Targets(g, q[k], q[k + 1])
    {
      assert Targets(g, p[i + k], p[i + k + 1]);
    }
  }

  lemma LoopIsTrap(g: Graph, p: seq<string>, i: nat, j: nat)
    requires Wandering(g, p) && i < j < |p| && p[i] == p[j]
    ensures Trapped(g)
  {
    hide Productive, IsPath;
    Loop(g, p, i, j);
    assert IsTrap(g, p[i..j + 1]);
  }

  /**
  In a graph whose targets exist and which has no trap, every state can reach a terminal state if and only if none is a
  dead end.
  */
  lemma EveryStateCanFinishIff(g: Graph)
    requires TargetsKnown(g) && !Trapped(g)
    ensures (forall id :: id in g ==> Productive(g, id)) <==> (forall id :: !DeadEnd(g, id))
  {
    hide Targets, Productive, Trapped, TargetsKnown, IsPath;
    if forall id :: !DeadEnd(g, id) {
      forall id | id in g
        ensures Productive(g, id)
      {
        if !Productive(g, id) {
          var p := Wanders(g, id, |g.Keys|);
          var i, j := Repeats(p, g.Keys);
          LoopIsTrap(g, p, i, j);
        }
      }
    }
    if forall id :: id in g ==> Productive(g, id) {
      forall id
        ensures !DeadEnd(g, id)
      {
        if DeadEnd(g, id) {
          DeadEndIsUnproductive(g, id);
        }
      }
    }
  }

  /** Some way from the initial state to a terminal state passes through. */
  ghost predicate OnTheWay(g: Graph, initial: string, id: string) {
    exists t, p, k :: t in g && g[t].kind.Terminal? && PathBetween(g, p, initial, t) && 0 <= k < |p| && p[k] == id
  }

  lemma OnTheWayIff(g: Graph, initial: string, id: string)
    ensures OnTheWay(g, initial, id) <==> Reaches(g, initial, id) && Productive(g, id)
  {
    hide Targets;
    if OnTheWay(g, initial, id) {
      var t, p, k :| t in g && g[t].kind.Terminal? && PathBetween(g, p, initial, t) && 0 <= k < |p| && p[k] == id;
      Suffix(g, p, k);
      assert PathBetween(g, p[..k + 1], initial, id);
      assert PathBetween(g, p[k..], id, t);
    }
    if Reaches(g, initial, id) && Productive(g, id) {
      var p :| PathBetween(g, p, initial, id);
      var t, q := PathToTerminal(g, id);
      var r := p + q[1..];
      Spliced(g, p, q);
      assert PathBetween(g, r, initial, t) && r[|p| - 1] == id;
    }
  }

  lemma Spliced(g: Graph, p: seq<string>, q: seq<string>)
    requires IsPath(g, p) && IsPath(g, q) && p[|p| - 1] == q[0]
    ensures IsPath(g, p + q[1..]) && (p + q[1..])[|p + q[1..]| - 1] == q[|q| - 1]
  {
    hide Targets;
    var r := p + q[1..];
    forall i | 0 <= i < |r| - 1
      ensures Targets(g, r[i], r[i + 1])
    {
      if i >= |p| - 1 {
        var j := i - (|p| - 1);
        assert Targets(g, q[j], q[j + 1]);
        assert r[i] == q[j] && r[i + 1] == q[j + 1];
      }
    }
  }

  /**
  In a compiled and validated workflow every state lies on a way from start to finish, exactly if none is a dead end.
  */
  lemma ValidatedStatesLeadSomewhereIff(m: Manifest)
    requires WellFormed(m) && Validated(m.states, m.initialState)
    ensures (forall id :: id in m.states ==> OnTheWay(m.states, m.initialState, id)) <==>
      (forall id :: !DeadEnd(m.states, id))
  {
    hide OnTheWay, Productive, Reaches, DeadEnd, TargetsKnown, Trapped;
    EveryStateCanFinishIff(m.states);
    forall id
      ensures OnTheWay(m.states, m.initialState, id) <==>
        Reaches(m.states, m.initialState, id) && Productive(m.states, id)
    {
      OnTheWayIff(m.states, m.initialState, id);
    }
  }

  lemma DeadEndIsUnproductive(g: Graph, id: string)
    requires DeadEnd(g, id)
    ensures !Productive(g, id)
  {
    hide Reaches;
    forall v | Reaches(g, id, v)
      ensures v == id
    {
      if v != id { FirstStep(g, id, v); }
    }
  }

  lemma FirstStep(g: Graph, u: string, v: string)
    requires Reaches(g, u, v) && u != v
    ensures exists w :: Targets(g, u, w)
  {
    hide Targets;
    var p :| PathBetween(g, p, u, v);
    assert Targets(g, p[0], p[1]);
  }

  /** A state reachable from the initial one passes the builder's weaker test. */
  lemma ReachableIsReached(m: Manifest, id: string)
    requires Reaches(m.states, m.initialState, id)
    ensures Reached(m, id)
  {
    hide Targets;
    var p :| PathBetween(m.states, p, m.initialState, id);
    if |p| > 1 {
      assert Targets(m.states, p[|p| - 2], p[|p| - 1]);
    }
  }

  /** The initial state reaches every cycle. */
  ghost predicate CyclesAreReached(g: Graph, initial: string) {
    forall p :: |p| >= 2 && IsPath(g, p) && p[0] == p[|p| - 1] ==> Reaches(g, initial, p[0])
  }

  /** A walk of states out of the initial state's reach. */
  ghost predicate OutOfReach(g: Graph, initial: string, p: seq<string>) {
    IsPath(g, p) && forall i :: 0 <= i < |p| ==> p[i] in g && !Reaches(g, initial, p[i])
  }

  /** An unreachable state that passes the builder's test is targeted by another unreachable state. */
  lemma ComesFrom(m: Manifest, id: string) returns (source: string)
    requires AllReached(m) && id in m.states && !Reaches(m.states, m.initialState, id)
    ensures Targets(m.states, source, id) && source in m.states && !Reaches(m.states, m.initialState, source)
  {
    hide Targets, Reaches;
    ReachesSelf(m.states, m.initialState);
    assert Reached(m, id);
    source :| Targets(m.states, source, id);
    TargetsAre(m.states, source, id);
    if Reaches(m.states, m.initialState, source) {
      ReachesOn(m.states, m.initialState, source, id);
    }
  }

  lemma {:induction false} WalksBack(m: Manifest, id: string, n: nat) returns (p: seq<string>)
    requires AllReached(m) && id in m.states && !Reaches(m.states, m.initialState, id)
    ensures |p| == n + 1 && OutOfReach(m.states, m.initialState, p)
  {
    hide Targets, Reaches, AllReached;
    if n == 0 {
      p := [id];
    } else {
      var q := WalksBack(m, id, n - 1);
      var source := ComesFrom(m, q[0]);
      p := [source] + q;
      forall i | 0 <= i < |p| - 1
        ensures Targets(m.states, p[i], p[i + 1])
      {
        if i > 0 {
          assert Targets(m.states, q[i - 1], q[i - 1 + 1]);
        }
      }
    }
  }

  lemma LoopOutOfReach(g: Graph, initial: string, p: seq<string>, i: nat, j: nat)
    requires OutOfReach(g, initial, p) && i < j < |p| && p[i] == p[j]
    ensures !CyclesAreReached(g, initial)
  {
    hide IsPath, Reaches;
    Loop(g, p, i, j);
    assert !Reaches(g, initial, p[i..j + 1][0]);
  }

  /**
  In a manifest that passes the builder's test, every state is reachable from the initial one if and only if every cycle
  is: an island can only stand on a cycle of its own.
  */
  lemma BuilderTestIsReachabilityIff(m: Manifest)
    requires AllReached(m)
    ensures (forall id :: id in m.states ==> Reaches(m.states, m.initialState, id)) <==>
      CyclesAreReached(m.states, m.initialState)
  {
    hide Targets, Reaches, AllReached;
    if CyclesAreReached(m.states, m.initialState) {
      forall id | id in m.states
        ensures Reaches(m.states, m.initialState, id)
      {
        if !Reaches(m.states, m.initialState, id) {
          var p := WalksBack(m, id, |m.states.Keys|);
          var i, j := Repeats(p, m.states.Keys);
          LoopOutOfReach(m.states, m.initialState, p, i, j);
        }
      }
    }
    if forall id :: id in m.states ==> Reaches(m.states, m.initialState, id) {
      forall p | |p| >= 2 && IsPath(m.states, p) && p[0] == p[|p| - 1]
        ensures Reaches(m.states, m.initialState, p[0])
      {
        assert Targets(m.states, p[0], p[1]);
        TargetsAre(m.states, p[0], p[1]);
      }
    }
  }

  function Going(kind: StateType, targets: seq<string>): State {
    State("", kind, [], seq(|targets|, i requires 0 <= i < |targets| => Transition("e", targets[i], "", map[])),
      map[], 0)
  }

  lemma GoingTargets(g: Graph, id: string, kind: StateType, targets: seq<string>, target: string)
    requires id in g && g[id] == Going(kind, targets)
    ensures Targets(g, id, target) <==> target in targets
  {
    if target in targets {
      var i :| 0 <= i < |targets| && targets[i] == target;
      assert g[id].transitions[i].targetState == target;
    }
  }

  lemma SourcesAreKnown(g: Graph)
    ensures forall id, target :: Targets(g, id, target) ==> id in g
  {
  }

  function Island(start: string, a: string, b: string): Manifest {
    Manifest("", "", start, map[start := Going(Terminal, []), a := Going(Normal, [b]), b := Going(Normal, [a])])
  }

  /**
  `Build` accepts a workflow in which two states that only lead to each other are out of reach; the validator reports
  both.
  */
  lemma IslandPassesTheBuilder(start: string, a: string, b: string)
    requires start != a && start != b && a != b
    ensures var m := Island(start, a, b);
      WellFormed(m) && !Reaches(m.states, start, a) && !Reaches(m.states, start, b)
  {
    hide Reaches, Targets, AllInputsDeclared, AllOutputsProper;
    var g := Island(start, a, b).states;
    BareStatesBindNothing(g);
    SourcesAreKnown(g);
    forall target
      ensures !Targets(g, start, target) && (Targets(g, a, target) <==> target == b)
        && (Targets(g, b, target) <==> target == a)
    {
      GoingTargets(g, start, Terminal, [], target);
      GoingTargets(g, a, Normal, [b], target);
      GoingTargets(g, b, Normal, [a], target);
    }
    assert g[start].kind.Terminal? && Targets(g, a, b) && Targets(g, b, a);
    forall v | Reaches(g, start, v)
      ensures v == start
    {
      if v != start { FirstStep(g, start, v); }
    }
  }

  function HumanLoop(start: string, loop: string, done: string): Manifest {
    Manifest("", "", start,
      map[start := Going(Normal, [loop, done]), loop := Going(HumanInTheLoop, [loop]), done := Going(Terminal, [])])
  }

  /**
  A human in the loop is no way out: `Build` accepts such a cycle, every state is reachable, and it is a trap like any
  other.
  */
  lemma HumanLoopIsTrap(start: string, loop: string, done: string)
    requires start != loop && start != done && loop != done
    ensures var m := HumanLoop(start, loop, done);
      WellFormed(m) && (forall id :: id in m.states ==> Reaches(m.states, start, id)) && Trapped(m.states)
  {
    hide Reaches, Targets, AllInputsDeclared, AllOutputsProper, IsPath;
    var g := HumanLoop(start, loop, done).states;
    BareStatesBindNothing(g);
    SourcesAreKnown(g);
    forall target
      ensures Targets(g, start, target) <==> target == loop || target == done
      ensures Targets(g, loop, target) <==> target == loop
      ensures !Targets(g, done, target)
    {
      GoingTargets(g, start, Normal, [loop, done], target);
      GoingTargets(g, loop, HumanInTheLoop, [loop], target);
      GoingTargets(g, done, Terminal, [], target);
    }
    assert g[done].kind.Terminal?;
    OneStepReaches(g, start, loop);
    OneStepReaches(g, start, done);
    OneStepReaches(g, loop, loop);
    forall v | Reaches(g, loop, v)
      ensures v == loop
    {
      StaysPut(g, loop, v);
    }
    assert IsTrap(g, [loop, loop]);
  }

  lemma OneStepReaches(g: Graph, u: string, v: string)
    requires Targets(g, u, v)
    ensures Reaches(g, u, u) && Reaches(g, u, v) && IsPath(g, [u, v])
  {
    hide Targets;
    assert PathBetween(g, [u], u, u);
    assert PathBetween(g, [u, v], u, v);
  }

  lemma StaysPut(g: Graph, u: string, v: string)
    requires Reaches(g, u, v) && forall t :: Targets(g, u, t) ==> t == u
    ensures v == u
  {
    hide Targets;
    var p :| PathBetween(g, p, u, v);
    StaysAtStart(g, u, p, |p| - 1);
  }

  lemma {:induction false} StaysAtStart(g: Graph, start: string, p: seq<string>, n: nat)
    requires IsPath(g, p) && p[0] == start && n < |p|
    requires forall v :: Targets(g, start, v) ==> v == start
    ensures p[n] == start
  {
    hide Targets;
    if n == 0 {
    } else {
      StaysAtStart(g, start, p, n - 1);
      assert Targets(g, p[n - 1], p[n]);
    }
  }
}
