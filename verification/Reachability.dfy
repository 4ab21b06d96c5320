/**
Breadth-first search over a workflow graph, forwards from one state and backwards from the terminal states, against
paths.
*/
module Reachability {
  import opened Compiler

  type Graph = map<string, State>

  /** A walk along transitions: each state targets the next. */
  ghost predicate IsPath(g: Graph, p: seq<string>) {
    p != [] && forall i :: 0 <= i < |p| - 1 ==> Targets(g, p[i], p[i + 1])
  }

  ghost predicate PathBetween(g: Graph, p: seq<string>, u: string, v: string) {
    IsPath(g, p) && p[0] == u && p[|p| - 1] == v
  }

  ghost predicate Reaches(g: Graph, u: string, v: string) {
    exists p :: PathBetween(g, p, u, v)
  }

  /** A terminal state can be reached. */
  ghost predicate Productive(g: Graph, u: string) {
    exists v :: v in g && g[v].kind.Terminal? && Reaches(g, u, v)
  }

  /** Every state a transition leaves or enters. */
  ghost function Universe(g: Graph): set<string> {
    g.Keys + set id, i | id in g && 0 <= i < |g[id].transitions| :: g[id].transitions[i].targetState
  }

  lemma TargetsInUniverse(g: Graph, u: string, v: string)
    requires Targets(g, u, v)
    ensures u in Universe(g) && v in Universe(g)
  {
  }

  lemma ReachesSelf(g: Graph, u: string)
    ensures Reaches(g, u, u)
  {
    assert PathBetween(g, [u], u, u);
  }

  lemma ReachesOn(g: Graph, u: string, v: string, w: string)
    requires Reaches(g, u, v) && Targets(g, v, w)
    ensures Reaches(g, u, w)
  {
    hide Targets;
    var p :| PathBetween(g, p, u, v);
    assert PathBetween(g, p + [w], u, w);
  }

  lemma ReachesFrom(g: Graph, u: string, v: string, w: string)
    requires Targets(g, u, v) && Reaches(g, v, w)
    ensures Reaches(g, u, w)
  {
    hide Targets;
    var p :| PathBetween(g, p, v, w);
    var q := [u] + p;
    forall i | 0 <= i < |q| - 1
      ensures Targets(g, q[i], q[i + 1])
    {
      if i > 0 {
        assert Targets(g, p[i - 1], p[i]);
      }
    }
    assert PathBetween(g, q, u, w);
  }

  lemma ProductiveFrom(g: Graph, u: string, v: string)
    requires Targets(g, u, v) && Productive(g, v)
    ensures Productive(g, u)
  {
    hide Reaches, Targets;
    var t :| t in g && g[t].kind.Terminal? && Reaches(g, v, t);
    ReachesFrom(g, u, v, t);
  }

  /** A set closed under transitions holds every path that starts in it. */
  lemma {:induction false} ClosedHoldsPaths(g: Graph, s: set<string>, p: seq<string>, n: nat)
    requires forall u, v :: u in s && Targets(g, u, v) ==> v in s
    requires IsPath(g, p) && p[0] in s && n < |p|
    ensures p[n] in s
  {
    hide Targets;
    if n == 0 {
    } else {
      ClosedHoldsPaths(g, s, p, n - 1);
      assert Targets(g, p[n - 1], p[n]);
    }
  }

  /** A set closed against transitions holds every path that ends in it. */
  lemma {:induction false} ClosedHoldsPathsInto(g: Graph, s: set<string>, p: seq<string>, n: nat)
    requires forall u, v :: v in s && Targets(g, u, v) ==> u in s
    requires IsPath(g, p) && p[|p| - 1] in s && n < |p|
    ensures p[n] in s
    decreases |p| - n
  {
    hide Targets;
    if n == |p| - 1 {
    } else {
      ClosedHoldsPathsInto(g, s, p, n + 1);
      assert Targets(g, p[n], p[n + 1]);
    }
  }

  // ---------------------------------------------------------------------------------------------------------------

  /** A search under way: everything found is real, and whatever is found and not queued is expanded. */
  ghost predicate Searching(g: Graph, start: string, visited: set<string>, queue: seq<string>, open: set<string>) {
    && start in visited
    && visited <= Universe(g) + {start}
    && (forall u :: u in visited ==> Reaches(g, start, u))
    && (forall u :: u in queue ==> u in visited)
    && (forall u, v :: u in visited && u !in queue && u !in open && Targets(g, u, v) ==> v in visited)
  }

  /** The search visits exactly the states that can be reached. */
  method ReachableFrom(g: Graph, start: string) returns (visited: set<string>)
    ensures forall u :: u in visited <==> Reaches(g, start, u)
  {
    hide Targets, Reaches, Universe;
    visited := {start};
    var queue := [start];
    ReachesSelf(g, start);
    while queue != []
      invariant Searching(g, start, visited, queue, {})
      decreases |Universe(g) + {start} - visited|, |queue|
    {
      var curr := queue[0];
      queue := queue[1..];
      ghost var before := visited;
      if curr !in g {
        NoTransitions(g, curr);
        continue;
      }
      visited, queue := Expand(g, start, curr, visited, queue);
      Smaller(Universe(g) + {start}, before, visited);
    }
    forall u | Reaches(g, start, u)
      ensures u in visited
    {
      assert exists p :: PathBetween(g, p, start, u) by { PathOf(g, start, u); }
      var p :| PathBetween(g, p, start, u);
      ClosedHoldsPaths(g, visited, p, |p| - 1);
    }
  }

  lemma PathOf(g: Graph, u: string, v: string)
    requires Reaches(g, u, v)
    ensures exists p :: PathBetween(g, p, u, v)
  {
  }

  lemma NoTransitions(g: Graph, u: string)
    requires u !in g
    ensures forall v :: !Targets(g, u, v)
  {
  }

  lemma Smaller(all: set<string>, before: set<string>, now: set<string>)
    requires before <= now <= all
    ensures |all - now| <= |all - before|
    ensures now != before ==> |all - now| < |all - before|
  {
    Fewer(all - now, all - before);
    if now != before {
      var x :| x in now && x !in before;
      assert x in all - before && x !in all - now;
      assert all - now < all - before;
      Fewer(all - now, all - before - {x});
    }
  }

  lemma {:induction false} Fewer(a: set<string>, b: set<string>)
    requires a <= b
    ensures |a| <= |b|
  {
    if a == {} {
    } else {
      var x :| x in a;
      Fewer(a - {x}, b - {x});
    }
  }

  /** The inner loop: queues the targets of `curr` not seen before. */
  method Expand(g: Graph, ghost start: string, curr: string, visited0: set<string>, queue0: seq<string>)
    returns (visited: set<string>, queue: seq<string>)
    requires curr in g && curr in visited0 && Searching(g, start, visited0, queue0, {curr})
    ensures Searching(g, start, visited, queue, {})
    ensures visited0 <= visited && (visited == visited0 ==> queue == queue0)
  {
    hide Targets, Reaches, Universe;
    visited, queue := visited0, queue0;
    var ts := g[curr].transitions;
    for k := 0 to |ts|
      invariant visited0 <= visited && (visited == visited0 ==> queue == queue0)
      invariant Searching(g, start, visited, queue, {curr})
      invariant forall j :: 0 <= j < k ==> ts[j].targetState in visited
    {
      var next := ts[k].targetState;
      if next !in visited {
        assert Targets(g, curr, next) by { TargetsOf(g, curr, k); }
        ReachesOn(g, start, curr, next);
        TargetsInUniverse(g, curr, next);
        visited, queue := visited + {next}, queue + [next];
      }
    }
    forall v | Targets(g, curr, v)
      ensures v in visited
    {
      TargetsAre(g, curr, v);
    }
  }

  lemma TargetsOf(g: Graph, u: string, k: nat)
    requires u in g && k < |g[u].transitions|
    ensures Targets(g, u, g[u].transitions[k].targetState)
  {
  }

  lemma TargetsAre(g: Graph, u: string, v: string)
    requires Targets(g, u, v)
    ensures u in g && exists k :: 0 <= k < |g[u].transitions| && g[u].transitions[k].targetState == v
  {
  }

  // ---------------------------------------------------------------------------------------------------------------

  function Preds(reverse: map<string, seq<string>>, v: string): seq<string> {
    if v in reverse then reverse[v] else []
  }

  /** `reverse` lists the transitions out of `done`, and the first `k` out of `id`, by target. */
  ghost predicate Reversed(g: Graph, reverse: map<string, seq<string>>, done: set<string>, id: string, k: nat) {
    forall u, v :: u in Preds(reverse, v) <==> (u in done && Targets(g, u, v)) || (u == id && TargetsAmong(g, id, k, v))
  }

  ghost predicate TargetsAmong(g: Graph, id: string, k: nat, v: string) {
    id in g && k <= |g[id].transitions| && exists j :: 0 <= j < k && g[id].transitions[j].targetState == v
  }

  lemma AmongStep(g: Graph, id: string, k: nat)
    requires id in g && k < |g[id].transitions|
    ensures forall v :: TargetsAmong(g, id, k + 1, v) <==>
      TargetsAmong(g, id, k, v) || v == g[id].transitions[k].targetState
  {
    var ts := g[id].transitions;
    forall v
      ensures TargetsAmong(g, id, k + 1, v) <==> TargetsAmong(g, id, k, v) || v == ts[k].targetState
    {
      if v == ts[k].targetState {
        assert ts[k].targetState == v;
      } else if TargetsAmong(g, id, k, v) {
        var j :| 0 <= j < k && ts[j].targetState == v;
      }
    }
  }

  lemma AmongNoneOrAll(g: Graph, id: string)
    requires id in g
    ensures forall v :: !TargetsAmong(g, id, 0, v)
    ensures forall v :: TargetsAmong(g, id, |g[id].transitions|, v) <==> Targets(g, id, v)
  {
  }

  method ReverseEdges(g: Graph) returns (reverse: map<string, seq<string>>)
    ensures forall u, v :: u in Preds(reverse, v) <==> Targets(g, u, v)
  {
    hide Targets, TargetsAmong, Preds;
    reverse := map id | id in g :: [];
    var todo := g.Keys;
    ghost var done: set<string> := {};
    assert forall u, v :: u !in Preds(reverse, v) by { NoPreds(reverse); }
    while todo != {}
      invariant todo <= g.Keys && done == g.Keys - todo
      invariant forall u, v :: u in Preds(reverse, v) <==> u in done && Targets(g, u, v)
      decreases |todo|
    {
      var id :| id in todo;
      reverse := ReverseOne(g, reverse, done, id);
      todo, done := todo - {id}, done + {id};
    }
    forall u, v | Targets(g, u, v)
      ensures u in done
    {
      TargetsAre(g, u, v);
    }
  }

  lemma NoPreds(reverse: map<string, seq<string>>)
    requires forall v :: v in reverse ==> reverse[v] == []
    ensures forall u, v :: u !in Preds(reverse, v)
  {
  }

  lemma PredsStep(reverse: map<string, seq<string>>, target: string, id: string)
    ensures forall u, v :: u in Preds(reverse[target := Preds(reverse, target) + [id]], v) <==>
      u in Preds(reverse, v) || (u == id && v == target)
  {
    var more := Preds(reverse, target) + [id];
    forall v
      ensures Preds(reverse[target := more], v) == if v == target then more else Preds(reverse, v)
    {
    }
    hide Preds;
    assert forall u :: u in more <==> u in Preds(reverse, target) || u == id;
  }

  method ReverseOne(g: Graph, reverse0: map<string, seq<string>>, ghost done: set<string>, id: string)
      returns (reverse: map<string, seq<string>>)
    requires id in g && id !in done
    requires forall u, v :: u in Preds(reverse0, v) <==> u in done && Targets(g, u, v)
    ensures forall u, v :: u in Preds(reverse, v) <==> u in done + {id} && Targets(g, u, v)
  {
    hide Targets, TargetsAmong, Preds;
    reverse := reverse0;
    AmongNoneOrAll(g, id);
    var ts := g[id].transitions;
    for k := 0 to |ts|
      invariant Reversed(g, reverse, done, id, k)
    {
      var target := ts[k].targetState;
      AmongStep(g, id, k);
      PredsStep(reverse, target, id);
      reverse := reverse[target := Preds(reverse, target) + [id]];
    }
  }

  /** A backward search under way. */
  ghost predicate SearchingBack(g: Graph, productive: set<string>, queue: seq<string>, open: set<string>) {
    && productive <= g.Keys
    && (forall t :: t in g && g[t].kind.Terminal? ==> t in productive)
    && (forall u :: u in productive ==> Productive(g, u))
    && (forall u :: u in queue ==> u in productive)
    && (forall u, v :: v in productive && v !in queue && v !in open && Targets(g, u, v) ==> u in productive)
  }

  /** The backward search finds exactly the states from which a terminal state can be reached. */
  method ProductiveStates(g: Graph) returns (productive: set<string>)
    ensures forall u :: u in productive <==> Productive(g, u)
  {
    hide Targets, Productive, Reaches;
    var reverse := ReverseEdges(g);
    var queue: seq<string>;
    productive, queue := Terminals(g);
    while queue != []
      invariant SearchingBack(g, productive, queue, {})
      decreases |g.Keys - productive|, |queue|
    {
      var curr := queue[0];
      queue := queue[1..];
      ghost var before := productive;
      productive, queue := ExpandBack(g, reverse, curr, productive, queue);
      Smaller(g.Keys, before, productive);
    }
    forall u | Productive(g, u)
      ensures u in productive
    {
      AllFound(g, productive, u);
    }
  }

  lemma AllFound(g: Graph, productive: set<string>, u: string)
    requires SearchingBack(g, productive, [], {}) && Productive(g, u)
    ensures u in productive
  {
    hide Targets, Productive, Reaches;
    var t, p := PathToTerminal(g, u);
    ClosedHoldsPathsInto(g, productive, p, 0);
  }

  lemma PathToTerminal(g: Graph, u: string) returns (t: string, p: seq<string>)
    requires Productive(g, u)
    ensures t in g && g[t].kind.Terminal? && PathBetween(g, p, u, t)
  {
    hide Targets;
    t :| t in g && g[t].kind.Terminal? && Reaches(g, u, t);
    p :| PathBetween(g, p, u, t);
  }

  method Terminals(g: Graph) returns (productive: set<string>, queue: seq<string>)
    ensures SearchingBack(g, productive, queue, {})
  {
    hide Targets, Productive, Reaches;
    productive, queue := {}, [];
    var todo := g.Keys;
    while todo != {}
      invariant todo <= g.Keys
      invariant forall u :: u in productive <==> u in g && u !in todo && g[u].kind.Terminal?
      invariant forall u :: u in queue <==> u in productive
      decreases |todo|
    {
      var id :| id in todo;
      if g[id].kind.Terminal? {
        productive, queue := productive + {id}, queue + [id];
      }
      todo := todo - {id};
    }
    forall u | u in productive
      ensures Productive(g, u)
    {
      TerminalIsProductive(g, u);
    }
  }

  lemma TerminalIsProductive(g: Graph, u: string)
    requires u in g && g[u].kind.Terminal?
    ensures Productive(g, u)
  {
    ReachesSelf(g, u);
  }

  method ExpandBack(g: Graph, reverse: map<string, seq<string>>, curr: string, productive0: set<string>,
      queue0: seq<string>)
    returns (productive: set<string>, queue: seq<string>)
    requires forall u, v :: u in Preds(reverse, v) <==> Targets(g, u, v)
    requires curr in productive0 && SearchingBack(g, productive0, queue0, {curr})
    ensures SearchingBack(g, productive, queue, {})
    ensures productive0 <= productive && (productive == productive0 ==> queue == queue0)
  {
    hide Targets, Productive, Reaches, Preds;
    productive, queue := productive0, queue0;
    var preds := Preds(reverse, curr);
    for k := 0 to |preds|
      invariant productive0 <= productive && (productive == productive0 ==> queue == queue0)
      invariant SearchingBack(g, productive, queue, {curr})
      invariant forall j :: 0 <= j < k ==> preds[j] in productive
    {
      var pred := preds[k];
      if pred !in productive {
        assert Targets(g, pred, curr);
        ProductiveFrom(g, pred, curr);
        TargetsAre(g, pred, curr);
        productive, queue := productive + {pred}, queue + [pred];
      }
    }
  }
}
