/** Call graphs as maps from a function to its callees, and paths in them. */
module CallGraph {
  type Graph = map<nat, set<nat>>

  predicate Edge(g: Graph, a: nat, b: nat) {
    a in g && b in g[a]
  }

  predicate IsPath(g: Graph, p: seq<nat>) {
    |p| > 0 && forall i | 0 <= i < |p| - 1 :: Edge(g, p[i], p[i + 1])
  }

  predicate PathFrom(g: Graph, p: seq<nat>, a: nat, b: nat) {
    IsPath(g, p) && p[0] == a && p[|p| - 1] == b
  }

  /** Some chain of calls, possibly empty, leads from `a` to `b`. */
  ghost predicate Reaches(g: Graph, a: nat, b: nat) {
    exists p :: PathFrom(g, p, a, b)
  }

  /** A chain of at least one call. */
  ghost predicate Calls(g: Graph, a: nat, b: nat) {
    exists p :: |p| >= 2 && PathFrom(g, p, a, b)
  }

  ghost predicate HasCycle(g: Graph) {
    exists a: nat :: Calls(g, a, a)
  }

  lemma EdgeCalls(g: Graph, a: nat, b: nat)
    requires Edge(g, a, b)
    ensures Calls(g, a, b)
  {
    assert PathFrom(g, [a, b], a, b);
  }

  lemma CallsFurther(g: Graph, a: nat, b: nat, c: nat)
    requires Calls(g, a, b) && Edge(g, b, c)
    ensures Calls(g, a, c)
  {
    var p :| |p| >= 2 && PathFrom(g, p, a, b);
    var q := p + [c];
    forall i | 0 <= i < |q| - 1 ensures Edge(g, q[i], q[i + 1]) {
      if i < |p| - 1 { assert Edge(g, p[i], p[i + 1]); }
    }
    assert PathFrom(g, q, a, c);
  }

  lemma ReachesItself(g: Graph, a: nat)
    ensures Reaches(g, a, a)
  {
    assert PathFrom(g, [a], a, a);
  }

  lemma ReachesBefore(g: Graph, a: nat, b: nat, c: nat)
    requires Edge(g, a, b) && Reaches(g, b, c)
    ensures Reaches(g, a, c)
  {
    var p :| PathFrom(g, p, b, c);
    var q := [a] + p;
    forall i | 0 <= i < |q| - 1 ensures Edge(g, q[i], q[i + 1]) {
      if i > 0 { assert Edge(g, p[i - 1], p[i]); }
    }
    assert PathFrom(g, q, a, c);
  }
}

/** Inline functions must not call each other in a circle: the three-colour search. */
module InlineRecursion {
  import opened CallGraph

  datatype Colour = OnPath | Cleared

  function ToGraph(succs: map<nat, seq<nat>>): Graph {
    map f | f in succs :: set s | s in succs[f]
  }

  /** Numbers for which every call goes to a smaller one. */
  ghost predicate Descends(g: Graph, rank: map<nat, nat>) {
    forall a, b | Edge(g, a, b) :: a in rank && b in rank && rank[b] < rank[a]
  }

  /** Where calls descend, there is no cycle. */
  lemma {:induction false} PathDescends(g: Graph, rank: map<nat, nat>, p: seq<nat>)
    requires Descends(g, rank) && IsPath(g, p) && |p| >= 2
    ensures p[0] in rank && p[|p| - 1] in rank && rank[p[|p| - 1]] < rank[p[0]]
    decreases |p|
  {
    assert Edge(g, p[0], p[1]);
    if |p| > 2 {
      var q := p[1..];
      forall i | 0 <= i < |q| - 1 ensures Edge(g, q[i], q[i + 1]) {
        assert Edge(g, p[i + 1], p[i + 2]);
      }
      PathDescends(g, rank, q);
    }
  }

  lemma DescentHasNoCycle(g: Graph, rank: map<nat, nat>)
    requires Descends(g, rank)
    ensures !HasCycle(g)
  {
    forall a: nat ensures !Calls(g, a, a) {
      forall p ensures !(|p| >= 2 && PathFrom(g, p, a, a)) {
        if |p| >= 2 && IsPath(g, p) { PathDescends(g, rank, p); }
      }
    }
  }

  class Search {
    const succs: map<nat, seq<nat>>
    var visited: map<nat, Colour>
    /** The order in which functions were cleared. */
    ghost var rank: map<nat, nat>
    ghost var clock: nat

    constructor (succs: map<nat, seq<nat>>)
      ensures Valid() && this.succs == succs && visited == map[]
    {
      this.succs, visited, rank, clock := succs, map[], map[], 0;
    }

    predicate IsCleared(f: nat)
      reads this
    {
      f in visited && visited[f] == Cleared
    }

    predicate IsOnPath(f: nat)
      reads this
    {
      f in visited && visited[f] == OnPath
    }

    /** Cleared functions call only functions cleared before them. */
    ghost predicate Valid()
      reads this
    {
      && (forall f | f in rank :: IsCleared(f) && rank[f] < clock)
      && (forall f | IsCleared(f) :: f in rank)
      && (forall f, s | IsCleared(f) && f in succs && s in succs[f] :: IsCleared(s) && rank[s] < rank[f])
    }

    ghost predicate AllOnPathCall(node: nat)
      reads this
    {
      forall f | IsOnPath(f) :: Calls(ToGraph(succs), f, node)
    }

    ghost function Universe(): set<nat> {
      succs.Keys + set f, s | f in succs && s in succs[f] :: s
    }

    /** Between two moments of the search: the path is the same but for `extra`, and what
        was cleared stays cleared. */
    twostate predicate Progress(extra: set<nat>)
      reads this
    {
      && (forall f :: IsOnPath(f) <==> f in extra || old(IsOnPath(f)))
      && (forall f | old(IsCleared(f)) :: IsCleared(f))
      && old(visited).Keys <= visited.Keys
    }

    /** Visit `node`: a cycle is reported only if there is one, and otherwise everything
        `node` calls has been cleared. */
    method Dfs(node: nat) returns (cycle: bool)
      requires Valid() && node in Universe() && AllOnPathCall(node)
      modifies this
      ensures cycle ==> HasCycle(ToGraph(succs))
      ensures !cycle ==> Valid() && IsCleared(node) && Progress({})
      decreases Universe() - visited.Keys, 1
    {
      if node in visited {
        if visited[node] == OnPath {
          assert Calls(ToGraph(succs), node, node);
          return true;
        }
        return false;
      }
      Enter(node);
      cycle := false;
      if node in succs { cycle := Successors(node); }
      if !cycle { Clear(node); }
    }

    method Enter(node: nat)
      requires Valid() && node !in visited
      modifies this`visited
      ensures Valid() && visited == old(visited)[node := OnPath] && Progress({node})
    {
      visited := visited[node := OnPath];
    }

    /** Done with `node`: everything it calls is cleared. */
    method Clear(node: nat)
      requires Valid() && IsOnPath(node) && (node in succs ==> forall s | s in succs[node] :: IsCleared(s))
      modifies this
      ensures Valid() && visited == old(visited)[node := Cleared]
    {
      visited := visited[node := Cleared];
      rank, clock := rank[node := clock], clock + 1;
    }

    method Successors(node: nat) returns (cycle: bool)
      requires Valid() && node in succs && IsOnPath(node)
      requires forall f | IsOnPath(f) :: f == node || Calls(ToGraph(succs), f, node)
      modifies this
      ensures cycle ==> HasCycle(ToGraph(succs))
      ensures !cycle ==> Valid() && Progress({})
      ensures !cycle ==> forall s | s in succs[node] :: IsCleared(s)
      decreases Universe() - visited.Keys, 2
    {
      var i := 0;
      while i < |succs[node]|
        invariant i <= |succs[node]| && Valid() && Progress({})
        invariant forall k | 0 <= k < i :: IsCleared(succs[node][k])
      {
        CallsNext(node, succs[node][i]);
        cycle := Dfs(succs[node][i]);
        if cycle { return; }
        i := i + 1;
      }
      cycle := false;
    }

    lemma CallsNext(node: nat, s: nat)
      requires node in succs && s in succs[node]
      requires forall f | IsOnPath(f) :: f == node || Calls(ToGraph(succs), f, node)
      ensures AllOnPathCall(s)
    {
      var g := ToGraph(succs);
      assert Edge(g, node, s);
      EdgeCalls(g, node, s);
      forall f | IsOnPath(f) ensures Calls(g, f, s) {
        if f != node { CallsFurther(g, f, node, s); }
      }
    }
  }

  /** Start from every inline function, in whatever order. */
  method DetectInlineRecursion(succs: map<nat, seq<nat>>, starts: seq<nat>) returns (cycle: bool, ghost rank: map<nat, nat>)
    requires (set f | f in starts) == succs.Keys
    ensures cycle <==> HasCycle(ToGraph(succs))
    ensures !cycle ==> Descends(ToGraph(succs), rank)
  {
    var search := new Search(succs);
    for i := 0 to |starts|
      invariant search.succs == succs && search.Valid() && fresh(search)
      invariant forall f :: !search.IsOnPath(f)
      invariant forall k | 0 <= k < i :: search.IsCleared(starts[k])
    {
      assert starts[i] in succs.Keys;
      cycle := search.Dfs(starts[i]);
      if cycle {
        rank := map[];
        return;
      }
    }
    cycle, rank := false, search.rank;
    forall a, b | Edge(ToGraph(succs), a, b) ensures a in rank && b in rank && rank[b] < rank[a] {
      assert a in starts;
      assert search.IsCleared(a);
    }
    DescentHasNoCycle(ToGraph(succs), rank);
  }
}
