/** The dependency graph of a manifest and the three-colour depth-first search that
    looks for a cycle in it (backend/internal/manifest/validator.go). */
module DependencyGraph {
  import opened Sorting

  type Graph = map<string, seq<string>>

  function Successors(g: Graph, n: string): seq<string> {
    if n in g then g[n] else []
  }

  /** Every name the search can meet: resources and whatever they mention. */
  function Names(g: Graph): set<string> {
    g.Keys + set n, d | n in g && d in g[n] :: d
  }

  ghost predicate Walk(g: Graph, w: seq<string>) {
    forall i | 0 <= i < |w| - 1 :: w[i + 1] in Successors(g, w[i])
  }

  ghost predicate ClosedWalk(g: Graph, w: seq<string>) {
    |w| >= 2 && Walk(g, w) && w[0] == w[|w| - 1]
  }

  ghost predicate Acyclic(g: Graph) {
    forall w :: !ClosedWalk(g, w)
  }

  /** Every dependency comes strictly before what depends on it. */
  ghost predicate Topological(g: Graph, order: seq<string>) {
    && NoDuplicates(order)
    && forall i | 0 <= i < |order| :: forall d | d in Successors(g, order[i]) :: d in order[..i]
  }

  /** Along a walk that starts inside a topological order, positions strictly fall. */
  lemma {:induction false} WalkDescends(g: Graph, order: seq<string>, w: seq<string>, p: nat) returns (q: nat)
    requires Topological(g, order) && w != [] && Walk(g, w)
    requires p < |order| && order[p] == w[0]
    ensures q < |order| && order[q] == w[|w| - 1]
    ensures if |w| == 1 then q == p else q < p
    decreases |w|
  {
    if |w| == 1 {
      q := p;
    } else {
      assert w[1] in Successors(g, w[0]) by { assert w[0 + 1] in Successors(g, w[0]); }
      var r :| 0 <= r < p && order[r] == w[1];
      assert Walk(g, w[1..]) by {
        forall i | 0 <= i < |w[1..]| - 1 ensures w[1..][i + 1] in Successors(g, w[1..][i]) {
          assert w[i + 1 + 1] in Successors(g, w[i + 1]);
        }
      }
      q := WalkDescends(g, order, w[1..], r);
    }
  }

  /** An order that covers every resource rules out every cycle. */
  lemma {:induction false} OrderedIsAcyclic(g: Graph, order: seq<string>)
    requires Topological(g, order) && forall n | n in g :: n in order
    ensures Acyclic(g)
  {
    forall w | ClosedWalk(g, w) ensures false {
      assert w[0 + 1] in Successors(g, w[0]);
      var p :| 0 <= p < |order| && order[p] == w[0];
      var q := WalkDescends(g, order, w, p);
    }
  }

  lemma {:induction false} WalkExtends(g: Graph, w: seq<string>, d: string)
    requires w != [] && Walk(g, w) && d in Successors(g, w[|w| - 1])
    ensures Walk(g, w + [d])
  {
    var v := w + [d];
    forall i | 0 <= i < |v| - 1 ensures v[i + 1] in Successors(g, v[i]) {
      if i < |w| - 1 {
        assert w[i + 1] in Successors(g, w[i]);
      }
    }
  }

  /** A walk that returns to one of its own nodes contains a closed walk. */
  lemma {:induction false} WalkCloses(g: Graph, path: seq<string>, start: nat)
    requires path != [] && Walk(g, path) && start < |path|
    requires path[start] in Successors(g, path[|path| - 1])
    ensures ClosedWalk(g, path[start..] + [path[start]])
  {
    var tail := path[start..];
    forall i | 0 <= i < |tail| - 1 ensures tail[i + 1] in Successors(g, tail[i]) {
      assert path[start + i + 1] in Successors(g, path[start + i]);
    }
    WalkExtends(g, tail, path[start]);
  }

  lemma TopologicalAppend(g: Graph, order: seq<string>, n: string)
    requires Topological(g, order) && n !in order
    requires forall d | d in Successors(g, n) :: d in order
    ensures Topological(g, order + [n])
  {
    var longer := order + [n];
    forall i, d | 0 <= i < |longer| && d in Successors(g, longer[i]) ensures d in longer[..i] {
      if i < |order| {
        assert longer[..i] == order[..i];
      } else {
        assert longer[..i] == order;
      }
    }
  }

  /** Conversely every acyclic graph has a topological order: finish the nodes of a
      depth-first walk one after another. */
  lemma {:induction false} AcyclicIsOrdered(g: Graph) returns (order: seq<string>)
    requires Acyclic(g)
    ensures Topological(g, order) && forall n | n in g :: n in order
  {
    order := [];
    var todo := g.Keys;
    while todo != {}
      invariant Topological(g, order) && forall n | n in g && n !in todo :: n in order
    {
      var n :| n in todo;
      order := Finish(g, [n], order);
      todo := todo - {n};
    }
  }

  ghost function Unmet(g: Graph, seen: set<string>): nat {
    |Names(g) - seen|
  }

  lemma {:induction false} UnmetFalls(g: Graph, seen: set<string>, more: set<string>, n: string)
    requires seen + {n} <= more && n in Names(g) - seen
    ensures Unmet(g, more) < Unmet(g, seen)
  {
    var a, b := Names(g) - more, Names(g) - seen - {n};
    assert b == a + (b - a);
    assert Names(g) - seen == b + {n};
  }

  ghost function Elements(path: seq<string>): set<string> {
    set n | n in path
  }

  lemma {:induction false} Finish(g: Graph, path: seq<string>, order: seq<string>) returns (longer: seq<string>)
    requires Acyclic(g) && Topological(g, order)
    requires path != [] && Walk(g, path) && NoDuplicates(path) && path[|path| - 1] in Names(g)
    ensures Topological(g, longer) && order <= longer && path[|path| - 1] in longer
    decreases Unmet(g, Elements(path)), 1
  {
    var node := path[|path| - 1];
    longer := order;
    if node !in order {
      var deps := Successors(g, node);
      for i := 0 to |deps|
        invariant Topological(g, longer) && order <= longer
        invariant forall k | 0 <= k < i :: deps[k] in longer
      {
        longer := FinishNext(g, path, longer, deps[i]);
      }
      if node !in longer {
        TopologicalAppend(g, longer, node);
        longer := longer + [node];
      }
    }
  }

  lemma {:induction false} FinishNext(g: Graph, path: seq<string>, order: seq<string>, dep: string)
    returns (longer: seq<string>)
    requires Acyclic(g) && Topological(g, order)
    requires path != [] && Walk(g, path) && NoDuplicates(path)
    requires dep in Successors(g, path[|path| - 1])
    ensures Topological(g, longer) && order <= longer && dep in longer
    decreases Unmet(g, Elements(path)), 0
  {
    if dep in path {
      var start :| 0 <= start < |path| && path[start] == dep;
      WalkCloses(g, path, start);
      longer := order;
    } else {
      WalkExtends(g, path, dep);
      UnmetFalls(g, Elements(path), Elements(path + [dep]), dep);
      longer := Finish(g, path + [dep], order);
    }
  }

  /** Absent from the map: unvisited. */
  datatype Colour = Visiting | Visited

  /** The visiting nodes are exactly the nodes on the path, and the visited ones are
      listed, in the order they were left, topologically. */
  ghost predicate Colouring(g: Graph, visited: map<string, Colour>, finished: seq<string>, path: seq<string>) {
    && NoDuplicates(path)
    && (forall n :: (n in visited && visited[n] == Visiting) <==> n in path)
    && (forall n :: (n in visited && visited[n] == Visited) <==> n in finished)
    && Topological(g, finished)
  }

  lemma {:induction false} Enter(g: Graph, visited: map<string, Colour>, finished: seq<string>, path: seq<string>, n: string)
    requires Colouring(g, visited, finished, path) && n !in visited
    ensures Colouring(g, visited[n := Visiting], finished, path + [n])
  {
    assert n !in path && n !in finished;
  }

  lemma {:induction false} Leave(g: Graph, visited: map<string, Colour>, finished: seq<string>, path: seq<string>, n: string)
    requires Colouring(g, visited, finished, path + [n])
    requires forall d | d in Successors(g, n) :: d in finished
    ensures Colouring(g, visited[n := Visited], finished + [n], path)
  {
    var here := path + [n];
    assert here[|path|] == n && n in here && n !in finished;
    assert n !in path by {
      assert forall i | 0 <= i < |path| :: here[i] == path[i];
    }
    TopologicalAppend(g, finished, n);
    forall m ensures m in here <==> m in path || m == n {}
    forall i, j | 0 <= i < j < |path| ensures path[i] != path[j] {
      assert here[i] != here[j];
    }
  }

  /** The state the recursive closure of detectCycles shares: its colours and the cycle
      it reports. */
  class CycleSearch {
    const adj: Graph
    var visited: map<string, Colour>
    var cycle: seq<string>
    ghost var finished: seq<string>

    constructor (adj: Graph)
      ensures this.adj == adj && visited == map[] && cycle == [] && finished == []
    {
      this.adj := adj;
      visited, cycle, finished := map[], [], [];
    }

    method Dfs(node: string, path: seq<string>) returns (found: bool)
      requires Colouring(adj, visited, finished, path) && Walk(adj, path + [node])
      requires node !in visited && node in Names(adj)
      modifies this
      ensures found ==> ClosedWalk(adj, cycle) && NoDuplicates(cycle[1..])
      ensures !found ==> Colouring(adj, visited, finished, path) && cycle == old(cycle)
      ensures !found ==> old(finished) <= finished && node in finished
      ensures !found ==> old(visited.Keys) <= visited.Keys
      decreases Unmet(adj, visited.Keys)
    {
      Enter(adj, visited, finished, path, node);
      visited := visited[node := Visiting];
      var here := path + [node];
      var deps := Successors(adj, node);
      for i := 0 to |deps|
        invariant Colouring(adj, visited, finished, here) && cycle == old(cycle)
        invariant old(visited.Keys) + {node} <= visited.Keys
        invariant old(finished) <= finished
        invariant forall k | 0 <= k < i :: deps[k] in finished
      {
        var dep := deps[i];
        if dep in visited && visited[dep] == Visiting {
          var startIdx := IndexOf(here, dep);
          WalkCloses(adj, here, startIdx);
          SimpleTail(here, startIdx);
          cycle := here[startIdx..] + [dep];
          return true;
        }
        if dep !in visited {
          WalkExtends(adj, here, dep);
          UnmetFalls(adj, old(visited.Keys), visited.Keys, node);
          var deeper := Dfs(dep, here);
          if deeper {
            return true;
          }
        }
      }
      Leave(adj, visited, finished, path, node);
      visited := visited[node := Visited];
      finished := finished + [node];
      return false;
    }
  }

  /** The start-index search of the cycle branch: on a path that holds the node it
      never falls through. */
  method IndexOf(path: seq<string>, node: string) returns (index: nat)
    requires node in path
    ensures index < |path| && path[index] == node
  {
    index := 0;
    while path[index] != node
      invariant index < |path| && node !in path[..index]
      decreases |path| - index
    {
      assert path[..index + 1] == path[..index] + [path[index]];
      assert path[..|path|] == path;
      index := index + 1;
    }
  }

  lemma {:induction false} SimpleTail(path: seq<string>, start: nat)
    requires NoDuplicates(path) && start < |path|
    ensures NoDuplicates((path[start..] + [path[start]])[1..])
  {
    var tail := (path[start..] + [path[start]])[1..];
    forall i, j | 0 <= i < j < |tail| ensures tail[i] != tail[j] {
      if j < |tail| - 1 {
        assert tail[i] == path[start + i + 1] && tail[j] == path[start + j + 1];
      } else {
        assert tail[i] == path[start + i + 1];
      }
    }
  }

  /** The search over every resource: a cycle is reported exactly when there is one,
      and what is reported is a closed walk that repeats only its end point. */
  method DetectCycles(names: seq<string>, adj: Graph) returns (cycle: seq<string>)
    requires adj.Keys == set n | n in names
    ensures cycle == [] <==> Acyclic(adj)
    ensures cycle != [] ==> ClosedWalk(adj, cycle) && NoDuplicates(cycle[1..])
  {
    var search := new CycleSearch(adj);
    for i := 0 to |names|
      invariant fresh(search) && search.adj == adj && search.cycle == []
      invariant Colouring(adj, search.visited, search.finished, [])
      invariant forall k | 0 <= k < i :: names[k] in search.finished
    {
      if names[i] !in search.visited {
        assert Walk(adj, [] + [names[i]]);
        var found := search.Dfs(names[i], []);
        if found {
          assert ClosedWalk(adj, search.cycle);
          return search.cycle;
        }
      }
    }
    OrderedIsAcyclic(adj, search.finished);
    return [];
  }
}
