/** The dependency check of policy groups (`visit` inside pdgmodel.py `validate`). */
module GroupGraph {
  /** Group name to the groups among its members. */
  type Graph<!T> = map<T, set<T>>

  ghost predicate Closed<T(!new)>(g: Graph<T>) {
    forall n | n in g :: g[n] <= g.Keys
  }

  ghost predicate IsRank<T(!new)>(g: Graph<T>, rank: map<T, nat>) {
    forall n | n in g :: n in rank && forall c | c in g[n] :: c in rank && rank[c] < rank[n]
  }

  /** Some number strictly decreases along every nesting of groups. */
  ghost predicate Ranked<T(!new)>(g: Graph<T>) {
    exists rank :: IsRank(g, rank)
  }

  ghost predicate IsPath<T(!new)>(g: Graph<T>, p: seq<T>) {
    && (forall i | 0 <= i < |p| :: p[i] in g)
    && (forall i | 0 <= i < |p| - 1 :: p[i + 1] in g[p[i]])
  }

  ghost predicate HasCycle<T(!new)>(g: Graph<T>) {
    exists p :: IsPath(g, p) && |p| >= 2 && p[0] == p[|p| - 1]
  }

  lemma {:induction false} RankFallsAlongPath<T(!new)>(g: Graph<T>, rank: map<T, nat>, p: seq<T>)
    requires IsRank(g, rank) && IsPath(g, p) && |p| >= 1
    ensures |p| >= 2 ==> rank[p[|p| - 1]] < rank[p[0]]
  {
    if |p| > 2 {
      RankFallsAlongPath(g, rank, p[1..]);
    }
  }

  ghost predicate Distinct<T>(p: seq<T>) {
    p == [] || (p[|p| - 1] !in p[..|p| - 1] && Distinct(p[..|p| - 1]))
  }

  lemma PathExtends<T(!new)>(g: Graph<T>, p: seq<T>, n: T)
    requires IsPath(g, p) && n in g && (p != [] ==> n in g[p[|p| - 1]])
    ensures IsPath(g, p + [n])
    ensures forall x :: x in p + [n] <==> x in p || x == n
    ensures Distinct(p) && n !in p ==> Distinct(p + [n])
  {
  }

  lemma RankedHasNoCycle<T(!new)>(g: Graph<T>)
    requires Ranked(g)
    ensures !HasCycle(g)
  {
    var rank :| IsRank(g, rank);
    if p :| IsPath(g, p) && |p| >= 2 && p[0] == p[|p| - 1] {
      RankFallsAlongPath(g, rank, p);
    }
  }

  /** Fewer groups and fewer nestings keep the rank. */
  lemma SubgraphRanked<T(!new)>(g: Graph<T>, h: Graph<T>)
    requires Ranked(g) && h.Keys <= g.Keys && forall n | n in h :: h[n] <= g[n]
    ensures Ranked(h)
  {
    var rank :| IsRank(g, rank);
    assert IsRank(h, rank);
  }

  /** The sets `visiting` and `visited` that the recursive `visit` updates. */
  class Checker<T(==,!new)> {
    const graph: Graph<T>
    var visiting: set<T>
    var visited: set<T>
    ghost var stack: seq<T>          // the names in `visiting`, in call order
    ghost var rank: map<T, nat>      // finishing order of the visited names
    ghost var next: nat

    ghost predicate Valid() reads this {
      && Closed(graph)
      && IsPath(graph, stack) && Distinct(stack)
      && (forall n :: n in visiting <==> n in stack)
      && visited !! visiting && visiting + visited <= graph.Keys
      && (forall n | n in visited :: n in rank && rank[n] < next)
      && (forall n, c | n in visited && c in graph[n] :: c in visited && rank[c] < rank[n])
    }

    constructor (g: Graph<T>)
      requires Closed(g)
      ensures Valid() && graph == g && stack == [] && visited == {}
    {
      graph := g;
      visiting, visited := {}, {};
      stack, rank, next := [], map[], 0;
    }

    ghost predicate Entering(name: T) reads this {
      name in graph && (stack != [] ==> stack[|stack| - 1] in graph && name in graph[stack[|stack| - 1]])
    }

    /** A name met again on the stack closes a cycle. */
    lemma CycleFound(name: T)
      requires Valid() && Entering(name) && name in visiting
      ensures HasCycle(graph)
    {
      var i :| 0 <= i < |stack| && stack[i] == name;
      var p := stack[i..] + [name];
      assert forall k | 0 <= k < |stack| - i :: p[k] == stack[i + k];
      assert IsPath(graph, p) && p[0] == p[|p| - 1];
    }

    method Enter(name: T)
      requires Valid() && Entering(name) && name !in visiting && name !in visited
      modifies this`visiting, this`stack
      ensures Valid() && stack == old(stack) + [name] && visiting == old(visiting) + {name}
      ensures |graph.Keys - visiting| < |graph.Keys - old(visiting)|
    {
      EnterShrinks(graph.Keys, visiting, name);
      ghost var longer := stack + [name];
      PathExtends(graph, stack, name);
      assert IsPath(graph, longer) && Distinct(longer);
      visiting := visiting + {name};
      stack := longer;
    }

    method Leave(name: T)
      requires Valid() && stack != [] && stack[|stack| - 1] == name && graph[name] <= visited
      modifies this
      ensures Valid() && stack == old(stack)[..|old(stack)| - 1] && visiting == old(visiting) - {name}
      ensures visited == old(visited) + {name}
    {
      assert stack == stack[..|stack| - 1] + [name];
      visiting := visiting - {name};
      visited := visited + {name};
      stack := stack[..|stack| - 1];
      rank := rank[name := next];
      next := next + 1;
    }

    /** `visit`: fails only by exhibiting a cycle; succeeds with everything below `name` ranked. */
    method Visit(name: T) returns (ok: bool)
      requires Valid() && Entering(name)
      modifies this
      decreases |graph.Keys - visiting|, 1
      ensures !ok ==> HasCycle(graph)
      ensures ok ==> Valid() && stack == old(stack) && visiting == old(visiting)
                     && name in visited && old(visited) <= visited
    {
      if name in visiting {
        CycleFound(name);
        return false;
      }
      if name in visited {
        return true;
      }
      Enter(name);
      ok := VisitMembers(name);
      if ok {
        Leave(name);
        assert stack == old(stack);
      }
    }

    method VisitMembers(name: T) returns (ok: bool)
      requires Valid() && stack != [] && stack[|stack| - 1] == name
      modifies this
      decreases |graph.Keys - visiting|, 2
      ensures !ok ==> HasCycle(graph)
      ensures ok ==> Valid() && stack == old(stack) && visiting == old(visiting)
                     && graph[name] <= visited && old(visited) <= visited
    {
      var todo := graph[name];
      while todo != {}
        invariant Valid() && todo <= graph[name] && stack == old(stack) && visiting == old(visiting)
        invariant old(visited) <= visited && graph[name] - todo <= visited
      {
        var child :| child in todo;
        ok := Visit(child);
        if !ok {
          return;
        }
        todo := todo - {child};
      }
      return true;
    }

    /** The outer loop of the check: every group is visited. */
    method AllAcyclic() returns (ok: bool)
      requires Valid() && stack == []
      modifies this
      ensures ok <==> Ranked(graph)
      ensures ok <==> !HasCycle(graph)
    {
      var todo := graph.Keys;
      while todo != {}
        invariant Valid() && stack == [] && todo <= graph.Keys
        invariant graph.Keys - todo <= visited
      {
        var name :| name in todo;
        ok := Visit(name);
        if !ok {
          if Ranked(graph) {
            RankedHasNoCycle(graph);
          }
          return false;
        }
        todo := todo - {name};
      }
      assert IsRank(graph, rank);
      RankedHasNoCycle(graph);
      return true;
    }
  }

  lemma EnterShrinks<T>(all: set<T>, visiting: set<T>, name: T)
    requires name in all && name !in visiting
    ensures |all - (visiting + {name})| < |all - visiting|
  {
    assert all - visiting == (all - (visiting + {name})) + {name};
  }
}
