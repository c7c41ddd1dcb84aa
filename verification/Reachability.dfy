/** computeForwardReachable: a depth-first search with an explicit stack per start node. */
module Reachability {
  import opened Graphs

  /** The search's invariant: everything found is reachable, and what a visited
      node leads to has been visited or is waiting on the stack. */
  ghost predicate SearchInv(g: Graph, start: Id, visited: set<Id>, stack: seq<Id>) {
    && (start in visited || start in stack)
    && (forall n | n in visited :: Reaches(g, start, n))
    && (forall n | n in stack :: Reaches(g, start, n))
    && (forall u, v | u in visited && v in Successors(g, u) :: v in visited || v in stack)
  }

  lemma SkipVisited(g: Graph, start: Id, visited: set<Id>, stack: seq<Id>, rest: seq<Id>, current: Id)
    requires SearchInv(g, start, visited, stack) && stack == rest + [current] && current in visited
    ensures SearchInv(g, start, visited, rest)
  {
    forall n | n in stack ensures n in rest || n in visited {}
  }

  lemma VisitNew(g: Graph, start: Id, visited: set<Id>, stack: seq<Id>, rest: seq<Id>, current: Id, pushed: seq<Id>)
    requires SearchInv(g, start, visited, stack) && stack == rest + [current]
    requires forall n :: n in pushed <==> n in rest || n in Successors(g, current)
    ensures SearchInv(g, start, visited + {current}, pushed)
  {
    forall n | n in stack ensures n in rest || n == current {}
    assert current in stack;
    forall n | n in Successors(g, current) ensures Reaches(g, start, n) {
      ReachesStep(g, current, n);
      ReachesTransitive(g, start, current, n);
    }
    forall n | n in rest ensures Reaches(g, start, n) { assert n in stack; }
  }

  lemma SearchComplete(g: Graph, start: Id, visited: set<Id>)
    requires SearchInv(g, start, visited, [])
    ensures forall n :: n in visited <==> Reaches(g, start, n)
  {
    forall n | Reaches(g, start, n) ensures n in visited {
      ClosedUnderReach(g, visited, start, n);
    }
  }

  method ForwardReachFrom(g: Graph, start: Id) returns (reachable: set<Id>)
    ensures forall n :: n in reachable <==> Reaches(g, start, n)
  {
    reachable := {};
    var stack := [start];
    ReachesSelf(g, start);
    while |stack| > 0
      invariant SearchInv(g, start, reachable, stack)
      decreases Forward(g, start) - reachable, |stack|
    {
      var current, rest := stack[|stack| - 1], stack[..|stack| - 1];
      assert stack == rest + [current];
      if current in reachable {
        SkipVisited(g, start, reachable, stack, rest, current);
        stack := rest;
      } else {
        assert current in stack;
        var pushed := PushSuccessors(g, current, rest);
        VisitNew(g, start, reachable, stack, rest, current, pushed);
        assert current in Forward(g, start);
        reachable, stack := reachable + {current}, pushed;
      }
    }
    SearchComplete(g, start, reachable);
  }

  /** The inner loop: pushes what each outgoing edge of `current` is known to lead to. */
  method PushSuccessors(g: Graph, current: Id, stack: seq<Id>) returns (pushed: seq<Id>)
    ensures forall n :: n in pushed <==> n in stack || n in Successors(g, current)
  {
    pushed := stack;
    var edges := EdgesOf(g, current);
    for i := 0 to |edges|
      invariant forall n :: n in pushed <==>
        n in stack || exists j :: 0 <= j < i && n in EdgeTargets(g, current, edges[j])
    {
      match edges[i] {
        case Direct(End) =>
        case Direct(To(id)) => pushed := pushed + [id];
        case Conditional(_) =>
          if Analysable(g, current) {
            pushed := pushed + g.info[current].targets;
          }
      }
      assert forall n :: n in EdgeTargets(g, current, edges[i]) ==> n in pushed;
    }
  }

  method ComputeForwardReachable(g: Graph) returns (result: map<Id, set<Id>>)
    ensures result.Keys == (set n | n in g.nodes)
    ensures forall n, m | n in result :: m in result[n] <==> Reaches(g, n, m)
  {
    result := map[];
    for i := 0 to |g.nodes|
      invariant result.Keys == set n | n in g.nodes[..i]
      invariant forall n, m | n in result :: m in result[n] <==> Reaches(g, n, m)
    {
      var reachable := ForwardReachFrom(g, g.nodes[i]);
      result := result[g.nodes[i] := reachable];
      assert g.nodes[..i + 1] == g.nodes[..i] + [g.nodes[i]];
    }
    assert g.nodes[..|g.nodes|] == g.nodes;
  }
}
