/** The built graph that the executor walks, and reachability in it. */
module Graphs {
  import opened Values
  import opened Collections

  /** A node id. Ids double as state keys. */
  datatype Id = Id(name: string)

  type State = map<Id, Value>

  datatype Target = End | To(id: Id)

  /** What an edge condition does: it returns END, a string, any other value, or throws. */
  datatype Route = RouteEnd | RouteTo(name: string) | RouteOther | RouteThrow

  /** Conditions are pure functions of the state and the node's own result. */
  datatype Edge = Direct(target: Target) | Conditional(condition: (State, Value) -> Route)

  datatype TargetInfo = TargetInfo(targets: seq<Id>, usesEnd: bool, analysable: bool)

  /** `nodes` is in declaration order. A source missing from `info` is unanalysable. */
  datatype Graph = Graph(
    nodes: seq<Id>,
    edges: map<Id, seq<Edge>>,
    entry: Id,
    initialState: State,
    info: map<Id, TargetInfo>)

  function EdgesOf(g: Graph, u: Id): seq<Edge> {
    if u in g.edges then g.edges[u] else []
  }

  predicate Analysable(g: Graph, u: Id) {
    u in g.info && g.info[u].analysable
  }

  /** The nodes one edge of `u` is statically known to lead to. */
  function EdgeTargets(g: Graph, u: Id, e: Edge): set<Id> {
    match e
    case Direct(End) => {}
    case Direct(To(id)) => {id}
    case Conditional(_) => if Analysable(g, u) then set t | t in g.info[u].targets else {}
  }

  function Successors(g: Graph, u: Id): set<Id> {
    set i, t | 0 <= i < |EdgesOf(g, u)| && t in EdgeTargets(g, u, EdgesOf(g, u)[i]) :: t
  }

  /** Every id the graph mentions: a finite bound for any search. */
  function Mentioned(g: Graph): set<Id> {
    (set n | n in g.nodes) + (set u, t | u in g.edges && t in Successors(g, u) :: t)
  }

  /** What GraphBuilder.build and the target extraction guarantee of a graph. */
  ghost predicate Built(g: Graph) {
    && Distinct(g.nodes)
    && g.entry in g.nodes
    && g.edges.Keys == (set n | n in g.nodes)
    && (forall u, i | u in g.edges && 0 <= i < |g.edges[u]| ::
          g.edges[u][i].Direct? && g.edges[u][i].target.To? ==> g.edges[u][i].target.id in g.nodes)
    && (forall u, t | u in g.info && t in g.info[u].targets :: t in g.nodes)
  }

  // ----- Paths -----

  ghost predicate Path(g: Graph, p: seq<Id>) {
    |p| > 0 && forall i | 0 <= i < |p| - 1 :: p[i + 1] in Successors(g, p[i])
  }

  ghost predicate PathBetween(g: Graph, p: seq<Id>, a: Id, b: Id) {
    Path(g, p) && p[0] == a && p[|p| - 1] == b
  }

  /** b is a or lies downstream of a. */
  ghost predicate Reaches(g: Graph, a: Id, b: Id) {
    exists p :: PathBetween(g, p, a, b)
  }

  lemma ReachesSelf(g: Graph, a: Id)
    ensures Reaches(g, a, a)
  {
    assert PathBetween(g, [a], a, a);
  }

  lemma ReachesStep(g: Graph, a: Id, b: Id)
    requires b in Successors(g, a)
    ensures Reaches(g, a, b)
  {
    assert PathBetween(g, [a, b], a, b);
  }

  lemma ReachesTransitive(g: Graph, a: Id, b: Id, c: Id)
    requires Reaches(g, a, b) && Reaches(g, b, c)
    ensures Reaches(g, a, c)
  {
    var p :| PathBetween(g, p, a, b);
    var q :| PathBetween(g, q, b, c);
    var r := p + q[1..];
    forall i | 0 <= i < |r| - 1 ensures r[i + 1] in Successors(g, r[i]) {
      if i >= |p| - 1 {
        assert r[i + 1] == q[i - |p| + 2] && r[i] == q[i - |p| + 1];
      }
    }
    assert PathBetween(g, r, a, c);
  }

  /** A set closed under successors holds everything downstream of its members. */
  lemma ClosedUnderReach(g: Graph, s: set<Id>, a: Id, b: Id)
    requires a in s && Reaches(g, a, b)
    requires forall u, v | u in s && v in Successors(g, u) :: v in s
    ensures b in s
  {
    var p :| PathBetween(g, p, a, b);
    var i := 0;
    while i < |p| - 1
      invariant 0 <= i < |p| && p[i] in s
    {
      i := i + 1;
    }
  }

  /** A non-trivial reach ends with an edge. */
  lemma ReachesSplitLast(g: Graph, a: Id, b: Id) returns (m: Id)
    requires Reaches(g, a, b) && a != b
    ensures Reaches(g, a, m) && b in Successors(g, m)
  {
    var p :| PathBetween(g, p, a, b);
    m := p[|p| - 2];
    assert PathBetween(g, p[..|p| - 1], a, m);
  }

  lemma ReachesMentioned(g: Graph, a: Id, b: Id)
    requires Reaches(g, a, b)
    ensures b == a || b in Mentioned(g)
  {
    if a != b {
      var m := ReachesSplitLast(g, a, b);
      assert m in g.edges;
    }
  }

  /** The set of nodes reachable from `a`, `a` included. */
  ghost function Forward(g: Graph, a: Id): (r: set<Id>)
    ensures forall b :: b in r <==> Reaches(g, a, b)
  {
    ReachesSelf(g, a);
    assert forall b | Reaches(g, a, b) :: b == a || b in Mentioned(g) by {
      forall b | Reaches(g, a, b) ensures b == a || b in Mentioned(g) { ReachesMentioned(g, a, b); }
    }
    set b | b in Mentioned(g) + {a} && Reaches(g, a, b)
  }
}
