/** resolveEdges: where one node's outgoing edges send the walk, and which claims they release. */
module EdgeResolution {
  import opened Values
  import opened Collections
  import opened Graphs
  import opened Claims

  datatype Fault = ConditionThrew | NotANodeName | UnknownNode(name: string)

  /** `selected` keeps first-routed order without repeats, as a JavaScript Set does. */
  datatype Resolution = Routed(selected: seq<Id>, resolved: set<Id>) | Faulty(fault: Fault)

  function Added(s: seq<Id>, x: Id): seq<Id> {
    if x in s then s else s + [x]
  }

  /** One edge, after the edges before it. */
  ghost function ResolveOne(g: Graph, from: Id, e: Edge, state: State, result: Value, before: Resolution): Resolution {
    if before.Faulty? then before
    else match e
      case Direct(End) => before
      case Direct(To(id)) => Routed(Added(before.selected, id), before.resolved + {id})
      case Conditional(condition) =>
        var released := before.resolved + ConditionalTargets(g, from);
        match condition(state, result)
        case RouteThrow => Faulty(ConditionThrew)
        case RouteEnd => Routed(before.selected, released)
        case RouteOther => Faulty(NotANodeName)
        case RouteTo(name) =>
          if name == "" then Faulty(NotANodeName)
          else if Id(name) !in g.nodes then Faulty(UnknownNode(name))
          else Routed(Added(before.selected, Id(name)), released + {Id(name)})
  }

  ghost function Resolve(g: Graph, from: Id, edges: seq<Edge>, state: State, result: Value): Resolution {
    if edges == [] then Routed([], {})
    else
      ResolveOne(g, from, edges[|edges| - 1], state, result,
                 Resolve(g, from, edges[..|edges| - 1], state, result))
  }

  // ----- What resolution means -----

  /** Edge `e` really routes to `n`. */
  predicate RoutesTo(e: Edge, state: State, result: Value, n: Id) {
    match e
    case Direct(t) => t == To(n)
    case Conditional(condition) => condition(state, result) == RouteTo(n.name)
  }

  /** Edge `e` cannot be followed: its condition throws or names no declared node. */
  predicate Broken(g: Graph, e: Edge, state: State, result: Value) {
    e.Conditional? &&
    match e.condition(state, result)
    case RouteEnd => false
    case RouteTo(name) => name == "" || Id(name) !in g.nodes
    case _ => true
  }

  ghost predicate AnyBroken(g: Graph, edges: seq<Edge>, state: State, result: Value) {
    exists e :: e in edges && Broken(g, e, state, result)
  }

  ghost predicate AnyRoutes(edges: seq<Edge>, state: State, result: Value, n: Id) {
    exists e :: e in edges && RoutesTo(e, state, result, n)
  }

  ghost predicate AnySelectable(g: Graph, from: Id, edges: seq<Edge>, n: Id) {
    exists e :: e in edges && Selectable(g, from, e, n)
  }

  /** Resolution fails exactly when some edge is broken. Otherwise it selects exactly the
      nodes an edge routes to, and releases those and every node an edge claimed. */
  ghost predicate Means(g: Graph, from: Id, edges: seq<Edge>, state: State, result: Value, r: Resolution) {
    && (r.Faulty? <==> AnyBroken(g, edges, state, result))
    && (r.Routed? ==>
          && Distinct(r.selected)
          && (forall n :: n in r.selected <==> AnyRoutes(edges, state, result, n))
          && (forall n :: n in r.resolved <==> (n in r.selected || AnySelectable(g, from, edges, n))))
  }

  lemma {:induction false} ResolveMeaning(g: Graph, from: Id, edges: seq<Edge>, state: State, result: Value)
    ensures Means(g, from, edges, state, result, Resolve(g, from, edges, state, result))
  {
    if edges != [] {
      var k := |edges| - 1;
      var before := Resolve(g, from, edges[..k], state, result);
      ResolveMeaning(g, from, edges[..k], state, result);
      assert edges == edges[..k] + [edges[k]];
      assert AnyBroken(g, edges, state, result) <==>
        (AnyBroken(g, edges[..k], state, result) || Broken(g, edges[k], state, result));
      if before.Routed? && !Broken(g, edges[k], state, result) {
        forall n
          ensures AnyRoutes(edges, state, result, n) <==> (n in before.selected || RoutesTo(edges[k], state, result, n))
          ensures AnySelectable(g, from, edges, n) <==>
            (AnySelectable(g, from, edges[..k], n) || Selectable(g, from, edges[k], n))
        {}
        ResolveOneMeaning(g, from, edges[k], state, result, before);
      }
    }
  }

  lemma ResolveOneMeaning(g: Graph, from: Id, e: Edge, state: State, result: Value, before: Resolution)
    requires before.Routed? && Distinct(before.selected) && !Broken(g, e, state, result)
    ensures var r := ResolveOne(g, from, e, state, result, before);
      && r.Routed? && Distinct(r.selected)
      && (forall n :: n in r.selected <==> (n in before.selected || RoutesTo(e, state, result, n)))
      && (forall n :: n in r.resolved <==>
            (n in before.resolved || Selectable(g, from, e, n) || RoutesTo(e, state, result, n)))
  {
    assert forall n: Id :: n == Id(n.name);
  }

  /** A source that routed without fault has released every claim it made. */
  lemma ReleasesEveryClaim(g: Graph, from: Id, state: State, result: Value, n: Id)
    requires IsClaim(g, from, n)
    ensures var r := Resolve(g, from, EdgesOf(g, from), state, result);
      r.Routed? ==> n in r.resolved
  {
    ResolveMeaning(g, from, EdgesOf(g, from), state, result);
  }

  /** In a built graph everything selected is a declared node. */
  lemma SelectedAreNodes(g: Graph, from: Id, state: State, result: Value)
    requires Built(g)
    ensures var r := Resolve(g, from, EdgesOf(g, from), state, result);
      r.Routed? ==> forall n | n in r.selected :: n in g.nodes
  {
    ResolveMeaning(g, from, EdgesOf(g, from), state, result);
    var r := Resolve(g, from, EdgesOf(g, from), state, result);
    if r.Routed? {
      forall n | n in r.selected ensures n in g.nodes {
        var e :| e in EdgesOf(g, from) && RoutesTo(e, state, result, n);
        if e.Conditional? {
          assert !Broken(g, e, state, result);
          assert Id(n.name) == n;
        }
      }
    }
  }

  // ----- Which fault, and in which order -----

  /** What an edge that cannot be followed is reported as. */
  predicate IsFaultOf(route: Route, fault: Fault) {
    match route
    case RouteThrow => fault == ConditionThrew
    case RouteOther => fault == NotANodeName
    case RouteTo(name) => fault == if name == "" then NotANodeName else UnknownNode(name)
    case RouteEnd => false
  }

  /** The fault is the first edge's that cannot be followed. */
  ghost predicate FirstFault(g: Graph, edges: seq<Edge>, state: State, result: Value, fault: Fault) {
    exists i :: 0 <= i < |edges| && Broken(g, edges[i], state, result)
      && (forall j | 0 <= j < i :: !Broken(g, edges[j], state, result))
      && IsFaultOf(edges[i].condition(state, result), fault)
  }

  lemma {:induction false} FaultIsFirst(g: Graph, from: Id, edges: seq<Edge>, state: State, result: Value)
    ensures var r := Resolve(g, from, edges, state, result);
      r.Faulty? ==> FirstFault(g, edges, state, result, r.fault)
  {
    hide Broken, ConditionalTargets;
    if edges != [] {
      var k := |edges| - 1;
      var before := Resolve(g, from, edges[..k], state, result);
      FaultIsFirst(g, from, edges[..k], state, result);
      if before.Faulty? {
        EarlierFault(g, edges, state, result, before.fault);
      } else {
        ResolveMeaning(g, from, edges[..k], state, result);
        assert forall j | 0 <= j < k :: edges[j] in edges[..k];
        LastFault(g, from, edges[k], state, result, before);
      }
    }
  }

  lemma EarlierFault(g: Graph, edges: seq<Edge>, state: State, result: Value, fault: Fault)
    requires edges != [] && FirstFault(g, edges[..|edges| - 1], state, result, fault)
    ensures FirstFault(g, edges, state, result, fault)
  {
    var shorter := edges[..|edges| - 1];
    assert forall j | 0 <= j < |shorter| :: shorter[j] == edges[j];
    var i :| 0 <= i < |shorter| && Broken(g, shorter[i], state, result)
      && (forall j | 0 <= j < i :: !Broken(g, shorter[j], state, result))
      && IsFaultOf(shorter[i].condition(state, result), fault);
  }

  lemma LastFault(g: Graph, from: Id, e: Edge, state: State, result: Value, before: Resolution)
    requires before.Routed?
    ensures var r := ResolveOne(g, from, e, state, result, before);
      r.Faulty? ==> Broken(g, e, state, result) && IsFaultOf(e.condition(state, result), r.fault)
  {
  }

  /** The i-th edge is the first that routes to `n`. */
  predicate RoutesFirst(edges: seq<Edge>, state: State, result: Value, n: Id, i: nat) {
    i < |edges| && RoutesTo(edges[i], state, result, n) && forall j | 0 <= j < i :: !RoutesTo(edges[j], state, result, n)
  }

  ghost predicate BothInOrder(edges: seq<Edge>, state: State, result: Value, m: Id, n: Id) {
    exists i, j :: i < j && RoutesFirst(edges, state, result, m, i) && RoutesFirst(edges, state, result, n, j)
  }

  /** The selected nodes stand in the order in which they were first routed to. */
  lemma {:induction false} SelectedInOrder(g: Graph, from: Id, edges: seq<Edge>, state: State, result: Value)
    ensures var r := Resolve(g, from, edges, state, result);
      r.Routed? ==> forall p, q | 0 <= p < q < |r.selected| ::
        BothInOrder(edges, state, result, r.selected[p], r.selected[q])
  {
    hide BothInOrder, ResolveOne, RoutesTo, Broken, AnySelectable, AnyBroken, Distinct;
    var r := Resolve(g, from, edges, state, result);
    if edges != [] && r.Routed? {
      var k := |edges| - 1;
      var before := Resolve(g, from, edges[..k], state, result);
      AddsAtEnd(g, from, edges[k], state, result, before);
      SelectedInOrder(g, from, edges[..k], state, result);
      ResolveMeaning(g, from, edges[..k], state, result);
      forall p, q | 0 <= p < q < |r.selected|
        ensures BothInOrder(edges, state, result, r.selected[p], r.selected[q])
      {
        var m, n := r.selected[p], r.selected[q];
        assert m == before.selected[p] && m in before.selected;
        if q < |before.selected| {
          assert n == before.selected[q];
          OrderStays(edges, state, result, m, n);
        } else {
          LastInOrder(edges, state, result, m, n);
        }
      }
    }
  }

  lemma AddsAtEnd(g: Graph, from: Id, e: Edge, state: State, result: Value, before: Resolution)
    ensures var r := ResolveOne(g, from, e, state, result, before);
      r.Routed? ==>
        before.Routed? &&
        (r.selected == before.selected ||
         exists n :: r.selected == before.selected + [n] && RoutesTo(e, state, result, n) && n !in before.selected)
  {
    var r := ResolveOne(g, from, e, state, result, before);
    if r.Routed? && r.selected != before.selected {
      var n := r.selected[|before.selected|];
      assert r.selected == before.selected + [n] && Id(n.name) == n;
    }
  }

  lemma LastInOrder(edges: seq<Edge>, state: State, result: Value, m: Id, n: Id)
    requires edges != [] && AnyRoutes(edges[..|edges| - 1], state, result, m)
    requires RoutesTo(edges[|edges| - 1], state, result, n) && !AnyRoutes(edges[..|edges| - 1], state, result, n)
    ensures BothInOrder(edges, state, result, m, n)
  {
    var k := |edges| - 1;
    var e :| e in edges[..k] && RoutesTo(e, state, result, m);
    var l :| 0 <= l < k && edges[..k][l] == e;
    var i := FirstRouteTo(edges, l, state, result, m);
    assert forall j | 0 <= j < k :: edges[j] in edges[..k];
    assert RoutesFirst(edges, state, result, n, k);
  }

  lemma OrderStays(edges: seq<Edge>, state: State, result: Value, m: Id, n: Id)
    requires edges != [] && BothInOrder(edges[..|edges| - 1], state, result, m, n)
    ensures BothInOrder(edges, state, result, m, n)
  {
    var shorter := edges[..|edges| - 1];
    var i, j :| i < j && RoutesFirst(shorter, state, result, m, i) && RoutesFirst(shorter, state, result, n, j);
    assert forall l | 0 <= l < |shorter| :: shorter[l] == edges[l];
    assert RoutesFirst(edges, state, result, m, i) && RoutesFirst(edges, state, result, n, j);
  }

  lemma {:induction false} FirstRouteTo(edges: seq<Edge>, l: nat, state: State, result: Value, n: Id) returns (i: nat)
    requires l < |edges| && RoutesTo(edges[l], state, result, n)
    ensures i <= l && RoutesFirst(edges, state, result, n, i)
  {
    if j :| 0 <= j < l && RoutesTo(edges[j], state, result, n) {
      i := FirstRouteTo(edges, j, state, result, n);
    } else {
      i := l;
    }
  }

  // ----- The algorithm -----

  method ResolveEdges(g: Graph, fallback: map<Id, set<Id>>, from: Id, edges: seq<Edge>, state: State, result: Value)
    returns (r: Resolution)
    requires IsFallbackMap(g, fallback)
    ensures r == Resolve(g, from, edges, state, result)
  {
    hide Resolve, ListedByConditional, ConditionalTargets, IsFallbackMap;
    var selected, resolved := [], {};
    NothingResolves(g, from, edges[..0], state, result);
    for k := 0 to |edges|
      invariant Resolve(g, from, edges[..k], state, result) == Routed(selected, resolved)
    {
      OneMoreEdge(g, from, edges, k, state, result);
      match edges[k] {
        case Direct(End) =>
        case Direct(To(id)) =>
          selected, resolved := Added(selected, id), resolved + {id};
        case Conditional(condition) =>
          var candidates := ConditionalTargetsOf(g, fallback, from);
          CandidateSet(g, from, candidates);
          resolved := resolved + set c | c in candidates;
          match condition(state, result)
          case RouteThrow =>
            FaultStays(g, from, edges, k + 1, state, result);
            return Faulty(ConditionThrew);
          case RouteOther =>
            FaultStays(g, from, edges, k + 1, state, result);
            return Faulty(NotANodeName);
          case RouteEnd =>
          case RouteTo(name) =>
            if name == "" {
              FaultStays(g, from, edges, k + 1, state, result);
              return Faulty(NotANodeName);
            }
            if Id(name) !in g.nodes {
              FaultStays(g, from, edges, k + 1, state, result);
              return Faulty(UnknownNode(name));
            }
            selected, resolved := Added(selected, Id(name)), resolved + {Id(name)};
      }
    }
    assert edges[..|edges|] == edges;
    return Routed(selected, resolved);
  }

  lemma NothingResolves(g: Graph, from: Id, edges: seq<Edge>, state: State, result: Value)
    requires edges == []
    ensures Resolve(g, from, edges, state, result) == Routed([], {})
  {
  }

  lemma OneMoreEdge(g: Graph, from: Id, edges: seq<Edge>, k: nat, state: State, result: Value)
    requires k < |edges|
    ensures Resolve(g, from, edges[..k + 1], state, result) ==
            ResolveOne(g, from, edges[k], state, result, Resolve(g, from, edges[..k], state, result))
  {
    assert edges[..k + 1][..k] == edges[..k];
  }

  lemma CandidateSet(g: Graph, from: Id, candidates: seq<Id>)
    requires multiset(candidates) == ListedByConditional(g, from)
    ensures (set c | c in candidates) == ConditionalTargets(g, from)
  {
    forall c ensures c in candidates <==> c in ConditionalTargets(g, from) {
      assert c in candidates <==> c in multiset(candidates);
      if Analysable(g, from) { assert c in g.info[from].targets <==> c in multiset(g.info[from].targets); }
    }
  }

  /** The first fault is the one reported. */
  lemma {:induction false} FaultStays(g: Graph, from: Id, edges: seq<Edge>, k: nat, state: State, result: Value)
    requires k <= |edges| && Resolve(g, from, edges[..k], state, result).Faulty?
    ensures Resolve(g, from, edges, state, result) == Resolve(g, from, edges[..k], state, result)
  {
    if k < |edges| {
      var p := edges[..|edges| - 1];
      assert p[..k] == edges[..k];
      FaultStays(g, from, p, k, state, result);
    } else {
      assert edges[..k] == edges;
    }
  }
}
