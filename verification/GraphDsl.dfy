/** The graph builder: definition checks, structural validation and build. */
module GraphDsl {
  import opened Values
  import opened Collections
  import opened Graphs
  import opened Reachability
  import opened Topological
  import opened Executor

  datatype DefinitionError =
    | InvalidNodeId
    | AlreadyDefined(id: Id)
    | NotADefinition(id: Id)
    | RunTwice
    | NotAnObject
    | InvalidGraph(problems: seq<Problem>)

  /** What g.node is given: a plain function, an object with a type, or anything else. */
  datatype Definition = FunctionDefinition | TypedDefinition | OtherDefinition

  datatype Problem =
    | NoNodes
    | NeverRun
    | NoEntry
    | EntryUndefined
    | UnknownSource(from: Id)
    | UndefinedTarget(from: Id, to: Id)
    | NoOutgoingEdge(id: Id)
    | NoPathToEnd
    | UnreachableNode(id: Id)

  predicate IdStart(c: char) {
    'a' <= c <= 'z' || 'A' <= c <= 'Z' || c == '_'
  }

  /** NODE_ID_PATTERN: a letter or underscore, then letters, digits and underscores. */
  predicate ValidNodeId(id: Id) {
    id.name != "" && IdStart(id.name[0]) && forall i :: 0 <= i < |id.name| ==> IdStart(id.name[i]) || '0' <= id.name[i] <= '9'
  }

  predicate IsDigit(c: char) { '0' <= c <= '9' }

  predicate IsLetter(c: char) { 'a' <= c <= 'z' || 'A' <= c <= 'Z' }

  /** A node id is a non-empty text of letters, digits and underscores that does not begin with a digit. */
  lemma NodeIdPattern(id: Id)
    ensures ValidNodeId(id) <==>
      id != Id("") && !IsDigit(id.name[0]) && !exists c :: c in id.name && !IsLetter(c) && !IsDigit(c) && c != '_'
  {
    if ValidNodeId(id) {
      forall c | c in id.name ensures IsLetter(c) || IsDigit(c) || c == '_' {
        var i :| 0 <= i < |id.name| && id.name[i] == c;
      }
    } else if id.name != "" && forall c | c in id.name :: IsLetter(c) || IsDigit(c) || c == '_' {
      forall i | 0 <= i < |id.name| ensures IsLetter(id.name[i]) || IsDigit(id.name[i]) || id.name[i] == '_' {
        assert id.name[i] in id.name;
      }
    }
  }

  /** The name of the snapshot bucket of a resumed run cannot be defined as a node. */
  lemma SnapshotSourceIsNoNode()
    ensures !ValidNodeId(RESUME_SNAPSHOT_SOURCE)
  {
    assert RESUME_SNAPSHOT_SOURCE.name[0] == '(';
  }

  // ----- What validation means -----

  /** The edge can finish a walk: it goes to END, or it is a condition that might. */
  predicate MayEnd(e: Edge) {
    e.Conditional? || e.target == End
  }

  /** Some path leads from `from` to a node with an edge that can finish the walk. */
  ghost predicate EndInReach(g: Graph, from: Id) {
    exists u, e :: Reaches(g, from, u) && e in EdgesOf(g, u) && MayEnd(e)
  }

  /** The end is in reach exactly if some node on a path has a direct edge to END or any condition. */
  lemma EndInReachIff(g: Graph, from: Id)
    ensures EndInReach(g, from) <==>
      exists u :: Reaches(g, from, u) && EndsAt(g, u)
  {
    hide Reaches, EdgesOf, EndsAt;
    forall u ensures EndsAt(g, u) <==> exists e :: e in EdgesOf(g, u) && MayEnd(e) { EndsAtIff(g, u); }
  }

  /** The node has a direct edge to END, or a condition, which might return END. */
  ghost predicate EndsAt(g: Graph, u: Id) {
    Direct(End) in EdgesOf(g, u) || exists e :: e in EdgesOf(g, u) && e.Conditional?
  }

  lemma EndsAtIff(g: Graph, u: Id)
    ensures EndsAt(g, u) <==> exists e :: e in EdgesOf(g, u) && MayEnd(e)
  {
    hide EdgesOf;
    if Direct(End) in EdgesOf(g, u) { assert MayEnd(Direct(End)); }
  }

  predicate AllDirect(g: Graph) {
    forall u | u in g.edges :: forall i | 0 <= i < |g.edges[u]| :: g.edges[u][i].Direct?
  }

  predicate TargetsDefined(g: Graph) {
    forall u | u in g.edges :: forall i | 0 <= i < |g.edges[u]| ::
      g.edges[u][i].Direct? && g.edges[u][i].target.To? ==> g.edges[u][i].target.id in g.nodes
  }

  /** Everything validate asks for. Reachability is demanded of graphs of direct edges only. */
  ghost predicate WellDefined(g: Graph, started: bool) {
    && g.nodes != [] && started && g.entry in g.nodes
    && (forall u | u in g.edges :: u in g.nodes) && TargetsDefined(g)
    && (forall n | n in g.nodes :: n in g.edges)
    && (AllDirect(g) ==> EndInReach(g, g.entry) && forall n | n in g.nodes :: Reaches(g, g.entry, n))
  }

  // ----- The two searches -----

  /** The inner loop of canReachEnd: stop at a finishing edge, otherwise push the direct targets. */
  method ScanForEnd(g: Graph, current: Id, stack: seq<Id>) returns (found: bool, pushed: seq<Id>)
    requires g.info == map[]
    ensures found <==> exists e :: e in EdgesOf(g, current) && MayEnd(e)
    ensures !found ==> forall n :: n in pushed <==> n in stack || n in Successors(g, current)
  {
    var edges := EdgesOf(g, current);
    pushed := stack;
    for i := 0 to |edges|
      invariant forall j | 0 <= j < i :: !MayEnd(edges[j])
      invariant forall n :: n in pushed <==> n in stack || exists j :: 0 <= j < i && n in EdgeTargets(g, current, edges[j])
    {
      if MayEnd(edges[i]) { return true, pushed; }
      pushed := pushed + [edges[i].target.id];
      assert EdgeTargets(g, current, edges[i]) == {edges[i].target.id};
    }
    return false, pushed;
  }

  method CanReachEnd(g: Graph, from: Id) returns (found: bool)
    requires g.info == map[]
    ensures found <==> EndInReach(g, from)
  {
    var seen, stack := {}, [from];
    ReachesSelf(g, from);
    while |stack| > 0
      invariant SearchInv(g, from, seen, stack)
      invariant forall u, e | u in seen && e in EdgesOf(g, u) :: !MayEnd(e)
      decreases Forward(g, from) - seen, |stack|
    {
      hide Successors, EdgesOf;
      var current, rest := stack[|stack| - 1], stack[..|stack| - 1];
      assert stack == rest + [current] && current in stack;
      if current in seen {
        SkipVisited(g, from, seen, stack, rest, current);
        stack := rest;
      } else {
        var here, pushed := ScanForEnd(g, current, rest);
        if here { return true; }
        VisitNew(g, from, seen, stack, rest, current, pushed);
        assert current in Forward(g, from);
        seen, stack := seen + {current}, pushed;
      }
    }
    SearchComplete(g, from, seen);
    return false;
  }

  method IsReachable(g: Graph, from: Id, target: Id) returns (found: bool)
    requires g.info == map[]
    ensures found <==> Reaches(g, from, target)
  {
    ReachesSelf(g, from);
    if from == target { return true; }
    var seen, stack := {}, [from];
    while |stack| > 0
      invariant SearchInv(g, from, seen, stack) && target !in seen && target !in stack
      decreases Forward(g, from) - seen, |stack|
    {
      hide Successors, EdgesOf;
      var current, rest := stack[|stack| - 1], stack[..|stack| - 1];
      assert stack == rest + [current] && current in stack;
      if current in seen {
        SkipVisited(g, from, seen, stack, rest, current);
        stack := rest;
      } else {
        var pushed := PushSuccessors(g, current, rest);
        VisitNew(g, from, seen, stack, rest, current, pushed);
        assert current in Forward(g, from);
        if target in pushed { return true; }
        seen, stack := seen + {current}, pushed;
      }
    }
    SearchComplete(g, from, seen);
    return false;
  }

  /** An object or nothing; what is refused are the other kinds of values. */
  predicate IsState(v: Value): (r: bool)
    ensures r <==> !(v.Bool? || v.Num? || v.Str? || v.Arr?)
  {
    v.Undefined? || v.Null? || v.Obj?
  }

  /** The members of the object given, each under its own name, and nothing else. */
  function StateOf(v: Value): (state: State)
    ensures forall id: Id :: id in state <==> v.Obj? && id.name in v.fields
    ensures forall id: Id | id in state :: state[id] == v.fields[id.name]
  {
    if v.Obj? then map k | k in v.fields :: Id(k) := v.fields[k] else map[]
  }

  // ----- Problems -----

  /** The checks that come before reachability find nothing. */
  predicate SoundSoFar(g: Graph, entry: Option<Id>, started: bool) {
    && started && entry.Some? && entry.value in g.nodes
    && (forall u | u in g.edges :: u in g.nodes) && TargetsDefined(g)
    && (forall n | n in g.nodes :: n in g.edges)
  }

  /** What each problem says of the graph. */
  ghost predicate IsProblem(g: Graph, entry: Option<Id>, started: bool, p: Problem) {
    if g.nodes == [] then p == NoNodes
    else
      match p
      case NoNodes => false
      case NeverRun => !started
      case NoEntry => entry.None?
      case EntryUndefined => entry.Some? && entry.value !in g.nodes
      case UnknownSource(u) => u in g.edges && u !in g.nodes
      case UndefinedTarget(u, t) => u in g.edges && Direct(To(t)) in g.edges[u] && t !in g.nodes
      case NoOutgoingEdge(n) => n in g.nodes && n !in g.edges
      case NoPathToEnd => SoundSoFar(g, entry, started) && AllDirect(g) && !EndInReach(g, entry.value)
      case UnreachableNode(n) =>
        SoundSoFar(g, entry, started) && AllDirect(g) && n in g.nodes && !Reaches(g, entry.value, n)
  }

  // ----- The builder -----

  class GraphBuilder {
    var nodes: seq<Id>
    var edges: map<Id, seq<Edge>>
    var entry: Option<Id>
    var initialState: State
    var started: bool

    constructor ()
      ensures nodes == [] && edges == map[] && entry == None && !started && Valid()
    {
      nodes, edges, entry, initialState, started := [], map[], None, map[], false;
    }

    /** Node ids are unique, and every list of edges that exists has an edge. */
    ghost predicate Valid()
      reads this
    {
      Distinct(nodes) && (nodes != [] ==> entry.Some?) && forall u | u in edges :: edges[u] != []
    }

    /** The graph described so far; the entry only matters when there is one. */
    function Described(): Graph
      reads this
    {
      Graph(nodes, edges, if entry.Some? then entry.value else Id(""), initialState, map[])
    }

    method Node(id: Id, def: Definition) returns (error: Option<DefinitionError>)
      requires Valid()
      modifies this`nodes, this`entry
      ensures Valid()
      ensures error == (if !ValidNodeId(id) then Some(InvalidNodeId)
                        else if id in old(nodes) then Some(AlreadyDefined(id))
                        else if def.OtherDefinition? then Some(NotADefinition(id)) else None)
      ensures nodes == old(nodes) + if error.None? then [id] else []
      ensures entry == if error.None? && old(entry).None? then Some(id) else old(entry)
    {
      if !ValidNodeId(id) { return Some(InvalidNodeId); }
      if id in nodes { return Some(AlreadyDefined(id)); }
      if def.OtherDefinition? { return Some(NotADefinition(id)); }
      nodes := nodes + [id];
      if entry.None? { entry := Some(id); }
      return None;
    }

    method AddEdge(from: Id, edge: Edge) returns (error: Option<DefinitionError>)
      requires Valid()
      modifies this`edges
      ensures Valid()
      ensures error.None? <==> ValidNodeId(from) && (edge.Direct? && edge.target.To? ==> ValidNodeId(edge.target.id))
      ensures edges == if error.None? then old(edges)[from := (if from in old(edges) then old(edges)[from] else []) + [edge]] else old(edges)
    {
      if !ValidNodeId(from) { return Some(InvalidNodeId); }
      if edge.Direct? && edge.target.To? && !ValidNodeId(edge.target.id) { return Some(InvalidNodeId); }
      assert [] + [edge] == [edge];
      if from in edges { edges := edges[from := edges[from] + [edge]]; } else { edges := edges[from := [edge]]; }
      return None;
    }

    method Start(id: Id) returns (error: Option<DefinitionError>)
      requires Valid()
      modifies this`entry
      ensures Valid() && (error.None? <==> ValidNodeId(id)) && entry == if error.None? then Some(id) else old(entry)
    {
      if !ValidNodeId(id) { return Some(InvalidNodeId); }
      entry := Some(id);
      return None;
    }

    /** run, given an object or nothing. */
    method Run(initial: Value) returns (error: Option<DefinitionError>)
      modifies this`started, this`initialState
      ensures error == (if old(started) then Some(RunTwice) else if !IsState(initial) then Some(NotAnObject) else None)
      ensures started == (old(started) || error.None?)
      ensures initialState == if error.None? then StateOf(initial) else old(initialState)
    {
      if started { return Some(RunTwice); }
      if !initial.Undefined? && !initial.Null? && !initial.Obj? { return Some(NotAnObject); }
      started, initialState := true, StateOf(initial);
      return None;
    }

    /** Structural validation: it lists exactly the problems there are, and none exactly in well-defined graphs. */
    method Validate() returns (problems: seq<Problem>)
      ensures forall p :: p in problems <==> IsProblem(Described(), entry, started, p)
      ensures problems == [] <==> entry.Some? && WellDefined(Described(), started)
    {
      hide Reaches, EndInReach;
      if nodes == [] { return [NoNodes]; }
      problems := [];
      if !started { problems := problems + [NeverRun]; }
      if entry.None? { problems := problems + [NoEntry]; }
      else if entry.value !in nodes { problems := problems + [EntryUndefined]; }
      var edgeProblems := EdgeProblems();
      problems := problems + edgeProblems;
      var missing := MissingEdges();
      problems := problems + missing;
      if problems == [] {
        assert SoundSoFar(Described(), entry, started);
        var direct := HasOnlyDirect();
        if direct {
          var ends := CanReachEnd(Described(), entry.value);
          if !ends { problems := [NoPathToEnd]; }
          var unreachable := UnreachableNodes();
          problems := problems + unreachable;
        }
      } else {
        assert !SoundSoFar(Described(), entry, started);
      }
    }

    method EdgeProblems() returns (problems: seq<Problem>)
      ensures problems == [] <==> (forall u | u in edges :: u in nodes) && TargetsDefined(Described())
      ensures forall p :: p in problems <==>
        (p.UnknownSource? && p.from in edges && p.from !in nodes) ||
        (p.UndefinedTarget? && p.from in edges && Direct(To(p.to)) in edges[p.from] && p.to !in nodes)
    {
      problems := [];
      var todo := edges.Keys;
      while todo != {}
        invariant todo <= edges.Keys
        invariant problems == [] <==> forall u | u in edges && u !in todo :: u in nodes && ListDefined(edges[u], nodes)
        invariant forall p :: p in problems <==>
          (p.UnknownSource? && p.from in edges && p.from !in todo && p.from !in nodes) ||
          (p.UndefinedTarget? && p.from in edges && p.from !in todo && Direct(To(p.to)) in edges[p.from] && p.to !in nodes)
      {
        var from :| from in todo;
        if from !in nodes { problems := problems + [UnknownSource(from)]; }
        var undefined := UndefinedTargets(from, edges[from], nodes);
        problems := problems + undefined;
        todo := todo - {from};
      }
    }

    method MissingEdges() returns (problems: seq<Problem>)
      ensures problems == [] <==> forall n | n in nodes :: n in edges
      ensures forall p :: p in problems <==> p.NoOutgoingEdge? && p.id in nodes && p.id !in edges
    {
      problems := [];
      for i := 0 to |nodes|
        invariant problems == [] <==> forall n | n in nodes[..i] :: n in edges
        invariant forall p :: p in problems <==> p.NoOutgoingEdge? && p.id in nodes[..i] && p.id !in edges
      {
        assert nodes[..i + 1] == nodes[..i] + [nodes[i]];
        if nodes[i] !in edges { problems := problems + [NoOutgoingEdge(nodes[i])]; }
      }
      assert nodes[..|nodes|] == nodes;
    }

    method HasOnlyDirect() returns (direct: bool)
      ensures direct <==> AllDirect(Described())
    {
      direct := true;
      var todo := edges.Keys;
      while todo != {}
        invariant todo <= edges.Keys
        invariant direct <==> forall u | u in edges && u !in todo :: ListDirect(edges[u])
      {
        var from :| from in todo;
        direct := direct && ListDirect(edges[from]);
        todo := todo - {from};
      }
    }

    method UnreachableNodes() returns (problems: seq<Problem>)
      requires entry.Some?
      ensures problems == [] <==> forall n | n in nodes :: Reaches(Described(), entry.value, n)
      ensures forall p :: p in problems <==>
        p.UnreachableNode? && p.id in nodes && !Reaches(Described(), entry.value, p.id)
    {
      problems := [];
      for i := 0 to |nodes|
        invariant problems == [] <==> forall n | n in nodes[..i] :: Reaches(Described(), entry.value, n)
        invariant forall p :: p in problems <==>
          p.UnreachableNode? && p.id in nodes[..i] && !Reaches(Described(), entry.value, p.id)
      {
        hide Reaches;
        assert nodes[..i + 1] == nodes[..i] + [nodes[i]];
        var reachable := IsReachable(Described(), entry.value, nodes[i]);
        if !reachable { problems := problems + [UnreachableNode(nodes[i])]; }
      }
      assert nodes[..|nodes|] == nodes;
    }

    /** build: refused with every problem found, or a graph the executor can rely on. */
    method Build() returns (g: Graph, error: Option<DefinitionError>)
      requires Valid()
      ensures g == Described()
      ensures error.None? <==> entry.Some? && WellDefined(Described(), started)
      ensures error.None? ==> Built(g)
    {
      var problems := Validate();
      g := Described();
      if problems != [] { return g, Some(InvalidGraph(problems)); }
      assert Built(g) by { WellDefinedIsBuilt(g, started); }
      return g, None;
    }
  }

  predicate ListDirect(list: seq<Edge>) {
    forall i | 0 <= i < |list| :: list[i].Direct?
  }

  predicate ListDefined(list: seq<Edge>, nodes: seq<Id>) {
    forall i | 0 <= i < |list| :: list[i].Direct? && list[i].target.To? ==> list[i].target.id in nodes
  }

  method UndefinedTargets(from: Id, list: seq<Edge>, nodes: seq<Id>) returns (problems: seq<Problem>)
    ensures problems == [] <==> ListDefined(list, nodes)
    ensures forall p :: p in problems <==>
      p.UndefinedTarget? && p.from == from && Direct(To(p.to)) in list && p.to !in nodes
  {
    problems := [];
    for i := 0 to |list|
      invariant problems == [] <==> ListDefined(list[..i], nodes)
      invariant forall p :: p in problems <==>
        p.UndefinedTarget? && p.from == from && Direct(To(p.to)) in list[..i] && p.to !in nodes
    {
      assert list[..i + 1] == list[..i] + [list[i]];
      if list[i].Direct? && list[i].target.To? && list[i].target.id !in nodes {
        problems := problems + [UndefinedTarget(from, list[i].target.id)];
        assert list[..i + 1][i] == list[i];
      }
      assert forall j | 0 <= j < i :: list[..i][j] == list[..i + 1][j];
    }
    assert list[..|list|] == list;
  }

  /** What passes validation is what the executor asks of its graphs. */
  lemma WellDefinedIsBuilt(g: Graph, started: bool)
    requires WellDefined(g, started) && Distinct(g.nodes) && g.info == map[]
    ensures Built(g)
  {
    hide Reaches, EndInReach;
  }

  /** For an acyclic graph of direct edges, validation is all that the topological sweep needs. */
  lemma ValidatedIsSweepable(g: Graph, started: bool)
    requires WellDefined(g, started) && Distinct(g.nodes) && g.info == map[] && AllDirect(g) && Acyclic(g)
    ensures Sweepable(g)
  {
    WellDefinedIsBuilt(g, started);
    hide Reaches, EndInReach, Acyclic, Built;
    forall u, e | u in g.edges && e in g.edges[u] ensures e.Direct? {
      var i :| 0 <= i < |g.edges[u]| && g.edges[u][i] == e;
    }
  }
}
