/** A graph whose nodes each have one outgoing edge is walked as a plain sequential program. */
module Sequential {
  import opened Values
  import opened Collections
  import opened Graphs
  import opened EdgeResolution
  import opened Frontier
  import opened Runs
  import opened Claims
  import opened WaveReset
  import opened ClaimCounters
  import opened Stranding

  // ----- The plain walk: run a node, store its result, follow its edge -----

  datatype Walk = Walk(at: Target, state: State, visited: seq<Id>)

  function Follow(g: Graph, e: Edge, state: State, result: Value): Option<Target> {
    if Broken(g, e, state, result) then None
    else match e
      case Direct(t) => Some(t)
      case Conditional(condition) =>
        match condition(state, result)
        case RouteTo(name) => Some(To(Id(name)))
        case _ => Some(End)
  }

  /** One step of the walk; None when the node or its edge fails. */
  function WalkOn(g: Graph, env: Env, w: Walk): Option<Walk>
    requires w.at.To? && w.at.id in g.edges && |g.edges[w.at.id]| == 1
  {
    var n := w.at.id;
    match env.runNode(n, w.state, |w.visited| + 1)
    case RunnerThrew(_) => None
    case Ran(result, technicalFailure, _) =>
      if technicalFailure then None
      else
        var state := w.state[n := result];
        match Follow(g, g.edges[n][0], state, result)
        case None => None
        case Some(target) => Some(Walk(target, state, w.visited + [n]))
  }

  ghost predicate OneEdgeEach(g: Graph) {
    Built(g) && forall n | n in g.edges :: |g.edges[n]| == 1
  }

  /** The walk after k steps, if it neither failed nor ended before. */
  function WalkFor(g: Graph, env: Env, k: nat): Option<Walk> {
    if k == 0 then Some(Walk(To(g.entry), g.initialState, []))
    else match WalkFor(g, env, k - 1)
      case None => None
      case Some(w) =>
        if w.at.To? && w.at.id in g.edges && |g.edges[w.at.id]| == 1 then WalkOn(g, env, w) else None
  }

  /** What is left of the nodes visited when the walk arrives at `at`: returning to one of them starts a new wave
      for everything reachable from there. */
  ghost function Arrive(g: Graph, ran: set<Id>, at: Target): set<Id> {
    if at.To? && at.id in ran then ran - Forward(g, at.id) else ran
  }

  /** The nodes that the walk has visited in this wave. */
  ghost function RanInWave(g: Graph, env: Env, k: nat): set<Id> {
    if k == 0 then {}
    else match (WalkFor(g, env, k - 1), WalkFor(g, env, k))
      case (Some(before), Some(after)) => Arrive(g, RanInWave(g, env, k - 1) + AtSet(before.at), after.at)
      case _ => {}
  }

  // ----- The executor follows it -----

  function PathOf(history: seq<Execution>): seq<Id> {
    seq(|history|, i requires 0 <= i < |history| => history[i].node)
  }

  function AtSet(t: Target): set<Id> {
    if t.To? then {t.id} else {}
  }

  /** The executor's state mirrors the walk's: the same place, state and path, and nothing
      selected beyond what has run and where the walk stands. */
  ghost predicate Mirrors(g: Graph, r: Run, w: Walk) {
    && RunInv(g, r)
    && r.state == w.state && PathOf(r.history) == w.visited && r.nodeExecutions == |w.visited|
    && r.book.selected == r.book.executed + AtSet(w.at)
    && (w.at.To? ==> w.at.id !in r.book.executed && w.at.id in g.nodes)
  }

  /** At most one node is ready: the one the walk stands at. */
  lemma MirrorFrontier(g: Graph, r: Run, w: Walk)
    requires Built(g) && Mirrors(g, r, w)
    ensures r.frontier == [] || (w.at.To? && r.frontier == [w.at.id])
  {
    hide BookInv;
    forall m | m in r.frontier ensures w.at == To(m) { assert Ready(r.book, m); }
    if r.frontier != [] {
      assert r.frontier[0] in r.frontier;
      DistinctInside(r.frontier, [w.at.id]);
    }
  }

  /** What a single edge resolves to. */
  lemma SingleEdge(g: Graph, n: Id, e: Edge, state: State, result: Value)
    ensures var r := Resolve(g, n, [e], state, result);
      match Follow(g, e, state, result)
      case None => r.Faulty?
      case Some(End) => r.Routed? && r.selected == []
      case Some(To(m)) => r.Routed? && r.selected == [m] && m in r.resolved
  {
    assert [e][..0] == [];
    assert Resolve(g, n, [], state, result) == Routed([], {});
  }

  /** A one-node round is one step of the walk. */
  lemma SingleRound(g: Graph, env: Env, r: Run, w: Walk)
    requires OneEdgeEach(g) && w.at.To? && w.at.id in g.nodes && r.frontier == [w.at.id]
    requires r.state == w.state && r.nodeExecutions == |w.visited|
    ensures var a := RoundAbsorption(g, env, r);
      match WalkOn(g, env, w)
      case None => a.failure.Some?
      case Some(w') =>
        && a.failure.None? && a.state == w'.state
        && |a.done| == 1 && a.done[0].node == w.at.id && w'.visited == w.visited + [w.at.id]
        && (forall f | f in a.fired :: f.from == w.at.id)
        && (forall f | f in a.fired && f.selected :: w'.at == To(f.to))
        && (w'.at.To? ==> FiredEdge(w.at.id, w'.at.id, true) in a.fired)
  {
    var n := w.at.id;
    var outcomes := Outcomes(env, r.frontier, r.state, r.nodeExecutions);
    var start := Absorption(r.state, [], {}, r.finalResult, None);
    assert r.frontier[..0] == [] && outcomes[..0] == [];
    assert AbsorbAll(g, r.iterations + 1, r.nodeExecutions, [], [], start) == start;
    var o := env.runNode(n, r.state, r.nodeExecutions + 1);
    assert RoundAbsorption(g, env, r) == Absorb(g, r.iterations + 1, n, r.nodeExecutions + 1, o, start);
    if o.Ran? {
      assert EdgesOf(g, n) == [g.edges[n][0]];
      SingleEdge(g, n, g.edges[n][0], r.state[n := o.result], o.result);
    }
  }

  /** How one fired route moves the book: forward to an unvisited node, or back by a reset. */
  lemma SingleStepBook(g: Graph, b: Book, n: Id, fired: set<FiredEdge>, next: Book, at: Target)
    requires BookInv(g, b) && BarrierStep(g, b, {n}, fired, next)
    requires b.selected == b.executed + {n}
    requires forall f | f in fired && f.selected :: at == To(f.to)
    requires at.To? ==> FiredEdge(n, at.id, true) in fired
    ensures next.selected == next.executed + AtSet(at) && next.executed == Arrive(g, b.executed + {n}, at)
    ensures at.To? ==> at.id !in next.executed && at.id in g.nodes
    ensures Unnested(g, TargetsOfStep(b, {n}, fired))
  {
    var ran := b.executed + {n};
    var targets := ResetTargets(fired, ran);
    assert targets == AtSet(at) * ran;
    TargetsAreReset(g, targets);
    if targets == {} {
      assert ResetNodes(g, targets) == {};
      assert NewlyRouted(targets, {}, fired) == AtSet(at);
    } else {
      assert NewlyRouted(targets, ResetNodes(g, targets), fired) == {};
    }
  }

  lemma TurnFollowsWalk(g: Graph, env: Env, r: Run, w: Walk)
    requires OneEdgeEach(g) && Mirrors(g, r, w) && Advance(g, env, r).Barrier?
    ensures w.at.To? && w.at.id in g.nodes && WalkOn(g, env, w).Some?
    ensures Mirrors(g, Advance(g, env, r).run, WalkOn(g, env, w).value)
    ensures Advance(g, env, r).run.book.executed == Arrive(g, r.book.executed + AtSet(w.at), WalkOn(g, env, w).value.at)
    ensures TurnUnnested(g, env, r)
  {
    hide Advance, RoundAbsorption, BookInv, BarrierStep, WalkOn, NodeEvents, Totals, BySourceRecord, NextBook, ReadyNodes, Arrive,
      Unnested, TargetsOfStep;
    AdvanceCounts(g, env, r);
    MirrorFrontier(g, r, w);
    SingleRound(g, env, r, w);
    TurnEffect(g, env, r);
    TurnIsStep(g, env, r);
    TurnKeepsRunInv(g, env, r);
    var a, next, w' := RoundAbsorption(g, env, r), Advance(g, env, r).run, WalkOn(g, env, w).value;
    assert FrontierSet(r.frontier) == {w.at.id};
    SingleStepBook(g, r.book, w.at.id, a.fired, next.book, w'.at);
    assert PathOf(next.history) == PathOf(r.history) + [w.at.id];
  }

  /** At every barrier of a fresh run the executor stands where the plain walk stands. */
  lemma {:induction false} ExecutorFollowsWalk(g: Graph, env: Env, k: nat)
    requires OneEdgeEach(g) && AfterBarriers(g, env, FreshRun(g), k).Some?
    ensures WalkFor(g, env, k).Some? && Mirrors(g, AfterBarriers(g, env, FreshRun(g), k).value, WalkFor(g, env, k).value)
    ensures var f := AfterBarriers(g, env, FreshRun(g), k).value.frontier;
      f == [] || (WalkFor(g, env, k).value.at.To? && f == [WalkFor(g, env, k).value.at.id])
  {
    hide Advance, RunInv, WalkOn;
    if k == 0 {
      FreshRunInv(g);
      assert {g.entry} == {} + AtSet(To(g.entry));
    } else {
      ExecutorFollowsWalk(g, env, k - 1);
      TurnFollowsWalk(g, env, AfterBarriers(g, env, FreshRun(g), k - 1).value, WalkFor(g, env, k - 1).value);
    }
    MirrorFrontier(g, AfterBarriers(g, env, FreshRun(g), k).value, WalkFor(g, env, k).value);
  }

  /** What has run in the executor's wave is what the walk has visited in it. */
  lemma {:induction false} WaveIsWalked(g: Graph, env: Env, k: nat)
    requires OneEdgeEach(g) && AfterBarriers(g, env, FreshRun(g), k).Some?
    ensures AfterBarriers(g, env, FreshRun(g), k).value.book.executed == RanInWave(g, env, k)
  {
    hide Advance, Mirrors, WalkOn, Arrive, TurnUnnested, StaticClaims;
    if k > 0 {
      WaveIsWalked(g, env, k - 1);
      ExecutorFollowsWalk(g, env, k - 1);
      TurnFollowsWalk(g, env, AfterBarriers(g, env, FreshRun(g), k - 1).value, WalkFor(g, env, k - 1).value);
      WalkContinues(g, env, k);
    }
  }

  lemma WalkContinues(g: Graph, env: Env, k: nat)
    requires OneEdgeEach(g) && k > 0 && WalkFor(g, env, k - 1).Some? && WalkFor(g, env, k - 1).value.at.To?
    requires WalkFor(g, env, k - 1).value.at.id in g.nodes
    ensures WalkFor(g, env, k) == WalkOn(g, env, WalkFor(g, env, k - 1).value)
  {
    hide WalkOn;
  }

  /** No round resets nested targets. */
  lemma WalkIsUnnested(g: Graph, env: Env, k: nat)
    requires OneEdgeEach(g) && AfterBarriers(g, env, FreshRun(g), k).Some?
    ensures forall j | 0 <= j < k :: AfterBarriers(g, env, FreshRun(g), j).Some? ==> TurnUnnested(g, env, FreshBarrier(g, env, j))
  {
    hide Advance, Mirrors, WalkOn, TurnUnnested, StaticClaims;
    forall j | 0 <= j < k ensures AfterBarriers(g, env, FreshRun(g), j).Some? ==> TurnUnnested(g, env, FreshBarrier(g, env, j)) {
      BarriersBefore(g, env, FreshRun(g), j, k);
      ExecutorFollowsWalk(g, env, j);
      TurnFollowsWalk(g, env, AfterBarriers(g, env, FreshRun(g), j).value, WalkFor(g, env, j).value);
    }
  }

  /** Where the executor leaves the walk: standing at a node, it goes on exactly if the node is the entry or
      the walk has visited every static claimer of it in this wave; otherwise the run is aborted there. */
  lemma LeavesWalkIff(g: Graph, env: Env, k: nat)
    requires OneEdgeEach(g) && AfterBarriers(g, env, FreshRun(g), k).Some?
    requires WalkFor(g, env, k).Some? && WalkFor(g, env, k).value.at.To?
    ensures var r, n := AfterBarriers(g, env, FreshRun(g), k).value, WalkFor(g, env, k).value.at.id;
      && n in r.book.remaining
      && (r.frontier == [n] <==> Quiet(r.book.remaining[n]))
      && (r.frontier == [n] <==> n == g.entry || forall s | IsClaim(g, s, n) :: s in RanInWave(g, env, k))
      && (r.frontier != [n] ==> r.frontier == [] && r.status == Aborted)
  {
    hide Advance, WalkOn, CounterRule, IsClaim, TurnUnnested, Arrive;
    ExecutorFollowsWalk(g, env, k);
    EveryBarrierStatus(g, env, k);
    var r, n := AfterBarriers(g, env, FreshRun(g), k).value, WalkFor(g, env, k).value.at.id;
    WaveIsWalked(g, env, k);
    WalkIsUnnested(g, env, k);
    FrontierByRule(g, env, k, n);
    assert Ready(r.book, n) <==> Quiet(r.book.remaining[n]);
    assert n in r.frontier <==> Ready(r.book, n);
  }

  /** A completed run is the whole walk, all the way to END, however often it looped back. */
  lemma CompletedRunIsTheWalk(g: Graph, env: Env) returns (k: nat)
    requires OneEdgeEach(g) && RunFrom(g, env, FreshRun(g)).status == Completed
    ensures var r := RunFrom(g, env, FreshRun(g));
      && WalkFor(g, env, k).Some? && WalkFor(g, env, k).value.at == End
      && r.state == WalkFor(g, env, k).value.state && PathOf(r.history) == WalkFor(g, env, k).value.visited
  {
    hide Advance, BookInv, WalkOn;
    var last;
    k, last := CompletedIff(g, env);
    ExecutorFollowsWalk(g, env, k);
    EmptyStops(g, env, last);
  }

  lemma EmptyStops(g: Graph, env: Env, r: Run)
    requires r.frontier == []
    ensures Advance(g, env, r) == Stopped(r)
  {}
}
