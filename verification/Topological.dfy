/** On an acyclic graph of direct edges the executor is a topological sweep: every node runs
    once, in the round given by its longest path from the entry. */
module Topological {
  import opened Values
  import opened Collections
  import opened Graphs
  import opened Claims
  import opened EdgeResolution
  import opened Frontier
  import opened Runs
  import opened WaveReset
  import opened ClaimCounters
  import opened Stranding
  import opened Sequential

  ghost predicate DirectOnly(g: Graph) {
    forall u, e | u in g.edges && e in g.edges[u] :: e.Direct?
  }

  ghost predicate Acyclic(g: Graph) {
    forall a, b | b in Successors(g, a) :: !Reaches(g, b, a)
  }

  /** An acyclic graph of direct edges that passed validation: the entry reaches every node. */
  ghost predicate Sweepable(g: Graph) {
    Built(g) && DirectOnly(g) && Acyclic(g) && forall n | n in g.nodes :: Reaches(g, g.entry, n)
  }

  // ----- Longest paths -----

  /** Some path from the entry to n has exactly `len` edges. */
  ghost predicate HasPath(g: Graph, n: Id, len: nat) {
    exists p :: PathBetween(g, p, g.entry, n) && |p| == len + 1
  }

  /** `len` is the length of the longest path from the entry to n. */
  ghost predicate IsLongest(g: Graph, n: Id, len: nat) {
    HasPath(g, n, len) && forall m: nat | HasPath(g, n, m) :: m <= len
  }

  lemma PathPart(g: Graph, p: seq<Id>, i: nat, j: nat)
    requires Path(g, p) && i <= j < |p|
    ensures Reaches(g, p[i], p[j])
  {
    assert PathBetween(g, p[i..j + 1], p[i], p[j]);
  }

  /** A path in an acyclic graph repeats nothing, so it is no longer than the node list. */
  lemma PathsAreShort(g: Graph, p: seq<Id>)
    requires Sweepable(g) && Path(g, p) && p[0] in g.nodes
    ensures |p| <= |g.nodes|
  {
    forall i, j | 0 <= i < j < |p| ensures p[i] != p[j] {
      PathPart(g, p, i + 1, j);
    }
    forall i | 0 <= i < |p| ensures p[i] in g.nodes { PathInNodes(g, p, i); }
    DistinctInside(p, g.nodes);
  }

  lemma {:induction false} PathInNodes(g: Graph, p: seq<Id>, i: nat)
    requires Built(g) && DirectOnly(g) && Path(g, p) && p[0] in g.nodes && i < |p|
    ensures p[i] in g.nodes
  {
    if i > 0 { SuccessorIsNode(g, p[i - 1], p[i]); }
  }

  lemma SuccessorIsNode(g: Graph, u: Id, v: Id)
    requires Built(g) && DirectOnly(g) && v in Successors(g, u)
    ensures v in g.nodes && u in g.nodes && Direct(To(v)) in g.edges[u]
  {
    var i :| 0 <= i < |EdgesOf(g, u)| && v in EdgeTargets(g, u, EdgesOf(g, u)[i]);
    assert EdgesOf(g, u)[i] in g.edges[u];
  }

  ghost function LongestUpTo(g: Graph, n: Id, bound: nat): nat {
    if bound == 0 || HasPath(g, n, bound) then bound else LongestUpTo(g, n, bound - 1)
  }

  lemma {:induction false} LongestUpToIsLargest(g: Graph, n: Id, bound: nat, m: nat)
    requires HasPath(g, n, m) && m <= bound
    ensures HasPath(g, n, LongestUpTo(g, n, bound)) && m <= LongestUpTo(g, n, bound)
  {
    hide HasPath;
    if bound > 0 && !HasPath(g, n, bound) { LongestUpToIsLargest(g, n, bound - 1, m); }
  }

  /** The length of the longest path from the entry. */
  ghost function Level(g: Graph, n: Id): nat {
    LongestUpTo(g, n, |g.nodes|)
  }

  lemma LevelIsLongest(g: Graph, n: Id)
    requires Sweepable(g) && n in g.nodes
    ensures IsLongest(g, n, Level(g, n))
  {
    forall m: nat | HasPath(g, n, m) ensures m <= |g.nodes| {
      var p :| PathBetween(g, p, g.entry, n) && |p| == m + 1;
      PathsAreShort(g, p);
    }
    var p :| PathBetween(g, p, g.entry, n);
    assert HasPath(g, n, |p| - 1);
    LongestUpToIsLargest(g, n, |g.nodes|, |p| - 1);
    forall m: nat | HasPath(g, n, m) ensures m <= Level(g, n) {
      LongestUpToIsLargest(g, n, |g.nodes|, m);
    }
  }

  lemma EntryLevel(g: Graph)
    requires Sweepable(g)
    ensures Level(g, g.entry) == 0
  {
    LevelIsLongest(g, g.entry);
    var p :| PathBetween(g, p, g.entry, g.entry) && |p| == Level(g, g.entry) + 1;
    if |p| > 1 {
      assert p[1] in Successors(g, p[0]);
      PathPart(g, p, 1, |p| - 1);
    }
  }

  lemma EdgeRaisesLevel(g: Graph, u: Id, v: Id)
    requires Sweepable(g) && v in Successors(g, u)
    ensures Level(g, u) < Level(g, v)
  {
    hide Level, DirectOnly, Acyclic, Successors;
    SuccessorIsNode(g, u, v);
    LevelIsLongest(g, u);
    LevelIsLongest(g, v);
    var p :| PathBetween(g, p, g.entry, u) && |p| == Level(g, u) + 1;
    assert PathBetween(g, p + [v], g.entry, v);
    assert HasPath(g, v, Level(g, u) + 1);
  }

  /** Behind every node but the entry is a predecessor one level lower. */
  lemma LevelPredecessor(g: Graph, n: Id) returns (p: Id)
    requires Sweepable(g) && n in g.nodes && n != g.entry
    ensures n in Successors(g, p) && p in g.nodes && Level(g, n) == Level(g, p) + 1
  {
    LevelIsLongest(g, n);
    var path :| PathBetween(g, path, g.entry, n) && |path| == Level(g, n) + 1;
    assert |path| > 1;
    p := path[|path| - 2];
    assert PathBetween(g, path[..|path| - 1], g.entry, p);
    assert HasPath(g, p, |path| - 2);
    SuccessorIsNode(g, p, n);
    LevelIsLongest(g, p);
    EdgeRaisesLevel(g, p, n);
  }

  // ----- Direct edges -----

  lemma ClaimIsEdge(g: Graph, s: Id, n: Id)
    requires Sweepable(g)
    ensures IsClaim(g, s, n) <==> n in Successors(g, s)
  {
    if n in Successors(g, s) {
      SuccessorIsNode(g, s, n);
      assert Selectable(g, s, Direct(To(n)), n);
    }
    if IsClaim(g, s, n) {
      var e :| e in EdgesOf(g, s) && Selectable(g, s, e, n);
      var i :| 0 <= i < |EdgesOf(g, s)| && EdgesOf(g, s)[i] == e;
      assert n in EdgeTargets(g, s, EdgesOf(g, s)[i]);
    }
  }

  lemma DirectResolution(g: Graph, s: Id, state: State, result: Value)
    requires Built(g) && DirectOnly(g)
    ensures var r := Resolve(g, s, EdgesOf(g, s), state, result);
      r.Routed? && forall n :: n in r.selected <==> n in Successors(g, s)
  {
    ResolveMeaning(g, s, EdgesOf(g, s), state, result);
    assert forall e | e in EdgesOf(g, s) :: e.Direct?;
    forall n ensures AnyRoutes(EdgesOf(g, s), state, result, n) <==> n in Successors(g, s) {
      if n in Successors(g, s) {
        SuccessorIsNode(g, s, n);
        assert RoutesTo(Direct(To(n)), state, result, n);
      }
      if e :| e in EdgesOf(g, s) && RoutesTo(e, state, result, n) {
        var i :| 0 <= i < |EdgesOf(g, s)| && EdgesOf(g, s)[i] == e;
        assert n in EdgeTargets(g, s, EdgesOf(g, s)[i]);
      }
    }
  }

  predicate Succeeds(o: Outcome) {
    o.Ran? && !o.technicalFailure
  }

  /** The successor set of a node, read off its edge list. */
  lemma DirectSuccessors(g: Graph, u: Id, edges: seq<Edge>, targets: set<Id>)
    requires u in g.edges && g.edges[u] == edges
    requires forall i | 0 <= i < |edges| :: edges[i].Direct? && (edges[i].target.To? ==> edges[i].target.id in targets)
    requires forall n | n in targets :: Direct(To(n)) in edges
    ensures Successors(g, u) == targets
  {
    forall n | n in targets ensures n in Successors(g, u) {
      var i :| 0 <= i < |edges| && edges[i] == Direct(To(n));
      assert n in EdgeTargets(g, u, EdgesOf(g, u)[i]);
    }
  }

  /** A world in which every node delivers a result and nobody aborts. */
  ghost predicate Calm(env: Env) {
    (forall n, s, k :: Succeeds(env.runNode(n, s, k))) && forall k :: !env.aborted(k)
  }

  const CALM_WORLD := Env((n, s, k) => Ran(Null, false, None), k => false, 45)

  /** The edges a round's nodes select are exactly their outgoing edges. */
  ghost predicate FiresSuccessors(g: Graph, ran: set<Id>, fired: set<FiredEdge>) {
    forall s, n :: FiredEdge(s, n, true) in fired <==> s in ran && n in Successors(g, s)
  }

  lemma DirectAbsorb(g: Graph, round: nat, node: Id, step: nat, o: Outcome, a: Absorption, ran: set<Id>)
    requires Built(g) && DirectOnly(g) && FiresSuccessors(g, ran, a.fired) && node !in ran
    ensures var next := Absorb(g, round, node, step, o, a);
      && (Succeeds(o) ==> next.failure == a.failure)
      && (next.failure.None? ==> a.failure.None? && FiresSuccessors(g, ran + {node}, next.fired))
  {
    if Succeeds(o) {
      var state := a.state[node := o.result];
      DirectResolution(g, node, state, o.result);
      var r := Resolve(g, node, EdgesOf(g, node), state, o.result);
      FiredBySuccessors(g, node, state, o.result, a.fired, ran);
      hide Resolve, DirectOnly, FiresSuccessors, Successors;
    }
  }

  /** A node of direct edges fires and selects exactly its successors. */
  lemma FiredBySuccessors(g: Graph, node: Id, state: State, result: Value, fired: set<FiredEdge>, ran: set<Id>)
    requires Built(g) && DirectOnly(g) && FiresSuccessors(g, ran, fired) && node !in ran
    ensures var r := Resolve(g, node, EdgesOf(g, node), state, result);
      r.Routed? && FiresSuccessors(g, ran + {node}, fired + FiredBy(node, r.selected, r.resolved))
  {
    DirectResolution(g, node, state, result);
    ResolveMeaning(g, node, EdgesOf(g, node), state, result);
    hide Resolve, DirectOnly, Successors, AnySelectable, AnyRoutes, Built;
    var r := Resolve(g, node, EdgesOf(g, node), state, result);
    forall s, n ensures FiredEdge(s, n, true) in fired + FiredBy(node, r.selected, r.resolved) <==>
      s in ran + {node} && n in Successors(g, s) {}
  }

  /** A round of direct edges fails only if an outcome does; otherwise it fires exactly the
      outgoing edges of its nodes. */
  lemma {:induction false} DirectAbsorbAll(g: Graph, round: nat, base: nat, frontier: seq<Id>, outcomes: seq<Outcome>, start: Absorption)
    requires Built(g) && DirectOnly(g) && |frontier| == |outcomes| && Distinct(frontier)
    requires start.failure.None? && start.fired == {}
    ensures var a := AbsorbAll(g, round, base, frontier, outcomes, start);
      && ((forall o | o in outcomes :: Succeeds(o)) ==> a.failure.None?)
      && (a.failure.None? ==> FiresSuccessors(g, FrontierSet(frontier), a.fired))
  {
    hide Absorb, DirectOnly, Successors, Succeeds;
    if frontier != [] {
      var k := |frontier| - 1;
      assert forall o | o in outcomes[..k] :: o in outcomes;
      DirectAbsorbAll(g, round, base, frontier[..k], outcomes[..k], start);
      var before := AbsorbAll(g, round, base, frontier[..k], outcomes[..k], start);
      assert frontier == frontier[..k] + [frontier[k]];
      assert FrontierSet(frontier) == FrontierSet(frontier[..k]) + {frontier[k]};
      assert outcomes[k] in outcomes;
      AbsorbKeepsFailure(g, round, frontier[k], base + k + 1, outcomes[k], before);
      if before.failure.None? {
        DirectAbsorb(g, round, frontier[k], base + k + 1, outcomes[k], before, FrontierSet(frontier[..k]));
      }
    }
  }

  lemma AbsorbKeepsFailure(g: Graph, round: nat, node: Id, step: nat, o: Outcome, a: Absorption)
    ensures a.failure.Some? ==> Absorb(g, round, node, step, o, a).failure.Some?
  {
    hide Resolve;
  }

  // ----- The sweep -----

  ghost function Below(g: Graph, k: int): set<Id> {
    set n | n in g.nodes && Level(g, n) < k
  }

  ghost function RoutedFrom(g: Graph, ran: set<Id>): set<Id> {
    set n | n in g.nodes && (n == g.entry || exists p :: p in ran && n in Successors(g, p))
  }

  /** The readiness state after k rounds of the sweep. */
  ghost predicate SweepBook(g: Graph, b: Book, k: nat) {
    && BookInv(g, b) && CounterRule(g, b)
    && b.executed == Below(g, k)
    && b.selected == RoutedFrom(g, Below(g, k))
  }

  /** Then the ready nodes are those at level k. */
  lemma SweepReady(g: Graph, b: Book, k: nat, n: Id)
    requires Sweepable(g) && SweepBook(g, b, k) && n in g.nodes
    ensures Ready(b, n) <==> Level(g, n) == k
  {
    hide HasPath, Level, BookInv, CounterRule, Ready, IsClaim, Reaches;
    EntryLevel(g);
    ReadyIffRule(g, b, n);
    forall s ensures IsClaim(g, s, n) <==> n in Successors(g, s) { ClaimIsEdge(g, s, n); }
    if n == g.entry {
    } else {
      var p := LevelPredecessor(g, n);
      assert IsClaim(g, p, n);
      forall s | n in Successors(g, s) ensures Level(g, s) < Level(g, n) && s in g.nodes {
        EdgeRaisesLevel(g, s, n);
        SuccessorIsNode(g, s, n);
      }
    }
  }

  /** One round of the sweep: no resets, and the next level becomes ready. */
  lemma SweepStep(g: Graph, b: Book, ran: set<Id>, fired: set<FiredEdge>, next: Book, k: nat)
    requires Sweepable(g) && SweepBook(g, b, k) && BarrierStep(g, b, ran, fired, next)
    requires forall n | n in g.nodes :: n in ran <==> Level(g, n) == k
    requires FiresSuccessors(g, ran, fired)
    ensures SweepBook(g, next, k + 1)
  {
    hide HasPath, Level, Reaches, IsClaim, BookInv, CounterRule, Successors, SettledClaims;
    assert forall n | n in ran :: n in g.nodes by { RanAreNodes(g, b, ran, fired, next); }
    assert b.executed + ran == Below(g, k + 1);
    forall f | f in fired && f.selected ensures f.to !in b.executed + ran {
      assert FiredEdge(f.from, f.to, true) in fired;
      EdgeRaisesLevel(g, f.from, f.to);
    }
    var targets := TargetsOfStep(b, ran, fired);
    assert targets == {};
    assert ResetNodes(g, targets) == {};
    StepKeepsBookInv(g, b, ran, fired, next);
    UnnestedForcesNothingEarly(g, b, ran, fired);
    StepKeepsRuleIff(g, b, ran, fired, next);
    SweepSelected(g, b, ran, fired, next, k);
  }

  lemma RanAreNodes(g: Graph, b: Book, ran: set<Id>, fired: set<FiredEdge>, next: Book)
    requires BookInv(g, b) && BarrierStep(g, b, ran, fired, next)
    ensures forall n | n in ran :: n in g.nodes
  {
    hide NextBook, FiredOk;
    forall n | n in ran ensures n in g.nodes { assert Ready(b, n); }
  }

  lemma SweepSelected(g: Graph, b: Book, ran: set<Id>, fired: set<FiredEdge>, next: Book, k: nat)
    requires Built(g) && DirectOnly(g) && FiresSuccessors(g, ran, fired) && next == NextBook(g, b.(executed := b.executed + ran), fired)
    requires b.selected == RoutedFrom(g, Below(g, k)) && Below(g, k) + ran == Below(g, k + 1)
    requires ResetTargets(fired, b.executed + ran) == {}
    ensures next.selected == RoutedFrom(g, Below(g, k + 1)) && next.executed == b.executed + ran
  {
    hide Below, Successors;
    assert ResetNodes(g, {}) == {};
    assert next.selected == b.selected + NewlyRouted({}, {}, fired);
    forall n ensures n in next.selected <==> n in RoutedFrom(g, Below(g, k + 1)) {
      if n in NewlyRouted({}, {}, fired) {
        var f :| f in fired && f.selected && f.to == n;
        assert FiredEdge(f.from, n, true) in fired;
        SuccessorIsNode(g, f.from, n);
        assert f.from in Below(g, k + 1);
      }
      if p :| p in ran && n in Successors(g, p) && n in RoutedFrom(g, Below(g, k + 1)) {
        assert FiredEdge(p, n, true) in fired;
      }
    }
  }

  // ----- The run -----

  /** What the history says: each node at most once, in the round after its level. */
  ghost predicate SweepHistory(g: Graph, history: seq<Execution>, k: nat) {
    && Distinct(PathOf(history))
    && (forall e | e in history :: e.node in g.nodes && e.round == Level(g, e.node) + 1 <= k)
    && (forall n | n in g.nodes && Level(g, n) < k :: n in PathOf(history))
  }

  ghost predicate Sweeping(g: Graph, r: Run, k: nat) {
    && RunInv(g, r) && SweepBook(g, r.book, k)
    && r.iterations == k && r.nodeExecutions == |r.history|
    && SweepHistory(g, r.history, k)
  }

  lemma SweepHistoryStep(g: Graph, history: seq<Execution>, done: seq<Execution>, frontier: seq<Id>, base: nat, k: nat)
    requires SweepHistory(g, history, k) && RecordsRound(done, k + 1, base, frontier) && Distinct(frontier)
    requires forall n :: n in frontier <==> n in g.nodes && Level(g, n) == k
    ensures SweepHistory(g, history + done, k + 1)
  {
    hide Level;
    assert forall i | 0 <= i < |done| :: Records(done[i], frontier[i], k + 1, base + i + 1);
    assert PathOf(done) == frontier;
    assert PathOf(history + done) == PathOf(history) + frontier;
    forall n | n in PathOf(history) ensures n !in frontier {
      var i :| 0 <= i < |history| && history[i].node == n;
      assert history[i] in history;
    }
    forall e | e in done ensures e.node in frontier && e.round == k + 1 {
      var i :| 0 <= i < |done| && done[i] == e;
    }
  }

  /** Whatever the world, a turn that reaches its barrier is one more round of the sweep. */
  lemma TurnSweeps(g: Graph, env: Env, r: Run, k: nat)
    requires Sweepable(g) && Sweeping(g, r, k) && Advance(g, env, r).Barrier?
    ensures Sweeping(g, Advance(g, env, r).run, k + 1)
    ensures FiresSuccessors(g, FrontierSet(r.frontier), RoundAbsorption(g, env, r).fired)
  {
    hide Advance, RoundAbsorption, BookInv, CounterRule, BarrierStep, NextBook, Level, Acyclic, DirectOnly, Totals,
      BySourceRecord, NodeEvents, SweepBook, SweepHistory, Ready, FrontierSet;
    TurnEffect(g, env, r);
    TurnIsStep(g, env, r);
    TurnKeepsRunInv(g, env, r);
    RoundFacts(g, env, r);
    TurnFires(g, env, r);
    forall n ensures n in r.frontier <==> n in g.nodes && Level(g, n) == k {
      if n in g.nodes { SweepReady(g, r.book, k, n); }
    }
    FrontierSetMembers(r.frontier);
    SweepStep(g, r.book, FrontierSet(r.frontier), RoundAbsorption(g, env, r).fired, Advance(g, env, r).run.book, k);
    SweepHistoryStep(g, r.history, RoundAbsorption(g, env, r).done, r.frontier, r.nodeExecutions, k);
  }

  lemma FrontierSetMembers(f: seq<Id>)
    ensures forall n :: n in FrontierSet(f) <==> n in f
  {}

  lemma TurnFires(g: Graph, env: Env, r: Run)
    requires Built(g) && DirectOnly(g) && Distinct(r.frontier) && RoundAbsorption(g, env, r).failure.None?
    ensures FiresSuccessors(g, FrontierSet(r.frontier), RoundAbsorption(g, env, r).fired)
  {
    hide AbsorbAll, DirectOnly, FrontierSet;
    DirectAbsorbAll(g, r.iterations + 1, r.nodeExecutions, r.frontier,
                    Outcomes(env, r.frontier, r.state, r.nodeExecutions), Absorption(r.state, [], {}, r.finalResult, None));
  }

  /** In a calm world every round reaches its barrier. */
  lemma CalmTurn(g: Graph, env: Env, r: Run)
    requires Built(g) && DirectOnly(g) && Calm(env) && r.frontier != [] && r.iterations < env.maxRounds && Distinct(r.frontier)
    ensures Advance(g, env, r).Barrier?
  {
    hide AbsorbAll, DirectOnly, Advance;
    DirectAbsorbAll(g, r.iterations + 1, r.nodeExecutions, r.frontier,
                    Outcomes(env, r.frontier, r.state, r.nodeExecutions), Absorption(r.state, [], {}, r.finalResult, None));
    GoodRoundIsBarrier(g, env, r);
  }

  lemma SweepingDistinct(g: Graph, r: Run, k: nat)
    requires Built(g) && Sweeping(g, r, k)
    ensures Distinct(r.frontier)
  {
    hide BookInv, SweepBook, SweepHistory;
  }

  lemma GoodRoundIsBarrier(g: Graph, env: Env, r: Run)
    requires r.frontier != [] && !env.aborted(r.iterations) && r.iterations < env.maxRounds
    ensures Advance(g, env, r).Barrier? <==> RoundAbsorption(g, env, r).failure.None?
  {
    hide RoundAbsorption, AtBarrier, AfterResults;
  }

  lemma FreshSweeps(g: Graph)
    requires Sweepable(g)
    ensures Sweeping(g, FreshRun(g), 0)
  {
    hide Acyclic, BookInv, CounterRule, StaticClaims, Reaches, DirectOnly, Level;
    FreshRunInv(g);
    FreshRule(g);
    assert Below(g, 0) == {};
    assert RoutedFrom(g, {}) == {g.entry};
  }

  /** Every barrier of every fresh run, in any world, is a stage of the sweep. */
  lemma {:induction false} EveryBarrierSweeps(g: Graph, env: Env, k: nat)
    requires Sweepable(g) && AfterBarriers(g, env, FreshRun(g), k).Some?
    ensures Sweeping(g, AfterBarriers(g, env, FreshRun(g), k).value, k)
  {
    hide Advance, Sweeping, DirectOnly, Acyclic;
    if k == 0 {
      FreshSweeps(g);
    } else {
      EveryBarrierSweeps(g, env, k - 1);
      TurnSweeps(g, env, AfterBarriers(g, env, FreshRun(g), k - 1).value, k - 1);
    }
  }

  /** `top` is the length of the longest path in the graph. */
  ghost predicate IsHeight(g: Graph, top: nat) {
    (exists n :: n in g.nodes && Level(g, n) == top) && forall n | n in g.nodes :: Level(g, n) <= top
  }

  lemma {:induction false} LevelsBelowOccur(g: Graph, n: Id, k: nat) returns (m: Id)
    requires Sweepable(g) && n in g.nodes && k <= Level(g, n)
    ensures m in g.nodes && Level(g, m) == k
    decreases Level(g, n)
  {
    EntryLevel(g);
    hide Level, Sweepable;
    if k == Level(g, n) { m := n; }
    else {
      var p := LevelPredecessor(g, n);
      m := LevelsBelowOccur(g, p, k);
    }
  }

  lemma {:induction false} SweepReaches(g: Graph, env: Env, top: nat, k: nat)
    requires Sweepable(g) && Calm(env) && IsHeight(g, top) && k <= top + 1 && k <= env.maxRounds
    ensures AfterBarriers(g, env, FreshRun(g), k).Some? && Sweeping(g, AfterBarriers(g, env, FreshRun(g), k).value, k)
    ensures AfterBarriers(g, env, FreshRun(g), k).value.frontier == [] <==> k == top + 1
  {
    hide Advance, Level, Acyclic, DirectOnly, RunInv, SweepBook, SweepHistory, Calm;
    if k == 0 {
      FreshSweeps(g);
    } else {
      SweepReaches(g, env, top, k - 1);
      SweepingDistinct(g, AfterBarriers(g, env, FreshRun(g), k - 1).value, k - 1);
      CalmTurn(g, env, AfterBarriers(g, env, FreshRun(g), k - 1).value);
      TurnSweeps(g, env, AfterBarriers(g, env, FreshRun(g), k - 1).value, k - 1);
    }
    SweepFrontier(g, AfterBarriers(g, env, FreshRun(g), k).value, top, k);
  }

  lemma SweepFrontier(g: Graph, r: Run, top: nat, k: nat)
    requires Sweepable(g) && IsHeight(g, top) && Sweeping(g, r, k) && k <= top + 1
    ensures r.frontier == [] <==> k == top + 1
    ensures k == top + 1 ==> r.book.selected <= r.book.executed
  {
    hide Acyclic, DirectOnly, BookInv, CounterRule, SweepHistory, Level;
    forall n | n in g.nodes ensures n in r.frontier <==> Level(g, n) == k { SweepReady(g, r.book, k, n); }
    if k <= top {
      var n :| n in g.nodes && Level(g, n) == top;
      var m := LevelsBelowOccur(g, n, k);
      assert m in r.frontier;
    }
    if r.frontier != [] { assert r.frontier[0] in r.frontier; }
  }

  /** The main result. With a cap of at least 1 + the height, the run completes after exactly
      that many rounds, and each node has run exactly once, in round 1 + its longest path from
      the entry, hence after all its predecessors. With a smaller cap the cap stops it. */
  lemma SweepTheorem(g: Graph, env: Env, top: nat)
    requires Sweepable(g) && Calm(env) && IsHeight(g, top) && env.maxRounds >= 1
    ensures var r := RunFrom(g, env, FreshRun(g));
      && r.status == (if env.maxRounds >= top + 1 then Completed else MaxIterations)
      && r.iterations == (if env.maxRounds >= top + 1 then top + 1 else env.maxRounds)
      && SweepHistory(g, r.history, r.iterations)
      && (r.status == Completed ==> multiset(PathOf(r.history)) == multiset(g.nodes))
  {
    hide Advance, Level, RunInv, SweepBook, Calm, DirectOnly, Acyclic;
    var k := if env.maxRounds >= top + 1 then top + 1 else env.maxRounds;
    SweepReaches(g, env, top, k);
    var r := AfterBarriers(g, env, FreshRun(g), k).value;
    SweepFrontier(g, r, top, k);
    EveryBarrierStatus(g, env, k);
    RunFromBarrier(g, env, FreshRun(g), k);
    CalmStop(g, env, r);
    if k == top + 1 { EveryNodeOnce(g, r.history, k, top); }
  }

  lemma CalmStop(g: Graph, env: Env, r: Run)
    requires Calm(env) && (r.frontier == [] || r.iterations >= env.maxRounds)
    ensures var t := Advance(g, env, r);
      && t == Stopped(if r.frontier == [] then r else r.(status := MaxIterations, error := Some(RoundCapReached)))
      && RunFrom(g, env, r) == t.run
  {
    hide RoundAbsorption, NextBook, ReadyNodes, AtBarrier;
  }

  lemma {:induction false} RunFromBarrier(g: Graph, env: Env, start: Run, k: nat)
    requires AfterBarriers(g, env, start, k).Some?
    ensures RunFrom(g, env, start) == RunFrom(g, env, AfterBarriers(g, env, start, k).value)
  {
    hide Advance;
    if k > 0 { RunFromBarrier(g, env, start, k - 1); }
  }

  lemma EveryNodeOnce(g: Graph, history: seq<Execution>, k: nat, top: nat)
    requires Sweepable(g) && SweepHistory(g, history, k) && IsHeight(g, top) && k == top + 1
    ensures multiset(PathOf(history)) == multiset(g.nodes)
  {
    hide Acyclic, Level;
    var p := PathOf(history);
    forall n ensures n in p <==> n in g.nodes {
      if n in p {
        var i :| 0 <= i < |history| && history[i].node == n;
        assert history[i] in history;
      }
    }
    DistinctMultiset(p);
    DistinctMultiset(g.nodes);
    forall n ensures multiset(p)[n] == multiset(g.nodes)[n] {}
  }
}
