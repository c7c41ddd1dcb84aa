/** What a superstep run computes, as functions on values: one round, one loop turn, a whole run. */
module Runs {
  import opened Values
  import opened Collections
  import opened Graphs
  import opened Claims
  import opened EdgeResolution
  import opened Frontier

  /** What running one node yields: the runner throws, or returns a result. */
  datatype Outcome =
    | RunnerThrew(message: string)
    | Ran(result: Value, technicalFailure: bool, error: Option<string>)

  /** The outside world: outcomes depend on node, state and step; the abort signal is
      read at the loop head; `maxRounds` caps rounds. */
  datatype Env = Env(runNode: (Id, State, nat) -> Outcome, aborted: nat -> bool, maxRounds: int)

  datatype RunStatus = Completed | Aborted | MaxIterations

  datatype RunError =
    | SignalAborted
    | RoundCapReached
    | NodeFailed(node: Id, message: string)
    | NodeTechnicalFailure(node: Id)
    | RoutingFailed(node: Id, fault: Fault)
    | StrandedNodes(nodes: set<Id>)

  datatype NodeStatus = NodeOk | NodeBad

  datatype RoutedTo = Nowhere | ToEnd | ToNodes(targets: seq<Id>)

  datatype Execution = Execution(step: nat, round: nat, node: Id, status: NodeStatus, result: Value, routedTo: RoutedTo)

  /** What onRoundComplete reports at a barrier. */
  datatype RoundInfo = RoundInfo(
    round: nat,
    nodeIds: seq<Id>,
    nextFrontier: seq<Id>,
    remainingInDegree: map<Id, nat>,
    bySource: PendingClaims)

  datatype Event = NodeDone(execution: Execution) | RoundDone(info: RoundInfo)

  /** The executor's local variables at the loop head. `events` lists the callbacks made so far;
      `strandedCheck` is false only for a resume without per-source claims. */
  datatype Run = Run(
    state: State,
    history: seq<Execution>,
    book: Book,
    frontier: seq<Id>,
    iterations: nat,
    nodeExecutions: nat,
    finalResult: Value,
    status: RunStatus,
    error: Option<RunError>,
    events: seq<Event>,
    strandedCheck: bool)

  // ----- One round -----

  /** All nodes of the round read the state of the previous barrier. */
  function Outcomes(env: Env, frontier: seq<Id>, state: State, base: nat): (r: seq<Outcome>)
    ensures |r| == |frontier|
  {
    seq(|frontier|, i requires 0 <= i < |frontier| => env.runNode(frontier[i], state, base + i + 1))
  }

  /** What the loop over the round's results accumulates. */
  datatype Absorption = Absorption(
    state: State,
    done: seq<Execution>,
    fired: set<FiredEdge>,
    finalResult: Value,
    failure: Option<RunError>)

  function FiredBy(node: Id, selected: seq<Id>, resolved: set<Id>): set<FiredEdge> {
    set t | t in resolved :: FiredEdge(node, t, t in selected)
  }

  /** One result: write it to the state, then route. */
  ghost function Absorb(g: Graph, round: nat, node: Id, step: nat, outcome: Outcome, a: Absorption): Absorption {
    match outcome
    case RunnerThrew(message) =>
      a.(done := a.done + [Execution(step, round, node, NodeBad, Undefined, Nowhere)],
         failure := Some(NodeFailed(node, message)))
    case Ran(result, technicalFailure, error) =>
      var state := a.state[node := result];
      if technicalFailure then
        a.(state := state, finalResult := result,
           done := a.done + [Execution(step, round, node, NodeBad, result, Nowhere)],
           failure := Some(NodeTechnicalFailure(node)))
      else
        match Resolve(g, node, EdgesOf(g, node), state, result)
        case Faulty(fault) =>
          a.(state := state, finalResult := result,
             done := a.done + [Execution(step, round, node, NodeOk, result, Nowhere)],
             failure := Some(RoutingFailed(node, fault)))
        case Routed(selected, resolved) =>
          a.(state := state, finalResult := result,
             done := a.done + [Execution(step, round, node, if error.Some? then NodeBad else NodeOk, result,
                                         if selected == [] then ToEnd else ToNodes(selected))],
             fired := a.fired + FiredBy(node, selected, resolved))
  }

  ghost function AbsorbAll(g: Graph, round: nat, base: nat, frontier: seq<Id>, outcomes: seq<Outcome>, start: Absorption): Absorption
    requires |frontier| == |outcomes|
  {
    if frontier == [] then start
    else
      var k := |frontier| - 1;
      Absorb(g, round, frontier[k], base + k + 1, outcomes[k],
             AbsorbAll(g, round, base, frontier[..k], outcomes[..k], start))
  }

  ghost function Totals(remaining: PendingClaims): map<Id, nat> {
    map n | n in remaining :: Total(remaining[n])
  }

  function PendingOnly(bySource: map<Id, nat>): map<Id, nat> {
    map s | s in bySource && bySource[s] > 0 :: bySource[s]
  }

  /** The per-source snapshot drops zero counts and nodes without pending claims. */
  function BySourceRecord(remaining: PendingClaims): PendingClaims {
    map n | n in remaining && PendingOnly(remaining[n]) != map[] :: PendingOnly(remaining[n])
  }

  function NodeEvents(done: seq<Execution>): seq<Event> {
    seq(|done|, i requires 0 <= i < |done| => NodeDone(done[i]))
  }

  ghost function RoundAbsorption(g: Graph, env: Env, r: Run): Absorption {
    AbsorbAll(g, r.iterations + 1, r.nodeExecutions, r.frontier,
              Outcomes(env, r.frontier, r.state, r.nodeExecutions),
              Absorption(r.state, [], {}, r.finalResult, None))
  }

  function FrontierSet(frontier: seq<Id>): set<Id> {
    set n | n in frontier
  }

  /** The run `r` after absorbing into `a` the results of the nodes `ran`. */
  function Tracking(r: Run, a: Absorption, ran: seq<Id>): Run {
    r.(state := a.state, history := r.history + a.done, finalResult := a.finalResult,
       book := r.book.(executed := r.book.executed + FrontierSet(ran)),
       nodeExecutions := r.nodeExecutions + |ran|,
       events := r.events + NodeEvents(a.done),
       status := if a.failure.Some? then Aborted else r.status,
       error := if a.failure.Some? then a.failure else r.error)
  }

  /** The run after the results are in, before edges are settled. */
  function AfterResults(r: Run, a: Absorption): Run {
    Tracking(r.(iterations := r.iterations + 1), a, r.frontier)
  }

  /** The run at the barrier: next frontier, stranded check and round record. */
  ghost function AtBarrier(g: Graph, r: Run, fired: set<FiredEdge>, ran: seq<Id>): Run {
    var book := NextBook(g, r.book, fired);
    var next := ReadyNodes(book, g.nodes);
    var stranded := book.selected - book.executed;
    var bad := next == [] && r.strandedCheck && stranded != {};
    r.(book := book, frontier := next,
       status := if bad then Aborted else r.status,
       error := if bad then Some(StrandedNodes(stranded)) else r.error,
       events := r.events + [RoundDone(RoundInfo(r.iterations, ran, next, Totals(book.remaining), BySourceRecord(book.remaining)))])
  }

  // ----- The loop -----

  /** One turn of the while loop: it stops at the head, breaks after a failing round, or reaches a barrier. */
  datatype Turn = Stopped(run: Run) | Broke(run: Run) | Barrier(run: Run)

  ghost function Advance(g: Graph, env: Env, r: Run): Turn {
    if r.frontier == [] then Stopped(r)
    else if env.aborted(r.iterations) then Stopped(r.(status := Aborted, error := Some(SignalAborted)))
    else if r.iterations >= env.maxRounds then Stopped(r.(status := MaxIterations, error := Some(RoundCapReached)))
    else
      var a := RoundAbsorption(g, env, r);
      var after := AfterResults(r, a);
      if a.failure.Some? then Broke(after) else Barrier(AtBarrier(g, after, a.fired, r.frontier))
  }

  ghost function RunFrom(g: Graph, env: Env, r: Run): Run
    decreases env.maxRounds - r.iterations
  {
    match Advance(g, env, r)
    case Barrier(next) => RunFrom(g, env, next)
    case t => t.run
  }

  /** A fresh run: every static claim is pending, the entry waits for nothing. */
  ghost function FreshRun(g: Graph): Run
    requires g.entry in g.nodes
  {
    Run(g.initialState, [], Book(StaticClaims(g)[g.entry := map[]], {}, {g.entry}), [g.entry],
        0, 0, Undefined, Completed, None, [], true)
  }

  /** The run after k barriers, if it gets that far. */
  ghost function AfterBarriers(g: Graph, env: Env, start: Run, k: nat): Option<Run> {
    if k == 0 then Some(start)
    else match AfterBarriers(g, env, start, k - 1)
      case None => None
      case Some(r) =>
        match Advance(g, env, r)
        case Barrier(next) => Some(next)
        case _ => None
  }

  /** A barrier counts one round and stays under the cap. */
  lemma AdvanceCounts(g: Graph, env: Env, r: Run)
    ensures var t := Advance(g, env, r);
      t.Barrier? ==> t.run.iterations == r.iterations + 1 <= env.maxRounds && r.frontier != []
  {
    hide NextBook, ReadyNodes, RoundAbsorption;
  }

  /** What a loop turn that reaches a barrier leaves behind. */
  lemma TurnEffect(g: Graph, env: Env, r: Run)
    requires Advance(g, env, r).Barrier?
    ensures var next, a := Advance(g, env, r).run, RoundAbsorption(g, env, r);
      && a.failure.None?
      && next.book == NextBook(g, r.book.(executed := r.book.executed + FrontierSet(r.frontier)), a.fired)
      && next.frontier == ReadyNodes(next.book, g.nodes)
      && next.state == a.state && next.history == r.history + a.done && next.finalResult == a.finalResult
      && next.iterations == r.iterations + 1 && next.nodeExecutions == r.nodeExecutions + |r.frontier|
      && next.strandedCheck == r.strandedCheck
      && next.events == r.events + NodeEvents(a.done) +
           [RoundDone(RoundInfo(next.iterations, r.frontier, next.frontier, Totals(next.book.remaining), BySourceRecord(next.book.remaining)))]
  {
    hide RoundAbsorption, NextBook, ReadyNodes, Totals, BySourceRecord, NodeEvents, FrontierSet;
  }

  /** Every run ends with the loop turn that follows its last barrier. */
  lemma {:induction false} RunEnds(g: Graph, env: Env, r: Run) returns (k: nat, last: Run)
    ensures AfterBarriers(g, env, r, k) == Some(last)
    ensures !Advance(g, env, last).Barrier? && RunFrom(g, env, r) == Advance(g, env, last).run
    decreases env.maxRounds - r.iterations
  {
    AdvanceCounts(g, env, r);
    hide Advance;
    match Advance(g, env, r)
    case Barrier(next) =>
      var j;
      j, last := RunEnds(g, env, next);
      BarriersCompose(g, env, r, next, j);
      k := j + 1;
    case _ =>
      k, last := 0, r;
  }

  lemma {:induction false} BarriersCompose(g: Graph, env: Env, r: Run, next: Run, j: nat)
    requires Advance(g, env, r) == Barrier(next)
    ensures AfterBarriers(g, env, r, j + 1) == AfterBarriers(g, env, next, j)
  {
    hide Advance;
    if j > 0 { BarriersCompose(g, env, r, next, j - 1); }
    else { assert AfterBarriers(g, env, r, 0) == Some(r); }
  }

  // ----- What one round's results amount to -----

  predicate Records(e: Execution, node: Id, round: nat, step: nat) {
    e.node == node && e.round == round && e.step == step
  }

  /** One record per node, in frontier order, with consecutive steps. */
  predicate RecordsRound(done: seq<Execution>, round: nat, base: nat, frontier: seq<Id>) {
    && |done| == |frontier|
    && forall i | 0 <= i < |frontier| :: Records(done[i], frontier[i], round, base + i + 1)
  }

  lemma AbsorbAppends(g: Graph, round: nat, node: Id, step: nat, outcome: Outcome, a: Absorption) returns (e: Execution)
    ensures Absorb(g, round, node, step, outcome, a).done == a.done + [e] && Records(e, node, round, step)
  {
    hide Resolve;
    e := Absorb(g, round, node, step, outcome, a).done[|a.done|];
  }

  lemma {:induction false} AbsorbAllRecords(g: Graph, round: nat, base: nat, frontier: seq<Id>, outcomes: seq<Outcome>, start: Absorption)
    requires |frontier| == |outcomes| && start.done == []
    ensures RecordsRound(AbsorbAll(g, round, base, frontier, outcomes, start).done, round, base, frontier)
  {
    hide Absorb;
    if frontier != [] {
      var k := |frontier| - 1;
      AbsorbAllRecords(g, round, base, frontier[..k], outcomes[..k], start);
      var before := AbsorbAll(g, round, base, frontier[..k], outcomes[..k], start);
      var e := AbsorbAppends(g, round, frontier[k], base + k + 1, outcomes[k], before);
    }
  }

  lemma AbsorbState(g: Graph, round: nat, node: Id, step: nat, outcome: Outcome, a: Absorption)
    ensures Absorb(g, round, node, step, outcome, a).state ==
      if outcome.Ran? then a.state[node := outcome.result] else a.state
  {
    hide Resolve;
  }

  /** Results land under their own keys and nowhere else. */
  lemma {:induction false} AbsorbAllState(g: Graph, round: nat, base: nat, frontier: seq<Id>, outcomes: seq<Outcome>, start: Absorption)
    requires |frontier| == |outcomes| && Distinct(frontier)
    ensures var a := AbsorbAll(g, round, base, frontier, outcomes, start);
      && (forall n | n !in frontier :: n in a.state <==> n in start.state)
      && (forall n | n !in frontier && n in start.state :: a.state[n] == start.state[n])
      && (forall i | 0 <= i < |frontier| && outcomes[i].Ran? ::
            frontier[i] in a.state && a.state[frontier[i]] == outcomes[i].result)
  {
    hide Absorb;
    if frontier != [] {
      var k := |frontier| - 1;
      AbsorbState(g, round, frontier[k], base + k + 1, outcomes[k],
                  AbsorbAll(g, round, base, frontier[..k], outcomes[..k], start));
      AbsorbAllState(g, round, base, frontier[..k], outcomes[..k], start);
      assert frontier == frontier[..k] + [frontier[k]];
    }
  }

  /** A node fires edges of its own and takes none back. */
  lemma AbsorbFires(g: Graph, round: nat, node: Id, step: nat, outcome: Outcome, a: Absorption)
    ensures var next := Absorb(g, round, node, step, outcome, a);
      a.fired <= next.fired && forall f | f in next.fired && f !in a.fired :: f.from == node
  {
    hide Resolve;
  }

  /** The source of every fired edge ran in this round. */
  lemma {:induction false} FiredFromFrontier(g: Graph, round: nat, base: nat, frontier: seq<Id>, outcomes: seq<Outcome>, start: Absorption)
    requires |frontier| == |outcomes|
    ensures var a := AbsorbAll(g, round, base, frontier, outcomes, start);
      start.fired <= a.fired && forall f | f in a.fired && f !in start.fired :: f.from in frontier
  {
    hide Absorb;
    if frontier != [] {
      var k := |frontier| - 1;
      FiredFromFrontier(g, round, base, frontier[..k], outcomes[..k], start);
      AbsorbFires(g, round, frontier[k], base + k + 1, outcomes[k],
                  AbsorbAll(g, round, base, frontier[..k], outcomes[..k], start));
      assert frontier == frontier[..k] + [frontier[k]];
    }
  }

  /** Unless the round fails, each of its nodes fired at everything it claims. */
  lemma {:induction false} FiredCoversClaims(g: Graph, round: nat, base: nat, frontier: seq<Id>, outcomes: seq<Outcome>, start: Absorption)
    requires |frontier| == |outcomes|
    ensures var a := AbsorbAll(g, round, base, frontier, outcomes, start);
      a.failure.None? ==>
        start.failure.None? && forall s, n | s in frontier && IsClaim(g, s, n) :: FiredBetween(a.fired, s, n)
  {
    if frontier != [] {
      var k := |frontier| - 1;
      var before := AbsorbAll(g, round, base, frontier[..k], outcomes[..k], start);
      var a := AbsorbAll(g, round, base, frontier, outcomes, start);
      FiredCoversClaims(g, round, base, frontier[..k], outcomes[..k], start);
      assert frontier == frontier[..k] + [frontier[k]];
      if a.failure.None? {
        var node := frontier[k];
        var state := before.state[node := outcomes[k].result];
        var res := Resolve(g, node, EdgesOf(g, node), state, outcomes[k].result);
        forall n | IsClaim(g, node, n) ensures FiredBetween(a.fired, node, n) {
          ReleasesEveryClaim(g, node, state, outcomes[k].result, n);
          assert FiredEdge(node, n, n in res.selected) in a.fired;
        }
      }
    }
  }

  /** Everything routed to is a declared node. */
  lemma {:induction false} FiredSelectsNodes(g: Graph, round: nat, base: nat, frontier: seq<Id>, outcomes: seq<Outcome>, start: Absorption)
    requires |frontier| == |outcomes| && Built(g)
    requires forall f | f in start.fired && f.selected :: f.to in g.nodes
    ensures var a := AbsorbAll(g, round, base, frontier, outcomes, start);
      forall f | f in a.fired && f.selected :: f.to in g.nodes
  {
    if frontier != [] {
      var k := |frontier| - 1;
      var before := AbsorbAll(g, round, base, frontier[..k], outcomes[..k], start);
      FiredSelectsNodes(g, round, base, frontier[..k], outcomes[..k], start);
      if outcomes[k].Ran? {
        SelectedAreNodes(g, frontier[k], before.state[frontier[k] := outcomes[k].result], outcomes[k].result);
      }
    }
  }

  /** The facts about a round that its barrier step relies on. */
  lemma RoundFacts(g: Graph, env: Env, r: Run)
    requires Built(g)
    ensures var a := RoundAbsorption(g, env, r);
      && (forall f | f in a.fired :: f.from in r.frontier)
      && (forall f | f in a.fired && f.selected :: f.to in g.nodes)
      && (a.failure.None? ==> forall s, n | s in r.frontier && IsClaim(g, s, n) :: FiredBetween(a.fired, s, n))
      && RecordsRound(a.done, r.iterations + 1, r.nodeExecutions, r.frontier)
  {
    var outcomes := Outcomes(env, r.frontier, r.state, r.nodeExecutions);
    var start := Absorption(r.state, [], {}, r.finalResult, None);
    FiredFromFrontier(g, r.iterations + 1, r.nodeExecutions, r.frontier, outcomes, start);
    FiredSelectsNodes(g, r.iterations + 1, r.nodeExecutions, r.frontier, outcomes, start);
    FiredCoversClaims(g, r.iterations + 1, r.nodeExecutions, r.frontier, outcomes, start);
    AbsorbAllRecords(g, r.iterations + 1, r.nodeExecutions, r.frontier, outcomes, start);
  }
}
