/** runSuperstepGraph: the round loop over mutable readiness state. */
module Executor {
  import opened Values
  import opened Collections
  import opened Graphs
  import opened Claims
  import opened Reachability
  import opened EdgeResolution
  import opened Frontier
  import opened Runs

  datatype Rejection = BadMaxIterations | ReservedNodeId(id: Id)

  const RESERVED_STATE_KEYS: set<Id> := {Id("__error"), Id("__lastNode"), Id("__step")}

  /** What a resumed run starts from. Without per-source claims (`bySource` None) the flat
      totals go into one bucket under a name no node can have. */
  datatype ResumeInput = ResumeInput(
    state: State,
    frontier: seq<Id>,
    remainingInDegree: map<Id, nat>,
    bySource: Option<PendingClaims>,
    completedRounds: nat,
    completedNodeExecutions: nat,
    executed: set<Id>,
    history: seq<Execution>)

  const RESUME_SNAPSHOT_SOURCE := Id("(resumed)")

  function ResumedNode(resume: ResumeInput, n: Id): map<Id, nat> {
    if resume.bySource.Some? && n in resume.bySource.value then PendingOnly(resume.bySource.value[n])
    else if n in resume.remainingInDegree && resume.remainingInDegree[n] > 0 then
      map[RESUME_SNAPSHOT_SOURCE := resume.remainingInDegree[n]]
    else map[]
  }

  function ResumedClaims(g: Graph, resume: ResumeInput): PendingClaims {
    map n | n in g.nodes :: ResumedNode(resume, n)
  }

  function ResumedRun(g: Graph, resume: ResumeInput): Run {
    Run(resume.state, resume.history,
        Book(ResumedClaims(g, resume), resume.executed - FrontierSet(resume.frontier), FrontierSet(resume.frontier)),
        resume.frontier, resume.completedRounds, resume.completedNodeExecutions,
        if resume.history == [] then Undefined else resume.history[|resume.history| - 1].result,
        Completed, None, [], resume.bySource.Some?)
  }

  /** What runSuperstepGraph is called with, when it resumes: nodes of this graph only. */
  predicate ResumeFits(g: Graph, resume: ResumeInput) {
    && (forall n | n in resume.frontier :: n in g.nodes)
    && (forall n | n in resume.executed :: n in g.nodes)
  }

  ghost function StartRun(g: Graph, resume: Option<ResumeInput>): Run
    requires Built(g)
  {
    if resume.Some? then ResumedRun(g, resume.value) else FreshRun(g)
  }

  // ----- The concurrent part of a round -----

  /** Runs the round's nodes, which may finish in any order: each turn completes an arbitrary
      pending one. Whatever the order, the slots end up the same. */
  method RunConcurrently(env: Env, frontier: seq<Id>, state: State, base: nat) returns (outcomes: seq<Outcome>)
    ensures outcomes == Outcomes(env, frontier, state, base)
  {
    var slots := new Outcome[|frontier|](_ => RunnerThrew(""));
    var pending := Indices(|frontier|);
    while pending != {}
      invariant forall i | i in pending :: i < |frontier|
      invariant forall i | 0 <= i < |frontier| && i !in pending ::
        slots[i] == env.runNode(frontier[i], state, base + i + 1)
    {
      var finished :| finished in pending;
      slots[finished] := env.runNode(frontier[finished], state, base + finished + 1);
      pending := pending - {finished};
    }
    return slots[..];
  }

  // ----- The run -----

  class SuperstepRun {
    const g: Graph
    const env: Env
    const forward: map<Id, set<Id>>
    const fallback: map<Id, set<Id>>
    const statics: PendingClaims
    const strandedCheck: bool
    const book: PendingBook
    var state: State
    var history: seq<Execution>
    var frontier: seq<Id>
    var iterations: nat
    var nodeExecutions: nat
    var finalResult: Value
    var status: RunStatus
    var error: Option<RunError>
    var events: seq<Event>

    constructor (g: Graph, env: Env, forward: map<Id, set<Id>>, fallback: map<Id, set<Id>>, statics: PendingClaims,
                 resume: Option<ResumeInput>)
      requires Built(g) && IsForwardMap(g, forward) && IsFallbackMap(g, fallback) && statics == StaticClaims(g)
      requires resume.Some? ==> ResumeFits(g, resume.value)
      ensures Valid() && fresh(book) && this.g == g && this.env == env
      ensures Contents() == StartRun(g, resume)
    {
      hide IsForwardMap, IsFallbackMap, ClaimCount, PendingOnly;
      this.g, this.env, this.forward, this.fallback, this.statics := g, env, forward, fallback, statics;
      nodeExecutions, iterations, history, finalResult := 0, 0, [], Undefined;
      status, error, events := Completed, None, [];
      if resume.Some? {
        var r := ResumedRun(g, resume.value);
        strandedCheck := r.strandedCheck;
        state, history, frontier, finalResult := r.state, r.history, r.frontier, r.finalResult;
        iterations, nodeExecutions := r.iterations, r.nodeExecutions;
        book := new PendingBook(r.book.remaining, r.book.executed, r.book.selected);
      } else {
        strandedCheck := true;
        state, frontier := g.initialState, [g.entry];
        book := new PendingBook(statics[g.entry := map[]], {}, {g.entry});
      }
    }

    ghost predicate Valid()
      reads this, book
    {
      && Built(g) && IsForwardMap(g, forward) && IsFallbackMap(g, fallback) && statics == StaticClaims(g)
      && book.remaining.Keys == (set n | n in g.nodes)
      && book.executed <= book.remaining.Keys
      && (forall n | n in frontier :: n in g.nodes)
    }

    function Contents(): Run
      reads this, book
    {
      Run(state, history, book.Contents(), frontier, iterations, nodeExecutions, finalResult, status, error, events, strandedCheck)
    }

    /** One result: write it under the node's own key, then resolve the node's edges. */
    method WriteAndRoute(node: Id, step: nat, outcome: Outcome, ghost a: Absorption)
      returns (execution: Execution, fired: seq<FiredEdge>, failure: Option<RunError>)
      requires IsFallbackMap(g, fallback)
      requires a.state == state && a.finalResult == finalResult
      modifies this`state, this`finalResult
      ensures Absorb(g, iterations, node, step, outcome, a) ==
        Absorption(state, a.done + [execution], a.fired + Elements(fired), finalResult,
                   if failure.Some? then failure else a.failure)
    {
      hide Resolve, IsFallbackMap;
      fired, failure := [], None;
      match outcome {
        case RunnerThrew(message) =>
          execution := Execution(step, iterations, node, NodeBad, Undefined, Nowhere);
          failure := Some(NodeFailed(node, message));
        case Ran(result, technicalFailure, nodeError) =>
          state, finalResult := state[node := result], result;
          if technicalFailure {
            execution := Execution(step, iterations, node, NodeBad, result, Nowhere);
            failure := Some(NodeTechnicalFailure(node));
            return;
          }
          var resolution := ResolveEdges(g, fallback, node, EdgesOf(g, node), state, result);
          match resolution
          case Faulty(fault) =>
            execution := Execution(step, iterations, node, NodeOk, result, Nowhere);
            failure := Some(RoutingFailed(node, fault));
          case Routed(selected, resolved) =>
            fired := FireAll(node, selected, resolved);
            execution := Execution(step, iterations, node, if nodeError.Some? then NodeBad else NodeOk, result,
                                   if selected == [] then ToEnd else ToNodes(selected));
      }
    }

    /** Counts an execution and reports it; a failure aborts the run. */
    method KeepExecution(node: Id, execution: Execution, failure: Option<RunError>)
      requires Valid() && node in g.nodes
      modifies this, book
      ensures Valid()
      ensures var was := old(Contents());
        Contents() == was.(history := was.history + [execution], book := was.book.(executed := was.book.executed + {node}),
                           nodeExecutions := was.nodeExecutions + 1, events := was.events + [NodeDone(execution)],
                           status := if failure.Some? then Aborted else was.status,
                           error := if failure.Some? then failure else was.error)
    {
      hide StaticClaims, IsForwardMap, IsFallbackMap, Built;
      nodeExecutions := nodeExecutions + 1;
      book.executed := book.executed + {node};
      history, events := history + [execution], events + [NodeDone(execution)];
      if failure.Some? { status, error := Aborted, failure; }
    }

    /** One turn of the loop over the round's results. */
    method AbsorbOne(node: Id, step: nat, outcome: Outcome, ghost before: Run, ghost a: Absorption, ghost ran: seq<Id>)
      returns (fired: seq<FiredEdge>, failed: bool)
      requires Valid() && node in g.nodes
      requires Contents() == Tracking(before, a, ran)
      modifies this, book
      ensures Valid()
      ensures Contents() == Tracking(before, Absorb(g, before.iterations, node, step, outcome, a), ran + [node])
      ensures Absorb(g, before.iterations, node, step, outcome, a).fired == a.fired + Elements(fired)
      ensures Absorb(g, before.iterations, node, step, outcome, a).failure.Some? <==> failed || a.failure.Some?
    {
      hide Absorb, StaticClaims, IsForwardMap, IsFallbackMap, Built, Tracking, Elements, NextBook;
      TrackedFields(before, a, ran);
      var execution, failure;
      execution, fired, failure := WriteAndRoute(node, step, outcome, a);
      failed := failure.Some?;
      KeepExecution(node, execution, failure);
      TrackOne(before, a, Absorb(g, before.iterations, node, step, outcome, a), ran, node, execution);
    }

    /** The loop over the round's results, in frontier order. */
    method AbsorbResults(ran: seq<Id>, base: nat, outcomes: seq<Outcome>)
      returns (fired: seq<FiredEdge>, aborted: bool, ghost a: Absorption)
      requires Valid() && |ran| == |outcomes| && forall n | n in ran :: n in g.nodes
      modifies this, book
      ensures Valid()
      ensures a == AbsorbAll(g, old(iterations), base, ran, outcomes, Absorption(old(state), [], {}, old(finalResult), None))
      ensures Contents() == Tracking(old(Contents()), a, ran)
      ensures Elements(fired) == a.fired && (aborted <==> a.failure.Some?)
    {
      hide Absorb, StaticClaims, IsForwardMap, IsFallbackMap, Built, Tracking, Elements;
      ghost var before := Contents();
      ghost var start := Absorption(state, [], {}, finalResult, None);
      a, fired, aborted := start, [], false;
      TrackNothing(before);
      for i := 0 to |ran|
        invariant Valid() && Contents() == Tracking(before, a, ran[..i])
        invariant a == AbsorbAll(g, before.iterations, base, ran[..i], outcomes[..i], start)
        invariant Elements(fired) == a.fired && (aborted <==> a.failure.Some?)
      {
        assert ran[..i + 1][..i] == ran[..i] && outcomes[..i + 1][..i] == outcomes[..i];
        assert ran[..i + 1] == ran[..i] + [ran[i]];
        var more, failed := AbsorbOne(ran[i], base + i + 1, outcomes[i], before, a, ran[..i]);
        a := Absorb(g, before.iterations, ran[i], base + i + 1, outcomes[i], a);
        ElementsAppend(fired, more);
        fired, aborted := fired + more, aborted || failed;
      }
      assert ran[..|ran|] == ran && outcomes[..|ran|] == outcomes;
    }

    /** The body of the while loop, after its three tests. */
    method RunRound() returns (aborted: bool)
      requires Valid() && frontier != [] && !env.aborted(iterations) && iterations < env.maxRounds
      modifies this, book
      ensures Valid()
      ensures Advance(g, env, old(Contents())) == if aborted then Broke(Contents()) else Barrier(Contents())
    {
      hide AbsorbAll, Tracking, AtBarrier, StaticClaims, IsForwardMap, IsFallbackMap, Built, Outcomes, Elements;
      iterations := iterations + 1;
      var ran, base := frontier, nodeExecutions;
      var outcomes := RunConcurrently(env, ran, state, base);
      var fired, aborted', a := AbsorbResults(ran, base, outcomes);
      aborted := aborted';
      if !aborted { FinishRound(ran, fired); }
    }

    /** The barrier: settle edges, check for stranded nodes, report the round. */
    method FinishRound(ran: seq<Id>, fired: seq<FiredEdge>)
      requires Valid()
      modifies this, book
      ensures Valid()
      ensures Contents() == AtBarrier(g, old(Contents()), Elements(fired), ran)
    {
      hide NextBook, ReadyNodes, Totals, BySourceRecord, StaticClaims, IsForwardMap, IsFallbackMap, Built;
      frontier := book.ComputeNextFrontier(g, fired, statics, forward);
      if frontier == [] && strandedCheck {
        var stranded := book.selected - book.executed;
        if stranded != {} { status, error := Aborted, Some(StrandedNodes(stranded)); }
      }
      var totals := ToRecord(book.remaining);
      events := events + [RoundDone(RoundInfo(iterations, ran, frontier, totals, BySourceRecord(book.remaining)))];
    }

    method RunToEnd()
      requires Valid()
      modifies this, book
      ensures Contents() == RunFrom(g, env, old(Contents()))
    {
      ghost var start := Contents();
      while frontier != []
        invariant Valid() && RunFrom(g, env, Contents()) == RunFrom(g, env, start)
        decreases env.maxRounds - iterations
      {
        if env.aborted(iterations) {
          status, error := Aborted, Some(SignalAborted);
          return;
        }
        if iterations >= env.maxRounds {
          status, error := MaxIterations, Some(RoundCapReached);
          return;
        }
        AdvanceCounts(g, env, Contents());
        var aborted := RunRound();
        if aborted { return; }
      }
    }
  }

  method ToRecord(remaining: PendingClaims) returns (record: map<Id, nat>)
    ensures record == Totals(remaining)
  {
    record := map[];
    var todo := remaining.Keys;
    while todo != {}
      invariant todo <= remaining.Keys && record.Keys == remaining.Keys - todo
      invariant forall n | n in record :: record[n] == Total(remaining[n])
    {
      var n :| n in todo;
      var total := TotalClaims(remaining[n]);
      record := record[n := total];
      todo := todo - {n};
    }
  }

  method FireAll(node: Id, selected: seq<Id>, resolved: set<Id>) returns (fired: seq<FiredEdge>)
    ensures Elements(fired) == FiredBy(node, selected, resolved)
  {
    fired := [];
    var todo := resolved;
    while todo != {}
      invariant todo <= resolved
      invariant Elements(fired) == FiredBy(node, selected, resolved - todo)
    {
      var target :| target in todo;
      ElementsAppend(fired, [FiredEdge(node, target, target in selected)]);
      fired := fired + [FiredEdge(node, target, target in selected)];
      todo := todo - {target};
    }
    assert resolved - todo == resolved;
  }

  lemma ElementsAppend(a: seq<FiredEdge>, b: seq<FiredEdge>)
    ensures Elements(a + b) == Elements(a) + Elements(b)
  {}

  lemma TrackedFields(before: Run, a: Absorption, ran: seq<Id>)
    ensures var r := Tracking(before, a, ran);
      && r.iterations == before.iterations && r.state == a.state && r.finalResult == a.finalResult
      && (a.failure.Some? ==> r.status == Aborted && r.error == a.failure)
  {}

  /** What absorbing one more result changes in the tracked run. */
  lemma TrackOne(before: Run, a: Absorption, next: Absorption, ran: seq<Id>, node: Id, e: Execution)
    requires next.done == a.done + [e] && (next.failure == a.failure || next.failure.Some?)
    ensures var r := Tracking(before, a, ran);
      Tracking(before, next, ran + [node]) ==
        r.(state := next.state, history := r.history + [e], finalResult := next.finalResult,
           book := r.book.(executed := r.book.executed + {node}),
           nodeExecutions := r.nodeExecutions + 1, events := r.events + [NodeDone(e)],
           status := if next.failure.Some? then Aborted else r.status,
           error := if next.failure.Some? then next.failure else r.error)
  {
    assert FrontierSet(ran + [node]) == FrontierSet(ran) + {node};
    assert NodeEvents(next.done) == NodeEvents(a.done) + [NodeDone(e)];
  }

  lemma TrackNothing(r: Run)
    ensures Tracking(r, Absorption(r.state, [], {}, r.finalResult, None), []) == r
    ensures Elements([]) == {}
  {
    assert r.book.executed + FrontierSet([]) == r.book.executed;
  }

  /** runSuperstepGraph: checks its options, computes claims, then runs to the end. */
  method RunSuperstepGraph(g: Graph, env: Env, resume: Option<ResumeInput>) returns (rejection: Option<Rejection>, result: Run)
    requires Built(g) && (resume.Some? ==> ResumeFits(g, resume.value))
    ensures rejection.None? <==> env.maxRounds >= 1 && forall n | n in g.nodes :: n !in RESERVED_STATE_KEYS
    ensures rejection.None? ==> result == RunFrom(g, env, StartRun(g, resume))
  {
    result := Run(g.initialState, [], Book(map[], {}, {}), [], 0, 0, Undefined, Completed, None, [], true);
    if env.maxRounds < 1 { return Some(BadMaxIterations), result; }
    for i := 0 to |g.nodes|
      invariant forall n | n in g.nodes[..i] :: n !in RESERVED_STATE_KEYS
    {
      if g.nodes[i] in RESERVED_STATE_KEYS { return Some(ReservedNodeId(g.nodes[i])), result; }
    }
    var forward := ComputeForwardReachable(g);
    var fallback := PrimeFallbackReach(g, forward);
    var statics := ComputeStaticClaims(g, forward, fallback);
    var run := new SuperstepRun(g, env, forward, fallback, statics, resume);
    run.RunToEnd();
    return None, run.Contents();
  }
}
