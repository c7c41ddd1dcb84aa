/** What a round amounts to, said of its nodes' outcomes alone: the state, the records, the routes, the failure
    and the final result it leaves. */
module RoundMeaning {
  import opened Values
  import opened Graphs
  import opened Claims
  import opened EdgeResolution
  import opened Frontier
  import opened Runs
  import opened Executor
  import opened Stranding

  // ----- One node of a round -----

  /** The barrier's state with the results of the first `k` nodes of the frontier. */
  function Written(state: State, frontier: seq<Id>, outcomes: seq<Outcome>, k: nat): State
    requires k <= |frontier| == |outcomes|
  {
    if k == 0 then state
    else
      var before := Written(state, frontier, outcomes, k - 1);
      if outcomes[k - 1].Ran? then before[frontier[k - 1] := outcomes[k - 1].result] else before
  }

  /** The node ran and some edge of it cannot be followed. */
  ghost predicate Misroutes(g: Graph, n: Id, o: Outcome, state: State) {
    o.Ran? && !o.technicalFailure && AnyBroken(g, EdgesOf(g, n), state, o.result)
  }

  ghost predicate Fails(g: Graph, n: Id, o: Outcome, state: State) {
    o.RunnerThrew? || o.technicalFailure || Misroutes(g, n, o, state)
  }

  /** What the failure of a node is reported as. */
  ghost predicate IsFailure(g: Graph, n: Id, o: Outcome, state: State, error: RunError) {
    match o
    case RunnerThrew(message) => error == NodeFailed(n, message)
    case Ran(result, technicalFailure, _) =>
      if technicalFailure then error == NodeTechnicalFailure(n)
      else error.RoutingFailed? && error.node == n && FirstFault(g, EdgesOf(g, n), state, result, error.fault)
  }

  /** The record of a node: its result, whether it went well, and where it routed to. */
  ghost predicate IsRecord(g: Graph, n: Id, o: Outcome, state: State, e: Execution) {
    && e.node == n && e.result == (if o.Ran? then o.result else Undefined)
    && (e.status == NodeOk <==> o.Ran? && !o.technicalFailure && (o.error.None? || Misroutes(g, n, o, state)))
    && (e.routedTo.Nowhere? <==> Fails(g, n, o, state))
    && (e.routedTo.ToEnd? <==>
          !Fails(g, n, o, state) && forall t :: !AnyRoutes(EdgesOf(g, n), state, o.result, t))
    && (e.routedTo.ToNodes? ==> IsRouteList(EdgesOf(g, n), state, o.result, e.routedTo.targets))
  }

  /** The targets are the nodes routed to, in the order in which the edges first do. */
  ghost predicate IsRouteList(edges: seq<Edge>, state: State, result: Value, targets: seq<Id>) {
    && (forall t :: t in targets <==> AnyRoutes(edges, state, result, t))
    && forall p, q | 0 <= p < q < |targets| :: BothInOrder(edges, state, result, targets[p], targets[q])
  }

  /** The node, if it did not fail, fired at `t`: it routed there or its claim on it is over. */
  ghost predicate Fires(g: Graph, n: Id, o: Outcome, state: State, t: Id, selected: bool) {
    && !Fails(g, n, o, state)
    && (selected <==> AnyRoutes(EdgesOf(g, n), state, o.result, t))
    && (selected || AnySelectable(g, n, EdgesOf(g, n), t))
  }

  lemma AbsorbMeaning(g: Graph, round: nat, n: Id, step: nat, o: Outcome, a: Absorption) returns (e: Execution)
    ensures var next := Absorb(g, round, n, step, o, a);
      var state := if o.Ran? then a.state[n := o.result] else a.state;
      && next.state == state && next.finalResult == (if o.Ran? then o.result else a.finalResult)
      && next.done == a.done + [e] && e.round == round && e.step == step && IsRecord(g, n, o, state, e)
      && (if Fails(g, n, o, state) then next.failure.Some? && IsFailure(g, n, o, state, next.failure.value)
          else next.failure == a.failure)
      && forall f :: f in next.fired <==> f in a.fired || (f.from == n && Fires(g, n, o, state, f.to, f.selected))
  {
    var next := Absorb(g, round, n, step, o, a);
    var state := if o.Ran? then a.state[n := o.result] else a.state;
    e := next.done[|a.done|];
    if o.Ran? {
      ResolveMeaning(g, n, EdgesOf(g, n), state, o.result);
      FaultIsFirst(g, n, EdgesOf(g, n), state, o.result);
      SelectedInOrder(g, n, EdgesOf(g, n), state, o.result);
      NothingSelected(g, n, o, state);
      hide Resolve, FirstFault, BothInOrder, AnyRoutes, AnySelectable, AnyBroken;
    }
  }

  lemma NothingSelected(g: Graph, n: Id, o: Outcome, state: State)
    requires o.Ran?
    ensures var r := Resolve(g, n, EdgesOf(g, n), state, o.result);
      r.Routed? ==> (r.selected == [] <==> forall t :: !AnyRoutes(EdgesOf(g, n), state, o.result, t))
  {
    hide Resolve, AnyRoutes;
    ResolveMeaning(g, n, EdgesOf(g, n), state, o.result);
    var r := Resolve(g, n, EdgesOf(g, n), state, o.result);
    if r.Routed? && r.selected != [] { assert r.selected[0] in r.selected; }
  }

  // ----- A round -----

  /** Node i of the frontier failed, with the state its edges saw. */
  ghost predicate FailsAt(g: Graph, frontier: seq<Id>, outcomes: seq<Outcome>, state: State, i: nat)
    requires i < |frontier| == |outcomes|
  {
    Fails(g, frontier[i], outcomes[i], Written(state, frontier, outcomes, i + 1))
  }

  /** No later node failed. */
  ghost predicate LastToFail(g: Graph, frontier: seq<Id>, outcomes: seq<Outcome>, state: State, i: nat, k: nat)
    requires i < k <= |frontier| == |outcomes|
  {
    && FailsAt(g, frontier, outcomes, state, i)
    && forall j | i < j < k :: !FailsAt(g, frontier, outcomes, state, j)
  }

  /** The result of the last node that delivered one, or what there was before. */
  ghost predicate IsFinal(outcomes: seq<Outcome>, k: nat, before: Value, final: Value)
    requires k <= |outcomes|
  {
    if exists i :: 0 <= i < k && outcomes[i].Ran? then
      exists i :: 0 <= i < k && outcomes[i].Ran? && final == outcomes[i].result && forall j | i < j < k :: !outcomes[j].Ran?
    else final == before
  }

  ghost predicate FiresAt(g: Graph, frontier: seq<Id>, outcomes: seq<Outcome>, state: State, i: nat, f: FiredEdge)
    requires i < |frontier| == |outcomes|
  {
    f.from == frontier[i] &&
    Fires(g, frontier[i], outcomes[i], Written(state, frontier, outcomes, i + 1), f.to, f.selected)
  }

  ghost predicate RecordsAll(g: Graph, round: nat, base: nat, frontier: seq<Id>, outcomes: seq<Outcome>, state: State,
                             done: seq<Execution>, k: nat)
    requires k <= |frontier| == |outcomes|
  {
    && |done| == k
    && forall i | 0 <= i < k ::
         && done[i].round == round && done[i].step == base + i + 1
         && IsRecord(g, frontier[i], outcomes[i], Written(state, frontier, outcomes, i + 1), done[i])
  }

  ghost predicate FailureIs(g: Graph, frontier: seq<Id>, outcomes: seq<Outcome>, state: State, failure: Option<RunError>, k: nat)
    requires k <= |frontier| == |outcomes|
  {
    && (failure.Some? <==> exists i :: 0 <= i < k && FailsAt(g, frontier, outcomes, state, i))
    && forall i | 0 <= i < k && LastToFail(g, frontier, outcomes, state, i, k) ::
         failure.Some? && IsFailure(g, frontier[i], outcomes[i], Written(state, frontier, outcomes, i + 1), failure.value)
  }

  ghost predicate FiredIs(g: Graph, frontier: seq<Id>, outcomes: seq<Outcome>, state: State, fired: set<FiredEdge>, k: nat)
    requires k <= |frontier| == |outcomes|
  {
    forall f :: f in fired <==> exists i :: 0 <= i < k && FiresAt(g, frontier, outcomes, state, i, f)
  }

  /** What the results of the first `k` nodes amount to. */
  ghost predicate Amounts(g: Graph, round: nat, base: nat, frontier: seq<Id>, outcomes: seq<Outcome>, state: State,
                          before: Value, a: Absorption, k: nat)
    requires k <= |frontier| == |outcomes|
  {
    && a.state == Written(state, frontier, outcomes, k)
    && RecordsAll(g, round, base, frontier, outcomes, state, a.done, k)
    && IsFinal(outcomes, k, before, a.finalResult)
    && FailureIs(g, frontier, outcomes, state, a.failure, k)
    && FiredIs(g, frontier, outcomes, state, a.fired, k)
  }

  lemma FinalGrows(outcomes: seq<Outcome>, k: nat, before: Value, old': Value, new': Value)
    requires k < |outcomes| && IsFinal(outcomes, k, before, old')
    requires new' == if outcomes[k].Ran? then outcomes[k].result else old'
    ensures IsFinal(outcomes, k + 1, before, new')
  {
    if !outcomes[k].Ran? && exists i :: 0 <= i < k && outcomes[i].Ran? {
      var i :| 0 <= i < k && outcomes[i].Ran? && old' == outcomes[i].result && forall j | i < j < k :: !outcomes[j].Ran?;
      assert forall j | i < j < k + 1 :: !outcomes[j].Ran?;
    }
  }

  lemma FailureGrows(g: Graph, frontier: seq<Id>, outcomes: seq<Outcome>, state: State, old': Option<RunError>,
                     new': Option<RunError>, k: nat)
    requires k < |frontier| == |outcomes| && FailureIs(g, frontier, outcomes, state, old', k)
    requires var after := Written(state, frontier, outcomes, k + 1);
      if FailsAt(g, frontier, outcomes, state, k)
      then new'.Some? && IsFailure(g, frontier[k], outcomes[k], after, new'.value) else new' == old'
    ensures FailureIs(g, frontier, outcomes, state, new', k + 1)
  {
    hide FailsAt, IsFailure, Written;
    forall i | 0 <= i < k + 1 && LastToFail(g, frontier, outcomes, state, i, k + 1)
      ensures new'.Some? &&
        IsFailure(g, frontier[i], outcomes[i], Written(state, frontier, outcomes, i + 1), new'.value)
    {
      if i < k { assert LastToFail(g, frontier, outcomes, state, i, k); }
    }
  }

  lemma FiredGrows(g: Graph, frontier: seq<Id>, outcomes: seq<Outcome>, state: State, old': set<FiredEdge>,
                   new': set<FiredEdge>, k: nat)
    requires k < |frontier| == |outcomes| && FiredIs(g, frontier, outcomes, state, old', k)
    requires forall f :: f in new' <==> f in old' || FiresAt(g, frontier, outcomes, state, k, f)
    ensures FiredIs(g, frontier, outcomes, state, new', k + 1)
  {
    hide FiresAt;
  }

  lemma {:induction false} AmountsUpTo(g: Graph, round: nat, base: nat, frontier: seq<Id>, outcomes: seq<Outcome>,
                                       start: Absorption, k: nat)
    requires k <= |frontier| == |outcomes| && start.done == [] && start.fired == {} && start.failure == None
    ensures Amounts(g, round, base, frontier, outcomes, start.state, start.finalResult,
                    AbsorbAll(g, round, base, frontier[..k], outcomes[..k], start), k)
  {
    hide Absorb, IsRecord, IsFailure, Fires, Fails, IsFinal, FiredIs, FailureIs;
    var all := AbsorbAll(g, round, base, frontier[..k], outcomes[..k], start);
    if k == 0 {
      NothingAmounts(g, frontier, outcomes, start.state, start.finalResult);
    } else {
      var j := k - 1;
      assert frontier[..k][..j] == frontier[..j] && outcomes[..k][..j] == outcomes[..j];
      AmountsUpTo(g, round, base, frontier, outcomes, start, j);
      var before := AbsorbAll(g, round, base, frontier[..j], outcomes[..j], start);
      var e := AbsorbMeaning(g, round, frontier[j], base + k, outcomes[j], before);
      assert all == Absorb(g, round, frontier[j], base + k, outcomes[j], before);
      FinalGrows(outcomes, j, start.finalResult, before.finalResult, all.finalResult);
      FailureGrows(g, frontier, outcomes, start.state, before.failure, all.failure, j);
      FiredGrows(g, frontier, outcomes, start.state, before.fired, all.fired, j);
    }
  }

  lemma NothingAmounts(g: Graph, frontier: seq<Id>, outcomes: seq<Outcome>, state: State, before: Value)
    requires |frontier| == |outcomes|
    ensures IsFinal(outcomes, 0, before, before) && FiredIs(g, frontier, outcomes, state, {}, 0)
    ensures FailureIs(g, frontier, outcomes, state, None, 0)
  {
  }

  // ----- A turn -----

  ghost predicate StartsRound(env: Env, r: Run) {
    r.frontier != [] && !env.aborted(r.iterations) && r.iterations < env.maxRounds
  }

  /** A turn that runs its round reaches the barrier exactly if no node fails; otherwise the run is aborted with the
      failure of the last node that failed. Either way all results are written, recorded and reported. */
  lemma TurnMeaning(g: Graph, env: Env, r: Run) returns (done: seq<Execution>)
    requires StartsRound(env, r)
    ensures var t, n := Advance(g, env, r), |r.frontier|;
      var outcomes := Outcomes(env, r.frontier, r.state, r.nodeExecutions);
      && !t.Stopped? && (t.Barrier? <==> forall i | 0 <= i < n :: !FailsAt(g, r.frontier, outcomes, r.state, i))
      && t.run.state == Written(r.state, r.frontier, outcomes, n) && t.run.history == r.history + done
      && RecordsAll(g, r.iterations + 1, r.nodeExecutions, r.frontier, outcomes, r.state, done, n)
      && IsFinal(outcomes, n, r.finalResult, t.run.finalResult)
      && t.run.iterations == r.iterations + 1 && t.run.nodeExecutions == r.nodeExecutions + n
      && r.events + NodeEvents(done) <= t.run.events && |t.run.events| <= |r.events| + n + 1
      && (t.Broke? ==> t.run.status == Aborted && FailureIs(g, r.frontier, outcomes, r.state, t.run.error, n))
  {
    hide NextBook, ReadyNodes, Totals, BySourceRecord, AbsorbAll, Outcomes, FrontierSet, FailsAt, IsFinal, LastToFail, FiredIs;
    var outcomes := Outcomes(env, r.frontier, r.state, r.nodeExecutions);
    var n := |r.frontier|;
    AmountsUpTo(g, r.iterations + 1, r.nodeExecutions, r.frontier, outcomes,
                Absorption(r.state, [], {}, r.finalResult, None), n);
    assert r.frontier[..n] == r.frontier && outcomes[..n] == outcomes;
    done := RoundAbsorption(g, env, r).done;
  }

  // ----- The final result of a run -----

  /** The result of the last execution, if there was one. */
  predicate HoldsLastResult(r: Run) {
    r.finalResult == if r.history == [] then Undefined else r.history[|r.history| - 1].result
  }

  lemma StartHoldsLastResult(g: Graph, resume: Option<ResumeInput>)
    requires Built(g)
    ensures HoldsLastResult(StartRun(g, resume))
  {
    hide StaticClaims, ResumedClaims;
  }

  lemma TurnHoldsLastResult(g: Graph, env: Env, r: Run)
    requires Advance(g, env, r).Barrier?
    ensures HoldsLastResult(Advance(g, env, r).run)
  {
    hide Written, RecordsAll, IsRecord, NodeEvents;
    NotStopped(g, env, r);
    hide Advance;
    var done := TurnMeaning(g, env, r);
    var outcomes, n := Outcomes(env, r.frontier, r.state, r.nodeExecutions), |r.frontier|;
    forall i | 0 <= i < n ensures outcomes[i].Ran? { assert !FailsAt(g, r.frontier, outcomes, r.state, i); }
    LastRecord(g, env, r, outcomes, done);
  }

  lemma NotStopped(g: Graph, env: Env, r: Run)
    requires !Advance(g, env, r).Stopped?
    ensures StartsRound(env, r)
  {
    hide RoundAbsorption, AtBarrier, AfterResults;
  }

  lemma LastRecord(g: Graph, env: Env, r: Run, outcomes: seq<Outcome>, done: seq<Execution>)
    requires r.frontier != [] && |outcomes| == |r.frontier| && outcomes[|outcomes| - 1].Ran?
    requires RecordsAll(g, r.iterations + 1, r.nodeExecutions, r.frontier, outcomes, r.state, done, |r.frontier|)
    ensures done != [] && done[|done| - 1].result == outcomes[|outcomes| - 1].result
  {
    hide Written, Fails, IsRouteList, Misroutes;
  }

  /** At every barrier of a fresh or resumed run the final result is that of the last execution. */
  lemma {:induction false} FinalResultIsLast(g: Graph, env: Env, start: Run, k: nat)
    requires HoldsLastResult(start) && AfterBarriers(g, env, start, k).Some?
    ensures HoldsLastResult(AfterBarriers(g, env, start, k).value)
  {
    hide Advance, HoldsLastResult;
    if k > 0 { TurnHoldsLastResult(g, env, AfterBarriers(g, env, start, k - 1).value); }
  }

  // ----- How a fresh run ends -----

  /** The status and error that a run ends with, given the last loop head and the last round's failure. */
  ghost predicate EndsAs(g: Graph, env: Env, last: Run, end: Run) {
    if last.frontier == [] then
      if last.book.selected <= last.book.executed then end.status == Completed && end.error == None
      else end.status == Aborted && end.error == Some(StrandedNodes(last.book.selected - last.book.executed))
    else if env.aborted(last.iterations) then end.status == Aborted && end.error == Some(SignalAborted)
    else if last.iterations >= env.maxRounds then end.status == MaxIterations && end.error == Some(RoundCapReached)
    else
      var outcomes := Outcomes(env, last.frontier, last.state, last.nodeExecutions);
      && end.status == Aborted && end.error.Some?
      && FailureIs(g, last.frontier, outcomes, last.state, end.error, |last.frontier|)
      && IsFinal(outcomes, |last.frontier|, last.finalResult, end.finalResult)
  }

  /** Every fresh run ends at some last loop head, with the status, the error and the final result that follow. */
  lemma HowRunsEnd(g: Graph, env: Env) returns (k: nat, last: Run)
    requires Built(g)
    ensures AfterBarriers(g, env, FreshRun(g), k) == Some(last) && EndsAs(g, env, last, RunFrom(g, env, FreshRun(g)))
    ensures var end := RunFrom(g, env, FreshRun(g));
      !StartsRound(env, last) ==> end.state == last.state && end.history == last.history && HoldsLastResult(end)
  {
    hide AfterBarriers, RunFrom;
    k, last := RunEnds(g, env, FreshRun(g));
    StartHoldsLastResult(g, None);
    FinalResultIsLast(g, env, FreshRun(g), k);
    EveryBarrierStatus(g, env, k);
    StrandedIsNamed(g, env, k);
    if StartsRound(env, last) {
      var done := TurnMeaning(g, env, last);
    }
    EndOf(g, env, last);
  }

  lemma StrandedIsNamed(g: Graph, env: Env, k: nat)
    requires Built(g) && AfterBarriers(g, env, FreshRun(g), k).Some?
    ensures var r := AfterBarriers(g, env, FreshRun(g), k).value;
      r.frontier == [] && !(r.book.selected <= r.book.executed) ==>
        r.error == Some(StrandedNodes(r.book.selected - r.book.executed))
  {
    hide RoundAbsorption, NextBook, ReadyNodes, Totals, BySourceRecord, NodeEvents, FrontierSet, StaticClaims;
    if k > 0 {
      EveryBarrierStatus(g, env, k - 1);
      var r := AfterBarriers(g, env, FreshRun(g), k).value;
      NoneLeftOver(r.book.selected, r.book.executed);
    }
  }

  lemma EndOf(g: Graph, env: Env, last: Run)
    requires !Advance(g, env, last).Barrier? && HeadStatus(last)
    ensures var end := Advance(g, env, last).run;
      !StartsRound(env, last) ==>
        && end.state == last.state && end.history == last.history && end.finalResult == last.finalResult
        && (last.frontier == [] ==> end == last)
        && (last.frontier != [] ==>
              if env.aborted(last.iterations) then end.status == Aborted && end.error == Some(SignalAborted)
              else end.status == MaxIterations && end.error == Some(RoundCapReached))
  {
    hide RoundAbsorption, AtBarrier, AfterResults;
  }
}
