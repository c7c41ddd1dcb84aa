/** A round is confluent: it does not matter in which order its nodes finish, nor in which
    order the fired edges are settled. */
module Confluence {
  import opened Values
  import opened Collections
  import opened Graphs
  import opened Frontier
  import opened Runs
  import opened Executor
  import opened WaveReset

  /** The concurrent part of a round: the shared state, and the slots filled so far. */
  datatype Racing = Racing(state: State, slots: map<nat, Outcome>)

  /** Node i of the frontier finishes now; it sees the shared state as it is now. */
  function Finish(env: Env, frontier: seq<Id>, base: nat, race: Racing, i: nat): Racing
    requires i < |frontier|
  {
    race.(slots := race.slots[i := env.runNode(frontier[i], race.state, base + i + 1)])
  }

  function FinishAll(env: Env, frontier: seq<Id>, base: nat, race: Racing, order: seq<nat>): Racing
    requires forall k | 0 <= k < |order| :: order[k] < |frontier|
  {
    if order == [] then race
    else Finish(env, frontier, base, FinishAll(env, frontier, base, race, order[..|order| - 1]), order[|order| - 1])
  }

  lemma {:induction false} FinishedSlots(env: Env, frontier: seq<Id>, base: nat, state: State, order: seq<nat>)
    requires forall k | 0 <= k < |order| :: order[k] < |frontier|
    ensures var end := FinishAll(env, frontier, base, Racing(state, map[]), order);
      && end.state == state
      && (forall i :: i in end.slots <==> i in order)
      && (forall i | i in order :: end.slots[i] == env.runNode(frontier[i], state, base + i + 1))
  {
    if order != [] {
      var k := |order| - 1;
      assert order == order[..k] + [order[k]];
      FinishedSlots(env, frontier, base, state, order[..k]);
    }
  }

  /** Any two complete finishing orders leave the same slots: the outcomes the barrier processes. */
  lemma FinishingOrderIrrelevant(env: Env, frontier: seq<Id>, base: nat, state: State, order: seq<nat>)
    requires forall k | 0 <= k < |order| :: order[k] < |frontier|
    requires forall i: nat | i < |frontier| :: i in order
    ensures var end := FinishAll(env, frontier, base, Racing(state, map[]), order);
      end == Racing(state, map i: nat | i < |frontier| :: Outcomes(env, frontier, state, base)[i])
  {
    FinishedSlots(env, frontier, base, state, order);
  }

  /** Settling the fired edges in another order, or some of them twice, changes nothing. */
  lemma FiredOrderIrrelevant(g: Graph, b: Book, f1: seq<FiredEdge>, f2: seq<FiredEdge>)
    requires forall f :: f in f1 <==> f in f2
    ensures NextBook(g, b, Elements(f1)) == NextBook(g, b, Elements(f2))
    ensures ReadyNodes(NextBook(g, b, Elements(f1)), g.nodes) == ReadyNodes(NextBook(g, b, Elements(f2)), g.nodes)
  {
    assert Elements(f1) == Elements(f2);
  }

  /** Every frontier node ran on the state of the previous barrier, and its result lands
      under its own key; no other key changes; one record per node, with consecutive steps. */
  ghost predicate Isolated(env: Env, before: Run, after: Run) {
    && (forall n | n !in before.frontier ::
          (n in after.state <==> n in before.state) && (n in before.state ==> after.state[n] == before.state[n]))
    && (forall i | 0 <= i < |before.frontier| :: LandsResult(env, before, after, i))
    && before.history <= after.history
    && RecordsRound(after.history[|before.history|..], before.iterations + 1, before.nodeExecutions, before.frontier)
  }

  predicate LandsResult(env: Env, before: Run, after: Run, i: nat)
    requires i < |before.frontier|
  {
    var o := env.runNode(before.frontier[i], before.state, before.nodeExecutions + i + 1);
    o.Ran? && !o.technicalFailure && before.frontier[i] in after.state && after.state[before.frontier[i]] == o.result
  }

  lemma FrontierIsDistinct(g: Graph, r: Run)
    requires Built(g) && RunInv(g, r)
    ensures Distinct(r.frontier)
  {
    hide BookInv, Distinct;
  }

  lemma RoundIsolation(g: Graph, env: Env, r: Run)
    requires Built(g) && RunInv(g, r) && Advance(g, env, r).Barrier?
    ensures Isolated(env, r, Advance(g, env, r).run)
  {
    hide Advance, AbsorbAll, BookInv, Totals, BySourceRecord, NextBook, NodeEvents, RecordsRound, RunInv, Distinct;
    FrontierIsDistinct(g, r);
    TurnEffect(g, env, r);
    var outcomes := Outcomes(env, r.frontier, r.state, r.nodeExecutions);
    var start := Absorption(r.state, [], {}, r.finalResult, None);
    AbsorbAllState(g, r.iterations + 1, r.nodeExecutions, r.frontier, outcomes, start);
    AbsorbAllRecords(g, r.iterations + 1, r.nodeExecutions, r.frontier, outcomes, start);
    NoFailureAllRan(g, r.iterations + 1, r.nodeExecutions, r.frontier, outcomes, start);
    var done := RoundAbsorption(g, env, r).done;
    assert (r.history + done)[|r.history|..] == done;
  }

  lemma {:induction false} NoFailureAllRan(g: Graph, round: nat, base: nat, frontier: seq<Id>, outcomes: seq<Outcome>, start: Absorption)
    requires |frontier| == |outcomes|
    ensures AbsorbAll(g, round, base, frontier, outcomes, start).failure.None? ==>
      start.failure.None? && forall i | 0 <= i < |outcomes| :: outcomes[i].Ran? && !outcomes[i].technicalFailure
  {
    hide Absorb;
    if frontier != [] {
      var k := |frontier| - 1;
      NoFailureAllRan(g, round, base, frontier[..k], outcomes[..k], start);
      var before := AbsorbAll(g, round, base, frontier[..k], outcomes[..k], start);
      FailureShows(g, round, frontier[k], base + k + 1, outcomes[k], before);
      assert forall i | 0 <= i < k :: outcomes[..k][i] == outcomes[i];
    }
  }

  lemma FailureShows(g: Graph, round: nat, node: Id, step: nat, o: Outcome, a: Absorption)
    ensures Absorb(g, round, node, step, o, a).failure.None? ==> a.failure.None? && o.Ran? && !o.technicalFailure
  {}
}
