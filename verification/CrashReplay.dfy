/** What the loader rebuilds is the live state of the last completed barrier, for every record after
    which a run may die. */
module CrashReplay {
  import opened Values
  import opened Graphs
  import opened Claims
  import opened EdgeResolution
  import opened Frontier
  import opened Runs
  import opened Journal

  /** What a run is at a barrier, as far as a later resume can see. */
  datatype Checkpoint = Checkpoint(
    round: nat,
    state: State,
    frontier: seq<Id>,
    remainingInDegree: map<Id, nat>,
    bySource: Option<PendingClaims>)

  ghost function CheckpointOf(r: Run): Checkpoint {
    Checkpoint(r.iterations, r.state, r.frontier, Totals(r.book.remaining), Some(BySourceRecord(r.book.remaining)))
  }

  function StartCheckpoint(header: Record): Checkpoint
    requires header.Header?
  {
    Checkpoint(0, header.initialState, [header.entry], map[], None)
  }

  // ----- Replaying executions -----

  lemma {:induction false} ReplayAppend(state: State, a: seq<Execution>, b: seq<Execution>)
    ensures Replay(state, a + b) == Replay(Replay(state, a), b)
  {
    if b == [] {
      assert a + b == a;
    } else {
      var k := |b| - 1;
      assert (a + b)[..|a + b| - 1] == a + b[..k];
      ReplayAppend(state, a, b[..k]);
    }
  }

  lemma ReplayAdd(state: State, e: Execution, executions: seq<Execution>)
    ensures Replay(state, executions + [e]) == Replay(state, executions)[e.node := e.result]
  {
    assert (executions + [e])[..|executions|] == executions;
  }

  /** Keys that are not written keep their value; written ones do not depend on the start. */
  lemma {:induction false} ReplayKeys(s1: State, s2: State, executions: seq<Execution>, n: Id)
    ensures n !in NodesOf(executions) ==> (n in Replay(s1, executions) <==> n in s1) && (n in s1 ==> Replay(s1, executions)[n] == s1[n])
    ensures n in NodesOf(executions) ==>
      n in Replay(s1, executions) && n in Replay(s2, executions) && Replay(s1, executions)[n] == Replay(s2, executions)[n]
  {
    if executions != [] {
      var k := |executions| - 1;
      assert executions == executions[..k] + [executions[k]];
      ReplayKeys(s1, s2, executions[..k], n);
    }
  }

  /** Stale records are overwritten when all their nodes run again. */
  lemma StaleIsOverwritten(state: State, stale: seq<Execution>, done: seq<Execution>)
    requires NodesOf(stale) <= NodesOf(done)
    ensures Replay(state, stale + done) == Replay(state, done)
  {
    ReplayAppend(state, stale, done);
    var before := Replay(state, stale);
    forall n ensures n in Replay(before, done) <==> n in Replay(state, done) {
      ReplayKeys(before, state, done, n);
      ReplayKeys(state, before, done, n);
      ReplayKeys(state, state, stale, n);
    }
    forall n | n in Replay(state, done) ensures Replay(before, done)[n] == Replay(state, done)[n] {
      ReplayKeys(before, state, done, n);
      ReplayKeys(state, before, done, n);
      ReplayKeys(state, state, stale, n);
    }
  }

  /** A round that succeeds leaves the state its own records replay to. */
  lemma {:induction false} RoundReplays(g: Graph, round: nat, base: nat, frontier: seq<Id>, outcomes: seq<Outcome>, start: Absorption)
    requires |frontier| == |outcomes| && start.done == []
    ensures var a := AbsorbAll(g, round, base, frontier, outcomes, start);
      a.failure.None? ==> a.state == Replay(start.state, a.done)
  {
    hide Absorb;
    if frontier != [] {
      var k := |frontier| - 1;
      var before := AbsorbAll(g, round, base, frontier[..k], outcomes[..k], start);
      RoundReplays(g, round, base, frontier[..k], outcomes[..k], start);
      var e := AbsorbOneReplays(g, round, frontier[k], base + k + 1, outcomes[k], before);
      ReplayAdd(start.state, e, before.done);
    }
  }

  lemma AbsorbOneReplays(g: Graph, round: nat, node: Id, step: nat, o: Outcome, a: Absorption) returns (e: Execution)
    ensures var next := Absorb(g, round, node, step, o, a);
      next.done == a.done + [e] && (next.failure.None? ==> a.failure.None? && next.state == a.state[e.node := e.result])
  {
    hide Resolve;
    e := Absorb(g, round, node, step, o, a).done[|a.done|];
  }

  // ----- Journals that match a checkpoint -----

  predicate RoundsAtMost(records: seq<Record>, k: nat) {
    forall r | r in records && r.NodeRecord? :: r.execution.round <= k
  }

  predicate RoundsDoneAtMost(records: seq<Record>, k: int) {
    forall r | r in records && r.RoundRecord? :: r.round <= k
  }

  /** A result that says completed is only there when nothing is left to run. */
  predicate CompletedOnlyAtEnd(records: seq<Record>, frontier: seq<Id>) {
    ResultRecord(Completed) in records ==> frontier == []
  }

  predicate LastRoundIs(records: seq<Record>, c: Checkpoint) {
    match LastRound(records)
    case None => c.round == 0 && c.remainingInDegree == map[] && c.bySource == None
    case Some(r) =>
      r.RoundRecord? && r.round == c.round && r.nextFrontier == c.frontier &&
      r.remainingInDegree == c.remainingInDegree && r.bySource == c.bySource
  }

  /** `records` stops somewhere between checkpoint `c` and the next: `stale` holds what was
      recorded of the unfinished round. */
  ghost predicate Matches(records: seq<Record>, header: Record, c: Checkpoint, stale: seq<Execution>) {
    && header.Header? && First(records, IsHeader) == Some(header) && CompletedOnlyAtEnd(records, c.frontier)
    && LastRoundIs(records, c) && (c.round == 0 ==> c.frontier == [header.entry])
    && Replay(header.initialState, ExecutionsUpTo(records, c.round)) == c.state
    && RoundsAtMost(records, c.round + 1) && RoundsDoneAtMost(records, c.round)
    && ExecutionsUpTo(records, c.round + 1) == ExecutionsUpTo(records, c.round) + stale
    && (forall e | e in stale :: e.node in c.frontier)
  }

  /** A matching journal loads as its checkpoint, whatever it recorded of the unfinished round. */
  lemma MatchingLoads(records: seq<Record>, header: Record, c: Checkpoint, stale: seq<Execution>)
    requires Matches(records, header, c, stale)
    ensures Load(records, header.scriptHash).Loaded?
    ensures var r := Load(records, header.scriptHash).resume;
      && r.state == c.state && r.frontier == c.frontier && r.completedRounds == c.round
      && r.remainingInDegree == c.remainingInDegree && r.bySource == c.bySource
      && r.executions == ExecutionsUpTo(records, c.round)
      && r.completedNodeExecutions == |r.executions| && r.executed == NodesOf(r.executions)
  {
    FirstSatisfies(records, IsHeader);
    FirstSatisfies(records, IsResult);
    FirstIsMember(records, IsResult);
    LastRoundIsRound(records);
  }

  lemma {:induction false} FirstIsMember(records: seq<Record>, want: Record -> bool)
    ensures First(records, want).Some? ==> First(records, want).value in records
  {
    if records != [] && !want(records[0]) { FirstIsMember(records[1..], want); }
  }

  lemma {:induction false} FirstAppend(a: seq<Record>, b: seq<Record>, want: Record -> bool)
    ensures First(a + b, want) == if First(a, want).Some? then First(a, want) else First(b, want)
  {
    if a == [] {
      assert a + b == b;
    } else if !want(a[0]) {
      assert (a + b)[1..] == a[1..] + b;
      FirstAppend(a[1..], b, want);
    }
  }

  lemma ExecutionsAdd(records: seq<Record>, r: Record, k: nat)
    ensures ExecutionsUpTo(records + [r], k) ==
      ExecutionsUpTo(records, k) + if r.NodeRecord? && r.execution.round <= k then [r.execution] else []
    ensures LastRound(records + [r]) == if r.RoundRecord? then Some(r) else LastRound(records)
  {
    assert (records + [r])[..|records|] == records;
  }

  /** Headers of resumed runs, results and other records change nothing. */
  lemma BookkeepingKeepsMatch(records: seq<Record>, r: Record, header: Record, c: Checkpoint, stale: seq<Execution>)
    requires Matches(records, header, c, stale)
    requires r.Header? || r.OtherRecord? || (r.ResultRecord? && (r.status == Completed ==> c.frontier == []))
    ensures Matches(records + [r], header, c, stale)
    ensures ExecutionsUpTo(records + [r], c.round) == ExecutionsUpTo(records, c.round)
  {
    FirstAppend(records, [r], IsHeader);
    ExecutionsAdd(records, r, c.round);
    ExecutionsAdd(records, r, c.round + 1);
  }

  /** A node record of the unfinished round only adds to the stale ones. */
  lemma NodeKeepsMatch(records: seq<Record>, e: Execution, header: Record, c: Checkpoint, stale: seq<Execution>)
    requires Matches(records, header, c, stale)
    requires e.round == c.round + 1 && e.node in c.frontier
    ensures Matches(records + [NodeRecord(e)], header, c, stale + [e])
  {
    var r := NodeRecord(e);
    FirstAppend(records, [r], IsHeader);
    ExecutionsAdd(records, r, c.round);
    ExecutionsAdd(records, r, c.round + 1);
    assert ExecutionsUpTo(records, c.round) + stale + [e] == ExecutionsUpTo(records, c.round) + (stale + [e]);
  }

  lemma {:induction false} NodesKeepMatch(records: seq<Record>, done: seq<Execution>, header: Record, c: Checkpoint, stale: seq<Execution>)
    requires Matches(records, header, c, stale)
    requires forall e | e in done :: e.round == c.round + 1 && e.node in c.frontier
    ensures Matches(records + RecordsOf(NodeEvents(done)), header, c, stale + done)
  {
    hide Matches;
    if done == [] {
      assert records + RecordsOf(NodeEvents(done)) == records && stale + done == stale;
    } else {
      var k := |done| - 1;
      assert done == done[..k] + [done[k]];
      NodesKeepMatch(records, done[..k], header, c, stale);
      NodeKeepsMatch(records + RecordsOf(NodeEvents(done[..k])), done[k], header, c, stale + done[..k]);
      assert RecordsOf(NodeEvents(done)) == RecordsOf(NodeEvents(done[..k])) + [NodeRecord(done[k])];
      assert records + RecordsOf(NodeEvents(done)) == records + RecordsOf(NodeEvents(done[..k])) + [NodeRecord(done[k])];
      assert stale + done == stale + done[..k] + [done[k]];
    }
  }

  /** What the loader will see of a journal extended by a whole round. */
  lemma RoundExecutions(records: seq<Record>, done: seq<Execution>, r: Record, header: Record, c: Checkpoint, stale: seq<Execution>)
    requires Matches(records, header, c, stale) && c.frontier != [] && r.RoundRecord? && r.round == c.round + 1
    requires forall e | e in done :: e.round == c.round + 1 && e.node in c.frontier
    ensures var all := records + RecordsOf(NodeEvents(done)) + [r];
      && ExecutionsUpTo(all, c.round + 1) == ExecutionsUpTo(records, c.round) + (stale + done)
      && ExecutionsUpTo(all, c.round + 2) == ExecutionsUpTo(all, c.round + 1)
      && RoundsAtMost(all, c.round + 1) && RoundsDoneAtMost(all, c.round + 1)
      && LastRound(all) == Some(r) && First(all, IsHeader) == Some(header) && ResultRecord(Completed) !in all
  {
    hide Replay, RecordsOf, NodeEvents, ExecutionsUpTo, LastRound;
    var mid := records + RecordsOf(NodeEvents(done));
    NodesKeepMatch(records, done, header, c, stale);
    FirstAppend(mid, [r], IsHeader);
    ExecutionsAdd(mid, r, c.round + 1);
    ExecutionsAdd(mid, r, c.round + 2);
    NothingBeyond(mid, c.round + 1);
    NodeExecutionsKept(records, done, c.round);
  }

  /** A round that re-runs its whole frontier and reaches its barrier moves the match forward. */
  lemma RoundKeepsMatch(records: seq<Record>, done: seq<Execution>, info: RoundInfo, header: Record, c: Checkpoint,
                        stale: seq<Execution>, next: Checkpoint)
    requires Matches(records, header, c, stale) && c.frontier != []
    requires forall e | e in done :: e.round == c.round + 1 && e.node in c.frontier
    requires forall n | n in c.frontier :: n in NodesOf(done)
    requires next == Checkpoint(c.round + 1, Replay(c.state, done), info.nextFrontier, info.remainingInDegree, Some(info.bySource))
    requires info.round == c.round + 1
    ensures Matches(records + RecordsOf(NodeEvents(done) + [RoundDone(info)]), header, next, [])
    ensures ExecutionsUpTo(records + RecordsOf(NodeEvents(done) + [RoundDone(info)]), next.round) ==
      ExecutionsUpTo(records, c.round) + (stale + done)
  {
    hide ExecutionsUpTo, LastRound, First, Replay;
    var r := RecordOf(RoundDone(info));
    RoundExecutions(records, done, r, header, c, stale);
    assert records + RecordsOf(NodeEvents(done) + [RoundDone(info)]) == records + RecordsOf(NodeEvents(done)) + [r];
    ReplayAppend(header.initialState, ExecutionsUpTo(records, c.round), stale + done);
    assert NodesOf(stale) <= NodesOf(done);
    StaleIsOverwritten(c.state, stale, done);
    var executions := ExecutionsUpTo(records, c.round) + (stale + done);
    assert executions + [] == executions;
  }

  lemma {:induction false} NodeExecutionsKept(records: seq<Record>, done: seq<Execution>, k: nat)
    requires forall e | e in done :: e.round == k + 1
    ensures ExecutionsUpTo(records + RecordsOf(NodeEvents(done)), k) == ExecutionsUpTo(records, k)
  {
    if done == [] {
      assert records + RecordsOf(NodeEvents(done)) == records;
    } else {
      var j := |done| - 1;
      assert done == done[..j] + [done[j]];
      NodeExecutionsKept(records, done[..j], k);
      assert records + RecordsOf(NodeEvents(done)) == records + RecordsOf(NodeEvents(done[..j])) + [NodeRecord(done[j])];
      ExecutionsAdd(records + RecordsOf(NodeEvents(done[..j])), NodeRecord(done[j]), k);
    }
  }

  lemma {:induction false} NothingBeyond(records: seq<Record>, k: nat)
    requires RoundsAtMost(records, k)
    ensures ExecutionsUpTo(records, k + 1) == ExecutionsUpTo(records, k)
  {
    if records != [] {
      var j := |records| - 1;
      assert records == records[..j] + [records[j]];
      NothingBeyond(records[..j], k);
    }
  }

  // ----- One process life -----

  /** A run at its loop head that continues from `c`. */
  predicate ContinuesFrom(r: Run, c: Checkpoint) {
    r.iterations == c.round && r.state == c.state && r.frontier == c.frontier
  }

  lemma TurnRecords(g: Graph, env: Env, r: Run)
    ensures var a := RoundAbsorption(g, env, r);
      && (forall e | e in a.done :: e.round == r.iterations + 1 && e.node in r.frontier)
      && (forall n | n in r.frontier :: n in NodesOf(a.done))
      && |a.done| == |r.frontier|
      && (a.failure.None? ==> a.state == Replay(r.state, a.done))
  {
    var outcomes := Outcomes(env, r.frontier, r.state, r.nodeExecutions);
    var start := Absorption(r.state, [], {}, r.finalResult, None);
    AbsorbAllRecords(g, r.iterations + 1, r.nodeExecutions, r.frontier, outcomes, start);
    RoundReplays(g, r.iterations + 1, r.nodeExecutions, r.frontier, outcomes, start);
    hide AbsorbAll, Outcomes;
    var done := RoundAbsorption(g, env, r).done;
    forall e | e in done ensures e.round == r.iterations + 1 && e.node in r.frontier {
      var i :| 0 <= i < |done| && done[i] == e;
      assert Records(done[i], r.frontier[i], r.iterations + 1, r.nodeExecutions + i + 1);
    }
    forall n | n in r.frontier ensures n in NodesOf(done) {
      var i :| 0 <= i < |r.frontier| && r.frontier[i] == n;
      assert Records(done[i], r.frontier[i], r.iterations + 1, r.nodeExecutions + i + 1);
      assert done[i] in done;
    }
  }

  /** A turn that does not reach a barrier records at most nodes of the unfinished round. */
  lemma LastTurnEvents(g: Graph, env: Env, r: Run)
    requires !Advance(g, env, r).Barrier?
    ensures Advance(g, env, r).run.events == r.events ||
      Advance(g, env, r).run.events == r.events + NodeEvents(RoundAbsorption(g, env, r).done)
  {
    hide RoundAbsorption, NextBook, ReadyNodes, NodeEvents, Totals, BySourceRecord;
  }

  lemma NodeEventsPrefix(done: seq<Execution>, m: nat)
    requires m <= |done|
    ensures NodeEvents(done)[..m] == NodeEvents(done[..m])
  {}

  function BarriersIn(events: seq<Event>): nat {
    if events == [] then 0
    else BarriersIn(events[..|events| - 1]) + if events[|events| - 1].RoundDone? then 1 else 0
  }

  lemma {:induction false} BarriersInSum(a: seq<Event>, b: seq<Event>)
    ensures BarriersIn(a + b) == BarriersIn(a) + BarriersIn(b)
  {
    if b == [] {
      assert a + b == a;
    } else {
      assert (a + b)[..|a + b| - 1] == a + b[..|b| - 1];
      BarriersInSum(a, b[..|b| - 1]);
    }
  }

  lemma {:induction false} NoBarrierInNodes(done: seq<Execution>)
    ensures BarriersIn(NodeEvents(done)) == 0
  {
    if done != [] {
      NodeEventsPrefix(done, |done| - 1);
      NoBarrierInNodes(done[..|done| - 1]);
    }
  }

  /** The events added between two points of a run, as records. */
  ghost function AddedRecords(records: seq<Record>, from: Run, seen: seq<Event>): seq<Record>
    requires |from.events| <= |seen|
  {
    records + RecordsOf(seen[|from.events|..])
  }

  lemma TurnKeepsMatch(g: Graph, env: Env, r: Run, records: seq<Record>, header: Record, c: Checkpoint, stale: seq<Execution>)
    requires Matches(records, header, c, stale) && ContinuesFrom(r, c) && Advance(g, env, r).Barrier?
    ensures var next := Advance(g, env, r).run;
      && r.events <= next.events && BarriersIn(next.events[|r.events|..]) == 1 && ContinuesFrom(next, CheckpointOf(next))
      && Matches(AddedRecords(records, r, next.events), header, CheckpointOf(next), [])
      && r.history <= next.history && |next.history| - |r.history| == next.nodeExecutions - r.nodeExecutions
      && ExecutionsUpTo(AddedRecords(records, r, next.events), c.round + 1) ==
           ExecutionsUpTo(records, c.round) + (stale + next.history[|r.history|..])
  {
    hide Advance, Matches, RoundAbsorption, Totals, BySourceRecord, Replay, ExecutionsUpTo, NodeEvents, NextBook, ReadyNodes;
    var a, next := RoundAbsorption(g, env, r), Advance(g, env, r).run;
    TurnRecords(g, env, r);
    TurnEffect(g, env, r);
    AdvanceCounts(g, env, r);
    var info := RoundInfo(next.iterations, r.frontier, next.frontier, Totals(next.book.remaining), BySourceRecord(next.book.remaining));
    RoundKeepsMatch(records, a.done, info, header, c, stale, CheckpointOf(next));
    assert next.events == r.events + (NodeEvents(a.done) + [RoundDone(info)]);
    assert next.events[|r.events|..] == NodeEvents(a.done) + [RoundDone(info)];
    NoBarrierInNodes(a.done);
    BarriersInSum(NodeEvents(a.done), [RoundDone(info)]);
    assert [RoundDone(info)][..0] == [];
  }

  /** What a round that reaches its barrier adds to the journal: one record per node, in frontier order, and then
      the round record, which lists these nodes, the next frontier and the claims left. */
  lemma RoundIsJournaled(g: Graph, env: Env, r: Run)
    requires Advance(g, env, r).Barrier?
    ensures var next, n := Advance(g, env, r).run, |r.frontier|;
      && r.events <= next.events
      && var added := RecordsOf(next.events[|r.events|..]);
         && |added| == n + 1
         && (forall i | 0 <= i < n ::
               added[i].NodeRecord? && added[i].execution.node == r.frontier[i] && added[i].execution.round == r.iterations + 1)
         && added[n].RoundRecord? && added[n].round == r.iterations + 1 && added[n].nodeIds == r.frontier
         && added[n].nextFrontier == next.frontier && ListsClaims(added[n], next.book.remaining)
  {
    hide Advance, RoundAbsorption, NextBook, ReadyNodes, Totals, BySourceRecord, ListsClaims, NodeEvents;
    TurnEffect(g, env, r);
    TurnRecordsInOrder(g, env, r);
    var next, done := Advance(g, env, r).run, RoundAbsorption(g, env, r).done;
    ClaimsAreListed(next.book.remaining, next.events[|next.events| - 1].info);
    OneRecordEach(done, r, next.events[|next.events| - 1]);
    assert next.events[|r.events|..] == NodeEvents(done) + [next.events[|next.events| - 1]];
  }

  lemma TurnRecordsInOrder(g: Graph, env: Env, r: Run)
    ensures RecordsRound(RoundAbsorption(g, env, r).done, r.iterations + 1, r.nodeExecutions, r.frontier)
  {
    AbsorbAllRecords(g, r.iterations + 1, r.nodeExecutions, r.frontier,
                     Outcomes(env, r.frontier, r.state, r.nodeExecutions), Absorption(r.state, [], {}, r.finalResult, None));
  }

  lemma OneRecordEach(done: seq<Execution>, r: Run, last: Event)
    requires RecordsRound(done, r.iterations + 1, r.nodeExecutions, r.frontier)
    ensures var added := RecordsOf(NodeEvents(done) + [last]);
      && |added| == |r.frontier| + 1 && added[|r.frontier|] == RecordOf(last)
      && forall i | 0 <= i < |r.frontier| ::
           added[i].NodeRecord? && added[i].execution.node == r.frontier[i] && added[i].execution.round == r.iterations + 1
  {
    forall i | 0 <= i < |r.frontier|
      ensures done[i].node == r.frontier[i] && done[i].round == r.iterations + 1
    {
      assert Records(done[i], r.frontier[i], r.iterations + 1, r.nodeExecutions + i + 1);
    }
  }

  /** The record holds every node's total, and every pending count source by source. */
  ghost predicate ListsClaims(record: Record, remaining: PendingClaims)
    requires record.RoundRecord?
  {
    && (forall m :: m in record.remainingInDegree <==> m in remaining)
    && (forall m | m in remaining :: record.remainingInDegree[m] == Total(remaining[m]))
    && record.bySource.Some?
    && forall m, s | m in remaining ::
         (if m in record.bySource.value then Held(record.bySource.value[m], s) else 0) == Held(remaining[m], s)
  }

  lemma ClaimsAreListed(remaining: PendingClaims, info: RoundInfo)
    requires info.remainingInDegree == Totals(remaining) && info.bySource == BySourceRecord(remaining)
    ensures ListsClaims(RecordOf(RoundDone(info)), remaining)
  {
    hide Total;
    forall m, s | m in remaining { PendingHeld(remaining[m], s); }
    hide PendingOnly;
  }

  lemma PendingHeld(m: map<Id, nat>, s: Id)
    ensures Held(PendingOnly(m), s) == Held(m, s)
    ensures PendingOnly(m) == map[] ==> Held(m, s) == 0
  {
    assert s in m && m[s] > 0 ==> s in PendingOnly(m);
  }

  lemma CutKeepsMatch(g: Graph, env: Env, r: Run, seen: seq<Event>, records: seq<Record>, header: Record, c: Checkpoint,
                      stale: seq<Execution>) returns (stale': seq<Execution>)
    requires Matches(records, header, c, stale) && ContinuesFrom(r, c)
    requires seen <= RunFrom(g, env, r).events && r.events <= seen
    requires Advance(g, env, r).Barrier? ==> |seen| < |Advance(g, env, r).run.events|
    ensures Matches(AddedRecords(records, r, seen), header, c, stale')
    ensures ExecutionsUpTo(AddedRecords(records, r, seen), c.round) == ExecutionsUpTo(records, c.round)
    ensures BarriersIn(seen[|r.events|..]) == 0
  {
    hide Advance, Matches, RoundAbsorption, ExecutionsUpTo, NodeEvents, RunFrom;
    var a := RoundAbsorption(g, env, r);
    var m := |seen| - |r.events|;
    TurnRecords(g, env, r);
    CutInRound(g, env, r, seen);
    NodeEventsPrefix(a.done, m);
    NodesKeepMatch(records, a.done[..m], header, c, stale);
    NodeExecutionsKept(records, a.done[..m], c.round);
    NoBarrierInNodes(a.done[..m]);
    stale' := stale + a.done[..m];
  }

  /** What a run adds to the journal, cut anywhere: `seen` events were written before the
      process died, and `j` barriers are among them. */
  lemma {:induction false} LifeKeepsMatch(g: Graph, env: Env, r: Run, seen: seq<Event>, records: seq<Record>,
                                          header: Record, c: Checkpoint, stale: seq<Execution>)
    returns (j: nat, stale': seq<Execution>)
    requires Matches(records, header, c, stale) && ContinuesFrom(r, c)
    requires seen <= RunFrom(g, env, r).events && r.events <= seen
    ensures AfterBarriers(g, env, r, j).Some?
    ensures Matches(AddedRecords(records, r, seen), header,
                    if j == 0 then c else CheckpointOf(AfterBarriers(g, env, r, j).value), stale')
    ensures j == BarriersIn(seen[|r.events|..])
    ensures j == 0 ==> ExecutionsUpTo(AddedRecords(records, r, seen), c.round) == ExecutionsUpTo(records, c.round)
    ensures var live := AfterBarriers(g, env, r, j).value;
      && r.history <= live.history && |live.history| - |r.history| == live.nodeExecutions - r.nodeExecutions
      && (j > 0 ==> ExecutionsUpTo(AddedRecords(records, r, seen), c.round + j) ==
                      ExecutionsUpTo(records, c.round) + (stale + live.history[|r.history|..]))
    decreases env.maxRounds - r.iterations
  {
    hide Advance, Matches, ExecutionsUpTo, AddedRecords, Totals, BySourceRecord, BarriersIn;
    var t := Advance(g, env, r);
    if t.Barrier? && |t.run.events| <= |seen| {
      AdvanceCounts(g, env, r);
      EventsGrow(g, env, t.run);
      assert t.run.events <= seen;
      TurnKeepsMatch(g, env, r, records, header, c, stale);
      var i;
      i, stale' := LifeKeepsMatch(g, env, t.run, seen, AddedRecords(records, r, t.run.events), header, CheckpointOf(t.run), []);
      var live := AfterBarriers(g, env, t.run, i).value;
      ExecutionsCompose(ExecutionsUpTo(records, c.round), stale, r.history, t.run.history, live.history);
      j := i + 1;
      BarriersCompose(g, env, r, t.run, i);
      AddedCompose(records, r, t.run, seen);
      assert seen[|r.events|..] == t.run.events[|r.events|..] + seen[|t.run.events|..];
      BarriersInSum(t.run.events[|r.events|..], seen[|t.run.events|..]);
    } else {
      j := 0;
      stale' := CutKeepsMatch(g, env, r, seen, records, header, c, stale);
    }
  }

  lemma ExecutionsCompose(base: seq<Execution>, stale: seq<Execution>, a: seq<Execution>, b: seq<Execution>, c: seq<Execution>)
    requires a <= b <= c
    ensures base + (stale + b[|a|..]) + ([] + c[|b|..]) == base + (stale + c[|a|..])
  {}

  lemma AddedCompose(records: seq<Record>, r: Run, next: Run, seen: seq<Event>)
    requires r.events <= next.events <= seen
    ensures AddedRecords(AddedRecords(records, r, next.events), next, seen) == AddedRecords(records, r, seen)
  {
    assert seen[|r.events|..] == next.events[|r.events|..] + seen[|next.events|..];
    RecordsOfSplit(next.events[|r.events|..], seen[|next.events|..]);
  }

  lemma {:induction false} EventsGrow(g: Graph, env: Env, r: Run)
    ensures r.events <= RunFrom(g, env, r).events
    decreases env.maxRounds - r.iterations
  {
    hide Advance, RoundAbsorption, Totals, BySourceRecord;
    AdvanceCounts(g, env, r);
    var t := Advance(g, env, r);
    if t.Barrier? {
      TurnEffect(g, env, r);
      EventsGrow(g, env, t.run);
      assert r.events <= t.run.events;
    } else {
      LastTurnEvents(g, env, r);
    }
  }

  /** A cut before the next barrier sees a prefix of the round's node records. */
  lemma CutInRound(g: Graph, env: Env, r: Run, seen: seq<Event>)
    requires seen <= RunFrom(g, env, r).events && r.events <= seen
    requires Advance(g, env, r).Barrier? ==> |seen| < |Advance(g, env, r).run.events|
    ensures var done := RoundAbsorption(g, env, r).done;
      |seen| - |r.events| <= |done| && seen[|r.events|..] == NodeEvents(done)[..|seen| - |r.events|]
  {
    hide Advance, RoundAbsorption, Totals, BySourceRecord;
    var t := Advance(g, env, r);
    if t.Barrier? {
      TurnEffect(g, env, r);
      EventsGrow(g, env, t.run);
      assert seen == t.run.events[..|seen|];
    } else {
      LastTurnEvents(g, env, r);
    }
  }

  // ----- A fresh run, crashed anywhere -----

  /** For every prefix of a fresh run's journal the loader returns exactly the live barrier:
      state, next frontier, claim totals, round count and execution count. */
  lemma FreshCrashReplays(g: Graph, env: Env, header: Record, seen: seq<Event>) returns (k: nat)
    requires Built(g) && header.Header? && header.entry == g.entry && header.initialState == g.initialState
    requires seen <= RunFrom(g, env, FreshRun(g)).events
    ensures k == BarriersIn(seen) && AfterBarriers(g, env, FreshRun(g), k).Some?
    ensures var live, loaded := AfterBarriers(g, env, FreshRun(g), k).value, Load([header] + RecordsOf(seen), header.scriptHash);
      && loaded.Loaded? && loaded.resume.state == live.state && loaded.resume.frontier == live.frontier
      && loaded.resume.completedRounds == live.iterations == k
      && loaded.resume.executions == live.history && loaded.resume.completedNodeExecutions == live.nodeExecutions
      && (k > 0 ==> loaded.resume.remainingInDegree == Totals(live.book.remaining)
                    && loaded.resume.bySource == Some(BySourceRecord(live.book.remaining)))
      && (k == 0 ==> loaded.resume.remainingInDegree == map[] && loaded.resume.bySource == None)
  {
    hide Advance, RunFrom, Totals, BySourceRecord, Matches, Load, StaticClaims;
    var c := StartCheckpoint(header);
    StartMatches(header);
    var stale;
    k, stale := LifeKeepsMatch(g, env, FreshRun(g), seen, [header], header, c, []);
    assert seen[0..] == seen && AddedRecords([header], FreshRun(g), seen) == [header] + RecordsOf(seen);
    var records := [header] + RecordsOf(seen);
    var c' := if k == 0 then c else CheckpointOf(AfterBarriers(g, env, FreshRun(g), k).value);
    MatchingLoads(records, header, c', stale);
    BarrierRounds(g, env, FreshRun(g), k);
    assert [] + [header] == [header];
    ExecutionsAdd([], header, 0);
  }

  lemma StartMatches(header: Record)
    requires header.Header?
    ensures Matches([header], header, StartCheckpoint(header), [])
  {
    assert [header][..0] == [];
    assert First([header][1..], IsResult) == None;
    ExecutionsAdd([], header, 0);
    ExecutionsAdd([], header, 1);
    assert [] + [header] == [header];
  }

  lemma {:induction false} BarrierRounds(g: Graph, env: Env, r: Run, k: nat)
    requires AfterBarriers(g, env, r, k).Some?
    ensures AfterBarriers(g, env, r, k).value.iterations == r.iterations + k
  {
    hide Advance;
    if k > 0 {
      BarrierRounds(g, env, r, k - 1);
      AdvanceCounts(g, env, AfterBarriers(g, env, r, k - 1).value);
    }
  }

  // ----- The execution count of a resumed run -----

  /** The execution count is not exact over crashes: a life that gets past the round it
      re-runs leaves the count too high by the stale records of that round, so it is exact
      if and only if the crash before it had recorded no node of that round. */
  lemma CountIsOffByStale(g: Graph, env: Env, r: Run, seen: seq<Event>, records: seq<Record>, header: Record,
                          c: Checkpoint, stale: seq<Execution>)
    requires Matches(records, header, c, stale) && ContinuesFrom(r, c) && r.events == []
    requires seen <= RunFrom(g, env, r).events && BarriersIn(seen) > 0
    requires r.nodeExecutions == Load(records, header.scriptHash).resume.completedNodeExecutions
    ensures AfterBarriers(g, env, r, BarriersIn(seen)).Some?
    ensures var live, loaded := AfterBarriers(g, env, r, BarriersIn(seen)).value, Load(records + RecordsOf(seen), header.scriptHash);
      && loaded.Loaded?
      && loaded.resume.completedNodeExecutions == live.nodeExecutions + |stale|
      && (loaded.resume.completedNodeExecutions == live.nodeExecutions <==> stale == [])
  {
    hide Matches, Load, RunFrom, BarriersIn, Totals, BySourceRecord, Advance;
    MatchingLoads(records, header, c, stale);
    assert seen[0..] == seen;
    var j, stale' := LifeKeepsMatch(g, env, r, seen, records, header, c, stale);
    BarrierRounds(g, env, r, j);
    MatchingLoads(records + RecordsOf(seen), header, CheckpointOf(AfterBarriers(g, env, r, j).value), stale');
  }
}
