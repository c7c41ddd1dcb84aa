/** Any chain of crashes, aborts and resumes equals not having crashed, on acyclic graphs of direct edges whose
    nodes do not read their step number. */
module ChainEquivalence {
  import opened Values
  import opened Graphs
  import opened Claims
  import opened EdgeResolution
  import opened Frontier
  import opened Runs
  import opened Executor
  import opened WaveReset
  import opened ClaimCounters
  import opened Stranding
  import opened Sequential
  import opened Topological
  import opened Journal
  import opened CrashReplay
  import opened CrashChains
  import opened ResumeEquivalence

  // ----- Step numbers -----

  /** What a node yields does not depend on its step number. */
  ghost predicate Stepless(env: Env) {
    forall n, s, i, j :: env.runNode(n, s, i) == env.runNode(n, s, j)
  }

  /** The same run but for the callbacks made and the executions' step numbers, which are `shift` ahead. */
  predicate SameButSteps(a: Run, b: Run, shift: int) {
    && a.state == b.state && a.book == b.book && a.frontier == b.frontier && a.iterations == b.iterations
    && a.finalResult == b.finalResult && a.status == b.status && a.error == b.error && a.strandedCheck == b.strandedCheck
    && PathOf(a.history) == PathOf(b.history) && a.nodeExecutions == b.nodeExecutions + shift
  }

  /** The results of a round, but for step numbers. */
  predicate SameResults(a: Absorption, b: Absorption) {
    && a.state == b.state && a.fired == b.fired && a.finalResult == b.finalResult && a.failure == b.failure
    && PathOf(a.done) == PathOf(b.done)
  }

  lemma PathAdds(history: seq<Execution>, e: Execution)
    ensures PathOf(history + [e]) == PathOf(history) + [e.node]
  {
  }

  lemma AbsorbIgnoresStep(g: Graph, round: nat, node: Id, i: nat, j: nat, outcome: Outcome, a: Absorption, b: Absorption)
    requires SameResults(a, b)
    ensures SameResults(Absorb(g, round, node, i, outcome, a), Absorb(g, round, node, j, outcome, b))
  {
    hide Resolve, PathOf;
    var d := AbsorbAppends(g, round, node, i, outcome, a);
    var e := AbsorbAppends(g, round, node, j, outcome, b);
    PathAdds(a.done, d);
    PathAdds(b.done, e);
  }

  lemma {:induction false} AbsorbAllIgnoresSteps(g: Graph, round: nat, i: nat, j: nat, frontier: seq<Id>,
                                                 outcomes: seq<Outcome>, start: Absorption)
    requires |frontier| == |outcomes|
    ensures SameResults(AbsorbAll(g, round, i, frontier, outcomes, start), AbsorbAll(g, round, j, frontier, outcomes, start))
  {
    hide Absorb, SameResults;
    if frontier == [] {
      ResultsAreSame(start);
    } else {
      var k := |frontier| - 1;
      AbsorbAllIgnoresSteps(g, round, i, j, frontier[..k], outcomes[..k], start);
      AbsorbIgnoresStep(g, round, frontier[k], i + k + 1, j + k + 1, outcomes[k],
                        AbsorbAll(g, round, i, frontier[..k], outcomes[..k], start),
                        AbsorbAll(g, round, j, frontier[..k], outcomes[..k], start));
    }
  }

  lemma ResultsAreSame(a: Absorption)
    ensures SameResults(a, a)
  {
  }

  lemma RoundIgnoresSteps(g: Graph, env: Env, a: Run, b: Run, shift: int)
    requires Stepless(env) && SameButSteps(a, b, shift)
    ensures SameResults(RoundAbsorption(g, env, a), RoundAbsorption(g, env, b))
  {
    hide AbsorbAll, SameResults, PathOf;
    assert Outcomes(env, a.frontier, a.state, a.nodeExecutions) == Outcomes(env, b.frontier, b.state, b.nodeExecutions);
    AbsorbAllIgnoresSteps(g, a.iterations + 1, a.nodeExecutions, b.nodeExecutions, a.frontier,
                          Outcomes(env, a.frontier, a.state, a.nodeExecutions),
                          Absorption(a.state, [], {}, a.finalResult, None));
  }

  lemma PathSum(a: seq<Execution>, b: seq<Execution>)
    ensures PathOf(a + b) == PathOf(a) + PathOf(b)
  {
  }

  /** One turn goes the same way whatever the step numbers. */
  lemma TurnIgnoresSteps(g: Graph, env: Env, a: Run, b: Run, shift: int)
    requires Stepless(env) && SameButSteps(a, b, shift)
    ensures Advance(g, env, a).Barrier? <==> Advance(g, env, b).Barrier?
    ensures SameButSteps(Advance(g, env, a).run, Advance(g, env, b).run, shift)
  {
    hide RoundAbsorption, NextBook, ReadyNodes, Totals, BySourceRecord, NodeEvents, FrontierSet, PathOf;
    RoundIgnoresSteps(g, env, a, b, shift);
    PathSum(a.history, RoundAbsorption(g, env, a).done);
    PathSum(b.history, RoundAbsorption(g, env, b).done);
  }

  lemma {:induction false} BarriersIgnoreSteps(g: Graph, env: Env, a: Run, b: Run, shift: int, j: nat)
    requires Stepless(env) && SameButSteps(a, b, shift)
    ensures AfterBarriers(g, env, a, j).Some? <==> AfterBarriers(g, env, b, j).Some?
    ensures AfterBarriers(g, env, a, j).Some? ==> SameButSteps(AfterBarriers(g, env, a, j).value, AfterBarriers(g, env, b, j).value, shift)
  {
    hide Advance, SameButSteps, Stepless;
    if j > 0 {
      BarriersIgnoreSteps(g, env, a, b, shift, j - 1);
      if AfterBarriers(g, env, a, j - 1).Some? {
        TurnIgnoresSteps(g, env, AfterBarriers(g, env, a, j - 1).value, AfterBarriers(g, env, b, j - 1).value, shift);
      }
    }
  }

  lemma {:induction false} EndIgnoresSteps(g: Graph, env: Env, a: Run, b: Run, shift: int)
    requires Stepless(env) && SameButSteps(a, b, shift)
    ensures SameButSteps(RunFrom(g, env, a), RunFrom(g, env, b), shift)
    decreases env.maxRounds - a.iterations
  {
    hide Advance, SameButSteps, Stepless;
    TurnIgnoresSteps(g, env, a, b, shift);
    AdvanceCounts(g, env, a);
    if Advance(g, env, a).Barrier? { EndIgnoresSteps(g, env, Advance(g, env, a).run, Advance(g, env, b).run, shift); }
  }

  // ----- Worlds that abort or stop earlier -----

  /** The same nodes, no abort, and no smaller cap. */
  ghost predicate Unhindered(env: Env, e: Env) {
    e.runNode == env.runNode && e.maxRounds <= env.maxRounds && forall k :: !env.aborted(k)
  }

  lemma BarrierUnhindered(g: Graph, env: Env, e: Env, r: Run)
    requires Unhindered(env, e) && Advance(g, e, r).Barrier?
    ensures Advance(g, env, r) == Advance(g, e, r)
  {
    hide AbsorbAll, AtBarrier, AfterResults;
  }

  /** A barrier reached in a world is reached in one that hinders less. */
  lemma {:induction false} BarriersUnhindered(g: Graph, env: Env, e: Env, r: Run, j: nat)
    requires Unhindered(env, e) && AfterBarriers(g, e, r, j).Some?
    ensures AfterBarriers(g, env, r, j) == AfterBarriers(g, e, r, j)
  {
    hide Advance, Unhindered;
    if j > 0 {
      BarriersUnhindered(g, env, e, r, j - 1);
      BarrierUnhindered(g, env, e, AfterBarriers(g, e, r, j - 1).value);
    }
  }

  // ----- Alike runs report alike -----

  lemma SameHeldSameTotal(a: map<Id, nat>, b: map<Id, nat>)
    requires PendingOnly(a) == PendingOnly(b)
    ensures Total(a) == Total(b)
  {
    TotalOfPending(a);
    TotalOfPending(b);
  }

  lemma SameHeldSamePending(a: map<Id, nat>, b: map<Id, nat>)
    requires forall s :: Held(a, s) == Held(b, s)
    ensures PendingOnly(a) == PendingOnly(b)
  {
    forall s ensures s in PendingOnly(a) <==> s in PendingOnly(b) { assert Held(a, s) == Held(b, s); }
    forall s | s in PendingOnly(a) ensures PendingOnly(a)[s] == PendingOnly(b)[s] { assert Held(a, s) == Held(b, s); }
  }

  /** What a barrier reports depends on the pending claims alone. */
  lemma AlikeReports(g: Graph, a: Run, b: Run)
    requires Alike(g, a, b)
    ensures CheckpointOf(a) == CheckpointOf(b)
  {
    forall n | n in g.nodes
      ensures PendingOnly(a.book.remaining[n]) == PendingOnly(b.book.remaining[n])
      ensures Total(a.book.remaining[n]) == Total(b.book.remaining[n])
    {
      SameHeldSamePending(a.book.remaining[n], b.book.remaining[n]);
      SameHeldSameTotal(a.book.remaining[n], b.book.remaining[n]);
    }
    hide Total, PendingOnly, Held;
    assert Totals(a.book.remaining) == Totals(b.book.remaining);
    assert BySourceRecord(a.book.remaining) == BySourceRecord(b.book.remaining);
  }

  lemma {:induction false} AlikeHistories(g: Graph, env: Env, a: Run, b: Run, k: nat, j: nat)
    requires Sweepable(g) && Sweeping(g, a, k) && Alike(g, a, b) && AfterBarriers(g, env, a, j).Some?
    ensures AfterBarriers(g, env, b, j).Some?
    ensures var x, y := AfterBarriers(g, env, a, j).value, AfterBarriers(g, env, b, j).value;
            a.history <= x.history && b.history <= y.history && x.history[|a.history|..] == y.history[|b.history|..]
  {
    hide Advance, Sweeping, Alike, Sweepable, SameEnd;
    AlikeBarriers(g, env, a, b, k, j);
    if j > 0 {
      AlikeHistories(g, env, a, b, k, j - 1);
      AlikeBarriers(g, env, a, b, k, j - 1);
      var x, y := AfterBarriers(g, env, a, j - 1).value, AfterBarriers(g, env, b, j - 1).value;
      TurnKeepsAlike(g, env, x, y, k + j - 1);
      SuffixCompose(a.history, x.history, Advance(g, env, x).run.history, b.history, y.history, Advance(g, env, y).run.history);
    }
  }

  // ----- Files that stand where the uncrashed run stood -----

  /** The checkpoint is one of the uncrashed run in `env`, and a resume finds the nodes that had run by then. */
  ghost predicate Stands(g: Graph, env: Env, f: JournalFile, c: Checkpoint)
    requires Sweepable(g)
  {
    && c.round >= 1 && AfterBarriers(g, env, FreshRun(g), c.round).Some?
    && var live := AfterBarriers(g, env, FreshRun(g), c.round).value;
       c == CheckpointOf(live) && NodesIn(f, c.round) == live.book.executed
  }

  /** A resume from there goes on like the uncrashed run, but for step numbers. */
  lemma ResumesAlike(g: Graph, env: Env, header: Record, f: JournalFile, c: Checkpoint, stale: seq<Execution>)
    returns (renumbered: Run)
    requires Sweepable(g) && FileMatches(f, header, c, stale) && Stands(g, env, f, c)
    ensures header.Header?
    ensures var start, live := LifeStart(g, header, f, false), AfterBarriers(g, env, FreshRun(g), c.round).value;
            && SameButSteps(start, renumbered, start.nodeExecutions - live.nodeExecutions)
            && Alike(g, live, renumbered) && start.history == [] == renumbered.history && Sweeping(g, live, c.round)
  {
    hide Advance, Sweeping, Sweepable, Alike, Matches, ExecutionsUpTo, HeadStatus, Totals, BySourceRecord, AfterBarriers, ResumedClaims;
    MatchingHeader(Readable(f.lines), header, c, stale);
    MatchingLoads(Readable(f.lines), header, c, stale);
    EveryBarrierSweeps(g, env, c.round);
    FreshIsBuilt(g);
    EveryBarrierStatus(g, env, c.round);
    var live, resume := AfterBarriers(g, env, FreshRun(g), c.round).value, LoadFile(f, header).resume;
    var counted := resume.(completedNodeExecutions := live.nodeExecutions);
    RanIsExecuted(g, live, c.round);
    BarrierRounds(g, env, FreshRun(g), c.round);
    LoadedIsAlike(g, live, counted, c.round);
    renumbered := ResumedRun(g, ResumeInputOf(counted));
    Renumbered(g, resume, live.nodeExecutions);
  }

  /** The loaded count only numbers the executions to come. */
  lemma Renumbered(g: Graph, resume: ResumeState, m: nat)
    ensures ResumedRun(g, ResumeInputOf(resume.(completedNodeExecutions := m))) ==
            ResumedRun(g, ResumeInputOf(resume)).(nodeExecutions := m)
  {
  }

  lemma FreshIsBuilt(g: Graph)
    requires Sweepable(g)
    ensures Built(g) && g.entry in g.nodes
  {
  }

  lemma RanAre(a: Run, b: Run, shift: int)
    requires SameButSteps(a, b, shift)
    ensures NodesOf(a.history) == NodesOf(b.history)
  {
    NodesOfPath(a.history);
    NodesOfPath(b.history);
  }

  lemma NodesOfPath(history: seq<Execution>)
    ensures NodesOf(history) == set n | n in PathOf(history)
  {
    forall n ensures n in NodesOf(history) <==> n in PathOf(history) {
      if e :| e in history && e.node == n {
        var i :| 0 <= i < |history| && history[i] == e;
        assert PathOf(history)[i] == n;
      }
      if n in PathOf(history) {
        var i :| 0 <= i < |history| && PathOf(history)[i] == n;
        assert history[i] in history;
      }
    }
  }

  lemma NodesSplit(a: seq<Execution>, b: seq<Execution>)
    requires a <= b
    ensures NodesOf(b) == NodesOf(a) + NodesOf(b[|a|..])
  {
    assert b == a + b[|a|..];
    var none: seq<Execution> := [];
    NodesOfSum(a, none, b[|a|..]);
    assert none + b[|a|..] == b[|a|..];
  }

  /** What a frontier runs is done at every later barrier of the sweep. */
  lemma FrontierIsDone(g: Graph, a: Run, k: nat, b: Run, m: nat)
    requires Sweepable(g) && Sweeping(g, a, k) && Sweeping(g, b, m) && k < m
    ensures FrontierSet(a.frontier) <= NodesOf(b.history) == b.book.executed
  {
    hide Level, Sweepable, BookInv, CounterRule, SweepHistory;
    RanIsExecuted(g, b, m);
    FrontierSetMembers(a.frontier);
    forall n | n in a.frontier ensures n in b.book.executed {
      assert n in g.nodes;
      SweepReady(g, a.book, k, n);
    }
  }

  /** The barriers of the resumed life are those of the uncrashed run. */
  lemma LifeReaches(g: Graph, env: Env, header: Record, f: JournalFile, c: Checkpoint, stale: seq<Execution>, j: nat)
    requires Sweepable(g) && FileMatches(f, header, c, stale) && Stands(g, env, f, c) && Stepless(env) && header.Header?
    requires g.entry in g.nodes && AfterBarriers(g, env, LifeStart(g, header, f, false), j).Some? && j > 0
    ensures AfterBarriers(g, env, FreshRun(g), c.round + j).Some? && LifeStart(g, header, f, false).history == []
    ensures var reached := AfterBarriers(g, env, LifeStart(g, header, f, false), j).value;
            var live, before := AfterBarriers(g, env, FreshRun(g), c.round + j).value, AfterBarriers(g, env, FreshRun(g), c.round).value;
            CheckpointOf(reached) == CheckpointOf(live) &&
            live.book.executed == before.book.executed + NodesOf(reached.history) &&
            live.nodeExecutions - before.nodeExecutions == reached.nodeExecutions - LifeStart(g, header, f, false).nodeExecutions &&
            FrontierSet(c.frontier) <= live.book.executed
  {
    hide Advance, Sweeping, Sweepable, Alike, Matches, FileMatches, SameButSteps, LifeStart, Stepless, Totals, BySourceRecord;
    var start, before := LifeStart(g, header, f, false), AfterBarriers(g, env, FreshRun(g), c.round).value;
    var renumbered := ResumesAlike(g, env, header, f, c, stale);
    var shift := start.nodeExecutions - before.nodeExecutions;
    BarriersIgnoreSteps(g, env, start, renumbered, shift, j);
    AlikeBarriers(g, env, before, renumbered, c.round, j);
    AlikeHistories(g, env, before, renumbered, c.round, j);
    BarriersAdd(g, env, FreshRun(g), c.round, j);
    var reached, live, other := AfterBarriers(g, env, start, j).value, AfterBarriers(g, env, FreshRun(g), c.round + j).value,
      AfterBarriers(g, env, renumbered, j).value;
    AlikeReports(g, live, other);
    SameReports(reached, other, shift);
    RanAre(reached, other, shift);
    NodesSplit(before.history, live.history);
    assert other.history[0..] == other.history;
    RanIsExecuted(g, before, c.round);
    FrontierIsDone(g, before, c.round, live, c.round + j);
    AlikeFields(g, live, other);
    SameSteps(reached, other, shift);
  }

  lemma SameReports(a: Run, b: Run, shift: int)
    requires SameButSteps(a, b, shift)
    ensures CheckpointOf(a) == CheckpointOf(b)
  {
  }

  lemma SameSteps(a: Run, b: Run, shift: int)
    requires SameButSteps(a, b, shift)
    ensures a.nodeExecutions == b.nodeExecutions + shift
  {
  }

  /** One more life keeps the file where the uncrashed run stood. */
  lemma LifeFollows(g: Graph, env: Env, header: Record, f: JournalFile, l: Life, c: Checkpoint, stale: seq<Execution>,
                    stale': seq<Execution>)
    requires HeaderOf(g, header) && Sweepable(g) && Stepless(env) && Unhindered(env, l.env)
    requires FileMatches(f, header, c, stale) && Stands(g, env, f, c)
    requires Continued(g, header, f, false, l, c, stale') && AddsNodes(g, header, f, false, l, c)
    ensures Follows(g, env, header, f, l, c)
  {
    hide Sweepable, FileMatches, LifeStart, LifeWrites, Stepless, Barriers, NodesIn, NodesOf, FrontierSet, RecordedUpTo, AddsNodes,
      AfterBarriers, CheckpointOf, FreshRun, Unhindered, StaleIn, Stands;
    var start, j := LifeStart(g, header, f, false), Barriers(g, header, f, false, l);
    if j == 0 {
      StandsStill(g, env, header, f, l, c);
    } else {
      BarriersUnhindered(g, env, l.env, start, j);
      LifeReaches(g, env, header, f, c, stale, j);
      StandsFurther(g, env, header, f, l, c, stale);
    }
  }

  /** The file stands at the life's last barrier, and as many nodes ran as in the uncrashed run. */
  ghost predicate Follows(g: Graph, env: Env, header: Record, f: JournalFile, l: Life, c: Checkpoint)
    requires HeaderOf(g, header) && Sweepable(g) && Stands(g, env, f, c)
  {
    var start, j := LifeStart(g, header, f, false), Barriers(g, header, f, false, l);
    var c' := NextCheckpoint(g, l.env, start, c, j);
    && Stands(g, env, LifeWrites(g, header, f, false, l), c')
    && AfterBarriers(g, l.env, start, j).Some?
    && AfterBarriers(g, env, FreshRun(g), c'.round).value.nodeExecutions -
       AfterBarriers(g, env, FreshRun(g), c.round).value.nodeExecutions ==
       if j == 0 then 0 else AfterBarriers(g, l.env, start, j).value.nodeExecutions - start.nodeExecutions
  }

  lemma StandsStill(g: Graph, env: Env, header: Record, f: JournalFile, l: Life, c: Checkpoint)
    requires HeaderOf(g, header) && Sweepable(g) && Stands(g, env, f, c)
    requires Barriers(g, header, f, false, l) == 0 && AddsNodes(g, header, f, false, l, c)
    ensures Stands(g, env, LifeWrites(g, header, f, false, l), c)
  {
    hide Sweepable, LifeStart, LifeWrites, Barriers, NodesIn, NodesOf, FrontierSet, AfterBarriers, CheckpointOf, FreshRun;
  }

  lemma StandsFurther(g: Graph, env: Env, header: Record, f: JournalFile, l: Life, c: Checkpoint, stale: seq<Execution>)
    requires HeaderOf(g, header) && Sweepable(g) && Stepless(env) && Unhindered(env, l.env)
    requires FileMatches(f, header, c, stale) && Stands(g, env, f, c)
    requires Barriers(g, header, f, false, l) > 0 && AddsNodes(g, header, f, false, l, c)
    requires AfterBarriers(g, l.env, LifeStart(g, header, f, false), Barriers(g, header, f, false, l)).Some?
    ensures var start, j := LifeStart(g, header, f, false), Barriers(g, header, f, false, l);
            var c' := NextCheckpoint(g, l.env, start, c, j);
            c'.round == c.round + j ==> Stands(g, env, LifeWrites(g, header, f, false, l), c')
  {
    hide Sweepable, LifeStart, LifeWrites, Barriers, NodesIn, NodesOf, FrontierSet, AfterBarriers, CheckpointOf, FreshRun,
      FileMatches, Unhindered, Stepless, AddsNodes;
    var start, j := LifeStart(g, header, f, false), Barriers(g, header, f, false, l);
    BarriersUnhindered(g, env, l.env, start, j);
    LifeReaches(g, env, header, f, c, stale, j);
    AddedNodes(g, header, f, l, c);
    var live := AfterBarriers(g, env, FreshRun(g), c.round + j).value;
    assert NodesIn(LifeWrites(g, header, f, false, l), c.round + j) == live.book.executed;
  }

  lemma AddedNodes(g: Graph, header: Record, f: JournalFile, l: Life, c: Checkpoint)
    requires HeaderOf(g, header) && AddsNodes(g, header, f, false, l, c)
    requires Barriers(g, header, f, false, l) > 0 && LifeStart(g, header, f, false).history == []
    ensures var j := Barriers(g, header, f, false, l);
            var live, was := AfterBarriers(g, l.env, LifeStart(g, header, f, false), j), NodesIn(f, c.round);
            && live.Some?
            && was + NodesOf(live.value.history) <= NodesIn(LifeWrites(g, header, f, false, l), c.round + j)
               <= was + NodesOf(live.value.history) + FrontierSet(c.frontier)
  {
    hide LifeStart, LifeWrites, Barriers, NodesIn, NodesOf, FrontierSet, AfterBarriers;
    var h := AfterBarriers(g, l.env, LifeStart(g, header, f, false), Barriers(g, header, f, false, l)).value.history;
    assert h[0..] == h;
  }

  lemma FirstLifeFollows(g: Graph, env: Env, header: Record, l: Life, stale: seq<Execution>)
    requires HeaderOf(g, header) && Sweepable(g) && Unhindered(env, l.env)
    requires Barriers(g, header, EMPTY_FILE, true, l) > 0
    requires Continued(g, header, EMPTY_FILE, true, l, StartCheckpoint(header), stale)
    requires AddsNodes(g, header, EMPTY_FILE, true, l, StartCheckpoint(header))
    ensures var j := Barriers(g, header, EMPTY_FILE, true, l);
            var c' := NextCheckpoint(g, l.env, FreshRun(g), StartCheckpoint(header), j);
            && Stands(g, env, LifeWrites(g, header, EMPTY_FILE, true, l), c')
            && AfterBarriers(g, l.env, FreshRun(g), j).Some?
            && AfterBarriers(g, env, FreshRun(g), c'.round) == AfterBarriers(g, l.env, FreshRun(g), j)
  {
    hide Advance, Sweepable, FileMatches, LifeWrites, Barriers, NodesOf, FrontierSet, RecordedUpTo, Sweeping, ExecutionsUpTo,
      AfterBarriers, CheckpointOf, FreshRun, Unhindered, StaleIn;
    var j := Barriers(g, header, EMPTY_FILE, true, l);
    BarriersUnhindered(g, env, l.env, FreshRun(g), j);
    FreshIsBuilt(g);
    var live := AfterBarriers(g, env, FreshRun(g), j).value;
    EveryBarrierSweeps(g, env, j);
    FreshSweeps(g);
    FreshEntry(g);
    FrontierIsDone(g, FreshRun(g), 0, live, j);
    NothingFound();
    assert live.history[0..] == live.history;
  }

  lemma FreshEntry(g: Graph)
    requires Built(g)
    ensures FreshRun(g).frontier == [g.entry] && FreshRun(g).history == [] && FreshRun(g).nodeExecutions == 0
  {
    hide StaticClaims;
  }

  lemma NothingFound()
    ensures NodesIn(EMPTY_FILE, 0) == {}
  {
    assert Readable([]) == [];
  }

  // ----- The theorem -----

  /** Lives of one workflow: the same nodes in all of them, whatever aborted or capped each. */
  ghost predicate SameWorkflow(env: Env, lives: seq<Life>) {
    forall l | l in lives :: LeavesTrace(l) && Unhindered(env, l.env)
  }

  /** Along a safe chain whose first life reported a barrier, each file stands at a barrier of the uncrashed run,
      and the completed executions are counted right. */
  lemma {:induction false} ChainStands(g: Graph, env: Env, header: Record, lives: seq<Life>)
    requires HeaderOf(g, header) && Sweepable(g) && Stepless(env) && SameWorkflow(env, lives)
    requires lives != [] && Safe(g, header, lives) && LastBarriers(g, header, lives[..1]) > 0
    ensures Stands(g, env, FileAfter(g, header, lives), LastLive(g, header, lives))
    ensures CompletedExecutions(g, header, lives) ==
            AfterBarriers(g, env, FreshRun(g), LastLive(g, header, lives).round).value.nodeExecutions
  {
    hide Sweepable, FileMatches, LifeStart, LifeWrites, Stepless, Barriers, AfterBarriers, FreshRun, Stands, Continued, AddsNodes,
      NextCheckpoint, SafeLife, LeavesTrace, Unhindered;
    var k := |lives| - 1;
    var stale := ChainContinues(g, header, lives);
    if k == 0 {
      assert lives[..0] == [] && lives[..1] == lives;
      ChainStandsFirst(g, env, header, lives, stale);
    } else {
      assert lives[..k][..1] == lives[..1];
      ChainStands(g, env, header, lives[..k]);
      var earlier := ChainContinues(g, header, lives[..k]);
      LifeFollows(g, env, header, FileBefore(g, header, lives), lives[k], LastLive(g, header, lives[..k]), earlier, stale);
    }
  }

  lemma ChainStandsFirst(g: Graph, env: Env, header: Record, lives: seq<Life>, stale: seq<Execution>)
    requires HeaderOf(g, header) && Sweepable(g) && SameWorkflow(env, lives) && |lives| == 1
    requires LastBarriers(g, header, lives) > 0
    requires Continued(g, header, EMPTY_FILE, true, lives[0], StartCheckpoint(header), stale)
    requires AddsNodes(g, header, EMPTY_FILE, true, lives[0], StartCheckpoint(header))
    ensures Stands(g, env, FileAfter(g, header, lives), LastLive(g, header, lives))
    ensures CompletedExecutions(g, header, lives) ==
            AfterBarriers(g, env, FreshRun(g), LastLive(g, header, lives).round).value.nodeExecutions
  {
    hide Sweepable, FileMatches, LifeWrites, Stepless, Barriers, AfterBarriers, FreshRun, Stands, Continued, AddsNodes,
      NextCheckpoint, LeavesTrace, Unhindered;
    assert lives[..0] == [];
    FreshIsBuilt(g);
    FirstLifeFollows(g, env, header, lives[0], stale);
    FreshEntry(g);
    assert CompletedExecutions(g, header, lives[..0]) == 0;
  }

  /** How the resumed run goes on and ends, compared with the uncrashed one: the same but for the execution count,
      which is ahead by `ahead`. */
  predicate SameOutcome(full: Run, resumed: Run, ahead: int) {
    && resumed.state == full.state && resumed.frontier == full.frontier && resumed.iterations == full.iterations
    && resumed.status == full.status && resumed.error == full.error
    && resumed.nodeExecutions == full.nodeExecutions + ahead
  }

  /** The run from `start` reaches the barriers after the k-th of the uncrashed run, runs the nodes that one runs
      from there on, and ends like it. */
  ghost predicate GoesOnLike(g: Graph, env: Env, start: Run, k: nat, ahead: int)
    requires g.entry in g.nodes
  {
    var full, resumed := RunFrom(g, env, FreshRun(g)), RunFrom(g, env, start);
    var live := AfterBarriers(g, env, FreshRun(g), k);
    && live.Some? && SameOutcome(full, resumed, ahead)
    && PathOf(full.history) == PathOf(live.value.history) + PathOf(resumed.history)
    && forall j: nat ::
         var x, y := AfterBarriers(g, env, FreshRun(g), k + j), AfterBarriers(g, env, start, j);
         (x.Some? <==> y.Some?) && (x.Some? ==> SameOutcome(x.value, y.value, ahead))
  }

  /** After any number of crashes and aborts, at any points that lose nothing, the resumed run goes on like the run
      that was never interrupted: the same barriers, nodes, state, rounds, status and error. Only the execution
      count is ahead, by the stale records that lives got past. */
  lemma ChainEqualsNoCrash(g: Graph, env: Env, header: Record, lives: seq<Life>)
    requires HeaderOf(g, header) && Sweepable(g) && Stepless(env) && SameWorkflow(env, lives)
    requires lives != [] && Safe(g, header, lives) && LastBarriers(g, header, lives[..1]) > 0
    ensures LoadFile(FileAfter(g, header, lives), header).Loaded?
    ensures GoesOnLike(g, env, LifeStart(g, header, FileAfter(g, header, lives), false), LastLive(g, header, lives).round,
                       StaleExecutions(g, header, lives))
  {
    hide Sweepable, FileMatches, LifeStart, Stepless, AfterBarriers, FreshRun, Stands, FileAfter, LastLive, LeavesTrace, Unhindered,
      Safe, LoadFile, CompletedExecutions, StaleExecutions, GoesOnLike, Continued, AddsNodes, LastBarriers;
    var f, c := FileAfter(g, header, lives), LastLive(g, header, lives);
    var stale := ChainContinues(g, header, lives);
    ChainStands(g, env, header, lives);
    ChainCountIsOffByStale(g, header, lives);
    ResumedCount(g, header, f);
    ResumesLike(g, env, header, f, c, stale);
  }

  lemma ResumedCount(g: Graph, header: Record, f: JournalFile)
    requires HeaderOf(g, header) && LoadFile(f, header).Loaded?
    ensures LifeStart(g, header, f, false).nodeExecutions == LoadFile(f, header).resume.completedNodeExecutions
  {
    hide Load;
  }

  lemma ResumesLike(g: Graph, env: Env, header: Record, f: JournalFile, c: Checkpoint, stale: seq<Execution>)
    requires HeaderOf(g, header) && Sweepable(g) && Stepless(env) && FileMatches(f, header, c, stale) && Stands(g, env, f, c)
    ensures var start, live := LifeStart(g, header, f, false), AfterBarriers(g, env, FreshRun(g), c.round).value;
            GoesOnLike(g, env, start, c.round, start.nodeExecutions - live.nodeExecutions)
  {
    hide Sweepable, FileMatches, LifeStart, Stepless, AfterBarriers, FreshRun, SameButSteps, Alike, SameOutcome, RunFrom, CheckpointOf,
      NodesIn, Sweeping, PathOf;
    var start, live := LifeStart(g, header, f, false), AfterBarriers(g, env, FreshRun(g), c.round).value;
    var shift := start.nodeExecutions - live.nodeExecutions;
    var renumbered := ResumesAlike(g, env, header, f, c, stale);
    AlikeRunsEndAlike(g, env, live, renumbered, c.round);
    EndIgnoresSteps(g, env, start, renumbered, shift);
    RunFromBarrier(g, env, FreshRun(g), c.round);
    OutcomesCompose(RunFrom(g, env, live), RunFrom(g, env, renumbered), RunFrom(g, env, start), shift);
    PathComposes(live.history, RunFrom(g, env, live).history, RunFrom(g, env, renumbered).history);
    forall j: nat
      ensures var x, y := AfterBarriers(g, env, FreshRun(g), c.round + j), AfterBarriers(g, env, start, j);
              (x.Some? <==> y.Some?) && (x.Some? ==> SameOutcome(x.value, y.value, shift))
    {
      AlikeBarriers(g, env, live, renumbered, c.round, j);
      BarriersIgnoreSteps(g, env, start, renumbered, shift, j);
      BarriersAdd(g, env, FreshRun(g), c.round, j);
      if AfterBarriers(g, env, live, j).Some? {
        AlikeIsSameEnd(g, AfterBarriers(g, env, live, j).value, AfterBarriers(g, env, renumbered, j).value);
        OutcomesCompose(AfterBarriers(g, env, live, j).value, AfterBarriers(g, env, renumbered, j).value,
                        AfterBarriers(g, env, start, j).value, shift);
      }
    }
  }

  lemma OutcomesCompose(full: Run, renumbered: Run, resumed: Run, shift: int)
    requires SameEnd(full, renumbered) && SameButSteps(resumed, renumbered, shift)
    ensures SameOutcome(full, resumed, shift) && PathOf(resumed.history) == PathOf(renumbered.history)
  {
  }

  lemma PathComposes(live: seq<Execution>, full: seq<Execution>, rest: seq<Execution>)
    requires live <= full && full[|live|..] == rest
    ensures PathOf(full) == PathOf(live) + PathOf(rest)
  {
    assert full == live + rest;
    PathSum(live, rest);
  }
}
