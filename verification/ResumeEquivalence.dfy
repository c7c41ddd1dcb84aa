/** Resuming equals not having crashed, on acyclic graphs of direct edges. */
module ResumeEquivalence {
  import opened Values
  import opened Graphs
  import opened Claims
  import opened EdgeResolution
  import opened Frontier
  import opened Runs
  import opened Executor
  import opened WaveReset
  import opened ClaimCounters
  import opened Stranding
  import opened Sequential
  import opened Topological
  import opened Journal
  import opened CrashReplay

  // ----- What a resume restores of the claims, on any graph -----

  lemma PendingOnlyHeld(m: map<Id, nat>, s: Id)
    ensures Held(PendingOnly(m), s) == Held(m, s)
    ensures PendingOnly(PendingOnly(m)) == PendingOnly(m)
  {}

  lemma QuietHasNoPending(m: map<Id, nat>)
    ensures PendingOnly(m) == map[] <==> Quiet(m)
    ensures PendingOnly(m) == map[] ==> Total(m) == 0
  {
    TotalZeroIffQuiet(m);
    if Quiet(m) {
      forall s ensures s !in PendingOnly(m) {}
    } else {
      var s :| s in m && m[s] != 0;
      assert s in PendingOnly(m);
    }
  }

  lemma {:induction false} TotalOfPending(m: map<Id, nat>)
    ensures Total(PendingOnly(m)) == Total(m)
    decreases |m|
  {
    if m != map[] {
      var s :| s in m;
      TotalWithout(m, s);
      TotalOfPending(m - {s});
      if m[s] > 0 {
        TotalWithout(PendingOnly(m), s);
        assert PendingOnly(m) - {s} == PendingOnly(m - {s});
      } else {
        assert PendingOnly(m) == PendingOnly(m - {s});
      }
    }
  }

  /** A resume from a barrier record restores every pending claim count, source by source. */
  lemma ResumeRestoresClaims(g: Graph, remaining: PendingClaims, resume: ResumeInput, n: Id, s: Id)
    requires n in g.nodes && n in remaining
    requires resume.remainingInDegree == Totals(remaining) && resume.bySource == Some(BySourceRecord(remaining))
    ensures Held(ResumedClaims(g, resume)[n], s) == Held(remaining[n], s)
    ensures Quiet(ResumedClaims(g, resume)[n]) <==> Quiet(remaining[n])
  {
    PendingOnlyHeld(remaining[n], s);
    QuietHasNoPending(remaining[n]);
    QuietHasNoPending(PendingOnly(remaining[n]));
    hide Total;
  }

  /** A resume before any barrier, however, starts with no claims at all: it restores the
      fresh claims exactly when no node but the entry is claimed by anyone. */
  lemma ZeroRoundResumeForgetsClaims(g: Graph, resume: ResumeInput)
    requires Built(g) && resume.remainingInDegree == map[] && resume.bySource == None
    ensures forall n | n in g.nodes :: Quiet(ResumedClaims(g, resume)[n])
    ensures (forall n, s | n in g.nodes :: Held(ResumedClaims(g, resume)[n], s) == Held(FreshRun(g).book.remaining[n], s))
      <==> (forall n, s | n in g.nodes && n != g.entry :: !IsClaim(g, s, n))
  {
    forall n, s | n in g.nodes && n != g.entry
      ensures Held(FreshRun(g).book.remaining[n], s) == 0 <==> !IsClaim(g, s, n)
    {
      StaticClaimIff(g, s, n);
    }
    hide StaticClaims, IsClaim;
  }

  // ----- Two runs that go on alike -----

  ghost predicate SameClaims(g: Graph, a: Book, b: Book) {
    && a.remaining.Keys == b.remaining.Keys == (set n | n in g.nodes)
    && forall n, s | n in g.nodes :: Held(a.remaining[n], s) == Held(b.remaining[n], s)
  }

  /** What the resumed book may have forgotten: selections that still wait, or have run. */
  ghost predicate ForgotOnlyWaiting(a: Book, b: Book) {
    && b.selected <= a.selected
    && forall n | n in a.selected && n !in b.selected :: n in a.executed || (n in a.remaining && !Quiet(a.remaining[n]))
  }

  ghost predicate Alike(g: Graph, a: Run, b: Run) {
    && a.state == b.state && a.frontier == b.frontier && a.iterations == b.iterations && a.nodeExecutions == b.nodeExecutions
    && a.status == b.status && a.error == b.error && a.strandedCheck && b.strandedCheck
    && a.book.executed == b.book.executed && SameClaims(g, a.book, b.book) && ForgotOnlyWaiting(a.book, b.book)
  }

  lemma QuietByHeld(m: map<Id, nat>)
    ensures Quiet(m) <==> forall s :: Held(m, s) == 0
  {
    forall s | s in m ensures m[s] == Held(m, s) {}
  }

  lemma AlikeReady(g: Graph, a: Book, b: Book, n: Id)
    requires SameClaims(g, a, b) && a.executed == b.executed && ForgotOnlyWaiting(a, b) && n in g.nodes
    ensures Ready(a, n) <==> Ready(b, n)
  {
    QuietByHeld(a.remaining[n]);
    QuietByHeld(b.remaining[n]);
    assert (forall s :: Held(a.remaining[n], s) == 0) <==> (forall s :: Held(b.remaining[n], s) == 0);
    hide Held, Quiet;
  }

  lemma {:induction false} SameReadyNodes(a: Book, b: Book, nodes: seq<Id>)
    requires forall n | n in nodes :: Ready(a, n) <==> Ready(b, n)
    ensures ReadyNodes(a, nodes) == ReadyNodes(b, nodes)
  {
    hide Ready;
    if nodes != [] {
      var k := |nodes| - 1;
      assert nodes == nodes[..k] + [nodes[k]];
      SameReadyNodes(a, b, nodes[..k]);
    }
  }

  /** Without resets, a barrier keeps two alike books alike. */
  lemma BarrierKeepsAlike(g: Graph, a: Book, b: Book, fired: set<FiredEdge>, a': Book, b': Book)
    requires SameClaims(g, a, b) && a.executed == b.executed && ForgotOnlyWaiting(a, b)
    requires ResetTargets(fired, a.executed) == {}
    requires forall s, n | FiredEdge(s, n, false) in fired :: false
    requires a' == NextBook(g, a, fired) && b' == NextBook(g, b, fired)
    ensures SameClaims(g, a', b') && a'.executed == b'.executed && ForgotOnlyWaiting(a', b')
  {
    assert ResetNodes(g, {}) == {};
    forall n, s | n in g.nodes ensures Held(a'.remaining[n], s) == Held(b'.remaining[n], s) {
      UnresetHeld(g, a, fired, n, s);
      UnresetHeld(g, b, fired, n, s);
    }
    assert a'.selected == a.selected + NewlyRouted({}, {}, fired) && b'.selected == b.selected + NewlyRouted({}, {}, fired);
    assert a'.executed == a.executed;
    forall n | n in a'.selected && n !in b'.selected
      ensures n in a'.executed || (n in a'.remaining && !Quiet(a'.remaining[n]))
    {
      assert n in a.selected && n !in b.selected && n !in NewlyRouted({}, {}, fired);
      if n !in a.executed {
        var s :| s in a.remaining[n] && a.remaining[n][s] != 0;
        UnresetHeld(g, a, fired, n, s);
        forall m | FiredEdge(s, m, true) in fired ensures m in NewlyRouted({}, {}, fired) {}
        QuietByHeld(a'.remaining[n]);
      }
    }
  }

  lemma UnresetHeld(g: Graph, b: Book, fired: set<FiredEdge>, n: Id, s: Id)
    requires ResetTargets(fired, b.executed) == {} && n in b.remaining
    ensures var next := NextBook(g, b, fired);
      n in next.remaining && Held(next.remaining[n], s) == if FiredBetween(fired, s, n) then 0 else Held(b.remaining[n], s)
  {
    assert ResetNodes(g, {}) == {};
  }

  // ----- Rounds of alike runs -----

  /** A round's outcome does not depend on the last result before it. */
  lemma {:induction false} FinalResultIsCarried(g: Graph, round: nat, base: nat, frontier: seq<Id>, outcomes: seq<Outcome>,
                                                start: Absorption, other: Absorption)
    requires |frontier| == |outcomes| && other == start.(finalResult := other.finalResult)
    ensures var a, b := AbsorbAll(g, round, base, frontier, outcomes, start), AbsorbAll(g, round, base, frontier, outcomes, other);
      b == a.(finalResult := b.finalResult)
  {
    hide Resolve;
    if frontier != [] {
      var k := |frontier| - 1;
      FinalResultIsCarried(g, round, base, frontier[..k], outcomes[..k], start, other);
    }
  }

  /** Direct edges release only what they select. */
  lemma {:induction false} DirectFiresSelected(g: Graph, round: nat, base: nat, frontier: seq<Id>, outcomes: seq<Outcome>, start: Absorption)
    requires Built(g) && DirectOnly(g) && |frontier| == |outcomes| && start.fired == {}
    ensures forall f | f in AbsorbAll(g, round, base, frontier, outcomes, start).fired :: f.selected
  {
    hide Resolve, DirectOnly, Built;
    if frontier != [] {
      var k := |frontier| - 1;
      DirectFiresSelected(g, round, base, frontier[..k], outcomes[..k], start);
      var before := AbsorbAll(g, round, base, frontier[..k], outcomes[..k], start);
      if outcomes[k].Ran? {
        ResolvedIsSelected(g, frontier[k], before.state[frontier[k] := outcomes[k].result], outcomes[k].result);
      }
    }
  }

  lemma ResolvedIsSelected(g: Graph, n: Id, state: State, result: Value)
    requires Built(g) && DirectOnly(g)
    ensures var r := Resolve(g, n, EdgesOf(g, n), state, result);
      r.Routed? && forall m | m in r.resolved :: m in r.selected
  {
    DirectResolution(g, n, state, result);
    ResolveMeaning(g, n, EdgesOf(g, n), state, result);
    var r := Resolve(g, n, EdgesOf(g, n), state, result);
    forall m | m in r.resolved ensures m in r.selected {
      if e :| e in EdgesOf(g, n) && Selectable(g, n, e, m) { assert RoutesTo(e, state, result, m) || e.Conditional?; }
    }
  }

  lemma AlikeRounds(g: Graph, env: Env, a: Run, b: Run)
    requires Built(g) && DirectOnly(g) && Alike(g, a, b)
    ensures var x, y := RoundAbsorption(g, env, a), RoundAbsorption(g, env, b);
      y == x.(finalResult := y.finalResult) && forall f | f in x.fired :: f.selected
  {
    hide Alike, AbsorbAll, DirectOnly, Built;
    AlikeFields(g, a, b);
    var outcomes := Outcomes(env, a.frontier, a.state, a.nodeExecutions);
    var start := Absorption(a.state, [], {}, a.finalResult, None);
    FinalResultIsCarried(g, a.iterations + 1, a.nodeExecutions, a.frontier, outcomes, start, start.(finalResult := b.finalResult));
    DirectFiresSelected(g, a.iterations + 1, a.nodeExecutions, a.frontier, outcomes, start);
  }

  lemma AlikeFields(g: Graph, a: Run, b: Run)
    requires Alike(g, a, b)
    ensures a.state == b.state && a.frontier == b.frontier && a.iterations == b.iterations && a.nodeExecutions == b.nodeExecutions
  {}

  /** With nothing ready, everything has run: nobody is stranded. */
  lemma SweptIsDone(g: Graph, r: Run, k: nat)
    requires Sweepable(g) && Sweeping(g, r, k) && r.frontier == []
    ensures r.book.selected <= r.book.executed
  {
    hide Acyclic, DirectOnly, CounterRule, SweepHistory, Level;
    forall n | n in r.book.selected ensures n in r.book.executed {
      if Level(g, n) >= k {
        var m := LevelsBelowOccur(g, n, k);
        SweepReady(g, r.book, k, m);
      }
    }
  }

  /** The books of alike runs stay alike over a round. */
  lemma TurnKeepsBooksAlike(g: Graph, env: Env, a: Run, b: Run, k: nat)
    requires Sweepable(g) && Sweeping(g, a, k) && Alike(g, a, b) && Advance(g, env, a).Barrier?
    ensures var fired, ran := RoundAbsorption(g, env, a).fired, FrontierSet(a.frontier);
      var a', b' := NextBook(g, a.book.(executed := a.book.executed + ran), fired), NextBook(g, b.book.(executed := b.book.executed + ran), fired);
      && a' == Advance(g, env, a).run.book
      && SameClaims(g, a', b') && a'.executed == b'.executed && ForgotOnlyWaiting(a', b')
      && ReadyNodes(a', g.nodes) == ReadyNodes(b', g.nodes)
  {
    hide Advance, RoundAbsorption, Sweeping, NextBook, Level, Acyclic, DirectOnly, FrontierSet, Reaches, ReadyNodes, Ready,
      SameClaims, ForgotOnlyWaiting, FiresSuccessors;
    var fired, ran := RoundAbsorption(g, env, a).fired, FrontierSet(a.frontier);
    var ax, bx := a.book.(executed := a.book.executed + ran), b.book.(executed := b.book.executed + ran);
    AlikeRounds(g, env, a, b);
    TurnEffect(g, env, a);
    NoResetInSweep(g, env, a, k);
    MoreExecuted(g, a.book, b.book, ran);
    BarrierKeepsAlike(g, ax, bx, fired, NextBook(g, ax, fired), NextBook(g, bx, fired));
    forall n | n in g.nodes { AlikeReady(g, NextBook(g, ax, fired), NextBook(g, bx, fired), n); }
    SameReadyNodes(NextBook(g, ax, fired), NextBook(g, bx, fired), g.nodes);
  }

  lemma MoreExecuted(g: Graph, a: Book, b: Book, ran: set<Id>)
    requires SameClaims(g, a, b) && a.executed == b.executed && ForgotOnlyWaiting(a, b)
    ensures var a', b' := a.(executed := a.executed + ran), b.(executed := b.executed + ran);
      SameClaims(g, a', b') && a'.executed == b'.executed && ForgotOnlyWaiting(a', b')
  {}

  /** The sweep never routes back to a node that ran. */
  lemma NoResetInSweep(g: Graph, env: Env, r: Run, k: nat)
    requires Sweepable(g) && Sweeping(g, r, k) && Advance(g, env, r).Barrier?
    ensures ResetTargets(RoundAbsorption(g, env, r).fired, r.book.executed + FrontierSet(r.frontier)) == {}
  {
    hide Advance, RoundAbsorption, BookInv, CounterRule, Level, Acyclic, DirectOnly, Reaches, SweepHistory, Successors;
    TurnSweeps(g, env, r, k);
    var fired := RoundAbsorption(g, env, r).fired;
    FrontierSetMembers(r.frontier);
    forall n | n in r.frontier ensures Level(g, n) == k { SweepReady(g, r.book, k, n); }
    forall f | f in fired && f.selected ensures f.to !in r.book.executed + FrontierSet(r.frontier) {
      assert FiredEdge(f.from, f.to, true) in fired;
      EdgeRaisesLevel(g, f.from, f.to);
    }
  }

  /** One turn: both runs stop alike, or both reach a barrier and stay alike. */
  lemma TurnKeepsAlike(g: Graph, env: Env, a: Run, b: Run, k: nat)
    requires Sweepable(g) && Sweeping(g, a, k) && Alike(g, a, b)
    ensures Advance(g, env, a).Barrier? <==> Advance(g, env, b).Barrier?
    ensures var x, y := Advance(g, env, a), Advance(g, env, b);
      && |x.run.history| >= |a.history| && |y.run.history| >= |b.history|
      && x.run.history[|a.history|..] == y.run.history[|b.history|..]
      && b.history <= y.run.history && a.history <= x.run.history
      && (if x.Barrier? then Alike(g, x.run, y.run) else SameEnd(x.run, y.run))
  {
    hide RoundAbsorption, NextBook, ReadyNodes, Level, Acyclic, DirectOnly, FrontierSet, Totals, BySourceRecord, NodeEvents,
      SameClaims, ForgotOnlyWaiting, SweepBook, SweepHistory, BookInv;
    AlikeRounds(g, env, a, b);
    if Advance(g, env, a).Barrier? {
      TurnKeepsBooksAlike(g, env, a, b, k);
      TurnSweeps(g, env, a, k);
      if Advance(g, env, a).run.frontier == [] {
        SweptIsDone(g, Advance(g, env, a).run, k + 1);
        ForgottenIsSmaller(Advance(g, env, a).run.book, Advance(g, env, b).run.book);
      }
    }
  }

  lemma ForgottenIsSmaller(a: Book, b: Book)
    requires ForgotOnlyWaiting(a, b) && a.executed == b.executed && a.selected <= a.executed
    ensures a.selected - a.executed == {} && b.selected - b.executed == {}
  {}

  /** How two runs that are alike can end: with the same outcome, state and counters. */
  predicate SameEnd(a: Run, b: Run) {
    && a.state == b.state && a.frontier == b.frontier && a.iterations == b.iterations && a.nodeExecutions == b.nodeExecutions
    && a.status == b.status && a.error == b.error
  }

  /** Alike runs reach the same barriers, with the same frontiers and states. */
  lemma {:induction false} AlikeBarriers(g: Graph, env: Env, a: Run, b: Run, k: nat, j: nat)
    requires Sweepable(g) && Sweeping(g, a, k) && Alike(g, a, b)
    ensures AfterBarriers(g, env, a, j).Some? <==> AfterBarriers(g, env, b, j).Some?
    ensures AfterBarriers(g, env, a, j).Some? ==>
      Sweeping(g, AfterBarriers(g, env, a, j).value, k + j)
      && Alike(g, AfterBarriers(g, env, a, j).value, AfterBarriers(g, env, b, j).value)
  {
    hide Advance, Sweeping, Alike, Sweepable;
    if j > 0 {
      AlikeBarriers(g, env, a, b, k, j - 1);
      if AfterBarriers(g, env, a, j - 1).Some? {
        var x, y := AfterBarriers(g, env, a, j - 1).value, AfterBarriers(g, env, b, j - 1).value;
        TurnKeepsAlike(g, env, x, y, k + j - 1);
        if Advance(g, env, x).Barrier? { TurnSweeps(g, env, x, k + j - 1); }
      }
    }
  }

  /** Alike runs end alike, and run the same nodes with the same results on the way. */
  lemma {:induction false} AlikeRunsEndAlike(g: Graph, env: Env, a: Run, b: Run, k: nat)
    requires Sweepable(g) && Sweeping(g, a, k) && Alike(g, a, b)
    ensures var x, y := RunFrom(g, env, a), RunFrom(g, env, b);
      SameEnd(x, y) && a.history <= x.history && b.history <= y.history
      && x.history[|a.history|..] == y.history[|b.history|..]
    decreases env.maxRounds - a.iterations
  {
    hide Advance, Sweeping, Alike, Sweepable, SameEnd;
    TurnKeepsAlike(g, env, a, b, k);
    var x, y := Advance(g, env, a), Advance(g, env, b);
    if x.Barrier? {
      AdvanceCounts(g, env, a);
      TurnSweeps(g, env, a, k);
      AlikeRunsEndAlike(g, env, x.run, y.run, k + 1);
      SuffixCompose(a.history, x.run.history, RunFrom(g, env, a).history, b.history, y.run.history, RunFrom(g, env, b).history);
    }
  }

  lemma SuffixCompose<T>(a: seq<T>, a': seq<T>, a'': seq<T>, b: seq<T>, b': seq<T>, b'': seq<T>)
    requires a <= a' <= a'' && b <= b' <= b''
    requires a'[|a|..] == b'[|b|..] && a''[|a'|..] == b''[|b'|..]
    ensures a <= a'' && b <= b'' && a''[|a|..] == b''[|b|..]
  {
    assert a''[|a|..] == a'[|a|..] + a''[|a'|..];
    assert b''[|b|..] == b'[|b|..] + b''[|b'|..];
  }

  // ----- The theorem -----

  lemma LoadedClaims(g: Graph, remaining: PendingClaims, input: ResumeInput)
    requires remaining.Keys == (set n | n in g.nodes)
    requires input.remainingInDegree == Totals(remaining) && input.bySource == Some(BySourceRecord(remaining))
    ensures ResumedClaims(g, input).Keys == (set n | n in g.nodes)
    ensures forall n, s | n in g.nodes :: Held(remaining[n], s) == Held(ResumedClaims(g, input)[n], s)
  {
    ResumedKeys(g, input);
    hide ResumedClaims, Totals, BySourceRecord;
    forall n, s | n in g.nodes ensures Held(remaining[n], s) == Held(ResumedClaims(g, input)[n], s) {
      ResumeRestoresClaims(g, remaining, input, n, s);
    }
  }

  /** A resumed run selects its frontier only; whatever else was selected has run or still waits. */
  lemma LoadedForgets(g: Graph, live: Run)
    requires RunInv(g, live)
    ensures var b := Book(live.book.remaining, live.book.executed - FrontierSet(live.frontier), FrontierSet(live.frontier));
      b.executed == live.book.executed && ForgotOnlyWaiting(live.book, b)
  {
    hide NodeClaimsOk;
    FrontierSetMembers(live.frontier);
    forall n | n in live.frontier ensures n in live.book.selected && n !in live.book.executed { ReadyParts(live.book, n); }
    assert live.book.executed - FrontierSet(live.frontier) == live.book.executed;
    forall n | n in live.book.selected && n !in live.frontier
      ensures n in live.book.executed || (n in live.book.remaining && !Quiet(live.book.remaining[n]))
    {
      ReadyParts(live.book, n);
    }
  }

  /** What the loader hands to a resumed run is alike to the barrier it was cut from. */
  lemma LoadedIsAlike(g: Graph, live: Run, resume: ResumeState, k: nat)
    requires Sweepable(g) && Sweeping(g, live, k) && HeadStatus(live) && live.strandedCheck
    requires resume.state == live.state && resume.frontier == live.frontier
    requires resume.completedRounds == live.iterations && resume.completedNodeExecutions == live.nodeExecutions
    requires resume.executed == NodesOf(live.history)
    requires resume.remainingInDegree == Totals(live.book.remaining) && resume.bySource == Some(BySourceRecord(live.book.remaining))
    ensures Alike(g, live, ResumedRun(g, ResumeInputOf(resume)))
  {
    hide Level, Acyclic, DirectOnly, CounterRule, Totals, BySourceRecord, Ready, ResumedClaims, NodeClaimsOk, Held, ForgotOnlyWaiting;
    LoadedClaims(g, live.book.remaining, ResumeInputOf(resume));
    LoadedForgets(g, live);
    RanIsExecuted(g, live, k);
    ForgetsBySelection(live.book, Book(live.book.remaining, live.book.executed, FrontierSet(live.frontier)),
                       ResumedRun(g, ResumeInputOf(resume)).book);
    if live.frontier == [] { SweptIsDone(g, live, k); }
  }

  lemma ForgetsBySelection(a: Book, b: Book, c: Book)
    requires ForgotOnlyWaiting(a, b) && b.selected == c.selected
    ensures ForgotOnlyWaiting(a, c)
  {}

  lemma ReadyParts(b: Book, n: Id)
    ensures Ready(b, n) <==> n in b.remaining && Quiet(b.remaining[n]) && n in b.selected && n !in b.executed
  {}

  lemma ResumedKeys(g: Graph, input: ResumeInput)
    ensures ResumedClaims(g, input).Keys == (set n | n in g.nodes)
  {}

  lemma RanIsExecuted(g: Graph, r: Run, k: nat)
    requires Sweepable(g) && Sweeping(g, r, k)
    ensures NodesOf(r.history) == r.book.executed
  {
    hide Level, Acyclic, DirectOnly, CounterRule, BookInv;
    forall n ensures n in NodesOf(r.history) <==> n in r.book.executed {
      if n in NodesOf(r.history) {
        var e :| e in r.history && e.node == n;
      }
      if n in Below(g, k) {
        assert n in PathOf(r.history);
        var i :| 0 <= i < |r.history| && r.history[i].node == n;
        assert r.history[i] in r.history;
      }
    }
  }

  /** Crash at any journal record after the first barrier, load, and resume in the same world:
      the run ends with the status, error, state, rounds and counters of the run that never
      crashed; what was loaded plus what is run again makes up its history; and every remaining
      barrier has the same frontier and state. */
  lemma ResumeEqualsNoCrash(g: Graph, env: Env, header: Record, seen: seq<Event>)
    requires Sweepable(g) && header.Header? && header.entry == g.entry && header.initialState == g.initialState
    requires seen <= RunFrom(g, env, FreshRun(g)).events && BarriersIn(seen) >= 1
    ensures Load([header] + RecordsOf(seen), header.scriptHash).Loaded?
    ensures var loaded := Load([header] + RecordsOf(seen), header.scriptHash).resume;
      var full, resumed := RunFrom(g, env, FreshRun(g)), RunFrom(g, env, ResumedRun(g, ResumeInputOf(loaded)));
      SameEnd(full, resumed) && full.history == loaded.executions + resumed.history
    ensures var loaded := Load([header] + RecordsOf(seen), header.scriptHash).resume;
      var start := ResumedRun(g, ResumeInputOf(loaded));
      forall j: nat ::
        var x, y := AfterBarriers(g, env, FreshRun(g), BarriersIn(seen) + j), AfterBarriers(g, env, start, j);
        (x.Some? <==> y.Some?) && (x.Some? ==> SameEnd(x.value, y.value))
  {
    hide Advance, Sweeping, Alike, DirectOnly, Acyclic, Load, RunFrom, HeadStatus, Totals, BySourceRecord;
    var k := FreshCrashReplays(g, env, header, seen);
    var loaded := Load([header] + RecordsOf(seen), header.scriptHash).resume;
    var live := AfterBarriers(g, env, FreshRun(g), k).value;
    LoadedNodes([header] + RecordsOf(seen), header.scriptHash);
    EveryBarrierSweeps(g, env, k);
    EveryBarrierStatus(g, env, k);
    LoadedIsAlike(g, live, loaded, k);
    var start := ResumedRun(g, ResumeInputOf(loaded));
    AlikeRunsEndAlike(g, env, live, start, k);
    RunFromBarrier(g, env, FreshRun(g), k);
    HistoryTail(live.history, RunFrom(g, env, FreshRun(g)).history, RunFrom(g, env, start).history);
    forall j: nat
      ensures var x, y := AfterBarriers(g, env, FreshRun(g), BarriersIn(seen) + j), AfterBarriers(g, env, start, j);
        (x.Some? <==> y.Some?) && (x.Some? ==> SameEnd(x.value, y.value))
    {
      AlikeBarriers(g, env, live, start, k, j);
      BarriersAdd(g, env, FreshRun(g), k, j);
      if AfterBarriers(g, env, start, j).Some? {
        AlikeIsSameEnd(g, AfterBarriers(g, env, live, j).value, AfterBarriers(g, env, start, j).value);
      }
    }
  }

  lemma LoadedNodes(records: seq<Record>, scriptHash: string)
    ensures Load(records, scriptHash).Loaded? ==>
      Load(records, scriptHash).resume.executed == NodesOf(Load(records, scriptHash).resume.executions)
  {}

  lemma AlikeIsSameEnd(g: Graph, a: Run, b: Run)
    requires Alike(g, a, b)
    ensures SameEnd(a, b)
  {}

  lemma HistoryTail<T>(live: seq<T>, full: seq<T>, resumed: seq<T>)
    requires live <= full && full[|live|..] == resumed[0..]
    ensures full == live + resumed
  {
    assert resumed[0..] == resumed;
  }

  lemma {:induction false} BarriersAdd(g: Graph, env: Env, r: Run, k: nat, j: nat)
    requires AfterBarriers(g, env, r, k).Some?
    ensures AfterBarriers(g, env, r, k + j) == AfterBarriers(g, env, AfterBarriers(g, env, r, k).value, j)
  {
    hide Advance;
    if j > 0 { BarriersAdd(g, env, r, k, j - 1); }
  }
}
