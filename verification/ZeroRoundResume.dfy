/** Resuming a run of which no round was completed: it starts over, but without claims. */
module ZeroRoundResume {
  import opened Values
  import opened Collections
  import opened Graphs
  import opened Claims
  import opened Frontier
  import opened Runs
  import opened Executor
  import opened WaveReset
  import opened Stranding
  import opened Sequential
  import opened Topological
  import opened Journal
  import opened CrashReplay
  import opened ResumeEquivalence

  /** What the loader makes of a journal without a round record. */
  function ZeroInput(g: Graph): ResumeInput {
    ResumeInput(g.initialState, [g.entry], map[], None, 0, 0, {}, [])
  }

  function ZeroRun(g: Graph): Run {
    ResumedRun(g, ZeroInput(g))
  }

  /** A crash anywhere before the first barrier leads to this resume. */
  lemma CrashBeforeBarrier(g: Graph, env: Env, header: Record, seen: seq<Event>)
    requires Built(g) && header.Header? && header.entry == g.entry && header.initialState == g.initialState
    requires seen <= RunFrom(g, env, FreshRun(g)).events && BarriersIn(seen) == 0
    ensures Load([header] + RecordsOf(seen), header.scriptHash).Loaded?
    ensures ResumeInputOf(Load([header] + RecordsOf(seen), header.scriptHash).resume) == ZeroInput(g)
  {
    hide Load, RunFrom, Advance, StaticClaims;
    var k := FreshCrashReplays(g, env, header, seen);
    LoadedNodes([header] + RecordsOf(seen), header.scriptHash);
  }

  // ----- No claim ever appears -----

  ghost predicate Unclaimed(g: Graph, b: Book) {
    && b.remaining.Keys == (set n | n in g.nodes)
    && (forall n | n in b.remaining :: b.remaining[n] == map[])
    && b.executed <= b.selected && forall n | n in b.selected :: n in g.nodes
  }

  ghost predicate ZeroInv(g: Graph, r: Run) {
    && Unclaimed(g, r.book) && r.frontier == ReadyNodes(r.book, g.nodes)
    && r.status == Completed && r.error == None && !r.strandedCheck
  }

  lemma UnclaimedReady(g: Graph, b: Book, n: Id)
    requires Unclaimed(g, b)
    ensures Ready(b, n) <==> n in b.selected && n !in b.executed
  {
  }

  lemma UnclaimedStep(g: Graph, b: Book, ran: set<Id>, fired: set<FiredEdge>)
    requires Unclaimed(g, b) && ran <= b.selected
    requires forall f | f in fired && f.selected :: f.to in g.nodes
    ensures Unclaimed(g, NextBook(g, b.(executed := b.executed + ran), fired))
  {
    var b' := b.(executed := b.executed + ran);
    var next := NextBook(g, b', fired);
    forall n | n in next.remaining ensures next.remaining[n] == map[] {
      assert b.remaining[n] == map[];
    }
  }

  lemma ZeroTurn(g: Graph, env: Env, r: Run)
    requires Built(g) && ZeroInv(g, r) && Advance(g, env, r).Barrier?
    ensures ZeroInv(g, Advance(g, env, r).run)
  {
    hide NextBook, RoundAbsorption, Unclaimed, Built, FrontierSet, IsClaim, RecordsRound, FiredBetween, Advance;
    RoundFacts(g, env, r);
    TurnEffect(g, env, r);
    ZeroFrontier(g, r);
    UnclaimedStep(g, r.book, FrontierSet(r.frontier), RoundAbsorption(g, env, r).fired);
    UncheckedStatus(g, env, r);
  }

  lemma ZeroFrontier(g: Graph, r: Run)
    requires ZeroInv(g, r)
    ensures FrontierSet(r.frontier) == r.book.selected - r.book.executed
    ensures FrontierSet(r.frontier) <= r.book.selected
  {
    forall n ensures n in r.frontier <==> n in r.book.selected && n !in r.book.executed {
      UnclaimedReady(g, r.book, n);
    }
  }

  lemma UncheckedStatus(g: Graph, env: Env, r: Run)
    requires Advance(g, env, r).Barrier? && !r.strandedCheck
    ensures var next := Advance(g, env, r).run;
            next.status == r.status && next.error == r.error && !next.strandedCheck
  {
    hide RoundAbsorption, NextBook, ReadyNodes, Totals, BySourceRecord, NodeEvents, FrontierSet;
  }

  lemma ZeroStarts(g: Graph)
    requires Built(g)
    ensures ZeroInv(g, ZeroRun(g))
  {
    var b := ZeroRun(g).book;
    assert FrontierSet([g.entry]) == {g.entry};
    forall n ensures Ready(b, n) <==> n == g.entry {}
    OnlyReady(b, g.nodes, g.entry);
  }

  /** On any graph: at every barrier of such a resume nobody claims anything, so that a node runs as soon as
      anything routes to it, whether or not its other predecessors have run. */
  lemma {:induction false} NoClaimsEver(g: Graph, env: Env, k: nat)
    requires Built(g) && AfterBarriers(g, env, ZeroRun(g), k).Some?
    ensures var r := AfterBarriers(g, env, ZeroRun(g), k).value;
            ZeroInv(g, r) && FrontierSet(r.frontier) == r.book.selected - r.book.executed
  {
    hide Advance, ZeroInv, ZeroRun;
    if k == 0 {
      ZeroStarts(g);
    } else {
      NoClaimsEver(g, env, k - 1);
      ZeroTurn(g, env, AfterBarriers(g, env, ZeroRun(g), k - 1).value);
    }
    ZeroFrontier(g, AfterBarriers(g, env, ZeroRun(g), k).value);
  }

  // ----- When it makes no difference -----

  /** Every edge that leaves level k goes to the very next level. */
  ghost predicate UnitAt(g: Graph, k: int) {
    forall u, v | v in Successors(g, u) && Level(g, u) == k :: Level(g, v) == k + 1
  }

  /** The resumed run stands where the sweep stands. */
  ghost predicate Stage(g: Graph, r: Run, k: nat) {
    ZeroInv(g, r) && r.book.executed == Below(g, k) && r.book.selected == Below(g, k + 1)
  }

  lemma StageFrontier(g: Graph, r: Run, k: nat, n: Id)
    requires Stage(g, r, k)
    ensures n in r.frontier <==> n in g.nodes && Level(g, n) == k
  {
    hide Level;
    UnclaimedReady(g, r.book, n);
  }

  /** One round from there: no resets; whatever it routes to is in the next frontier. */
  lemma StageBook(g: Graph, b: Book, ran: set<Id>, fired: set<FiredEdge>, k: nat)
    requires Sweepable(g) && Unclaimed(g, b) && b.executed == Below(g, k) && b.selected == Below(g, k + 1)
    requires forall n :: n in ran <==> n in g.nodes && Level(g, n) == k
    requires FiresSuccessors(g, ran, fired)
    ensures var next := NextBook(g, b.(executed := b.executed + ran), fired);
            next.executed == Below(g, k + 1) &&
            forall v :: v in next.selected <==> v in Below(g, k + 1) || exists u :: u in ran && v in Successors(g, u)
  {
    hide Level, Successors, Reaches, SettledClaims, Acyclic, DirectOnly;
    var executed := b.executed + ran;
    assert executed == Below(g, k + 1);
    forall f | f in fired && f.selected ensures f.to !in executed {
      assert FiredEdge(f.from, f.to, true) in fired;
      EdgeRaisesLevel(g, f.from, f.to);
    }
    assert ResetTargets(fired, executed) == {};
    assert ResetNodes(g, {}) == {};
    var next := NextBook(g, b.(executed := executed), fired);
    assert next.selected == b.selected + NewlyRouted({}, {}, fired);
    forall v ensures v in NewlyRouted({}, {}, fired) <==> exists u :: u in ran && v in Successors(g, u) {
      if f :| f in fired && f.selected && f.to == v { assert FiredEdge(f.from, v, true) in fired; }
      if u :| u in ran && v in Successors(g, u) { assert FiredEdge(u, v, true) in fired; }
    }
  }

  lemma StageTurn(g: Graph, env: Env, r: Run, k: nat)
    requires Sweepable(g) && Stage(g, r, k) && Advance(g, env, r).Barrier?
    ensures var next := Advance(g, env, r).run;
            (UnitAt(g, k) ==> Stage(g, next, k + 1)) &&
            forall u, v | v in Successors(g, u) && Level(g, u) == k :: v in next.frontier
  {
    hide Advance, RoundAbsorption, NextBook, Level, Successors, Acyclic, DirectOnly, ReadyNodes, FiresSuccessors,
      Totals, BySourceRecord, NodeEvents;
    TurnEffect(g, env, r);
    ZeroTurn(g, env, r);
    StageDistinct(g, r);
    TurnFires(g, env, r);
    forall n { StageFrontier(g, r, k, n); }
    var next := Advance(g, env, r).run;
    StageBook(g, r.book, FrontierSet(r.frontier), RoundAbsorption(g, env, r).fired, k);
    if UnitAt(g, k) { UnitSelected(g, next.book, FrontierSet(r.frontier), k); }
    forall u, v | v in Successors(g, u) && Level(g, u) == k ensures v in next.frontier {
      SuccessorIsNode(g, u, v);
      EdgeRaisesLevel(g, u, v);
      UnclaimedReady(g, next.book, v);
      InReady(next.book, g.nodes, v);
    }
  }

  lemma InReady(b: Book, nodes: seq<Id>, n: Id)
    ensures n in ReadyNodes(b, nodes) <==> n in nodes && Ready(b, n)
  {
  }

  lemma StageDistinct(g: Graph, r: Run)
    requires Built(g) && ZeroInv(g, r)
    ensures Distinct(r.frontier)
  {
    hide Distinct, Unclaimed;
  }

  lemma UnitSelected(g: Graph, next: Book, ran: set<Id>, k: nat)
    requires Sweepable(g) && UnitAt(g, k) && forall n :: n in ran <==> n in g.nodes && Level(g, n) == k
    requires forall v :: v in next.selected <==> v in Below(g, k + 1) || exists u :: u in ran && v in Successors(g, u)
    ensures next.selected == Below(g, k + 2)
  {
    EntryLevel(g);
    hide Level, Successors, Sweepable;
    forall v ensures v in next.selected <==> v in Below(g, k + 2) {
      if v in Below(g, k + 2) && v !in Below(g, k + 1) {
        var p := LevelPredecessor(g, v);
        assert p in ran;
      }
      if u :| u in ran && v in Successors(g, u) { SuccessorIsNode(g, u, v); }
    }
  }

  lemma StageStarts(g: Graph)
    requires Sweepable(g)
    ensures Stage(g, ZeroRun(g), 0)
  {
    ZeroStarts(g);
    EntryLevel(g);
    hide Level, ZeroInv, Reaches, DirectOnly, Acyclic;
    assert FrontierSet([g.entry]) == {g.entry};
    assert Below(g, 0) == {};
    forall n | n in Below(g, 1) ensures n == g.entry {
      if n != g.entry { var p := LevelPredecessor(g, n); }
    }
  }

  /** The same in everything but the readiness state and the callbacks made. */
  predicate Twin(a: Run, b: Run) {
    && a.state == b.state && a.history == b.history && a.frontier == b.frontier && a.iterations == b.iterations
    && a.nodeExecutions == b.nodeExecutions && a.finalResult == b.finalResult
    && a.status == b.status && a.error == b.error
  }

  /** The two runs reach the same barriers and end the same. */
  ghost predicate SameRuns(g: Graph, env: Env, a: Run, b: Run) {
    && Twin(RunFrom(g, env, a), RunFrom(g, env, b))
    && forall j: nat ::
         var x, y := AfterBarriers(g, env, a, j), AfterBarriers(g, env, b, j);
         (x.Some? <==> y.Some?) && (x.Some? ==> Twin(x.value, y.value))
  }

  lemma TwinFrontier(g: Graph, a: Run, b: Run, k: nat)
    requires Sweepable(g) && Sweeping(g, a, k) && Stage(g, b, k)
    ensures a.frontier == b.frontier
  {
    hide Level, Acyclic, DirectOnly, BookInv, SweepHistory, SweepBook, Below, Unclaimed, Ready;
    forall n | n in g.nodes ensures Ready(a.book, n) <==> Ready(b.book, n) {
      SweepReady(g, a.book, k, n);
      StageFrontier(g, b, k, n);
      InReady(b.book, g.nodes, n);
    }
    SameReadyNodes(a.book, b.book, g.nodes);
  }

  lemma TwinTurn(g: Graph, env: Env, a: Run, b: Run)
    requires Twin(a, b)
    ensures var x, y := Advance(g, env, a), Advance(g, env, b);
            (x.Barrier? <==> y.Barrier?) && (!x.Barrier? ==> Twin(x.run, y.run))
    ensures var x, y := Advance(g, env, a), Advance(g, env, b);
            x.Barrier? ==>
              x.run.state == y.run.state && x.run.history == y.run.history && x.run.iterations == y.run.iterations &&
              x.run.nodeExecutions == y.run.nodeExecutions && x.run.finalResult == y.run.finalResult
  {
    hide AbsorbAll, NextBook, ReadyNodes, Totals, BySourceRecord, NodeEvents, FrontierSet, Outcomes;
  }

  /** A turn from equal places, if the edges of this level go to the next. */
  lemma TwinStep(g: Graph, env: Env, a: Run, b: Run, k: nat)
    requires Sweepable(g) && Sweeping(g, a, k) && Stage(g, b, k) && Twin(a, b)
    requires HeadStatus(a) && a.strandedCheck && UnitAt(g, k) && Advance(g, env, a).Barrier?
    ensures Advance(g, env, b).Barrier?
    ensures var x, y := Advance(g, env, a).run, Advance(g, env, b).run;
            Sweeping(g, x, k + 1) && Stage(g, y, k + 1) && Twin(x, y) && HeadStatus(x) && x.strandedCheck
  {
    hide Advance, Sweeping, Stage, Acyclic, DirectOnly, UnitAt, HeadStatus;
    TwinTurn(g, env, a, b);
    TurnSweeps(g, env, a, k);
    StageTurn(g, env, b, k);
    TurnKeepsStatus(g, env, a);
    var x, y := Advance(g, env, a).run, Advance(g, env, b).run;
    TwinFrontier(g, x, y, k + 1);
    CompletedHeads(g, x, y, k + 1);
  }

  lemma CompletedHeads(g: Graph, x: Run, y: Run, k: nat)
    requires Sweepable(g) && Sweeping(g, x, k) && Stage(g, y, k) && HeadStatus(x)
    ensures x.status == Completed && x.error == None && y.status == Completed && y.error == None
  {
    hide RunInv, SweepBook, SweepHistory, Acyclic, DirectOnly, Below;
    if x.frontier == [] { SweptIsDone(g, x, k); }
  }

  lemma {:induction false} TwinBarriers(g: Graph, env: Env, j: nat)
    requires Sweepable(g) && forall k | 0 <= k < env.maxRounds :: UnitAt(g, k)
    ensures var x, y := AfterBarriers(g, env, FreshRun(g), j), AfterBarriers(g, env, ZeroRun(g), j);
            (x.Some? <==> y.Some?) &&
            (x.Some? ==> Twin(x.value, y.value) && Sweeping(g, x.value, j) && Stage(g, y.value, j) &&
                         HeadStatus(x.value) && x.value.strandedCheck)
  {
    hide Advance, Sweeping, Stage, Acyclic, DirectOnly, UnitAt, HeadStatus;
    if j == 0 {
      FreshSweeps(g);
      StageStarts(g);
      TwinStarts(g);
      EveryBarrierStatus(g, env, 0);
    } else {
      TwinBarriers(g, env, j - 1);
      var x, y := AfterBarriers(g, env, FreshRun(g), j - 1), AfterBarriers(g, env, ZeroRun(g), j - 1);
      if x.Some? {
        TwinTurn(g, env, x.value, y.value);
        if Advance(g, env, x.value).Barrier? {
          AdvanceCounts(g, env, x.value);
          SweepingCounts(g, x.value, j - 1);
          TwinStep(g, env, x.value, y.value, j - 1);
        }
      }
    }
  }

  lemma SweepingCounts(g: Graph, r: Run, k: nat)
    requires Sweeping(g, r, k)
    ensures r.iterations == k
  {
  }

  lemma TwinStarts(g: Graph)
    requires Built(g)
    ensures Twin(FreshRun(g), ZeroRun(g))
  {
    hide StaticClaims;
  }

  lemma {:induction false} FreshReaches(g: Graph, env: Env, u: Id, k: nat)
    requires Sweepable(g) && Calm(env) && u in g.nodes && k <= Level(g, u) + 1 && k <= env.maxRounds
    ensures AfterBarriers(g, env, FreshRun(g), k).Some?
  {
    hide Advance, Level, Acyclic, DirectOnly, RunInv, SweepBook, SweepHistory, Calm;
    if k > 0 {
      FreshReaches(g, env, u, k - 1);
      EveryBarrierSweeps(g, env, k - 1);
      var r := AfterBarriers(g, env, FreshRun(g), k - 1).value;
      var m := LevelsBelowOccur(g, u, k - 1);
      SweepingFrontier(g, r, k - 1, m);
      assert r.frontier != [];
      SweepingDistinct(g, r, k - 1);
      CalmTurn(g, env, r);
    }
  }

  lemma SweepingFrontier(g: Graph, r: Run, k: nat, n: Id)
    requires Sweepable(g) && Sweeping(g, r, k)
    ensures n in r.frontier <==> n in g.nodes && Level(g, n) == k
  {
    hide Level, Acyclic, DirectOnly, BookInv, SweepHistory, SweepBook, Ready;
    if n in g.nodes { SweepReady(g, r.book, k, n); }
    InReady(r.book, g.nodes, n);
  }

  /** Runs with the same barriers: up to each of them the resumed run is a stage of the sweep, and the edges
      that leave a level go to the next. */
  lemma {:induction false} AgreementIsStage(g: Graph, env: Env, k: nat)
    requires Sweepable(g) && Calm(env) && SameRuns(g, env, FreshRun(g), ZeroRun(g))
    requires AfterBarriers(g, env, FreshRun(g), k).Some?
    ensures AfterBarriers(g, env, ZeroRun(g), k).Some? && Stage(g, AfterBarriers(g, env, ZeroRun(g), k).value, k)
    decreases k, 0
  {
    hide Advance, Stage, Acyclic, DirectOnly, UnitAt, ZeroRun, FreshRun;
    assert AfterBarriers(g, env, ZeroRun(g), k).Some?;
    if k == 0 {
      StageStarts(g);
    } else {
      AgreementIsStage(g, env, k - 1);
      BarrierUnderCap(g, env, k);
      AgreementIsUnit(g, env, k - 1);
      StageTurn(g, env, AfterBarriers(g, env, ZeroRun(g), k - 1).value, k - 1);
    }
  }

  lemma BarrierUnderCap(g: Graph, env: Env, k: nat)
    requires Sweepable(g) && k > 0 && AfterBarriers(g, env, FreshRun(g), k).Some?
    ensures k <= env.maxRounds
  {
    hide Advance, Acyclic, DirectOnly, RunInv, SweepBook, SweepHistory;
    EveryBarrierSweeps(g, env, k - 1);
    AdvanceCounts(g, env, AfterBarriers(g, env, FreshRun(g), k - 1).value);
  }

  lemma {:induction false} AgreementIsUnit(g: Graph, env: Env, k: nat)
    requires Sweepable(g) && Calm(env) && SameRuns(g, env, FreshRun(g), ZeroRun(g)) && k < env.maxRounds
    ensures UnitAt(g, k)
    decreases k, 1
  {
    hide Advance, Stage, Acyclic, DirectOnly, Level, Successors, Calm, Sweeping, Twin, RunFrom, ZeroRun, FreshRun;
    forall u, v | v in Successors(g, u) && Level(g, u) == k ensures Level(g, v) == k + 1 {
      SuccessorIsNode(g, u, v);
      FreshReaches(g, env, u, k + 1);
      FreshReaches(g, env, u, k);
      AgreementIsStage(g, env, k);
      assert AfterBarriers(g, env, ZeroRun(g), k + 1).Some?;
      StageTurn(g, env, AfterBarriers(g, env, ZeroRun(g), k).value, k);
      var x, y := AfterBarriers(g, env, FreshRun(g), k + 1).value, AfterBarriers(g, env, ZeroRun(g), k + 1).value;
      assert v in y.frontier;
      SameFrontier(x, y);
      EveryBarrierSweeps(g, env, k + 1);
      SweepingFrontier(g, x, k + 1, v);
    }
  }

  lemma SameFrontier(x: Run, y: Run)
    ensures Twin(x, y) ==> x.frontier == y.frontier
  {
  }

  /** The exact condition. On a validated acyclic graph of direct edges with no failing node, resuming without
      a completed round gives the barriers, history and end of the fresh run if and only if every edge within
      the cap goes from one level to the very next. */
  lemma ZeroRoundResumeIff(g: Graph, env: Env)
    requires Sweepable(g) && Calm(env)
    ensures SameRuns(g, env, FreshRun(g), ZeroRun(g)) <==> forall k | 0 <= k < env.maxRounds :: UnitAt(g, k)
  {
    hide Sweepable, Calm, UnitAt, Twin, FreshRun, ZeroRun, Advance, Sweeping, Stage, HeadStatus;
    FreshIsDefined(g);
    if SameRuns(g, env, FreshRun(g), ZeroRun(g)) {
      forall k: int | 0 <= k < env.maxRounds ensures UnitAt(g, k) { AgreementIsUnit(g, env, k); }
    } else if forall k | 0 <= k < env.maxRounds :: UnitAt(g, k) {
      forall j: nat { TwinBarriers(g, env, j); }
      var k, last := RunEnds(g, env, FreshRun(g));
      TwinBarriers(g, env, k);
      TwinTurn(g, env, last, AfterBarriers(g, env, ZeroRun(g), k).value);
      RunFromBarrier(g, env, ZeroRun(g), k);
      EndsHere(g, env, AfterBarriers(g, env, ZeroRun(g), k).value);
    }
  }

  lemma FreshIsDefined(g: Graph)
    requires Sweepable(g)
    ensures g.entry in g.nodes && Built(g)
  {
  }

  lemma EndsHere(g: Graph, env: Env, r: Run)
    requires !Advance(g, env, r).Barrier?
    ensures RunFrom(g, env, r) == Advance(g, env, r).run
  {
    hide Advance;
  }

  // ----- A run that it spoils -----

  const A := Id("a")
  const B := Id("b")
  const D := Id("d")

  /** a leads to b and to d, b leads to d. */
  const SHORTCUT := Graph(
    [A, B, D],
    map[A := [Direct(To(B)), Direct(To(D))], B := [Direct(To(D))], D := [Direct(End)]],
    A, map[], map[])

  lemma ShortcutFacts()
    ensures Built(SHORTCUT) && DirectOnly(SHORTCUT) && SHORTCUT.nodes == [A, B, D] && A != B && A != D && B != D
    ensures Successors(SHORTCUT, A) == {B, D} && Successors(SHORTCUT, B) == {D} && Successors(SHORTCUT, D) == {}
  {
    assert A.name == "a" && B.name == "b" && D.name == "d";
    assert "a"[0] == 'a' && "b"[0] == 'b' && "d"[0] == 'd';
    forall n ensures n in SHORTCUT.edges <==> n in SHORTCUT.nodes {}
    DirectSuccessors(SHORTCUT, A, [Direct(To(B)), Direct(To(D))], {B, D});
    DirectSuccessors(SHORTCUT, B, [Direct(To(D))], {D});
    DirectSuccessors(SHORTCUT, D, [Direct(End)], {});
  }

  /** Where the resumed run stands: what has run, what is selected, and the nodes run so far. */
  ghost predicate At(r: Run, executed: set<Id>, selected: set<Id>, path: seq<Id>) {
    ZeroInv(SHORTCUT, r) && r.book.executed == executed && r.book.selected == selected && PathOf(r.history) == path
  }

  /** One round: the nodes that run, what they fire, and the book it leaves. */
  lemma ShortcutTurn(r: Run, executed: set<Id>, selected: set<Id>, path: seq<Id>)
    requires At(r, executed, selected, path) && executed < selected && r.iterations < 45
    ensures Advance(SHORTCUT, CALM_WORLD, r).Barrier?
    ensures var next, fired := Advance(SHORTCUT, CALM_WORLD, r).run, RoundAbsorption(SHORTCUT, CALM_WORLD, r).fired;
            ZeroInv(SHORTCUT, next) && next.iterations == r.iterations + 1 &&
            FiresSuccessors(SHORTCUT, selected - executed, fired) &&
            next.book == NextBook(SHORTCUT, r.book.(executed := selected), fired) &&
            PathOf(next.history) == path + r.frontier
    ensures forall n :: n in r.frontier <==> n in selected && n !in executed
    ensures Distinct(r.frontier)
  {
    hide Advance, RoundAbsorption, NextBook, ReadyNodes, AbsorbAll, Unclaimed, FrontierSet, Distinct, Built, DirectOnly,
      FiresSuccessors;
    ShortcutFacts();
    ZeroFrontier(SHORTCUT, r);
    StageDistinct(SHORTCUT, r);
    FrontierSetMembers(r.frontier);
    var n :| n in selected && n !in executed;
    assert n in r.frontier && Distinct(r.frontier);
    CalmTurn(SHORTCUT, CALM_WORLD, r);
    TurnEffect(SHORTCUT, CALM_WORLD, r);
    ZeroTurn(SHORTCUT, CALM_WORLD, r);
    TurnFires(SHORTCUT, CALM_WORLD, r);
    RoundFacts(SHORTCUT, CALM_WORLD, r);
    var done := RoundAbsorption(SHORTCUT, CALM_WORLD, r).done;
    forall i | 0 <= i < |done| ensures done[i].node == r.frontier[i] {
      assert Records(done[i], r.frontier[i], r.iterations + 1, r.nodeExecutions + i + 1);
    }
    assert PathOf(done) == r.frontier;
    assert PathOf(r.history + done) == PathOf(r.history) + PathOf(done);
    assert executed + (selected - executed) == selected;
  }

  /** The book after a round whose routes stay among unrun nodes. */
  lemma ForwardBook(b: Book, executed: set<Id>, selected: set<Id>, routed: set<Id>, fired: set<FiredEdge>)
    requires b.executed == selected && b.selected == selected && executed <= selected
    requires FiresSuccessors(SHORTCUT, selected - executed, fired)
    requires forall v :: v in routed <==> exists u :: u in selected - executed && v in Successors(SHORTCUT, u)
    requires routed !! selected
    ensures var next := NextBook(SHORTCUT, b, fired);
            next.executed == selected && next.selected == selected + routed
  {
    hide Successors, SettledClaims;
    forall f | f in fired && f.selected ensures f.to in routed { assert FiredEdge(f.from, f.to, true) in fired; }
    assert ResetTargets(fired, selected) == {} && ResetNodes(SHORTCUT, {}) == {};
    assert NextBook(SHORTCUT, b, fired).selected == b.selected + NewlyRouted({}, {}, fired);
    forall v | v in routed ensures v in NewlyRouted({}, {}, fired) {
      var u :| u in selected - executed && v in Successors(SHORTCUT, u);
      assert FiredEdge(u, v, true) in fired;
    }
  }

  /** The book after the second round, in which b routes back to d. */
  lemma BackToD(b: Book, fired: set<FiredEdge>)
    requires b.executed == {A, B, D} && b.selected == {A, B, D} && FiresSuccessors(SHORTCUT, {B, D}, fired)
    ensures var next := NextBook(SHORTCUT, b, fired);
            next.executed == {A, B} && next.selected == {A, B, D}
  {
    ShortcutFacts();
    OnlyD();
    hide Successors, SettledClaims, Built, Reaches;
    assert FiredEdge(B, D, true) in fired;
    forall f | f in fired && f.selected ensures f.to == D { assert FiredEdge(f.from, f.to, true) in fired; }
    var targets := ResetTargets(fired, b.executed);
    assert targets == {D};
    assert ResetNodes(SHORTCUT, targets) == {D};
  }

  lemma OnlyD()
    ensures Forward(SHORTCUT, D) == {D}
  {
    ShortcutFacts();
    hide Successors, Built, DirectOnly;
    forall n ensures n in Forward(SHORTCUT, D) <==> n == D {
      ReachesSelf(SHORTCUT, D);
      if Reaches(SHORTCUT, D, n) { ClosedUnderReach(SHORTCUT, {D}, D, n); }
    }
  }

  /** A turn between two such places, in which exactly the selected nodes that have not run are run. */
  ghost predicate Moves(r: Run, executed: set<Id>, selected: set<Id>, next: Run, executed': set<Id>, selected': set<Id>) {
    && Advance(SHORTCUT, CALM_WORLD, r) == Barrier(next) && next.iterations == r.iterations + 1
    && At(next, executed', selected', PathOf(r.history) + r.frontier)
    && (forall n :: n in r.frontier <==> n in selected && n !in executed) && Distinct(r.frontier)
  }

  /** First a runs alone. */
  lemma TurnFromEntry(r: Run) returns (next: Run)
    requires At(r, {}, {A}, PathOf(r.history)) && r.iterations < 45
    ensures Moves(r, {}, {A}, next, {A}, {A, B, D})
  {
    hide Advance, NextBook, FiresSuccessors, Successors, RoundAbsorption, Distinct, ZeroInv, Built, DirectOnly;
    ShortcutFacts();
    ShortcutTurn(r, {}, {A}, PathOf(r.history));
    next := Advance(SHORTCUT, CALM_WORLD, r).run;
    ForwardBook(r.book.(executed := {A}), {}, {A}, {B, D}, RoundAbsorption(SHORTCUT, CALM_WORLD, r).fired);
    assert {A} + {B, D} == {A, B, D};
  }

  /** Then b and d together, although b leads to d. */
  lemma TurnFromBoth(r: Run) returns (next: Run)
    requires At(r, {A}, {A, B, D}, PathOf(r.history)) && r.iterations < 45
    ensures Moves(r, {A}, {A, B, D}, next, {A, B}, {A, B, D})
  {
    hide Advance, NextBook, FiresSuccessors, Successors, RoundAbsorption, Distinct, ZeroInv, Built, DirectOnly;
    ShortcutFacts();
    ShortcutTurn(r, {A}, {A, B, D}, PathOf(r.history));
    next := Advance(SHORTCUT, CALM_WORLD, r).run;
    assert {A, B, D} - {A} == {B, D};
    BackToD(r.book.(executed := {A, B, D}), RoundAbsorption(SHORTCUT, CALM_WORLD, r).fired);
  }

  /** And d once more. */
  lemma TurnFromD(r: Run) returns (next: Run)
    requires At(r, {A, B}, {A, B, D}, PathOf(r.history)) && r.iterations < 45
    ensures Moves(r, {A, B}, {A, B, D}, next, {A, B, D}, {A, B, D})
  {
    hide Advance, NextBook, FiresSuccessors, Successors, RoundAbsorption, Distinct, ZeroInv, Built, DirectOnly;
    ShortcutFacts();
    ShortcutTurn(r, {A, B}, {A, B, D}, PathOf(r.history));
    next := Advance(SHORTCUT, CALM_WORLD, r).run;
    ForwardBook(r.book.(executed := {A, B, D}), {A, B}, {A, B, D}, {}, RoundAbsorption(SHORTCUT, CALM_WORLD, r).fired);
    assert {A, B, D} + {} == {A, B, D};
  }

  /** Resumed without a completed round, d runs together with b, before it has b's result, and then again. */
  lemma NodeRunsTwice()
    ensures AfterBarriers(SHORTCUT, CALM_WORLD, ZeroRun(SHORTCUT), 3).Some?
    ensures var r := AfterBarriers(SHORTCUT, CALM_WORLD, ZeroRun(SHORTCUT), 3).value;
            r.frontier == [] && r.status == Completed && multiset(PathOf(r.history)) == multiset{A, B, D, D}
  {
    hide Advance, Successors, Distinct, Built, DirectOnly;
    ShortcutFacts();
    ZeroStarts(SHORTCUT);
    var r0 := ZeroRun(SHORTCUT);
    assert FrontierSet([A]) == {A};
    var r1 := TurnFromEntry(r0);
    var r2 := TurnFromBoth(r1);
    var r3 := TurnFromD(r2);
    FrontierMultisets(r0.frontier, r1.frontier, r2.frontier);
    Done(r3);
    ThreeBarriers(r0);
  }

  /** The fresh run does not: the edge from a to d skips a level. */
  lemma ShortcutDiffers()
    ensures Sweepable(SHORTCUT) && Calm(CALM_WORLD)
    ensures !SameRuns(SHORTCUT, CALM_WORLD, FreshRun(SHORTCUT), ZeroRun(SHORTCUT))
  {
    ShortcutIsSweepable();
    ShortcutFacts();
    hide Level, Reaches, Sweepable, SameRuns, FreshRun, ZeroRun, Successors;
    EntryLevel(SHORTCUT);
    EdgeRaisesLevel(SHORTCUT, A, B);
    EdgeRaisesLevel(SHORTCUT, B, D);
    assert !UnitAt(SHORTCUT, 0);
    ZeroRoundResumeIff(SHORTCUT, CALM_WORLD);
  }

  lemma ShortcutIsSweepable()
    ensures Sweepable(SHORTCUT)
  {
    ShortcutFacts();
    OnlyD();
    hide Successors, Built, DirectOnly;
    ReachesSelf(SHORTCUT, A);
    ReachesStep(SHORTCUT, A, B);
    ReachesStep(SHORTCUT, A, D);
    forall u, v | v in Successors(SHORTCUT, u) ensures !Reaches(SHORTCUT, v, u) {
      ShortcutSources(u, v);
      if Reaches(SHORTCUT, v, u) {
        ClosedUnderReach(SHORTCUT, if v == B then {B, D} else {D}, v, u);
      }
    }
  }

  lemma ShortcutSources(u: Id, v: Id)
    requires v in Successors(SHORTCUT, u)
    ensures (u == A && v in {B, D}) || (u == B && v == D)
  {
    ShortcutFacts();
  }

  lemma FrontierMultisets(f0: seq<Id>, f1: seq<Id>, f2: seq<Id>)
    requires Distinct(f0) && Distinct(f1) && Distinct(f2) && A != B && A != D && B != D
    requires (forall n :: n in f0 <==> n == A) && (forall n :: n in f1 <==> n == B || n == D) &&
             forall n :: n in f2 <==> n == D
    ensures multiset([] + f0 + f1 + f2) == multiset{A, B, D, D}
  {
    DistinctMultiset(f0);
    DistinctMultiset(f1);
    DistinctMultiset(f2);
    assert multiset(f0) == multiset{A} && multiset(f1) == multiset{B, D} && multiset(f2) == multiset{D};
  }

  lemma Done(r: Run)
    requires ZeroInv(SHORTCUT, r) && r.book.selected == r.book.executed
    ensures r.frontier == []
  {
    ZeroFrontier(SHORTCUT, r);
    SomeMember(r.frontier);
  }

  lemma SomeMember(f: seq<Id>)
    ensures f != [] ==> FrontierSet(f) != {}
  {
    if f != [] { assert f[0] in FrontierSet(f); }
  }

  lemma ThreeBarriers(r: Run)
    ensures var x := Advance(SHORTCUT, CALM_WORLD, r);
            var y := Advance(SHORTCUT, CALM_WORLD, x.run);
            var z := Advance(SHORTCUT, CALM_WORLD, y.run);
            x.Barrier? && y.Barrier? && z.Barrier? ==> AfterBarriers(SHORTCUT, CALM_WORLD, r, 3) == Some(z.run)
  {
    hide Advance;
    assert AfterBarriers(SHORTCUT, CALM_WORLD, r, 0) == Some(r);
    var x := Advance(SHORTCUT, CALM_WORLD, r);
    if x.Barrier? {
      assert AfterBarriers(SHORTCUT, CALM_WORLD, r, 1) == Some(x.run);
      var y := Advance(SHORTCUT, CALM_WORLD, x.run);
      if y.Barrier? { assert AfterBarriers(SHORTCUT, CALM_WORLD, r, 2) == Some(y.run); }
    }
  }
}
