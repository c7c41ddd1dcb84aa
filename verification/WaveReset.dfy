/** What every barrier keeps, wave resets included. */
module WaveReset {
  import opened Collections
  import opened Graphs
  import opened Claims
  import opened Frontier
  import opened Runs

  // ----- The reset set -----

  lemma ResetClosed(g: Graph, targets: set<Id>, u: Id, v: Id)
    requires u in ResetNodes(g, targets) && Reaches(g, u, v)
    ensures v in ResetNodes(g, targets)
  {
    var t :| t in targets && u in Forward(g, t);
    ReachesTransitive(g, t, u, v);
    assert v in Forward(g, t);
  }

  lemma TargetsAreReset(g: Graph, targets: set<Id>)
    ensures targets <= ResetNodes(g, targets)
  {
    forall t | t in targets ensures t in ResetNodes(g, targets) {
      ReachesSelf(g, t);
      assert t in Forward(g, t);
    }
  }

  /** A source that will re-run only ever claims nodes that are reset with it. */
  lemma ClaimStaysInReset(g: Graph, targets: set<Id>, s: Id, n: Id)
    requires s in ResetNodes(g, targets) && IsClaim(g, s, n)
    ensures n in ResetNodes(g, targets)
  {
    ClaimPointsDownstream(g, s, n);
    ResetClosed(g, targets, s, n);
  }

  // ----- The invariant of fresh runs -----

  /** Per node: who is listed, and with which counts. The entry waits for nobody, ever. */
  ghost predicate NodeClaimsOk(g: Graph, n: Id, bySource: map<Id, nat>) {
    if n == g.entry then bySource == map[]
    else forall s :: (s in bySource <==> IsClaim(g, s, n)) && (s in bySource ==> bySource[s] in {0, ClaimCount(g, s, n)})
  }

  ghost predicate BookInv(g: Graph, b: Book) {
    && b.remaining.Keys == (set n | n in g.nodes)
    && (forall n | n in b.remaining :: NodeClaimsOk(g, n, b.remaining[n]))
    && b.executed <= b.selected <= b.remaining.Keys
    && (forall n | n in b.executed :: Quiet(b.remaining[n]))
    && (forall n, s | n in b.remaining && s in b.executed :: Held(b.remaining[n], s) == 0)
  }

  /** What a round's fired edges are known to satisfy when the frontier is `ran`. */
  ghost predicate FiredOk(g: Graph, ran: set<Id>, fired: set<FiredEdge>) {
    && (forall f | f in fired :: f.from in ran)
    && (forall f | f in fired && f.selected :: f.to in g.nodes)
    && (forall s, n | s in ran && IsClaim(g, s, n) :: FiredBetween(fired, s, n))
  }

  /** A barrier step: the nodes `ran` were ready, have run, and fired. */
  ghost predicate BarrierStep(g: Graph, b: Book, ran: set<Id>, fired: set<FiredEdge>, next: Book) {
    && (forall n | n in ran :: Ready(b, n))
    && FiredOk(g, ran, fired)
    && next == NextBook(g, b.(executed := b.executed + ran), fired)
  }

  ghost function TargetsOfStep(b: Book, ran: set<Id>, fired: set<FiredEdge>): set<Id> {
    ResetTargets(fired, b.executed + ran)
  }

  ghost function ResetOfStep(g: Graph, b: Book, ran: set<Id>, fired: set<FiredEdge>): set<Id> {
    ResetNodes(g, TargetsOfStep(b, ran, fired))
  }

  /** A claim count after the step, spelled out. */
  lemma StepClaim(g: Graph, b: Book, ran: set<Id>, fired: set<FiredEdge>, next: Book, n: Id, s: Id)
    requires BookInv(g, b) && BarrierStep(g, b, ran, fired, next) && n in b.remaining
    ensures n in next.remaining && next.remaining[n].Keys == b.remaining[n].Keys
    ensures s in b.remaining[n] ==>
      next.remaining[n][s] ==
        SettledClaim(g, TargetsOfStep(b, ran, fired), ResetOfStep(g, b, ran, fired), fired, n, s, b.remaining[n][s])
  {
    hide Forward, IsClaim, SettledClaim, BookInv;
  }

  lemma StepNodeClaims(g: Graph, b: Book, ran: set<Id>, fired: set<FiredEdge>, next: Book, n: Id)
    requires BookInv(g, b) && BarrierStep(g, b, ran, fired, next) && n in b.remaining
    ensures n in next.remaining && NodeClaimsOk(g, n, next.remaining[n])
  {
    forall s { StepClaim(g, b, ran, fired, next, n, s); }
    assert NodeClaimsOk(g, n, b.remaining[n]);
    hide IsClaim, Forward, ResetNodes;
  }

  /** A source that has run, in this wave, holds no pending claim anywhere. */
  lemma StepExecutedSource(g: Graph, b: Book, ran: set<Id>, fired: set<FiredEdge>, next: Book, n: Id, s: Id)
    requires BookInv(g, b) && BarrierStep(g, b, ran, fired, next) && n in next.remaining && s in next.executed
    ensures Held(next.remaining[n], s) == 0
  {
    StepClaim(g, b, ran, fired, next, n, s);
    assert s !in ResetOfStep(g, b, ran, fired);
    if s in b.remaining[n] {
      assert NodeClaimsOk(g, n, b.remaining[n]);
      assert IsClaim(g, s, n);
      if s in b.executed { assert Held(b.remaining[n], s) == 0; }
    }
  }

  /** A node that has run, in this wave, waits for nobody. */
  lemma StepExecutedQuiet(g: Graph, b: Book, ran: set<Id>, fired: set<FiredEdge>, next: Book, n: Id)
    requires BookInv(g, b) && BarrierStep(g, b, ran, fired, next) && n in next.executed
    ensures n in next.remaining && Quiet(next.remaining[n])
  {
    var reset := ResetOfStep(g, b, ran, fired);
    assert n !in reset;
    assert Ready(b, n) || n in b.executed;
    assert Quiet(b.remaining[n]);
    TargetsAreReset(g, TargetsOfStep(b, ran, fired));
    forall s | s in next.remaining[n] ensures next.remaining[n][s] == 0 {
      StepClaim(g, b, ran, fired, next, n, s);
    }
  }

  lemma StepExecutedSelected(g: Graph, b: Book, ran: set<Id>, fired: set<FiredEdge>, next: Book)
    requires BookInv(g, b) && BarrierStep(g, b, ran, fired, next)
    ensures next.executed <= next.selected <= next.remaining.Keys
  {
    hide Forward, IsClaim, NodeClaimsOk, Quiet, SettledClaims;
  }

  /** Every barrier, with or without resets, keeps the invariant. */
  lemma StepKeepsBookInv(g: Graph, b: Book, ran: set<Id>, fired: set<FiredEdge>, next: Book)
    requires BookInv(g, b) && BarrierStep(g, b, ran, fired, next)
    ensures BookInv(g, next)
  {
    forall n | n in b.remaining { StepNodeClaims(g, b, ran, fired, next, n); }
    StepExecutedSelected(g, b, ran, fired, next);
    forall n | n in next.executed { StepExecutedQuiet(g, b, ran, fired, next, n); }
    forall n, s | n in next.remaining && s in next.executed { StepExecutedSource(g, b, ran, fired, next, n, s); }
    assert next.remaining.Keys == b.remaining.Keys;
    hide NextBook, NodeClaimsOk, FiredOk, Quiet;
  }

  /** Every reset target is ready at once: it is in the next frontier. */
  lemma ResetTargetsAreNext(g: Graph, b: Book, ran: set<Id>, fired: set<FiredEdge>, next: Book, t: Id)
    requires BookInv(g, b) && BarrierStep(g, b, ran, fired, next) && t in TargetsOfStep(b, ran, fired)
    ensures t in ReadyNodes(next, g.nodes)
  {
    assert t in b.executed + ran;
    assert forall n | n in ran :: Ready(b, n);
    TargetsAreReset(g, TargetsOfStep(b, ran, fired));
    forall s | s in next.remaining[t] ensures next.remaining[t][s] == 0 {
      StepClaim(g, b, ran, fired, next, t, s);
    }
  }

  /** A reset never re-arms a claim whose source does not re-run. */
  lemma OutsideClaimsNeverRise(g: Graph, b: Book, ran: set<Id>, fired: set<FiredEdge>, next: Book, n: Id, s: Id)
    requires BookInv(g, b) && BarrierStep(g, b, ran, fired, next)
    requires n in next.remaining && s !in ResetOfStep(g, b, ran, fired)
    ensures Held(next.remaining[n], s) <= Held(b.remaining[n], s)
  {
    StepClaim(g, b, ran, fired, next, n, s);
  }

  /** What step 3 and 4 would leave on a node without the forced clearing. */
  ghost function UnforcedClaim(g: Graph, reset: set<Id>, fired: set<FiredEdge>, n: Id, s: Id, count: nat): nat {
    if s in reset then (if n in reset then ClaimCount(g, s, n) else count)
    else if FiredBetween(fired, s, n) then 0
    else count
  }

  /** Some claimer of `t` will itself re-run: the one case where forcing `t` matters. */
  ghost predicate ClaimerIsReset(g: Graph, reset: set<Id>, t: Id) {
    exists s :: s in reset && IsClaim(g, s, t)
  }

  /** Forcing a reset target ready changes its claims exactly when one of its claimers is reset too. */
  lemma ForcingMattersIff(g: Graph, b: Book, ran: set<Id>, fired: set<FiredEdge>, next: Book, t: Id)
    requires BookInv(g, b) && BarrierStep(g, b, ran, fired, next) && t in TargetsOfStep(b, ran, fired) && t != g.entry
    ensures var reset := ResetOfStep(g, b, ran, fired);
      (exists s :: s in b.remaining[t] && UnforcedClaim(g, reset, fired, t, s, b.remaining[t][s]) > 0)
        <==> ClaimerIsReset(g, reset, t)
  {
    var reset := ResetOfStep(g, b, ran, fired);
    TargetsAreReset(g, TargetsOfStep(b, ran, fired));
    assert NodeClaimsOk(g, t, b.remaining[t]);
    assert t in b.executed || Ready(b, t);
    assert Quiet(b.remaining[t]);
    forall s | s in b.remaining[t]
      ensures UnforcedClaim(g, reset, fired, t, s, b.remaining[t][s]) > 0 <==> s in reset
    {
      StaticClaimIff(g, s, t);
    }
  }

  /** With a single reset target no claimer of it re-runs, so forcing it changes nothing. */
  lemma SingleTargetNeedsNoForcing(g: Graph, t: Id)
    ensures !ClaimerIsReset(g, ResetNodes(g, {t}), t)
  {
    forall s | s in ResetNodes(g, {t}) ensures !IsClaim(g, s, t) {
      assert s in Forward(g, t);
    }
  }

  /** More generally, it takes another target strictly upstream. */
  lemma ForcingNeedsUpstreamTarget(g: Graph, targets: set<Id>, t: Id) returns (u: Id)
    requires ClaimerIsReset(g, ResetNodes(g, targets), t)
    ensures u in targets && u != t && Reaches(g, u, t) && !Reaches(g, t, u)
  {
    var s :| s in ResetNodes(g, targets) && IsClaim(g, s, t);
    u :| u in targets && s in Forward(g, u);
    ClaimPointsDownstream(g, s, t);
    ReachesTransitive(g, u, s, t);
    if Reaches(g, t, u) { ReachesTransitive(g, t, u, s); }
    ReachesSelf(g, t);
  }

  // ----- Runs -----

  /** A fresh run at its loop head. */
  ghost predicate RunInv(g: Graph, r: Run) {
    BookInv(g, r.book) && r.frontier == ReadyNodes(r.book, g.nodes)
  }

  lemma FreshRunInv(g: Graph)
    requires Built(g)
    ensures RunInv(g, FreshRun(g))
  {
    var b := FreshRun(g).book;
    forall n | n in b.remaining ensures NodeClaimsOk(g, n, b.remaining[n]) {
      if n != g.entry {
        forall s { StaticClaimIff(g, s, n); }
      }
    }
    OnlyReady(b, g.nodes, g.entry);
  }

  lemma {:induction false} OnlyReady(b: Book, nodes: seq<Id>, n: Id)
    requires Distinct(nodes) && Ready(b, n) && forall m | m in nodes && m != n :: !Ready(b, m)
    ensures ReadyNodes(b, nodes) == if n in nodes then [n] else []
  {
    if nodes != [] {
      var k := |nodes| - 1;
      assert nodes == nodes[..k] + [nodes[k]];
      OnlyReady(b, nodes[..k], n);
    }
  }

  /** A loop turn that reaches a barrier is a barrier step of the book. */
  lemma TurnIsStep(g: Graph, env: Env, r: Run)
    requires Built(g) && RunInv(g, r) && Advance(g, env, r).Barrier?
    ensures var next := Advance(g, env, r).run;
      && BarrierStep(g, r.book, FrontierSet(r.frontier), RoundAbsorption(g, env, r).fired, next.book)
      && next.frontier == ReadyNodes(next.book, g.nodes)
  {
    hide Advance, RoundAbsorption, NextBook, IsClaim, BookInv, Built, RecordsRound, Ready, Totals, BySourceRecord, NodeEvents;
    RoundFacts(g, env, r);
    TurnEffect(g, env, r);
  }

  lemma TurnKeepsRunInv(g: Graph, env: Env, r: Run)
    requires Built(g) && RunInv(g, r) && Advance(g, env, r).Barrier?
    ensures RunInv(g, Advance(g, env, r).run)
  {
    TurnIsStep(g, env, r);
    hide Advance, BookInv;
    StepKeepsBookInv(g, r.book, FrontierSet(r.frontier), RoundAbsorption(g, env, r).fired, Advance(g, env, r).run.book);
  }

  /** At every barrier of every fresh run the claim invariants hold. */
  lemma {:induction false} EveryBarrierKeepsInv(g: Graph, env: Env, k: nat)
    requires Built(g) && AfterBarriers(g, env, FreshRun(g), k).Some?
    ensures RunInv(g, AfterBarriers(g, env, FreshRun(g), k).value)
  {
    hide Advance, RunInv, FreshRun;
    if k == 0 {
      FreshRunInv(g);
    } else {
      EveryBarrierKeepsInv(g, env, k - 1);
      TurnKeepsRunInv(g, env, AfterBarriers(g, env, FreshRun(g), k - 1).value);
    }
  }
}
