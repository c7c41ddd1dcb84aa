/** The claim counters against the simple rule they implement: a node waits exactly for
    those of its claimers that have not run in this wave. */
module ClaimCounters {
  import opened Values
  import opened Graphs
  import opened Claims
  import opened Frontier
  import opened Runs
  import opened WaveReset

  ghost predicate WaitsFor(g: Graph, b: Book, n: Id, s: Id) {
    IsClaim(g, s, n) && s !in b.executed
  }

  ghost predicate CounterRuleAt(g: Graph, b: Book, n: Id) {
    n in b.remaining && forall s :: Held(b.remaining[n], s) > 0 <==> WaitsFor(g, b, n, s)
  }

  ghost predicate CounterRule(g: Graph, b: Book) {
    forall n | n in g.nodes && n != g.entry :: CounterRuleAt(g, b, n)
  }

  /** Some reset target has a claimer that is reset with it. */
  ghost predicate ForcedEarly(g: Graph, b: Book, ran: set<Id>, fired: set<FiredEdge>) {
    exists t :: t in TargetsOfStep(b, ran, fired) && t != g.entry && ClaimerIsReset(g, ResetOfStep(g, b, ran, fired), t)
  }

  /** No reset target lies strictly upstream of another. */
  ghost predicate Unnested(g: Graph, targets: set<Id>) {
    forall u, t | u in targets && t in targets && u != t && Reaches(g, u, t) :: Reaches(g, t, u)
  }

  lemma UnnestedForcesNothingEarly(g: Graph, b: Book, ran: set<Id>, fired: set<FiredEdge>)
    requires Unnested(g, TargetsOfStep(b, ran, fired))
    ensures !ForcedEarly(g, b, ran, fired)
  {
    if t :| t in TargetsOfStep(b, ran, fired) && t != g.entry && ClaimerIsReset(g, ResetOfStep(g, b, ran, fired), t) {
      var u := ForcingNeedsUpstreamTarget(g, TargetsOfStep(b, ran, fired), t);
    }
  }

  /** Under the rule, what has run has all its claimers run. */
  lemma ExecutedIsSettled(g: Graph, b: Book, n: Id, s: Id)
    requires BookInv(g, b) && CounterRule(g, b) && (n in b.executed || Ready(b, n)) && n != g.entry && IsClaim(g, s, n)
    ensures s in b.executed
  {
    assert CounterRuleAt(g, b, n);
    assert Quiet(b.remaining[n]);
    assert Held(b.remaining[n], s) == 0;
  }

  /** A claimer of a reset target that does not re-run has already run. */
  lemma TargetIsSettled(g: Graph, b: Book, ran: set<Id>, fired: set<FiredEdge>, next: Book, t: Id, s: Id)
    requires BookInv(g, b) && BarrierStep(g, b, ran, fired, next) && CounterRule(g, b)
    requires t in TargetsOfStep(b, ran, fired) && t != g.entry
    requires IsClaim(g, s, t) && s !in ResetOfStep(g, b, ran, fired)
    ensures s in next.executed
  {
    assert t in ran ==> Ready(b, t);
    hide BookInv, IsClaim, CounterRule, Ready, ResetNodes;
    ExecutedIsSettled(g, b, t, s);
  }

  /** What the step knows about one claim of `s` on `n`. */
  lemma ClaimFacts(g: Graph, b: Book, ran: set<Id>, fired: set<FiredEdge>, next: Book, n: Id, s: Id)
    requires BookInv(g, b) && BarrierStep(g, b, ran, fired, next) && CounterRule(g, b)
    requires n in g.nodes && n != g.entry && IsClaim(g, s, n)
    ensures var reset := ResetOfStep(g, b, ran, fired);
      && n in next.remaining && n in b.remaining
      && Held(next.remaining[n], s) ==
           SettledClaim(g, TargetsOfStep(b, ran, fired), reset, fired, n, s, Held(b.remaining[n], s))
      && (Held(b.remaining[n], s) > 0 <==> s !in b.executed)
      && (FiredBetween(fired, s, n) <==> s in ran)
      && (s in reset ==> n in reset)
      && ClaimCount(g, s, n) > 0
  {
    assert NodeClaimsOk(g, n, b.remaining[n]) && CounterRuleAt(g, b, n);
    StepClaim(g, b, ran, fired, next, n, s);
    StaticClaimIff(g, s, n);
    if s in ResetOfStep(g, b, ran, fired) { ClaimStaysInReset(g, TargetsOfStep(b, ran, fired), s, n); }
  }

  lemma StepExecuted(g: Graph, b: Book, ran: set<Id>, fired: set<FiredEdge>, next: Book, s: Id)
    requires BarrierStep(g, b, ran, fired, next)
    ensures s in next.executed <==> (s in b.executed || s in ran) && s !in ResetOfStep(g, b, ran, fired)
  {}

  /** The step keeps the rule on one claim, unless its node is forced ahead of a reset claimer. */
  lemma StepKeepsRuleAt(g: Graph, b: Book, ran: set<Id>, fired: set<FiredEdge>, next: Book, n: Id, s: Id)
    requires BookInv(g, b) && BarrierStep(g, b, ran, fired, next) && CounterRule(g, b)
    requires n in g.nodes && n != g.entry && IsClaim(g, s, n)
    requires n in TargetsOfStep(b, ran, fired) ==> !ClaimerIsReset(g, ResetOfStep(g, b, ran, fired), n)
    ensures n in next.remaining && (Held(next.remaining[n], s) > 0 <==> s !in next.executed)
  {
    hide BookInv, BarrierStep, CounterRule, IsClaim, ResetOfStep, TargetsOfStep, Held, ClaimCount, FiredBetween;
    ClaimFacts(g, b, ran, fired, next, n, s);
    StepExecuted(g, b, ran, fired, next, s);
    if n in TargetsOfStep(b, ran, fired) {
      assert s !in ResetOfStep(g, b, ran, fired);
      TargetIsSettled(g, b, ran, fired, next, n, s);
    }
  }

  lemma StepKeepsRuleOn(g: Graph, b: Book, ran: set<Id>, fired: set<FiredEdge>, next: Book, n: Id)
    requires BookInv(g, b) && BarrierStep(g, b, ran, fired, next) && CounterRule(g, b)
    requires n in g.nodes && n != g.entry
    requires n in TargetsOfStep(b, ran, fired) ==> !ClaimerIsReset(g, ResetOfStep(g, b, ran, fired), n)
    ensures CounterRuleAt(g, next, n)
  {
    hide BarrierStep, CounterRule, IsClaim, ResetOfStep, TargetsOfStep;
    StepClaim(g, b, ran, fired, next, n, n);
    forall s ensures Held(next.remaining[n], s) > 0 <==> WaitsFor(g, next, n, s) {
      if IsClaim(g, s, n) {
        StepKeepsRuleAt(g, b, ran, fired, next, n, s);
      } else {
        assert NodeClaimsOk(g, n, b.remaining[n]);
      }
    }
  }

  /** The exact condition: a barrier keeps the rule unless it forces a target ahead of a
      claimer that will re-run. */
  lemma StepKeepsRuleIff(g: Graph, b: Book, ran: set<Id>, fired: set<FiredEdge>, next: Book)
    requires BookInv(g, b) && BarrierStep(g, b, ran, fired, next) && CounterRule(g, b)
    ensures CounterRule(g, next) <==> !ForcedEarly(g, b, ran, fired)
  {
    var targets, reset := TargetsOfStep(b, ran, fired), ResetOfStep(g, b, ran, fired);
    if t :| t in targets && t != g.entry && ClaimerIsReset(g, reset, t) {
      var s :| s in reset && IsClaim(g, s, t);
      assert t in b.remaining;
      StepClaim(g, b, ran, fired, next, t, s);
      assert Held(next.remaining[t], s) == 0 && WaitsFor(g, next, t, s);
      assert !CounterRuleAt(g, next, t);
    } else {
      forall n | n in g.nodes && n != g.entry ensures CounterRuleAt(g, next, n) {
        StepKeepsRuleOn(g, b, ran, fired, next, n);
      }
    }
  }

  /** Readiness without counters: routed to, not yet run in this wave, every claimer run. */
  ghost predicate ReadyByRule(g: Graph, b: Book, n: Id) {
    n in b.selected && n !in b.executed && (n == g.entry || forall s | IsClaim(g, s, n) :: s in b.executed)
  }

  lemma ReadyIffRule(g: Graph, b: Book, n: Id)
    requires BookInv(g, b) && CounterRule(g, b) && n in g.nodes
    ensures Ready(b, n) <==> ReadyByRule(g, b, n)
  {
    assert NodeClaimsOk(g, n, b.remaining[n]);
    if n != g.entry {
      assert CounterRuleAt(g, b, n);
      assert forall s | s in b.remaining[n] :: Held(b.remaining[n], s) == b.remaining[n][s];
      assert forall s | IsClaim(g, s, n) :: Held(b.remaining[n], s) == b.remaining[n][s];
    }
  }

  // ----- Runs -----

  /** The loop turn that starts at `r` forces a target ahead of a claimer. */
  ghost predicate TurnForcesEarly(g: Graph, env: Env, r: Run) {
    ForcedEarly(g, r.book, FrontierSet(r.frontier), RoundAbsorption(g, env, r).fired)
  }

  ghost predicate TurnUnnested(g: Graph, env: Env, r: Run) {
    Unnested(g, TargetsOfStep(r.book, FrontierSet(r.frontier), RoundAbsorption(g, env, r).fired))
  }

  ghost function FreshBarrier(g: Graph, env: Env, k: nat): Run
    requires Built(g) && AfterBarriers(g, env, FreshRun(g), k).Some?
  {
    AfterBarriers(g, env, FreshRun(g), k).value
  }

  lemma FreshRule(g: Graph)
    requires Built(g)
    ensures CounterRule(g, FreshRun(g).book)
  {
    forall n | n in g.nodes && n != g.entry ensures CounterRuleAt(g, FreshRun(g).book, n) {
      forall s { StaticClaimIff(g, s, n); }
    }
  }

  lemma TurnKeepsRuleIff(g: Graph, env: Env, r: Run)
    requires Built(g) && RunInv(g, r) && Advance(g, env, r).Barrier? && CounterRule(g, r.book)
    ensures CounterRule(g, Advance(g, env, r).run.book) <==> !TurnForcesEarly(g, env, r)
  {
    TurnIsStep(g, env, r);
    hide Advance, BookInv, RoundAbsorption;
    StepKeepsRuleIff(g, r.book, FrontierSet(r.frontier), RoundAbsorption(g, env, r).fired, Advance(g, env, r).run.book);
  }

  lemma {:induction false} BarriersBefore(g: Graph, env: Env, start: Run, j: nat, k: nat)
    requires j <= k && AfterBarriers(g, env, start, k).Some?
    ensures AfterBarriers(g, env, start, j).Some?
    ensures j < k ==> Advance(g, env, AfterBarriers(g, env, start, j).value).Barrier?
    ensures j < k ==> AfterBarriers(g, env, start, j + 1) == Some(Advance(g, env, AfterBarriers(g, env, start, j).value).run)
    decreases k - j
  {
    hide Advance;
    if j < k {
      BarriersBefore(g, env, start, j + 1, k);
    }
  }

  /** In every fresh run the counters obey the rule at all barriers up to k exactly when no
      round before forced a target ahead of a claimer that re-runs. */
  lemma {:induction false} CounterRuleIff(g: Graph, env: Env, k: nat)
    requires Built(g) && AfterBarriers(g, env, FreshRun(g), k).Some?
    ensures (forall j | 0 <= j <= k :: AfterBarriers(g, env, FreshRun(g), j).Some? && CounterRule(g, FreshBarrier(g, env, j).book))
      <==> (forall j | 0 <= j < k :: AfterBarriers(g, env, FreshRun(g), j).Some? && !TurnForcesEarly(g, env, FreshBarrier(g, env, j)))
  {
    hide Advance, CounterRule, TurnForcesEarly, RunInv, FreshRun;
    if k == 0 {
      FreshRule(g);
      assert AfterBarriers(g, env, FreshRun(g), 0) == Some(FreshRun(g));
    } else {
      BarriersBefore(g, env, FreshRun(g), k - 1, k);
      CounterRuleIff(g, env, k - 1);
      EveryBarrierKeepsInv(g, env, k - 1);
      if CounterRule(g, FreshBarrier(g, env, k - 1).book) { TurnKeepsRuleIff(g, env, FreshBarrier(g, env, k - 1)); }
      assert FreshBarrier(g, env, k) == Advance(g, env, FreshBarrier(g, env, k - 1)).run;
    }
  }

  /** Without nested resets, a node is in a frontier exactly when it was routed to, has not
      run in this wave, and all its claimers have. */
  lemma {:induction false} FrontierByRule(g: Graph, env: Env, k: nat, n: Id)
    requires Built(g) && AfterBarriers(g, env, FreshRun(g), k).Some? && n in g.nodes
    requires forall j | 0 <= j < k :: AfterBarriers(g, env, FreshRun(g), j).Some? ==> TurnUnnested(g, env, FreshBarrier(g, env, j))
    ensures CounterRule(g, FreshBarrier(g, env, k).book)
    ensures n in FreshBarrier(g, env, k).frontier <==> ReadyByRule(g, FreshBarrier(g, env, k).book, n)
  {
    hide Advance, CounterRule, FreshRun;
    forall j | 0 <= j < k
      ensures AfterBarriers(g, env, FreshRun(g), j).Some? && !TurnForcesEarly(g, env, FreshBarrier(g, env, j))
    {
      BarriersBefore(g, env, FreshRun(g), j, k);
      var r := FreshBarrier(g, env, j);
      UnnestedForcesNothingEarly(g, r.book, FrontierSet(r.frontier), RoundAbsorption(g, env, r).fired);
    }
    CounterRuleIff(g, env, k);
    EveryBarrierKeepsInv(g, env, k);
    ReadyIffRule(g, FreshBarrier(g, env, k).book, n);
  }
}
