/** A run in which the counters do break the claim rule: two targets reset in one round, one
    strictly upstream of the other. */
module NestedResets {
  import opened Values
  import opened Collections
  import opened Graphs
  import opened Claims
  import opened Frontier
  import opened Runs
  import opened WaveReset
  import opened ClaimCounters
  import opened Topological

  const P := Id("p")
  const T := Id("t")
  const D := Id("d")
  const B := Id("b")
  const C := Id("c")

  /** p fans out to t and d; t loops through b, and d leads back to p through c. */
  const G := Graph(
    [P, T, D, B, C],
    map[P := [Direct(To(T)), Direct(To(D))], T := [Direct(To(B))], D := [Direct(To(C))],
        B := [Direct(To(T)), Direct(End)], C := [Direct(To(P))]],
    P, map[], map[])

  lemma FiveIds()
    ensures Distinct([P, T, D, B, C])
  {
    assert P.name == "p" && T.name == "t" && D.name == "d" && B.name == "b" && C.name == "c";
    assert "p"[0] == 'p' && "t"[0] == 't' && "d"[0] == 'd' && "b"[0] == 'b' && "c"[0] == 'c';
  }

  lemma BuiltG()
    ensures Built(G) && DirectOnly(G)
  {
    FiveIds();
    hide P, T, D, B, C;
    forall n ensures n in G.edges <==> n in G.nodes {}
  }

  /** The successor sets, read off the edge lists. */
  lemma SuccessorsG()
    ensures Successors(G, P) == {T, D} && Successors(G, T) == {B} && Successors(G, D) == {C}
    ensures Successors(G, B) == {T} && Successors(G, C) == {P}
    ensures forall u | u !in {P, T, D, B, C} :: Successors(G, u) == {}
  {
    FiveIds();
    DirectSuccessors(G, P, [Direct(To(T)), Direct(To(D))], {T, D});
    DirectSuccessors(G, T, [Direct(To(B))], {B});
    DirectSuccessors(G, D, [Direct(To(C))], {C});
    DirectSuccessors(G, B, [Direct(To(T)), Direct(End)], {T});
    DirectSuccessors(G, C, [Direct(To(P))], {P});
  }

  /** All that the run below needs to know of the graph. */
  lemma GraphFacts()
    ensures Built(G) && DirectOnly(G) && Distinct([P, T, D, B, C]) && G.nodes == [P, T, D, B, C] && G.entry == P
    ensures P != T && P != D && P != B && P != C && T != D && T != B && T != C && D != B && D != C && B != C
    ensures Successors(G, P) == {T, D} && Successors(G, T) == {B} && Successors(G, D) == {C}
    ensures Successors(G, B) == {T} && Successors(G, C) == {P}
    ensures forall u | u !in {P, T, D, B, C} :: Successors(G, u) == {}
  {
    BuiltG();
    FiveIds();
    SuccessorsG();
  }

  /** t and b only reach each other. */
  lemma UnreachedG()
    ensures !Reaches(G, T, P) && !Reaches(G, T, D)
  {
    hide G, P, T, D, B, C, Reaches, Successors, Built;
    GraphFacts();
    if Reaches(G, T, P) { ClosedUnderReach(G, {T, B}, T, P); }
    if Reaches(G, T, D) { ClosedUnderReach(G, {T, B}, T, D); }
  }

  /** The others reach everything. */
  lemma ReachG()
    ensures Reaches(G, T, B) && Reaches(G, D, P) && Reaches(G, C, D) && Reaches(G, B, T) && Reaches(G, P, C)
  {
    hide G, P, T, D, B, C, Reaches, Successors, Built;
    GraphFacts();
    ReachesStep(G, T, B);
    ReachesStep(G, B, T);
    ReachesStep(G, D, C);
    ReachesStep(G, C, P);
    ReachesStep(G, P, D);
    ReachesTransitive(G, D, C, P);
    ReachesTransitive(G, C, P, D);
    ReachesTransitive(G, P, D, C);
  }

  /** The only claim in this graph is p's on t. */
  lemma ClaimsG(s: Id, n: Id)
    ensures IsClaim(G, s, n) <==> s == P && n == T
  {
    hide G, P, T, D, B, C, Reaches, IsClaim, Successors;
    GraphFacts();
    UnreachedG();
    ReachG();
    ClaimIff(s, n);
  }

  lemma ClaimIff(s: Id, n: Id)
    requires Built(G) && DirectOnly(G)
    ensures IsClaim(G, s, n) <==> n in Successors(G, s) && !Reaches(G, n, s)
  {
    hide G, Reaches;
    if IsClaim(G, s, n) {
      var e :| e in EdgesOf(G, s) && Selectable(G, s, e, n);
      ClaimIsSuccessor(s, n, e);
    }
    if n in Successors(G, s) {
      SuccessorIsNode(G, s, n);
      assert Selectable(G, s, Direct(To(n)), n);
    }
  }

  lemma ClaimIsSuccessor(s: Id, n: Id, e: Edge)
    requires e in EdgesOf(G, s) && e == Direct(To(n))
    ensures n in Successors(G, s)
  {
    var i :| 0 <= i < |EdgesOf(G, s)| && EdgesOf(G, s)[i] == e;
    assert n in EdgeTargets(G, s, EdgesOf(G, s)[i]);
  }

  /** A stage of the run: what is selected, what has run, and hence what is ready. */
  ghost predicate Stage(r: Run, executed: set<Id>, selected: set<Id>, k: nat) {
    RunInv(G, r) && CounterRule(G, r.book) && r.book.executed == executed && r.book.selected == selected && r.iterations == k
  }

  lemma StageReady(r: Run, executed: set<Id>, selected: set<Id>, k: nat, n: Id)
    requires Stage(r, executed, selected, k) && (T in selected && T !in executed ==> P in executed)
    ensures n in r.frontier <==> n in G.nodes && n in selected && n !in executed
  {
    hide BookInv, CounterRule, IsClaim, Ready;
    if n in G.nodes {
      ReadyIffRule(G, r.book, n);
      forall s ensures IsClaim(G, s, n) <==> s == P && n == T { ClaimsG(s, n); }
    }
  }

  /** One more round without resets: the ready nodes run and select their successors. */
  lemma StageStep(r: Run, executed: set<Id>, selected: set<Id>, k: nat, ran: set<Id>, routed: set<Id>)
    requires Stage(r, executed, selected, k) && (T in selected && T !in executed ==> P in executed) && k < 45
    requires ran == selected - executed && ran != {} && forall n | n in ran :: n in G.nodes
    requires forall n :: n in routed <==> exists s :: s in ran && n in Successors(G, s)
    ensures Advance(G, CALM_WORLD, r).Barrier?
    ensures FiresSuccessors(G, ran, RoundAbsorption(G, CALM_WORLD, r).fired) && FrontierSet(r.frontier) == ran
    ensures routed !! (executed + ran) ==> Stage(Advance(G, CALM_WORLD, r).run, executed + ran, selected + routed, k + 1)
  {
    hide Advance, RoundAbsorption, BookInv, CounterRule, IsClaim, Ready, Successors, BarrierStep, NextBook, FiresSuccessors, Reaches;
    BuiltG();
    forall n ensures n in r.frontier <==> n in ran { StageReady(r, executed, selected, k, n); }
    FrontierSetMembers(r.frontier);
    assert FrontierSet(r.frontier) == ran;
    assert r.frontier != [] by { var n :| n in ran; assert n in r.frontier; }
    CalmTurn(G, CALM_WORLD, r);
    TurnEffect(G, CALM_WORLD, r);
    TurnIsStep(G, CALM_WORLD, r);
    TurnKeepsRunInv(G, CALM_WORLD, r);
    TurnFires(G, CALM_WORLD, r);
    var fired := RoundAbsorption(G, CALM_WORLD, r).fired;
    if routed !! (executed + ran) {
      QuietStep(r.book, ran, routed, fired, Advance(G, CALM_WORLD, r).run.book);
    }
  }

  lemma QuietStep(b: Book, ran: set<Id>, routed: set<Id>, fired: set<FiredEdge>, next: Book)
    requires BookInv(G, b) && CounterRule(G, b) && BarrierStep(G, b, ran, fired, next)
    requires FiresSuccessors(G, ran, fired)
    requires forall n :: n in routed <==> exists s :: s in ran && n in Successors(G, s)
    requires routed !! (b.executed + ran)
    ensures CounterRule(G, next) && next.executed == b.executed + ran && next.selected == b.selected + routed
  {
    hide BookInv, CounterRule, Successors;
    forall f | f in fired && f.selected ensures f.to in routed { assert FiredEdge(f.from, f.to, true) in fired; }
    assert TargetsOfStep(b, ran, fired) == {};
    UnnestedForcesNothingEarly(G, b, ran, fired);
    StepKeepsRuleIff(G, b, ran, fired, next);
    assert ResetNodes(G, {}) == {};
    assert NewlyRouted({}, {}, fired) == routed by {
      forall n | n in routed ensures n in NewlyRouted({}, {}, fired) {
        var s :| s in ran && n in Successors(G, s);
        assert FiredEdge(s, n, true) in fired;
      }
    }
  }

  /** The first round runs p, the second t and d. */
  lemma OneRound() returns (r: Run)
    ensures Built(G) && AfterBarriers(G, CALM_WORLD, FreshRun(G), 1) == Some(r) && Stage(r, {P}, {P, T, D}, 1)
  {
    hide G, P, T, D, B, C, Advance, Successors, Stage, Built, FreshRun;
    GraphFacts();
    FreshStage();
    assert {P} == {P} - {};
    StageStep(FreshRun(G), {}, {P}, 0, {P}, {T, D});
    r := Advance(G, CALM_WORLD, FreshRun(G)).run;
    assert {} + {P} == {P} && {P} + {T, D} == {P, T, D};
    BarriersCompose(G, CALM_WORLD, FreshRun(G), r, 0);
  }

  lemma TwoRounds() returns (r: Run)
    ensures Built(G) && AfterBarriers(G, CALM_WORLD, FreshRun(G), 2) == Some(r) && Stage(r, {P, T, D}, {P, T, D, B, C}, 2)
  {
    hide G, P, T, D, B, C, Advance, Successors, Stage, Built, FreshRun;
    GraphFacts();
    var r1 := OneRound();
    assert {T, D} == {P, T, D} - {P};
    StageStep(r1, {P}, {P, T, D}, 1, {T, D}, {B, C});
    r := Advance(G, CALM_WORLD, r1).run;
    assert {P} + {T, D} == {P, T, D} && {P, T, D} + {B, C} == {P, T, D, B, C};
  }

  lemma FreshStage()
    ensures Built(G) && Stage(FreshRun(G), {}, {P}, 0)
  {
    BuiltG();
    FreshRunInv(G);
    FreshRule(G);
  }

  /** The third round runs b and c, which route back to t and to p. Both are reset, t is forced
      ready although its claimer p re-runs too, and the rule is broken at barrier 3. */
  lemma RuleFailsUnderNestedResets()
    ensures Built(G)
    ensures AfterBarriers(G, CALM_WORLD, FreshRun(G), 3).Some?
    ensures !CounterRule(G, AfterBarriers(G, CALM_WORLD, FreshRun(G), 3).value.book)
  {
    hide G, P, T, D, B, C, Advance, CounterRule, BookInv, Successors, Built, FreshRun, RoundAbsorption, FiresSuccessors, TurnForcesEarly;
    GraphFacts();
    var r := TwoRounds();
    assert {B, C} == {P, T, D, B, C} - {P, T, D};
    StageStep(r, {P, T, D}, {P, T, D, B, C}, 2, {B, C}, {T, P});
    BothForced(r);
    TurnKeepsRuleIff(G, CALM_WORLD, r);
  }

  lemma BothForced(r: Run)
    requires Stage(r, {P, T, D}, {P, T, D, B, C}, 2) && FrontierSet(r.frontier) == {B, C}
    requires FiresSuccessors(G, {B, C}, RoundAbsorption(G, CALM_WORLD, r).fired)
    ensures TurnForcesEarly(G, CALM_WORLD, r)
  {
    hide G, P, T, D, B, C, RoundAbsorption, Stage, IsClaim, Reaches, Successors;
    GraphFacts();
    var fired := RoundAbsorption(G, CALM_WORLD, r).fired;
    assert r.book.executed == {P, T, D} by { StageParts(r); }
    assert FiredEdge(B, T, true) in fired && FiredEdge(C, P, true) in fired;
    var targets := TargetsOfStep(r.book, {B, C}, fired);
    assert T in targets && P in targets;
    TargetsAreReset(G, targets);
    ClaimsG(P, T);
    assert ClaimerIsReset(G, ResetNodes(G, targets), T);
  }

  lemma StageParts(r: Run)
    requires Stage(r, {P, T, D}, {P, T, D, B, C}, 2)
    ensures r.book.executed == {P, T, D}
  {}
}
