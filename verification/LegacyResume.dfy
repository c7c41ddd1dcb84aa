/** What a resumed run starts from, in both formats of the journal, and what becomes of the old one: flat totals
    are never released. */
module LegacyResume {
  import opened Values
  import opened Graphs
  import opened Claims
  import opened Frontier
  import opened Runs
  import opened Executor
  import opened Topological
  import opened ResumeEquivalence

  // ----- The resumed book -----

  /** What the journal says is still pending on a node: the sum over its sources, or the flat total. */
  ghost function Journaled(resume: ResumeInput, n: Id): nat {
    if resume.bySource.Some? && n in resume.bySource.value then Total(resume.bySource.value[n])
    else if n in resume.remainingInDegree then resume.remainingInDegree[n]
    else 0
  }

  /** In either format every node keeps as many pending claims as the journal says. The frontier is selected, and
      no node of it counts as executed, even if the journal lists it. */
  lemma ResumedBookIs(g: Graph, resume: ResumeInput, n: Id)
    ensures var b := ResumedRun(g, resume).book;
            && (n in b.remaining <==> n in g.nodes)
            && (n in g.nodes ==> Total(b.remaining[n]) == Journaled(resume, n))
            && (n in b.executed <==> n in resume.executed && n !in resume.frontier)
            && (n in b.selected <==> n in resume.frontier)
            && (Ready(b, n) <==> n in g.nodes && n in resume.frontier && Journaled(resume, n) == 0)
  {
    var m := ResumedNode(resume, n);
    TotalZeroIffQuiet(m);
    if resume.bySource.Some? && n in resume.bySource.value {
      TotalOfPending(resume.bySource.value[n]);
    } else if n in resume.remainingInDegree && resume.remainingInDegree[n] > 0 {
      TotalWithout(m, RESUME_SNAPSHOT_SOURCE);
      assert m - {RESUME_SNAPSHOT_SOURCE} == map[];
    }
    hide Total, Quiet;
  }

  // ----- A flat total is never released -----

  /** The node still waits for the snapshot, and has not run. */
  ghost predicate StillWaits(g: Graph, r: Run, n: Id) {
    && n in r.book.remaining && Held(r.book.remaining[n], RESUME_SNAPSHOT_SOURCE) > 0
    && n !in r.frontier && n !in r.book.executed && !r.strandedCheck
    && forall m | m in r.frontier :: m in g.nodes
  }

  lemma ReachedAreNodes(g: Graph, t: Id, n: Id)
    requires Built(g) && t in g.nodes && Reaches(g, t, n)
    ensures n in g.nodes
  {
    hide Reaches;
    var nodes := set m | m in g.nodes;
    forall u, v | u in nodes && v in Successors(g, u) ensures v in nodes { SuccessorIsDeclared(g, u, v); }
    ClosedUnderReach(g, nodes, t, n);
  }

  lemma SuccessorIsDeclared(g: Graph, u: Id, v: Id)
    requires Built(g) && v in Successors(g, u)
    ensures v in g.nodes
  {
  }

  lemma TurnStillWaits(g: Graph, env: Env, r: Run, n: Id)
    requires Built(g) && RESUME_SNAPSHOT_SOURCE !in g.nodes && StillWaits(g, r, n) && Advance(g, env, r).Barrier?
    ensures StillWaits(g, Advance(g, env, r).run, n)
  {
    hide Advance, RoundAbsorption, NextBook, Built, Reaches, FrontierSet, NodeEvents, Totals, BySourceRecord;
    TurnEffect(g, env, r);
    RoundFacts(g, env, r);
    var fired := RoundAbsorption(g, env, r).fired;
    FrontierSetMembers(r.frontier);
    SnapshotStays(g, r.book, FrontierSet(r.frontier), fired, n);
  }

  lemma SnapshotStays(g: Graph, b: Book, ran: set<Id>, fired: set<FiredEdge>, n: Id)
    requires Built(g) && RESUME_SNAPSHOT_SOURCE !in g.nodes
    requires n in b.remaining && n !in b.executed && n !in ran && Held(b.remaining[n], RESUME_SNAPSHOT_SOURCE) > 0
    requires forall m | m in ran :: m in g.nodes
    requires forall f | f in fired :: f.from in ran && (f.selected ==> f.to in g.nodes)
    ensures var next := NextBook(g, b.(executed := b.executed + ran), fired);
            n in next.remaining && Held(next.remaining[n], RESUME_SNAPSHOT_SOURCE) > 0 && n !in next.executed &&
            !Ready(next, n)
  {
    hide Reaches, Built;
    var targets := ResetTargets(fired, b.executed + ran);
    forall t | t in targets ensures t in g.nodes {}
    forall s | s in ResetNodes(g, targets) ensures s in g.nodes {
      var t :| t in targets && s in Forward(g, t);
      ReachedAreNodes(g, t, s);
    }
  }

  /** A node that the flat snapshot says is waited for, and that has neither run nor is about to, never runs: at no
      barrier of the resumed run is it in the frontier. The run is not reported as stranded either. */
  lemma {:induction false} LegacyNeverRuns(g: Graph, env: Env, resume: ResumeInput, n: Id, k: nat)
    requires Built(g) && RESUME_SNAPSHOT_SOURCE !in g.nodes && ResumeFits(g, resume) && resume.bySource == None
    requires n in g.nodes && n !in resume.frontier && n !in resume.executed
    requires n in resume.remainingInDegree && resume.remainingInDegree[n] > 0
    requires AfterBarriers(g, env, ResumedRun(g, resume), k).Some?
    ensures var r := AfterBarriers(g, env, ResumedRun(g, resume), k).value; n !in r.frontier && !r.strandedCheck
    ensures StillWaits(g, AfterBarriers(g, env, ResumedRun(g, resume), k).value, n)
  {
    hide Advance, StillWaits, Built;
    if k == 0 {
      StartWaits(g, resume, n);
    } else {
      LegacyNeverRuns(g, env, resume, n, k - 1);
      TurnStillWaits(g, env, AfterBarriers(g, env, ResumedRun(g, resume), k - 1).value, n);
    }
    WaitsMeans(g, AfterBarriers(g, env, ResumedRun(g, resume), k).value, n);
  }

  lemma StartWaits(g: Graph, resume: ResumeInput, n: Id)
    requires ResumeFits(g, resume) && resume.bySource == None
    requires n in g.nodes && n !in resume.frontier && n !in resume.executed
    requires n in resume.remainingInDegree && resume.remainingInDegree[n] > 0
    ensures StillWaits(g, ResumedRun(g, resume), n)
  {
  }

  lemma WaitsMeans(g: Graph, r: Run, n: Id)
    requires StillWaits(g, r, n)
    ensures n !in r.frontier && !r.strandedCheck
  {
  }
}
