/** Why a run can stop with work left: only because a branch was skipped, never a circular wait. */
module Stranding {
  import opened Values
  import opened Collections
  import opened Graphs
  import opened Claims
  import opened Frontier
  import opened Runs
  import opened WaveReset

  /** Routed to, but not run in this wave. */
  predicate Stranded(b: Book, n: Id) {
    n in b.selected && n !in b.executed
  }

  predicate PendingOn(b: Book, n: Id, s: Id) {
    n in b.remaining && Held(b.remaining[n], s) > 0
  }

  /** Each element waits for the next. */
  predicate PendingChain(b: Book, c: seq<Id>) {
    forall i :: 0 <= i < |c| - 1 ==> PendingOn(b, c[i], c[i + 1])
  }

  /** A pending claim is a static claim of a source that has not run. */
  lemma PendingMeansUnrun(g: Graph, b: Book, n: Id, s: Id)
    requires BookInv(g, b) && PendingOn(b, n, s)
    ensures IsClaim(g, s, n) && s !in b.executed
  {
    assert NodeClaimsOk(g, n, b.remaining[n]);
  }

  lemma {:induction false} PendingClimbs(g: Graph, b: Book, c: seq<Id>, i: nat, j: nat)
    requires BookInv(g, b) && PendingChain(b, c) && i < j < |c|
    ensures Depth(g, c[i]) < Depth(g, c[j]) && c[j] !in b.executed
    decreases j
  {
    hide BookInv, PendingOn, Depth;
    PendingMeansUnrun(g, b, c[j - 1], c[j]);
    ClaimDecreasesDepth(g, c[j], c[j - 1]);
    if i < j - 1 { PendingClimbs(g, b, c, i, j - 1); }
  }

  /** No chain of pending claims revisits a node: there is no circular wait. */
  lemma PendingChainsAreAcyclic(g: Graph, b: Book, c: seq<Id>)
    requires BookInv(g, b) && PendingChain(b, c)
    ensures Distinct(c)
    ensures forall i | 1 <= i < |c| :: c[i] !in b.executed
  {
    hide BookInv;
    forall i, j | 0 <= i < j < |c| ensures c[i] != c[j] && c[j] !in b.executed {
      PendingClimbs(g, b, c, i, j);
    }
    forall j | 1 <= j < |c| ensures c[j] !in b.executed {
      PendingClimbs(g, b, c, 0, j);
    }
  }

  /** What makes a stranded node unready is a pending claim. */
  lemma StrandedWaits(g: Graph, b: Book, n: Id) returns (s: Id)
    requires BookInv(g, b) && Stranded(b, n) && !Ready(b, n)
    ensures PendingOn(b, n, s)
  {
    s :| s in b.remaining[n] && b.remaining[n][s] != 0;
  }

  /** When nothing is ready, walking back from a stranded node along pending claims reaches
      a predecessor that nothing routed to: the skipped branch. */
  lemma {:induction false} StrandedBehindSkipped(g: Graph, b: Book, n: Id) returns (c: seq<Id>)
    requires BookInv(g, b) && Stranded(b, n)
    requires forall m | m in b.remaining :: !Ready(b, m)
    ensures |c| >= 2 && c[0] == n && PendingChain(b, c)
    ensures forall i | 0 <= i < |c| - 1 :: Stranded(b, c[i])
    ensures c[|c| - 1] !in b.selected
    decreases |Mentioned(g)| + 1 - Depth(g, n)
  {
    var s := StrandedWaits(g, b, n);
    PendingMeansUnrun(g, b, n, s);
    if s in b.selected {
      ClaimDecreasesDepth(g, s, n);
      DepthBound(g, s);
      var rest := StrandedBehindSkipped(g, b, s);
      c := [n] + rest;
    } else {
      c := [n, s];
    }
  }

  lemma DepthBound(g: Graph, n: Id)
    ensures Depth(g, n) <= |Mentioned(g)| + 1
  {
    forall m | m in Forward(g, n) ensures m in Mentioned(g) + {n} { ReachesMentioned(g, n, m); }
    SubsetNotLarger(Forward(g, n), Mentioned(g) + {n});
  }

  // ----- How a fresh run ends -----

  /** The status at a loop head: only the stranded check can have spoken, at an empty frontier. */
  ghost predicate HeadStatus(r: Run) {
    if r.frontier == [] && !(r.book.selected <= r.book.executed) then r.status == Aborted
    else r.status == Completed && r.error == None
  }

  lemma NoneLeftOver(a: set<Id>, b: set<Id>)
    ensures a - b == {} <==> a <= b
  {
    if a - b == {} {
      forall x | x in a ensures x in b { assert x !in a - b; }
    }
  }

  lemma TurnKeepsStatus(g: Graph, env: Env, r: Run)
    requires HeadStatus(r) && r.strandedCheck && Advance(g, env, r).Barrier?
    ensures HeadStatus(Advance(g, env, r).run) && Advance(g, env, r).run.strandedCheck
  {
    var a := RoundAbsorption(g, env, r);
    var next := Advance(g, env, r).run;
    hide RoundAbsorption, NextBook, ReadyNodes, Totals, BySourceRecord, NodeEvents, FrontierSet;
    NoneLeftOver(next.book.selected, next.book.executed);
  }

  lemma {:induction false} EveryBarrierStatus(g: Graph, env: Env, k: nat)
    requires Built(g) && AfterBarriers(g, env, FreshRun(g), k).Some?
    ensures HeadStatus(AfterBarriers(g, env, FreshRun(g), k).value)
    ensures AfterBarriers(g, env, FreshRun(g), k).value.strandedCheck
  {
    hide Advance, RunInv;
    if k > 0 {
      EveryBarrierStatus(g, env, k - 1);
      TurnKeepsStatus(g, env, AfterBarriers(g, env, FreshRun(g), k - 1).value);
    }
  }

  /** A fresh run reports success exactly when it stops at a barrier with an empty frontier
      and everything it ever routed to, in the current wave, has run. */
  lemma CompletedIff(g: Graph, env: Env) returns (k: nat, last: Run)
    requires Built(g)
    ensures AfterBarriers(g, env, FreshRun(g), k) == Some(last) && !Advance(g, env, last).Barrier?
    ensures RunFrom(g, env, FreshRun(g)) == Advance(g, env, last).run
    ensures RunFrom(g, env, FreshRun(g)).status == Completed <==>
      last.frontier == [] && last.book.selected <= last.book.executed
  {
    k, last := RunEnds(g, env, FreshRun(g));
    EveryBarrierStatus(g, env, k);
    BrokenIsAborted(g, env, last);
  }

  lemma BrokenIsAborted(g: Graph, env: Env, r: Run)
    ensures var t := Advance(g, env, r);
      && (t.Broke? ==> t.run.status == Aborted && r.frontier != [])
      && (t.Stopped? ==> t.run.status == (if r.frontier == [] then r.status
                                          else if env.aborted(r.iterations) then Aborted else MaxIterations))
  {
    hide RoundAbsorption, NextBook, ReadyNodes, Totals, BySourceRecord;
  }

  /** When a fresh run stops with an empty frontier and a stranded node, a skipped branch is
      behind it; and a run that completes has nobody stranded. */
  lemma DeadlockIsSkippedBranch(g: Graph, env: Env, k: nat, n: Id) returns (c: seq<Id>)
    requires Built(g) && AfterBarriers(g, env, FreshRun(g), k).Some?
    requires var r := AfterBarriers(g, env, FreshRun(g), k).value; r.frontier == [] && Stranded(r.book, n)
    ensures var b := AfterBarriers(g, env, FreshRun(g), k).value.book;
      && |c| >= 2 && c[0] == n && PendingChain(b, c) && Distinct(c)
      && (forall i | 0 <= i < |c| - 1 :: Stranded(b, c[i]))
      && c[|c| - 1] !in b.selected && c[|c| - 1] !in b.executed
    ensures AfterBarriers(g, env, FreshRun(g), k).value.status == Aborted
  {
    hide Advance, FreshRun, BookInv, AfterBarriers, Ready;
    var r := AfterBarriers(g, env, FreshRun(g), k).value;
    EveryBarrierKeepsInv(g, env, k);
    EveryBarrierStatus(g, env, k);
    NothingReady(g, r);
    assert r.status == Aborted;
    c := StrandedBehindSkipped(g, r.book, n);
    PendingChainsAreAcyclic(g, r.book, c);
  }

  lemma NothingReady(g: Graph, r: Run)
    requires RunInv(g, r) && r.frontier == []
    ensures forall m | m in r.book.remaining :: !Ready(r.book, m)
  {
    forall m | m in r.book.remaining ensures !Ready(r.book, m) {
      assert m in g.nodes;
      assert m !in r.frontier;
    }
  }
}
