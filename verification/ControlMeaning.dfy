/** What the controller hands out, and what it does to the broker, in every run: which report text, which
    questions, which requests are held or cancelled, and what a reminder says. */
module ControlMeaning {
  import opened Values
  import opened WorkflowControl
  import opened Reminders

  // ----- Runs and their reports -----

  /** The report of the run, given at the last completion of it from operation `from` on. */
  function LastReport(run: seq<Event>, from: nat, runId: string): Option<string> {
    if |run| <= from then None
    else
      var last := run[|run| - 1];
      if last.Complete? && last.runId == runId then Some(last.report) else LastReport(run[..|run| - 1], from, runId)
  }

  /** The controlled run was begun by operation i, and has reported what was last reported for it since. */
  ghost predicate BegunAt(c: Setup, run: seq<Event>, i: nat, r: Run) {
    && i < |run| && run[i] == Begin(r.runId) && !AnyActive(After(c, run[..i]).runs)
    && After(c, run[..i]).begun == r.ticket
    && r.report == LastReport(run, i + 1, r.runId) && (r.completed <==> r.report.Some?)
  }

  predicate DistinctRuns(runs: seq<Run>) {
    forall i, j :: 0 <= i < j < |runs| ==> runs[i].runId != runs[j].runId
  }

  lemma {:induction false} FoundIsOnly(runs: seq<Run>, r: Run)
    requires DistinctRuns(runs) && r in runs
    ensures FindRun(runs, r.runId) == Some(r)
  {
    if runs[0] != r {
      assert r in runs[1..];
      FoundIsOnly(runs[1..], r);
    }
  }

  lemma {:induction false} PutRunEntries(runs: seq<Run>, r: Run, x: Run)
    requires DistinctRuns(runs)
    ensures x in PutRun(runs, r) <==> x == r || (x in runs && x.runId != r.runId)
  {
    if runs != [] {
      assert DistinctRuns(runs[1..]);
      PutRunEntries(runs[1..], r, x);
      assert runs == [runs[0]] + runs[1..];
    }
  }

  lemma {:induction false} PutRunDistinct(runs: seq<Run>, r: Run)
    requires DistinctRuns(runs)
    ensures DistinctRuns(PutRun(runs, r))
  {
    if runs != [] && runs[0].runId != r.runId {
      var rest := runs[1..];
      PutRunDistinct(rest, r);
      forall x | x in PutRun(rest, r) ensures x.runId != runs[0].runId { PutRunEntries(rest, r, x); }
    }
  }

  lemma {:induction false} TakenEntries(runs: seq<Run>)
    ensures |AllTaken(runs)| == |runs| && forall i | 0 <= i < |runs| :: AllTaken(runs)[i] == TakeOne(runs[i])
  {
    if runs != [] { TakenEntries(runs[1..]); }
  }

  /** What an operation makes of a controlled run: only a completion changes its report. */
  predicate Turns(e: Event, q: Run, r: Run) {
    && r.runId == q.runId && r.ticket == q.ticket
    && (if e.Complete? && e.runId == q.runId then r.report == Some(e.report) && r.completed
        else r.report == q.report && r.completed == q.completed)
  }

  ghost predicate RunComesFrom(s: Desk, e: Event, r: Run) {
    || (e == Begin(r.runId) && !AnyActive(s.runs) && r == NewRun(s.begun, r.runId))
    || exists q :: q in s.runs && Turns(e, q, r)
  }

  /** One replaced run. */
  lemma ReplacedRun(s: Desk, e: Event, q: Run, changed: Run, r: Run)
    requires DistinctRuns(s.runs) && q in s.runs && Turns(e, q, changed) && r in PutRun(s.runs, changed)
    requires e.Complete? ==> e.runId == q.runId
    ensures RunComesFrom(s, e, r)
  {
    PutRunEntries(s.runs, changed, r);
    if r != changed { assert Turns(e, r, r); }
  }

  lemma SameRun(s: Desk, e: Event, r: Run)
    requires r in s.runs && !(e.Complete? && e.runId == r.runId)
    ensures RunComesFrom(s, e, r)
  {
    assert Turns(e, r, r);
  }

  lemma StepRuns(c: Setup, s: Desk, e: Event, r: Run)
    requires DistinctRuns(s.runs) && r in EffectOf(c, s, e).runs
    ensures RunComesFrom(s, e, r)
  {
    hide PutRun, FindRun, AllTaken, Supervised, Marks, Refreshed, Due, AnyActive, DistinctRuns, RunComesFrom, Undelivered,
      WaitTarget;
    match e
    case Begin(runId) => BegunRun(c, s, e, r);
    case Complete(runId, report) =>
      FindRunFinds(s.runs, runId);
      var q := FindRun(s.runs, runId);
      if q.Some? {
        ReplacedRun(s, e, q.value, q.value.(report := Some(report), completed := true), r);
      } else {
        UnfoundRun(s, e, r);
      }
    case StartWait(given) =>
      WaitTargetFinds(s.runs, given);
      ReplacedOrSame(s, e, WaitTarget(s.runs, given), EffectOf(c, s, e).runs, r);
    case Poll(runId) =>
      FindRunFinds(s.runs, runId);
      ReplacedOrSame(s, e, FindRun(s.runs, runId), EffectOf(c, s, e).runs, r);
    case Interrupt(runId, _) =>
      FindRunFinds(s.runs, runId);
      ReplacedOrSame(s, e, FindRun(s.runs, runId), EffectOf(c, s, e).runs, r);
    case EndInterrupted(runId) =>
      FindRunFinds(s.runs, runId);
      ReplacedOrSame(s, e, FindRun(s.runs, runId), EffectOf(c, s, e).runs, r);
    case Tick(now) => TickRuns(c, s, now, r);
    case _ => SameRun(s, e, r);
  }

  predicate SameReport(q: Run, r: Run) {
    r.runId == q.runId && r.ticket == q.ticket && r.report == q.report && r.completed == q.completed
  }

  /** An operation that replaces at most one run, and not its report. */
  ghost predicate KeepsReport(q: Option<Run>, runs: seq<Run>, runs': seq<Run>) {
    runs' == runs || (q.Some? && exists changed :: runs' == PutRun(runs, changed) && SameReport(q.value, changed))
  }

  lemma ReplacedOrSame(s: Desk, e: Event, q: Option<Run>, runs': seq<Run>, r: Run)
    requires DistinctRuns(s.runs) && !e.Complete? && KeepsReport(q, s.runs, runs') && r in runs'
    requires q.Some? ==> q.value in s.runs
    ensures RunComesFrom(s, e, r)
  {
    hide PutRun, DistinctRuns, RunComesFrom;
    if runs' == s.runs {
      SameRun(s, e, r);
    } else {
      var changed :| runs' == PutRun(s.runs, changed) && SameReport(q.value, changed);
      ReplacedRun(s, e, q.value, changed, r);
    }
  }

  lemma BegunRun(c: Setup, s: Desk, e: Event, r: Run)
    requires DistinctRuns(s.runs) && e.Begin? && r in EffectOf(c, s, e).runs
    ensures RunComesFrom(s, e, r)
  {
    hide PutRun, DistinctRuns;
    if AnyActive(s.runs) {
      SameRun(s, e, r);
    } else {
      PutRunEntries(s.runs, NewRun(s.begun, e.runId), r);
      if r in s.runs { SameRun(s, e, r); }
    }
  }

  lemma UnfoundRun(s: Desk, e: Event, r: Run)
    requires DistinctRuns(s.runs) && r in s.runs && e.Complete? && FindRun(s.runs, e.runId).None?
    ensures RunComesFrom(s, e, r)
  {
    FoundIsOnly(s.runs, r);
    SameRun(s, e, r);
  }

  lemma TickRuns(c: Setup, s: Desk, now: int, r: Run)
    requires r in TickEffect(c, s, now).runs
    ensures RunComesFrom(s, Tick(now), r)
  {
    hide Supervised, Marks, Refreshed, Due, Undelivered, Pause, ApplyAll, Bumped;
    TakenEntries(s.runs);
    if r in s.runs {
      SameRun(s, Tick(now), r);
    } else {
      var i :| 0 <= i < |AllTaken(s.runs)| && AllTaken(s.runs)[i] == r;
      assert Turns(Tick(now), s.runs[i], r) && s.runs[i] in s.runs;
    }
  }

  lemma StepDistinctRuns(c: Setup, s: Desk, e: Event)
    requires DistinctRuns(s.runs)
    ensures DistinctRuns(EffectOf(c, s, e).runs)
  {
    hide PutRun, FindRun, AllTaken, Supervised, Marks, Refreshed, Due, AnyActive, DistinctRuns, Undelivered, WaitTarget;
    match e
    case Begin(runId) => PutRunDistinct(s.runs, NewRun(s.begun, runId));
    case Complete(runId, report) =>
      var q := FindRun(s.runs, runId);
      if q.Some? { PutRunDistinct(s.runs, q.value.(report := Some(report), completed := true)); }
    case StartWait(given) =>
      var q := WaitTarget(s.runs, given);
      if q.Some? { PutRunDistinct(s.runs, q.value.(waiting := true, interrupted := false)); }
    case Poll(runId) =>
      var q := FindRun(s.runs, runId);
      if q.Some? {
        PutRunDistinct(s.runs, q.value.(waiting := false));
        PutRunDistinct(s.runs, q.value.(waiting := false, delivered := true));
      }
    case Interrupt(runId, _) =>
      var q := FindRun(s.runs, runId);
      if q.Some? { PutRunDistinct(s.runs, q.value.(interrupted := true)); }
    case EndInterrupted(runId) =>
      var q := FindRun(s.runs, runId);
      if q.Some? { PutRunDistinct(s.runs, q.value.(waiting := false, delivered := true)); }
    case Tick(now) => TakenDistinct(s.runs);
    case _ =>
  }

  lemma TakenDistinct(runs: seq<Run>)
    requires DistinctRuns(runs)
    ensures DistinctRuns(AllTaken(runs))
  {
    TakenEntries(runs);
  }

  lemma {:induction false} RunsAreDistinct(c: Setup, run: seq<Event>)
    ensures DistinctRuns(After(c, run).runs)
  {
    hide EffectOf, DistinctRuns;
    if run == [] {
      NoRuns(c);
    } else {
      RunsAreDistinct(c, run[..|run| - 1]);
      StepDistinctRuns(c, After(c, run[..|run| - 1]), run[|run| - 1]);
    }
  }

  lemma NoRuns(c: Setup)
    ensures After(c, []).runs == [] && DistinctRuns([])
  {
  }

  /** Every controlled run was begun by an operation, and its report is the last one given for it since. */
  lemma {:induction false} RunOrigin(c: Setup, run: seq<Event>, r: Run) returns (i: nat)
    requires r in After(c, run).runs
    ensures BegunAt(c, run, i, r)
  {
    hide EffectOf, AnyActive, After, DistinctRuns, RunComesFrom;
    NoRuns(c);
    assert run != [];
    var shorter, k := run[..|run| - 1], |run| - 1;
    AfterUnfolds(c, run);
    RunsAreDistinct(c, shorter);
    StepRuns(c, After(c, shorter), run[k], r);
    if NewlyBegun(c, run, r) {
      i := k;
    } else {
      var q := OldRun(After(c, shorter), run[k], r);
      i := RunOrigin(c, shorter, q);
      assert shorter[..i] == run[..i] && shorter[i] == run[i];
    }
  }

  ghost predicate NewlyBegun(c: Setup, run: seq<Event>, r: Run)
    requires run != []
  {
    var s := After(c, run[..|run| - 1]);
    run[|run| - 1] == Begin(r.runId) && !AnyActive(s.runs) && r == NewRun(s.begun, r.runId)
  }

  lemma OldRun(s: Desk, e: Event, r: Run) returns (q: Run)
    requires RunComesFrom(s, e, r) && !(e == Begin(r.runId) && !AnyActive(s.runs) && r == NewRun(s.begun, r.runId))
    ensures q in s.runs && Turns(e, q, r)
  {
    q :| q in s.runs && Turns(e, q, r);
  }

  // ----- What is handed out -----

  /** The run that an output is about, as the operation found it. */
  ghost predicate ReportsOn(s: Desk, o: Output) {
    match o
    case Completed(t, text) => exists r :: r in s.runs && r.ticket == t && r.completed && text == TextOf(r)
    case Fallback(t, text) => exists r :: r in s.runs && r.ticket == t && r.completed && text == TextOf(r)
    case Stopped(t, report) => exists r :: r in s.runs && r.ticket == t && report == r.report
    case _ => true
  }

  lemma OutputsReport(c: Setup, s: Desk, e: Event, o: Output)
    requires o in EffectOf(c, s, e).outputs
    ensures ReportsOn(s, o)
  {
    hide PutRun, FindRun, AllTaken, Supervised, Marks, Refreshed, Due, AnyActive, Undelivered, WaitTarget, TextOf, IdsOf;
    match e
    case Poll(runId) => FindRunFinds(s.runs, runId);
    case EndInterrupted(runId) => FindRunFinds(s.runs, runId);
    case Tick(now) => TickReports(c, s, now, o);
    case _ =>
  }

  lemma TickReports(c: Setup, s: Desk, now: int, o: Output)
    requires o in TickEffect(c, s, now).outputs
    ensures ReportsOn(s, o)
  {
    hide Supervised, Marks, Refreshed, Due, Undelivered, Pause, ApplyAll, Bumped, TextOf, Reports;
    var n := Refreshed(s.nags, Supervised(ApplyAll(c.broker, s.broker, Pause(s.nags, now)).pending), now);
    var requests := Supervised(ApplyAll(c.broker, s.broker, Pause(s.nags, now)).pending);
    if IsIdleLongEnough(n, now, c.graceMs) {
      IdleIsKnown(n, now, c.graceMs);
      NagsAreNags(Undelivered(requests, s.runs), map[]);
      var due := Due(requests, s.runs, n.tracked, n.idleAt.value, now, c.graceMs, false);
      NagsAreNags(due, Bumped(n.tracked, due, now));
      NagsAreNags(Due(requests, s.runs, n.tracked, n.idleAt.value, now, c.graceMs, true), map[]);
      if o in Reports(s.runs) { FallbackReports(s.runs, o); }
    }
  }

  lemma {:induction false} FallbackReports(runs: seq<Run>, o: Output)
    requires o in Reports(runs)
    ensures exists r :: r in runs && r.completed && o == Fallback(r.ticket, TextOf(r))
  {
    hide TextOf;
    if o in ReportOf(runs[0]) { assert runs[0] in runs; } else { FallbackReports(runs[1..], o); }
  }

  /** Every report that is handed out, by a wait or by the idle fallback, is the one last given for the run since it
      was begun; an interrupted wait returns that or the lack of one. */
  lemma ReportIsLastGiven(c: Setup, run: seq<Event>, e: Event, o: Output) returns (i: nat)
    requires o in EffectOf(c, After(c, run), e).outputs && (o.Completed? || o.Fallback? || o.Stopped?)
    ensures i < |run| && run[i].Begin? && After(c, run[..i]).begun == o.ticket
    ensures var last := LastReport(run, i + 1, run[i].runId);
            if o.Stopped? then o.report == last else last == Some(o.text)
  {
    hide EffectOf, After, AnyActive;
    OutputsReport(c, After(c, run), e, o);
    var r :| r in After(c, run).runs && r.ticket == o.ticket &&
      if o.Stopped? then o.report == r.report else r.completed && o.text == TextOf(r);
    i := RunOrigin(c, run, r);
  }

  // ----- Questions -----

  /** A question for the supervisor that the run waits for. */
  predicate IsOpen(q: B.Request, runId: string) {
    q.runId == runId && q.kind == B.Supervisor && q.expectsReply
  }

  lemma {:induction false} OpenEntries(pending: seq<B.Request>, runId: string, q: B.Request)
    ensures q in Supervised(B.OfRun(pending, runId)) <==> q in pending && IsOpen(q, runId)
  {
    if pending != [] {
      OpenEntries(pending[1..], runId, q);
      assert B.OfRun(pending, runId) == B.OfRun([pending[0]], runId) + B.OfRun(pending[1..], runId);
      SupervisedOfFirst(pending, runId);
    }
  }

  lemma SupervisedOfFirst(pending: seq<B.Request>, runId: string)
    requires pending != []
    ensures var rest := Supervised(B.OfRun(pending[1..], runId));
            Supervised(B.OfRun(pending, runId)) == if IsOpen(pending[0], runId) then [pending[0]] + rest else rest
  {
    var rest := B.OfRun(pending[1..], runId);
    assert [] + rest == rest && ([pending[0]] + rest)[1..] == rest;
    assert [] + Supervised(rest) == Supervised(rest);
  }

  /** A wait on an uncompleted run returns the ids of exactly the open questions, as soon as there are any, and
      nothing before that. */
  lemma QuestionsAre(c: Setup, s: Desk, r: Run) returns (ids: seq<string>)
    requires DistinctRuns(s.runs) && r in s.runs && r.waiting && !r.interrupted && !r.completed
    ensures var f := EffectOf(c, s, Poll(r.runId));
            if exists q :: q in s.broker.pending && IsOpen(q, r.runId) then
              f.outputs == [Questions(ids)] &&
              forall id :: id in ids <==> exists q :: q in s.broker.pending && IsOpen(q, r.runId) && q.id == id
            else f == Same(s)
  {
    hide PutRun, Marks, DistinctRuns, IsOpen;
    FoundIsOnly(s.runs, r);
    var open := Supervised(B.OfRun(s.broker.pending, r.runId));
    forall q { OpenEntries(s.broker.pending, r.runId, q); }
    ids := IdsOf(open);
    forall id ensures id in ids <==> exists q :: q in open && q.id == id {
      if id in ids {
        var i :| 0 <= i < |ids| && ids[i] == id;
        assert open[i] in open && open[i].id == id;
      }
      if q :| q in open && q.id == id {
        var i :| 0 <= i < |open| && open[i] == q;
        assert ids[i] == id;
      }
    }
    if open != [] { assert open[0] in open; }
  }

  // ----- Held clocks -----

  /** Nobody but the controller holds or releases the clocks of runs. */
  predicate HoldsByController(run: seq<Event>) {
    forall e | e in run && e.OnBroker? :: !e.e.Hold?
  }

  ghost predicate IsUncompleted(runs: seq<Run>, runId: string) {
    exists r :: r in runs && r.runId == runId && !r.completed
  }

  /** The clocks of exactly the uncompleted runs are held. */
  ghost predicate HoldsUncompleted(s: Desk) {
    forall runId :: runId in s.broker.held <==> IsUncompleted(s.runs, runId)
  }

  predicate NoHold(events: seq<B.Event>) {
    forall e | e in events :: !e.Hold?
  }

  lemma StepHeld(c: B.Config, b: B.State, e: B.Event)
    ensures B.Step(c, b, e).state.held ==
            if e.Hold? then (if e.hold then b.held + {e.runId} else b.held - {e.runId}) else b.held
  {
    if e.CancelRun? { B.CancelAllFrame(b, B.IdsOfRun(b.pending, e.runId), e.reason); }
  }

  lemma {:induction false} HeldStays(c: B.Config, b: B.State, events: seq<B.Event>)
    requires NoHold(events)
    ensures ApplyAll(c, b, events).held == b.held
  {
    hide B.Step;
    if events != [] {
      HeldStays(c, b, events[..|events| - 1]);
      StepHeld(c, ApplyAll(c, b, events[..|events| - 1]), events[|events| - 1]);
    }
  }

  lemma {:induction false} MarksHoldNothing(requests: seq<B.Request>)
    ensures NoHold(Marks(requests))
  {
    if requests != [] { MarksHoldNothing(requests[1..]); }
  }

  lemma OneApplied(c: B.Config, b: B.State, e: B.Event)
    ensures ApplyAll(c, b, [e]) == B.Step(c, b, e).state
  {
    hide B.Step;
    assert [e][..0] == [];
  }

  lemma TwoApplied(c: B.Config, b: B.State, d: B.Event, e: B.Event)
    ensures ApplyAll(c, b, [d, e]) == B.Step(c, B.Step(c, b, d).state, e).state
  {
    hide B.Step;
    assert [d, e][..1] == [d];
    OneApplied(c, b, d);
  }

  lemma ReplacedUncompleted(runs: seq<Run>, q: Run, changed: Run, runId: string)
    requires DistinctRuns(runs) && q in runs && changed.runId == q.runId && changed.completed == q.completed
    ensures IsUncompleted(PutRun(runs, changed), runId) <==> IsUncompleted(runs, runId)
  {
    hide PutRun;
    forall x { PutRunEntries(runs, changed, x); }
    forall x | x in runs && x.runId == q.runId ensures x == q {}
    if r :| r in runs && r.runId == runId && !r.completed {
      assert if r == q then changed in PutRun(runs, changed) else r in PutRun(runs, changed);
    }
  }

  lemma TakenUncompleted(runs: seq<Run>, runId: string)
    ensures IsUncompleted(AllTaken(runs), runId) <==> IsUncompleted(runs, runId)
  {
    TakenEntries(runs);
    hide AllTaken;
    if r :| r in runs && r.runId == runId && !r.completed {
      var i :| 0 <= i < |runs| && runs[i] == r;
      assert AllTaken(runs)[i] in AllTaken(runs);
    }
    if r :| r in AllTaken(runs) && r.runId == runId && !r.completed {
      var i :| 0 <= i < |runs| && AllTaken(runs)[i] == r;
      assert runs[i] in runs;
    }
  }

  /** Operations that begin and complete nothing change neither the clocks held nor who is uncompleted. */
  lemma QuietHolds(c: Setup, s: Desk, e: Event)
    requires DistinctRuns(s.runs) && !e.Begin? && !e.Complete? && (e.OnBroker? ==> !e.e.Hold?)
    ensures Step(c, s, e).broker.held == s.broker.held
    ensures forall runId :: IsUncompleted(EffectOf(c, s, e).runs, runId) <==> IsUncompleted(s.runs, runId)
  {
    hide PutRun, FindRun, AllTaken, Supervised, Marks, Refreshed, Due, AnyActive, DistinctRuns, Undelivered, WaitTarget,
      IsUncompleted, Pause, Bumped, ApplyAll;
    HeldStays(c.broker, s.broker, EffectOf(c, s, e).onBroker) by { QuietEvents(c, s, e); }
    forall runId ensures IsUncompleted(EffectOf(c, s, e).runs, runId) <==> IsUncompleted(s.runs, runId) {
      match e
      case StartWait(given) =>
        WaitTargetFinds(s.runs, given);
        var q := WaitTarget(s.runs, given);
        if q.Some? { ReplacedUncompleted(s.runs, q.value, q.value.(waiting := true, interrupted := false), runId); }
      case Poll(id) =>
        FindRunFinds(s.runs, id);
        var q := FindRun(s.runs, id);
        if q.Some? {
          ReplacedUncompleted(s.runs, q.value, q.value.(waiting := false), runId);
          ReplacedUncompleted(s.runs, q.value, q.value.(waiting := false, delivered := true), runId);
        }
      case Interrupt(id, _) =>
        FindRunFinds(s.runs, id);
        var q := FindRun(s.runs, id);
        if q.Some? { ReplacedUncompleted(s.runs, q.value, q.value.(interrupted := true), runId); }
      case EndInterrupted(id) =>
        FindRunFinds(s.runs, id);
        var q := FindRun(s.runs, id);
        if q.Some? { ReplacedUncompleted(s.runs, q.value, q.value.(waiting := false, delivered := true), runId); }
      case Tick(now) => TakenUncompleted(s.runs, runId);
      case _ =>
    }
  }

  lemma QuietEvents(c: Setup, s: Desk, e: Event)
    requires !e.Begin? && !e.Complete? && (e.OnBroker? ==> !e.e.Hold?)
    ensures NoHold(EffectOf(c, s, e).onBroker)
  {
    hide PutRun, FindRun, AllTaken, Supervised, Marks, Refreshed, Due, AnyActive, Undelivered, WaitTarget, Bumped, ApplyAll;
    match e
    case Poll(runId) => MarksHoldNothing(Supervised(B.OfRun(s.broker.pending, runId)));
    case Tick(now) =>
      var requests := Supervised(ApplyAll(c.broker, s.broker, Pause(s.nags, now)).pending);
      MarksHoldNothing(Undelivered(requests, s.runs));
    case _ =>
  }

  lemma BeginHolds(c: Setup, s: Desk, runId: string)
    requires DistinctRuns(s.runs) && HoldsUncompleted(s)
    ensures HoldsUncompleted(Step(c, s, Begin(runId)))
  {
    hide PutRun, B.Step, DistinctRuns;
    if !AnyActive(s.runs) {
      var e, fresh' := B.Hold(runId, true), NewRun(s.begun, runId);
      OneApplied(c.broker, s.broker, e);
      StepHeld(c.broker, s.broker, e);
      forall x { PutRunEntries(s.runs, fresh', x); }
      forall r | r in s.runs ensures r.completed { assert !IsActive(r); }
      assert fresh' in PutRun(s.runs, fresh');
    }
  }

  lemma CompleteReleases(c: Setup, s: Desk, runId: string, report: string)
    requires DistinctRuns(s.runs) && HoldsUncompleted(s)
    ensures HoldsUncompleted(Step(c, s, Complete(runId, report)))
  {
    hide PutRun, B.Step, DistinctRuns;
    FindRunFinds(s.runs, runId);
    var q := FindRun(s.runs, runId);
    if q.Some? {
      var d, e := B.CancelRun(runId, "Workflow execution settled."), B.Hold(runId, false);
      TwoApplied(c.broker, s.broker, d, e);
      StepHeld(c.broker, s.broker, d);
      StepHeld(c.broker, B.Step(c.broker, s.broker, d).state, e);
      var changed := q.value.(report := Some(report), completed := true);
      forall x { PutRunEntries(s.runs, changed, x); }
      forall id | id != runId ensures IsUncompleted(PutRun(s.runs, changed), id) <==> IsUncompleted(s.runs, id) {}
    }
  }

  /** At every moment the clocks of exactly the uncompleted runs are held. */
  lemma {:induction false} UncompletedAreHeld(c: Setup, run: seq<Event>)
    requires HoldsByController(run)
    ensures HoldsUncompleted(After(c, run))
  {
    hide EffectOf, DistinctRuns, HoldsUncompleted, After, Step;
    if run == [] {
      NothingHeld(c);
    } else {
      var shorter, e := run[..|run| - 1], run[|run| - 1];
      UncompletedAreHeld(c, shorter);
      RunsAreDistinct(c, shorter);
      StepHolds(c, After(c, shorter), e);
      AfterIsStep(c, run);
    }
  }

  lemma AfterIsStep(c: Setup, run: seq<Event>)
    requires run != []
    ensures After(c, run) == Step(c, After(c, run[..|run| - 1]), run[|run| - 1])
  {
    hide Step;
  }

  lemma NothingHeld(c: Setup)
    ensures HoldsUncompleted(After(c, []))
  {
  }

  lemma StepHolds(c: Setup, s: Desk, e: Event)
    requires DistinctRuns(s.runs) && HoldsUncompleted(s) && (e.OnBroker? ==> !e.e.Hold?)
    ensures HoldsUncompleted(Step(c, s, e))
  {
    if e.Begin? {
      BeginHolds(c, s, e.runId);
    } else if e.Complete? {
      CompleteReleases(c, s, e.runId, e.report);
    } else {
      hide EffectOf, ApplyAll, IsUncompleted, DistinctRuns;
      QuietHolds(c, s, e);
    }
  }

  /** So a request of an uncompleted run never times out. */
  lemma UncompletedNeverTimesOut(c: Setup, run: seq<Event>, now: int, q: B.Request)
    requires HoldsByController(run) && q in After(c, run).broker.pending && IsUncompleted(After(c, run).runs, q.runId)
    ensures q in B.Step(c.broker, After(c, run).broker, B.Expire(now)).state.pending
  {
    hide After, IsUncompleted;
    UncompletedAreHeld(c, run);
    B.EntriesOfNotDue(After(c, run).broker, After(c, run).broker.pending, now);
  }

  // ----- Cancelled requests -----

  lemma {:induction false} NotOfRunEntries(pending: seq<B.Request>, runId: string, q: B.Request)
    ensures q in B.NotOfRun(pending, runId) <==> q in pending && q.runId != runId
  {
    if pending != [] { NotOfRunEntries(pending[1..], runId, q); }
  }

  lemma CancelledRun(c: B.Config, b: B.State, runId: string, reason: string, q: B.Request)
    requires B.DistinctIds(b.pending)
    ensures q in B.Step(c, b, B.CancelRun(runId, reason)).state.pending <==> q in b.pending && q.runId != runId
  {
    hide B.DistinctIds, B.Step;
    B.CancelRunFrame(c, b, runId, reason);
    NotOfRunEntries(b.pending, runId, q);
  }

  /** Completing or stopping a run leaves none of its requests pending, and all others as they are. */
  lemma EndingCancels(c: Setup, run: seq<Event>, e: Event, q: B.Request)
    requires e.Complete? || e.Stop?
    requires exists r :: r in After(c, run).runs && r.runId == e.runId && (e.Stop? ==> !r.completed)
    ensures q in Step(c, After(c, run), e).broker.pending <==>
            q in After(c, run).broker.pending && q.runId != e.runId
  {
    hide After, B.Step, B.DistinctIds, DistinctRuns, PutRun;
    var s := After(c, run);
    var r :| r in s.runs && r.runId == e.runId && (e.Stop? ==> !r.completed);
    RunsAreDistinct(c, run);
    FoundIsOnly(s.runs, r);
    BrokerIsRun(c, run);
    B.RunKeepsIds(c.broker, BrokerRun(c, run));
    if e.Complete? {
      var d, h := B.CancelRun(e.runId, "Workflow execution settled."), B.Hold(e.runId, false);
      TwoApplied(c.broker, s.broker, d, h);
      CancelledRun(c.broker, s.broker, e.runId, "Workflow execution settled.", q);
      HoldKeepsPending(c.broker, B.Step(c.broker, s.broker, d).state, e.runId, false);
    } else {
      StopCancels(c.broker, s.broker, e.runId, e.managed, q);
    }
  }

  lemma HoldKeepsPending(c: B.Config, b: B.State, runId: string, hold: bool)
    ensures B.Step(c, b, B.Hold(runId, hold)).state.pending == b.pending
  {
  }

  lemma StopCancels(c: B.Config, b: B.State, runId: string, managed: bool, q: B.Request)
    requires B.DistinctIds(b.pending)
    ensures q in ApplyAll(c, b, StopsOnBroker(runId, managed)).pending <==> q in b.pending && q.runId != runId
  {
    hide B.Step, B.DistinctIds;
    var d, e := B.CancelRun(runId, "Workflow stopped."), B.CancelRun(runId, "Workflow interrupted.");
    if managed {
      TwoApplied(c, b, d, e);
      assert StopsOnBroker(runId, managed) == [d, e];
      CancelledRun(c, b, runId, "Workflow stopped.", q);
      B.StepKeepsIds(c, b, d);
      CancelledRun(c, B.Step(c, b, d).state, runId, "Workflow interrupted.", q);
    } else {
      OneApplied(c, b, e);
      assert StopsOnBroker(runId, managed) == [e];
      CancelledRun(c, b, runId, "Workflow interrupted.", q);
    }
  }

  // ----- Beginning -----

  /** A run begins, with a ticket of its own, exactly if no run is uncompleted and none is waited on; it replaces an
      earlier one under its id, and its clocks are held. */
  lemma BeginsIff(c: Setup, s: Desk, runId: string)
    requires DistinctRuns(s.runs)
    ensures var f := EffectOf(c, s, Begin(runId));
            if exists r :: r in s.runs && (!r.completed || r.waiting) then f == Same(s).(outputs := [Rejected])
            else
              && f.onBroker == [B.Hold(runId, true)] && f.nags == s.nags && f.begun == s.begun + 1 && f.outputs == []
              && forall x :: x in f.runs <==>
                   x == Run(s.begun, runId, None, false, false, false, false) || (x in s.runs && x.runId != runId)
  {
    hide PutRun, DistinctRuns;
    forall x ensures x in PutRun(s.runs, NewRun(s.begun, runId)) <==>
                     x == NewRun(s.begun, runId) || (x in s.runs && x.runId != runId)
    {
      PutRunEntries(s.runs, NewRun(s.begun, runId), x);
    }
  }

  // ----- Which run is waited on -----

  /** A wait is on the given run, else on the first uncompleted one, else on the last one begun under a new id. */
  ghost predicate IsTarget(runs: seq<Run>, given: Option<string>, r: Run) {
    if given.Some? then r in runs && r.runId == given.value
    else if exists x :: x in runs && !x.completed then
      exists i :: 0 <= i < |runs| && runs[i] == r && !r.completed && forall j | 0 <= j < i :: runs[j].completed
    else runs != [] && r == runs[|runs| - 1]
  }

  lemma {:induction false} FirstUncompletedIs(runs: seq<Run>) returns (i: nat)
    ensures FirstUncompleted(runs).None? ==> forall x | x in runs :: x.completed
    ensures FirstUncompleted(runs).Some? ==>
      i < |runs| && !runs[i].completed && FirstUncompleted(runs) == Some(runs[i].runId) &&
      forall j | 0 <= j < i :: runs[j].completed
  {
    i := 0;
    if runs != [] && runs[0].completed {
      var rest := runs[1..];
      i := FirstUncompletedIs(rest);
      i := i + 1;
      assert forall j | 0 < j < |runs| :: runs[j] == rest[j - 1];
      assert runs == [runs[0]] + rest;
    }
  }

  lemma TargetIs(runs: seq<Run>, given: Option<string>, r: Run)
    requires DistinctRuns(runs)
    ensures WaitTarget(runs, given) == Some(r) <==> IsTarget(runs, given, r)
  {
    hide FirstUncompleted, FindRun;
    var i := FirstUncompletedIs(runs);
    if r in runs { FoundIsOnly(runs, r); }
    if given.Some? {
      FindRunFinds(runs, given.value);
    } else if FirstUncompleted(runs).Some? {
      FoundIsOnly(runs, runs[i]);
      if k :| 0 <= k < |runs| && runs[k] == r && !r.completed && forall j | 0 <= j < k :: runs[j].completed { assert k == i; }
    } else if runs != [] {
      FoundIsOnly(runs, runs[|runs| - 1]);
    }
  }

  /** Starting a wait marks exactly that run as waited on, unless it is waited on already or there is none. */
  lemma WaitIsOn(c: Setup, s: Desk, given: Option<string>)
    requires DistinctRuns(s.runs)
    ensures var f := EffectOf(c, s, StartWait(given));
            && f.onBroker == [] && f.nags == s.nags
            && (forall r | IsTarget(s.runs, given, r) && !r.waiting ::
                  f.outputs == [] && forall x :: x in f.runs <==>
                    x == r.(waiting := true, interrupted := false) || (x in s.runs && x.runId != r.runId))
            && ((forall r | IsTarget(s.runs, given, r) :: r.waiting) ==> f == Same(s).(outputs := [Rejected]))
  {
    hide PutRun, WaitTarget, DistinctRuns, IsTarget;
    forall r { TargetIs(s.runs, given, r); }
    var t := WaitTarget(s.runs, given);
    if t.Some? {
      assert IsTarget(s.runs, given, t.value);
      forall x { PutRunEntries(s.runs, t.value.(waiting := true, interrupted := false), x); }
    }
  }

  // ----- Reminders -----

  lemma {:induction false} ReminderEntry(reminders: seq<B.Request>, tracked: map<string, Track>, t: nat, n: nat)
    requires Reminder(t, n) in ReminderOutputs(reminders, tracked)
    ensures exists r :: r in reminders && r.ticket == t && n == if r.id in tracked then tracked[r.id].count else 0
  {
    var r := reminders[0];
    if Reminder(t, n) in ReminderOutputs(reminders[1..], tracked) { ReminderEntry(reminders[1..], tracked, t, n); }
  }

  lemma ReminderIsDue(c: Setup, s: Desk, now: int, t: nat, n: nat) returns (r: B.Request)
    requires Reminder(t, n) in TickEffect(c, s, now).outputs
    ensures var refreshed := Refreshed(s.nags, Requests(c, s, now), now);
            r in Requests(c, s, now) && r.ticket == t && r.id in refreshed.tracked && n == refreshed.tracked[r.id].count + 1
  {
    hide Supervised, Refreshed, Undelivered, Pause, ApplyAll, Due, Reports;
    RequestsAre(c, s, now);
    var requests := Requests(c, s, now);
    var refreshed := Refreshed(s.nags, requests, now);
    IdleIsKnown(refreshed, now, c.graceMs);
    var idleAt := refreshed.idleAt.value;
    var due := Due(requests, s.runs, refreshed.tracked, idleAt, now, c.graceMs, false);
    NagsAreNags(Undelivered(requests, s.runs), map[]);
    NagsAreNags(Due(requests, s.runs, refreshed.tracked, idleAt, now, c.graceMs, true), map[]);
    ReportsAreFallbacks(s.runs);
    var bumped := Bumped(refreshed.tracked, due, now);
    ReminderEntry(due, bumped, t, n);
    r :| r in due && r.ticket == t && n == if r.id in bumped then bumped[r.id].count else 0;
    DueEntries(requests, s.runs, refreshed.tracked, idleAt, now, c.graceMs, false, r);
    assert r.id in IdSet(due);
  }

  /** A reminder says how many reminders its request will have had with it, those inherited under its id
      included; so never more than three. */
  lemma ReminderNumbers(c: Setup, run: seq<Event>, now: int, t: nat, n: nat)
    requires Reminder(t, n) in EffectOf(c, After(c, run), Tick(now)).outputs
    ensures n == Reminded(c, run)[t] + Inherited(c, run, t) + 1 && Reminded(c, run)[t] <= 2
  {
    hide After, TickEffect, Requests, B.After, ApplyAll, Refreshed, Pause, Reminded, NotifiedOf, NagInvariant, Inherited,
      BrokerRun, RemindersIn, NagInvariant, RemindersDue, NoticesDue, B.TicketsOf;
    var s := After(c, run);
    NagInvariantHolds(c, run, t);
    var r := ReminderIsDue(c, s, now, t, n);
    DecidingAccounts(c, run, now, t);
    RequestsAre(c, s, now);
    SupervisedEntries(ApplyAll(c.broker, s.broker, Pause(s.nags, now)).pending);
    var refreshed := Refreshed(s.nags, Requests(c, s, now), now);
    assert AccountedEntry(refreshed, r, Reminded(c, run)[t], NotifiedOf(c, run)[t], Inherited(c, run, t));
    BoundedNagging(c, run + [Tick(now)], t);
    RemindedAfter(c, run, now, t, n);
  }

  lemma RemindedAfter(c: Setup, run: seq<Event>, now: int, t: nat, n: nat)
    requires Reminder(t, n) in EffectOf(c, After(c, run), Tick(now)).outputs
    ensures Reminded(c, run + [Tick(now)])[t] >= Reminded(c, run)[t] + 1
  {
    hide After, TickEffect;
    assert (run + [Tick(now)])[..|run|] == run;
    ReminderCounts(TickEffect(c, After(c, run), now).outputs, t, n);
  }

  lemma {:induction false} ReminderCounts(outputs: seq<Output>, t: nat, n: nat)
    requires Reminder(t, n) in outputs
    ensures RemindersIn(outputs)[t] >= 1
  {
    if outputs[0] != Reminder(t, n) { ReminderCounts(outputs[1..], t, n); }
  }

  // ----- Paused clocks -----

  /** The time of the last tick since the reminders were last cleared. */
  function LastTickTime(run: seq<Event>): Option<int> {
    if run == [] || run[|run| - 1].Clear? then None
    else if run[|run| - 1].Tick? then Some(run[|run| - 1].now)
    else LastTickTime(run[..|run| - 1])
  }

  lemma {:induction false} LastTickIs(c: Setup, run: seq<Event>)
    ensures After(c, run).nags.lastTick == LastTickTime(run)
  {
    hide EffectOf, ApplyAll, After;
    if run == [] {
      NothingTicked(c);
    } else {
      LastTickIs(c, run[..|run| - 1]);
      AfterUnfolds(c, run);
      TickSets(c, After(c, run[..|run| - 1]), run[|run| - 1]);
    }
  }

  lemma NothingTicked(c: Setup)
    ensures After(c, []).nags.lastTick == None
  {
  }

  lemma TickSets(c: Setup, s: Desk, e: Event)
    ensures EffectOf(c, s, e).nags.lastTick ==
            if e.Tick? then Some(e.now) else if e.Clear? then None else s.nags.lastTick
  {
    hide PutRun, FindRun, AllTaken, Supervised, Marks, Due, AnyActive, Undelivered, WaitTarget, Bumped, ApplyAll, Tracking,
      Pause, IdSet, Pruned;
  }

  predicate NoExtend(events: seq<B.Event>) {
    forall e | e in events :: !e.Extend?
  }

  /** While the supervisor is not idle, a tick moves every deadline by the time since the tick before it, and
      nothing else ever moves one. */
  lemma TickPauses(c: Setup, run: seq<Event>, now: int)
    ensures var on := EffectOf(c, After(c, run), Tick(now)).onBroker;
            exists rest :: NoExtend(rest) &&
              on == (if After(c, run).nags.idleAt.None? && LastTickTime(run).Some?
                     then [B.Extend(Max(0, now - LastTickTime(run).value))] else []) + rest
    ensures forall e: Event | !e.Tick? && !e.OnBroker? :: NoExtend(EffectOf(c, After(c, run), e).onBroker)
  {
    hide After, Supervised, Marks, Due, Undelivered, Bumped, ApplyAll, Tracking, PutRun, FindRun, AllTaken, AnyActive, WaitTarget,
      Refreshed, Reports, IsIdleLongEnough;
    LastTickIs(c, run);
    TickRest(c, After(c, run), now);
    forall e: Event | !e.Tick? && !e.OnBroker? ensures NoExtend(EffectOf(c, After(c, run), e).onBroker) {
      NeverExtends(c, After(c, run), e);
    }
  }

  lemma TickRest(c: Setup, s: Desk, now: int)
    ensures exists rest :: NoExtend(rest) && TickEffect(c, s, now).onBroker == Pause(s.nags, now) + rest
  {
    hide Supervised, Marks, Due, Undelivered, Bumped, ApplyAll, Refreshed, Reports, Pause;
    var pause := Pause(s.nags, now);
    var requests := Supervised(ApplyAll(c.broker, s.broker, pause).pending);
    var undelivered := Undelivered(requests, s.runs);
    MarksExtendNothing(undelivered);
    var rest := TickEffect(c, s, now).onBroker[|pause|..];
    var marked := Marks(undelivered) + [B.SetBusy(true)];
    assert pause + Marks(undelivered) + [B.SetBusy(true)] == pause + marked;
    assert rest == [] || rest == [B.SetBusy(true)] || rest == marked;
    assert TickEffect(c, s, now).onBroker == pause + rest;
  }

  lemma {:induction false} MarksExtendNothing(requests: seq<B.Request>)
    ensures NoExtend(Marks(requests))
  {
    if requests != [] { MarksExtendNothing(requests[1..]); }
  }

  lemma NeverExtends(c: Setup, s: Desk, e: Event)
    requires !e.Tick? && !e.OnBroker?
    ensures NoExtend(EffectOf(c, s, e).onBroker)
  {
    hide Supervised, Marks, PutRun, FindRun, AnyActive, WaitTarget;
    if e.Poll? { MarksExtendNothing(Supervised(B.OfRun(s.broker.pending, e.runId))); }
  }

  // ----- Who is asked, and who is handed what -----

  ghost predicate SomebodyWaits(runs: seq<Run>, runId: string) {
    exists r :: r in runs && r.runId == runId && r.waiting
  }

  lemma WaiterIs(runs: seq<Run>, runId: string)
    requires DistinctRuns(runs)
    ensures HasWaiter(runs, runId) <==> SomebodyWaits(runs, runId)
  {
    hide DistinctRuns;
    FindRunFinds(runs, runId);
    if r :| r in runs && r.runId == runId && r.waiting { FoundIsOnly(runs, r); }
  }

  lemma {:induction false} UndeliveredEntries(requests: seq<B.Request>, runs: seq<Run>, q: B.Request)
    ensures q in Undelivered(requests, runs) <==> q in requests && !q.inlineDelivered && !HasWaiter(runs, q.runId)
  {
    hide HasWaiter;
    if requests != [] { UndeliveredEntries(requests[1..], runs, q); }
  }

  lemma {:induction false} QuestionEntries(requests: seq<B.Request>, t: nat)
    ensures Question(t) in QuestionOutputs(requests) <==> exists q :: q in requests && q.ticket == t
  {
    if requests != [] {
      QuestionEntries(requests[1..], t);
      assert requests[0] in requests;
    }
  }

  /** The idle fallback asks exactly the open questions that were never shown and whose run nobody waits on, once
      the supervisor has been idle for the grace period. */
  lemma FallbackQuestions(c: Setup, s: Desk, now: int, t: nat)
    requires DistinctRuns(s.runs)
    ensures Question(t) in EffectOf(c, s, Tick(now)).outputs <==>
            && s.nags.idleAt.Some? && now - s.nags.idleAt.value >= c.graceMs
            && exists q :: q in Requests(c, s, now) && q.ticket == t && !q.inlineDelivered && !SomebodyWaits(s.runs, q.runId)
  {
    hide Supervised, Due, Undelivered, Pause, ApplyAll, Bumped, DistinctRuns, SomebodyWaits, HasWaiter, Reports, Tracking, Marks;
    RequestsAre(c, s, now);
    var requests := Requests(c, s, now);
    var n := Refreshed(s.nags, requests, now);
    var undelivered := Undelivered(requests, s.runs);
    forall q ensures q in undelivered <==> q in requests && !q.inlineDelivered && !SomebodyWaits(s.runs, q.runId) {
      UndeliveredEntries(requests, s.runs, q);
      WaiterIs(s.runs, q.runId);
    }
    QuestionEntries(undelivered, t);
    if IsIdleLongEnough(n, now, c.graceMs) {
      var due := Due(requests, s.runs, n.tracked, n.idleAt.value, now, c.graceMs, false);
      NagsAreNags(due, Bumped(n.tracked, due, now));
      NagsAreNags(Due(requests, s.runs, n.tracked, n.idleAt.value, now, c.graceMs, true), map[]);
      ReportsAreFallbacks(s.runs);
    }
  }

  lemma {:induction false} ReportEntries(runs: seq<Run>, o: Output)
    ensures o in Reports(runs) <==>
            exists r :: r in runs && r.completed && !r.waiting && !r.delivered && r.report.Some? && o == Fallback(r.ticket, TextOf(r))
  {
    hide TextOf;
    if runs != [] {
      ReportEntries(runs[1..], o);
      assert runs[0] in runs;
    }
  }

  /** The idle fallback hands out a report only if nobody waits on its run and nobody has it; the run then counts as
      delivered. */
  lemma FallbackIsUnclaimed(c: Setup, s: Desk, now: int, t: nat, text: string)
    requires Fallback(t, text) in EffectOf(c, s, Tick(now)).outputs
    ensures exists r :: r in s.runs && r.ticket == t && r.completed && !r.waiting && !r.delivered && r.report == Some(text)
                        && r.(delivered := true) in EffectOf(c, s, Tick(now)).runs
  {
    hide Supervised, Refreshed, Undelivered, Pause, ApplyAll, Due, Reports, Bumped, Marks, AllTaken;
    RequestsAre(c, s, now);
    var requests := Requests(c, s, now);
    var n := Refreshed(s.nags, requests, now);
    IdleIsKnown(n, now, c.graceMs);
    NagsAreNags(Undelivered(requests, s.runs), map[]);
    var due := Due(requests, s.runs, n.tracked, n.idleAt.value, now, c.graceMs, false);
    NagsAreNags(due, Bumped(n.tracked, due, now));
    NagsAreNags(Due(requests, s.runs, n.tracked, n.idleAt.value, now, c.graceMs, true), map[]);
    ReportEntries(s.runs, Fallback(t, text));
    TakenEntries(s.runs);
    var r :| r in s.runs && r.completed && !r.waiting && !r.delivered && r.report.Some? &&
      Fallback(t, text) == Fallback(r.ticket, TextOf(r));
    var i :| 0 <= i < |s.runs| && s.runs[i] == r;
    assert AllTaken(s.runs)[i] == r.(delivered := true);
  }

  /** A wait that is not interrupted returns the report of a completed run once, and then only says so; an
      interrupted one, or none, returns nothing here. */
  lemma PollOfCompleted(c: Setup, s: Desk, r: Run)
    requires DistinctRuns(s.runs) && r in s.runs
    ensures var f := EffectOf(c, s, Poll(r.runId));
            && (!r.waiting || r.interrupted ==> f == Same(s))
            && (r.waiting && !r.interrupted && r.completed ==>
                  && f.onBroker == []
                  && f.outputs == [if r.delivered then AlreadyDelivered(r.ticket) else Completed(r.ticket, TextOf(r))]
                  && forall x :: x in f.runs <==>
                       x == r.(waiting := false, delivered := true) || (x in s.runs && x.runId != r.runId))
  {
    hide DistinctRuns, PutRun, Supervised, Marks, TextOf;
    FoundIsOnly(s.runs, r);
    forall x { PutRunEntries(s.runs, r.(waiting := false, delivered := true), x); }
    assert r.delivered ==> r.(waiting := false) == r.(waiting := false, delivered := true);
  }

  // ----- Questions that were shown -----

  lemma {:induction false} MarksAreMarks(requests: seq<B.Request>, q: B.Request)
    ensures forall e | e in Marks(requests) :: e.MarkInline?
    ensures q in requests && !q.inlineDelivered ==> B.MarkInline(q.id) in Marks(requests)
  {
    if requests != [] { MarksAreMarks(requests[1..], q); }
  }

  lemma {:induction false} MarkedEntries(pending: seq<B.Request>, id: string, q: B.Request)
    ensures q in B.Marked(pending, id) <==> exists p :: p in pending && q == B.MarkOne(p, id)
  {
    if pending != [] {
      MarkedEntries(pending[1..], id, q);
      assert pending[0] in pending;
    }
  }

  lemma StepMarks(c: B.Config, b: B.State, id: string, q: B.Request) returns (p: B.Request)
    requires q in B.Step(c, b, B.MarkInline(id)).state.pending
    ensures p in b.pending && q == B.MarkOne(p, id)
  {
    MarkedEntries(b.pending, id, q);
    p :| p in b.pending && q == B.MarkOne(p, id);
  }

  /** What is pending after marks was pending before, and is delivered inline if it was, or if its id is marked. */
  lemma {:induction false} MarksDeliver(c: B.Config, b: B.State, events: seq<B.Event>, q: B.Request) returns (p: B.Request)
    requires forall e | e in events :: e.MarkInline?
    requires q in ApplyAll(c, b, events).pending
    ensures p in b.pending && q == p.(inlineDelivered := q.inlineDelivered)
    ensures q.inlineDelivered <==> p.inlineDelivered || B.MarkInline(q.id) in events
  {
    hide B.Step;
    if events == [] {
      p := q;
    } else {
      var k := |events| - 1;
      var fewer := events[..k];
      assert events == fewer + [events[k]] && events[k] in events && forall e | e in fewer :: e in events;
      var last := StepMarks(c, ApplyAll(c, b, fewer), events[k].id, q);
      p := MarksDeliver(c, b, fewer, last);
    }
  }

  /** What a wait returned as open questions counts as delivered inline from then on. */
  lemma ReturnedIsDelivered(c: Setup, run: seq<Event>, runId: string, ids: seq<string>, q: B.Request)
    requires Questions(ids) in EffectOf(c, After(c, run), Poll(runId)).outputs && q.id in ids
    requires q in Step(c, After(c, run), Poll(runId)).broker.pending
    ensures q.inlineDelivered
  {
    hide After, PutRun, Supervised, Marks, ApplyAll, B.DistinctIds;
    var s := After(c, run);
    var open := Supervised(B.OfRun(s.broker.pending, runId));
    var i :| 0 <= i < |ids| && ids[i] == q.id;
    OpenEntries(s.broker.pending, runId, open[i]);
    MarksAreMarks(open, open[i]);
    var p := MarksDeliver(c.broker, s.broker, Marks(open), q);
    BrokerIsRun(c, run);
    B.RunKeepsIds(c.broker, BrokerRun(c, run));
    if open[i].inlineDelivered { SameId(s.broker.pending, p, open[i]); }
  }

  lemma SameId(pending: seq<B.Request>, p: B.Request, q: B.Request)
    requires B.DistinctIds(pending) && p in pending && q in pending && p.id == q.id
    ensures p == q
  {
  }

  /** So does what the idle fallback asks. */
  lemma AskedIsDelivered(c: Setup, s: Desk, now: int, p: B.Request, q: B.Request)
    requires DistinctRuns(s.runs) && s.nags.idleAt.Some? && now - s.nags.idleAt.value >= c.graceMs
    requires p in Requests(c, s, now) && !p.inlineDelivered && !SomebodyWaits(s.runs, p.runId)
    requires q in Step(c, s, Tick(now)).broker.pending && q.id == p.id
    ensures q.inlineDelivered
  {
    hide Supervised, Due, Undelivered, Pause, ApplyAll, Bumped, DistinctRuns, SomebodyWaits, HasWaiter, Reports, Tracking, Marks,
      B.Step;
    RequestsAre(c, s, now);
    var undelivered := Undelivered(Requests(c, s, now), s.runs);
    UndeliveredEntries(Requests(c, s, now), s.runs, p);
    WaiterIs(s.runs, p.runId);
    var pause, marks := Pause(s.nags, now), Marks(undelivered);
    MarksAreMarks(undelivered, p);
    BusyAfterMarks(c.broker, s.broker, pause, marks, q);
    var old' := MarksDeliver(c.broker, ApplyAll(c.broker, s.broker, pause), marks, q);
  }

  lemma BusyAfterMarks(c: B.Config, b: B.State, pause: seq<B.Event>, marks: seq<B.Event>, q: B.Request)
    requires q in ApplyAll(c, b, pause + marks + [B.SetBusy(true)]).pending
    ensures q in ApplyAll(c, ApplyAll(c, b, pause), marks).pending
  {
    hide B.Step;
    var all := pause + marks + [B.SetBusy(true)];
    assert all[..|all| - 1] == pause + marks;
    ApplyTwice(c, b, pause, marks);
    BusyKeepsPending(c, ApplyAll(c, b, pause + marks));
  }

  lemma {:induction false} ApplyTwice(c: B.Config, b: B.State, first: seq<B.Event>, second: seq<B.Event>)
    ensures ApplyAll(c, b, first + second) == ApplyAll(c, ApplyAll(c, b, first), second)
  {
    hide B.Step;
    if second == [] {
      assert first + second == first;
    } else {
      var k := |second| - 1;
      var all := first + second;
      assert all[..|all| - 1] == first + second[..k];
      ApplyTwice(c, b, first, second[..k]);
    }
  }

  lemma BusyKeepsPending(c: B.Config, b: B.State)
    ensures B.Step(c, b, B.SetBusy(true)).state.pending == b.pending
  {
  }

  // ----- Stopped clocks -----

  /** Nobody but the reminders says that the supervisor is busy. */
  predicate BusyByReminders(run: seq<Event>) {
    forall e | e in run && e.OnBroker? :: !e.e.SetBusy?
  }

  /** The supervisor is busy: it became so, or a tick asked or reminded it, and it has not settled since. */
  ghost predicate IsBusy(c: Setup, run: seq<Event>) {
    if run == [] then false
    else
      var shorter, last := run[..|run| - 1], run[|run| - 1];
      match last
      case BecomeBusy => true
      case BecomeSettled(_) => false
      case Clear => false
      case Tick(_) => AsksOrReminds(EffectOf(c, After(c, shorter), last).outputs) || IsBusy(c, shorter)
      case _ => IsBusy(c, shorter)
  }

  /** The clocks of supervisor requests stand still exactly while the supervisor is busy. */
  lemma {:induction false} BusyIs(c: Setup, run: seq<Event>)
    requires BusyByReminders(run)
    ensures After(c, run).broker.busy <==> IsBusy(c, run)
  {
    hide EffectOf, ApplyAll, After, AsksOrReminds;
    if run == [] {
      NothingBusy(c);
    } else {
      var shorter, e := run[..|run| - 1], run[|run| - 1];
      BusyIs(c, shorter);
      AfterUnfolds(c, run);
      StepBusy(c, After(c, shorter), e);
    }
  }

  lemma NothingBusy(c: Setup)
    ensures !After(c, []).broker.busy
  {
  }

  predicate NoBusy(events: seq<B.Event>) {
    forall e | e in events :: !e.SetBusy?
  }

  lemma {:induction false} BusyStays(c: B.Config, b: B.State, events: seq<B.Event>)
    requires NoBusy(events)
    ensures ApplyAll(c, b, events).busy == b.busy
  {
    hide B.Step;
    if events != [] {
      BusyStays(c, b, events[..|events| - 1]);
      B.StepFlags(c, ApplyAll(c, b, events[..|events| - 1]), events[|events| - 1], "");
    }
  }

  lemma BusyLast(c: B.Config, b: B.State, events: seq<B.Event>, busy: bool)
    ensures ApplyAll(c, b, events + [B.SetBusy(busy)]).busy == busy
  {
    hide B.Step;
    var all := events + [B.SetBusy(busy)];
    assert all[..|all| - 1] == events;
    B.StepFlags(c, ApplyAll(c, b, events), B.SetBusy(busy), "");
  }

  lemma StepBusy(c: Setup, s: Desk, e: Event)
    requires e.OnBroker? ==> !e.e.SetBusy?
    ensures ApplyAll(c.broker, s.broker, EffectOf(c, s, e).onBroker).busy ==
            match e
            case BecomeBusy => true
            case BecomeSettled(_) => false
            case Clear => false
            case Tick(_) => AsksOrReminds(EffectOf(c, s, e).outputs) || s.broker.busy
            case _ => s.broker.busy
  {
    hide PutRun, FindRun, AllTaken, Supervised, Marks, Refreshed, Due, AnyActive, Undelivered, WaitTarget, Pause, Bumped, ApplyAll,
      AsksOrReminds;
    match e
    case BecomeBusy => assert [] + [B.SetBusy(true)] == [B.SetBusy(true)]; BusyLast(c.broker, s.broker, [], true);
    case BecomeSettled(_) => assert [] + [B.SetBusy(false)] == [B.SetBusy(false)]; BusyLast(c.broker, s.broker, [], false);
    case Clear => assert [] + [B.SetBusy(false)] == [B.SetBusy(false)]; BusyLast(c.broker, s.broker, [], false);
    case Tick(now) => TickBusy(c, s, now);
    case _ => BusyStays(c.broker, s.broker, EffectOf(c, s, e).onBroker) by { QuietBusy(c, s, e); }
  }

  lemma QuietBusy(c: Setup, s: Desk, e: Event)
    requires !e.Tick? && !e.BecomeBusy? && !e.BecomeSettled? && !e.Clear? && (e.OnBroker? ==> !e.e.SetBusy?)
    ensures NoBusy(EffectOf(c, s, e).onBroker)
  {
    hide PutRun, FindRun, Supervised, Marks, AnyActive, WaitTarget;
    if e.Poll? {
      var open := Supervised(B.OfRun(s.broker.pending, e.runId));
      forall x | x in Marks(open) ensures !x.SetBusy? { MarksOnly(open, x); }
    }
  }

  lemma {:induction false} MarksOnly(requests: seq<B.Request>, e: B.Event)
    requires e in Marks(requests)
    ensures e.MarkInline?
  {
    if requests != [] && e in Marks(requests[1..]) { MarksOnly(requests[1..], e); }
  }

  lemma TickBusy(c: Setup, s: Desk, now: int)
    ensures var f := TickEffect(c, s, now);
            ApplyAll(c.broker, s.broker, f.onBroker).busy == (AsksOrReminds(f.outputs) || s.broker.busy)
  {
    hide Supervised, Refreshed, Due, Undelivered, Pause, ApplyAll, Bumped, Marks, Reports, AsksOrReminds;
    var pause := Pause(s.nags, now);
    var requests := Supervised(ApplyAll(c.broker, s.broker, pause).pending);
    var n := Refreshed(s.nags, requests, now);
    var undelivered := Undelivered(requests, s.runs);
    PauseIsQuiet(s.nags, now);
    BusyStays(c.broker, s.broker, pause);
    BusyLast(c.broker, s.broker, pause + Marks(undelivered), true);
    BusyLast(c.broker, s.broker, pause, true);
    NothingAsked();
    if IsIdleLongEnough(n, now, c.graceMs) {
      IdleIsKnown(n, now, c.graceMs);
      var due := Due(requests, s.runs, n.tracked, n.idleAt.value, now, c.graceMs, false);
      var exhausted := Due(requests, s.runs, n.tracked, n.idleAt.value, now, c.graceMs, true);
      QuestionOutputsAsk(undelivered, map[]);
      QuestionOutputsAsk(due, Bumped(n.tracked, due, now));
      NoticesAskNothing(exhausted, s.runs);
    }
  }

  lemma PauseIsQuiet(n: Nags, now: int)
    ensures NoBusy(Pause(n, now))
  {
  }

  lemma NothingAsked()
    ensures !AsksOrReminds([])
  {
  }

  lemma NoticesAskNothing(exhausted: seq<B.Request>, runs: seq<Run>)
    ensures !AsksOrReminds(NotifyOutputs(exhausted) + Reports(runs))
  {
    NagsAreNags(exhausted, map[]);
    ReportsAreFallbacks(runs);
    hide NotifyOutputs, Reports;
  }
}
