/** The workflow controller and the supervisor reminders as objects that update their fields
    (extensions/workflow-controller.ts), against the effects of WorkflowControl. */
module ControllerObjects {
  import opened Values
  import opened WorkflowControl
  import opened Reminders
  import B = Broker
  import BrokerObject

  // ----- The controller as an object -----

  /** An operation that found `s` has left `t` and given `outputs`, as the effect f says. */
  ghost predicate Does(c: B.Config, s: Desk, f: Effect, t: Desk, outputs: seq<Output>) {
    t == Desk(ApplyAll(c, s.broker, f.onBroker), f.runs, f.nags, f.begun) && outputs == f.outputs
  }

  const NO_NAGS := Nags(None, map[], {}, None)

  lemma ApplyNone(c: B.Config, s: B.State)
    ensures ApplyAll(c, s, []) == s
  {
  }

  lemma ApplyOne(c: B.Config, s: B.State, e: B.Event)
    ensures ApplyAll(c, s, [e]) == B.Step(c, s, e).state
  {
    hide B.Step;
    assert [e][..0] == [];
  }

  lemma ApplyLast(c: B.Config, s: B.State, events: seq<B.Event>, e: B.Event)
    ensures ApplyAll(c, s, events + [e]) == B.Step(c, ApplyAll(c, s, events), e).state
  {
    hide B.Step;
    assert (events + [e])[..|events|] == events;
  }

  ghost function PartlyTaken(runs: seq<Run>, i: nat): seq<Run>
    requires i <= |runs|
  {
    AllTaken(runs[..i]) + runs[i..]
  }

  lemma {:induction false} TakenLast(runs: seq<Run>, r: Run)
    ensures AllTaken(runs + [r]) == AllTaken(runs) + [TakeOne(r)] && |AllTaken(runs)| == |runs|
    ensures Reports(runs + [r]) == Reports(runs) + ReportOf(r)
  {
    hide ReportOf, TakeOne;
    if runs == [] {
      assert [] + [r] == [r] && [r][1..] == [];
    } else {
      assert (runs + [r])[1..] == runs[1..] + [r];
      TakenLast(runs[1..], r);
    }
  }

  lemma TakePartly(runs: seq<Run>, i: nat)
    requires i <= |runs|
    ensures |PartlyTaken(runs, i)| == |runs|
    ensures i == 0 ==> PartlyTaken(runs, i) == runs
    ensures i == |runs| ==> PartlyTaken(runs, i) == AllTaken(runs)
    ensures i < |runs| ==> PartlyTaken(runs, i)[i] == runs[i] &&
                           PartlyTaken(runs, i + 1) == PartlyTaken(runs, i)[i := TakeOne(runs[i])] &&
                           Reports(runs[..i + 1]) == Reports(runs[..i]) + ReportOf(runs[i])
  {
    hide AllTaken, TakeOne, ReportOf, Reports;
    NothingTaken();
    if i < |runs| {
      assert runs[..i + 1] == runs[..i] + [runs[i]];
      TakenLast(runs[..i], runs[i]);
    } else {
      assert runs[..i] == runs;
      if runs != [] {
        var k := |runs| - 1;
        assert runs == runs[..k] + [runs[k]];
        TakenLast(runs[..k], runs[k]);
      }
    }
  }

  lemma NothingTaken()
    ensures AllTaken([]) == [] && Reports([]) == []
  {
  }

  class WorkflowController {
    const broker: BrokerObject.RequestBroker
    var runs: seq<Run>
    var begun: nat

    ghost predicate Valid()
      reads this, broker
    {
      broker.Valid()
    }

    /** The state, with the reminders' part as the caller knows it. */
    ghost function View(n: Nags): Desk
      reads this, broker
    {
      Desk(broker.View(), runs, n, begun)
    }

    constructor (b: BrokerObject.RequestBroker)
      requires b.Valid()
      ensures broker == b && runs == [] && begun == 0 && Valid()
    {
      broker, runs, begun := b, [], 0;
    }

    method Start(runId: string) returns (outputs: seq<Output>)
      requires Valid()
      modifies this, broker
      ensures Valid()
      ensures Does(broker.config, old(View(NO_NAGS)), BeginEffect(old(View(NO_NAGS)), runId), View(NO_NAGS), outputs)
    {
      hide B.Step, ApplyAll, PutRun, AnyActive;
      ApplyNone(broker.config, broker.View());
      ApplyOne(broker.config, broker.View(), B.Hold(runId, true));
      outputs := [];
      if AnyActive(runs) {
        outputs := [Rejected];
      } else {
        runs := PutRun(runs, NewRun(begun, runId));
        begun := begun + 1;
        broker.HoldSupervisorExpiry(runId, true);
      }
    }

    method Finish(runId: string, report: string)
      requires Valid()
      modifies this, broker
      ensures Valid()
      ensures Does(broker.config, old(View(NO_NAGS)), CompleteEffect(old(View(NO_NAGS)), runId, report), View(NO_NAGS), [])
    {
      hide B.Step, ApplyAll, PutRun, FindRun;
      ghost var cancel, release := B.CancelRun(runId, "Workflow execution settled."), B.Hold(runId, false);
      ApplyNone(broker.config, broker.View());
      ApplyOne(broker.config, broker.View(), cancel);
      ApplyLast(broker.config, broker.View(), [cancel], release);
      assert [cancel] + [release] == [cancel, release];
      var run := FindRun(runs, runId);
      if run.Some? {
        runs := PutRun(runs, run.value.(report := Some(report), completed := true));
        var settled := broker.CancelEveryRequest(runId, "Workflow execution settled.");
        broker.HoldSupervisorExpiry(runId, false);
      }
    }

    method Halt(runId: string, managed: bool)
      requires Valid()
      modifies broker
      ensures Valid()
      ensures Does(broker.config, old(View(NO_NAGS)), StopEffect(old(View(NO_NAGS)), runId, managed), View(NO_NAGS), [])
    {
      hide B.Step, ApplyAll, FindRun;
      ghost var stopped, interrupted := B.CancelRun(runId, "Workflow stopped."), B.CancelRun(runId, "Workflow interrupted.");
      ghost var c, s := broker.config, broker.View();
      ApplyNone(c, s);
      ApplyOne(c, s, interrupted);
      ApplyOne(c, s, stopped);
      ApplyLast(c, s, [stopped], interrupted);
      assert [] + [interrupted] == [interrupted];
      var run := FindRun(runs, runId);
      if run.Some? && !run.value.completed {
        if managed {
          var first := broker.CancelEveryRequest(runId, "Workflow stopped.");
        }
        var second := broker.CancelEveryRequest(runId, "Workflow interrupted.");
      }
    }

    method TakeUndeliveredReports() returns (outputs: seq<Output>)
      modifies this`runs
      ensures runs == AllTaken(old(runs)) && outputs == Reports(old(runs))
    {
      hide AllTaken, Reports;
      ghost var was := runs;
      NothingTaken();
      TakePartly(was, 0);
      outputs := [];
      for i := 0 to |runs|
        invariant |runs| == |was| && runs == PartlyTaken(was, i) && outputs == Reports(was[..i])
      {
        TakePartly(was, i);
        var run := runs[i];
        if run.completed && !run.waiting && !run.delivered && run.report.Some? {
          runs := runs[i := run.(delivered := true)];
          outputs := outputs + [Fallback(run.ticket, run.report.value)];
        } else {
          assert runs == runs[i := run];
        }
      }
      TakePartly(was, |was|);
      assert was[..|was|] == was;
    }

    /** The first part of a wait. */
    method EnterWait(given: Option<string>) returns (outputs: seq<Output>)
      requires Valid()
      modifies this`runs
      ensures Valid()
      ensures Does(broker.config, old(View(NO_NAGS)), StartWaitEffect(old(View(NO_NAGS)), given), View(NO_NAGS), outputs)
    {
      hide B.Step, ApplyAll, PutRun, FindRun, WaitTarget;
      ApplyNone(broker.config, broker.View());
      var run := WaitTarget(runs, given);
      outputs := [];
      if run.None? || run.value.waiting {
        outputs := [Rejected];
      } else {
        runs := PutRun(runs, run.value.(waiting := true, interrupted := false));
      }
    }

    method Abort(runId: string, managed: bool)
      requires Valid()
      modifies this, broker
      ensures Valid()
      ensures Does(broker.config, old(View(NO_NAGS)), InterruptEffect(old(View(NO_NAGS)), runId, managed), View(NO_NAGS), [])
    {
      hide B.Step, ApplyAll, PutRun, FindRun;
      ApplyNone(broker.config, broker.View());
      var run := FindRun(runs, runId);
      if run.Some? && run.value.waiting {
        Halt(runId, managed);
        runs := PutRun(runs, run.value.(interrupted := true));
      }
    }

    /** One turn of the waiting loop. */
    method PollOnce(runId: string) returns (outputs: seq<Output>)
      requires Valid()
      modifies this, broker
      ensures Valid()
      ensures Does(broker.config, old(View(NO_NAGS)), PollEffect(old(View(NO_NAGS)), runId), View(NO_NAGS), outputs)
    {
      hide B.Step, ApplyAll, PutRun, FindRun, Supervised, Marks, B.OfRun;
      ApplyNone(broker.config, broker.View());
      var found := FindRun(runs, runId);
      outputs := [];
      if found.Some? && found.value.waiting && !found.value.interrupted {
        var run := found.value;
        if run.completed {
          if run.delivered {
            runs := PutRun(runs, run.(waiting := false));
            outputs := [AlreadyDelivered(run.ticket)];
          } else {
            runs := PutRun(runs, run.(waiting := false, delivered := true));
            outputs := [Completed(run.ticket, TextOf(run))];
          }
        } else {
          var asked := Supervised(B.OfRun(broker.pending, runId));
          if asked != [] {
            MarkAll(broker, asked);
            runs := PutRun(runs, run.(waiting := false));
            outputs := [Questions(IdsOf(asked))];
          }
        }
      }
    }

    method LeaveInterrupted(runId: string) returns (outputs: seq<Output>)
      requires Valid()
      modifies this`runs
      ensures Valid()
      ensures Does(broker.config, old(View(NO_NAGS)), EndInterruptedEffect(old(View(NO_NAGS)), runId), View(NO_NAGS), outputs)
    {
      hide B.Step, ApplyAll, PutRun, FindRun;
      ApplyNone(broker.config, broker.View());
      var run := FindRun(runs, runId);
      outputs := [];
      if run.Some? && run.value.waiting && run.value.interrupted {
        runs := PutRun(runs, run.value.(waiting := false, delivered := true));
        outputs := [Stopped(run.value.ticket, run.value.report)];
      }
    }
  }

  lemma {:induction false} MarksLast(requests: seq<B.Request>, r: B.Request)
    ensures Marks(requests + [r]) == Marks(requests) + if r.inlineDelivered then [] else [B.MarkInline(r.id)]
  {
    if requests == [] {
      assert [] + [r] == [r] && [r][1..] == [];
    } else {
      assert (requests + [r])[1..] == requests[1..] + [r];
      MarksLast(requests[1..], r);
    }
  }

  /** Marks every request of the list that is not marked yet. */
  method MarkAll(broker: BrokerObject.RequestBroker, requests: seq<B.Request>)
    requires broker.Valid()
    modifies broker
    ensures broker.Valid()
    ensures broker.View() == ApplyAll(broker.config, old(broker.View()), Marks(requests))
  {
    hide B.Step, ApplyAll, Marks;
    ghost var s := broker.View();
    NothingMarked();
    ApplyNone(broker.config, s);
    assert requests[..0] == [];
    for i := 0 to |requests|
      invariant broker.Valid() && broker.View() == ApplyAll(broker.config, s, Marks(requests[..i]))
    {
      assert requests[..i + 1] == requests[..i] + [requests[i]];
      MarksLast(requests[..i], requests[i]);
      assert Marks(requests[..i]) + [] == Marks(requests[..i]);
      ApplyLast(broker.config, s, Marks(requests[..i]), B.MarkInline(requests[i].id));
      if !requests[i].inlineDelivered {
        broker.MarkInlineDelivered(requests[i].id);
      }
    }
    assert requests[..|requests|] == requests;
  }

  lemma NothingMarked()
    ensures Marks([]) == []
  {
  }

  // ----- The reminders as an object -----

  lemma {:induction false} SupervisedDistinct(pending: seq<B.Request>)
    requires B.DistinctIds(pending)
    ensures B.DistinctIds(Supervised(pending))
  {
    if pending != [] {
      assert B.DistinctIds(pending[1..]);
      SupervisedDistinct(pending[1..]);
      SupervisedEntries(pending[1..]);
      B.DistinctCons(pending[0], Supervised(pending[1..]));
      assert [] + Supervised(pending[1..]) == Supervised(pending[1..]);
    }
  }

  lemma {:induction false} DueDistinct(requests: seq<B.Request>, runs: seq<Run>, tracked: map<string, Track>,
                                       idleAt: int, now: int, graceMs: int, exhausted: bool)
    requires B.DistinctIds(requests)
    ensures B.DistinctIds(Due(requests, runs, tracked, idleAt, now, graceMs, exhausted))
  {
    hide IsDue;
    if requests != [] {
      assert B.DistinctIds(requests[1..]);
      var rest := Due(requests[1..], runs, tracked, idleAt, now, graceMs, exhausted);
      DueDistinct(requests[1..], runs, tracked, idleAt, now, graceMs, exhausted);
      forall r | r in rest { DueEntries(requests[1..], runs, tracked, idleAt, now, graceMs, exhausted, r); }
      B.DistinctCons(requests[0], rest);
      assert [] + rest == rest;
    }
  }

  lemma DueAreTracked(requests: seq<B.Request>, runs: seq<Run>, tracked: map<string, Track>, idleAt: int, now: int,
                      graceMs: int, exhausted: bool)
    ensures forall r | r in Due(requests, runs, tracked, idleAt, now, graceMs, exhausted) :: r.id in tracked
  {
    hide Due;
    forall r | r in Due(requests, runs, tracked, idleAt, now, graceMs, exhausted) {
      DueEntries(requests, runs, tracked, idleAt, now, graceMs, exhausted, r);
    }
  }

  class SupervisorReminders {
    const broker: BrokerObject.RequestBroker
    const controller: WorkflowController
    const graceMs: int
    var idleAt: Option<int>
    var tracked: map<string, Track>
    var escalations: set<string>
    var lastTick: Option<int>

    ghost predicate Valid()
      reads this, broker, controller
    {
      controller.broker == broker && broker.Valid()
    }

    ghost function Nagging(): Nags
      reads this
    {
      Nags(idleAt, tracked, escalations, lastTick)
    }

    ghost function View(): Desk
      reads this, broker, controller, controller.broker
    {
      controller.View(Nagging())
    }

    constructor (b: BrokerObject.RequestBroker, c: WorkflowController, grace: int)
      requires b.Valid() && c.broker == b
      ensures broker == b && controller == c && graceMs == grace && Valid()
      ensures Nagging() == NO_NAGS
    {
      broker, controller, graceMs := b, c, grace;
      idleAt, tracked, escalations, lastTick := None, map[], {}, None;
    }

    method Busy()
      requires Valid()
      modifies this`idleAt, broker
      ensures Valid()
      ensures idleAt == None
      ensures broker.View() == B.Step(broker.config, old(broker.View()), B.SetBusy(true)).state
    {
      idleAt := None;
      broker.SetSupervisorBusy(true);
    }

    method Settled(now: int)
      requires Valid()
      modifies this, broker
      ensures Valid()
      ensures Does(broker.config, old(View()), EffectOf(Setup(broker.config, graceMs), old(View()), BecomeSettled(now)),
                   View(), [])
    {
      hide B.Step, ApplyAll;
      ApplyOne(broker.config, broker.View(), B.SetBusy(false));
      broker.SetSupervisorBusy(false);
      idleAt := Some(now);
    }

    method Reset()
      requires Valid()
      modifies this, broker
      ensures Valid()
      ensures Does(broker.config, old(View()), EffectOf(Setup(broker.config, graceMs), old(View()), Clear), View(), [])
    {
      hide B.Step, ApplyAll;
      ApplyOne(broker.config, broker.View(), B.SetBusy(false));
      tracked, escalations, idleAt, lastTick := map[], {}, None, None;
      broker.SetSupervisorBusy(false);
    }

    method Prune(ids: set<string>)
      modifies this`tracked, this`escalations
      ensures tracked == Pruned(old(tracked), ids) && escalations == old(escalations) * ids
    {
      ghost var was := tracked;
      var keys := tracked.Keys;
      while keys != {}
        invariant keys <= was.Keys
        invariant forall id :: id in tracked <==> id in was && (id in keys || id in ids)
        invariant forall id | id in tracked :: tracked[id] == was[id]
        invariant escalations == old(escalations)
        decreases |keys|
      {
        var id :| id in keys;
        keys := keys - {id};
        if id !in ids { tracked := tracked - {id}; }
      }
      assert tracked == Pruned(was, ids);
      var left := escalations;
      while left != {}
        invariant left <= old(escalations)
        invariant forall id :: id in escalations <==> id in old(escalations) && (id in left || id in ids)
        invariant tracked == Pruned(was, ids)
        decreases |left|
      {
        var id :| id in left;
        left := left - {id};
        if id !in ids { escalations := escalations - {id}; }
      }
    }

    method Follow(requests: seq<B.Request>, now: int)
      modifies this`tracked
      ensures tracked == Tracking(requests, old(tracked), escalations, now)
    {
      assert requests[..0] == [];
      for i := 0 to |requests|
        invariant tracked == Tracking(requests[..i], old(tracked), escalations, now)
      {
        assert requests[..i + 1][..i] == requests[..i];
        var r := requests[i];
        if r.inlineDelivered && r.id !in tracked && r.id !in escalations {
          tracked := tracked[r.id := Track(0, now, false)];
        }
      }
      assert requests[..|requests|] == requests;
    }

    method CountUp(reminders: seq<B.Request>, now: int)
      requires B.DistinctIds(reminders) && forall r | r in reminders :: r.id in tracked
      modifies this`tracked
      ensures tracked == Bumped(old(tracked), reminders, now)
    {
      ghost var was := tracked;
      for i := 0 to |reminders|
        invariant tracked.Keys == was.Keys
        invariant forall j | 0 <= j < i :: tracked[reminders[j].id] == Bump(was[reminders[j].id], now)
        invariant forall id | id in was && (forall j | 0 <= j < i :: reminders[j].id != id) :: tracked[id] == was[id]
      {
        var r := reminders[i];
        tracked := tracked[r.id := Bump(tracked[r.id], now)];
      }
      forall id | id in was ensures tracked[id] == Bumped(was, reminders, now)[id] {
        if id in IdSet(reminders) {
          var r :| r in reminders && r.id == id;
          var j :| 0 <= j < |reminders| && reminders[j] == r;
        }
      }
    }

    method Escalate(requests: seq<B.Request>)
      modifies this`tracked, this`escalations
      ensures tracked == old(tracked) - IdSet(requests) && escalations == old(escalations) + IdSet(requests)
    {
      assert requests[..0] == [];
      for i := 0 to |requests|
        invariant tracked == old(tracked) - IdSet(requests[..i])
        invariant escalations == old(escalations) + IdSet(requests[..i])
      {
        assert requests[..i + 1] == requests[..i] + [requests[i]];
        assert IdSet(requests[..i + 1]) == IdSet(requests[..i]) + {requests[i].id};
        tracked := tracked - {requests[i].id};
        escalations := escalations + {requests[i].id};
      }
      assert requests[..|requests|] == requests;
    }

    method PauseClocks(now: int)
      requires Valid()
      modifies this`lastTick, broker
      ensures Valid()
      ensures broker.View() == ApplyAll(broker.config, old(broker.View()), Pause(old(Nagging()), now))
      ensures lastTick == Some(now)
    {
      hide B.Step, ApplyAll;
      ApplyNone(broker.config, broker.View());
      if idleAt.None? && lastTick.Some? {
        var ms := Max(0, now - lastTick.value);
        ApplyOne(broker.config, broker.View(), B.Extend(ms));
        broker.ExtendSupervisorExpiry(ms);
      }
      lastTick := Some(now);
    }

    method Tick(now: int) returns (outputs: seq<Output>)
      requires Valid()
      modifies this, broker, controller
      ensures Valid()
      ensures Does(broker.config, old(View()), TickEffect(Setup(broker.config, graceMs), old(View()), now), View(), outputs)
    {
      hide B.Step, ApplyAll, Supervised, Undelivered, Due, Bumped, Marks, Tracking, Pruned, Pause;
      ghost var s, c := View(), broker.config;
      PauseClocks(now);
      var requests := Supervised(broker.pending);
      SupervisedDistinct(broker.pending);
      Prune(IdSet(requests));
      Follow(requests, now);
      outputs := [];
      if idleAt.None? || now - idleAt.value < graceMs { return; }
      var undelivered := Undelivered(requests, controller.runs);
      if undelivered != [] {
        ghost var b := broker.View();
        MarkAll(broker, undelivered);
        outputs := QuestionOutputs(undelivered);
        Busy();
        ApplyLast(c, b, Marks(undelivered), B.SetBusy(true));
        ApplyInTwo(c, s.broker, Pause(s.nags, now), Marks(undelivered) + [B.SetBusy(true)]);
        assert Pause(s.nags, now) + (Marks(undelivered) + [B.SetBusy(true)]) ==
               Pause(s.nags, now) + Marks(undelivered) + [B.SetBusy(true)];
        return;
      }
      var reminders := Due(requests, controller.runs, tracked, idleAt.value, now, graceMs, false);
      if reminders != [] {
        DueDistinct(requests, controller.runs, tracked, idleAt.value, now, graceMs, false);
        DueAreTracked(requests, controller.runs, tracked, idleAt.value, now, graceMs, false);
        CountUp(reminders, now);
        outputs := ReminderOutputs(reminders, tracked);
        ApplyLast(c, s.broker, Pause(s.nags, now), B.SetBusy(true));
        Busy();
        return;
      }
      var exhausted := Due(requests, controller.runs, tracked, idleAt.value, now, graceMs, true);
      Escalate(exhausted);
      outputs := NotifyOutputs(exhausted);
      var reports := controller.TakeUndeliveredReports();
      outputs := outputs + reports;
    }
  }
}
