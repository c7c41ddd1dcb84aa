/** Foreground control over one workflow run at a time, and the idle-only reminders for unanswered supervisor
    requests (extensions/workflow-controller.ts), on top of the request broker. */
module WorkflowControl {
  import opened Values
  import B = Broker

  /** A controlled run. `ticket` tells apart runs begun under the same id. */
  datatype Run = Run(
    ticket: nat, runId: string, report: Option<string>, completed: bool, delivered: bool, waiting: bool,
    interrupted: bool)

  datatype Track = Track(count: nat, eligibleAt: int, exhausted: bool)

  datatype Nags = Nags(
    idleAt: Option<int>, tracked: map<string, Track>, escalations: set<string>, lastTick: Option<int>)

  datatype Desk = Desk(broker: B.State, runs: seq<Run>, nags: Nags, begun: nat)

  datatype Setup = Setup(broker: B.Config, graceMs: int)

  /** The operations. A wait is cut at its awaits: it starts, polls until something is due, may be
      interrupted, and an interrupted one ends when the run's own promise is done. `managed` says whether
      the workflow manager announces the stop. */
  datatype Event =
    | OnBroker(e: B.Event)
    | Begin(runId: string)
    | Complete(runId: string, report: string)
    | Stop(runId: string, managed: bool)
    | StartWait(given: Option<string>)
    | Poll(runId: string)
    | Interrupt(runId: string, managed: bool)
    | EndInterrupted(runId: string)
    | BecomeBusy
    | BecomeSettled(now: int)
    | Tick(now: int)
    | Clear

  datatype Output =
    | Rejected
    | Completed(ticket: nat, text: string)      // wait returns the report
    | AlreadyDelivered(ticket: nat)             // wait returns without it
    | Stopped(ticket: nat, report: Option<string>)
    | Questions(ids: seq<string>)               // wait returns the open questions
    | Fallback(ticket: nat, text: string)       // the idle fallback sends the report
    | Question(ticket: nat)                     // the idle fallback sends a question
    | Reminder(ticket: nat, count: nat)
    | Notified(ticket: nat)                     // the user is told after three reminders

  /** What an operation does: the broker operations it performs, and the rest of the new state. */
  datatype Effect = Effect(onBroker: seq<B.Event>, runs: seq<Run>, nags: Nags, begun: nat, outputs: seq<Output>)

  const INITIAL := Desk(B.INITIAL, [], Nags(None, map[], {}, None), 0)

  function ApplyAll(c: B.Config, s: B.State, events: seq<B.Event>): B.State {
    if events == [] then s
    else B.Step(c, ApplyAll(c, s, events[..|events| - 1]), events[|events| - 1]).state
  }

  function Same(s: Desk): Effect { Effect([], s.runs, s.nags, s.begun, []) }

  // ----- The controller -----

  function FindRun(runs: seq<Run>, runId: string): Option<Run> {
    if runs == [] then None
    else if runs[0].runId == runId then Some(runs[0])
    else FindRun(runs[1..], runId)
  }

  function PutRun(runs: seq<Run>, r: Run): seq<Run> {
    if runs == [] then [r]
    else if runs[0].runId == r.runId then [r] + runs[1..]
    else [runs[0]] + PutRun(runs[1..], r)
  }

  predicate IsActive(r: Run) { !r.completed || r.waiting }

  predicate AnyActive(runs: seq<Run>) { exists r :: r in runs && IsActive(r) }

  predicate HasWaiter(runs: seq<Run>, runId: string) {
    var r := FindRun(runs, runId);
    r.Some? && r.value.waiting
  }

  function NewRun(ticket: nat, runId: string): Run {
    Run(ticket, runId, None, false, false, false, false)
  }

  function BeginEffect(s: Desk, runId: string): Effect {
    if AnyActive(s.runs) then Same(s).(outputs := [Rejected])
    else
      Effect([B.Hold(runId, true)], PutRun(s.runs, NewRun(s.begun, runId)),
             s.nags, s.begun + 1, [])
  }

  function CompleteEffect(s: Desk, runId: string, report: string): Effect {
    var r := FindRun(s.runs, runId);
    if r.None? then Same(s)
    else
      Same(s).(onBroker := [B.CancelRun(runId, "Workflow execution settled."), B.Hold(runId, false)],
               runs := PutRun(s.runs, r.value.(report := Some(report), completed := true)))
  }

  function StopsOnBroker(runId: string, managed: bool): seq<B.Event> {
    (if managed then [B.CancelRun(runId, "Workflow stopped.")] else []) +
    [B.CancelRun(runId, "Workflow interrupted.")]
  }

  function StopEffect(s: Desk, runId: string, managed: bool): Effect {
    var r := FindRun(s.runs, runId);
    if r.None? || r.value.completed then Same(s) else Same(s).(onBroker := StopsOnBroker(runId, managed))
  }

  /** activeRunId */
  function FirstUncompleted(runs: seq<Run>): Option<string> {
    if runs == [] then None
    else if !runs[0].completed then Some(runs[0].runId)
    else FirstUncompleted(runs[1..])
  }

  function WaitTarget(runs: seq<Run>, given: Option<string>): Option<Run> {
    var active := FirstUncompleted(runs);
    var id := if given.Some? then given
              else if active.Some? then active
              else if runs == [] then None else Some(runs[|runs| - 1].runId);
    if id.None? then None else FindRun(runs, id.value)
  }

  function StartWaitEffect(s: Desk, given: Option<string>): Effect {
    var r := WaitTarget(s.runs, given);
    if r.None? || r.value.waiting then Same(s).(outputs := [Rejected])
    else Same(s).(runs := PutRun(s.runs, r.value.(waiting := true, interrupted := false)))
  }

  function InterruptEffect(s: Desk, runId: string, managed: bool): Effect {
    var r := FindRun(s.runs, runId);
    if r.None? || !r.value.waiting then Same(s)
    else StopEffect(s, runId, managed).(runs := PutRun(s.runs, r.value.(interrupted := true)))
  }

  function Supervised(pending: seq<B.Request>): seq<B.Request> {
    if pending == [] then []
    else
      (if pending[0].kind == B.Supervisor && pending[0].expectsReply then [pending[0]] else []) +
      Supervised(pending[1..])
  }

  function IdsOf(requests: seq<B.Request>): seq<string> {
    seq(|requests|, i requires 0 <= i < |requests| => requests[i].id)
  }

  function Marks(requests: seq<B.Request>): seq<B.Event> {
    if requests == [] then []
    else (if requests[0].inlineDelivered then [] else [B.MarkInline(requests[0].id)]) + Marks(requests[1..])
  }

  function TextOf(r: Run): string {
    if r.report.Some? then r.report.value else ""
  }

  function PollEffect(s: Desk, runId: string): Effect {
    var found := FindRun(s.runs, runId);
    if found.None? || !found.value.waiting || found.value.interrupted then Same(s)
    else
      var r := found.value;
      if r.completed then
        if r.delivered then
          Same(s).(runs := PutRun(s.runs, r.(waiting := false)), outputs := [AlreadyDelivered(r.ticket)])
        else
          Same(s).(runs := PutRun(s.runs, r.(waiting := false, delivered := true)),
                   outputs := [Completed(r.ticket, TextOf(r))])
      else
        var open := Supervised(B.OfRun(s.broker.pending, runId));
        if open == [] then Same(s)
        else
          Same(s).(onBroker := Marks(open), runs := PutRun(s.runs, r.(waiting := false)),
                   outputs := [Questions(IdsOf(open))])
  }

  function EndInterruptedEffect(s: Desk, runId: string): Effect {
    var r := FindRun(s.runs, runId);
    if r.None? || !r.value.waiting || !r.value.interrupted then Same(s)
    else
      Same(s).(runs := PutRun(s.runs, r.value.(waiting := false, delivered := true)),
               outputs := [Stopped(r.value.ticket, r.value.report)])
  }

  predicate IsUndelivered(r: Run) {
    r.completed && !r.waiting && !r.delivered && r.report.Some?
  }

  function TakeOne(r: Run): Run {
    if IsUndelivered(r) then r.(delivered := true) else r
  }

  function AllTaken(runs: seq<Run>): seq<Run> {
    if runs == [] then [] else [TakeOne(runs[0])] + AllTaken(runs[1..])
  }

  /** takeUndeliveredReports */
  function Reports(runs: seq<Run>): seq<Output> {
    if runs == [] then []
    else ReportOf(runs[0]) + Reports(runs[1..])
  }

  function ReportOf(r: Run): seq<Output> {
    if IsUndelivered(r) then [Fallback(r.ticket, TextOf(r))] else []
  }

  // ----- The reminders -----

  function IdSet(requests: seq<B.Request>): set<string> {
    set r | r in requests :: r.id
  }

  function Pruned(tracked: map<string, Track>, ids: set<string>): map<string, Track> {
    map id | id in tracked && id in ids :: tracked[id]
  }

  /** Requests delivered inline are tracked from now on. */
  function Tracking(requests: seq<B.Request>, tracked: map<string, Track>, escalations: set<string>, now: int)
    : map<string, Track>
  {
    if requests == [] then tracked
    else
      var k := |requests| - 1;
      var before := Tracking(requests[..k], tracked, escalations, now);
      var r := requests[k];
      if r.inlineDelivered && r.id !in before && r.id !in escalations
      then before[r.id := Track(0, now, false)] else before
  }

  function Undelivered(requests: seq<B.Request>, runs: seq<Run>): seq<B.Request> {
    if requests == [] then []
    else
      (if !requests[0].inlineDelivered && !HasWaiter(runs, requests[0].runId) then [requests[0]] else []) +
      Undelivered(requests[1..], runs)
  }

  function Max(a: int, b: int): int { if a >= b then a else b }

  predicate IsDue(r: B.Request, runs: seq<Run>, tracked: map<string, Track>, idleAt: int, now: int, graceMs: int) {
    r.id in tracked && !HasWaiter(runs, r.runId) && now - Max(idleAt, tracked[r.id].eligibleAt) >= graceMs
  }

  function Due(requests: seq<B.Request>, runs: seq<Run>, tracked: map<string, Track>, idleAt: int, now: int,
               graceMs: int, exhausted: bool): seq<B.Request>
  {
    if requests == [] then []
    else
      var r := requests[0];
      (if IsDue(r, runs, tracked, idleAt, now, graceMs) && tracked[r.id].exhausted == exhausted then [r] else []) +
      Due(requests[1..], runs, tracked, idleAt, now, graceMs, exhausted)
  }

  function Bump(t: Track, now: int): Track {
    Track(t.count + 1, now, t.count + 1 == 3 || t.exhausted)
  }

  function Bumped(tracked: map<string, Track>, reminders: seq<B.Request>, now: int): map<string, Track> {
    map id | id in tracked :: if id in IdSet(reminders) then Bump(tracked[id], now) else tracked[id]
  }

  function ReminderOutputs(reminders: seq<B.Request>, tracked: map<string, Track>): seq<Output> {
    if reminders == [] then []
    else
      var r := reminders[0];
      [Reminder(r.ticket, if r.id in tracked then tracked[r.id].count else 0)] +
      ReminderOutputs(reminders[1..], tracked)
  }

  function QuestionOutputs(requests: seq<B.Request>): seq<Output> {
    if requests == [] then [] else [Question(requests[0].ticket)] + QuestionOutputs(requests[1..])
  }

  function NotifyOutputs(requests: seq<B.Request>): seq<Output> {
    if requests == [] then [] else [Notified(requests[0].ticket)] + NotifyOutputs(requests[1..])
  }

  /** The time since the last tick is added to every deadline while the supervisor is not idle. */
  function Pause(n: Nags, now: int): seq<B.Event> {
    if n.idleAt.None? && n.lastTick.Some? then [B.Extend(Max(0, now - n.lastTick.value))] else []
  }

  function Refreshed(n: Nags, requests: seq<B.Request>, now: int): Nags {
    var escalations := n.escalations * IdSet(requests);
    n.(tracked := Tracking(requests, Pruned(n.tracked, IdSet(requests)), escalations, now),
       escalations := escalations, lastTick := Some(now))
  }

  predicate IsIdleLongEnough(n: Nags, now: int, graceMs: int) {
    n.idleAt.Some? && now - n.idleAt.value >= graceMs
  }

  function TickEffect(c: Setup, s: Desk, now: int): Effect {
    var pause := Pause(s.nags, now);
    var requests := Supervised(ApplyAll(c.broker, s.broker, pause).pending);
    var n := Refreshed(s.nags, requests, now);
    var e := Same(s).(onBroker := pause, nags := n);
    if !IsIdleLongEnough(n, now, c.graceMs) then e
    else
      var undelivered := Undelivered(requests, s.runs);
      var reminders := Due(requests, s.runs, n.tracked, n.idleAt.value, now, c.graceMs, false);
      var exhausted := Due(requests, s.runs, n.tracked, n.idleAt.value, now, c.graceMs, true);
      if undelivered != [] then
        e.(onBroker := pause + Marks(undelivered) + [B.SetBusy(true)], nags := n.(idleAt := None),
           outputs := QuestionOutputs(undelivered))
      else if reminders != [] then
        var bumped := Bumped(n.tracked, reminders, now);
        e.(onBroker := pause + [B.SetBusy(true)], nags := n.(idleAt := None, tracked := bumped),
           outputs := ReminderOutputs(reminders, bumped))
      else
        e.(runs := AllTaken(s.runs),
           nags := n.(tracked := n.tracked - IdSet(exhausted), escalations := n.escalations + IdSet(exhausted)),
           outputs := NotifyOutputs(exhausted) + Reports(s.runs))
  }

  // ----- One operation -----

  function EffectOf(c: Setup, s: Desk, e: Event): Effect {
    match e
    case OnBroker(b) => Same(s).(onBroker := [b])
    case Begin(runId) => BeginEffect(s, runId)
    case Complete(runId, report) => CompleteEffect(s, runId, report)
    case Stop(runId, managed) => StopEffect(s, runId, managed)
    case StartWait(given) => StartWaitEffect(s, given)
    case Poll(runId) => PollEffect(s, runId)
    case Interrupt(runId, managed) => InterruptEffect(s, runId, managed)
    case EndInterrupted(runId) => EndInterruptedEffect(s, runId)
    case BecomeBusy => Same(s).(onBroker := [B.SetBusy(true)], nags := s.nags.(idleAt := None))
    case BecomeSettled(now) => Same(s).(onBroker := [B.SetBusy(false)], nags := s.nags.(idleAt := Some(now)))
    case Tick(now) => TickEffect(c, s, now)
    case Clear => Same(s).(onBroker := [B.SetBusy(false)], nags := Nags(None, map[], {}, None))
  }

  function Step(c: Setup, s: Desk, e: Event): Desk {
    var f := EffectOf(c, s, e);
    Desk(ApplyAll(c.broker, s.broker, f.onBroker), f.runs, f.nags, f.begun)
  }

  function After(c: Setup, run: seq<Event>): Desk {
    if run == [] then INITIAL else Step(c, After(c, run[..|run| - 1]), run[|run| - 1])
  }

  // ----- One uncompleted run -----

  function Uncompleted(runs: seq<Run>): nat {
    if runs == [] then 0 else (if runs[0].completed then 0 else 1) + Uncompleted(runs[1..])
  }

  /** The tickets of the runs whose report nobody has. */
  function Unclaimed(runs: seq<Run>): multiset<nat> {
    if runs == [] then multiset{}
    else (if runs[0].delivered then multiset{} else multiset{runs[0].ticket}) + Unclaimed(runs[1..])
  }

  function Claim(r: Option<Run>): multiset<nat> {
    if r.Some? && !r.value.delivered then multiset{r.value.ticket} else multiset{}
  }

  lemma {:induction false} PutRunCounts(runs: seq<Run>, r: Run)
    ensures var old' := FindRun(runs, r.runId);
            Uncompleted(PutRun(runs, r)) + (if old'.Some? && !old'.value.completed then 1 else 0) ==
            Uncompleted(runs) + (if r.completed then 0 else 1)
  {
    if runs != [] && runs[0].runId != r.runId {
      PutRunCounts(runs[1..], r);
      assert ([runs[0]] + PutRun(runs[1..], r))[1..] == PutRun(runs[1..], r);
    }
  }

  lemma {:induction false} PutRunClaims(runs: seq<Run>, r: Run)
    ensures Unclaimed(PutRun(runs, r)) + Claim(FindRun(runs, r.runId)) == Unclaimed(runs) + Claim(Some(r))
  {
    hide Claim;
    if runs == [] {
      ClaimsOfCons(r, []);
      assert [r] + [] == [r];
    } else if runs[0].runId == r.runId {
      ClaimsOfCons(r, runs[1..]);
      ClaimsOfCons(runs[0], runs[1..]);
    } else {
      var rest := runs[1..];
      PutRunClaims(rest, r);
      ClaimsOfCons(runs[0], PutRun(rest, r));
      ClaimsOfCons(runs[0], rest);
      B.AddOnBothSides(Claim(Some(runs[0])), Unclaimed(PutRun(rest, r)), Claim(FindRun(rest, r.runId)),
                       Unclaimed(rest), Claim(Some(r)));
    }
  }

  lemma ClaimsOfCons(r: Run, rest: seq<Run>)
    ensures Unclaimed([r] + rest) == Claim(Some(r)) + Unclaimed(rest)
    ensures FindRun([], r.runId) == None && Claim(None) == multiset{} && Unclaimed([]) == multiset{}
  {
    assert ([r] + rest)[1..] == rest;
  }

  lemma {:induction false} NobodyActive(runs: seq<Run>)
    requires !AnyActive(runs)
    ensures Uncompleted(runs) == 0
  {
    if runs != [] {
      assert runs[0] in runs && forall r :: r in runs[1..] ==> r in runs;
      NobodyActive(runs[1..]);
    }
  }

  lemma {:induction false} TakingKeepsUncompleted(runs: seq<Run>)
    ensures Uncompleted(AllTaken(runs)) == Uncompleted(runs)
  {
    if runs != [] { TakingKeepsUncompleted(runs[1..]); }
  }

  lemma {:induction false} FindRunFinds(runs: seq<Run>, runId: string)
    ensures FindRun(runs, runId).Some? ==> FindRun(runs, runId).value.runId == runId
    ensures FindRun(runs, runId).Some? ==> FindRun(runs, runId).value in runs
  {
    if runs != [] { FindRunFinds(runs[1..], runId); }
  }

  lemma StepUncompleted(c: Setup, s: Desk, e: Event)
    ensures Uncompleted(Step(c, s, e).runs) <= Max(Uncompleted(s.runs), 1)
  {
    hide Uncompleted, PutRun, FindRun, AllTaken, Supervised, Marks, Refreshed, Due, AnyActive;
    match e
    case Begin(runId) =>
      if !AnyActive(s.runs) {
        NobodyActive(s.runs);
        PutRunCounts(s.runs, NewRun(s.begun, runId));
      }
    case Complete(runId, report) =>
      var r := FindRun(s.runs, runId);
      if r.Some? {
        FindRunFinds(s.runs, runId);
        PutRunCounts(s.runs, r.value.(report := Some(report), completed := true));
      }
    case StartWait(given) =>
      var r := WaitTarget(s.runs, given);
      if r.Some? {
        WaitTargetFinds(s.runs, given);
        PutRunCounts(s.runs, r.value.(waiting := true, interrupted := false));
      }
    case Poll(runId) =>
      var r := FindRun(s.runs, runId);
      if r.Some? {
        FindRunFinds(s.runs, runId);
        PutRunCounts(s.runs, r.value.(waiting := false));
        PutRunCounts(s.runs, r.value.(waiting := false, delivered := true));
      }
    case Interrupt(runId, _) =>
      var r := FindRun(s.runs, runId);
      if r.Some? {
        FindRunFinds(s.runs, runId);
        PutRunCounts(s.runs, r.value.(interrupted := true));
      }
    case EndInterrupted(runId) =>
      var r := FindRun(s.runs, runId);
      if r.Some? {
        FindRunFinds(s.runs, runId);
        PutRunCounts(s.runs, r.value.(waiting := false, delivered := true));
      }
    case Tick(now) => TakingKeepsUncompleted(s.runs);
    case _ =>
  }

  lemma WaitTargetFinds(runs: seq<Run>, given: Option<string>)
    ensures var r := WaitTarget(runs, given);
            r.Some? ==> r.value in runs && FindRun(runs, r.value.runId) == r
  {
    var active := FirstUncompleted(runs);
    if given.Some? {
      FindRunFinds(runs, given.value);
    } else if active.Some? {
      FindRunFinds(runs, active.value);
    } else if runs != [] {
      FindRunFinds(runs, runs[|runs| - 1].runId);
    }
  }

  /** At most one controlled run is uncompleted at any time. */
  lemma {:induction false} OneUncompletedRun(c: Setup, run: seq<Event>)
    ensures Uncompleted(After(c, run).runs) <= 1
  {
    hide Step;
    if run != [] {
      OneUncompletedRun(c, run[..|run| - 1]);
      StepUncompleted(c, After(c, run[..|run| - 1]), run[|run| - 1]);
    }
  }

  // ----- A report is handed out at most once -----

  /** The reports an operation hands out by the two normal paths. */
  function HandedIn(outputs: seq<Output>): multiset<nat> {
    if outputs == [] then multiset{}
    else
      var o := outputs[0];
      (if o.Completed? || o.Fallback? then multiset{o.ticket} else multiset{}) + HandedIn(outputs[1..])
  }

  function HandedOut(c: Setup, run: seq<Event>): multiset<nat> {
    if run == [] then multiset{}
    else
      var s := After(c, run[..|run| - 1]);
      HandedOut(c, run[..|run| - 1]) + HandedIn(EffectOf(c, s, run[|run| - 1]).outputs)
  }

  /** Handed out so far, and still to be had. */
  function Budget(c: Setup, run: seq<Event>, t: nat): nat {
    HandedOut(c, run)[t] + Unclaimed(After(c, run).runs)[t]
  }

  lemma {:induction false} HandedConcat(a: seq<Output>, b: seq<Output>)
    ensures HandedIn(a + b) == HandedIn(a) + HandedIn(b)
  {
    if a == [] {
      assert a + b == b;
    } else {
      assert (a + b)[1..] == a[1..] + b;
      HandedConcat(a[1..], b);
    }
  }

  lemma {:induction false} TakingHands(runs: seq<Run>)
    ensures HandedIn(Reports(runs)) + Unclaimed(AllTaken(runs)) == Unclaimed(runs)
  {
    hide ReportOf, HandedIn, Unclaimed, TakeOne, Claim;
    NoOutputs();
    if runs == [] {
      NothingUnclaimed();
    } else {
      var r, rest := runs[0], runs[1..];
      TakingHands(rest);
      TakingOne(r);
      HandedConcat(ReportOf(r), Reports(rest));
      ClaimsOfCons(r, rest);
      ClaimsOfCons(TakeOne(r), AllTaken(rest));
      assert runs == [r] + rest;
      Regroup(HandedIn(ReportOf(r)), HandedIn(Reports(rest)), Claim(Some(TakeOne(r))), Unclaimed(AllTaken(rest)));
    }
  }

  lemma NothingUnclaimed()
    ensures Unclaimed([]) == multiset{}
  {
  }

  lemma Regroup(a: multiset<nat>, b: multiset<nat>, c: multiset<nat>, d: multiset<nat>)
    ensures (a + b) + (c + d) == (a + c) + (b + d)
  {
  }

  lemma TakingOne(r: Run)
    ensures HandedIn(ReportOf(r)) + Claim(Some(TakeOne(r))) == Claim(Some(r))
  {
  }

  lemma {:induction false} NothingHandedByNags(requests: seq<B.Request>, tracked: map<string, Track>)
    ensures HandedIn(QuestionOutputs(requests)) == multiset{}
    ensures HandedIn(NotifyOutputs(requests)) == multiset{}
    ensures HandedIn(ReminderOutputs(requests, tracked)) == multiset{}
  {
    if requests != [] { NothingHandedByNags(requests[1..], tracked); }
  }

  lemma TickDelivers(c: Setup, s: Desk, now: int)
    ensures var f := TickEffect(c, s, now);
            HandedIn(f.outputs) + Unclaimed(f.runs) == Unclaimed(s.runs)
  {
    hide HandedIn, Unclaimed, Supervised, Marks, Refreshed, Due, Undelivered, Bumped, Pause, ApplyAll, IsIdleLongEnough;
    NoOutputs();
    TakingHands(s.runs);
    var requests := Supervised(ApplyAll(c.broker, s.broker, Pause(s.nags, now)).pending);
    var n := Refreshed(s.nags, requests, now);
    if IsIdleLongEnough(n, now, c.graceMs) {
      IdleIsKnown(n, now, c.graceMs);
      var reminders := Due(requests, s.runs, n.tracked, n.idleAt.value, now, c.graceMs, false);
      var exhausted := Due(requests, s.runs, n.tracked, n.idleAt.value, now, c.graceMs, true);
      NothingHandedByNags(Undelivered(requests, s.runs), map[]);
      NothingHandedByNags(reminders, Bumped(n.tracked, reminders, now));
      NothingHandedByNags(exhausted, map[]);
      HandedConcat(NotifyOutputs(exhausted), Reports(s.runs));
    }
  }

  lemma NoOutputs()
    ensures HandedIn([]) == multiset{}
  {
  }

  lemma IdleIsKnown(n: Nags, now: int, graceMs: int)
    ensures IsIdleLongEnough(n, now, graceMs) ==> n.idleAt.Some?
  {
  }

  lemma DropSame(a: multiset<nat>, b: multiset<nat>, same: multiset<nat>)
    requires a + same == b + same
    ensures a == b
  {
    forall k ensures a[k] == b[k] { assert (a + same)[k] == (b + same)[k]; }
  }

  lemma BeginningClaims(runs: seq<Run>, ticket: nat, runId: string, t: nat)
    ensures Unclaimed(PutRun(runs, NewRun(ticket, runId)))[t] <= Unclaimed(runs)[t] + if t == ticket then 1 else 0
  {
    hide Unclaimed, PutRun, FindRun;
    var r := NewRun(ticket, runId);
    PutRunClaims(runs, r);
    assert (Unclaimed(PutRun(runs, r)) + Claim(FindRun(runs, runId)))[t] == (Unclaimed(runs) + Claim(Some(r)))[t];
  }

  lemma ReplacingClaims(runs: seq<Run>, r: Run, changed: Run)
    requires FindRun(runs, changed.runId) == Some(r) && changed.ticket == r.ticket
    ensures changed.delivered == r.delivered ==> Unclaimed(PutRun(runs, changed)) == Unclaimed(runs)
    ensures changed.delivered && !r.delivered ==>
              Unclaimed(PutRun(runs, changed)) + multiset{r.ticket} == Unclaimed(runs)
    ensures changed.delivered && r.delivered ==> Unclaimed(PutRun(runs, changed)) == Unclaimed(runs)
  {
    hide Unclaimed, PutRun, FindRun;
    PutRunClaims(runs, changed);
    if changed.delivered == r.delivered {
      DropSame(Unclaimed(PutRun(runs, changed)), Unclaimed(runs), Claim(Some(r)));
    }
  }

  lemma PollDelivers(s: Desk, runId: string)
    ensures HandedIn(PollEffect(s, runId).outputs) + Unclaimed(PollEffect(s, runId).runs) == Unclaimed(s.runs)
  {
    hide Unclaimed, PutRun, FindRun, Supervised, Marks, HandedIn;
    NoOutputs();
    var found := FindRun(s.runs, runId);
    if found.Some? {
      var r := found.value;
      FindRunFinds(s.runs, runId);
      ReplacingClaims(s.runs, r, r.(waiting := false));
      ReplacingClaims(s.runs, r, r.(waiting := false, delivered := true));
      WaitReplies(r, IdsOf(Supervised(B.OfRun(s.broker.pending, runId))));
    }
  }

  lemma WaitReplies(r: Run, ids: seq<string>)
    ensures HandedIn([Completed(r.ticket, TextOf(r))]) == multiset{r.ticket}
    ensures HandedIn([AlreadyDelivered(r.ticket)]) == multiset{}
    ensures HandedIn([Stopped(r.ticket, r.report)]) == multiset{}
    ensures HandedIn([Questions(ids)]) == multiset{}
    ensures HandedIn([Rejected]) == multiset{}
  {
  }

  /** One operation: what it hands out was unclaimed before, and is claimed after. */
  lemma StepDelivers(c: Setup, s: Desk, e: Event, t: nat)
    ensures HandedIn(EffectOf(c, s, e).outputs)[t] + Unclaimed(Step(c, s, e).runs)[t] <=
            Unclaimed(s.runs)[t] + if t == s.begun && EffectOf(c, s, e).begun > s.begun then 1 else 0
  {
    hide Unclaimed, PutRun, FindRun, TickEffect, PollEffect, AnyActive, WaitTarget, HandedIn, ApplyAll;
    NoOutputs();
    WaitReplies(NewRun(0, ""), []);
    match e
    case Begin(runId) => BeginningClaims(s.runs, s.begun, runId, t);
    case Complete(runId, report) =>
      var r := FindRun(s.runs, runId);
      if r.Some? {
        FindRunFinds(s.runs, runId);
        ReplacingClaims(s.runs, r.value, r.value.(report := Some(report), completed := true));
      }
    case StartWait(given) =>
      var r := WaitTarget(s.runs, given);
      if r.Some? {
        WaitTargetFinds(s.runs, given);
        ReplacingClaims(s.runs, r.value, r.value.(waiting := true, interrupted := false));
      }
    case Poll(runId) => PollDelivers(s, runId);
    case Interrupt(runId, _) =>
      var r := FindRun(s.runs, runId);
      if r.Some? {
        FindRunFinds(s.runs, runId);
        ReplacingClaims(s.runs, r.value, r.value.(interrupted := true));
      }
    case EndInterrupted(runId) =>
      var r := FindRun(s.runs, runId);
      if r.Some? {
        FindRunFinds(s.runs, runId);
        ReplacingClaims(s.runs, r.value, r.value.(waiting := false, delivered := true));
        WaitReplies(r.value, []);
      }
    case Tick(now) => TickDelivers(c, s, now);
    case _ =>
  }

  lemma StepBegun(c: Setup, s: Desk, e: Event)
    ensures s.begun <= Step(c, s, e).begun <= s.begun + 1
  {
    hide PutRun, FindRun, ApplyAll, Supervised, Marks, Refreshed, Due, Undelivered, AnyActive, WaitTarget;
  }

  /** Nothing adds to the budget of a run once it has begun. */
  lemma {:induction false} BudgetFalls(c: Setup, run: seq<Event>, i: nat, t: nat)
    requires i <= |run| && t < After(c, run[..i]).begun
    ensures Budget(c, run, t) <= Budget(c, run[..i], t) && t < After(c, run).begun
  {
    hide Step, EffectOf, Unclaimed, HandedIn;
    if i == |run| {
      assert run[..i] == run;
    } else {
      var shorter := run[..|run| - 1];
      assert shorter[..i] == run[..i];
      BudgetFalls(c, shorter, i, t);
      StepDelivers(c, After(c, shorter), run[|run| - 1], t);
      StepBegun(c, After(c, shorter), run[|run| - 1]);
    }
  }

  lemma {:induction false} BudgetIsOne(c: Setup, run: seq<Event>, t: nat)
    ensures Budget(c, run, t) <= if t < After(c, run).begun then 1 else 0
  {
    hide Step, EffectOf, HandedIn;
    if run != [] {
      var shorter := run[..|run| - 1];
      BudgetIsOne(c, shorter, t);
      StepDelivers(c, After(c, shorter), run[|run| - 1], t);
      StepBegun(c, After(c, shorter), run[|run| - 1]);
      BegunByStep(c, After(c, shorter), run[|run| - 1]);
    }
  }

  lemma BegunByStep(c: Setup, s: Desk, e: Event)
    ensures Step(c, s, e).begun == EffectOf(c, s, e).begun
  {
    hide EffectOf, ApplyAll;
  }

  /** In every run, the report of a controlled run is handed out at most once by a wait returning it or by
      the idle fallback. */
  lemma ReportAtMostOnce(c: Setup, run: seq<Event>, t: nat)
    ensures HandedOut(c, run)[t] <= 1
  {
    BudgetIsOne(c, run, t);
  }

  /** Once an interrupted wait has ended for a run, neither normal path hands out its report any more. */
  lemma InterruptedTakesReport(c: Setup, run: seq<Event>, i: nat, t: nat, report: Option<string>)
    requires i < |run| && Stopped(t, report) in EffectOf(c, After(c, run[..i]), run[i]).outputs
    ensures HandedOut(c, run)[t] == HandedOut(c, run[..i])[t]
  {
    hide Step, After, HandedOut;
    var now := run[..i + 1];
    assert now[..i] == run[..i] && now[|now| - 1] == run[i];
    BudgetIsOne(c, run[..i], t);
    TicketsAreDistinct(c, run[..i], t);
    StoppedClaims(c, After(c, run[..i]), run[i], t, report);
    AfterLast(c, now);
    StoppedIsBegun(c, run[..i], run[i], t, report);
    BudgetFalls(c, run, i + 1, t);
    HandedGrows(c, run, i, t);
  }

  lemma AfterLast(c: Setup, run: seq<Event>)
    requires run != []
    ensures var s := After(c, run[..|run| - 1]);
            After(c, run) == Step(c, s, run[|run| - 1]) &&
            HandedOut(c, run) == HandedOut(c, run[..|run| - 1]) + HandedIn(EffectOf(c, s, run[|run| - 1]).outputs)
  {
    hide Step, EffectOf, HandedIn;
  }

  lemma {:induction false} HandedGrows(c: Setup, run: seq<Event>, i: nat, t: nat)
    requires i <= |run|
    ensures HandedOut(c, run[..i])[t] <= HandedOut(c, run)[t]
  {
    hide EffectOf, HandedIn;
    if i == |run| {
      assert run[..i] == run;
    } else {
      assert run[..|run| - 1][..i] == run[..i];
      HandedGrows(c, run[..|run| - 1], i, t);
    }
  }

  function RunTickets(runs: seq<Run>): multiset<nat> {
    if runs == [] then multiset{} else multiset{runs[0].ticket} + RunTickets(runs[1..])
  }

  lemma {:induction false} PutRunTickets(runs: seq<Run>, r: Run)
    ensures var old' := FindRun(runs, r.runId);
            RunTickets(PutRun(runs, r)) + (if old'.Some? then multiset{old'.value.ticket} else multiset{}) ==
            RunTickets(runs) + multiset{r.ticket}
  {
    if runs != [] && runs[0].runId != r.runId {
      var rest := runs[1..];
      PutRunTickets(rest, r);
      assert ([runs[0]] + PutRun(rest, r))[1..] == PutRun(rest, r);
      var old' := FindRun(rest, r.runId);
      B.AddOnBothSides(multiset{runs[0].ticket}, RunTickets(PutRun(rest, r)),
                       if old'.Some? then multiset{old'.value.ticket} else multiset{}, RunTickets(rest),
                       multiset{r.ticket});
    } else if runs != [] {
      assert ([r] + runs[1..])[1..] == runs[1..];
    }
  }

  lemma {:induction false} TakingKeepsTickets(runs: seq<Run>)
    ensures RunTickets(AllTaken(runs)) == RunTickets(runs)
  {
    if runs != [] { TakingKeepsTickets(runs[1..]); }
  }

  lemma ReplacingTickets(runs: seq<Run>, r: Run, changed: Run)
    requires FindRun(runs, changed.runId) == Some(r) && changed.ticket == r.ticket
    ensures RunTickets(PutRun(runs, changed)) == RunTickets(runs)
  {
    hide RunTickets, PutRun, FindRun;
    PutRunTickets(runs, changed);
    DropSame(RunTickets(PutRun(runs, changed)), RunTickets(runs), multiset{r.ticket});
  }

  lemma BeginningTickets(runs: seq<Run>, ticket: nat, runId: string, t: nat)
    ensures RunTickets(PutRun(runs, NewRun(ticket, runId)))[t] <= RunTickets(runs)[t] + if t == ticket then 1 else 0
  {
    hide RunTickets, PutRun, FindRun;
    var r, found := NewRun(ticket, runId), FindRun(runs, runId);
    PutRunTickets(runs, r);
    assert (RunTickets(PutRun(runs, r)) + if found.Some? then multiset{found.value.ticket} else multiset{})[t] ==
           (RunTickets(runs) + multiset{ticket})[t];
  }

  lemma StepTickets(c: Setup, s: Desk, e: Event, t: nat)
    ensures RunTickets(Step(c, s, e).runs)[t] <=
            RunTickets(s.runs)[t] + if t == s.begun && EffectOf(c, s, e).begun > s.begun then 1 else 0
  {
    hide RunTickets, PutRun, FindRun, Supervised, Marks, AnyActive, WaitTarget, Refreshed, Due, Undelivered, ApplyAll;
    match e
    case Begin(runId) => BeginningTickets(s.runs, s.begun, runId, t);
    case Complete(runId, report) =>
      var r := FindRun(s.runs, runId);
      if r.Some? {
        FindRunFinds(s.runs, runId);
        ReplacingTickets(s.runs, r.value, r.value.(report := Some(report), completed := true));
      }
    case StartWait(given) =>
      var r := WaitTarget(s.runs, given);
      if r.Some? {
        WaitTargetFinds(s.runs, given);
        ReplacingTickets(s.runs, r.value, r.value.(waiting := true, interrupted := false));
      }
    case Poll(runId) =>
      var r := FindRun(s.runs, runId);
      if r.Some? {
        FindRunFinds(s.runs, runId);
        ReplacingTickets(s.runs, r.value, r.value.(waiting := false));
        ReplacingTickets(s.runs, r.value, r.value.(waiting := false, delivered := true));
      }
    case Interrupt(runId, _) =>
      var r := FindRun(s.runs, runId);
      if r.Some? {
        FindRunFinds(s.runs, runId);
        ReplacingTickets(s.runs, r.value, r.value.(interrupted := true));
      }
    case EndInterrupted(runId) =>
      var r := FindRun(s.runs, runId);
      if r.Some? {
        FindRunFinds(s.runs, runId);
        ReplacingTickets(s.runs, r.value, r.value.(waiting := false, delivered := true));
      }
    case Tick(now) => TakingKeepsTickets(s.runs);
    case _ =>
  }

  lemma {:induction false} TicketsAreDistinct(c: Setup, run: seq<Event>, t: nat)
    ensures RunTickets(After(c, run).runs)[t] <= if t < After(c, run).begun then 1 else 0
  {
    hide Step, EffectOf;
    if run != [] {
      var s := After(c, run[..|run| - 1]);
      TicketsAreDistinct(c, run[..|run| - 1], t);
      StepTickets(c, s, run[|run| - 1], t);
      StepBegun(c, s, run[|run| - 1]);
      BegunByStep(c, s, run[|run| - 1]);
    }
  }

  lemma {:induction false} DeliveredIsClaimed(runs: seq<Run>, r: Run)
    requires r in runs && r.delivered && RunTickets(runs)[r.ticket] <= 1
    ensures Unclaimed(runs)[r.ticket] == 0
  {
    UnclaimedAreRuns(runs[1..], r.ticket);
    if runs[0] == r {
    } else {
      TicketOfRun(runs[1..], r);
      DeliveredIsClaimed(runs[1..], r);
    }
  }

  lemma {:induction false} TicketOfRun(runs: seq<Run>, r: Run)
    requires r in runs
    ensures RunTickets(runs)[r.ticket] >= 1
  {
    if runs[0] != r { TicketOfRun(runs[1..], r); }
  }

  lemma {:induction false} UnclaimedAreRuns(runs: seq<Run>, t: nat)
    ensures Unclaimed(runs)[t] <= RunTickets(runs)[t]
  {
    if runs != [] { UnclaimedAreRuns(runs[1..], t); }
  }

  lemma {:induction false} NagsAreNags(requests: seq<B.Request>, tracked: map<string, Track>)
    ensures forall o :: o in QuestionOutputs(requests) ==> o.Question?
    ensures forall o :: o in NotifyOutputs(requests) ==> o.Notified?
    ensures forall o :: o in ReminderOutputs(requests, tracked) ==> o.Reminder?
  {
    if requests != [] { NagsAreNags(requests[1..], tracked); }
  }

  lemma {:induction false} ReportsAreFallbacks(runs: seq<Run>)
    ensures forall o :: o in Reports(runs) ==> o.Fallback?
  {
    if runs != [] { ReportsAreFallbacks(runs[1..]); }
  }

  lemma TickNeverStops(c: Setup, s: Desk, now: int, o: Output)
    requires o in TickEffect(c, s, now).outputs
    ensures !o.Stopped?
  {
    hide Supervised, Marks, Refreshed, Due, Undelivered, Bumped, Pause, ApplyAll, IsIdleLongEnough;
    var requests := Supervised(ApplyAll(c.broker, s.broker, Pause(s.nags, now)).pending);
    var n := Refreshed(s.nags, requests, now);
    IdleIsKnown(n, now, c.graceMs);
    var reminders := Due(requests, s.runs, n.tracked, n.idleAt.value, now, c.graceMs, false);
    NagsAreNags(Undelivered(requests, s.runs), map[]);
    NagsAreNags(reminders, Bumped(n.tracked, reminders, now));
    NagsAreNags(Due(requests, s.runs, n.tracked, n.idleAt.value, now, c.graceMs, true), map[]);
    ReportsAreFallbacks(s.runs);
  }

  lemma StoppedClaims(c: Setup, s: Desk, e: Event, t: nat, report: Option<string>)
    requires Stopped(t, report) in EffectOf(c, s, e).outputs && Unclaimed(s.runs)[t] <= 1
    requires RunTickets(s.runs)[t] <= 1
    ensures Unclaimed(Step(c, s, e).runs)[t] == 0 && HandedIn(EffectOf(c, s, e).outputs) == multiset{}
  {
    hide Unclaimed, RunTickets, PutRun, FindRun, TickEffect, Supervised, Marks, AnyActive, WaitTarget, ApplyAll;
    match e
    case EndInterrupted(runId) =>
      FindRunFinds(s.runs, runId);
      var r := FindRun(s.runs, runId).value;
      ReplacingClaims(s.runs, r, r.(waiting := false, delivered := true));
      if r.delivered { DeliveredIsClaimed(s.runs, r); }
    case Tick(now) => TickNeverStops(c, s, now, Stopped(t, report));
    case _ =>
  }

  lemma StoppedIsBegun(c: Setup, run: seq<Event>, e: Event, t: nat, report: Option<string>)
    requires Stopped(t, report) in EffectOf(c, After(c, run), e).outputs
    ensures t < Step(c, After(c, run), e).begun
  {
    hide After, TickEffect, RunTickets, PutRun, FindRun, Supervised, Marks, AnyActive, WaitTarget, ApplyAll;
    var s := After(c, run);
    match e
    case EndInterrupted(runId) =>
      FindRunFinds(s.runs, runId);
      TicketOfRun(s.runs, FindRun(s.runs, runId).value);
      TicketsAreDistinct(c, run, t);
    case Tick(now) => TickNeverStops(c, s, now, Stopped(t, report));
    case _ =>
  }
}
