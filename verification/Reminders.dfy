/** The reminders over whole runs: how often a request is reminded and given up on, and when
    (extensions/workflow-controller.ts). */
module Reminders {
  import opened Values
  import opened WorkflowControl
  import B = Broker

  // ----- The broker below -----

  /** All broker operations performed in a run. */
  function BrokerRun(c: Setup, run: seq<Event>): seq<B.Event> {
    if run == [] then []
    else
      var s := After(c, run[..|run| - 1]);
      BrokerRun(c, run[..|run| - 1]) + EffectOf(c, s, run[|run| - 1]).onBroker
  }

  lemma {:induction false} ApplyIsRun(c: B.Config, run: seq<B.Event>, events: seq<B.Event>)
    ensures ApplyAll(c, B.After(c, run), events) == B.After(c, run + events)
  {
    hide B.Step;
    if events == [] {
      assert run + events == run;
    } else {
      var k := |events| - 1;
      ApplyIsRun(c, run, events[..k]);
      var all := run + events;
      assert all[..|all| - 1] == run + events[..k] && all[|all| - 1] == events[k];
    }
  }

  /** The broker under a controller is in a state the broker reaches by itself. */
  lemma {:induction false} BrokerIsRun(c: Setup, run: seq<Event>)
    ensures After(c, run).broker == B.After(c.broker, BrokerRun(c, run))
  {
    hide EffectOf, B.After, ApplyAll;
    if run == [] {
      BrokerStarts(c.broker);
    } else {
      var shorter := run[..|run| - 1];
      BrokerIsRun(c, shorter);
      ApplyIsRun(c.broker, BrokerRun(c, shorter), EffectOf(c, After(c, shorter), run[|run| - 1]).onBroker);
    }
  }

  lemma BrokerStarts(c: B.Config)
    ensures B.After(c, []) == B.INITIAL
  {
  }

  predicate SameAsk(a: B.Request, b: B.Request) {
    a.ticket == b.ticket && a.id == b.id && a.kind == b.kind && a.expectsReply == b.expectsReply && a.runId == b.runId
  }

  predicate NoAsk(events: seq<B.Event>) {
    forall e :: e in events ==> !e.Ask?
  }

  lemma StepOld(c: B.Config, s: B.State, e: B.Event, r: B.Request) returns (q: B.Request)
    requires r in B.Step(c, s, e).state.pending && !e.Ask?
    ensures q in s.pending && SameAsk(q, r)
  {
    hide B.Step;
    B.StepEntries(c, s, e, r);
    q :| q in s.pending && r == B.Evolve(e, q);
  }

  /** Without an ask, everything pending was pending before. */
  lemma {:induction false} ApplyOld(c: B.Config, s: B.State, events: seq<B.Event>, r: B.Request) returns (q: B.Request)
    requires r in ApplyAll(c, s, events).pending && NoAsk(events)
    ensures q in s.pending && SameAsk(q, r)
  {
    hide B.Step, SameAsk;
    if events == [] {
      SameAskReflexive(r);
      q := r;
    } else {
      var k := |events| - 1;
      var p := StepOld(c, ApplyAll(c, s, events[..k]), events[k], r);
      q := ApplyOld(c, s, events[..k], p);
      SameAskTrans(q, p, r);
    }
  }

  lemma SameAskReflexive(r: B.Request)
    ensures SameAsk(r, r)
  {
  }

  lemma SameAskTrans(p: B.Request, q: B.Request, r: B.Request)
    requires SameAsk(p, q) && SameAsk(q, r)
    ensures SameAsk(p, r)
  {
  }

  lemma {:induction false} ApplySteps(c: B.Config, s: B.State, events: seq<B.Event>)
    ensures ApplyAll(c, s, events).steps == s.steps + |events|
  {
    hide B.Step;
    if events != [] {
      ApplySteps(c, s, events[..|events| - 1]);
      B.StepAdvances(c, ApplyAll(c, s, events[..|events| - 1]), events[|events| - 1]);
    }
  }

  // ----- Counting reminders -----

  function RemindersIn(outputs: seq<Output>): multiset<nat> {
    if outputs == [] then multiset{}
    else (if outputs[0].Reminder? then multiset{outputs[0].ticket} else multiset{}) + RemindersIn(outputs[1..])
  }

  function NoticesIn(outputs: seq<Output>): multiset<nat> {
    if outputs == [] then multiset{}
    else (if outputs[0].Notified? then multiset{outputs[0].ticket} else multiset{}) + NoticesIn(outputs[1..])
  }

  /** Reminders sent per request since the reminders were last cleared (at session end). */
  function Reminded(c: Setup, run: seq<Event>): multiset<nat> {
    if run == [] || run[|run| - 1].Clear? then multiset{}
    else
      var s := After(c, run[..|run| - 1]);
      Reminded(c, run[..|run| - 1]) + RemindersIn(EffectOf(c, s, run[|run| - 1]).outputs)
  }

  function NotifiedOf(c: Setup, run: seq<Event>): multiset<nat> {
    if run == [] || run[|run| - 1].Clear? then multiset{}
    else
      var s := After(c, run[..|run| - 1]);
      NotifiedOf(c, run[..|run| - 1]) + NoticesIn(EffectOf(c, s, run[|run| - 1]).outputs)
  }

  lemma {:induction false} CountsConcat(a: seq<Output>, b: seq<Output>)
    ensures RemindersIn(a + b) == RemindersIn(a) + RemindersIn(b)
    ensures NoticesIn(a + b) == NoticesIn(a) + NoticesIn(b)
  {
    if a == [] {
      assert a + b == b;
    } else {
      assert (a + b)[1..] == a[1..] + b;
      CountsConcat(a[1..], b);
    }
  }

  lemma {:induction false} NagOutputCounts(requests: seq<B.Request>, tracked: map<string, Track>)
    ensures RemindersIn(ReminderOutputs(requests, tracked)) == B.TicketsOf(requests)
    ensures NoticesIn(ReminderOutputs(requests, tracked)) == multiset{}
    ensures NoticesIn(NotifyOutputs(requests)) == B.TicketsOf(requests)
    ensures RemindersIn(NotifyOutputs(requests)) == multiset{}
    ensures RemindersIn(QuestionOutputs(requests)) == multiset{} && NoticesIn(QuestionOutputs(requests)) == multiset{}
  {
    hide RemindersIn, NoticesIn, B.TicketsOf;
    EmptyCounts();
    if requests != [] {
      var r, rest := requests[0], requests[1..];
      NagOutputCounts(rest, tracked);
      B.TicketsCons(r, rest);
      assert [r] + rest == requests;
      CountsOfFirst(ReminderOutputs(requests, tracked)[0], ReminderOutputs(rest, tracked));
      CountsOfFirst(Notified(r.ticket), NotifyOutputs(rest));
      CountsOfFirst(QuestionOutputs(requests)[0], QuestionOutputs(rest));
    }
  }

  lemma CountsOfFirst(o: Output, rest: seq<Output>)
    ensures RemindersIn([o] + rest) == (if o.Reminder? then multiset{o.ticket} else multiset{}) + RemindersIn(rest)
    ensures NoticesIn([o] + rest) == (if o.Notified? then multiset{o.ticket} else multiset{}) + NoticesIn(rest)
  {
    assert ([o] + rest)[1..] == rest;
  }

  lemma {:induction false} ReportCounts(runs: seq<Run>)
    ensures RemindersIn(Reports(runs)) == multiset{} && NoticesIn(Reports(runs)) == multiset{}
  {
    if runs != [] {
      var rest := Reports(runs[1..]);
      ReportCounts(runs[1..]);
      CountsConcat(ReportOf(runs[0]), rest);
    }
  }

  /** The reminders a tick is about to send, and the notices. */
  function RemindersDue(c: Setup, s: Desk, now: int): seq<B.Request> {
    var requests := Requests(c, s, now);
    var n := Refreshed(s.nags, requests, now);
    if IsIdleLongEnough(n, now, c.graceMs) && Undelivered(requests, s.runs) == [] then
      Due(requests, s.runs, n.tracked, n.idleAt.value, now, c.graceMs, false)
    else []
  }

  function NoticesDue(c: Setup, s: Desk, now: int): seq<B.Request> {
    var requests := Requests(c, s, now);
    var n := Refreshed(s.nags, requests, now);
    if IsIdleLongEnough(n, now, c.graceMs) && Undelivered(requests, s.runs) == [] && RemindersDue(c, s, now) == []
    then Due(requests, s.runs, n.tracked, n.idleAt.value, now, c.graceMs, true)
    else []
  }

  function Requests(c: Setup, s: Desk, now: int): seq<B.Request> {
    Supervised(ApplyAll(c.broker, s.broker, Pause(s.nags, now)).pending)
  }

  lemma TickCounts(c: Setup, s: Desk, now: int)
    ensures RemindersIn(TickEffect(c, s, now).outputs) == B.TicketsOf(RemindersDue(c, s, now))
    ensures NoticesIn(TickEffect(c, s, now).outputs) == B.TicketsOf(NoticesDue(c, s, now))
  {
    hide RemindersIn, NoticesIn, Supervised, Marks, Refreshed, Due, Undelivered, Bumped, Pause, ApplyAll,
      IsIdleLongEnough, B.TicketsOf;
    EmptyCounts();
    ReportCounts(s.runs);
    var requests := Requests(c, s, now);
    var n := Refreshed(s.nags, requests, now);
    if IsIdleLongEnough(n, now, c.graceMs) {
      IdleIsKnown(n, now, c.graceMs);
      var reminders := Due(requests, s.runs, n.tracked, n.idleAt.value, now, c.graceMs, false);
      var exhausted := Due(requests, s.runs, n.tracked, n.idleAt.value, now, c.graceMs, true);
      NagOutputCounts(Undelivered(requests, s.runs), map[]);
      NagOutputCounts(reminders, Bumped(n.tracked, reminders, now));
      NagOutputCounts(exhausted, map[]);
      CountsConcat(NotifyOutputs(exhausted), Reports(s.runs));
    }
  }

  lemma EmptyCounts()
    ensures RemindersIn([]) == multiset{} && NoticesIn([]) == multiset{} && B.TicketsOf([]) == multiset{}
  {
  }

  // ----- At most three reminders, then at most one notice -----

  predicate IsSupervised(r: B.Request) {
    r.kind == B.Supervisor && r.expectsReply
  }

  /** The reminders a request has had, as the bookkeeping knows them. */
  function CountOf(n: Nags, id: string): nat {
    if id in n.escalations then 3 else if id in n.tracked then n.tracked[id].count else 0
  }

  ghost predicate NagsAreSound(n: Nags) {
    forall id | id in n.tracked :: n.tracked[id].count <= 3 && id !in n.escalations &&
      (n.tracked[id].exhausted <==> n.tracked[id].count == 3)
  }

  /** The counts of request k against the bookkeeping. `inherited` is what the bookkeeping already counted
      under its id when it was asked. */
  ghost predicate Accounted(b: B.State, n: Nags, reminded: nat, notified: nat, k: nat, inherited: nat) {
    reminded <= 3 && notified <= 1 && (k >= b.steps ==> reminded == 0 && notified == 0) &&
    forall r | r in b.pending && r.ticket == k :: AccountedEntry(n, r, reminded, notified, inherited)
  }

  ghost predicate AccountedEntry(n: Nags, r: B.Request, reminded: nat, notified: nat, inherited: nat) {
    if IsSupervised(r) then
      reminded + inherited == CountOf(n, r.id) && notified <= (if r.id in n.escalations then 1 else 0)
    else reminded == 0 && notified == 0
  }

  lemma AccountedLater(c: B.Config, b: B.State, events: seq<B.Event>, n: Nags, reminded: nat, notified: nat, k: nat,
                       inherited: nat)
    requires Accounted(b, n, reminded, notified, k, inherited) && NoAsk(events)
    ensures Accounted(ApplyAll(c, b, events), n, reminded, notified, k, inherited)
  {
    hide ApplyAll, NoAsk;
    ApplySteps(c, b, events);
    var later := ApplyAll(c, b, events);
    forall r | r in later.pending && r.ticket == k ensures AccountedEntry(n, r, reminded, notified, inherited) {
      var q := ApplyOld(c, b, events, r);
      assert AccountedEntry(n, q, reminded, notified, inherited);
    }
  }

  /** An accepted ask starts with what is counted under its id; the accounts of the others do not change. */
  lemma AccountedAsk(c: B.Config, below: seq<B.Event>, e: B.Event, n: Nags, reminded: nat, notified: nat, k: nat,
                     inherited: nat)
    requires var b := B.After(c, below);
             e.Ask? && Accounted(b, n, reminded, notified, k, inherited)
    ensures var b := B.After(c, below);
            Accounted(B.Step(c, b, e).state, n, reminded, notified, k,
                      if B.IsAccepted(e) && k == b.steps then CountOf(n, B.AskId(b, e)) else inherited)
  {
    hide B.After, B.Step, CountOf;
    var b := B.After(c, below);
    B.StepsCount(c, below);
    B.StepAdvances(c, b, e);
    B.NewRequestTicket(c, b, e);
    var after' := B.Step(c, b, e).state;
    var start := if B.IsAccepted(e) && k == b.steps then CountOf(n, B.AskId(b, e)) else inherited;
    forall r | r in after'.pending && r.ticket == k ensures AccountedEntry(n, r, reminded, notified, start) {
      B.StepEntries(c, b, e, r);
      if q :| q in b.pending && r == B.Evolve(e, q) {
        B.PendingOrigin(c, below, q);
        assert AccountedEntry(n, q, reminded, notified, inherited);
      }
    }
  }

  lemma {:induction false} SupervisedEntries(pending: seq<B.Request>)
    ensures forall r :: r in Supervised(pending) <==> r in pending && IsSupervised(r)
  {
    if pending != [] { SupervisedEntries(pending[1..]); }
  }

  lemma {:induction false} SupervisedTickets(pending: seq<B.Request>, k: nat)
    ensures B.TicketsOf(Supervised(pending))[k] <= B.TicketsOf(pending)[k]
  {
    if pending != [] {
      SupervisedTickets(pending[1..], k);
      B.TicketsCons(pending[0], Supervised(pending[1..]));
      assert [] + Supervised(pending[1..]) == Supervised(pending[1..]);
    }
  }

  lemma {:induction false} DueEntries(requests: seq<B.Request>, runs: seq<Run>, tracked: map<string, Track>,
                                      idleAt: int, now: int, graceMs: int, exhausted: bool, r: B.Request)
    ensures r in Due(requests, runs, tracked, idleAt, now, graceMs, exhausted) <==>
            r in requests && IsDue(r, runs, tracked, idleAt, now, graceMs) && tracked[r.id].exhausted == exhausted
  {
    if requests != [] { DueEntries(requests[1..], runs, tracked, idleAt, now, graceMs, exhausted, r); }
  }

  lemma {:induction false} DueTickets(requests: seq<B.Request>, runs: seq<Run>, tracked: map<string, Track>,
                                      idleAt: int, now: int, graceMs: int, exhausted: bool, k: nat)
    ensures B.TicketsOf(Due(requests, runs, tracked, idleAt, now, graceMs, exhausted))[k] <= B.TicketsOf(requests)[k]
  {
    hide IsDue, Due;
    if requests == [] {
      DueOfNone(runs, tracked, idleAt, now, graceMs, exhausted);
    } else {
      var rest := Due(requests[1..], runs, tracked, idleAt, now, graceMs, exhausted);
      DueTickets(requests[1..], runs, tracked, idleAt, now, graceMs, exhausted, k);
      DueOfFirst(requests, runs, tracked, idleAt, now, graceMs, exhausted);
      B.TicketsCons(requests[0], rest);
    }
  }

  lemma DueOfNone(runs: seq<Run>, tracked: map<string, Track>, idleAt: int, now: int, graceMs: int, exhausted: bool)
    ensures Due([], runs, tracked, idleAt, now, graceMs, exhausted) == []
  {
  }

  lemma DueOfFirst(requests: seq<B.Request>, runs: seq<Run>, tracked: map<string, Track>,
                   idleAt: int, now: int, graceMs: int, exhausted: bool)
    requires requests != []
    ensures var all := Due(requests, runs, tracked, idleAt, now, graceMs, exhausted);
            var rest := Due(requests[1..], runs, tracked, idleAt, now, graceMs, exhausted);
            all == rest || all == [requests[0]] + rest
  {
    hide IsDue;
  }

  lemma {:induction false} UniqueTicket(pending: seq<B.Request>, q: B.Request, r: B.Request)
    requires q in pending && r in pending && q.ticket == r.ticket && B.TicketsOf(pending)[r.ticket] <= 1
    ensures q == r
  {
    if pending[0] == q || pending[0] == r {
      if q != r { TicketOfRequest(pending[1..], if pending[0] == q then r else q); }
    } else {
      UniqueTicket(pending[1..], q, r);
    }
  }

  lemma {:induction false} TicketOfRequest(pending: seq<B.Request>, r: B.Request)
    requires r in pending
    ensures B.TicketsOf(pending)[r.ticket] >= 1
  {
    if pending[0] != r { TicketOfRequest(pending[1..], r); }
  }

  lemma {:induction false} TrackingFacts(requests: seq<B.Request>, tracked: map<string, Track>,
                                         escalations: set<string>, now: int, id: string)
    ensures var t := Tracking(requests, tracked, escalations, now);
            (id in tracked ==> id in t && t[id] == tracked[id]) &&
            (id in t && id !in tracked ==>
               t[id] == Track(0, now, false) && id !in escalations && id in IdSet(requests))
  {
    if requests != [] { TrackingFacts(requests[..|requests| - 1], tracked, escalations, now, id); }
  }

  lemma RefreshedFacts(n: Nags, requests: seq<B.Request>, now: int, id: string)
    ensures var m := Refreshed(n, requests, now);
            (id in IdSet(requests) ==> CountOf(m, id) == CountOf(n, id) && (id in m.escalations <==> id in n.escalations)) &&
            (id in m.tracked || id in m.escalations ==> id in IdSet(requests))
  {
    TrackingFacts(requests, Pruned(n.tracked, IdSet(requests)), n.escalations * IdSet(requests), now, id);
  }

  lemma RefreshedIsSound(n: Nags, requests: seq<B.Request>, now: int)
    requires NagsAreSound(n)
    ensures NagsAreSound(Refreshed(n, requests, now))
  {
    hide Tracking;
    forall id {
      TrackingFacts(requests, Pruned(n.tracked, IdSet(requests)), n.escalations * IdSet(requests), now, id);
    }
  }

  /** The bookkeeping after a tick's reminders and notices. */
  function Sent(n: Nags, reminders: seq<B.Request>, notices: seq<B.Request>, now: int): Nags {
    if reminders != [] then n.(tracked := Bumped(n.tracked, reminders, now))
    else n.(tracked := n.tracked - IdSet(notices), escalations := n.escalations + IdSet(notices))
  }

  lemma TickNags(c: Setup, s: Desk, now: int)
    ensures var n := Refreshed(s.nags, Requests(c, s, now), now);
            TickEffect(c, s, now).nags.(idleAt := None) ==
            Sent(n, RemindersDue(c, s, now), NoticesDue(c, s, now), now).(idleAt := None)
  {
    hide Supervised, Marks, Refreshed, Due, Undelivered, Bumped, Pause, ApplyAll, IsIdleLongEnough;
    var n := Refreshed(s.nags, Requests(c, s, now), now);
    IdleIsKnown(n, now, c.graceMs);
    assert n.tracked - IdSet([]) == n.tracked && n.escalations + IdSet([]) == n.escalations;
  }

  /** What may be reminded or noticed: pending supervised requests that are tracked, exhausted for a notice,
      and without a waiter on their run. */
  ghost predicate MayNag(requests: seq<B.Request>, runs: seq<Run>, n: Nags, due: seq<B.Request>, exhausted: bool) {
    (forall r | r in due :: r in requests && r.id in n.tracked && n.tracked[r.id].exhausted == exhausted &&
                            !HasWaiter(runs, r.runId)) &&
    forall k: nat :: B.TicketsOf(due)[k] <= B.TicketsOf(requests)[k]
  }

  lemma DueMayNag(c: Setup, s: Desk, now: int)
    ensures var requests := Requests(c, s, now);
            var n := Refreshed(s.nags, requests, now);
            MayNag(requests, s.runs, n, RemindersDue(c, s, now), false) &&
            MayNag(requests, s.runs, n, NoticesDue(c, s, now), true) &&
            (RemindersDue(c, s, now) != [] ==> NoticesDue(c, s, now) == []) &&
            (RemindersDue(c, s, now) + NoticesDue(c, s, now) != [] ==> IsIdleLongEnough(n, now, c.graceMs))
  {
    hide Requests, Refreshed, Due, Undelivered;
    var requests := Requests(c, s, now);
    var n := Refreshed(s.nags, requests, now);
    if IsIdleLongEnough(n, now, c.graceMs) {
      EmptyDueMayNag(requests, s.runs, n);
      DueIsNaggable(requests, s.runs, n, now, c.graceMs, false);
      DueIsNaggable(requests, s.runs, n, now, c.graceMs, true);
    } else {
      EmptyDueMayNag(requests, s.runs, n);
    }
  }

  lemma EmptyDueMayNag(requests: seq<B.Request>, runs: seq<Run>, n: Nags)
    ensures MayNag(requests, runs, n, [], false) && MayNag(requests, runs, n, [], true)
  {
  }

  lemma DueIsNaggable(requests: seq<B.Request>, runs: seq<Run>, n: Nags, now: int, graceMs: int, exhausted: bool)
    requires n.idleAt.Some?
    ensures MayNag(requests, runs, n, Due(requests, runs, n.tracked, n.idleAt.value, now, graceMs, exhausted), exhausted)
  {
    hide Due;
    var due := Due(requests, runs, n.tracked, n.idleAt.value, now, graceMs, exhausted);
    forall r | r in due { DueEntries(requests, runs, n.tracked, n.idleAt.value, now, graceMs, exhausted, r); }
    forall k: nat { DueTickets(requests, runs, n.tracked, n.idleAt.value, now, graceMs, exhausted, k); }
  }

  lemma SentIsSound(requests: seq<B.Request>, runs: seq<Run>, n: Nags, reminders: seq<B.Request>,
                    notices: seq<B.Request>, now: int)
    requires NagsAreSound(n) && MayNag(requests, runs, n, reminders, false) && MayNag(requests, runs, n, notices, true)
    ensures NagsAreSound(Sent(n, reminders, notices, now))
  {
    var m := Sent(n, reminders, notices, now);
    forall id | id in m.tracked
      ensures m.tracked[id].count <= 3 && id !in m.escalations &&
              (m.tracked[id].exhausted <==> m.tracked[id].count == 3)
    {
      if id in IdSet(reminders) { var r :| r in reminders && r.id == id; }
    }
  }

  /** Sending keeps the accounts of one pending entry. */
  lemma SendAccounts(pending: seq<B.Request>, runs: seq<Run>, n: Nags, reminders: seq<B.Request>,
                     notices: seq<B.Request>, now: int, r: B.Request, reminded: nat, notified: nat, inherited: nat)
    requires NagsAreSound(n) && r in pending && AccountedEntry(n, r, reminded, notified, inherited) && reminded <= 3
    requires MayNag(Supervised(pending), runs, n, reminders, false) && MayNag(Supervised(pending), runs, n, notices, true)
    requires reminders == [] || notices == []
    requires B.TicketsOf(pending)[r.ticket] <= 1 && B.DistinctIds(pending) && notified <= 1
    ensures var k := r.ticket;
            var reminded' := reminded + B.TicketsOf(reminders)[k];
            var notified' := notified + B.TicketsOf(notices)[k];
            reminded' <= 3 && notified' <= 1 &&
            AccountedEntry(Sent(n, reminders, notices, now), r, reminded', notified', inherited)
  {
    hide B.TicketsOf, B.DistinctIds, HasWaiter, MayNag, Sent, CountOf, Supervised, IdSet;
    NagsOne(pending, runs, n, reminders, false, r);
    NagsOne(pending, runs, n, notices, true, r);
    EmptyCounts();
    SentCounts(n, reminders, notices, now, r.id);
  }

  /** Whether a request is among those nagged shows in its id as in its ticket. */
  lemma NagsOne(pending: seq<B.Request>, runs: seq<Run>, n: Nags, due: seq<B.Request>, exhausted: bool, r: B.Request)
    requires r in pending && B.TicketsOf(pending)[r.ticket] <= 1 && B.DistinctIds(pending)
    requires MayNag(Supervised(pending), runs, n, due, exhausted)
    ensures B.TicketsOf(due)[r.ticket] == if r.id in IdSet(due) then 1 else 0
    ensures r.id in IdSet(due) ==>
              r in due && IsSupervised(r) && r.id in n.tracked && n.tracked[r.id].exhausted == exhausted
  {
    hide B.TicketsOf, HasWaiter;
    SupervisedEntries(pending);
    SupervisedTickets(pending, r.ticket);
    assert B.TicketsOf(due)[r.ticket] <= B.TicketsOf(Supervised(pending))[r.ticket];
    if r.id in IdSet(due) {
      var q :| q in due && q.id == r.id;
      assert q == r;
      TicketOfRequest(due, r);
    } else if B.TicketsOf(due)[r.ticket] > 0 {
      B.TicketOfEntry(due, r.ticket);
      var q :| q in due && q.ticket == r.ticket;
      UniqueTicket(pending, q, r);
    }
  }

  lemma SentCounts(n: Nags, reminders: seq<B.Request>, notices: seq<B.Request>, now: int, id: string)
    requires NagsAreSound(n) && (reminders == [] || notices == [])
    requires id in IdSet(reminders) ==> id in n.tracked && !n.tracked[id].exhausted
    requires id in IdSet(notices) ==> id in n.tracked && n.tracked[id].exhausted
    ensures var m := Sent(n, reminders, notices, now);
            CountOf(m, id) == CountOf(n, id) + (if id in IdSet(reminders) then 1 else 0) <= 3 &&
            (id in m.escalations <==> id in n.escalations || id in IdSet(notices)) &&
            (id in IdSet(notices) ==> CountOf(n, id) == 3 && id !in n.escalations)
  {
  }

  // ----- The account of a request over a run -----

  /** What the bookkeeping counted under the id of broker operation k when it was asked: reminders of an
      earlier request, if the id was taken over before a tick noticed that the earlier one was gone. */
  function Inherited(c: Setup, run: seq<Event>, k: nat): nat {
    if run == [] || run[|run| - 1].Clear? then 0
    else
      var s, last := After(c, run[..|run| - 1]), run[|run| - 1];
      if last.OnBroker? && B.IsAccepted(last.e) && s.broker.steps == k then CountOf(s.nags, B.AskId(s.broker, last.e))
      else Inherited(c, run[..|run| - 1], k)
  }

  ghost predicate NagInvariant(c: Setup, run: seq<Event>, k: nat) {
    var s := After(c, run);
    NagsAreSound(s.nags) &&
    Accounted(s.broker, s.nags, Reminded(c, run)[k], NotifiedOf(c, run)[k], k, Inherited(c, run, k))
  }

  /** Outside ticks nothing is reminded, and the bookkeeping changes only by being cleared. */
  lemma QuietStep(c: Setup, s: Desk, e: Event)
    requires !e.Tick?
    ensures var f := EffectOf(c, s, e);
            RemindersIn(f.outputs) == multiset{} && NoticesIn(f.outputs) == multiset{} &&
            (e.OnBroker? || NoAsk(f.onBroker)) &&
            if e.Clear? then f.nags.tracked == map[] && f.nags.escalations == {}
            else f.nags.tracked == s.nags.tracked && f.nags.escalations == s.nags.escalations
  {
    hide FindRun, PutRun, AnyActive, WaitTarget, Supervised, Marks, RemindersIn, NoticesIn, IdsOf, NoAsk, PollEffect;
    if e.Poll? {
      QuietPoll(s, e.runId);
    } else {
      OneOutput(EffectOf(c, s, e).outputs);
      NoAskInShort(EffectOf(c, s, e).onBroker);
    }
  }

  lemma QuietPoll(s: Desk, runId: string)
    ensures var f := PollEffect(s, runId);
            RemindersIn(f.outputs) == multiset{} && NoticesIn(f.outputs) == multiset{} && NoAsk(f.onBroker) &&
            f.nags == s.nags
  {
    hide FindRun, PutRun, Supervised, Marks, RemindersIn, NoticesIn, IdsOf;
    OneOutput(PollEffect(s, runId).outputs);
    MarksAskNothing(Supervised(B.OfRun(s.broker.pending, runId)));
  }

  lemma NoAskInShort(events: seq<B.Event>)
    ensures |events| <= 2 && (forall i | 0 <= i < |events| :: !events[i].Ask?) ==> NoAsk(events)
  {
  }

  lemma {:induction false} MarksAskNothing(requests: seq<B.Request>)
    ensures NoAsk(Marks(requests))
  {
    if requests != [] { MarksAskNothing(requests[1..]); }
  }

  lemma OneOutput(outputs: seq<Output>)
    requires outputs == [] || (|outputs| == 1 && !outputs[0].Reminder? && !outputs[0].Notified?)
    ensures RemindersIn(outputs) == multiset{} && NoticesIn(outputs) == multiset{}
  {
  }

  lemma SameBookkeeping(b: B.State, m: Nags, n: Nags, reminded: nat, notified: nat, k: nat, inherited: nat)
    requires m.tracked == n.tracked && m.escalations == n.escalations
    requires Accounted(b, m, reminded, notified, k, inherited)
    ensures Accounted(b, n, reminded, notified, k, inherited)
  {
  }

  lemma QuietKeepsInvariant(c: Setup, run: seq<Event>, k: nat)
    requires run != [] && !run[|run| - 1].Tick? && NagInvariant(c, run[..|run| - 1], k)
    ensures NagInvariant(c, run, k)
  {
    hide After, EffectOf, ApplyAll, Accounted, RemindersIn, NoticesIn, B.After, B.Step, B.IsAccepted, CountOf, NoAsk;
    var shorter, e := run[..|run| - 1], run[|run| - 1];
    var s := After(c, shorter);
    var f := EffectOf(c, s, e);
    AfterUnfolds(c, run);
    QuietStep(c, s, e);
    var b := ApplyAll(c.broker, s.broker, f.onBroker);
    if e.Clear? {
      ClearedAccounts(b, f.nags, k);
    } else {
      BrokerStepAccounts(c, shorter, e, k);
      SameBookkeeping(b, s.nags, f.nags, Reminded(c, shorter)[k], NotifiedOf(c, shorter)[k], k, Inherited(c, run, k));
    }
  }

  /** The broker's part of a step outside ticks. */
  lemma BrokerStepAccounts(c: Setup, run: seq<Event>, e: Event, k: nat)
    requires NagInvariant(c, run, k) && !e.Tick? && !e.Clear?
    ensures var s := After(c, run);
            Accounted(ApplyAll(c.broker, s.broker, EffectOf(c, s, e).onBroker), s.nags, Reminded(c, run)[k],
                      NotifiedOf(c, run)[k], k, Inherited(c, run + [e], k))
  {
    hide After, ApplyAll, Accounted, B.After, B.Step, CountOf, Reminded, NotifiedOf, NagsAreSound, NoAsk;
    var s := After(c, run);
    assert (run + [e])[..|run|] == run;
    QuietStep(c, s, e);
    if e.OnBroker? && e.e.Ask? {
      BrokerIsRun(c, run);
      OneOnBroker(c, s, e.e);
      AccountedAsk(c.broker, BrokerRun(c, run), e.e, s.nags, Reminded(c, run)[k], NotifiedOf(c, run)[k], k,
                   Inherited(c, run, k));
    } else {
      OneAsksNothing(e);
      assert e.OnBroker? ==> EffectOf(c, s, e).onBroker == [e.e];
      AccountedLater(c.broker, s.broker, EffectOf(c, s, e).onBroker, s.nags, Reminded(c, run)[k],
                     NotifiedOf(c, run)[k], k, Inherited(c, run, k));
    }
  }

  lemma OneOnBroker(c: Setup, s: Desk, e: B.Event)
    ensures ApplyAll(c.broker, s.broker, EffectOf(c, s, OnBroker(e)).onBroker) == B.Step(c.broker, s.broker, e).state
  {
    hide B.Step;
    assert [e][..0] == [];
  }

  lemma OneAsksNothing(e: Event)
    ensures e.OnBroker? && !e.e.Ask? ==> NoAsk([e.e]) && !B.IsAccepted(e.e)
  {
  }

  lemma AfterUnfolds(c: Setup, run: seq<Event>)
    requires run != []
    ensures var s := After(c, run[..|run| - 1]);
            var f := EffectOf(c, s, run[|run| - 1]);
            After(c, run) == Desk(ApplyAll(c.broker, s.broker, f.onBroker), f.runs, f.nags, f.begun)
  {
    hide EffectOf, ApplyAll;
  }

  lemma ClearedAccounts(b: B.State, n: Nags, k: nat)
    requires n.tracked == map[] && n.escalations == {}
    ensures Accounted(b, n, 0, 0, k, 0) && NagsAreSound(n)
  {
  }

  lemma {:induction false} ApplyInTwo(c: B.Config, s: B.State, first: seq<B.Event>, rest: seq<B.Event>)
    ensures ApplyAll(c, s, first + rest) == ApplyAll(c, ApplyAll(c, s, first), rest)
  {
    hide B.Step;
    if rest == [] {
      assert first + rest == first;
    } else {
      var k := |rest| - 1;
      var all := first + rest;
      ApplyInTwo(c, s, first, rest[..k]);
      assert all[..|all| - 1] == first + rest[..k] && all[|all| - 1] == rest[k];
    }
  }

  lemma PauseAsksNothing(n: Nags, now: int)
    ensures NoAsk(Pause(n, now))
  {
  }

  /** A tick pauses the clocks first; the rest of what it does to the broker comes after its decisions. */
  lemma TickOnBroker(c: Setup, s: Desk, now: int) returns (rest: seq<B.Event>)
    ensures TickEffect(c, s, now).onBroker == Pause(s.nags, now) + rest
    ensures NoAsk(Pause(s.nags, now)) && NoAsk(rest)
  {
    PauseAsksNothing(s.nags, now);
    hide Supervised, Refreshed, Due, Undelivered, Bumped, Pause, ApplyAll, IsIdleLongEnough, Marks;
    var pause := Pause(s.nags, now);
    var n := Refreshed(s.nags, Requests(c, s, now), now);
    IdleIsKnown(n, now, c.graceMs);
    var undelivered := Undelivered(Requests(c, s, now), s.runs);
    MarksAskNothing(undelivered);
    if !IsIdleLongEnough(n, now, c.graceMs) {
      rest := [];
      assert pause + [] == pause;
    } else if undelivered != [] {
      rest := Marks(undelivered) + [B.SetBusy(true)];
      assert pause + Marks(undelivered) + [B.SetBusy(true)] == pause + rest;
    } else if Due(Requests(c, s, now), s.runs, n.tracked, n.idleAt.value, now, c.graceMs, false) != [] {
      rest := [B.SetBusy(true)];
    } else {
      rest := [];
      assert pause + [] == pause;
    }
  }

  /** The state in which a tick decides: the broker after the pause, the bookkeeping refreshed. */
  lemma DecidingAccounts(c: Setup, run: seq<Event>, now: int, k: nat)
    requires NagInvariant(c, run, k)
    ensures var s := After(c, run);
            var pause := Pause(s.nags, now);
            var b := ApplyAll(c.broker, s.broker, pause);
            var n := Refreshed(s.nags, Requests(c, s, now), now);
            NagsAreSound(n) && b == B.After(c.broker, BrokerRun(c, run) + pause) &&
            Accounted(b, n, Reminded(c, run)[k], NotifiedOf(c, run)[k], k, Inherited(c, run, k))
  {
    hide After, BrokerRun, ApplyAll, NagsAreSound, Reminded, NotifiedOf, Refreshed, B.After, Pause, Supervised,
      Inherited, Accounted, NoAsk;
    var s, below := After(c, run), BrokerRun(c, run);
    var pause := Pause(s.nags, now);
    PauseAsksNothing(s.nags, now);
    AccountedLater(c.broker, s.broker, pause, s.nags, Reminded(c, run)[k], NotifiedOf(c, run)[k], k,
                   Inherited(c, run, k));
    BrokerIsRun(c, run);
    ApplyIsRun(c.broker, below, pause);
    var b := ApplyAll(c.broker, s.broker, pause);
    var requests := Supervised(b.pending);
    RefreshedIsSound(s.nags, requests, now);
    RefreshedAccounts(b, s.nags, requests, now, Reminded(c, run)[k], NotifiedOf(c, run)[k], k, Inherited(c, run, k));
  }

  lemma RefreshedAccounts(b: B.State, n: Nags, requests: seq<B.Request>, now: int, reminded: nat, notified: nat,
                          k: nat, inherited: nat)
    requires Accounted(b, n, reminded, notified, k, inherited) && requests == Supervised(b.pending)
    ensures Accounted(b, Refreshed(n, requests, now), reminded, notified, k, inherited)
  {
    hide Refreshed, Supervised, CountOf;
    SupervisedEntries(b.pending);
    forall r | r in b.pending && r.ticket == k
      ensures AccountedEntry(Refreshed(n, requests, now), r, reminded, notified, inherited)
    {
      assert AccountedEntry(n, r, reminded, notified, inherited);
      RefreshedFacts(n, requests, now, r.id);
    }
  }

  lemma SendingAccounts(c: B.Config, below: seq<B.Event>, runs: seq<Run>, n: Nags, reminders: seq<B.Request>,
                        notices: seq<B.Request>, now: int, reminded: nat, notified: nat, k: nat, inherited: nat)
    requires var b := B.After(c, below);
             Accounted(b, n, reminded, notified, k, inherited) && NagsAreSound(n) &&
             MayNag(Supervised(b.pending), runs, n, reminders, false) &&
             MayNag(Supervised(b.pending), runs, n, notices, true)
    requires reminders == [] || notices == []
    ensures Accounted(B.After(c, below), Sent(n, reminders, notices, now), reminded + B.TicketsOf(reminders)[k],
                      notified + B.TicketsOf(notices)[k], k, inherited)
  {
    hide B.After, B.TicketsOf, B.DistinctIds, Sent, NagsAreSound, AccountedEntry, HasWaiter, B.Settlements,
      B.Displacements, B.IsAccepted;
    var b := B.After(c, below);
    B.SettledAtMostOnce(c, below, k);
    B.RunKeepsIds(c, below);
    B.StepsCount(c, below);
    if r :| r in b.pending && r.ticket == k {
      B.PendingOrigin(c, below, r);
      assert AccountedEntry(n, r, reminded, notified, inherited);
      SendAccounts(b.pending, runs, n, reminders, notices, now, r, reminded, notified, inherited);
      forall q | q in b.pending && q.ticket == k ensures q == r { UniqueTicket(b.pending, q, r); }
    } else {
      B.TicketOfEntry(b.pending, k);
      SupervisedTickets(b.pending, k);
      assert B.TicketsOf(reminders)[k] <= B.TicketsOf(Supervised(b.pending))[k];
      assert B.TicketsOf(notices)[k] <= B.TicketsOf(Supervised(b.pending))[k];
    }
  }

  /** The accounts right after a tick's decisions. */
  lemma TickDecides(c: Setup, run: seq<Event>, now: int, k: nat)
    requires NagInvariant(c, run, k)
    ensures var s := After(c, run);
            var n := Refreshed(s.nags, Requests(c, s, now), now);
            var m := Sent(n, RemindersDue(c, s, now), NoticesDue(c, s, now), now);
            NagsAreSound(m) &&
            Accounted(ApplyAll(c.broker, s.broker, Pause(s.nags, now)), m,
                      Reminded(c, run)[k] + B.TicketsOf(RemindersDue(c, s, now))[k],
                      NotifiedOf(c, run)[k] + B.TicketsOf(NoticesDue(c, s, now))[k], k, Inherited(c, run, k))
  {
    hide After, BrokerRun, Accounted, Sent, MayNag, Refreshed, Requests, RemindersDue, NoticesDue, B.After,
      NagsAreSound, Pause, NagInvariant, B.TicketsOf, Reminded, NotifiedOf, IsIdleLongEnough, ApplyAll, Inherited;
    var s, below := After(c, run), BrokerRun(c, run) + Pause(After(c, run).nags, now);
    var n := Refreshed(s.nags, Requests(c, s, now), now);
    var reminders, notices := RemindersDue(c, s, now), NoticesDue(c, s, now);
    DecidingAccounts(c, run, now, k);
    DueMayNag(c, s, now);
    RequestsAre(c, s, now);
    SendingAccounts(c.broker, below, s.runs, n, reminders, notices, now, Reminded(c, run)[k], NotifiedOf(c, run)[k], k,
                    Inherited(c, run, k));
    SentIsSound(Requests(c, s, now), s.runs, n, reminders, notices, now);
  }

  lemma TickKeepsInvariant(c: Setup, run: seq<Event>, k: nat)
    requires run != [] && run[|run| - 1].Tick? && NagInvariant(c, run[..|run| - 1], k)
    ensures NagInvariant(c, run, k)
  {
    hide After, TickEffect, ApplyAll, Accounted, RemindersIn, NoticesIn, Sent, Refreshed, Requests, RemindersDue,
      NoticesDue, B.After, NagsAreSound, Pause, B.TicketsOf, NoAsk;
    var shorter, now := run[..|run| - 1], run[|run| - 1].now;
    var s := After(c, shorter);
    var pause := Pause(s.nags, now);
    var m := Sent(Refreshed(s.nags, Requests(c, s, now), now), RemindersDue(c, s, now), NoticesDue(c, s, now), now);
    var rest := TickOnBroker(c, s, now);
    AfterUnfolds(c, run);
    TickDecides(c, shorter, now, k);
    TickCounts(c, s, now);
    TickNags(c, s, now);
    ApplyInTwo(c.broker, s.broker, pause, rest);
    AccountedLater(c.broker, ApplyAll(c.broker, s.broker, pause), rest, m, Reminded(c, run)[k], NotifiedOf(c, run)[k], k,
                   Inherited(c, run, k));
    SameNags(After(c, run).broker, m, After(c, run).nags, Reminded(c, run)[k], NotifiedOf(c, run)[k], k,
             Inherited(c, run, k));
  }

  lemma RequestsAre(c: Setup, s: Desk, now: int)
    ensures Requests(c, s, now) == Supervised(ApplyAll(c.broker, s.broker, Pause(s.nags, now)).pending)
  {
  }

  lemma SameNags(b: B.State, m: Nags, n: Nags, reminded: nat, notified: nat, k: nat, inherited: nat)
    requires m.(idleAt := None) == n.(idleAt := None)
    requires NagsAreSound(m) && Accounted(b, m, reminded, notified, k, inherited)
    ensures NagsAreSound(n) && Accounted(b, n, reminded, notified, k, inherited)
  {
    assert m.tracked == n.(idleAt := None).tracked && m.escalations == n.(idleAt := None).escalations;
    SameBookkeeping(b, m, n, reminded, notified, k, inherited);
  }

  lemma {:induction false} NagInvariantHolds(c: Setup, run: seq<Event>, k: nat)
    ensures NagInvariant(c, run, k)
  {
    hide NagInvariant;
    if run == [] {
      NagInvariantStarts(c, k);
    } else {
      NagInvariantHolds(c, run[..|run| - 1], k);
      if run[|run| - 1].Tick? { TickKeepsInvariant(c, run, k); } else { QuietKeepsInvariant(c, run, k); }
    }
  }

  lemma NagInvariantStarts(c: Setup, k: nat)
    ensures NagInvariant(c, [], k)
  {
  }

  /** A request gets at most three reminders and at most one notice. */
  lemma BoundedNagging(c: Setup, run: seq<Event>, k: nat)
    ensures Reminded(c, run)[k] <= 3 && NotifiedOf(c, run)[k] <= 1
  {
    NagInvariantHolds(c, run, k);
  }

  /** The notice is the first, and comes after three counted reminders: the request's own and those it
      inherited. So it has had exactly three of its own if and only if its id was not taken over. */
  lemma NoticeAfterThree(c: Setup, run: seq<Event>, now: int, k: nat)
    requires NoticesIn(EffectOf(c, After(c, run), Tick(now)).outputs)[k] > 0
    ensures Reminded(c, run)[k] + Inherited(c, run, k) == 3 && NotifiedOf(c, run)[k] == 0
  {
    hide After, TickEffect, NoticesIn, Requests, NoticesDue, RemindersDue, B.After, ApplyAll, Refreshed, Pause,
      B.TicketsOf, Reminded, NotifiedOf, NagInvariant, HasWaiter, Inherited;
    var s := After(c, run);
    var b, n := ApplyAll(c.broker, s.broker, Pause(s.nags, now)), Refreshed(s.nags, Requests(c, s, now), now);
    NagInvariantHolds(c, run, k);
    DecidingAccounts(c, run, now, k);
    DueMayNag(c, s, now);
    TickCounts(c, s, now);
    RequestsAre(c, s, now);
    SupervisedEntries(b.pending);
    B.TicketOfEntry(NoticesDue(c, s, now), k);
    var r :| r in NoticesDue(c, s, now) && r.ticket == k;
    assert AccountedEntry(n, r, Reminded(c, run)[k], NotifiedOf(c, run)[k], Inherited(c, run, k));
  }

  // The default settings, in milliseconds.
  const DEFAULTS := Setup(B.Config(300, 600000), 30000)

  function AskAs(id: string): Event { OnBroker(B.Ask(0, Some(id), "run", B.Supervisor, None, true, None)) }

  /** A request is asked, shown, reminded of and answered; then its id is asked again before the next tick. */
  function ReaskRun(id: string, answer: B.Result): seq<Event> {
    [AskAs(id), OnBroker(B.MarkInline(id)), BecomeSettled(0), Tick(0), Tick(30000), OnBroker(B.Resolve(id, answer)),
     AskAs(id)]
  }

  /** After the second tick the request is reminded of once, and still pending. */
  lemma RemindedOnce(id: string, run: seq<Event>) returns (r: B.Request)
    requires run == [AskAs(id), OnBroker(B.MarkInline(id)), BecomeSettled(0), Tick(0), Tick(30000)]
    ensures var s := After(DEFAULTS, run);
            s.broker.pending == [r] && r.id == id && s.broker.steps == 4 &&
            s.nags.tracked == map[id := Track(1, 30000, false)] && s.nags.escalations == {}
  {
    hide EffectOf, ApplyAll, After;
    var idle, tracked := run[..3], run[..4];
    assert tracked[..3] == idle && run[..4] == tracked;
    r := ShownAndIdle(id, idle);
    TrackingTick(After(DEFAULTS, idle), r);
    AfterUnfolds(DEFAULTS, tracked);
    ReminderTick(After(DEFAULTS, tracked), r);
    AfterUnfolds(DEFAULTS, run);
  }

  /** The second request, broker operation 5, inherits the first one's reminder. */
  lemma ReaskInherits(id: string, answer: B.Result)
    ensures B.TicketsOf(After(DEFAULTS, ReaskRun(id, answer)).broker.pending) == multiset{5}
    ensures Inherited(DEFAULTS, ReaskRun(id, answer), 5) == 1
  {
    hide EffectOf, ApplyAll, After;
    var run := ReaskRun(id, answer);
    assert run[..6][..5] == run[..5];
    var r := RemindedOnce(id, run[..5]);
    var reminded := After(DEFAULTS, run[..5]);
    AfterUnfolds(DEFAULTS, run[..6]);
    OneOnBroker(DEFAULTS, reminded, B.Resolve(id, answer));
    OnBrokerKeepsNags(DEFAULTS, reminded, B.Resolve(id, answer));
    var answered := After(DEFAULTS, run[..6]);
    assert [r][1..] == [] && answered.broker.pending == [] && answered.broker.steps == 5;
    AfterUnfolds(DEFAULTS, run);
    OneOnBroker(DEFAULTS, answered, AskAs(id).e);
    assert After(DEFAULTS, run).broker.pending == [B.NewRequest(DEFAULTS.broker, answered.broker, AskAs(id).e)];
  }

  lemma OnBrokerKeepsNags(c: Setup, s: Desk, e: B.Event)
    ensures EffectOf(c, s, OnBroker(e)).nags == s.nags
  {
  }

  /** After the first three operations one inline request is pending and the supervisor is idle. */
  lemma ShownAndIdle(id: string, run: seq<Event>) returns (r: B.Request)
    requires run == [AskAs(id), OnBroker(B.MarkInline(id)), BecomeSettled(0)]
    ensures var s := After(DEFAULTS, run);
            s.broker.pending == [r] && s.broker.steps == 3 && s.runs == [] && s.nags == Nags(Some(0), map[], {}, None)
    ensures r.id == id && IsSupervised(r) && r.inlineDelivered
  {
    hide EffectOf, ApplyAll;
    assert run[..2][..1] == run[..1] && run[..1][..0] == [] && run[..2][1] == run[1] && run[..1][0] == run[0];
    AfterUnfolds(DEFAULTS, run[..1]);
    AfterUnfolds(DEFAULTS, run[..2]);
    AfterUnfolds(DEFAULTS, run);
    OneOnBroker(DEFAULTS, INITIAL, AskAs(id).e);
    FirstEffects(INITIAL, id);
    var asked := After(DEFAULTS, run[..1]);
    r := B.NewRequest(DEFAULTS.broker, B.INITIAL, AskAs(id).e);
    assert asked.broker.pending == [r];
    OneOnBroker(DEFAULTS, asked, B.MarkInline(id));
    FirstEffects(asked, id);
    assert [r][1..] == [] && B.Marked([r], id) == [B.MarkOne(r, id)];
    r := B.MarkOne(r, id);
    var marked := After(DEFAULTS, run[..2]);
    assert marked.broker.pending == [r];
    FirstEffects(marked, id);
    SettledOnBroker(marked.broker);
  }

  lemma FirstEffects(s: Desk, id: string)
    ensures EffectOf(DEFAULTS, s, AskAs(id)).runs == s.runs && EffectOf(DEFAULTS, s, AskAs(id)).nags == s.nags
    ensures EffectOf(DEFAULTS, s, OnBroker(B.MarkInline(id))).runs == s.runs
    ensures EffectOf(DEFAULTS, s, OnBroker(B.MarkInline(id))).nags == s.nags
    ensures var f := EffectOf(DEFAULTS, s, BecomeSettled(0));
            f.runs == s.runs && f.nags == s.nags.(idleAt := Some(0)) && f.onBroker == [B.SetBusy(false)]
  {
  }

  lemma SettledOnBroker(b: B.State)
    ensures var t := ApplyAll(DEFAULTS.broker, b, [B.SetBusy(false)]);
            t.pending == b.pending && t.steps == b.steps + 1
    ensures var t := ApplyAll(DEFAULTS.broker, b, [B.SetBusy(true)]);
            t.pending == b.pending && t.steps == b.steps + 1
  {
    assert [B.SetBusy(false)][..0] == [] && [B.SetBusy(true)][..0] == [];
  }

  /** The first tick only starts the bookkeeping: the grace period has just begun. */
  lemma TrackingTick(s: Desk, r: B.Request)
    requires s.broker.pending == [r] && s.runs == [] && s.nags == Nags(Some(0), map[], {}, None)
    requires IsSupervised(r) && r.inlineDelivered
    ensures var f := EffectOf(DEFAULTS, s, Tick(0));
            f.onBroker == [] && f.runs == [] && f.nags == Nags(Some(0), map[r.id := Track(0, 0, false)], {}, Some(0)) &&
            ApplyAll(DEFAULTS.broker, s.broker, f.onBroker) == s.broker
  {
    hide B.Step, Marks;
    ApplyNothing(s.broker);
    assert [r][1..] == [] && Supervised([r]) == [r];
    assert [r][..0] == [] && Tracking([r], map[], {}, 0) == map[r.id := Track(0, 0, false)];
    var none: set<string> := {};
    assert Pruned(map[], IdSet([r])) == map[] && none * IdSet([r]) == {};
  }

  /** The second one comes when it is over. */
  lemma ReminderTick(s: Desk, r: B.Request)
    requires s.broker.pending == [r] && s.runs == [] && s.nags == Nags(Some(0), map[r.id := Track(0, 0, false)], {}, Some(0))
    requires IsSupervised(r) && r.inlineDelivered
    ensures var f := EffectOf(DEFAULTS, s, Tick(30000));
            f.nags.tracked == map[r.id := Track(1, 30000, false)] && f.nags.escalations == {} &&
            ApplyAll(DEFAULTS.broker, s.broker, f.onBroker).pending == [r] &&
            ApplyAll(DEFAULTS.broker, s.broker, f.onBroker).steps == s.broker.steps + 1
  {
    hide B.Step, Marks;
    ApplyNothing(s.broker);
    assert [r][1..] == [] && Supervised([r]) == [r];
    var n, tracked := Refreshed(s.nags, [r], 30000), map[r.id := Track(0, 0, false)];
    var none: set<string> := {};
    assert r.id in IdSet([r]) && Pruned(tracked, IdSet([r])) == tracked && none * IdSet([r]) == {};
    assert [r][..0] == [] && Tracking([r], tracked, {}, 30000) == tracked;
    assert n.tracked == tracked;
    assert Undelivered([r], []) == [];
    assert Due([r], [], tracked, 0, 30000, 30000, false) == [r];
    assert Bumped(tracked, [r], 30000) == map[r.id := Track(1, 30000, false)];
    SettledOnBroker(s.broker);
    assert [] + [B.SetBusy(true)] == [B.SetBusy(true)];
  }

  lemma ApplyNothing(b: B.State)
    ensures ApplyAll(DEFAULTS.broker, b, []) == b
  {
  }

  /** Who is reminded or given up on is still pending, and nobody waits on its run. */
  lemma NaggedArePending(c: Setup, run: seq<Event>, now: int, k: nat)
    requires var outputs := EffectOf(c, After(c, run), Tick(now)).outputs;
             RemindersIn(outputs)[k] > 0 || NoticesIn(outputs)[k] > 0
    ensures B.TicketsOf(After(c, run).broker.pending)[k] == 1 &&
            B.Settlements(c.broker, BrokerRun(c, run))[k] == 0
    ensures exists r :: r in After(c, run).broker.pending && r.ticket == k && IsSupervised(r) &&
                        !HasWaiter(After(c, run).runs, r.runId)
  {
    hide After, TickEffect, RemindersIn, NoticesIn, Requests, NoticesDue, RemindersDue, B.After, ApplyAll, Refreshed,
      Pause, B.TicketsOf, HasWaiter, BrokerRun, B.Settlements, B.Displacements, B.IsAccepted;
    var s := After(c, run);
    TickCounts(c, s, now);
    DueMayNag(c, s, now);
    B.TicketOfEntry(RemindersDue(c, s, now), k);
    B.TicketOfEntry(NoticesDue(c, s, now), k);
    var r :| r in Requests(c, s, now) && r.ticket == k && !HasWaiter(s.runs, r.runId);
    var q := RequestWasPending(c, run, now, r);
    BrokerIsRun(c, run);
    B.TicketOfEntry(s.broker.pending, k);
    B.SettledAtMostOnce(c.broker, BrokerRun(c, run), k);
  }

  lemma RequestWasPending(c: Setup, run: seq<Event>, now: int, r: B.Request) returns (q: B.Request)
    requires r in Requests(c, After(c, run), now)
    ensures q in After(c, run).broker.pending && SameAsk(q, r) && IsSupervised(r)
  {
    hide After, ApplyAll, SameAsk;
    var s := After(c, run);
    var pause := Pause(s.nags, now);
    SupervisedEntries(ApplyAll(c.broker, s.broker, pause).pending);
    PauseAsksNothing(s.nags, now);
    q := ApplyOld(c.broker, s.broker, pause, r);
  }

  // ----- Grace -----

  predicate NagsAny(outputs: seq<Output>) {
    exists o :: o in outputs && (o.Question? || o.Reminder? || o.Notified?)
  }

  /** The supervisor settled at operation i, at time `since`; nothing after it made the supervisor busy. */
  ghost predicate IdleSince(c: Setup, run: seq<Event>, i: nat, since: int) {
    i < |run| && run[i] == BecomeSettled(since) &&
    forall j | i < j < |run| :: !run[j].BecomeBusy? && !run[j].BecomeSettled? && !run[j].Clear? &&
                                !AsksOrReminds(EffectOf(c, After(c, run[..j]), run[j]).outputs)
  }

  predicate AsksOrReminds(outputs: seq<Output>) {
    exists o :: o in outputs && (o.Question? || o.Reminder?)
  }

  lemma {:induction false} QuestionOutputsAsk(requests: seq<B.Request>, tracked: map<string, Track>)
    ensures requests != [] ==> AsksOrReminds(QuestionOutputs(requests)) && AsksOrReminds(ReminderOutputs(requests, tracked))
  {
    if requests != [] {
      assert QuestionOutputs(requests)[0] in QuestionOutputs(requests);
      assert ReminderOutputs(requests, tracked)[0] in ReminderOutputs(requests, tracked);
    }
  }

  /** A tick leaves the supervisor idle exactly when it was idle and the tick asked and reminded nothing. */
  lemma TickIdle(c: Setup, s: Desk, now: int)
    ensures var f := TickEffect(c, s, now);
            f.nags.idleAt == (if AsksOrReminds(f.outputs) then None else s.nags.idleAt) &&
            (NagsAny(f.outputs) ==> s.nags.idleAt.Some? && now - s.nags.idleAt.value >= c.graceMs)
  {
    hide Supervised, Marks, Due, Undelivered, Bumped, Pause, ApplyAll, Tracking;
    var requests := Requests(c, s, now);
    var n := Refreshed(s.nags, requests, now);
    if IsIdleLongEnough(n, now, c.graceMs) {
      var reminders := Due(requests, s.runs, n.tracked, n.idleAt.value, now, c.graceMs, false);
      var exhausted := Due(requests, s.runs, n.tracked, n.idleAt.value, now, c.graceMs, true);
      QuestionOutputsAsk(Undelivered(requests, s.runs), map[]);
      QuestionOutputsAsk(reminders, Bumped(n.tracked, reminders, now));
      NagsAreNags(exhausted, map[]);
      ReportsAreFallbacks(s.runs);
    }
  }

  lemma QuietIdle(c: Setup, s: Desk, e: Event)
    requires !e.Tick?
    ensures var f := EffectOf(c, s, e);
            f.nags.idleAt ==
              (if e.BecomeSettled? then Some(e.now) else if e.BecomeBusy? || e.Clear? then None else s.nags.idleAt) &&
            !AsksOrReminds(f.outputs)
  {
    hide FindRun, PutRun, AnyActive, WaitTarget, Supervised, Marks, IdsOf;
  }

  lemma {:induction false} IdleSinceSettled(c: Setup, run: seq<Event>) returns (i: nat)
    requires After(c, run).nags.idleAt.Some?
    ensures IdleSince(c, run, i, After(c, run).nags.idleAt.value)
  {
    hide EffectOf, ApplyAll, AsksOrReminds;
    assert run != [];
    var shorter, e := run[..|run| - 1], run[|run| - 1];
    var s := After(c, shorter);
    if e.Tick? { TickIdle(c, s, e.now); TickIsTick(c, s, e.now); } else { QuietIdle(c, s, e); }
    if e.BecomeSettled? {
      i := |run| - 1;
    } else {
      i := IdleSinceSettled(c, shorter);
      forall j | i < j < |run|
        ensures !run[j].BecomeBusy? && !run[j].BecomeSettled? && !run[j].Clear? &&
                !AsksOrReminds(EffectOf(c, After(c, run[..j]), run[j]).outputs)
      {
        if j < |shorter| { assert shorter[j] == run[j] && shorter[..j] == run[..j]; }
      }
    }
  }

  lemma TickIsTick(c: Setup, s: Desk, now: int)
    ensures EffectOf(c, s, Tick(now)) == TickEffect(c, s, now)
  {
  }

  /** Before each question, reminder or notice the supervisor settled, at least a grace period ago, and since
      then it was not busy and nothing was asked or reminded. */
  lemma GraceBeforeNag(c: Setup, run: seq<Event>, now: int) returns (i: nat, since: int)
    requires NagsAny(EffectOf(c, After(c, run), Tick(now)).outputs)
    ensures IdleSince(c, run, i, since) && now - since >= c.graceMs
  {
    hide After, TickEffect, NagsAny, IdleSince;
    TickIdle(c, After(c, run), now);
    since := After(c, run).nags.idleAt.value;
    i := IdleSinceSettled(c, run);
  }
}
