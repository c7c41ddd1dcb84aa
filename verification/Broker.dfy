/** The request broker (extensions/request-broker.ts): the queue of requests for judgement, its coalescing
    window and its expiry rules. */
module Broker {
  import opened Values

  datatype Kind = Human | Supervisor | StateReport

  /** A pending request. `ticket` names the promise its asker holds: the number of the operation that
      created it. */
  datatype Request = Request(
    ticket: nat, id: string, runId: string, kind: Kind, dflt: Option<string>, expectsReply: bool,
    createdAt: int, expiresAt: Option<int>, inlineDelivered: bool)

  datatype Slot = Slot(ticket: nat, id: string)

  datatype Source = FromHuman | FromSupervisor | FromDefault | WasCancelled | TimedOut

  datatype Result = Result(source: Source, text: Option<string>, reason: Option<string>)

  datatype Output =
    | Settled(ticket: nat, id: string, result: Result, aborted: bool)
    | Refused(ticket: nat, id: string, reason: string)
    | HandedOver(closed: seq<Slot>, batch: seq<Slot>)

  datatype Config = Config(coalesceMs: int, supervisorTimeoutMs: int)

  datatype State = State(
    pending: seq<Request>,      // a map keyed by id, in insertion order
    batch: Option<seq<Slot>>,
    closesAt: int,
    held: set<string>,
    busy: bool,
    nextId: nat,
    steps: nat)                 // operations so far; names the next promise

  /** The operations, with the clock where they read it. `tooLong` is what the question length check says. A
      tick is CloseWindow, then whatever the sink does with the batch it is handed, then Expire. */
  datatype Event =
    | Ask(now: int, given: Option<string>, runId: string, kind: Kind, dflt: Option<string>, expectsReply: bool,
          tooLong: Option<string>)
    | CloseWindow(now: int)
    | Expire(now: int)
    | Resolve(id: string, result: Result)
    | Cancel(id: string, reason: string)
    | CancelRun(runId: string, reason: string)
    | Hold(runId: string, hold: bool)
    | SetBusy(busy: bool)
    | Extend(ms: int)
    | MarkInline(id: string)

  datatype Outcome = Outcome(state: State, outputs: seq<Output>)

  const TIMEOUT_REASON := "No supervisor answer in time; proceed on your best judgement or emit BLOCKED_ON."

  const INITIAL := State([], None, 0, {}, false, 0, 0)

  // ----- The operations as functions -----

  function Decimal(n: nat): string {
    if n < 10 then [('0' as int + n) as char] else Decimal(n / 10) + [('0' as int + n % 10) as char]
  }

  function NumberedId(n: nat): string { "req-" + Decimal(n) }

  predicate IdPending(pending: seq<Request>, id: string) {
    exists r :: r in pending && r.id == id
  }

  function Find(pending: seq<Request>, id: string): Option<Request> {
    if pending == [] then None
    else if pending[0].id == id then Some(pending[0])
    else Find(pending[1..], id)
  }

  /** Map.set: an entry with the same id is replaced where it stands. */
  function Put(pending: seq<Request>, r: Request): seq<Request> {
    if pending == [] then [r]
    else if pending[0].id == r.id then [r] + pending[1..]
    else [pending[0]] + Put(pending[1..], r)
  }

  /** Map.delete */
  function Without(pending: seq<Request>, id: string): seq<Request> {
    if pending == [] then []
    else if pending[0].id == id then pending[1..]
    else [pending[0]] + Without(pending[1..], id)
  }

  predicate IsRefused(e: Event) {
    e.Ask? && e.kind == Human && e.tooLong.Some?
  }

  predicate IsAccepted(e: Event) {
    e.Ask? && !IsRefused(e)
  }

  function AskId(s: State, e: Event): string
    requires e.Ask?
  {
    if e.given.Some? then e.given.value else NumberedId(s.nextId + 1)
  }

  function NewRequest(c: Config, s: State, e: Event): Request
    requires e.Ask?
  {
    Request(s.steps, AskId(s, e), e.runId, e.kind, e.dflt, e.expectsReply, e.now,
            if e.kind == Supervisor && e.expectsReply then Some(e.now + c.supervisorTimeoutMs) else None, false)
  }

  function AskStep(c: Config, s: State, e: Event): Outcome
    requires e.Ask?
  {
    var numbered := if e.given.Some? then s else s.(nextId := s.nextId + 1);
    if IsRefused(e) then
      Outcome(numbered, [Refused(s.steps, AskId(s, e), e.tooLong.value)])
    else
      var r := NewRequest(c, s, e);
      var slot := Slot(r.ticket, r.id);
      var queued := numbered.(pending := Put(s.pending, r));
      Outcome(if s.batch.None? then queued.(batch := Some([slot]), closesAt := e.now + c.coalesceMs)
              else queued.(batch := Some(s.batch.value + [slot])), [])
  }

  function StillPending(batch: seq<Slot>, pending: seq<Request>): seq<Slot> {
    if batch == [] then []
    else if IdPending(pending, batch[0].id) then [batch[0]] + StillPending(batch[1..], pending)
    else StillPending(batch[1..], pending)
  }

  predicate IsDue(s: State, r: Request, now: int) {
    r.expiresAt.Some? && !s.busy && r.runId !in s.held && now >= r.expiresAt.value
  }

  function NotDue(s: State, pending: seq<Request>, now: int): seq<Request> {
    if pending == [] then []
    else if IsDue(s, pending[0], now) then NotDue(s, pending[1..], now)
    else [pending[0]] + NotDue(s, pending[1..], now)
  }

  function TimeOut(r: Request): Output {
    Settled(r.ticket, r.id, Result(TimedOut, r.dflt, Some(TIMEOUT_REASON)), false)
  }

  function TimeOuts(s: State, pending: seq<Request>, now: int): seq<Output> {
    if pending == [] then []
    else if IsDue(s, pending[0], now) then [TimeOut(pending[0])] + TimeOuts(s, pending[1..], now)
    else TimeOuts(s, pending[1..], now)
  }

  predicate Closes(s: State, now: int) {
    s.batch.Some? && now >= s.closesAt
  }

  function CloseStep(s: State, now: int): Outcome {
    if Closes(s, now) then
      Outcome(s.(batch := None), [HandedOver(s.batch.value, StillPending(s.batch.value, s.pending))])
    else Outcome(s, [])
  }

  function ExpireStep(s: State, now: int): Outcome {
    Outcome(s.(pending := NotDue(s, s.pending, now)), TimeOuts(s, s.pending, now))
  }

  function ResolveStep(s: State, id: string, result: Result): Outcome {
    var r := Find(s.pending, id);
    if r.None? then Outcome(s, [])
    else Outcome(s.(pending := Without(s.pending, id)), [Settled(r.value.ticket, id, result, true)])
  }

  function CancelResult(r: Request, reason: string): Result {
    if r.kind == Human && r.dflt.Some? then Result(FromDefault, r.dflt, Some(reason))
    else Result(WasCancelled, None, Some(reason))
  }

  function CancelStep(s: State, id: string, reason: string): Outcome {
    var r := Find(s.pending, id);
    if r.None? then Outcome(s, []) else ResolveStep(s, id, CancelResult(r.value, reason))
  }

  function IdsOfRun(pending: seq<Request>, runId: string): seq<string> {
    if pending == [] then []
    else if pending[0].runId == runId then [pending[0].id] + IdsOfRun(pending[1..], runId)
    else IdsOfRun(pending[1..], runId)
  }

  function CancelAll(s: State, ids: seq<string>, reason: string): Outcome
    decreases |ids|
  {
    if ids == [] then Outcome(s, [])
    else
      var before := CancelAll(s, ids[..|ids| - 1], reason);
      var last := CancelStep(before.state, ids[|ids| - 1], reason);
      Outcome(last.state, before.outputs + last.outputs)
  }

  function Extended(pending: seq<Request>, ms: int): seq<Request> {
    if pending == [] then [] else [ExtendOne(pending[0], ms)] + Extended(pending[1..], ms)
  }

  function ExtendOne(r: Request, ms: int): Request {
    if r.expiresAt.Some? then r.(expiresAt := Some(r.expiresAt.value + ms)) else r
  }

  function Marked(pending: seq<Request>, id: string): seq<Request> {
    if pending == [] then [] else [MarkOne(pending[0], id)] + Marked(pending[1..], id)
  }

  function MarkOne(r: Request, id: string): Request {
    if r.id == id then r.(inlineDelivered := true) else r
  }

  /** One operation. */
  function Step(c: Config, s: State, e: Event): Outcome {
    var o := match e
      case Ask(_, _, _, _, _, _, _) => AskStep(c, s, e)
      case CloseWindow(now) => CloseStep(s, now)
      case Expire(now) => ExpireStep(s, now)
      case Resolve(id, result) => ResolveStep(s, id, result)
      case Cancel(id, reason) => CancelStep(s, id, reason)
      case CancelRun(runId, reason) => CancelAll(s, IdsOfRun(s.pending, runId), reason)
      case Hold(runId, hold) => Outcome(s.(held := if hold then s.held + {runId} else s.held - {runId}), [])
      case SetBusy(busy) => Outcome(s.(busy := busy), [])
      case Extend(ms) => Outcome(s.(pending := Extended(s.pending, ms)), [])
      case MarkInline(id) => Outcome(s.(pending := Marked(s.pending, id)), []);
    o.(state := o.state.(steps := s.steps + 1))
  }

  // ----- Conservation of promises -----

  function TicketsOf(pending: seq<Request>): multiset<nat> {
    if pending == [] then multiset{} else multiset{pending[0].ticket} + TicketsOf(pending[1..])
  }

  function SettledIn(outputs: seq<Output>): multiset<nat> {
    if outputs == [] then multiset{}
    else (if outputs[0].Settled? then multiset{outputs[0].ticket} else multiset{}) + SettledIn(outputs[1..])
  }

  function Ticket(r: Option<Request>): multiset<nat> {
    if r.Some? then multiset{r.value.ticket} else multiset{}
  }

  /** The promise an accepted ask throws away: the one pending under the same id. */
  function Displaced(s: State, e: Event): multiset<nat> {
    if IsAccepted(e) then Ticket(Find(s.pending, AskId(s, e))) else multiset{}
  }

  function Opened(s: State, e: Event): multiset<nat> {
    if IsAccepted(e) then multiset{s.steps} else multiset{}
  }

  lemma {:induction false} SettledConcat(a: seq<Output>, b: seq<Output>)
    ensures SettledIn(a + b) == SettledIn(a) + SettledIn(b)
  {
    if a == [] {
      assert a + b == b;
    } else {
      assert (a + b)[1..] == a[1..] + b;
      SettledConcat(a[1..], b);
    }
  }

  lemma {:induction false} PutTickets(pending: seq<Request>, r: Request)
    ensures TicketsOf(Put(pending, r)) + Ticket(Find(pending, r.id)) == TicketsOf(pending) + multiset{r.ticket}
  {
    if pending == [] {
    } else if pending[0].id == r.id {
      assert ([r] + pending[1..])[1..] == pending[1..];
    } else {
      PutTickets(pending[1..], r);
      assert ([pending[0]] + Put(pending[1..], r))[1..] == Put(pending[1..], r);
      AddOnBothSides(multiset{pending[0].ticket}, TicketsOf(Put(pending[1..], r)), Ticket(Find(pending[1..], r.id)),
                     TicketsOf(pending[1..]), multiset{r.ticket});
    }
  }

  lemma AddOnBothSides(h: multiset<nat>, a: multiset<nat>, b: multiset<nat>, c: multiset<nat>, d: multiset<nat>)
    requires a + b == c + d
    ensures (h + a) + b == (h + c) + d
  {
    assert (h + a) + b == h + (a + b) && (h + c) + d == h + (c + d);
  }

  lemma {:induction false} WithoutTickets(pending: seq<Request>, id: string)
    ensures TicketsOf(Without(pending, id)) + Ticket(Find(pending, id)) == TicketsOf(pending)
  {
    if pending != [] && pending[0].id != id {
      WithoutTickets(pending[1..], id);
      assert ([pending[0]] + Without(pending[1..], id))[1..] == Without(pending[1..], id);
    }
  }

  lemma {:induction false} NotDueTickets(s: State, pending: seq<Request>, now: int)
    ensures TicketsOf(NotDue(s, pending, now)) + SettledIn(TimeOuts(s, pending, now)) == TicketsOf(pending)
  {
    if pending != [] {
      NotDueTickets(s, pending[1..], now);
      var head := pending[0];
      assert ([head] + NotDue(s, pending[1..], now))[1..] == NotDue(s, pending[1..], now);
      assert ([TimeOut(head)] + TimeOuts(s, pending[1..], now))[1..] == TimeOuts(s, pending[1..], now);
    }
  }

  lemma {:induction false} EditsKeepTickets(pending: seq<Request>, ms: int, id: string)
    ensures TicketsOf(Extended(pending, ms)) == TicketsOf(pending)
    ensures TicketsOf(Marked(pending, id)) == TicketsOf(pending)
  {
    if pending != [] { EditsKeepTickets(pending[1..], ms, id); }
  }

  lemma ResolveTickets(s: State, id: string, result: Result)
    ensures var o := ResolveStep(s, id, result);
            TicketsOf(o.state.pending) + SettledIn(o.outputs) == TicketsOf(s.pending)
  {
    WithoutTickets(s.pending, id);
  }

  lemma {:induction false} CancelAllTickets(s: State, ids: seq<string>, reason: string)
    ensures var o := CancelAll(s, ids, reason);
            TicketsOf(o.state.pending) + SettledIn(o.outputs) == TicketsOf(s.pending)
    decreases |ids|
  {
    hide TicketsOf, ResolveStep;
    if ids != [] {
      var before := CancelAll(s, ids[..|ids| - 1], reason);
      var id := ids[|ids| - 1];
      CancelAllTickets(s, ids[..|ids| - 1], reason);
      var r := Find(before.state.pending, id);
      if r.Some? { ResolveTickets(before.state, id, CancelResult(r.value, reason)); }
      SettledConcat(before.outputs, CancelStep(before.state, id, reason).outputs);
    }
  }

  lemma CloseTickets(s: State, now: int)
    ensures CloseStep(s, now).state.pending == s.pending && SettledIn(CloseStep(s, now).outputs) == multiset{}
  {
  }

  /** One operation: what was pending or newly accepted is still pending, settled or displaced. */
  lemma StepConserves(c: Config, s: State, e: Event)
    ensures var o := Step(c, s, e);
            TicketsOf(s.pending) + Opened(s, e) ==
            TicketsOf(o.state.pending) + SettledIn(o.outputs) + Displaced(s, e)
  {
    hide TicketsOf, ResolveStep, CancelAll, CancelStep, NotDue, TimeOuts, AskStep, CloseStep, Extended, Marked;
    EmptyOutputs();
    match e
    case Ask(_, _, _, _, _, _, _) => AskTickets(c, s, e);
    case CloseWindow(now) => CloseTickets(s, now);
    case Expire(now) => NotDueTickets(s, s.pending, now);
    case Resolve(id, result) => ResolveTickets(s, id, result);
    case Cancel(id, reason) => CancelTickets(s, id, reason);
    case CancelRun(runId, reason) => CancelAllTickets(s, IdsOfRun(s.pending, runId), reason);
    case Extend(ms) => EditsKeepTickets(s.pending, ms, "");
    case MarkInline(id) => EditsKeepTickets(s.pending, 0, id);
    case _ =>
  }

  lemma AskTickets(c: Config, s: State, e: Event)
    requires e.Ask?
    ensures var o := AskStep(c, s, e);
            TicketsOf(s.pending) + Opened(s, e) ==
            TicketsOf(o.state.pending) + SettledIn(o.outputs) + Displaced(s, e)
  {
    hide TicketsOf;
    EmptyOutputs();
    if IsAccepted(e) { PutTickets(s.pending, NewRequest(c, s, e)); }
  }

  lemma EmptyOutputs()
    ensures SettledIn([]) == multiset{}
  {
  }

  lemma CancelTickets(s: State, id: string, reason: string)
    ensures var o := CancelStep(s, id, reason);
            TicketsOf(o.state.pending) + SettledIn(o.outputs) == TicketsOf(s.pending)
  {
    hide ResolveStep;
    var r := Find(s.pending, id);
    if r.Some? { ResolveTickets(s, id, CancelResult(r.value, reason)); }
  }

  // ----- Runs -----

  /** The broker after a run of operations. */
  function After(c: Config, run: seq<Event>): State {
    if run == [] then INITIAL else Step(c, After(c, run[..|run| - 1]), run[|run| - 1]).state
  }

  /** The state an operation of the run finds. */
  function Before(c: Config, run: seq<Event>, j: nat): State
    requires j <= |run|
  {
    After(c, run[..j])
  }

  function Settlements(c: Config, run: seq<Event>): multiset<nat> {
    if run == [] then multiset{}
    else
      Settlements(c, run[..|run| - 1]) + SettledIn(Step(c, After(c, run[..|run| - 1]), run[|run| - 1]).outputs)
  }

  function Displacements(c: Config, run: seq<Event>): multiset<nat> {
    if run == [] then multiset{}
    else Displacements(c, run[..|run| - 1]) + Displaced(After(c, run[..|run| - 1]), run[|run| - 1])
  }

  function AcceptedAsks(run: seq<Event>): multiset<nat> {
    if run == [] then multiset{}
    else
      AcceptedAsks(run[..|run| - 1]) +
      if IsAccepted(run[|run| - 1]) then multiset{(|run| - 1) as nat} else multiset{}
  }

  lemma {:induction false} StepsCount(c: Config, run: seq<Event>)
    ensures After(c, run).steps == |run|
  {
    if run != [] { StepsCount(c, run[..|run| - 1]); StepAdvances(c, After(c, run[..|run| - 1]), run[|run| - 1]); }
  }

  lemma StepAdvances(c: Config, s: State, e: Event)
    ensures Step(c, s, e).state.steps == s.steps + 1
  {
    if e.CancelRun? { CancelAllFrame(s, IdsOfRun(s.pending, e.runId), e.reason); }
  }

  lemma {:induction false} CancelAllFrame(s: State, ids: seq<string>, reason: string)
    ensures CancelAll(s, ids, reason).state == s.(pending := CancelAll(s, ids, reason).state.pending)
    decreases |ids|
  {
    if ids != [] { CancelAllFrame(s, ids[..|ids| - 1], reason); }
  }

  lemma {:induction false} AcceptedOnce(run: seq<Event>, k: nat)
    ensures AcceptedAsks(run)[k] == if k < |run| && IsAccepted(run[k]) then 1 else 0
  {
    if run != [] {
      var shorter := run[..|run| - 1];
      AcceptedOnce(shorter, k);
      assert k < |shorter| ==> shorter[k] == run[k];
    }
  }

  lemma {:induction false} RunConserves(c: Config, run: seq<Event>)
    ensures AcceptedAsks(run) == TicketsOf(After(c, run).pending) + Settlements(c, run) + Displacements(c, run)
  {
    hide Step, TicketsOf, SettledIn, Displaced, IsAccepted;
    if run == [] {
      NothingPending();
    } else {
      var shorter := run[..|run| - 1];
      RunConserves(c, shorter);
      var s, e := After(c, shorter), run[|run| - 1];
      StepConserves(c, s, e);
      StepsCount(c, shorter);
      Telescope(AcceptedAsks(shorter), TicketsOf(s.pending), Settlements(c, shorter), Displacements(c, shorter),
                Opened(s, e), TicketsOf(Step(c, s, e).state.pending), SettledIn(Step(c, s, e).outputs), Displaced(s, e));
    }
  }

  lemma Telescope(accepted: multiset<nat>, pending: multiset<nat>, settled: multiset<nat>, displaced: multiset<nat>,
                  added: multiset<nat>, pending': multiset<nat>, settling: multiset<nat>, displacing: multiset<nat>)
    requires accepted == pending + settled + displaced
    requires pending + added == pending' + settling + displacing
    ensures accepted + added == pending' + (settled + settling) + (displaced + displacing)
  {
    assert accepted + added == (pending + added) + settled + displaced;
  }

  lemma NothingPending()
    ensures TicketsOf(INITIAL.pending) == multiset{} && TicketsOf([]) == multiset{}
  {
  }

  /** In every run, each accepted ask is at every moment exactly one of three: pending, settled once, or
      displaced once by a later ask that reused its id while it was pending. Nothing else is ever settled. */
  lemma SettledAtMostOnce(c: Config, run: seq<Event>, k: nat)
    ensures TicketsOf(After(c, run).pending)[k] + Settlements(c, run)[k] + Displacements(c, run)[k] ==
            if k < |run| && IsAccepted(run[k]) then 1 else 0
  {
    hide After, TicketsOf, Settlements, Displacements, IsAccepted;
    RunConserves(c, run);
    AcceptedOnce(run, k);
  }

  // ----- Where pending requests come from -----

  function Evolve(e: Event, r: Request): Request {
    if e.Extend? then ExtendOne(r, e.ms) else if e.MarkInline? then MarkOne(r, e.id) else r
  }

  ghost predicate ComesFrom(c: Config, s: State, e: Event, r: Request) {
    (IsAccepted(e) && r == NewRequest(c, s, e)) || exists q :: q in s.pending && r == Evolve(e, q)
  }

  lemma {:induction false} EntriesOfPut(pending: seq<Request>, r: Request)
    ensures forall x :: x in Put(pending, r) ==> x == r || x in pending
  {
    if pending != [] && pending[0].id != r.id { EntriesOfPut(pending[1..], r); }
  }

  lemma {:induction false} EntriesOfWithout(pending: seq<Request>, id: string)
    ensures forall x :: x in Without(pending, id) ==> x in pending
  {
    if pending != [] && pending[0].id != id { EntriesOfWithout(pending[1..], id); }
  }

  lemma {:induction false} EntriesOfNotDue(s: State, pending: seq<Request>, now: int)
    ensures forall x :: x in NotDue(s, pending, now) <==> x in pending && !IsDue(s, x, now)
  {
    if pending != [] { EntriesOfNotDue(s, pending[1..], now); }
  }

  lemma {:induction false} EntriesOfEdits(pending: seq<Request>, ms: int, id: string)
    ensures forall x :: x in Extended(pending, ms) ==> exists q :: q in pending && x == ExtendOne(q, ms)
    ensures forall x :: x in Marked(pending, id) ==> exists q :: q in pending && x == MarkOne(q, id)
  {
    if pending != [] {
      EntriesOfEdits(pending[1..], ms, id);
      assert pending[0] in pending;
    }
  }

  lemma {:induction false} EntriesOfCancelAll(s: State, ids: seq<string>, reason: string)
    ensures forall x :: x in CancelAll(s, ids, reason).state.pending ==> x in s.pending
    decreases |ids|
  {
    if ids != [] {
      EntriesOfCancelAll(s, ids[..|ids| - 1], reason);
      EntriesOfWithout(CancelAll(s, ids[..|ids| - 1], reason).state.pending, ids[|ids| - 1]);
    }
  }

  lemma StepEntries(c: Config, s: State, e: Event, r: Request)
    requires r in Step(c, s, e).state.pending
    ensures ComesFrom(c, s, e, r)
  {
    hide Put, Without, CancelAll, NotDue, Extended, Marked, Find, NewRequest, ExtendOne, MarkOne;
    match e
    case Ask(_, _, _, _, _, _, _) => EntriesOfPut(s.pending, NewRequest(c, s, e));
    case Expire(now) => EntriesOfNotDue(s, s.pending, now);
    case Resolve(id, result) => EntriesOfWithout(s.pending, id);
    case Cancel(id, reason) => EntriesOfWithout(s.pending, id);
    case CancelRun(runId, reason) => EntriesOfCancelAll(s, IdsOfRun(s.pending, runId), reason);
    case Extend(ms) => EntriesOfEdits(s.pending, ms, "");
    case MarkInline(id) => EntriesOfEdits(s.pending, 0, id);
    case _ =>
  }

  /** All the time added to deadlines by the operations from number `from` on. */
  function ExtensionsSince(run: seq<Event>, from: nat): int {
    if |run| <= from then 0
    else
      var last := run[|run| - 1];
      ExtensionsSince(run[..|run| - 1], from) + if last.Extend? then last.ms else 0
  }

  function IdAt(c: Config, run: seq<Event>, k: nat): string
    requires k < |run| && run[k].Ask?
  {
    AskId(Before(c, run, k), run[k])
  }

  /** The request of the ask with number k, as it stands at the end of the run. */
  function Deadline(c: Config, run: seq<Event>, k: nat): Option<int>
    requires k < |run| && run[k].Ask?
  {
    if run[k].kind == Supervisor && run[k].expectsReply
    then Some(run[k].now + c.supervisorTimeoutMs + ExtensionsSince(run, k + 1)) else None
  }

  ghost predicate Origin(c: Config, run: seq<Event>, r: Request) {
    r.ticket < |run| && IsAccepted(run[r.ticket]) &&
    var e := run[r.ticket];
    r.id == IdAt(c, run, r.ticket) && r.runId == e.runId && r.kind == e.kind && r.dflt == e.dflt &&
    r.expectsReply == e.expectsReply && r.createdAt == e.now && r.expiresAt == Deadline(c, run, r.ticket)
  }

  lemma EarlierIsKept(c: Config, run: seq<Event>, k: nat)
    requires k < |run|
    ensures run[..|run| - 1][..k] == run[..k]
    ensures k < |run| - 1 && run[k].Ask? ==> IdAt(c, run[..|run| - 1], k) == IdAt(c, run, k)
  {
  }

  lemma OriginAdvances(c: Config, run: seq<Event>, q: Request)
    requires run != [] && Origin(c, run[..|run| - 1], q)
    ensures Origin(c, run, Evolve(run[|run| - 1], q))
  {
    hide IdAt, IsAccepted;
    EarlierIsKept(c, run, q.ticket);
    assert run[..|run| - 1][q.ticket] == run[q.ticket];
    AcceptedIsAsk(run[q.ticket]);
  }

  lemma AcceptedIsAsk(e: Event)
    ensures IsAccepted(e) ==> e.Ask?
  {
  }

  lemma OriginStarts(c: Config, run: seq<Event>)
    requires run != [] && IsAccepted(run[|run| - 1])
    ensures Origin(c, run, NewRequest(c, After(c, run[..|run| - 1]), run[|run| - 1]))
  {
    hide After;
    StepsCount(c, run[..|run| - 1]);
  }

  /** Every pending request is the one its ask made, with every extension since then on its deadline. */
  lemma {:induction false} PendingOrigin(c: Config, run: seq<Event>, r: Request)
    requires r in After(c, run).pending
    ensures Origin(c, run, r)
  {
    hide Step, Origin, Evolve, NewRequest;
    if run != [] {
      var shorter, last := run[..|run| - 1], run[|run| - 1];
      StepEntries(c, After(c, shorter), last, r);
      if IsAccepted(last) && r == NewRequest(c, After(c, shorter), last) {
        OriginStarts(c, run);
      } else {
        var q :| q in After(c, shorter).pending && r == Evolve(last, q);
        PendingOrigin(c, shorter, q);
        OriginAdvances(c, run, q);
      }
    }
  }

  // ----- Time-outs -----

  function BusyAfter(run: seq<Event>): bool {
    if run == [] then false
    else if run[|run| - 1].SetBusy? then run[|run| - 1].busy
    else BusyAfter(run[..|run| - 1])
  }

  function HeldAfter(run: seq<Event>, runId: string): bool {
    if run == [] then false
    else
      var last := run[|run| - 1];
      if last.Hold? && last.runId == runId then last.hold else HeldAfter(run[..|run| - 1], runId)
  }

  lemma {:induction false} FlagsFollow(c: Config, run: seq<Event>, runId: string)
    ensures After(c, run).busy == BusyAfter(run)
    ensures runId in After(c, run).held <==> HeldAfter(run, runId)
  {
    if run != [] {
      FlagsFollow(c, run[..|run| - 1], runId);
      StepFlags(c, After(c, run[..|run| - 1]), run[|run| - 1], runId);
    }
  }

  lemma StepFlags(c: Config, s: State, e: Event, runId: string)
    ensures var t := Step(c, s, e).state;
            t.busy == (if e.SetBusy? then e.busy else s.busy) &&
            (runId in t.held <==> if e.Hold? && e.runId == runId then e.hold else runId in s.held)
  {
    if e.CancelRun? { CancelAllFrame(s, IdsOfRun(s.pending, e.runId), e.reason); }
  }

  lemma {:induction false} TicketOfEntry(pending: seq<Request>, k: nat)
    ensures k in TicketsOf(pending) <==> exists r :: r in pending && r.ticket == k
  {
    if pending != [] { TicketOfEntry(pending[1..], k); assert pending[0] in pending; }
  }

  lemma {:induction false} TimeOutsAre(s: State, pending: seq<Request>, now: int, k: nat)
    ensures k in SettledIn(TimeOuts(s, pending, now)) <==> exists r :: r in pending && r.ticket == k && IsDue(s, r, now)
  {
    if pending != [] {
      TimeOutsAre(s, pending[1..], now, k);
      assert ([TimeOut(pending[0])] + TimeOuts(s, pending[1..], now))[1..] == TimeOuts(s, pending[1..], now);
      assert pending[0] in pending;
    }
  }

  /** Ask number k may time out at the end of a run: a supervisor request that expects a reply, neither
      held nor paused, past its ask time plus the timeout plus every extension since it was asked. */
  predicate MayTimeOut(c: Config, run: seq<Event>, k: nat, now: int) {
    k < |run| && IsAccepted(run[k]) && run[k].kind == Supervisor && run[k].expectsReply &&
    !BusyAfter(run) && !HeldAfter(run, run[k].runId) &&
    now >= run[k].now + c.supervisorTimeoutMs + ExtensionsSince(run, k + 1)
  }

  lemma DueIff(c: Config, run: seq<Event>, r: Request, now: int)
    requires r in After(c, run).pending
    ensures IsDue(After(c, run), r, now) <==> MayTimeOut(c, run, r.ticket, now)
  {
    hide After, IdAt;
    PendingOrigin(c, run, r);
    FlagsFollow(c, run, r.runId);
    AcceptedIsAsk(run[r.ticket]);
  }

  /** A tick settles ask number k exactly when the ask is pending and may time out: human requests never do. */
  lemma TimesOutIff(c: Config, run: seq<Event>, now: int, k: nat)
    ensures k in SettledIn(Step(c, After(c, run), Expire(now)).outputs) <==>
            k in TicketsOf(After(c, run).pending) && MayTimeOut(c, run, k, now)
  {
    hide After, MayTimeOut, TicketsOf, TimeOuts, IsDue;
    var s := After(c, run);
    TimeOutsAre(s, s.pending, now, k);
    TicketOfEntry(s.pending, k);
    forall r | r in s.pending ensures IsDue(s, r, now) <==> MayTimeOut(c, run, r.ticket, now) {
      DueIff(c, run, r, now);
    }
  }

  // ----- Ids -----

  predicate DistinctIds(pending: seq<Request>) {
    forall i, j :: 0 <= i < j < |pending| ==> pending[i].id != pending[j].id
  }

  predicate HasFreshIds(c: Config, run: seq<Event>) {
    forall i, j | 0 <= i < j < |run| && IsAccepted(run[i]) && IsAccepted(run[j]) :: IdAt(c, run, i) != IdAt(c, run, j)
  }

  lemma {:induction false} FindFinds(pending: seq<Request>, id: string)
    ensures var r := Find(pending, id);
            (r.Some? <==> IdPending(pending, id)) && (r.Some? ==> r.value in pending && r.value.id == id)
  {
    if pending != [] { FindFinds(pending[1..], id); assert pending[0] in pending; }
  }

  /** An accepted ask whose id is still pending: what hasPending tells its caller beforehand. */
  predicate ReusesPending(c: Config, run: seq<Event>, j: nat)
    requires j < |run|
  {
    IsAccepted(run[j]) && IdPending(Before(c, run, j).pending, AskId(Before(c, run, j), run[j]))
  }

  /** No promise is displaced in a run if and only if no accepted ask takes an id that is pending. */
  lemma {:induction false} NeverDisplacedIff(c: Config, run: seq<Event>)
    ensures Displacements(c, run) == multiset{} <==> forall j | 0 <= j < |run| :: !ReusesPending(c, run, j)
  {
    hide After, IsAccepted, AskId;
    if run != [] {
      var k := |run| - 1;
      var shorter, e := run[..k], run[k];
      NeverDisplacedIff(c, shorter);
      DisplacingIff(After(c, shorter), e);
      forall j | 0 <= j < k ensures ReusesPending(c, shorter, j) == ReusesPending(c, run, j) {
        assert shorter[..j] == run[..j];
      }
      assert ReusesPending(c, run, k) <==> Displaced(After(c, shorter), e) != multiset{};
      EmptySum(Displacements(c, shorter), Displaced(After(c, shorter), e));
    }
  }

  lemma DisplacingIff(s: State, e: Event)
    ensures Displaced(s, e) != multiset{} <==> IsAccepted(e) && IdPending(s.pending, AskId(s, e))
  {
    if IsAccepted(e) {
      FindFinds(s.pending, AskId(s, e));
      var r := Find(s.pending, AskId(s, e));
      if r.Some? { assert r.value.ticket in Displaced(s, e); }
    }
  }

  lemma EmptySum(a: multiset<nat>, b: multiset<nat>)
    ensures a + b == multiset{} <==> a == multiset{} && b == multiset{}
  {
    if k :| k in a { assert k in a + b; }
    if k :| k in b { assert k in a + b; }
  }

  /** Two asks under one id, and one answer: the first asker's promise is lost, the second is settled. */
  lemma ReuseLosesPromise(c: Config, now: int, runId: string, id: string, result: Result)
    ensures var ask := Ask(now, Some(id), runId, Supervisor, None, true, None);
            var run := [ask, ask, Resolve(id, result)];
            IsAccepted(run[0]) && IsAccepted(run[1]) && After(c, run).pending == [] &&
            Settlements(c, run) == multiset{1} && Displacements(c, run) == multiset{0}
  {
    var ask := Ask(now, Some(id), runId, Supervisor, None, true, None);
    assert [] + [ask] == [ask] && [ask] + [ask] == [ask, ask];
    assert [ask, ask] + [Resolve(id, result)] == [ask, ask, Resolve(id, result)];
    OneMore(c, [], ask);
    OneMore(c, [ask], ask);
    OneMore(c, [ask, ask], Resolve(id, result));
    FirstAsk(c, INITIAL, ask);
    SecondAsk(c, Step(c, INITIAL, ask).state, ask);
    var s := Step(c, Step(c, INITIAL, ask).state, ask).state;
    var o := Step(c, s, Resolve(id, result));
    assert o.outputs == [Settled(1, id, result, true)] && o.outputs[1..] == [];
  }

  lemma OneMore(c: Config, run: seq<Event>, e: Event)
    ensures var s, o := After(c, run), Step(c, After(c, run), e);
            After(c, run + [e]) == o.state && After(c, []) == INITIAL &&
            Settlements(c, run + [e]) == Settlements(c, run) + SettledIn(o.outputs) &&
            Displacements(c, run + [e]) == Displacements(c, run) + Displaced(s, e) &&
            Settlements(c, []) == multiset{} && Displacements(c, []) == multiset{}
  {
    assert (run + [e])[..|run|] == run;
  }

  lemma FirstAsk(c: Config, s: State, e: Event)
    requires IsAccepted(e) && s.pending == []
    ensures var o := Step(c, s, e);
            o.state.pending == [NewRequest(c, s, e)] && o.state.steps == s.steps + 1 &&
            SettledIn(o.outputs) == multiset{} && Displaced(s, e) == multiset{}
  {
  }

  lemma SecondAsk(c: Config, s: State, e: Event)
    requires IsAccepted(e) && |s.pending| == 1 && s.pending[0].id == AskId(s, e)
    ensures var o := Step(c, s, e);
            o.state.pending == [NewRequest(c, s, e)] && o.state.steps == s.steps + 1 &&
            SettledIn(o.outputs) == multiset{} && Displaced(s, e) == multiset{s.pending[0].ticket}
  {
    assert s.pending[1..] == [];
  }

  /** With fresh ids no ask is ever displaced: each is pending until it is settled, once. */
  lemma FreshIsNeverDisplaced(c: Config, run: seq<Event>)
    requires HasFreshIds(c, run)
    ensures Displacements(c, run) == multiset{}
  {
    hide After, IsAccepted, AskId, IdAt, HasFreshIds;
    NeverDisplacedIff(c, run);
    forall j | 0 <= j < |run| ensures !ReusesPending(c, run, j) {
      if ReusesPending(c, run, j) {
        AcceptedIsAsk(run[j]);
        var r :| r in After(c, run[..j]).pending && r.id == AskId(Before(c, run, j), run[j]);
        PendingOrigin(c, run[..j], r);
        SameIdClashes(c, run, r.ticket, j);
      }
    }
  }

  lemma SameIdClashes(c: Config, run: seq<Event>, k: nat, j: nat)
    requires HasFreshIds(c, run) && k < j < |run| && IsAccepted(run[k]) && IsAccepted(run[j])
    ensures IdAt(c, run[..j], k) != AskId(Before(c, run, j), run[j])
  {
    assert run[..j][..k] == run[..k];
    assert IdAt(c, run, k) != IdAt(c, run, j);
  }

  lemma {:induction false} DecimalInjective(m: nat, n: nat)
    requires Decimal(m) == Decimal(n)
    ensures m == n
  {
    DigitOf(m);
    DigitOf(n);
    if m >= 10 && n >= 10 {
      assert Decimal(m)[..|Decimal(m)| - 1] == Decimal(m / 10);
      assert Decimal(n)[..|Decimal(n)| - 1] == Decimal(n / 10);
      DecimalInjective(m / 10, n / 10);
    }
  }

  lemma DigitOf(n: nat)
    ensures var d := Decimal(n);
            |d| >= 1 && d[|d| - 1] == ('0' as int + n % 10) as char && (|d| == 1 <==> n < 10)
  {
    if n >= 10 { DigitOf(n / 10); }
  }

  lemma {:induction false} NextIdGrows(c: Config, run: seq<Event>, k: nat)
    requires k <= |run|
    ensures Before(c, run, k).nextId <= After(c, run).nextId
  {
    if k == |run| {
      assert run[..k] == run;
    } else {
      NextIdGrows(c, run[..|run| - 1], k);
      assert run[..|run| - 1][..k] == run[..k];
      StepNextId(c, After(c, run[..|run| - 1]), run[|run| - 1]);
    }
  }

  lemma StepNextId(c: Config, s: State, e: Event)
    ensures Step(c, s, e).state.nextId == s.nextId + if e.Ask? && e.given.None? then 1 else 0
  {
    if e.CancelRun? { CancelAllFrame(s, IdsOfRun(s.pending, e.runId), e.reason); }
  }

  /** An id that the broker's own numbering could produce. */
  predicate LooksNumbered(id: string) { "req-" <= id }

  /** The ids that callers give differ from each other and from anything the broker numbers. */
  predicate GivenApart(run: seq<Event>) {
    (forall i | 0 <= i < |run| && IsAccepted(run[i]) && run[i].given.Some? :: !LooksNumbered(run[i].given.value)) &&
    forall i, j | 0 <= i < j < |run| && IsAccepted(run[i]) && IsAccepted(run[j]) &&
                  run[i].given.Some? && run[j].given.Some? :: run[i].given != run[j].given
  }

  /** Ids the broker numbers itself are fresh, also beside given ids that are set apart. */
  lemma NumberedIdsAreFresh(c: Config, run: seq<Event>)
    requires GivenApart(run)
    ensures HasFreshIds(c, run)
  {
    hide After;
    forall i, j | 0 <= i < j < |run| && IsAccepted(run[i]) && IsAccepted(run[j])
      ensures IdAt(c, run, i) != IdAt(c, run, j)
    {
      if run[i].given.None? && run[j].given.None? { NumberedIdsDiffer(c, run, i, j); }
      NumberedLooksNumbered(Before(c, run, i).nextId + 1);
      NumberedLooksNumbered(Before(c, run, j).nextId + 1);
    }
  }

  lemma NumberedLooksNumbered(n: nat)
    ensures LooksNumbered(NumberedId(n))
  {
  }

  /** Given ids may be used again once they are answered: nothing is displaced as long as every given id does
      not look numbered and is not pending when it is asked. */
  lemma MixedIdsDisplaceNothing(c: Config, run: seq<Event>)
    requires forall j | 0 <= j < |run| && IsAccepted(run[j]) && run[j].given.Some? ::
               !LooksNumbered(run[j].given.value) && !IdPending(Before(c, run, j).pending, run[j].given.value)
    ensures Displacements(c, run) == multiset{}
  {
    hide After;
    NeverDisplacedIff(c, run);
    forall j | 0 <= j < |run| ensures !ReusesPending(c, run, j) {
      if ReusesPending(c, run, j) && run[j].given.None? {
        var r :| r in After(c, run[..j]).pending && r.id == AskId(Before(c, run, j), run[j]);
        PendingOrigin(c, run[..j], r);
        assert run[..j][r.ticket] == run[r.ticket] && run[..j][..r.ticket] == run[..r.ticket];
        NumberedLooksNumbered(Before(c, run, j).nextId + 1);
        assert r.id == IdAt(c, run, r.ticket);
        if run[r.ticket].given.None? { NumberedIdsDiffer(c, run, r.ticket, j); }
      }
    }
  }

  lemma NumberedIdsDiffer(c: Config, run: seq<Event>, i: nat, j: nat)
    requires i < j < |run| && run[i].Ask? && run[i].given.None? && run[j].Ask? && run[j].given.None?
    ensures IdAt(c, run, i) != IdAt(c, run, j)
  {
    hide Step, Decimal;
    assert run[..j][..i + 1] == run[..i + 1] && run[..i + 1][..i] == run[..i];
    NextIdGrows(c, run[..j], i + 1);
    StepNextId(c, Before(c, run, i), run[i]);
    var m, n := Before(c, run, i).nextId + 1, Before(c, run, j).nextId + 1;
    if NumberedId(m) == NumberedId(n) {
      assert NumberedId(m)[4..] == Decimal(m) && NumberedId(n)[4..] == Decimal(n);
      DecimalInjective(m, n);
    }
  }

  // ----- Batches -----

  function ClosedIn(outputs: seq<Output>): seq<Slot> {
    if outputs == [] then []
    else (if outputs[0].HandedOver? then outputs[0].closed else []) + ClosedIn(outputs[1..])
  }

  /** The members of all batches closed in a run, in order. */
  function Closed(c: Config, run: seq<Event>): seq<Slot> {
    if run == [] then []
    else Closed(c, run[..|run| - 1]) + ClosedIn(Step(c, After(c, run[..|run| - 1]), run[|run| - 1]).outputs)
  }

  function InOpenBatch(s: State): seq<Slot> {
    if s.batch.Some? then s.batch.value else []
  }

  /** The accepted asks from operation `from` on, in order. */
  function AsksFrom(c: Config, run: seq<Event>, from: nat): seq<Slot> {
    if |run| <= from then []
    else
      var k := |run| - 1;
      AsksFrom(c, run[..k], from) + if IsAccepted(run[k]) then [Slot(k, AskId(After(c, run[..k]), run[k]))] else []
  }

  lemma {:induction false} NoBatchIn(s: State, pending: seq<Request>, now: int)
    ensures ClosedIn(TimeOuts(s, pending, now)) == []
  {
    if pending != [] {
      NoBatchIn(s, pending[1..], now);
      assert ([TimeOut(pending[0])] + TimeOuts(s, pending[1..], now))[1..] == TimeOuts(s, pending[1..], now);
    }
  }

  lemma {:induction false} NoBatchInCancel(s: State, ids: seq<string>, reason: string)
    ensures ClosedIn(CancelAll(s, ids, reason).outputs) == []
    decreases |ids|
  {
    if ids != [] {
      NoBatchInCancel(s, ids[..|ids| - 1], reason);
      var before := CancelAll(s, ids[..|ids| - 1], reason);
      ClosedConcat(before.outputs, CancelStep(before.state, ids[|ids| - 1], reason).outputs);
    }
  }

  lemma {:induction false} ClosedConcat(a: seq<Output>, b: seq<Output>)
    ensures ClosedIn(a + b) == ClosedIn(a) + ClosedIn(b)
  {
    if a == [] {
      assert a + b == b;
    } else {
      assert (a + b)[1..] == a[1..] + b;
      ClosedConcat(a[1..], b);
    }
  }

  /** What one operation does to the open batch: only an accepted ask adds to it, only closing the window at
      or after its close time empties it. */
  lemma StepBatch(c: Config, s: State, e: Event)
    ensures var o := Step(c, s, e);
            if IsAccepted(e) then
              ClosedIn(o.outputs) == [] &&
              o.state.batch == Some(InOpenBatch(s) + [Slot(s.steps, AskId(s, e))]) &&
              o.state.closesAt == (if s.batch.None? then e.now + c.coalesceMs else s.closesAt)
            else if e.CloseWindow? && Closes(s, e.now) then
              ClosedIn(o.outputs) == InOpenBatch(s) && o.state.batch == None
            else
              ClosedIn(o.outputs) == [] && o.state.batch == s.batch && o.state.closesAt == s.closesAt
  {
    hide CancelAll, NotDue, TimeOuts, Extended, Marked, StillPending;
    if e.CancelRun? {
      NoBatchInCancel(s, IdsOfRun(s.pending, e.runId), e.reason);
      CancelAllFrame(s, IdsOfRun(s.pending, e.runId), e.reason);
    } else if e.Expire? {
      NoBatchIn(s, s.pending, e.now);
    } else if e.Ask? && s.batch.None? {
      var slot := [Slot(s.steps, AskId(s, e))];
      assert InOpenBatch(s) + slot == slot;
    }
  }

  /** The batches split the accepted asks: each ask is in exactly one batch, in the order of asking. */
  lemma {:induction false} BatchesPartitionAsks(c: Config, run: seq<Event>)
    ensures Closed(c, run) + InOpenBatch(After(c, run)) == AsksFrom(c, run, 0)
  {
    hide Step, ClosedIn, AskId;
    if run != [] {
      var shorter := run[..|run| - 1];
      BatchesPartitionAsks(c, shorter);
      StepBatch(c, After(c, shorter), run[|run| - 1]);
      StepsCount(c, shorter);
    }
  }

  /** The open batch is a window: it opened with ask number `opener`, closes `coalesceMs` after it, holds every
      ask accepted since, and no tick since then came at or after its close time. */
  ghost predicate IsWindow(c: Config, run: seq<Event>, opener: nat) {
    opener < |run| && IsAccepted(run[opener]) &&
    After(c, run).closesAt == run[opener].now + c.coalesceMs &&
    After(c, run).batch == Some(AsksFrom(c, run, opener)) &&
    forall j | opener < j < |run| && run[j].CloseWindow? :: run[j].now < run[opener].now + c.coalesceMs
  }

  lemma {:induction false} OpenBatchIsWindow(c: Config, run: seq<Event>) returns (opener: nat)
    requires After(c, run).batch.Some?
    ensures IsWindow(c, run, opener)
  {
    hide Step, AskId;
    assert run != [];
    var shorter, e := run[..|run| - 1], run[|run| - 1];
    var s := After(c, shorter);
    StepBatch(c, s, e);
    StepsCount(c, shorter);
    if s.batch.Some? {
      opener := OpenBatchIsWindow(c, shorter);
      WindowGrows(c, run, opener);
    } else {
      opener := |run| - 1;
      assert AsksFrom(c, shorter, opener) == [];
    }
  }

  lemma WindowGrows(c: Config, run: seq<Event>, opener: nat)
    requires run != [] && IsWindow(c, run[..|run| - 1], opener) && After(c, run).batch.Some?
    ensures IsWindow(c, run, opener)
  {
    hide Step, AskId;
    var shorter, e := run[..|run| - 1], run[|run| - 1];
    StepBatch(c, After(c, shorter), e);
    StepsCount(c, shorter);
    assert shorter[opener] == run[opener];
    var asks := AsksFrom(c, shorter, opener);
    assert asks + [] == asks;
    forall j | opener < j < |run| && run[j].CloseWindow? ensures run[j].now < run[opener].now + c.coalesceMs {
      if j < |shorter| { assert shorter[j] == run[j]; }
    }
  }

  lemma {:induction false} StillPendingIff(batch: seq<Slot>, pending: seq<Request>, slot: Slot)
    ensures slot in StillPending(batch, pending) <==> slot in batch && IdPending(pending, slot.id)
  {
    if batch != [] { StillPendingIff(batch[1..], pending, slot); }
  }

  /** A later ask stands under this slot's id. */
  ghost predicate TakenOver(pending: seq<Request>, slot: Slot) {
    exists r :: r in pending && r.id == slot.id && r.ticket > slot.ticket
  }

  /** The first tick at or after the close time hands over the whole window, less what is no longer pending.
      A settled ask stays in the batch only if a later ask has reused its id and is pending. */
  lemma HandoverIff(c: Config, run: seq<Event>, now: int, slot: Slot)
    ensures var s := After(c, run);
            var outputs := Step(c, s, CloseWindow(now)).outputs;
            if s.batch.Some? && now >= s.closesAt then
              |outputs| == 1 && outputs[0].HandedOver? && outputs[0].closed == s.batch.value &&
              (slot in outputs[0].batch <==>
               slot in s.batch.value && (slot.ticket in TicketsOf(s.pending) || TakenOver(s.pending, slot)))
            else outputs == []
  {
    hide After, TicketsOf, IdPending, TakenOver;
    var s := After(c, run);
    if Closes(s, now) {
      StillPendingIff(s.batch.value, s.pending, slot);
      if slot in s.batch.value { SlotPendingIff(c, run, slot); }
    }
  }

  lemma {:induction false} AsksFromAre(c: Config, run: seq<Event>, from: nat, slot: Slot)
    requires slot in AsksFrom(c, run, from)
    ensures slot.ticket < |run| && IsAccepted(run[slot.ticket]) && slot.id == IdAt(c, run, slot.ticket)
  {
    hide IsAccepted, AskId;
    var k := |run| - 1;
    AcceptedIsAsk(run[k]);
    if slot in AsksFrom(c, run[..k], from) {
      AsksFromAre(c, run[..k], from, slot);
      EarlierIsKept(c, run, slot.ticket);
      AcceptedIsAsk(run[slot.ticket]);
    }
  }

  lemma SlotPendingIff(c: Config, run: seq<Event>, slot: Slot)
    requires slot in InOpenBatch(After(c, run))
    ensures IdPending(After(c, run).pending, slot.id) <==>
            slot.ticket in TicketsOf(After(c, run).pending) || TakenOver(After(c, run).pending, slot)
  {
    hide After, IsAccepted, IdAt;
    var s := After(c, run);
    BatchesPartitionAsks(c, run);
    AsksFromAre(c, run, 0, slot);
    TicketOfEntry(s.pending, slot.ticket);
    forall r | r in s.pending
      ensures r.ticket == slot.ticket ==> r.id == slot.id
      ensures r.id == slot.id ==> r.ticket >= slot.ticket
    {
      PendingOrigin(c, run, r);
      if r.ticket < slot.ticket { LatestAskOwnsId(c, run, r, slot.ticket); }
    }
  }

  /** What is pending under an id belongs to the last ask that used it. */
  lemma {:induction false} LatestAskOwnsId(c: Config, run: seq<Event>, r: Request, j: nat)
    requires r in After(c, run).pending && r.ticket < j < |run| && IsAccepted(run[j])
    ensures run[j].Ask? && IdAt(c, run, j) != r.id
  {
    hide Step, AskId, IsAccepted, Evolve, Origin;
    var k := |run| - 1;
    var shorter, e := run[..k], run[k];
    var s := After(c, shorter);
    AcceptedIsAsk(run[j]);
    StepEntries(c, s, e, r);
    StepsCount(c, shorter);
    NewRequestTicket(c, s, e);
    var q :| q in s.pending && r == Evolve(e, q);
    EvolveKeepsAsk(e, q);
    if j < k {
      LatestAskOwnsId(c, shorter, q, j);
      EarlierIsKept(c, run, j);
    } else {
      RunKeepsIds(c, run);
      AskedIsPending(c, s, e);
    }
  }

  lemma NewRequestTicket(c: Config, s: State, e: Event)
    ensures e.Ask? ==> NewRequest(c, s, e).ticket == s.steps && NewRequest(c, s, e).id == AskId(s, e)
    ensures IsAccepted(e) ==> e.Ask?
  {
  }

  lemma EvolveKeepsAsk(e: Event, q: Request)
    ensures Evolve(e, q).ticket == q.ticket && Evolve(e, q).id == q.id
  {
  }

  lemma AskedIsPending(c: Config, s: State, e: Event)
    requires IsAccepted(e)
    ensures NewRequest(c, s, e) in Step(c, s, e).state.pending
  {
    PutHolds(s.pending, NewRequest(c, s, e));
  }

  lemma {:induction false} PutHolds(pending: seq<Request>, r: Request)
    ensures r in Put(pending, r)
  {
    if pending != [] && pending[0].id != r.id { PutHolds(pending[1..], r); }
  }

  // ----- Cancelling a run -----

  function NotOfRun(pending: seq<Request>, runId: string): seq<Request> {
    if pending == [] then []
    else (if pending[0].runId == runId then [] else [pending[0]]) + NotOfRun(pending[1..], runId)
  }

  function OfRun(pending: seq<Request>, runId: string): seq<Request> {
    if pending == [] then []
    else (if pending[0].runId == runId then [pending[0]] else []) + OfRun(pending[1..], runId)
  }

  function Keeping(pending: seq<Request>, ids: seq<string>): seq<Request> {
    if pending == [] then []
    else (if pending[0].id in ids then [] else [pending[0]]) + Keeping(pending[1..], ids)
  }

  lemma {:induction false} KeepingOneLess(pending: seq<Request>, ids: seq<string>, id: string)
    requires DistinctIds(pending)
    ensures Without(Keeping(pending, ids), id) == Keeping(pending, ids + [id])
  {
    if pending != [] {
      assert DistinctIds(pending[1..]);
      KeepingOneLess(pending[1..], ids, id);
      var rest := Keeping(pending[1..], ids);
      if pending[0].id in ids {
        assert Keeping(pending, ids) == rest;
      } else {
        assert Keeping(pending, ids) == [pending[0]] + rest && ([pending[0]] + rest)[1..] == rest;
        if pending[0].id == id { KeepingAbsent(pending[1..], ids, id); }
      }
    }
  }

  lemma {:induction false} KeepingAbsent(pending: seq<Request>, ids: seq<string>, id: string)
    requires forall r | r in pending :: r.id != id
    ensures Keeping(pending, ids + [id]) == Keeping(pending, ids)
  {
    if pending != [] { KeepingAbsent(pending[1..], ids, id); }
  }

  lemma {:induction false} KeepingNone(pending: seq<Request>)
    ensures Keeping(pending, []) == pending
  {
    if pending != [] { KeepingNone(pending[1..]); }
  }

  lemma {:induction false} WithoutMissing(pending: seq<Request>, id: string)
    requires Find(pending, id).None?
    ensures Without(pending, id) == pending
  {
    if pending != [] { WithoutMissing(pending[1..], id); }
  }

  lemma {:induction false} CancelAllKeeps(s: State, ids: seq<string>, reason: string)
    requires DistinctIds(s.pending)
    ensures CancelAll(s, ids, reason).state.pending == Keeping(s.pending, ids)
    decreases |ids|
  {
    hide DistinctIds, Keeping, Without, Find;
    if ids == [] {
      KeepingNone(s.pending);
    } else {
      var fewer, id := ids[..|ids| - 1], ids[|ids| - 1];
      CancelAllKeeps(s, fewer, reason);
      KeepingOneLess(s.pending, fewer, id);
      assert fewer + [id] == ids;
      if Find(Keeping(s.pending, fewer), id).None? { WithoutMissing(Keeping(s.pending, fewer), id); }
    }
  }

  lemma {:induction false} IdsOfRunAre(pending: seq<Request>, runId: string, id: string)
    ensures id in IdsOfRun(pending, runId) <==> exists r :: r in pending && r.id == id && r.runId == runId
  {
    if pending != [] { IdsOfRunAre(pending[1..], runId, id); assert pending[0] in pending; }
  }

  lemma {:induction false} KeepingOthers(pending: seq<Request>, ids: seq<string>, runId: string)
    requires forall r | r in pending :: r.id in ids <==> r.runId == runId
    ensures Keeping(pending, ids) == NotOfRun(pending, runId)
  {
    if pending != [] { KeepingOthers(pending[1..], ids, runId); }
  }

  lemma {:induction false} RunSplitsTickets(pending: seq<Request>, runId: string)
    ensures TicketsOf(NotOfRun(pending, runId)) + TicketsOf(OfRun(pending, runId)) == TicketsOf(pending)
  {
    hide TicketsOf;
    NothingPending();
    if pending != [] {
      var rest := pending[1..];
      RunSplitsTickets(rest, runId);
      TicketsCons(pending[0], NotOfRun(rest, runId));
      TicketsCons(pending[0], OfRun(rest, runId));
      TicketsCons(pending[0], rest);
      assert pending == [pending[0]] + rest;
      assert [] + NotOfRun(rest, runId) == NotOfRun(rest, runId) && [] + OfRun(rest, runId) == OfRun(rest, runId);
      SplitHead(multiset{pending[0].ticket}, TicketsOf(NotOfRun(rest, runId)), TicketsOf(OfRun(rest, runId)));
    }
  }

  lemma TicketsCons(r: Request, rest: seq<Request>)
    ensures TicketsOf([r] + rest) == multiset{r.ticket} + TicketsOf(rest)
  {
    assert ([r] + rest)[1..] == rest;
  }

  lemma SplitHead(h: multiset<nat>, a: multiset<nat>, b: multiset<nat>)
    ensures (h + a) + b == h + (a + b) && a + (h + b) == h + (a + b)
  {
  }

  /** cancelRun leaves every request of another run as it is, and settles exactly those of this run. */
  lemma CancelRunFrame(c: Config, s: State, runId: string, reason: string)
    requires DistinctIds(s.pending)
    ensures var o := Step(c, s, CancelRun(runId, reason));
            o.state == s.(pending := NotOfRun(s.pending, runId), steps := s.steps + 1) &&
            SettledIn(o.outputs) == TicketsOf(OfRun(s.pending, runId))
  {
    hide TicketsOf, SettledIn, Keeping;
    var ids := IdsOfRun(s.pending, runId);
    CancelAllFrame(s, ids, reason);
    CancelAllKeeps(s, ids, reason);
    CancelAllTickets(s, ids, reason);
    forall r | r in s.pending ensures r.id in ids <==> r.runId == runId {
      IdsOfRunAre(s.pending, runId, r.id);
      forall q | q in s.pending && q.id == r.id ensures q == r {}
    }
    KeepingOthers(s.pending, ids, runId);
    RunSplitsTickets(s.pending, runId);
    SameRest(TicketsOf(NotOfRun(s.pending, runId)), SettledIn(CancelAll(s, ids, reason).outputs),
             TicketsOf(OfRun(s.pending, runId)));
  }

  lemma SameRest(a: multiset<nat>, b: multiset<nat>, c: multiset<nat>)
    requires a + b == a + c
    ensures b == c
  {
    forall k ensures b[k] == c[k] { assert (a + b)[k] == (a + c)[k]; }
  }

  // ----- The pending map keeps distinct ids -----

  lemma {:induction false} IdsOfPut(pending: seq<Request>, r: Request)
    requires DistinctIds(pending)
    ensures DistinctIds(Put(pending, r))
  {
    if pending != [] && pending[0].id != r.id {
      assert DistinctIds(pending[1..]);
      IdsOfPut(pending[1..], r);
      EntriesOfPut(pending[1..], r);
      DistinctCons(pending[0], Put(pending[1..], r));
    } else if pending != [] {
      assert DistinctIds(pending[1..]);
      DistinctCons(r, pending[1..]);
    }
  }

  lemma DistinctCons(head: Request, rest: seq<Request>)
    requires DistinctIds(rest) && forall r | r in rest :: r.id != head.id
    ensures DistinctIds([head] + rest)
  {
  }

  lemma {:induction false} IdsOfWithout(pending: seq<Request>, id: string)
    requires DistinctIds(pending)
    ensures DistinctIds(Without(pending, id))
  {
    if pending != [] {
      assert DistinctIds(pending[1..]);
      if pending[0].id != id {
        IdsOfWithout(pending[1..], id);
        EntriesOfWithout(pending[1..], id);
        DistinctCons(pending[0], Without(pending[1..], id));
      }
    }
  }

  lemma {:induction false} IdsOfNotDue(s: State, pending: seq<Request>, now: int)
    requires DistinctIds(pending)
    ensures DistinctIds(NotDue(s, pending, now))
  {
    if pending != [] {
      assert DistinctIds(pending[1..]);
      IdsOfNotDue(s, pending[1..], now);
      EntriesOfNotDue(s, pending[1..], now);
      DistinctCons(pending[0], NotDue(s, pending[1..], now));
    }
  }

  lemma {:induction false} IdsOfEdits(pending: seq<Request>, ms: int, id: string)
    requires DistinctIds(pending)
    ensures DistinctIds(Extended(pending, ms)) && DistinctIds(Marked(pending, id))
  {
    if pending != [] {
      assert DistinctIds(pending[1..]);
      IdsOfEdits(pending[1..], ms, id);
      EntriesOfEdits(pending[1..], ms, id);
      DistinctCons(ExtendOne(pending[0], ms), Extended(pending[1..], ms));
      DistinctCons(MarkOne(pending[0], id), Marked(pending[1..], id));
    }
  }

  lemma {:induction false} IdsOfCancelAll(s: State, ids: seq<string>, reason: string)
    requires DistinctIds(s.pending)
    ensures DistinctIds(CancelAll(s, ids, reason).state.pending)
    decreases |ids|
  {
    if ids != [] {
      IdsOfCancelAll(s, ids[..|ids| - 1], reason);
      IdsOfWithout(CancelAll(s, ids[..|ids| - 1], reason).state.pending, ids[|ids| - 1]);
    }
  }

  lemma StepKeepsIds(c: Config, s: State, e: Event)
    requires DistinctIds(s.pending)
    ensures DistinctIds(Step(c, s, e).state.pending)
  {
    hide DistinctIds, Put, Without, CancelAll, NotDue, Extended, Marked, Find;
    match e
    case Ask(_, _, _, _, _, _, _) => IdsOfPut(s.pending, NewRequest(c, s, e));
    case Expire(now) => IdsOfNotDue(s, s.pending, now);
    case Resolve(id, result) => IdsOfWithout(s.pending, id);
    case Cancel(id, reason) => IdsOfWithout(s.pending, id);
    case CancelRun(runId, reason) => IdsOfCancelAll(s, IdsOfRun(s.pending, runId), reason);
    case Extend(ms) => IdsOfEdits(s.pending, ms, "");
    case MarkInline(id) => IdsOfEdits(s.pending, 0, id);
    case _ =>
  }

  lemma {:induction false} RunKeepsIds(c: Config, run: seq<Event>)
    ensures DistinctIds(After(c, run).pending)
  {
    if run != [] {
      RunKeepsIds(c, run[..|run| - 1]);
      StepKeepsIds(c, After(c, run[..|run| - 1]), run[|run| - 1]);
    }
  }
}
