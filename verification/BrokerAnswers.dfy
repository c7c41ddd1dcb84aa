/** Which answer each asker gets from the broker, in every run. */
module BrokerAnswers {
  import opened Values
  import opened Broker

  /** What the operation with number j of a run puts out. */
  function OutputsAt(c: Config, run: seq<Event>, j: nat): seq<Output>
    requires j < |run|
  {
    Step(c, Before(c, run, j), run[j]).outputs
  }

  /** The answer that an ask gets when it is cancelled: a human request has its default, if it gave one. */
  function AnswerToCancelled(ask: Event, reason: string): Result
    requires ask.Ask?
  {
    if ask.kind == Human && ask.dflt.Some? then Result(FromDefault, ask.dflt, Some(reason))
    else Result(WasCancelled, None, Some(reason))
  }

  /** The answer that operation j gives to the earlier, accepted ask k. */
  ghost predicate Answers(c: Config, run: seq<Event>, j: nat, k: nat, id: string, result: Result, aborted: bool)
    requires j < |run|
  {
    && k < j && IsAccepted(run[k]) && id == IdAt(c, run, k)
    && match run[j]
       case Resolve(to, answer) => id == to && result == answer && aborted
       case Cancel(of, reason) => id == of && result == AnswerToCancelled(run[k], reason) && aborted
       case CancelRun(runId, reason) =>
         run[k].runId == runId && result == AnswerToCancelled(run[k], reason) && aborted
       case Expire(_) =>
         run[k].kind == Supervisor && run[k].expectsReply &&
         result == Result(TimedOut, run[k].dflt, Some(TIMEOUT_REASON)) && !aborted
       case _ => false
  }

  /** What can come out of an operation: an answer to an earlier ask, the refusal of this very ask, or a batch. */
  ghost predicate Explained(c: Config, run: seq<Event>, j: nat, o: Output)
    requires j < |run|
  {
    match o
    case Settled(k, id, result, aborted) => Answers(c, run, j, k, id, result, aborted)
    case Refused(k, id, reason) =>
      k == j && run[j].Ask? && run[j].kind == Human && id == IdAt(c, run, j) && run[j].tooLong == Some(reason)
    case HandedOver(_, _) => run[j].CloseWindow?
  }

  // ----- The outputs in terms of pending requests -----

  lemma {:induction false} CancelOutputs(s: State, ids: seq<string>, reason: string, o: Output)
    requires o in CancelAll(s, ids, reason).outputs
    ensures exists r :: r in s.pending && r.id in ids && o == Settled(r.ticket, r.id, CancelResult(r, reason), true)
    decreases |ids|
  {
    hide CancelResult;
    var fewer, id := ids[..|ids| - 1], ids[|ids| - 1];
    var before := CancelAll(s, fewer, reason);
    if o in before.outputs {
      CancelOutputs(s, fewer, reason, o);
    } else {
      FindFinds(before.state.pending, id);
      EntriesOfCancelAll(s, fewer, reason);
      assert o in CancelStep(before.state, id, reason).outputs;
    }
  }

  lemma {:induction false} TimeOutOutputs(s: State, pending: seq<Request>, now: int, o: Output)
    requires o in TimeOuts(s, pending, now)
    ensures exists r :: r in pending && IsDue(s, r, now) && o == TimeOut(r)
  {
    hide IsDue, TimeOut;
    if !(IsDue(s, pending[0], now) && o == TimeOut(pending[0])) { TimeOutOutputs(s, pending[1..], now, o); }
  }

  lemma RunIds(s: State, runId: string, r: Request)
    requires DistinctIds(s.pending) && r in s.pending && r.id in IdsOfRun(s.pending, runId)
    ensures r.runId == runId
  {
    IdsOfRunAre(s.pending, runId, r.id);
    var q :| q in s.pending && q.id == r.id && q.runId == runId;
    assert q == r;
  }

  // ----- Every answer -----

  lemma PendingIsEarlierAsk(c: Config, run: seq<Event>, j: nat, r: Request)
    requires j < |run| && r in Before(c, run, j).pending
    ensures r.ticket < j && IsAccepted(run[r.ticket]) && r.id == IdAt(c, run, r.ticket)
    ensures var ask := run[r.ticket];
            r.runId == ask.runId && r.kind == ask.kind && r.dflt == ask.dflt && r.expectsReply == ask.expectsReply &&
            (r.expiresAt.Some? <==> ask.kind == Supervisor && ask.expectsReply)
  {
    hide After;
    PendingOrigin(c, run[..j], r);
    assert run[..j][r.ticket] == run[r.ticket] && run[..j][..r.ticket] == run[..r.ticket];
  }

  /** In every run, everything an operation puts out is explained: the answer to a resolved ask is the one given,
      a cancelled human ask gets its default, a timed-out one its default with that source, and a refused ask its
      refusal at once. */
  lemma EveryAnswer(c: Config, run: seq<Event>, j: nat, o: Output)
    requires j < |run| && o in OutputsAt(c, run, j)
    ensures Explained(c, run, j, o)
  {
    hide After, IdAt, CancelAll, IdsOfRun, TimeOuts, NotDue, Find, Without, Put, Extended, Marked, DistinctIds;
    var s := Before(c, run, j);
    match run[j]
    case Ask(_, _, _, _, _, _, _) => StepsCount(c, run[..j]); RefusalId(c, run, j);
    case Expire(now) =>
      TimeOutOutputs(s, s.pending, now, o);
      var r :| r in s.pending && IsDue(s, r, now) && o == TimeOut(r);
      PendingIsEarlierAsk(c, run, j, r);
    case Resolve(id, result) =>
      FindFinds(s.pending, id);
      PendingIsEarlierAsk(c, run, j, Find(s.pending, id).value);
    case Cancel(id, reason) =>
      FindFinds(s.pending, id);
      PendingIsEarlierAsk(c, run, j, Find(s.pending, id).value);
    case CancelRun(runId, reason) =>
      var ids := IdsOfRun(s.pending, runId);
      CancelOutputs(s, ids, reason, o);
      var r :| r in s.pending && r.id in ids && o == Settled(r.ticket, r.id, CancelResult(r, reason), true);
      RunKeepsIds(c, run[..j]);
      RunIds(s, runId, r);
      PendingIsEarlierAsk(c, run, j, r);
    case _ =>
  }

  lemma RefusalId(c: Config, run: seq<Event>, j: nat)
    requires j < |run| && run[j].Ask?
    ensures IdAt(c, run, j) == AskId(Before(c, run, j), run[j])
  {
  }

  /** A refused ask is answered at once, and one operation answers exactly the pending ask under its id. */
  lemma AnswersComeAtOnce(c: Config, run: seq<Event>, j: nat)
    requires j < |run|
    ensures IsRefused(run[j]) ==> OutputsAt(c, run, j) == [Refused(j, IdAt(c, run, j), run[j].tooLong.value)]
    ensures run[j].Resolve? || run[j].Cancel? ==>
      if IdPending(Before(c, run, j).pending, run[j].id)
      then |OutputsAt(c, run, j)| == 1 && OutputsAt(c, run, j)[0].Settled?
      else OutputsAt(c, run, j) == []
  {
    hide After, Find, Without, Put, IdPending;
    StepsCount(c, run[..j]);
    if run[j].Resolve? || run[j].Cancel? { FindFinds(Before(c, run, j).pending, run[j].id); }
  }

  // ----- Inline delivery -----

  /** A pending request counts as delivered inline exactly if it was marked, under its id, after it was asked. */
  lemma {:induction false} DeliveredIff(c: Config, run: seq<Event>, r: Request)
    requires r in After(c, run).pending
    ensures r.inlineDelivered <==> exists j :: r.ticket < j < |run| && run[j] == MarkInline(r.id)
  {
    hide Step, Evolve, NewRequest, After;
    AfterOf(c, run);
    assert run != [];
    var shorter, k := run[..|run| - 1], |run| - 1;
    StepEntries(c, After(c, shorter), run[k], r);
    StepsCount(c, shorter);
    if IsAccepted(run[k]) && r == NewRequest(c, After(c, shorter), run[k]) {
      NewIsUndelivered(c, After(c, shorter), run[k]);
    } else {
      var q :| q in After(c, shorter).pending && r == Evolve(run[k], q);
      DeliveredIff(c, shorter, q);
      PendingOrigin(c, shorter, q);
      EvolvedDelivery(run[k], q);
      if j :| q.ticket < j < |shorter| && shorter[j] == MarkInline(q.id) { assert run[j] == MarkInline(r.id); }
      if j :| r.ticket < j < |run| && run[j] == MarkInline(r.id) && j < k { assert shorter[j] == MarkInline(q.id); }
    }
  }

  lemma AfterOf(c: Config, run: seq<Event>)
    ensures run == [] ==> After(c, run).pending == []
    ensures run != [] ==> After(c, run) == Step(c, After(c, run[..|run| - 1]), run[|run| - 1]).state
  {
    hide Step;
  }

  lemma NewIsUndelivered(c: Config, s: State, e: Event)
    requires e.Ask?
    ensures !NewRequest(c, s, e).inlineDelivered && NewRequest(c, s, e).ticket == s.steps
  {
  }

  lemma EvolvedDelivery(e: Event, q: Request)
    ensures var r := Evolve(e, q);
            r.ticket == q.ticket && r.id == q.id && (r.inlineDelivered <==> q.inlineDelivered || e == MarkInline(q.id))
  {
  }
}
