/** The request broker as an object that updates its fields (extensions/request-broker.ts), against the
    operations of Broker. */
module BrokerObject {
  import opened Values
  import opened Broker

  lemma {:induction false} NotDueLast(s: State, pending: seq<Request>, r: Request, now: int)
    ensures NotDue(s, pending + [r], now) == NotDue(s, pending, now) + if IsDue(s, r, now) then [] else [r]
    ensures TimeOuts(s, pending + [r], now) == TimeOuts(s, pending, now) + if IsDue(s, r, now) then [TimeOut(r)] else []
  {
    if pending == [] {
      assert [] + [r] == [r] && [r][1..] == [];
    } else {
      assert (pending + [r])[1..] == pending[1..] + [r];
      NotDueLast(s, pending[1..], r, now);
    }
  }

  lemma {:induction false} ExtendedLast(pending: seq<Request>, r: Request, ms: int)
    ensures Extended(pending + [r], ms) == Extended(pending, ms) + [ExtendOne(r, ms)]
  {
    if pending == [] {
      assert [] + [r] == [r] && [r][1..] == [];
    } else {
      assert (pending + [r])[1..] == pending[1..] + [r];
      ExtendedLast(pending[1..], r, ms);
    }
  }

  lemma {:induction false} WithoutMiddle(before: seq<Request>, r: Request, after: seq<Request>)
    requires DistinctIds(before + [r] + after)
    ensures Without(before + [r] + after, r.id) == before + after
    ensures DistinctIds(before + after)
  {
    var all := before + [r] + after;
    if before == [] {
      assert all[0] == r && all[1..] == after && before + after == after;
    } else {
      assert all[0] == before[0] && all[1..] == before[1..] + [r] + after;
      assert all[|before|] == r;
      WithoutMiddle(before[1..], r, after);
      assert [before[0]] + (before[1..] + after) == before + after;
    }
    IdsOfWithout(all, r.id);
  }

  lemma ConsTail(front: seq<Request>, r: Request, later: seq<Request>)
    ensures front + ([r] + later) == front + [r] + later
  {
  }

  lemma NothingDue(s: State, now: int)
    ensures NotDue(s, [], now) == [] && TimeOuts(s, [], now) == []
  {
  }

  ghost function PartlyExtended(pending: seq<Request>, i: nat, ms: int): seq<Request>
    requires i <= |pending|
  {
    Extended(pending[..i], ms) + pending[i..]
  }

  lemma ExtendPartly(pending: seq<Request>, i: nat, ms: int)
    requires i <= |pending|
    ensures |PartlyExtended(pending, i, ms)| == |pending|
    ensures i == 0 ==> PartlyExtended(pending, i, ms) == pending
    ensures i == |pending| ==> PartlyExtended(pending, i, ms) == Extended(pending, ms)
    ensures i < |pending| ==>
              PartlyExtended(pending, i + 1, ms) ==
              PartlyExtended(pending, i, ms)[i := ExtendOne(PartlyExtended(pending, i, ms)[i], ms)]
  {
    hide Extended, ExtendOne;
    ExtendedLength(pending[..i], ms);
    if i < |pending| {
      assert pending[..i + 1] == pending[..i] + [pending[i]];
      ExtendedLast(pending[..i], pending[i], ms);
    } else {
      assert pending[..i] == pending;
    }
    if i == 0 { EmptyExtended(ms); }
  }

  lemma EmptyExtended(ms: int)
    ensures Extended([], ms) == []
  {
  }

  class RequestBroker {
    const config: Config
    var pending: seq<Request>
    var currentBatch: Option<seq<Slot>>
    var batchClosesAt: int
    var nextId: nat
    var heldSupervisorRuns: set<string>
    var supervisorBusy: bool
    var steps: nat

    ghost predicate Valid()
      reads this
    {
      DistinctIds(pending)
    }

    ghost function View(): State
      reads this
    {
      State(pending, currentBatch, batchClosesAt, heldSupervisorRuns, supervisorBusy, nextId, steps)
    }

    constructor (c: Config)
      ensures Valid() && View() == INITIAL && config == c
    {
      config := c;
      pending, currentBatch, batchClosesAt, nextId := [], None, 0, 0;
      heldSupervisorRuns, supervisorBusy, steps := {}, false, 0;
    }

    method Submit(now: int, given: Option<string>, runId: string, kind: Kind, dflt: Option<string>,
                  expectsReply: bool, tooLong: Option<string>) returns (outputs: seq<Output>)
      requires Valid()
      modifies this
      ensures Valid()
      ensures Outcome(View(), outputs) ==
              Step(config, old(View()), Ask(now, given, runId, kind, dflt, expectsReply, tooLong))
    {
      hide Put, DistinctIds;
      var id;
      if given.Some? {
        id := given.value;
      } else {
        nextId := nextId + 1;
        id := NumberedId(nextId);
      }
      outputs := [];
      if kind == Human && tooLong.Some? {
        outputs := [Refused(steps, id, tooLong.value)];
      } else {
        var expiresAt := if kind == Supervisor && expectsReply then Some(now + config.supervisorTimeoutMs) else None;
        var full := Request(steps, id, runId, kind, dflt, expectsReply, now, expiresAt, false);
        IdsOfPut(pending, full);
        pending := Put(pending, full);
        AddToBatch(now, Slot(steps, id));
      }
      steps := steps + 1;
    }

    method AddToBatch(now: int, slot: Slot)
      modifies this`currentBatch, this`batchClosesAt
      ensures currentBatch ==
              (if old(currentBatch).None? then Some([slot]) else Some(old(currentBatch).value + [slot]))
      ensures batchClosesAt == if old(currentBatch).None? then now + config.coalesceMs else old(batchClosesAt)
    {
      if currentBatch.None? {
        currentBatch := Some([slot]);
        batchClosesAt := now + config.coalesceMs;
      } else {
        currentBatch := Some(currentBatch.value + [slot]);
      }
    }

    /** A whole tick, when the sink only takes the batch. Returns the number of actions taken. */
    method Tick(now: int) returns (actions: nat, outputs: seq<Output>)
      requires Valid()
      modifies this
      ensures Valid()
      ensures var closed := Step(config, old(View()), CloseWindow(now));
              var expired := Step(config, closed.state, Expire(now));
              Outcome(View(), outputs) == Outcome(expired.state, closed.outputs + expired.outputs)
      ensures actions == |outputs|
    {
      hide CloseStep, ExpireStep;
      var handed := CloseBatch(now);
      var expired := ExpireDue(now);
      outputs := handed + expired;
      actions := |outputs|;
    }

    /** The first half of a tick: the batch for the sink. */
    method CloseBatch(now: int) returns (outputs: seq<Output>)
      requires Valid()
      modifies this`currentBatch, this`steps
      ensures Valid()
      ensures Outcome(View(), outputs) == Step(config, old(View()), CloseWindow(now))
    {
      outputs := [];
      if currentBatch.Some? && now >= batchClosesAt {
        outputs := [HandedOver(currentBatch.value, StillPending(currentBatch.value, pending))];
        currentBatch := None;
      }
      steps := steps + 1;
    }

    /** The second half of a tick. */
    method ExpireDue(now: int) returns (outputs: seq<Output>)
      requires Valid()
      modifies this`pending, this`steps
      ensures Valid()
      ensures Outcome(View(), outputs) == Step(config, old(View()), Expire(now))
    {
      hide NotDue, TimeOuts, DistinctIds;
      ghost var s := View();
      ghost var before, kept, rest := [], [], pending;
      outputs := [];
      var i := 0;
      NothingDue(s, now);
      while i < |pending|
        invariant pending == kept + rest && |kept| == i
        invariant s.pending == before + rest
        invariant kept == NotDue(s, before, now)
        invariant outputs == TimeOuts(s, before, now)
        invariant Valid()
        invariant View() == s.(pending := pending)
        decreases |rest|
      {
        var r := pending[i];
        ghost var later := rest[1..];
        assert rest == [r] + later;
        ConsTail(kept, r, later);
        ConsTail(before, r, later);
        NotDueLast(s, before, r, now);
        if r.expiresAt.Some? && !supervisorBusy && r.runId !in heldSupervisorRuns && now >= r.expiresAt.value {
          WithoutMiddle(kept, r, later);
          pending := Without(pending, r.id);
          outputs := outputs + [TimeOut(r)];
        } else {
          kept := kept + [r];
          i := i + 1;
        }
        before, rest := before + [r], later;
      }
      assert kept + [] == kept && before + [] == before;
      steps := steps + 1;
    }

    method Settle(id: string, result: Result) returns (outputs: seq<Output>)
      requires Valid()
      modifies this
      ensures Valid()
      ensures Outcome(View(), outputs) == Step(config, old(View()), Resolve(id, result))
    {
      outputs := [];
      var entry := Find(pending, id);
      if entry.Some? {
        IdsOfWithout(pending, id);
        pending := Without(pending, id);
        outputs := [Settled(entry.value.ticket, id, result, true)];
      }
      steps := steps + 1;
    }

    method CancelOne(id: string, reason: string) returns (outputs: seq<Output>)
      requires Valid()
      modifies this`pending
      ensures Valid()
      ensures Outcome(View(), outputs) == CancelStep(old(View()), id, reason)
    {
      outputs := [];
      var entry := Find(pending, id);
      if entry.Some? {
        IdsOfWithout(pending, id);
        pending := Without(pending, id);
        var r := entry.value;
        if r.kind == Human && r.dflt.Some? {
          outputs := [Settled(r.ticket, id, Result(FromDefault, r.dflt, Some(reason)), true)];
        } else {
          outputs := [Settled(r.ticket, id, Result(WasCancelled, None, Some(reason)), true)];
        }
      }
    }

    method CancelEveryRequest(runId: string, reason: string) returns (outputs: seq<Output>)
      requires Valid()
      modifies this
      ensures Valid()
      ensures Outcome(View(), outputs) == Step(config, old(View()), CancelRun(runId, reason))
    {
      var ids := IdsOfRun(pending, runId);
      outputs := [];
      for i := 0 to |ids|
        invariant Valid() && steps == old(steps)
        invariant Outcome(View(), outputs) == CancelAll(old(View()), ids[..i], reason)
      {
        assert ids[..i + 1][..i] == ids[..i];
        var more := CancelOne(ids[i], reason);
        outputs := outputs + more;
      }
      assert ids[..|ids|] == ids;
      steps := steps + 1;
    }

    method HoldSupervisorExpiry(runId: string, hold: bool)
      requires Valid()
      modifies this`heldSupervisorRuns, this`steps
      ensures Valid() && View() == Step(config, old(View()), Hold(runId, hold)).state
    {
      heldSupervisorRuns := if hold then heldSupervisorRuns + {runId} else heldSupervisorRuns - {runId};
      steps := steps + 1;
    }

    method SetSupervisorBusy(busy: bool)
      requires Valid()
      modifies this`supervisorBusy, this`steps
      ensures Valid() && View() == Step(config, old(View()), SetBusy(busy)).state
    {
      supervisorBusy := busy;
      steps := steps + 1;
    }

    method ExtendSupervisorExpiry(ms: int)
      requires Valid()
      modifies this
      ensures Valid() && View() == Step(config, old(View()), Extend(ms)).state
    {
      hide Extended, DistinctIds;
      ghost var was := pending;
      ExtendPartly(was, 0, ms);
      for i := 0 to |pending|
        invariant |pending| == |was|
        invariant pending == PartlyExtended(was, i, ms)
        invariant View() == old(View()).(pending := pending)
      {
        ExtendPartly(was, i, ms);
        pending := pending[i := ExtendOne(pending[i], ms)];
      }
      ExtendPartly(was, |was|, ms);
      IdsOfEdits(was, ms, "");
      steps := steps + 1;
    }

    method MarkInlineDelivered(id: string)
      requires Valid()
      modifies this`pending, this`steps
      ensures Valid() && View() == Step(config, old(View()), MarkInline(id)).state
    {
      IdsOfEdits(pending, 0, id);
      pending := Marked(pending, id);
      steps := steps + 1;
    }
  }

  lemma {:induction false} ExtendedLength(pending: seq<Request>, ms: int)
    ensures |Extended(pending, ms)| == |pending|
  {
    if pending != [] { ExtendedLength(pending[1..], ms); }
  }
}
