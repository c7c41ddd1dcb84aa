/** The append-only run journal and the round-atomic loader that resumes from it. */
module Journal {
  import opened Values
  import opened Graphs
  import opened Claims
  import opened Runs
  import opened Executor

  datatype Record =
    | Header(scriptHash: string, entry: Id, initialState: State)
    | NodeRecord(execution: Execution)
    | RoundRecord(round: nat, nodeIds: seq<Id>, nextFrontier: seq<Id>, remainingInDegree: map<Id, nat>,
                  bySource: Option<PendingClaims>)
    | ResultRecord(status: RunStatus)
    | OtherRecord

  // ----- The file -----

  /** One entry per line, None for a line that does not parse. The last line is open when its line end was
      not written: the process died inside the record's text, or after it and before the line end. */
  datatype JournalFile = JournalFile(lines: seq<Option<Record>>, open: bool)

  const EMPTY_FILE := JournalFile([], false)

  predicate FileOk(f: JournalFile) {
    f.open ==> f.lines != []
  }

  /** The lines that have their line end. */
  function Ended(f: JournalFile): seq<Option<Record>> {
    if f.open && f.lines != [] then f.lines[..|f.lines| - 1] else f.lines
  }

  /** Appending to an open line glues two records together, so that neither can be read. */
  function Append(f: JournalFile, r: Record): JournalFile {
    JournalFile(Ended(f) + [if f.open && f.lines != [] then None else Some(r)], false)
  }

  function AppendAll(f: JournalFile, records: seq<Record>): JournalFile {
    if records == [] then f else Append(AppendAll(f, records[..|records| - 1]), records[|records| - 1])
  }

  /** The process dies inside the text of the next record. */
  function Tear(f: JournalFile): JournalFile {
    JournalFile(Ended(f) + [None], true)
  }

  /** The process dies between the text of the last record and its line end. */
  function Unend(f: JournalFile): JournalFile {
    f.(open := f.lines != [])
  }

  /** readGraphJournal: the lines that parse. */
  function Readable(lines: seq<Option<Record>>): seq<Record> {
    if lines == [] then []
    else
      var rest := Readable(lines[..|lines| - 1]);
      match lines[|lines| - 1]
      case None => rest
      case Some(r) => rest + [r]
  }

  /** A torn record is lost alone. A record without its line end can be read, but only until the next
      record is appended: then both are lost. Nothing that has its line end is ever lost. */
  lemma ReadableAfterWrite(f: JournalFile, r: Record)
    requires FileOk(f)
    ensures FileOk(Append(f, r)) && FileOk(Tear(f)) && FileOk(Unend(f))
    ensures Readable(Append(f, r).lines) == if f.open then Readable(Ended(f)) else Readable(f.lines) + [r]
    ensures Readable(Tear(f).lines) == Readable(Ended(f)) && Readable(Unend(f).lines) == Readable(f.lines)
    ensures f.open ==>
      var last := f.lines[|f.lines| - 1];
      Readable(f.lines) == if last.Some? then Readable(Ended(f)) + [last.value] else Readable(Ended(f))
  {
    assert (f.lines + [Some(r)])[..|f.lines|] == f.lines;
    var none: Option<Record> := None;
    assert (Ended(f) + [none])[..|Ended(f)|] == Ended(f);
  }

  method ReadGraphJournal(f: JournalFile) returns (records: seq<Record>)
    ensures records == Readable(f.lines)
  {
    records := [];
    for i := 0 to |f.lines|
      invariant records == Readable(f.lines[..i])
    {
      assert f.lines[..i + 1][..i] == f.lines[..i];
      if f.lines[i].Some? { records := records + [f.lines[i].value]; }
    }
    assert f.lines[..|f.lines|] == f.lines;
  }

  class GraphJournal {
    var file: JournalFile
    var nodeCount: nat
    var totalTokens: nat

    /** Opens the file of a run, possibly an earlier one being resumed, and writes the header. */
    constructor (existing: JournalFile, header: Record)
      requires header.Header?
      ensures file == Append(existing, header) && nodeCount == 0 && totalTokens == 0
    {
      file, nodeCount, totalTokens := Append(existing, header), 0, 0;
    }

    method RecordNode(execution: Execution, tokens: Option<nat>)
      modifies this
      ensures file == Append(old(file), NodeRecord(execution)) && nodeCount == old(nodeCount) + 1
      ensures totalTokens == old(totalTokens) + Spent(tokens)
    {
      nodeCount := nodeCount + 1;
      totalTokens := totalTokens + if tokens.Some? then tokens.value else 0;
      file := Append(file, NodeRecord(execution));
    }

    method RecordRoundComplete(info: RoundInfo)
      modifies this`file
      ensures file == Append(old(file), RecordOf(RoundDone(info)))
    {
      file := Append(file, RoundRecord(info.round, info.nodeIds, info.nextFrontier, info.remainingInDegree, Some(info.bySource)));
    }

    method RecordResult(status: RunStatus)
      modifies this`file
      ensures file == Append(old(file), ResultRecord(status))
    {
      file := Append(file, ResultRecord(status));
    }

    /** The callbacks of a run, journaled one by one. */
    method RecordEvents(events: seq<Event>, tokens: Execution -> Option<nat>)
      modifies this
      ensures totalTokens == old(totalTokens) + SpentIn(events, tokens)
      ensures file == AppendAll(old(file), RecordsOf(events))
    {
      for i := 0 to |events|
        invariant file == AppendAll(old(file), RecordsOf(events[..i]))
        invariant totalTokens == old(totalTokens) + SpentIn(events[..i], tokens)
      {
        assert events[..i + 1][..i] == events[..i];
        assert RecordsOf(events[..i + 1])[..i] == RecordsOf(events[..i]);
        match events[i]
        case NodeDone(e) => RecordNode(e, tokens(e));
        case RoundDone(info) => RecordRoundComplete(info);
      }
      assert events[..|events|] == events;
    }
  }

  /** The journaling of one run: the header, its callbacks, its result. */
  method JournalRun(existing: JournalFile, header: Record, events: seq<Event>, status: RunStatus,
                    tokens: Execution -> Option<nat>) returns (journal: GraphJournal)
    requires header.Header?
    ensures journal.file == AppendAll(existing, [header] + RecordsOf(events) + [ResultRecord(status)])
    ensures journal.totalTokens == SpentIn(events, tokens)
  {
    journal := new GraphJournal(existing, header);
    journal.RecordEvents(events, tokens);
    journal.RecordResult(status);
    var result := ResultRecord(status);
    assert [header][..0] == [] && AppendAll(existing, [header]) == Append(existing, header);
    AppendAllSum(existing, [header], RecordsOf(events));
    AppendAllSum(existing, [header] + RecordsOf(events), [result]);
    assert [result][..0] == [];
  }

  lemma {:induction false} AppendAllSum(f: JournalFile, a: seq<Record>, b: seq<Record>)
    ensures AppendAll(f, a + b) == AppendAll(AppendAll(f, a), b)
  {
    if b == [] {
      assert a + b == a;
    } else {
      var k := |b| - 1;
      assert (a + b)[..|a + b| - 1] == a + b[..k];
      AppendAllSum(f, a, b[..k]);
    }
  }

  /** Records appended to a file whose last line has its end are all read back. */
  lemma {:induction false} AppendAllReadable(f: JournalFile, records: seq<Record>)
    requires FileOk(f) && !f.open
    ensures var all := AppendAll(f, records);
      FileOk(all) && !all.open && Readable(all.lines) == Readable(f.lines) + records &&
      (records != [] ==> all.lines != [] && all.lines[|all.lines| - 1] == Some(records[|records| - 1])
                         && Readable(all.lines[..|all.lines| - 1]) == Readable(f.lines) + records[..|records| - 1])
  {
    hide Readable;
    if records == [] {
      assert Readable(f.lines) + records == Readable(f.lines);
    } else {
      var k := |records| - 1;
      var before := AppendAll(f, records[..k]);
      AppendAllReadable(f, records[..k]);
      ReadableAfterWrite(before, records[k]);
      assert AppendAll(f, records).lines[..|before.lines|] == before.lines;
      assert Readable(f.lines) + records == Readable(f.lines) + records[..k] + [records[k]];
    }
  }

  function Spent(tokens: Option<nat>): nat {
    if tokens.Some? then tokens.value else 0
  }

  /** The tokens of all nodes done. */
  function SpentIn(events: seq<Event>, tokens: Execution -> Option<nat>): nat {
    if events == [] then 0
    else
      var last := events[|events| - 1];
      SpentIn(events[..|events| - 1], tokens) + if last.NodeDone? then Spent(tokens(last.execution)) else 0
  }

  /** Tokens add up over the callbacks: those a node reported count, and nothing else. */
  lemma {:induction false} TokensAddUp(a: seq<Event>, b: seq<Event>, e: Execution, info: RoundInfo, tokens: Execution -> Option<nat>)
    ensures SpentIn(a + b, tokens) == SpentIn(a, tokens) + SpentIn(b, tokens)
    ensures SpentIn([NodeDone(e)], tokens) == match tokens(e) { case Some(n) => n case None => 0 }
    ensures SpentIn([RoundDone(info)], tokens) == 0
  {
    assert [NodeDone(e)][..0] == [] && [RoundDone(info)][..0] == [];
    if b == [] {
      assert a + b == a;
    } else {
      assert (a + b)[..|a + b| - 1] == a + b[..|b| - 1];
      TokensAddUp(a, b[..|b| - 1], e, info, tokens);
    }
  }

  function RecordOf(e: Event): Record {
    match e
    case NodeDone(x) => NodeRecord(x)
    case RoundDone(i) => RoundRecord(i.round, i.nodeIds, i.nextFrontier, i.remainingInDegree, Some(i.bySource))
  }

  function RecordsOf(events: seq<Event>): seq<Record> {
    seq(|events|, i requires 0 <= i < |events| => RecordOf(events[i]))
  }

  lemma RecordsOfSplit(a: seq<Event>, b: seq<Event>)
    ensures RecordsOf(a + b) == RecordsOf(a) + RecordsOf(b)
  {}

  // ----- The loader -----

  datatype ResumeState = ResumeState(
    executions: seq<Execution>,
    state: State,
    frontier: seq<Id>,
    remainingInDegree: map<Id, nat>,
    bySource: Option<PendingClaims>,
    completedRounds: nat,
    completedNodeExecutions: nat,
    executed: set<Id>)

  datatype LoadFailure = NoJournal | NoHeader | ScriptChanged

  datatype LoadResult = Loaded(resume: ResumeState) | Refused(reason: LoadFailure)

  /** The executions of rounds up to `last`. */
  function ExecutionsUpTo(records: seq<Record>, last: nat): seq<Execution> {
    if records == [] then []
    else
      var rest := ExecutionsUpTo(records[..|records| - 1], last);
      var r := records[|records| - 1];
      if r.NodeRecord? && r.execution.round <= last then rest + [r.execution] else rest
  }

  function Replay(state: State, executions: seq<Execution>): State {
    if executions == [] then state
    else
      var e := executions[|executions| - 1];
      Replay(state, executions[..|executions| - 1])[e.node := e.result]
  }

  function LastRound(records: seq<Record>): Option<Record> {
    if records == [] then None
    else if records[|records| - 1].RoundRecord? then Some(records[|records| - 1])
    else LastRound(records[..|records| - 1])
  }

  function First(records: seq<Record>, want: Record -> bool): Option<Record> {
    if records == [] then None
    else if want(records[0]) then Some(records[0])
    else First(records[1..], want)
  }

  function NodesOf(executions: seq<Execution>): set<Id> {
    set e | e in executions :: e.node
  }

  predicate IsHeader(r: Record) {
    r.Header?
  }

  predicate IsResult(r: Record) {
    r.ResultRecord?
  }

  function ResumeOf(records: seq<Record>, header: Record): ResumeState
    requires header.Header?
  {
    var lastRound := LastRound(records);
    var last := if lastRound.Some? && lastRound.value.RoundRecord? then lastRound.value.round else 0;
    var executions := ExecutionsUpTo(records, last);
    var finished := First(records, IsResult);
    ResumeState(
      executions, Replay(header.initialState, executions),
      if finished.Some? && finished.value.ResultRecord? && finished.value.status == Completed then []
      else if lastRound.Some? && lastRound.value.RoundRecord? then lastRound.value.nextFrontier
      else [header.entry],
      if lastRound.Some? && lastRound.value.RoundRecord? then lastRound.value.remainingInDegree else map[],
      if lastRound.Some? && lastRound.value.RoundRecord? then lastRound.value.bySource else None,
      last, |executions|, NodesOf(executions))
  }

  function Load(records: seq<Record>, scriptHash: string): LoadResult {
    if records == [] then Refused(NoJournal)
    else
      var header := First(records, IsHeader);
      if header.None? || !header.value.Header? then Refused(NoHeader)
      else if header.value.scriptHash != scriptHash then Refused(ScriptChanged)
      else Loaded(ResumeOf(records, header.value))
  }

  lemma {:induction false} FirstSatisfies(records: seq<Record>, want: Record -> bool)
    ensures First(records, want).Some? ==> want(First(records, want).value)
  {
    if records != [] && !want(records[0]) { FirstSatisfies(records[1..], want); }
  }

  method FindFirst(records: seq<Record>, want: Record -> bool) returns (found: Option<Record>)
    ensures found == First(records, want)
  {
    for i := 0 to |records|
      invariant First(records, want) == First(records[i..], want)
    {
      if want(records[i]) { return Some(records[i]); }
    }
    return None;
  }

  method LoadGraphSuperstepResumeState(f: JournalFile, scriptHash: string) returns (result: LoadResult)
    ensures result == Load(Readable(f.lines), scriptHash)
    ensures LoadMeans(Readable(f.lines), scriptHash, result)
  {
    var records := ReadGraphJournal(f);
    LoadMeaning(records, scriptHash);
    hide LoadMeans;
    if records == [] { return Refused(NoJournal); }
    var header := FindFirst(records, IsHeader);
    if header.None? || !header.value.Header? { return Refused(NoHeader); }
    if header.value.scriptHash != scriptHash { return Refused(ScriptChanged); }
    var lastRound: Option<Record> := None;
    for i := 0 to |records|
      invariant lastRound == LastRound(records[..i])
    {
      assert records[..i + 1][..i] == records[..i];
      if records[i].RoundRecord? { lastRound := Some(records[i]); }
    }
    assert records[..|records|] == records;
    LastRoundIsRound(records);
    var last := if lastRound.Some? then lastRound.value.round else 0;
    var executions := FilterExecutions(records, last);
    var state := ReplayAll(header.value.initialState, executions);
    var finished := FindFirst(records, IsResult);
    FirstSatisfies(records, IsResult);
    var frontier :=
      if finished.Some? && finished.value.status == Completed then []
      else if lastRound.Some? then lastRound.value.nextFrontier
      else [header.value.entry];
    return Loaded(ResumeState(
      executions, state, frontier,
      if lastRound.Some? then lastRound.value.remainingInDegree else map[],
      if lastRound.Some? then lastRound.value.bySource else None,
      last, |executions|, NodesOf(executions)));
  }

  lemma {:induction false} LastRoundIsRound(records: seq<Record>)
    ensures LastRound(records).Some? ==> LastRound(records).value.RoundRecord? && LastRound(records).value in records
  {
    if records != [] && !records[|records| - 1].RoundRecord? { LastRoundIsRound(records[..|records| - 1]); }
  }

  method FilterExecutions(records: seq<Record>, last: nat) returns (executions: seq<Execution>)
    ensures executions == ExecutionsUpTo(records, last)
  {
    executions := [];
    for i := 0 to |records|
      invariant executions == ExecutionsUpTo(records[..i], last)
    {
      assert records[..i + 1][..i] == records[..i];
      if records[i].NodeRecord? && records[i].execution.round <= last {
        executions := executions + [records[i].execution];
      }
    }
    assert records[..|records|] == records;
  }

  method ReplayAll(initial: State, executions: seq<Execution>) returns (state: State)
    ensures state == Replay(initial, executions)
  {
    state := initial;
    for i := 0 to |executions|
      invariant state == Replay(initial, executions[..i])
    {
      assert executions[..i + 1][..i] == executions[..i];
      state := state[executions[i].node := executions[i].result];
    }
    assert executions[..|executions|] == executions;
  }

  // ----- What loading means, for any records -----

  predicate FirstHeaderAt(records: seq<Record>, i: int) {
    0 <= i < |records| && records[i].Header? && forall j | 0 <= j < i :: !records[j].Header?
  }

  predicate FirstResultAt(records: seq<Record>, i: int) {
    0 <= i < |records| && records[i].ResultRecord? && forall j | 0 <= j < i :: !records[j].ResultRecord?
  }

  predicate LastRoundAt(records: seq<Record>, i: int) {
    0 <= i < |records| && records[i].RoundRecord? && forall j | i < j < |records| :: !records[j].RoundRecord?
  }

  /** The record belongs to a round up to `last`. */
  predicate Counts(r: Record, last: nat) {
    r.NodeRecord? && r.execution.round <= last
  }

  /** `at` lists, in order, the places of the node records of rounds up to `last`. */
  ghost predicate Places(records: seq<Record>, last: nat, at: seq<nat>) {
    && (forall p, q | 0 <= p < q < |at| :: at[p] < at[q])
    && (forall p | 0 <= p < |at| :: at[p] < |records| && Counts(records[at[p]], last))
    && forall i | 0 <= i < |records| && Counts(records[i], last) :: i in at
  }

  /** The executions are those of rounds up to `last`, in the order of the journal. */
  ghost predicate AreExecutions(records: seq<Record>, last: nat, executions: seq<Execution>) {
    exists at: seq<nat> :: Places(records, last, at) && |executions| == |at| &&
      forall p | 0 <= p < |at| :: at[p] < |records| && records[at[p]] == NodeRecord(executions[p])
  }

  /** Every key holds the result of its last execution, or what it held initially. */
  ghost predicate IsReplayed(initial: State, executions: seq<Execution>, state: State) {
    && (forall k | 0 <= k < |executions| && (forall j | k < j < |executions| :: executions[j].node != executions[k].node) ::
          executions[k].node in state && state[executions[k].node] == executions[k].result)
    && forall n | n !in NodesOf(executions) :: (n in state <==> n in initial) && (n in initial ==> state[n] == initial[n])
  }

  /** The first result on record says that the run completed. */
  ghost predicate SaysCompleted(records: seq<Record>) {
    exists i :: FirstResultAt(records, i) && records[i].status == Completed
  }

  ghost predicate Resumes(records: seq<Record>, header: Record, r: ResumeState)
    requires header.Header?
  {
    && (forall i | LastRoundAt(records, i) ::
          r.completedRounds == records[i].round && r.remainingInDegree == records[i].remainingInDegree
          && r.bySource == records[i].bySource
          && (!SaysCompleted(records) ==> r.frontier == records[i].nextFrontier))
    && ((forall i | 0 <= i < |records| :: !records[i].RoundRecord?) ==>
          r.completedRounds == 0 && r.remainingInDegree == map[] && r.bySource == None
          && (!SaysCompleted(records) ==> r.frontier == [header.entry]))
    && (SaysCompleted(records) ==> r.frontier == [])
    && AreExecutions(records, r.completedRounds, r.executions) && IsReplayed(header.initialState, r.executions, r.state)
    && r.completedNodeExecutions == |r.executions| && r.executed == NodesOf(r.executions)
  }

  /** Which journals are refused, for which reason, and what the others resume. */
  ghost predicate LoadMeans(records: seq<Record>, scriptHash: string, result: LoadResult) {
    && (result == Refused(NoJournal) <==> records == [])
    && (result == Refused(NoHeader) <==> records != [] && forall i | 0 <= i < |records| :: !records[i].Header?)
    && (result == Refused(ScriptChanged) <==> exists i :: FirstHeaderAt(records, i) && records[i].scriptHash != scriptHash)
    && (result.Loaded? <==> exists i :: FirstHeaderAt(records, i) && records[i].scriptHash == scriptHash)
    && forall i | FirstHeaderAt(records, i) && result.Loaded? :: Resumes(records, records[i], result.resume)
  }

  lemma {:induction false} FirstIsAt(records: seq<Record>, want: Record -> bool) returns (at: nat)
    ensures First(records, want).None? ==> forall i | 0 <= i < |records| :: !want(records[i])
    ensures First(records, want).Some? ==>
      at < |records| && First(records, want).value == records[at] && want(records[at]) &&
      forall j | 0 <= j < at :: !want(records[j])
  {
    at := 0;
    if records != [] && !want(records[0]) {
      var rest := records[1..];
      at := FirstIsAt(rest, want);
      assert forall i | 0 <= i < |rest| :: rest[i] == records[i + 1];
      assert forall i | 0 < i < |records| :: records[i] == rest[i - 1];
      at := at + 1;
    }
  }

  lemma {:induction false} LastRoundIsAt(records: seq<Record>) returns (at: nat)
    ensures LastRound(records).None? ==> forall i | 0 <= i < |records| :: !records[i].RoundRecord?
    ensures LastRound(records).Some? ==> LastRoundAt(records, at) && LastRound(records).value == records[at]
  {
    at := 0;
    if records != [] {
      var k := |records| - 1;
      if records[k].RoundRecord? {
        at := k;
      } else {
        at := LastRoundIsAt(records[..k]);
        assert forall i | 0 <= i < k :: records[..k][i] == records[i];
      }
    }
  }

  ghost predicate Placed(records: seq<Record>, last: nat, at: seq<nat>, executions: seq<Execution>) {
    && Places(records, last, at) && |executions| == |at|
    && forall p | 0 <= p < |at| :: at[p] < |records| && records[at[p]] == NodeRecord(executions[p])
  }

  lemma {:induction false} ExecutionsArePlaced(records: seq<Record>, last: nat) returns (at: seq<nat>)
    ensures Placed(records, last, at, ExecutionsUpTo(records, last))
  {
    hide Placed;
    at := [];
    if records == [] {
      NothingPlaced(last);
    } else {
      var k := |records| - 1;
      at := ExecutionsArePlaced(records[..k], last);
      var executions := ExecutionsUpTo(records[..k], last);
      assert records == records[..k] + [records[k]];
      if Counts(records[k], last) {
        PlacedCounting(records[..k], last, at, executions, records[k]);
        at := at + [k];
      } else {
        PlacedOther(records[..k], last, at, executions, records[k]);
      }
    }
  }

  lemma NothingPlaced(last: nat)
    ensures Placed([], last, [], [])
  {
  }

  lemma PlacedCounting(records: seq<Record>, last: nat, at: seq<nat>, executions: seq<Execution>, r: Record)
    requires Placed(records, last, at, executions) && Counts(r, last)
    ensures Placed(records + [r], last, at + [|records|], executions + [r.execution])
  {
    var all, more := records + [r], at + [|records|];
    forall i | 0 <= i < |all| && Counts(all[i], last) ensures i in more {
      if i < |records| { assert i in at; } else { assert more[|at|] == i; }
    }
  }

  lemma PlacedOther(records: seq<Record>, last: nat, at: seq<nat>, executions: seq<Execution>, r: Record)
    requires Placed(records, last, at, executions) && !Counts(r, last)
    ensures Placed(records + [r], last, at, executions)
  {
    hide Counts;
  }

  lemma {:induction false} ReplayIsReplayed(initial: State, executions: seq<Execution>)
    ensures IsReplayed(initial, executions, Replay(initial, executions))
  {
    if executions != [] {
      var k := |executions| - 1;
      var before := executions[..k];
      ReplayIsReplayed(initial, before);
      assert executions == before + [executions[k]];
      forall i | 0 <= i < |executions| && (forall j | i < j < |executions| :: executions[j].node != executions[i].node)
        ensures executions[i].node in Replay(initial, executions)
        ensures Replay(initial, executions)[executions[i].node] == executions[i].result
      {
        if i < k { assert before[i] == executions[i] && forall j | i < j < k :: before[j] == executions[j]; }
      }
      assert NodesOf(executions) == NodesOf(before) + {executions[k].node};
    }
  }

  lemma LoadMeaning(records: seq<Record>, scriptHash: string)
    ensures LoadMeans(records, scriptHash, Load(records, scriptHash))
  {
    hide Resumes, ResumeOf, First;
    var h := FirstIsAt(records, IsHeader);
    forall i | FirstHeaderAt(records, i) ensures First(records, IsHeader) == Some(records[i]) {
      assert IsHeader(records[i]);
      assert i == h;
    }
    if First(records, IsHeader).Some? {
      assert FirstHeaderAt(records, h);
      ResumeMeaning(records, records[h]);
    }
  }

  lemma ResumeMeaning(records: seq<Record>, header: Record)
    requires header.Header?
    ensures Resumes(records, header, ResumeOf(records, header))
  {
    hide Placed, IsReplayed, ExecutionsUpTo, Replay, First, LastRound, AreExecutions, SaysCompleted;
    var l := LastRoundIsAt(records);
    var r := ResumeOf(records, header);
    CompletedMeaning(records);
    var at := ExecutionsArePlaced(records, r.completedRounds);
    PlacedExecutions(records, r.completedRounds, at, r.executions);
    ReplayIsReplayed(header.initialState, r.executions);
    forall i | LastRoundAt(records, i) ensures LastRound(records) == Some(records[i]) {
      assert i == l;
    }
  }

  lemma PlacedExecutions(records: seq<Record>, last: nat, at: seq<nat>, executions: seq<Execution>)
    requires Placed(records, last, at, executions)
    ensures AreExecutions(records, last, executions)
  {
  }

  lemma CompletedMeaning(records: seq<Record>)
    ensures var finished := First(records, IsResult);
      SaysCompleted(records) <==> finished.Some? && finished.value.ResultRecord? && finished.value.status == Completed
  {
    hide First;
    var f := FirstIsAt(records, IsResult);
    if First(records, IsResult).Some? { assert FirstResultAt(records, f); }
    forall i | FirstResultAt(records, i) ensures First(records, IsResult) == Some(records[i]) {
      assert IsResult(records[i]);
      assert i == f;
    }
  }

  /** How the workflow tool turns the loaded state into the executor's resume input. */
  function ResumeInputOf(r: ResumeState): ResumeInput {
    ResumeInput(r.state, r.frontier, r.remainingInDegree, r.bySource, r.completedRounds, r.completedNodeExecutions, r.executed, [])
  }
}
