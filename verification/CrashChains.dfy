/** Chains of crashes and resumes over one journal file: a process may die at any point of any write, and
    the next one resumes from what can be read. */
module CrashChains {
  import opened Values
  import opened Graphs
  import opened Claims
  import opened Runs
  import opened Executor
  import opened Journal
  import opened CrashReplay

  // ----- Lives -----

  /** How the last write of a process ended. */
  datatype Death = AfterLineEnd | InsideText | BeforeLineEnd

  /** One process life: its world, how many records it wrote the whole text of, its header and result
      included, and where it died: after the last line end, inside the text of the next record, or between
      the text of the last record and its line end. */
  datatype Life = Life(env: Env, written: nat, death: Death)

  /** A life that died before its first byte is not counted. */
  predicate LeavesTrace(l: Life) {
    l.written == 0 ==> l.death == InsideText
  }

  function LoadFile(f: JournalFile, header: Record): LoadResult
    requires header.Header?
  {
    Load(Readable(f.lines), header.scriptHash)
  }

  /** A resume that is refused, or that has nothing left to run, writes nothing. */
  predicate Starts(header: Record, f: JournalFile, first: bool)
    requires header.Header?
  {
    first || (LoadFile(f, header).Loaded? && LoadFile(f, header).resume.frontier != [])
  }

  /** Where a life starts: the first runs fresh, the others resume from the file. */
  ghost function LifeStart(g: Graph, header: Record, f: JournalFile, first: bool): Run
    requires header.Header? && g.entry in g.nodes
  {
    if first then FreshRun(g)
    else match LoadFile(f, header)
      case Loaded(resume) => ResumedRun(g, ResumeInputOf(resume))
      case Refused(_) => FreshRun(g)
  }

  /** The callbacks among the first `m` records that a run journals after its header. */
  ghost function Seen(g: Graph, env: Env, start: Run, m: nat): seq<Event> {
    var events := RunFrom(g, env, start).events;
    if m <= |events| then events[..m] else events
  }

  ghost function Body(g: Graph, env: Env, start: Run, m: nat): seq<Record> {
    var end := RunFrom(g, env, start);
    RecordsOf(Seen(g, env, start, m)) + if m > |end.events| then [ResultRecord(end.status)] else []
  }

  /** The records written after the header. */
  function AfterHeader(l: Life): nat {
    if l.written == 0 then 0 else l.written - 1
  }

  /** The file at the end of a life that began with file `f`. */
  ghost function LifeWrites(g: Graph, header: Record, f: JournalFile, first: bool, l: Life): JournalFile
    requires header.Header? && g.entry in g.nodes
  {
    if !Starts(header, f, first) then f
    else
      var body := Body(g, l.env, LifeStart(g, header, f, first), AfterHeader(l));
      var whole := if l.written == 0 then f else AppendAll(Append(f, header), body);
      match l.death
      case AfterLineEnd => whole
      case InsideText => Tear(whole)
      case BeforeLineEnd => Unend(whole)
  }

  /** The barriers whose record a life wrote. */
  ghost function Barriers(g: Graph, header: Record, f: JournalFile, first: bool, l: Life): nat
    requires header.Header? && g.entry in g.nodes
  {
    if Starts(header, f, first)
    then BarriersIn(Seen(g, l.env, LifeStart(g, header, f, first), AfterHeader(l)))
    else 0
  }

  /** A life that is not cut short writes what the journaling of a whole run writes. */
  lemma UncutLife(g: Graph, header: Record, f: JournalFile, first: bool, l: Life)
    requires header.Header? && g.entry in g.nodes && Starts(header, f, first) && l.death == AfterLineEnd
    requires l.written == |RunFrom(g, l.env, LifeStart(g, header, f, first)).events| + 2
    ensures var end := RunFrom(g, l.env, LifeStart(g, header, f, first));
      LifeWrites(g, header, f, first, l) ==
      AppendAll(f, [header] + RecordsOf(end.events) + [ResultRecord(end.status)])
  {
    hide RunFrom, LifeStart, Append, Starts;
    var end := RunFrom(g, l.env, LifeStart(g, header, f, first));
    var body := RecordsOf(end.events) + [ResultRecord(end.status)];
    AppendAllSum(f, [header], body);
    assert [header] + body == [header] + RecordsOf(end.events) + [ResultRecord(end.status)];
    assert [header][..0] == [];
  }

  // ----- Chains -----

  ghost function FileAfter(g: Graph, header: Record, lives: seq<Life>): JournalFile
    requires header.Header? && g.entry in g.nodes
  {
    if lives == [] then EMPTY_FILE
    else LifeWrites(g, header, FileAfter(g, header, lives[..|lives| - 1]), |lives| == 1, lives[|lives| - 1])
  }

  ghost function FileBefore(g: Graph, header: Record, lives: seq<Life>): JournalFile
    requires header.Header? && g.entry in g.nodes && lives != []
  {
    FileAfter(g, header, lives[..|lives| - 1])
  }

  ghost function LastStart(g: Graph, header: Record, lives: seq<Life>): Run
    requires header.Header? && g.entry in g.nodes && lives != []
  {
    LifeStart(g, header, FileBefore(g, header, lives), |lives| == 1)
  }

  /** How many barriers the last life reported. */
  ghost function LastBarriers(g: Graph, header: Record, lives: seq<Life>): nat
    requires header.Header? && g.entry in g.nodes && lives != []
  {
    Barriers(g, header, FileBefore(g, header, lives), |lives| == 1, lives[|lives| - 1])
  }

  ghost function NextCheckpoint(g: Graph, env: Env, start: Run, c: Checkpoint, j: nat): Checkpoint {
    match AfterBarriers(g, env, start, j)
    case Some(r) => if j > 0 then CheckpointOf(r) else c
    case None => c
  }

  /** The last barrier any of the lives reached and reported. */
  ghost function LastLive(g: Graph, header: Record, lives: seq<Life>): Checkpoint
    requires header.Header? && g.entry in g.nodes
  {
    if lives == [] then StartCheckpoint(header)
    else
      NextCheckpoint(g, lives[|lives| - 1].env, LastStart(g, header, lives),
                     LastLive(g, header, lives[..|lives| - 1]), LastBarriers(g, header, lives))
  }

  predicate Agrees(loaded: LoadResult, c: Checkpoint) {
    && loaded.Loaded? && loaded.resume.state == c.state && loaded.resume.frontier == c.frontier
    && loaded.resume.completedRounds == c.round
    && loaded.resume.remainingInDegree == c.remainingInDegree && loaded.resume.bySource == c.bySource
  }

  /** After these lives the loader returns the live state, frontier, round and claims of the last barrier
      that any of them reported. */
  ghost predicate Faithful(g: Graph, header: Record, lives: seq<Life>)
    requires header.Header? && g.entry in g.nodes
  {
    Agrees(LoadFile(FileAfter(g, header, lives), header), LastLive(g, header, lives))
  }

  // ----- What an open line can cost -----

  /** The record that can be read but loses its line to the next append. */
  function AtRisk(f: JournalFile): seq<Record> {
    if f.open && f.lines != [] && f.lines[|f.lines| - 1].Some? then [f.lines[|f.lines| - 1].value] else []
  }

  /** The process died before the line end of the very first header. */
  predicate HeaderUnended(f: JournalFile) {
    f.open && |f.lines| == 1
  }

  /** The process died before the line end of a round record. */
  predicate RoundUnended(f: JournalFile) {
    AtRisk(f) != [] && AtRisk(f)[0].RoundRecord?
  }

  /** The first life writes its header; a life that is resumed after one that died before a line end finds
      neither the first header there, nor a round record unless it gets to write a round record itself. */
  ghost predicate SafeLife(g: Graph, header: Record, f: JournalFile, first: bool, l: Life)
    requires header.Header? && g.entry in g.nodes
  {
    if first then l.written > 0
    else Starts(header, f, false) ==>
      !HeaderUnended(f) && (RoundUnended(f) ==> Barriers(g, header, f, false, l) > 0)
  }

  ghost predicate Safe(g: Graph, header: Record, lives: seq<Life>)
    requires header.Header? && g.entry in g.nodes
  {
    lives == [] ||
    (Safe(g, header, lives[..|lives| - 1]) &&
     SafeLife(g, header, FileBefore(g, header, lives), |lives| == 1, lives[|lives| - 1]))
  }

  /** What is left of a file that matches `c` when its open line is lost. */
  ghost predicate LossIsKnown(f: JournalFile, header: Record, c: Checkpoint) {
    && (RoundUnended(f) ==> c.round > 0 && RoundsDoneAtMost(Readable(Ended(f)), c.round - 1))
    && (AtRisk(f) != [] && !RoundUnended(f) && !HeaderUnended(f) ==>
          (exists s :: Matches(Readable(Ended(f)), header, c, s)) &&
          ExecutionsUpTo(Readable(Ended(f)), c.round) == ExecutionsUpTo(Readable(f.lines), c.round))
  }

  /** A file between two lives. */
  ghost predicate FileMatches(f: JournalFile, header: Record, c: Checkpoint, stale: seq<Execution>) {
    FileOk(f) && Matches(Readable(f.lines), header, c, stale) && LossIsKnown(f, header, c)
  }

  // ----- What a life adds -----

  /** A run whose callbacks are all journaled has reached all its barriers. */
  lemma {:induction false} AllSeen(g: Graph, env: Env, r: Run) returns (last: Run)
    ensures r.events <= RunFrom(g, env, r).events
    ensures AfterBarriers(g, env, r, BarriersIn(RunFrom(g, env, r).events[|r.events|..])) == Some(last)
    ensures !Advance(g, env, last).Barrier? && RunFrom(g, env, r) == Advance(g, env, last).run
    decreases env.maxRounds - r.iterations
  {
    hide Advance, RoundAbsorption, Totals, BySourceRecord, BarriersIn, NodeEvents;
    AdvanceCounts(g, env, r);
    EventsGrow(g, env, r);
    var t := Advance(g, env, r);
    if t.Barrier? {
      last := AllSeen(g, env, t.run);
      var j := BarriersIn(RunFrom(g, env, t.run).events[|t.run.events|..]);
      BarriersCompose(g, env, r, t.run, j);
      TurnCounts(g, env, r);
      var all := RunFrom(g, env, r).events;
      assert all[|r.events|..] == t.run.events[|r.events|..] + all[|t.run.events|..];
      BarriersInSum(t.run.events[|r.events|..], all[|t.run.events|..]);
    } else {
      last := r;
      LastTurnCounts(g, env, r);
    }
  }

  lemma TurnCounts(g: Graph, env: Env, r: Run)
    requires Advance(g, env, r).Barrier?
    ensures r.events <= Advance(g, env, r).run.events
    ensures BarriersIn(Advance(g, env, r).run.events[|r.events|..]) == 1
  {
    hide Advance, RoundAbsorption, Totals, BySourceRecord, NodeEvents;
    TurnEffect(g, env, r);
    var done, next := RoundAbsorption(g, env, r).done, Advance(g, env, r).run;
    var info := next.events[|next.events| - 1];
    NoBarrierInNodes(done);
    assert next.events[|r.events|..] == NodeEvents(done) + [info];
    BarriersInSum(NodeEvents(done), [info]);
    assert [info][..0] == [];
  }

  lemma LastTurnCounts(g: Graph, env: Env, r: Run)
    requires !Advance(g, env, r).Barrier?
    ensures BarriersIn(RunFrom(g, env, r).events[|r.events|..]) == 0
  {
    hide Advance, RoundAbsorption, NodeEvents;
    LastTurnEvents(g, env, r);
    var done, all := RoundAbsorption(g, env, r).done, RunFrom(g, env, r).events;
    NoBarrierInNodes(done);
    assert all[|r.events|..] == [] || all[|r.events|..] == NodeEvents(done);
  }

  /** A run that ends as completed has nothing left to run. */
  lemma CompletedMeansDone(g: Graph, env: Env, last: Run)
    requires !Advance(g, env, last).Barrier? && Advance(g, env, last).run.status == Completed
    ensures last.frontier == []
  {
    hide RoundAbsorption;
  }

  /** A life's records, up to the m-th, carry a matching journal to the last barrier among them. */
  lemma BodyMatches(g: Graph, env: Env, r: Run, m: nat, records: seq<Record>, header: Record, c: Checkpoint,
                    stale: seq<Execution>) returns (stale': seq<Execution>)
    requires Matches(records, header, c, stale) && ContinuesFrom(r, c) && r.events == []
    ensures var j := BarriersIn(Seen(g, env, r, m));
      var c' := NextCheckpoint(g, env, r, c, j);
      && AfterBarriers(g, env, r, j).Some? && c'.round == c.round + j
      && Matches(records + Body(g, env, r, m), header, c', stale')
      && (j == 0 ==> ExecutionsUpTo(records + Body(g, env, r, m), c.round) == ExecutionsUpTo(records, c.round))
      && var live := AfterBarriers(g, env, r, j).value;
         r.history <= live.history && |live.history| - |r.history| == live.nodeExecutions - r.nodeExecutions &&
         (j > 0 ==> ExecutionsUpTo(records + Body(g, env, r, m), c.round + j) ==
                      ExecutionsUpTo(records, c.round) + (stale + live.history[|r.history|..]))
  {
    hide Advance, Matches, ExecutionsUpTo, Totals, BySourceRecord, BarriersIn, RunFrom, RecordsOf;
    var seen := Seen(g, env, r, m);
    var j;
    j, stale' := LifeKeepsMatch(g, env, r, seen, records, header, c, stale);
    assert seen[0..] == seen;
    BarrierRounds(g, env, r, j);
    var end := RunFrom(g, env, r);
    if m > |end.events| {
      var last := AllSeen(g, env, r);
      assert end.events[0..] == end.events;
      if end.status == Completed { CompletedMeansDone(g, env, last); }
      var c' := NextCheckpoint(g, env, r, c, j);
      assert c'.frontier == last.frontier;
      BookkeepingKeepsMatch(records + RecordsOf(seen), ResultRecord(end.status), header, c', stale');
      assert records + Body(g, env, r, m) == records + RecordsOf(seen) + [ResultRecord(end.status)];
    } else {
      assert records + Body(g, env, r, m) == records + RecordsOf(seen);
    }
  }

  /** The last of a life's records, and what is before it. */
  lemma BodyLast(g: Graph, env: Env, r: Run, m: nat) returns (m': nat)
    requires Body(g, env, r, m) != []
    ensures var all, fewer := Body(g, env, r, m), Body(g, env, r, m');
      var x := all[|all| - 1];
      && all == fewer + [x]
      && (x.RoundRecord? || x.NodeRecord? || x.ResultRecord?)
      && BarriersIn(Seen(g, env, r, m)) == BarriersIn(Seen(g, env, r, m')) + if x.RoundRecord? then 1 else 0
  {
    hide RunFrom;
    var end, seen := RunFrom(g, env, r), Seen(g, env, r, m);
    if m > |end.events| {
      m' := |end.events|;
      assert end.events[..m'] == end.events;
    } else {
      m' := m - 1;
      assert seen == seen[..m'] + [seen[m']];
      RecordsOfSplit(seen[..m'], [seen[m']]);
      assert Seen(g, env, r, m') == seen[..m'];
    }
  }

  lemma {:induction false} ExecutionsSum(a: seq<Record>, b: seq<Record>, k: nat)
    ensures ExecutionsUpTo(a + b, k) == ExecutionsUpTo(a, k) + ExecutionsUpTo(b, k)
  {
    if b == [] {
      assert a + b == a;
    } else {
      var i := |b| - 1;
      assert b == b[..i] + [b[i]] && a + b == a + b[..i] + [b[i]];
      ExecutionsSum(a, b[..i], k);
      ExecutionsAdd(a + b[..i], b[i], k);
      ExecutionsAdd(b[..i], b[i], k);
    }
  }

  lemma {:induction false} LastRoundSum(a: seq<Record>, b: seq<Record>)
    ensures LastRound(a + b) == if LastRound(b).Some? then LastRound(b) else LastRound(a)
  {
    if b == [] {
      assert a + b == a;
    } else {
      var i := |b| - 1;
      assert a + b == a + b[..i] + [b[i]] && b == b[..i] + [b[i]];
      LastRoundSum(a, b[..i]);
      ExecutionsAdd(a + b[..i], b[i], 0);
      ExecutionsAdd(b[..i], b[i], 0);
    }
  }

  lemma {:induction false} RoundsInBody(g: Graph, env: Env, r: Run, m: nat)
    ensures LastRound(Body(g, env, r, m)).Some? <==> BarriersIn(Seen(g, env, r, m)) > 0
    ensures First(Body(g, env, r, m), IsHeader) == None
    decreases |Body(g, env, r, m)|
  {
    hide RunFrom, Body, Seen, BarriersIn;
    var all := Body(g, env, r, m);
    if all == [] {
      EmptyBody(g, env, r, m);
    } else {
      var m' := BodyLast(g, env, r, m);
      var fewer, x := Body(g, env, r, m'), all[|all| - 1];
      RoundsInBody(g, env, r, m');
      ExecutionsAdd(fewer, x, 0);
      FirstAppend(fewer, [x], IsHeader);
      assert First([x][1..], IsHeader) == None;
    }
  }

  lemma EmptyBody(g: Graph, env: Env, r: Run, m: nat)
    requires Body(g, env, r, m) == []
    ensures BarriersIn(Seen(g, env, r, m)) == 0
  {
    hide RunFrom;
    assert |RecordsOf(Seen(g, env, r, m))| == |Seen(g, env, r, m)|;
  }

  lemma NoHeaderIn(x: Record)
    requires !x.Header?
    ensures First([x], IsHeader) == None
  {
    assert First([x][1..], IsHeader) == None;
  }

  /** A round record that a later one has overtaken can be lost. */
  lemma OvertakenRound(a: seq<Record>, x: Record, b: seq<Record>, header: Record, c: Checkpoint, stale: seq<Execution>)
    requires Matches(a + [x] + b, header, c, stale) && x.RoundRecord? && LastRound(b).Some?
    ensures Matches(a + b, header, c, stale)
    ensures forall k: nat :: ExecutionsUpTo(a + b, k) == ExecutionsUpTo(a + [x] + b, k)
  {
    hide ExecutionsUpTo, LastRound, First, Replay;
    forall k: nat ensures ExecutionsUpTo(a + b, k) == ExecutionsUpTo(a + [x] + b, k) {
      ExecutionsSum(a + [x], b, k);
      ExecutionsAdd(a, x, k);
      ExecutionsSum(a, b, k);
    }
    LastRoundSum(a + [x], b);
    LastRoundSum(a, b);
    FirstAppend(a + [x], b, IsHeader);
    FirstAppend(a, [x], IsHeader);
    FirstAppend(a, b, IsHeader);
    NoHeaderIn(x);
    assert forall r | r in a + b :: r in a + [x] + b;
  }

  // ----- One life -----

  /** What a resumed life appends to: the readable records of the reopened file, and the round record, if any,
      that was lost by reopening it. */
  lemma Reopened(f: JournalFile, header: Record, c: Checkpoint, stale: seq<Execution>, wrote: bool)
    returns (base: seq<Record>, lost: seq<Record>, found: seq<Execution>)
    requires FileMatches(f, header, c, stale) && !HeaderUnended(f)
    ensures base == if wrote then Readable(Append(f, header).lines) else Readable(Ended(f))
    ensures if RoundUnended(f) then lost == AtRisk(f) else lost == []
    ensures Matches(base + lost, header, c, found)
    ensures ExecutionsUpTo(base + lost, c.round) == ExecutionsUpTo(Readable(f.lines), c.round)
    ensures forall k: nat :: ExecutionsUpTo(base + lost, k) == ExecutionsUpTo(base, k)
    ensures RoundUnended(f) ==> c.round > 0 && RoundsDoneAtMost(base, c.round - 1)
  {
    hide Matches, Readable, ExecutionsUpTo;
    ReadableAfterWrite(f, header);
    base := if wrote then Readable(Append(f, header).lines) else Readable(Ended(f));
    lost := if RoundUnended(f) then AtRisk(f) else [];
    found := stale;
    if RoundUnended(f) {
      forall k: nat { ExecutionsAdd(base, lost[0], k); }
    } else {
      assert base + lost == base;
      if AtRisk(f) != [] {
        found :| Matches(Readable(Ended(f)), header, c, found);
      } else if !f.open && wrote {
        MatchingHeader(Readable(f.lines), header, c, stale);
        BookkeepingKeepsMatch(Readable(f.lines), header, header, c, stale);
      }
    }
  }

  lemma MatchingHeader(records: seq<Record>, header: Record, c: Checkpoint, stale: seq<Execution>)
    requires Matches(records, header, c, stale)
    ensures header.Header?
  {
  }

  /** What a life that resumes from `base` adds, when `lost` is overtaken. */
  ghost predicate CarriesOn(g: Graph, env: Env, r: Run, m: nat, base: seq<Record>, lost: seq<Record>, header: Record,
                            c: Checkpoint, found: seq<Execution>) {
    && Matches(base + lost, header, c, found) && ContinuesFrom(r, c) && r.events == []
    && (forall k: nat :: ExecutionsUpTo(base + lost, k) == ExecutionsUpTo(base, k))
    && (lost != [] ==> |lost| == 1 && lost[0].RoundRecord? && BarriersIn(Seen(g, env, r, m)) > 0)
  }

  lemma CarriedOn(g: Graph, env: Env, r: Run, m: nat, base: seq<Record>, lost: seq<Record>, header: Record,
                  c: Checkpoint, found: seq<Execution>) returns (stale: seq<Execution>)
    requires CarriesOn(g, env, r, m, base, lost, header, c, found)
    ensures var j := BarriersIn(Seen(g, env, r, m));
      var c' := NextCheckpoint(g, env, r, c, j);
      && AfterBarriers(g, env, r, j).Some? && c'.round == c.round + j
      && Matches(base + Body(g, env, r, m), header, c', stale)
      && var live, all := AfterBarriers(g, env, r, j).value, ExecutionsUpTo(base + Body(g, env, r, m), c'.round);
         r.history <= live.history && |live.history| - |r.history| == live.nodeExecutions - r.nodeExecutions &&
         all == if j == 0 then ExecutionsUpTo(base, c.round)
                else ExecutionsUpTo(base, c.round) + (found + live.history[|r.history|..])
  {
    hide Matches, ExecutionsUpTo, BarriersIn, Seen, NextCheckpoint, AfterBarriers, LastRound;
    var body := Body(g, env, r, m);
    hide Body;
    stale := BodyMatches(g, env, r, m, base + lost, header, c, found);
    if lost == [] {
      assert base + lost == base;
    } else {
      RoundsInBody(g, env, r, m);
      assert base + lost == base + [lost[0]];
      OvertakenRound(base, lost[0], body, header, NextCheckpoint(g, env, r, c, BarriersIn(Seen(g, env, r, m))), stale);
    }
  }

  /** The same life without the line end of its last record. */
  lemma CutBeforeLineEnd(g: Graph, env: Env, r: Run, m: nat, base: seq<Record>, lost: seq<Record>, header: Record,
                         c: Checkpoint, found: seq<Execution>)
    requires CarriesOn(g, env, r, m, base, lost, header, c, found) && Body(g, env, r, m) != []
    ensures var all := Body(g, env, r, m);
      var k := |all| - 1;
      var c' := NextCheckpoint(g, env, r, c, BarriersIn(Seen(g, env, r, m)));
      if all[k].RoundRecord? then c'.round > 0 && RoundsDoneAtMost(base + all[..k], c'.round - 1)
      else (exists s :: Matches(base + all[..k], header, c', s)) &&
           ExecutionsUpTo(base + all[..k], c'.round) == ExecutionsUpTo(base + all, c'.round)
  {
    hide Matches, ExecutionsUpTo, BarriersIn, Seen, NextCheckpoint, AfterBarriers, Body, RoundsDoneAtMost;
    var all := Body(g, env, r, m);
    var m' := BodyLast(g, env, r, m);
    var fewer := Body(g, env, r, m');
    assert all[..|all| - 1] == fewer;
    var stale := CarriedOn(g, env, r, m, base, lost, header, c, found);
    if all[|all| - 1].RoundRecord? {
      var before := BodyMatches(g, env, r, m', base + lost, header, c, found);
      FewerRounds(base, lost, fewer, header, NextCheckpoint(g, env, r, c, BarriersIn(Seen(g, env, r, m'))), before);
    } else {
      var before := CarriedOn(g, env, r, m', base, lost, header, c, found);
    }
  }

  lemma FewerRounds(a: seq<Record>, lost: seq<Record>, b: seq<Record>, header: Record, c: Checkpoint, stale: seq<Execution>)
    requires Matches(a + lost + b, header, c, stale)
    ensures RoundsDoneAtMost(a + b, c.round)
  {
    assert forall r | r in a + b :: r in a + lost + b;
  }

  /** What can be read of the file when a life that wrote its header is over. */
  lemma WrittenFile(f: JournalFile, header: Record, body: seq<Record>)
    requires FileOk(f)
    ensures var whole, base := AppendAll(Append(f, header), body), Readable(Append(f, header).lines);
      && FileOk(whole) && AtRisk(whole) == [] && Readable(whole.lines) == base + body
      && FileOk(Tear(whole)) && AtRisk(Tear(whole)) == [] && Readable(Tear(whole).lines) == base + body
      && FileOk(Unend(whole)) && Readable(Unend(whole).lines) == base + body
  {
    hide Readable;
    ReadableAfterWrite(f, header);
    AppendAllReadable(Append(f, header), body);
    ReadableAfterWrite(AppendAll(Append(f, header), body), header);
  }

  lemma UnendedFile(f: JournalFile, header: Record, body: seq<Record>)
    requires FileOk(f)
    ensures var end, base := Unend(AppendAll(Append(f, header), body)), Readable(Append(f, header).lines);
      if body != [] then AtRisk(end) == [body[|body| - 1]] && Readable(Ended(end)) == base + body[..|body| - 1]
      else if f.open then AtRisk(end) == []
      else AtRisk(end) == [header] && Readable(Ended(end)) == Readable(f.lines)
  {
    hide Readable, Append, AppendAll, Ended, AtRisk, Unend, FileOk;
    AppendCloses(f, header);
    if body == [] {
      UnendedAppend(f, header);
    } else {
      UnendedBody(Append(f, header), body);
    }
  }

  lemma UnendedBody(f: JournalFile, body: seq<Record>)
    requires FileOk(f) && !f.open && body != []
    ensures var end := Unend(AppendAll(f, body));
      AtRisk(end) == [body[|body| - 1]] && Readable(Ended(end)) == Readable(f.lines) + body[..|body| - 1]
  {
    hide Readable, Append, AppendAll, Ended, AtRisk, Unend, FileOk;
    AppendAllReadable(f, body);
    UnendedClosed(AppendAll(f, body));
  }

  lemma AppendCloses(f: JournalFile, r: Record)
    requires FileOk(f)
    ensures FileOk(Append(f, r)) && !Append(f, r).open
  {
  }

  lemma UnendedClosed(f: JournalFile)
    requires !f.open && f.lines != [] && f.lines[|f.lines| - 1].Some?
    ensures AtRisk(Unend(f)) == [f.lines[|f.lines| - 1].value] && Ended(Unend(f)) == f.lines[..|f.lines| - 1]
  {
  }

  lemma UnendedAppend(f: JournalFile, r: Record)
    requires FileOk(f)
    ensures var end := Unend(AppendAll(Append(f, r), []));
      if f.open then AtRisk(end) == [] else AtRisk(end) == [r] && Ended(end) == f.lines
  {
    assert !f.open ==> Append(f, r).lines[..|f.lines|] == f.lines;
  }

  lemma TornFile(f: JournalFile)
    requires FileOk(f)
    ensures FileOk(Tear(f)) && AtRisk(Tear(f)) == [] && Readable(Tear(f).lines) == Readable(Ended(f))
  {
    ReadableAfterWrite(f, OtherRecord);
  }

  /** Where a resumed life stands. */
  lemma ResumedStart(g: Graph, header: Record, f: JournalFile, c: Checkpoint, stale: seq<Execution>)
    requires FileMatches(f, header, c, stale) && g.entry in g.nodes
    ensures header.Header? && LoadFile(f, header).Loaded? && (Starts(header, f, false) <==> c.frontier != [])
    ensures ContinuesFrom(LifeStart(g, header, f, false), c) && LifeStart(g, header, f, false).events == []
  {
    hide Matches, ExecutionsUpTo;
    MatchingHeader(Readable(f.lines), header, c, stale);
    MatchingLoads(Readable(f.lines), header, c, stale);
  }

  /** The node records that a file holds of the rounds up to `round`. */
  function RecordedUpTo(f: JournalFile, round: nat): nat {
    |ExecutionsUpTo(Readable(f.lines), round)|
  }

  /** The node records of the unfinished round that are left when a file is reopened. */
  ghost function StaleIn(f: JournalFile, header: Record, round: nat): int {
    RecordedUpTo(Append(f, header), round + 1) - RecordedUpTo(Append(f, header), round)
  }

  /** What a life does to a file that matches `c`: the new one matches the last barrier it reported, and holds as
      many more records of completed rounds as it executed nodes, plus the stale ones it found. */
  ghost predicate Continued(g: Graph, header: Record, f: JournalFile, first: bool, l: Life, c: Checkpoint, stale: seq<Execution>)
    requires header.Header? && g.entry in g.nodes
  {
    var start, j, after := LifeStart(g, header, f, first), Barriers(g, header, f, first, l), LifeWrites(g, header, f, first, l);
    var live := AfterBarriers(g, l.env, start, j);
    && live.Some? && FileMatches(after, header, NextCheckpoint(g, l.env, start, c, j), stale)
    && NextCheckpoint(g, l.env, start, c, j).round == c.round + j
    && RecordedUpTo(after, c.round + j) == RecordedUpTo(f, c.round) +
         if j == 0 then 0 else StaleIn(f, header, c.round) + live.value.nodeExecutions - start.nodeExecutions
  }

  /** The nodes whose executions a resume finds. */
  ghost function NodesIn(f: JournalFile, round: nat): set<Id> {
    NodesOf(ExecutionsUpTo(Readable(f.lines), round))
  }

  /** After a life that reported a barrier a resume finds the nodes found before and those the life ran, and
      besides these only nodes of the frontier it started from. */
  ghost predicate AddsNodes(g: Graph, header: Record, f: JournalFile, first: bool, l: Life, c: Checkpoint)
    requires header.Header? && g.entry in g.nodes
  {
    var start, j, after := LifeStart(g, header, f, first), Barriers(g, header, f, first, l), LifeWrites(g, header, f, first, l);
    var live := AfterBarriers(g, l.env, start, j);
    && live.Some? && start.history <= live.value.history
    && if j == 0 then NodesIn(after, c.round) == NodesIn(f, c.round)
       else
         var ran := NodesOf(live.value.history[|start.history|..]);
         NodesIn(f, c.round) + ran <= NodesIn(after, c.round + j) <= NodesIn(f, c.round) + ran + FrontierSet(c.frontier)
  }

  /** A life that got to write its header. */
  ghost predicate Wrote(g: Graph, header: Record, f: JournalFile, first: bool, l: Life, c: Checkpoint, lost: seq<Record>,
                        found: seq<Execution>)
    requires header.Header? && g.entry in g.nodes
  {
    && FileOk(f) && l.written > 0 && Starts(header, f, first)
    && CarriesOn(g, l.env, LifeStart(g, header, f, first), AfterHeader(l), Readable(Append(f, header).lines), lost,
                 header, c, found)
    && ExecutionsUpTo(Readable(Append(f, header).lines), c.round) == ExecutionsUpTo(Readable(f.lines), c.round)
    && if first then f == EMPTY_FILE else f.open || exists s :: Matches(Readable(f.lines), header, c, s)
  }

  lemma UnendedHeader(f: JournalFile, header: Record, c: Checkpoint, first: bool)
    requires FileOk(f) && header.Header?
    requires if first then f == EMPTY_FILE else f.open || exists s :: Matches(Readable(f.lines), header, c, s)
    ensures LossIsKnown(Unend(Append(f, header)), header, c)
  {
    hide Matches, Readable;
    ReadableAfterWrite(f, header);
    UnendedFile(f, header, []);
    hide ExecutionsUpTo;
    if !f.open { ExecutionsAdd(Readable(f.lines), header, c.round); }
  }

  lemma UnendedLife(g: Graph, header: Record, f: JournalFile, first: bool, l: Life, c: Checkpoint,
                    lost: seq<Record>, found: seq<Execution>)
    requires header.Header? && g.entry in g.nodes && Wrote(g, header, f, first, l, c, lost, found)
    ensures var r := LifeStart(g, header, f, first);
      var body := Body(g, l.env, r, AfterHeader(l));
      LossIsKnown(Unend(AppendAll(Append(f, header), body)), header,
                  NextCheckpoint(g, l.env, r, c, Barriers(g, header, f, first, l)))
  {
    hide Matches, ExecutionsUpTo, BarriersIn, Seen, AfterBarriers, Body, RoundsDoneAtMost, Readable, LifeStart, Load, Append, Unend,
      Ended, FileOk;
    var r, m, base := LifeStart(g, header, f, first), AfterHeader(l), Readable(Append(f, header).lines);
    var body := Body(g, l.env, r, m);
    WrittenFile(f, header, body);
    UnendedFile(f, header, body);
    if body != [] {
      CutBeforeLineEnd(g, l.env, r, m, base, lost, header, c, found);
    } else {
      EmptyBody(g, l.env, r, m);
      UnendedHeader(f, header, c, first);
    }
  }

  lemma FoundIsCounted(f: JournalFile, lost: seq<Record>, header: Record, c: Checkpoint, found: seq<Execution>)
    requires var base := Readable(Append(f, header).lines);
      Matches(base + lost, header, c, found) && forall k: nat :: ExecutionsUpTo(base + lost, k) == ExecutionsUpTo(base, k)
    ensures StaleIn(f, header, c.round) == |found|
  {
    hide ExecutionsUpTo, Readable, Append;
  }

  /** The file a written life leaves. */
  lemma WrittenEnds(g: Graph, header: Record, f: JournalFile, first: bool, l: Life, c: Checkpoint,
                    lost: seq<Record>, found: seq<Execution>)
    requires header.Header? && g.entry in g.nodes && Wrote(g, header, f, first, l, c, lost, found)
    ensures var after, r := LifeWrites(g, header, f, first, l), LifeStart(g, header, f, first);
      && FileOk(after)
      && Readable(after.lines) == Readable(Append(f, header).lines) + Body(g, l.env, r, AfterHeader(l))
      && LossIsKnown(after, header, NextCheckpoint(g, l.env, r, c, Barriers(g, header, f, first, l)))
  {
    hide CarriesOn, ExecutionsUpTo, BarriersIn, Seen, AfterBarriers, Body, Readable, LifeStart, Load, Append, Unend,
      Ended, FileOk, Starts, Tear, LossIsKnown, NextCheckpoint, RecordedUpTo, Matches;
    var r := LifeStart(g, header, f, first);
    var body := Body(g, l.env, r, AfterHeader(l));
    WrittenFile(f, header, body);
    UnendedLife(g, header, f, first, l, c, lost, found);
    var whole, c' := AppendAll(Append(f, header), body), NextCheckpoint(g, l.env, r, c, Barriers(g, header, f, first, l));
    NothingAtRisk(whole, header, c');
    NothingAtRisk(Tear(whole), header, c');
  }

  /** The executions of completed rounds in the file that a written life leaves. */
  lemma WrittenExecutions(g: Graph, header: Record, f: JournalFile, first: bool, l: Life, c: Checkpoint,
                          lost: seq<Record>, found: seq<Execution>) returns (stale: seq<Execution>)
    requires header.Header? && g.entry in g.nodes && Wrote(g, header, f, first, l, c, lost, found)
    ensures var r, j, after := LifeStart(g, header, f, first), Barriers(g, header, f, first, l), LifeWrites(g, header, f, first, l);
      var c', live := NextCheckpoint(g, l.env, r, c, j), AfterBarriers(g, l.env, r, j);
      && live.Some? && c'.round == c.round + j && Matches(Readable(after.lines), header, c', stale)
      && r.history <= live.value.history && |live.value.history| - |r.history| == live.value.nodeExecutions - r.nodeExecutions
      && ExecutionsUpTo(Readable(after.lines), c.round + j) == ExecutionsUpTo(Readable(f.lines), c.round) +
           if j == 0 then [] else found + live.value.history[|r.history|..]
  {
    hide Matches, ExecutionsUpTo, BarriersIn, Seen, AfterBarriers, Body, Readable, LifeStart, Load, Append, FileOk,
      Starts, NextCheckpoint, CarriesOn, LifeWrites;
    stale := CarriedOn(g, l.env, LifeStart(g, header, f, first), AfterHeader(l), Readable(Append(f, header).lines), lost,
                       header, c, found);
    WrittenEnds(g, header, f, first, l, c, lost, found);
    var was := ExecutionsUpTo(Readable(f.lines), c.round);
    assert was + [] == was;
  }

  lemma WrittenNodes(g: Graph, header: Record, f: JournalFile, first: bool, l: Life, c: Checkpoint,
                     lost: seq<Record>, found: seq<Execution>)
    requires header.Header? && g.entry in g.nodes && Wrote(g, header, f, first, l, c, lost, found)
    ensures AddsNodes(g, header, f, first, l, c)
  {
    hide Matches, ExecutionsUpTo, AfterBarriers, Readable, LifeStart, NextCheckpoint, Wrote, LifeWrites, FrontierSet,
      Barriers, NodesOf, Advance, CheckpointOf;
    FoundInFrontier(g, header, f, first, l, c, lost, found);
    var stale := WrittenExecutions(g, header, f, first, l, c, lost, found);
    var r, j := LifeStart(g, header, f, first), Barriers(g, header, f, first, l);
    var was, ran := ExecutionsUpTo(Readable(f.lines), c.round), AfterBarriers(g, l.env, r, j).value.history[|r.history|..];
    NodesOfSum(was, found, ran);
    assert was + [] == was;
  }

  lemma NodesOfSum(a: seq<Execution>, b: seq<Execution>, c: seq<Execution>)
    ensures NodesOf(a + (b + c)) == NodesOf(a) + NodesOf(b) + NodesOf(c)
  {
    forall n ensures n in NodesOf(a + (b + c)) <==> n in NodesOf(a) + NodesOf(b) + NodesOf(c) {
      if e :| e in a && e.node == n { assert e in a + (b + c); }
      if e :| e in b && e.node == n { assert e in a + (b + c); }
      if e :| e in c && e.node == n { assert e in a + (b + c); }
    }
  }

  lemma FoundInFrontier(g: Graph, header: Record, f: JournalFile, first: bool, l: Life, c: Checkpoint,
                        lost: seq<Record>, found: seq<Execution>)
    requires header.Header? && g.entry in g.nodes && Wrote(g, header, f, first, l, c, lost, found)
    ensures NodesOf(found) <= FrontierSet(c.frontier)
  {
    hide ExecutionsUpTo, Readable, LifeStart;
  }

  lemma WrittenLife(g: Graph, header: Record, f: JournalFile, first: bool, l: Life, c: Checkpoint,
                    lost: seq<Record>, found: seq<Execution>) returns (stale: seq<Execution>)
    requires header.Header? && g.entry in g.nodes && Wrote(g, header, f, first, l, c, lost, found)
    ensures Continued(g, header, f, first, l, c, stale) && AddsNodes(g, header, f, first, l, c)
  {
    hide Matches, ExecutionsUpTo, BarriersIn, Seen, AfterBarriers, Body, Readable, LifeStart, Load, Append, LifeWrites,
      FileOk, Starts, LossIsKnown, StaleIn, NextCheckpoint, Barriers, AddsNodes;
    WrittenNodes(g, header, f, first, l, c, lost, found);
    FoundIsCounted(f, lost, header, c, found);
    stale := WrittenExecutions(g, header, f, first, l, c, lost, found);
    WrittenEnds(g, header, f, first, l, c, lost, found);
  }

  lemma NothingAtRisk(f: JournalFile, header: Record, c: Checkpoint)
    requires AtRisk(f) == []
    ensures LossIsKnown(f, header, c)
  {
  }

  /** A life that died inside the text of its header. */
  lemma TornLife(g: Graph, header: Record, f: JournalFile, l: Life, c: Checkpoint, stale: seq<Execution>)
    returns (stale': seq<Execution>)
    requires header.Header? && g.entry in g.nodes && FileMatches(f, header, c, stale) && Starts(header, f, false)
    requires l.written == 0 && l.death == InsideText && !HeaderUnended(f) && !RoundUnended(f)
    ensures Continued(g, header, f, false, l, c, stale') && AddsNodes(g, header, f, false, l, c)
  {
    hide Matches, ExecutionsUpTo, Readable, LifeStart, Load, Ended, Starts, StaleIn, AtRisk, RoundUnended, HeaderUnended, RunFrom;
    var base, lost;
    base, lost, stale' := Reopened(f, header, c, stale, false);
    assert base + lost == base;
    TornFile(f);
    NothingAtRisk(Tear(f), header, c);
    var seen := Seen(g, l.env, LifeStart(g, header, f, false), 0);
    assert seen == [] && BarriersIn(seen) == 0;
  }

  /** One more life, from a file that matches `c`. */
  lemma LifeReplays(g: Graph, header: Record, f: JournalFile, l: Life, c: Checkpoint, stale: seq<Execution>)
    returns (stale': seq<Execution>)
    requires header.Header? && g.entry in g.nodes && FileMatches(f, header, c, stale) && LeavesTrace(l)
    requires SafeLife(g, header, f, false, l)
    ensures Continued(g, header, f, false, l, c, stale') && AddsNodes(g, header, f, false, l, c)
  {
    hide Matches, ExecutionsUpTo, Readable, LifeStart, Load, Ended, Starts, StaleIn, AtRisk, RoundUnended, HeaderUnended, RunFrom,
      LossIsKnown, BarriersIn, Append;
    ResumedStart(g, header, f, c, stale);
    if !Starts(header, f, false) {
      stale' := stale;
    } else if l.written == 0 {
      var seen := Seen(g, l.env, LifeStart(g, header, f, false), 0);
      NoBarrierYet(seen);
      stale' := TornLife(g, header, f, l, c, stale);
    } else {
      var base, lost, found := Reopened(f, header, c, stale, true);
      assert lost != [] ==> RoundUnended(f);
      OneAtRisk(f);
      stale' := WrittenLife(g, header, f, false, l, c, lost, found);
    }
  }

  lemma NoBarrierYet(seen: seq<Event>)
    ensures seen == [] ==> BarriersIn(seen) == 0
  {
  }

  lemma OneAtRisk(f: JournalFile)
    ensures |AtRisk(f)| <= 1 && (RoundUnended(f) ==> AtRisk(f)[0].RoundRecord?)
  {
  }

  lemma FirstLife(g: Graph, header: Record, l: Life) returns (stale: seq<Execution>)
    requires header.Header? && header.entry == g.entry && header.initialState == g.initialState && g.entry in g.nodes
    requires l.written > 0
    ensures Continued(g, header, EMPTY_FILE, true, l, StartCheckpoint(header), stale)
    ensures AddsNodes(g, header, EMPTY_FILE, true, l, StartCheckpoint(header))
  {
    hide Wrote, Continued, AddsNodes;
    FirstWrote(g, header, l);
    stale := WrittenLife(g, header, EMPTY_FILE, true, l, StartCheckpoint(header), [], []);
  }

  lemma FirstWrote(g: Graph, header: Record, l: Life)
    requires header.Header? && header.entry == g.entry && header.initialState == g.initialState && g.entry in g.nodes
    requires l.written > 0
    ensures Wrote(g, header, EMPTY_FILE, true, l, StartCheckpoint(header), [], [])
  {
    hide Matches, ExecutionsUpTo, Readable, Append, RunFrom, BarriersIn, Seen, StaticClaims;
    StartMatches(header);
    HeaderOnly(header);
    NothingExecuted(header);
    var base: seq<Record> := [header];
    assert base + [] == base;
  }

  lemma HeaderOnly(header: Record)
    ensures FileOk(EMPTY_FILE) && Readable([]) == [] && Readable(Append(EMPTY_FILE, header).lines) == [header]
  {
    ReadableAfterWrite(EMPTY_FILE, header);
    assert Readable([]) == [] && [] + [header] == [header];
  }

  lemma NothingExecuted(header: Record)
    requires header.Header?
    ensures forall k: nat :: ExecutionsUpTo([header], k) == [] && ExecutionsUpTo([], k) == []
  {
    forall k: nat { ExecutionsAdd([], header, k); }
    assert [] + [header] == [header];
  }

  /** A life whose first append lost the only header: no later load is accepted. */
  lemma LostHeader(g: Graph, header: Record, f: JournalFile, l: Life)
    requires header.Header? && g.entry in g.nodes && FileOk(f) && HeaderUnended(f) && LeavesTrace(l)
    requires Starts(header, f, false)
    ensures LoadFile(LifeWrites(g, header, f, false, l), header).Refused?
  {
    hide RunFrom, Body, LifeStart, Starts;
    var body := Body(g, l.env, LifeStart(g, header, f, false), AfterHeader(l));
    RoundsInBody(g, l.env, LifeStart(g, header, f, false), AfterHeader(l));
    assert Ended(f) == [] && Readable([]) == [];
    ReadableAfterWrite(f, header);
    WrittenFile(f, header, body);
    TornFile(f);
    assert [] + body == body;
  }

  /** A life that lost a round record and reported no barrier of its own: fewer rounds are loaded. */
  lemma LostRound(g: Graph, header: Record, f: JournalFile, l: Life, c: Checkpoint, stale: seq<Execution>)
    requires header.Header? && g.entry in g.nodes && FileMatches(f, header, c, stale) && LeavesTrace(l)
    requires Starts(header, f, false) && !HeaderUnended(f) && RoundUnended(f) && Barriers(g, header, f, false, l) == 0
    ensures var loaded := LoadFile(LifeWrites(g, header, f, false, l), header);
      loaded.Loaded? ==> loaded.resume.completedRounds < c.round
  {
    hide RunFrom, LifeStart, Starts, Matches, ExecutionsUpTo, Readable, First, LastRound, Append, Ended, FileOk, Tear,
      Unend, BarriersIn, Seen, Body;
    var r, m := LifeStart(g, header, f, false), AfterHeader(l);
    var body := Body(g, l.env, r, m);
    var base, lost, found := Reopened(f, header, c, stale, l.written > 0);
    RoundsInBody(g, l.env, r, m);
    LastRoundSum(base, body);
    LastRoundIsRound(base);
    WrittenFile(f, header, body);
    TornFile(f);
    OneAtRisk(f);
    var after := LifeWrites(g, header, f, false, l);
    assert LastRound(Readable(after.lines)) == LastRound(base);
  }

  // ----- Chains of lives -----

  predicate HeaderOf(g: Graph, header: Record) {
    header.Header? && header.entry == g.entry && header.initialState == g.initialState && g.entry in g.nodes
  }

  lemma Loads(f: JournalFile, header: Record, c: Checkpoint, stale: seq<Execution>)
    requires FileMatches(f, header, c, stale)
    ensures header.Header? && Agrees(LoadFile(f, header), c)
    ensures LoadFile(f, header).resume.completedNodeExecutions == RecordedUpTo(f, c.round)
  {
    hide Matches, ExecutionsUpTo;
    MatchingHeader(Readable(f.lines), header, c, stale);
    MatchingLoads(Readable(f.lines), header, c, stale);
  }

  /** Along a safe chain, each life continues from a file that matches the last live barrier. */
  lemma {:induction false} ChainContinues(g: Graph, header: Record, lives: seq<Life>) returns (stale: seq<Execution>)
    requires HeaderOf(g, header) && lives != [] && (forall l | l in lives :: LeavesTrace(l)) && Safe(g, header, lives)
    ensures Continued(g, header, FileBefore(g, header, lives), |lives| == 1, lives[|lives| - 1],
                      LastLive(g, header, lives[..|lives| - 1]), stale)
    ensures AddsNodes(g, header, FileBefore(g, header, lives), |lives| == 1, lives[|lives| - 1],
                      LastLive(g, header, lives[..|lives| - 1]))
    ensures FileMatches(FileAfter(g, header, lives), header, LastLive(g, header, lives), stale)
  {
    hide FileMatches, LifeStart, LifeWrites, AfterBarriers, LeavesTrace, RecordedUpTo, Barriers, StaleIn, NextCheckpoint,
      AddsNodes;
    var k := |lives| - 1;
    if k == 0 {
      assert lives[..k] == [];
      stale := FirstLife(g, header, lives[k]);
    } else {
      var earlier := ChainContinues(g, header, lives[..k]);
      stale := LifeReplays(g, header, FileBefore(g, header, lives), lives[k], LastLive(g, header, lives[..k]), earlier);
    }
  }

  lemma UnsafeFirst(g: Graph, header: Record, l: Life)
    requires HeaderOf(g, header) && LeavesTrace(l) && !SafeLife(g, header, EMPTY_FILE, true, l)
    ensures LoadFile(LifeWrites(g, header, EMPTY_FILE, true, l), header).Refused?
  {
    hide LifeStart, Body;
    TornFile(EMPTY_FILE);
    assert Readable([]) == [];
  }

  lemma UnsafeNext(g: Graph, header: Record, f: JournalFile, l: Life, c: Checkpoint, stale: seq<Execution>)
    requires HeaderOf(g, header) && LeavesTrace(l) && FileMatches(f, header, c, stale) && !SafeLife(g, header, f, false, l)
    ensures var j := Barriers(g, header, f, false, l);
      !Agrees(LoadFile(LifeWrites(g, header, f, false, l), header), NextCheckpoint(g, l.env, LifeStart(g, header, f, false), c, j))
  {
    hide LifeStart, LifeWrites, Barriers, Starts, Load, RunFrom, Matches, Readable, LossIsKnown, RoundUnended, LeavesTrace;
    if HeaderUnended(f) {
      LostHeader(g, header, f, l);
    } else {
      LostRound(g, header, f, l, c, stale);
    }
  }

  /** A safe chain followed by an unsafe life is not loaded as its last live barrier. */
  lemma UnsafeLife(g: Graph, header: Record, lives: seq<Life>)
    requires HeaderOf(g, header) && lives != [] && (forall l | l in lives :: LeavesTrace(l))
    requires Safe(g, header, lives[..|lives| - 1])
    requires !SafeLife(g, header, FileBefore(g, header, lives), |lives| == 1, lives[|lives| - 1])
    ensures !Faithful(g, header, lives)
  {
    hide FileMatches, LifeStart, LifeWrites, LeavesTrace, Barriers, SafeLife, LoadFile, NextCheckpoint, Safe;
    var k := |lives| - 1;
    if k == 0 {
      assert lives[..k] == [];
      UnsafeFirst(g, header, lives[k]);
    } else {
      var stale := ChainContinues(g, header, lives[..k]);
      UnsafeNext(g, header, FileBefore(g, header, lives), lives[k], LastLive(g, header, lives[..k]), stale);
    }
  }

  ghost predicate AlwaysFaithful(g: Graph, header: Record, lives: seq<Life>)
    requires header.Header? && g.entry in g.nodes
  {
    forall i | 0 < i <= |lives| :: Faithful(g, header, lives[..i])
  }

  lemma AlwaysFaithfulStep(g: Graph, header: Record, lives: seq<Life>)
    requires HeaderOf(g, header) && lives != []
    ensures AlwaysFaithful(g, header, lives) <==>
      AlwaysFaithful(g, header, lives[..|lives| - 1]) && Faithful(g, header, lives)
  {
    hide Faithful;
    var before := lives[..|lives| - 1];
    assert forall i | 0 < i < |lives| :: before[..i] == lives[..i];
    assert lives[..|lives|] == lives;
  }

  lemma FaithfulStep(g: Graph, header: Record, lives: seq<Life>)
    requires HeaderOf(g, header) && lives != [] && (forall l | l in lives :: LeavesTrace(l))
    requires Safe(g, header, lives[..|lives| - 1])
    ensures Faithful(g, header, lives) <==> Safe(g, header, lives)
  {
    hide Faithful, LeavesTrace, SafeLife, FileMatches;
    if SafeLife(g, header, FileBefore(g, header, lives), |lives| == 1, lives[|lives| - 1]) {
      var stale := ChainContinues(g, header, lives);
      Loads(FileAfter(g, header, lives), header, LastLive(g, header, lives), stale);
      SameFaithful(g, header, lives);
    } else {
      UnsafeLife(g, header, lives);
    }
  }

  /** After every life of a chain, each in its own world and dying at any point of any write, the loader
      returns the last live barrier if and only if the first header was written and no life went on, without
      reporting a barrier, from a file that lacked the line end of a round record or of that header. */
  lemma {:induction false} ChainReplays(g: Graph, header: Record, lives: seq<Life>)
    requires HeaderOf(g, header) && forall l | l in lives :: LeavesTrace(l)
    ensures AlwaysFaithful(g, header, lives) <==> Safe(g, header, lives)
  {
    hide Faithful, LeavesTrace, SafeLife;
    if lives != [] {
      ChainReplays(g, header, lives[..|lives| - 1]);
      AlwaysFaithfulStep(g, header, lives);
      if Safe(g, header, lives[..|lives| - 1]) { FaithfulStep(g, header, lives); }
    }
  }

  lemma SameFaithful(g: Graph, header: Record, lives: seq<Life>)
    requires HeaderOf(g, header)
    requires Agrees(LoadFile(FileAfter(g, header, lives), header), LastLive(g, header, lives))
    ensures Faithful(g, header, lives)
  {
  }

  /** In particular, lives that only die inside a text, or before the line end of a record of a node, of a result
      or of a resumed run, lose nothing, whatever follows. */
  lemma {:induction false} HarmlessDeaths(g: Graph, header: Record, lives: seq<Life>)
    requires HeaderOf(g, header) && forall l | l in lives :: LeavesTrace(l)
    requires lives != [] ==> lives[0].written > 0
    requires forall i | 0 < i < |lives| ::
      !HeaderUnended(FileAfter(g, header, lives[..i])) && !RoundUnended(FileAfter(g, header, lives[..i]))
    ensures Safe(g, header, lives)
  {
    hide FileAfter, LeavesTrace, HeaderUnended, RoundUnended, Starts, Barriers;
    if lives != [] {
      var before := lives[..|lives| - 1];
      assert forall i | 0 < i < |before| :: before[..i] == lives[..i];
      HarmlessDeaths(g, header, before);
    }
  }

  /** A chain can be continued by any life whatever, exactly if nothing is left to run or its last life died
      before the line end of neither a round record nor the first header. */
  lemma ContinuableIff(g: Graph, header: Record, lives: seq<Life>)
    requires HeaderOf(g, header) && lives != [] && (forall l | l in lives :: LeavesTrace(l)) && Safe(g, header, lives)
    ensures var f := FileAfter(g, header, lives);
      (forall l | LeavesTrace(l) :: Faithful(g, header, lives + [l])) <==>
      LastLive(g, header, lives).frontier == [] || (!HeaderUnended(f) && !RoundUnended(f))
  {
    hide FileAfter, LeavesTrace, LastLive, RoundUnended, HeaderUnended, Faithful, Safe, SafeLife, FileMatches;
    var f := FileAfter(g, header, lives);
    var stale := ChainContinues(g, header, lives);
    forall l | LeavesTrace(l) ensures Faithful(g, header, lives + [l]) <==> SafeLife(g, header, f, false, l) {
      OneMoreLife(g, header, lives, l);
    }
    ResumedStart(g, header, f, LastLive(g, header, lives), stale);
    forall l ensures !HeaderUnended(f) && !RoundUnended(f) ==> SafeLife(g, header, f, false, l) {
      SafeWhenEnded(g, header, f, l);
    }
    forall l | LastLive(g, header, lives).frontier == [] ensures SafeLife(g, header, f, false, l) {
      SafeWhenDone(g, header, f, l);
    }
    var idle := Life(lives[0].env, 1, AfterLineEnd);
    IdleLife(g, header, f, idle);
  }

  lemma OneMoreLife(g: Graph, header: Record, lives: seq<Life>, l: Life)
    requires HeaderOf(g, header) && lives != [] && (forall x | x in lives :: LeavesTrace(x)) && LeavesTrace(l)
    requires Safe(g, header, lives)
    ensures Faithful(g, header, lives + [l]) <==> SafeLife(g, header, FileAfter(g, header, lives), false, l)
  {
    hide Faithful, LeavesTrace, SafeLife, FileAfter;
    assert (lives + [l])[..|lives|] == lives;
    FaithfulStep(g, header, lives + [l]);
  }

  lemma SafeWhenEnded(g: Graph, header: Record, f: JournalFile, l: Life)
    requires header.Header? && g.entry in g.nodes
    ensures !HeaderUnended(f) && !RoundUnended(f) ==> SafeLife(g, header, f, false, l)
  {
  }

  lemma SafeWhenDone(g: Graph, header: Record, f: JournalFile, l: Life)
    requires header.Header? && g.entry in g.nodes
    ensures !Starts(header, f, false) ==> SafeLife(g, header, f, false, l)
  {
  }

  /** A life that dies right after its header reports no barrier. */
  lemma IdleLife(g: Graph, header: Record, f: JournalFile, l: Life)
    requires header.Header? && g.entry in g.nodes && l.written == 1
    ensures Starts(header, f, false) && (HeaderUnended(f) || RoundUnended(f)) ==> !SafeLife(g, header, f, false, l)
    ensures LeavesTrace(l)
  {
    hide LifeStart, RunFrom, Starts, RoundUnended, HeaderUnended;
    NoBarrierYet(Seen(g, l.env, LifeStart(g, header, f, false), 0));
  }

  // ----- The execution count over a chain -----

  /** The node executions of all rounds that some life brought to a reported barrier. */
  ghost function CompletedExecutions(g: Graph, header: Record, lives: seq<Life>): int
    requires header.Header? && g.entry in g.nodes
  {
    if lives == [] then 0
    else
      var start, j := LastStart(g, header, lives), LastBarriers(g, header, lives);
      var live := AfterBarriers(g, lives[|lives| - 1].env, start, j);
      CompletedExecutions(g, header, lives[..|lives| - 1]) +
      if j > 0 && live.Some? then live.value.nodeExecutions - start.nodeExecutions else 0
  }

  /** The stale records that lives found in their files and left behind by getting past the round. */
  ghost function StaleExecutions(g: Graph, header: Record, lives: seq<Life>): int
    requires header.Header? && g.entry in g.nodes
  {
    if lives == [] then 0
    else
      StaleExecutions(g, header, lives[..|lives| - 1]) +
      if LastBarriers(g, header, lives) > 0
      then StaleIn(FileBefore(g, header, lives), header, LastLive(g, header, lives[..|lives| - 1]).round) else 0
  }

  lemma {:induction false} ChainCounts(g: Graph, header: Record, lives: seq<Life>)
    requires HeaderOf(g, header) && (forall l | l in lives :: LeavesTrace(l)) && Safe(g, header, lives)
    ensures RecordedUpTo(FileAfter(g, header, lives), LastLive(g, header, lives).round) ==
            CompletedExecutions(g, header, lives) + StaleExecutions(g, header, lives)
  {
    hide FileMatches, LifeStart, LifeWrites, NextCheckpoint, AfterBarriers, LeavesTrace, RecordedUpTo, Barriers, StaleIn, SafeLife;
    if lives == [] {
      NothingRecorded();
    } else {
      ChainCounts(g, header, lives[..|lives| - 1]);
      var stale := ChainContinues(g, header, lives);
    }
  }

  lemma NothingRecorded()
    ensures RecordedUpTo(EMPTY_FILE, 0) == 0
  {
    assert Readable([]) == [];
  }

  /** Over any safe chain of lives, the loaded execution count is the number of executions of completed rounds plus
      all the stale records that lives got past. So it is exact if and only if no life ever got past any. */
  lemma ChainCountIsOffByStale(g: Graph, header: Record, lives: seq<Life>)
    requires HeaderOf(g, header) && lives != [] && (forall l | l in lives :: LeavesTrace(l)) && Safe(g, header, lives)
    ensures var loaded := LoadFile(FileAfter(g, header, lives), header);
      loaded.Loaded? &&
      loaded.resume.completedNodeExecutions ==
        CompletedExecutions(g, header, lives) + StaleExecutions(g, header, lives)
  {
    hide FileMatches, FileAfter, LastLive, Load, CompletedExecutions, StaleExecutions, Safe, LeavesTrace;
    var stale := ChainContinues(g, header, lives);
    Loads(FileAfter(g, header, lives), header, LastLive(g, header, lives), stale);
    ChainCounts(g, header, lives);
  }
}
