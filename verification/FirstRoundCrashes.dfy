/** Crashes in the first round of a run: what they do to the execution count, to the first barrier and to
    the header. */
module FirstRoundCrashes {
  import opened Values
  import opened Graphs
  import opened Claims
  import opened Frontier
  import opened Runs
  import opened Topological
  import opened Journal
  import opened CrashReplay
  import opened CrashChains
  import opened ZeroRoundResume

  /** A first turn from the entry: one node record, then the round record. */
  lemma FirstTurn(g: Graph, env: Env, r: Run)
    requires Built(g) && DirectOnly(g) && Calm(env) && env.maxRounds >= 1
    requires r.frontier == [g.entry] && r.iterations == 0 && r.nodeExecutions == 0 && r.events == []
    ensures Advance(g, env, r).Barrier?
    ensures var next := Advance(g, env, r).run;
            next.nodeExecutions == 1 && |next.events| == 2 &&
            next.events[0].NodeDone? && next.events[0].execution.round == 1 && next.events[1].RoundDone?
    ensures Advance(g, env, r).run.events <= RunFrom(g, env, r).events
    ensures AfterBarriers(g, env, r, 1) == Some(Advance(g, env, r).run)
  {
    hide Advance, RoundAbsorption, DirectOnly, Calm, Built, NextBook, ReadyNodes, Totals, BySourceRecord;
    CalmTurn(g, env, r);
    TurnEffect(g, env, r);
    TurnRecords(g, env, r);
    EventsGrow(g, env, Advance(g, env, r).run);
    assert AfterBarriers(g, env, r, 0) == Some(r);
  }

  lemma FreshFields(g: Graph)
    requires Built(g)
    ensures g.entry in g.nodes
    ensures var r := FreshRun(g);
            r.frontier == [g.entry] && r.iterations == 0 && r.nodeExecutions == 0 && r.events == []
    ensures var r := ZeroRun(g);
            r.frontier == [g.entry] && r.iterations == 0 && r.nodeExecutions == 0 && r.events == []
  {
    hide StaticClaims;
  }

  /** The first records of a run that starts at the entry. */
  lemma FirstRecords(g: Graph, env: Env, r: Run)
    requires Built(g) && DirectOnly(g) && Calm(env) && env.maxRounds >= 1
    requires r.frontier == [g.entry] && r.iterations == 0 && r.nodeExecutions == 0 && r.events == []
    ensures var events := RunFrom(g, env, r).events;
            |events| >= 2 && events[0].NodeDone? && events[0].execution.round == 1 && events[1].RoundDone? &&
            Body(g, env, r, 1) == [NodeRecord(events[0].execution)] &&
            Body(g, env, r, 2) == [NodeRecord(events[0].execution), RecordOf(events[1])]
    ensures Seen(g, env, r, 0) == [] && BarriersIn([]) == 0
    ensures BarriersIn(Seen(g, env, r, 1)) == 0 && BarriersIn(Seen(g, env, r, 2)) == 1
  {
    hide Advance, RunFrom, DirectOnly, Calm, Built;
    FirstTurn(g, env, r);
    var events := RunFrom(g, env, r).events;
    var one, two := events[..1], events[..2];
    assert one == [events[0]] && two == [events[0], events[1]] && two[..1] == one && one[..0] == [];
  }

  // ----- A count of two for one execution -----

  /** The first two lives of a run that dies right after its first node, and is resumed for one round. */
  function CrashedOnce(env: Env): seq<Life> {
    [Life(env, 2, AfterLineEnd), Life(env, 3, AfterLineEnd)]
  }

  /** The first life leaves its header and one node record. */
  lemma LifeOne(g: Graph, env: Env, header: Record)
    requires Built(g) && DirectOnly(g) && Calm(env) && env.maxRounds >= 1 && HeaderOf(g, header)
    ensures var lives, events := [Life(env, 2, AfterLineEnd)], RunFrom(g, env, FreshRun(g)).events;
            |events| >= 2 && events[0].NodeDone? && events[0].execution.round == 1 &&
            LastBarriers(g, header, lives) == 0 && LastLive(g, header, lives) == StartCheckpoint(header) &&
            !FileAfter(g, header, lives).open &&
            Readable(FileAfter(g, header, lives).lines) == [header] + [NodeRecord(events[0].execution)]
  {
    hide Advance, RunFrom, DirectOnly, Calm, Built, StaticClaims, StartCheckpoint, Readable, Body, Seen;
    var lives := [Life(env, 2, AfterLineEnd)];
    FreshFields(g);
    FirstRecords(g, env, FreshRun(g));
    assert lives[..0] == [];
    HeaderOnly(header);
    var body := Body(g, env, FreshRun(g), 1);
    WrittenFile(EMPTY_FILE, header, body);
    AppendAllReadable(Append(EMPTY_FILE, header), body);
  }

  /** The second life starts over, finds one stale record and reports one barrier. */
  lemma LifeTwo(g: Graph, env: Env, header: Record)
    requires Built(g) && DirectOnly(g) && Calm(env) && env.maxRounds >= 1 && HeaderOf(g, header)
    ensures LastStart(g, header, CrashedOnce(env)) == ZeroRun(g) && LastBarriers(g, header, CrashedOnce(env)) == 1
    ensures StaleIn(FileBefore(g, header, CrashedOnce(env)), header, 0) == 1
  {
    hide Advance, RunFrom, DirectOnly, Calm, Built, StaticClaims, StartCheckpoint, Readable, Body, Seen, Load, FileAfter,
      LastLive, BarriersIn;
    var lives := CrashedOnce(env);
    assert lives[..1] == [Life(env, 2, AfterLineEnd)];
    FreshFields(g);
    LifeOne(g, env, header);
    var events := RunFrom(g, env, FreshRun(g)).events;
    OneStaleRecord(FileAfter(g, header, lives[..1]), header, events[0].execution);
    assert events[..1] == [events[0]];
    OneNodeRecord(events[0].execution);
    CrashBeforeBarrier(g, env, header, events[..1]);
    FirstRecords(g, env, ZeroRun(g));
  }

  lemma OneNodeRecord(e: Execution)
    ensures RecordsOf([NodeDone(e)]) == [NodeRecord(e)] && BarriersIn([NodeDone(e)]) == 0
  {
    assert [NodeDone(e)][..0] == [];
  }

  lemma OneStaleRecord(f: JournalFile, header: Record, e: Execution)
    requires header.Header? && e.round == 1 && FileOk(f) && !f.open && Readable(f.lines) == [header] + [NodeRecord(e)]
    ensures StaleIn(f, header, 0) == 1
  {
    hide ExecutionsUpTo, Readable;
    ReadableAfterWrite(f, header);
    forall k: nat | k <= 1 ensures ExecutionsUpTo(Readable(Append(f, header).lines), k) == if k == 1 then [e] else [] {
      NothingExecuted(header);
      ExecutionsAdd([header], NodeRecord(e), k);
      ExecutionsAdd([header] + [NodeRecord(e)], header, k);
    }
  }

  /** What is loaded then: one round, one completed execution, but a count of two. */
  lemma FirstCrashMiscounts(g: Graph, env: Env, header: Record)
    requires Built(g) && DirectOnly(g) && Calm(env) && env.maxRounds >= 1 && HeaderOf(g, header)
    ensures CompletedExecutions(g, header, CrashedOnce(env)) == 1 && StaleExecutions(g, header, CrashedOnce(env)) == 1
    ensures var loaded := LoadFile(FileAfter(g, header, CrashedOnce(env)), header);
            loaded.Loaded? && loaded.resume.completedRounds == 1 && loaded.resume.completedNodeExecutions == 2
  {
    hide Load, Advance, RunFrom, Readable, Append, DirectOnly, Calm, Built, ZeroRun, FreshRun, CheckpointOf, Totals,
      BySourceRecord, ExecutionsUpTo, FileAfter, Barriers;
    var lives := CrashedOnce(env);
    assert lives[..1] == [Life(env, 2, AfterLineEnd)] && lives[..1][..0] == [];
    FreshFields(g);
    LifeOne(g, env, header);
    LifeTwo(g, env, header);
    FirstTurn(g, env, ZeroRun(g));
    var first := lives[..1];
    assert CompletedExecutions(g, header, first[..0]) == 0 && StaleExecutions(g, header, first[..0]) == 0;
    assert CompletedExecutions(g, header, first) == 0 && StaleExecutions(g, header, first) == 0;
    HarmlessDeaths(g, header, lives);
    ChainCountIsOffByStale(g, header, lives);
    var stale := ChainContinues(g, header, lives);
    Loads(FileAfter(g, header, lives), header, LastLive(g, header, lives), stale);
  }

  lemma ShortcutMiscounts()
    ensures var header := Header("", A, map[]);
            var loaded := LoadFile(FileAfter(SHORTCUT, header, CrashedOnce(CALM_WORLD)), header);
            loaded.Loaded? && loaded.resume.completedRounds == 1 && loaded.resume.completedNodeExecutions == 2
  {
    ShortcutFacts();
    hide LoadFile, FileAfter, DirectOnly, Built;
    FirstCrashMiscounts(SHORTCUT, CALM_WORLD, Header("", A, map[]));
  }

  // ----- A line end that costs a barrier -----

  /** One life that writes its header, the record of the entry node and the round record, but not the last
      line end. */
  function CutAtBarrier(env: Env): seq<Life> {
    [Life(env, 3, BeforeLineEnd)]
  }

  /** A life that dies right after its header. */
  function Idle(env: Env): Life {
    Life(env, 1, AfterLineEnd)
  }

  lemma CutFile(g: Graph, env: Env, header: Record)
    requires Built(g) && DirectOnly(g) && Calm(env) && env.maxRounds >= 1 && HeaderOf(g, header)
    ensures var f, events := FileAfter(g, header, CutAtBarrier(env)), RunFrom(g, env, FreshRun(g)).events;
            |events| >= 2 && events[0].NodeDone? && events[0].execution.round == 1 && LastBarriers(g, header, CutAtBarrier(env)) == 1 &&
            FileOk(f) && f.open && RoundUnended(f) && Readable(Ended(f)) == [header] + [NodeRecord(events[0].execution)]
  {
    hide Advance, RunFrom, DirectOnly, Calm, Built, StaticClaims, Readable, Body, Seen;
    var lives := CutAtBarrier(env);
    FreshFields(g);
    FirstRecords(g, env, FreshRun(g));
    assert lives[..0] == [];
    HeaderOnly(header);
    var body, events := Body(g, env, FreshRun(g), 2), RunFrom(g, env, FreshRun(g)).events;
    WrittenFile(EMPTY_FILE, header, body);
    UnendedFile(EMPTY_FILE, header, body);
    assert body[..1] == [NodeRecord(events[0].execution)];
  }

  /** The completed barrier is loaded at first; once the resumed life has appended its header, the same
      journal is loaded as a run that never reached a barrier. */
  lemma LineEndLosesBarrier(g: Graph, env: Env, header: Record)
    requires Built(g) && DirectOnly(g) && Calm(env) && env.maxRounds >= 1 && HeaderOf(g, header)
    requires LastLive(g, header, CutAtBarrier(env)).frontier != []
    ensures var first := LoadFile(FileAfter(g, header, CutAtBarrier(env)), header);
            first.Loaded? && first.resume.completedRounds == 1 && first.resume.frontier != []
    ensures var later := LoadFile(FileAfter(g, header, CutAtBarrier(env) + [Idle(env)]), header);
            later.Loaded? && later.resume.completedRounds == 0 && later.resume.frontier == [g.entry]
  {
    hide Load, Advance, RunFrom, Readable, Append, DirectOnly, Calm, Built, FreshRun, CheckpointOf, FileAfter, Barriers, LifeStart,
      Matches, LossIsKnown;
    var lives := CutAtBarrier(env);
    var f := FileAfter(g, header, lives);
    CutFile(g, env, header);
    assert lives[..0] == [];
    var stale := ChainContinues(g, header, lives);
    Loads(f, header, LastLive(g, header, lives), stale);
    NextFile(g, header, lives, Idle(env));
    IdleFile(g, env, header, f);
    BarrierlessLoad(header, RunFrom(g, env, FreshRun(g)).events[0].execution);
  }

  lemma ShortcutLosesBarrier()
    ensures var header := Header("", A, map[]);
            var first := LoadFile(FileAfter(SHORTCUT, header, CutAtBarrier(CALM_WORLD)), header);
            var later := LoadFile(FileAfter(SHORTCUT, header, CutAtBarrier(CALM_WORLD) + [Idle(CALM_WORLD)]), header);
            && first.Loaded? && first.resume.completedRounds == 1
            && later.Loaded? && later.resume.completedRounds == 0 && later.resume.frontier == [A]
  {
    hide Advance, Reaches, Level, DirectOnly, Successors, Acyclic, LoadFile, FileAfter, Barriers, Built;
    var header, lives := Header("", A, map[]), CutAtBarrier(CALM_WORLD);
    ShortcutIsSweepable();
    ShortcutFacts();
    EntryLevel(SHORTCUT);
    EdgeRaisesLevel(SHORTCUT, A, B);
    SecondRound(SHORTCUT, CALM_WORLD, B);
    CutFile(SHORTCUT, CALM_WORLD, header);
    assert lives[..0] == [];
    LineEndLosesBarrier(SHORTCUT, CALM_WORLD, header);
  }

  /** A graph with a node past the entry has a second round. */
  lemma SecondRound(g: Graph, env: Env, u: Id)
    requires Sweepable(g) && Calm(env) && u in g.nodes && Level(g, u) >= 1 && env.maxRounds >= 1
    ensures AfterBarriers(g, env, FreshRun(g), 1).Some?
    ensures AfterBarriers(g, env, FreshRun(g), 1).value.frontier != []
  {
    hide Advance, Level, Sweeping, Calm, Sweepable;
    FreshIsDefined(g);
    FreshReaches(g, env, u, 1);
    EveryBarrierSweeps(g, env, 1);
    var r := AfterBarriers(g, env, FreshRun(g), 1).value;
    var m := LevelsBelowOccur(g, u, 1);
    SweepingFrontier(g, r, 1, m);
  }

  lemma NextFile(g: Graph, header: Record, lives: seq<Life>, l: Life)
    requires HeaderOf(g, header) && lives != []
    ensures FileAfter(g, header, lives + [l]) == LifeWrites(g, header, FileAfter(g, header, lives), false, l)
  {
    hide LifeWrites;
    assert (lives + [l])[..|lives|] == lives;
  }

  lemma IdleFile(g: Graph, env: Env, header: Record, f: JournalFile)
    requires HeaderOf(g, header) && FileOk(f) && f.open && Starts(header, f, false)
    ensures Readable(LifeWrites(g, header, f, false, Idle(env)).lines) == Readable(Ended(f))
  {
    hide Readable, RunFrom, Starts, LifeStart;
    ReadableAfterWrite(f, header);
    var body := Body(g, env, LifeStart(g, header, f, false), 0);
    assert body == [];
  }

  lemma BarrierlessLoad(header: Record, e: Execution)
    requires header.Header?
    ensures var loaded := Load([header] + [NodeRecord(e)], header.scriptHash);
            loaded.Loaded? && loaded.resume.completedRounds == 0 && loaded.resume.frontier == [header.entry]
  {
    var records := [header] + [NodeRecord(e)];
    ExecutionsAdd([header], NodeRecord(e), 0);
    ExecutionsAdd([], header, 0);
    assert [] + [header] == [header];
    FirstAppend([header], [NodeRecord(e)], IsResult);
    assert First([header][1..], IsResult) == None && First([NodeRecord(e)][1..], IsResult) == None;
  }

  /** If the first header lacks its line end, the first resume is accepted and every later one is refused. */
  lemma LineEndLosesHeader(g: Graph, env: Env, header: Record)
    requires HeaderOf(g, header)
    ensures LoadFile(FileAfter(g, header, [Life(env, 1, BeforeLineEnd)]), header).Loaded?
    ensures LoadFile(FileAfter(g, header, [Life(env, 1, BeforeLineEnd), Idle(env)]), header) == Refused(NoJournal)
  {
    hide FileAfter, Load, Readable, LifeWrites, Ended, AppendAll;
    var lives := [Life(env, 1, BeforeLineEnd)];
    HeaderCut(g, env, header);
    UnendedHeaderFile(header);
    NextFile(g, header, lives, Idle(env));
    IdleFile(g, env, header, FileAfter(g, header, lives));
    assert lives + [Idle(env)] == [Life(env, 1, BeforeLineEnd), Idle(env)];
    NothingToLoad(header);
  }

  lemma NothingToLoad(header: Record)
    requires header.Header?
    ensures Load([], header.scriptHash) == Refused(NoJournal)
  {
  }

  lemma UnendedHeaderFile(header: Record)
    requires header.Header?
    ensures var f := Unend(Append(EMPTY_FILE, header));
            && FileOk(f) && f.open && Readable(Ended(f)) == [] && Starts(header, f, false)
            && LoadFile(f, header).Loaded?
  {
    hide Load, Matches;
    HeaderOnly(header);
    assert Readable([]) == [];
    var f := Unend(Append(EMPTY_FILE, header));
    assert Ended(f) == [];
    StartMatches(header);
    MatchingLoads([header], header, StartCheckpoint(header), []);
  }

  lemma HeaderCut(g: Graph, env: Env, header: Record)
    requires HeaderOf(g, header)
    ensures FileAfter(g, header, [Life(env, 1, BeforeLineEnd)]) == Unend(Append(EMPTY_FILE, header))
  {
    hide RunFrom, FreshRun, Append;
    var lives := [Life(env, 1, BeforeLineEnd)];
    assert lives[..0] == [];
    assert Body(g, env, FreshRun(g), 0) == [];
  }
}
