# A model of the workflow graph extensions

The repository runs workflow graphs whose nodes are agents, humans, commands and functions. This project models the
parts of it that schedule, record, analyse and supervise such runs, and proves what they promise.

- **The superstep executor** (`extensions/graph-executor.ts`): forward reachability, static claims, edge resolution, the
  next frontier with its wave reset, and the round loop. Modules `Graphs`, `Reachability`, `Claims`, `EdgeResolution`,
  `Frontier`, `Runs` (what a run is, as functions) and `Executor` (the loop itself, proved to compute those functions).
  `RoundMeaning` says what a round and the end of a run amount to, in terms of the nodes' outcomes alone. The theorems
  about whole runs are in `WaveReset`, `ClaimCounters`, `NestedResets`, `Stranding`, `Sequential`, `Topological` and
  `Confluence`.
- **The journal and resume** (`extensions/graph-journal.ts`): `Journal`, `CrashReplay` (one crash after any record),
  `CrashChains` (any number of crashes, at any point of any write), `ResumeEquivalence` and `ChainEquivalence` (a resumed
  run against the one that never crashed), `ZeroRoundResume`, `FirstRoundCrashes` and `LegacyResume` (journals without
  per-source claims).
- **What surrounds the executor**: the script analysis that recovers conditional targets (`Scripts` is the small language
  with its evaluator, `EdgeTargets` the analysis and its soundness, `ExtractionMeaning` what it lists, by paths through the
  syntax tree), and the builder with its validation (`GraphDsl`).
- **The schema wrapper** (`extensions/structured-output.ts`): `StructuredOutput`, and `SchemaPaths` for which texts it
  rewrites, by paths through subschemas.
- **The bounded readers and the truncation** (`extensions/child-protocol.ts`, `extensions/types.ts`): `ChildProtocol`,
  `StreamLines` (the lines by position), `Truncation`, `Utf8Length`.
- **The request broker and the foreground controller** (`extensions/request-broker.ts`,
  `extensions/workflow-controller.ts`): `Broker`, `BrokerAnswers` (who gets which answer) and
  `BrokerObject`, `WorkflowControl`, `Reminders`, `ControlMeaning` (which reports and questions are handed out, which
  requests are held and cancelled) and `ControllerObjects`.

Objects that the source mutates are classes here (`PendingBook`, `SuperstepRun`, `GraphJournal`, `Extraction`,
`GraphBuilder`, `BoundedLineReader`, `BoundedByteTail`, `RequestBroker`, `WorkflowController`, `SupervisorReminders`);
each method says what it computes in terms of a function of the old state, and the theorems are about those functions.

Node outcomes, edge conditions, the abort signal, the clock, answers to requests and the words of a validator's
vocabulary are arbitrary functions or arbitrary inputs: every theorem holds for all of them.

Where the code and the expectation part ways, the exact condition is proved:

- **The claim counters do not always follow the simple rule** "a claim is pending exactly while its source has not run".
  A round that resets two targets, one strictly upstream of the other, forces a target ready before its claimer re-runs
  (`NestedResets.RuleFailsUnderNestedResets` gives such a graph and run). A barrier keeps the rule if and only if it
  forces no target with a claimer that is reset too (`ClaimCounters.StepKeepsRuleIff`, `ClaimCounters.CounterRuleIff`).
- **A completed round can be lost.** A record that lacks its line end can be read, but the next append glues onto it and
  neither can be read any more. If a process dies between the text and the line end of a round record, the resumed run's
  own header costs that round; if of the first header, every later resume is refused (`FirstRoundCrashes.LineEndLosesBarrier`,
  `FirstRoundCrashes.LineEndLosesHeader`, on a concrete graph `FirstRoundCrashes.ShortcutLosesBarrier`). Every load along a
  chain of lives returns the last live barrier if and only if the first header was written, and no life went on from a
  file without that header's line end, nor, without writing a round record of its own, from one without a round
  record's (`CrashChains.ChainReplays`). Node records, results and the headers of resumed runs are harmless
  (`CrashChains.ContinuableIff`, `CrashChains.HarmlessDeaths`).
- **The replayed execution count is too high after a crash inside a round.** Over any such chain of lives it is the number
  of executions of completed rounds plus the stale records that lives got past (`CrashChains.ChainCountIsOffByStale`;
  `FirstRoundCrashes.FirstCrashMiscounts` is such a chain). State, frontier, claims and round number stay exact, and the
  run ends like one that was never interrupted (`ChainEquivalence.ChainEqualsNoCrash`).
- **A resume before any completed round starts over without claims, and keeps none.** A node then runs as soon as anything
  routes to it, and may run twice (`ZeroRoundResume.NodeRunsTwice`). On validated acyclic graphs of direct edges with no
  failing node it has the barriers and the end of the fresh run if and only if every edge within the round cap goes from
  one level to the next (`ZeroRoundResume.ZeroRoundResumeIff`).
- **A flat claim total of an old journal is never released.** A node that such a journal says is waited for, and that has
  neither run nor is in the resumed frontier, never runs, and the run is not reported as stranded either
  (`LegacyResume.LegacyNeverRuns`).
- **Some edge calls escape the target analysis.** With a computed source id a call is attributed to nobody, so that an
  entry can stay analysable without listing its route (`EdgeTargets.ComputedSourceEscapes`). An analysable entry covers
  all conditional edges of its source if and only if it already lists the declared routes of those that no attributed
  inline call made (`EdgeTargets.EntryCoversIff`), and always does in a script whose edge calls all name their source
  literally (`EdgeTargets.LiteralSourcesCover`). For an unanalysable source the fallback covers what is reached
  through its direct edges, and is empty exactly when none leads to another node (`Claims.FallbackNeedsDirectEdge`).
- **The byte tail can depend on the chunks.** All ways of cutting a stream into chunks give the same tail if and only if no
  place near its end has max + 1 continuation bytes around it (`ChildProtocol.ChunksMatterIff`). UTF-8 text, even
  if it ends inside a character, has no such place for limits of three bytes or more (`ChildProtocol.Utf8HasNoBadCut`).
- **A local pointer outside the places the wrapper's rewriting knows keeps its text**, and is read against the wrapper from
  then on. It still names the image of its target if and only if it dangles before and after, or happens to name a
  member that document and wrapper have alike: `/type`, `/additionalProperties`, `/required`, `/required/0`, or a place
  below `/properties/value` with equal contents (`StructuredOutput.UnknownKeywordIsLeftBehind`). So it may dangle
  (`StructuredOutput.LeftBehindDangles`) or, like `#`, which never keeps its target, name the wrapper instead of the
  document (`StructuredOutput.LeftBehindRenames`). A text is rewritten if and only if it is a local reference of the
  document's own resource (`StructuredOutput.RewrittenIff`).
- **Asking the broker under an id that is still pending discards the earlier asker's promise**
  (`Broker.ReuseLosesPromise`). No promise is discarded in a run if and only if no accepted ask takes an id that is
  pending, which its caller can ask beforehand (`Broker.NeverDisplacedIff`). An id that is asked again before the next
  reminder tick also inherits the reminders counted under it (`Reminders.ReaskInherits`).

## Model

| member | source | states |
|---|---|---|
| Reachability.ForwardReachFrom | extensions/graph-executor.ts:340-359 | The stack search of one start node terminates and finds exactly the nodes on some path from it, following direct edges and analysable conditional targets. |
| Reachability.ComputeForwardReachable | extensions/graph-executor.ts:337-363 | For every node, the map holds exactly the reflexive-transitive closure of its known successors. |
| Reachability.SearchComplete | extensions/graph-executor.ts:343-358 | When the stack is empty, the search's invariant leaves nothing reachable outside the visited set and nothing unreachable inside. |
| Claims.PrimeFallbackReach | extensions/graph-executor.ts:307-326 | What an unreadable condition may select is exactly what its source reaches, itself excluded. |
| Claims.ConditionalTargetsOf | extensions/graph-executor.ts:289-296 | Lists, without repeats, the readable targets of a source or else its fallback reach. |
| Claims.ComputeStaticClaims | extensions/graph-executor.ts:213-258 | The nested loops compute, for every node and source, the declared claim count: one per edge that lists the node, none against the flow. |
| Claims.StaticClaimIff | extensions/graph-executor.ts:227-255 | A source has a positive static claim on a node if and only if one of its edges could select the node and the source is not downstream of it. |
| Claims.ClaimPointsDownstream | extensions/graph-executor.ts:229-253 | A claim of s on n means n is reachable from s and s is not reachable from n, analysable or not: no claim lies inside a cycle. |
| Claims.ClaimDecreasesDepth | extensions/graph-executor.ts:229-253 | Every claim strictly decreases a rank: the claim graph is well-founded. |
| Claims.ClaimsAcyclic | extensions/graph-executor.ts:213-258 | No chain of claims visits a node twice, on any graph. |
| Claims.ClaimsAreCounted | extensions/graph-executor.ts:213-258 | The exact count: none against the flow, else one per direct edge to the node and, per conditional edge, one for every time it lists the node. |
| Claims.FallbackNeedsDirectEdge | extensions/graph-executor.ts:289-326 | The fallback of an unreadable condition is empty exactly when no direct edge leads from its source to another node. |
| EdgeResolution.ResolveEdges | extensions/graph-executor.ts:374-427 | The loop over the edges yields the resolution defined edge by edge, with the first fault reported. |
| EdgeResolution.ResolveMeaning | extensions/graph-executor.ts:374-427 | Resolution fails exactly when some edge throws or names no declared node; otherwise it selects exactly the routed nodes and releases exactly those plus every candidate. |
| EdgeResolution.ReleasesEveryClaim | extensions/graph-executor.ts:393-423 | A source that resolved without fault has released every claim it ever made. |
| EdgeResolution.FaultIsFirst | extensions/graph-executor.ts:374-427 | The reported fault is that of the first edge that cannot be followed: a throwing condition, an answer that is no node name, or the name of no declared node. |
| EdgeResolution.SelectedInOrder | extensions/graph-executor.ts:374-427 | The selected nodes stand in the order in which an edge first routes to them. |
| EdgeResolution.SelectedAreNodes | extensions/graph-executor.ts:407-423 | In a built graph everything selected is a declared node. |
| Frontier.TotalClaims | extensions/graph-executor.ts:265-270 | The loop sums the counts of all sources, in whatever order it visits them. |
| Frontier.TotalZeroIffQuiet | extensions/graph-executor.ts:540-543 | A flat total of zero means that no source holds a claim. |
| Frontier.Partition | extensions/graph-executor.ts:444-456 | Splits the fired edges into reset targets (routed to, already run) and the rest. |
| Frontier.UnionOfReach | extensions/graph-executor.ts:458-464 | The reset set is everything downstream of a reset target. |
| Frontier.PendingBook.RestoreNode | extensions/graph-executor.ts:486-496 | Restores the static count of the sources inside the reset set and keeps all others. |
| Frontier.PendingBook.RestoreAll | extensions/graph-executor.ts:486-499 | Does so for every reset node, and forgets that they ran and were selected. |
| Frontier.PendingBook.ForceTargets | extensions/graph-executor.ts:500-506 | Every reset target waits for nobody, is selected and counts as not run; nothing else changes. |
| Frontier.PendingBook.ReleaseFired | extensions/graph-executor.ts:512-531 | A fired edge releases all its source holds on the target, unless the source re-runs or the target was reset; routed ones are selected. |
| Frontier.StepsAreSettled | extensions/graph-executor.ts:486-531 | The three update loops together equal one rule per claim, independent of the order of the fired edges. |
| Frontier.PendingBook.ComputeNextFrontier | extensions/graph-executor.ts:435-545 | The method leaves exactly the declared next book, and returns the ready nodes in declaration order. |
| Frontier.ReadyNodes | extensions/graph-executor.ts:533-545 | Contains exactly the nodes nothing claims, that were routed to and have not run in this wave, each once. |
| Executor.RunConcurrently | extensions/graph-executor.ts:703-729 | Whatever order the nodes finish in, the slots hold the outcomes on the state of the previous barrier, in frontier order. |
| Executor.SuperstepRun.constructor | extensions/graph-executor.ts:596-664 | A run starts from the fresh book (entry selected, waiting for nobody) or from what a resume carries. |
| Executor.SuperstepRun.WriteAndRoute | extensions/graph-executor.ts:742-850 | One result is written before its edges are resolved; every outcome kind yields its record, fired edges and failure. |
| Executor.SuperstepRun.AbsorbResults | extensions/graph-executor.ts:731-852 | The loop over the results accumulates state, history, events and fired edges result by result; a failure does not stop the others from being recorded. |
| Executor.SuperstepRun.RunRound | extensions/graph-executor.ts:698-884 | One turn of the loop is one step of the declared run: it breaks after a failing round or reaches a barrier. |
| Executor.SuperstepRun.FinishRound | extensions/graph-executor.ts:856-884 | The barrier settles the edges, aborts when the frontier is empty with a selected node unrun, and reports the round. |
| Executor.SuperstepRun.RunToEnd | extensions/graph-executor.ts:682-888 | The while loop computes the declared run: abort signal, round cap and failing rounds included. |
| Executor.ToRecord | extensions/graph-executor.ts:549-553 | The flat record holds every node's claim total. |
| Executor.RunSuperstepGraph | extensions/graph-executor.ts:575-888 | Rejects a bad cap or reserved node ids exactly when they occur, and otherwise computes the declared run of the graph. |
| RoundMeaning.AbsorbMeaning | extensions/graph-executor.ts:735-862 | One result: the state and final result it leaves, its record with status and routing, its failure if any, and exactly the edges it fires. |
| RoundMeaning.TurnMeaning | extensions/graph-executor.ts:697-885 | A round reaches its barrier exactly if no node fails, else the run is aborted with the failure of the last node that failed; all results are written, recorded and reported, and the final result is that of the last node that delivered one. |
| RoundMeaning.FinalResultIsLast | extensions/graph-executor.ts:768 | At every barrier of a fresh or resumed run the final result is the result of the last execution. |
| RoundMeaning.HowRunsEnd | extensions/graph-executor.ts:682-888 | Every fresh run ends completed, aborted or capped exactly as its last loop head and last round say, with the error that names why and the final result that follows. |
| Runs.RunEnds | extensions/graph-executor.ts:682-888 | Every run ends with the loop turn that follows its last barrier. |
| Runs.AbsorbAllState | extensions/graph-executor.ts:764-768 | Results land under their own keys and nowhere else. |
| Runs.FiredCoversClaims | extensions/graph-executor.ts:794-831 | Unless the round fails, each of its nodes fired at everything it claims. |
| Runs.RoundFacts | extensions/graph-executor.ts:731-852 | Fired edges come from this round's nodes, cover their claims and select only declared nodes. |
| WaveReset.ResetClosed | extensions/graph-executor.ts:458-464 | The reset set is closed under forward reach. |
| WaveReset.ClaimStaysInReset | extensions/graph-executor.ts:490-495 | A claim of a source that re-runs always lies on a node that is reset with it. |
| WaveReset.StepExecutedQuiet | extensions/graph-executor.ts:486-543 | After any barrier, a node that has run in this wave waits for nobody. |
| WaveReset.StepExecutedSource | extensions/graph-executor.ts:486-543 | After any barrier, a source that has run in this wave holds no pending claim anywhere. |
| WaveReset.StepKeepsBookInv | extensions/graph-executor.ts:435-545 | Every barrier, with or without resets, keeps the claim invariants. |
| WaveReset.EveryBarrierKeepsInv | extensions/graph-executor.ts:682-885 | The claim invariants hold at every barrier of every fresh run. |
| WaveReset.OutsideClaimsNeverRise | extensions/graph-executor.ts:470-473 | A reset never re-arms a claim whose source does not re-run. |
| WaveReset.ResetTargetsAreNext | extensions/graph-executor.ts:500-506 | Every reset target is in the next frontier. |
| WaveReset.ForcingMattersIff | extensions/graph-executor.ts:500-506 | The forced clearing of a target changes its claims if and only if one of its claimers is reset too. |
| WaveReset.SingleTargetNeedsNoForcing | extensions/graph-executor.ts:500-506 | With one reset target no claimer of it is reset, so the forced clearing changes nothing. |
| WaveReset.ForcingNeedsUpstreamTarget | extensions/graph-executor.ts:500-506 | Where it matters, another reset target lies strictly upstream. |
| ClaimCounters.StepKeepsRuleIff | extensions/graph-executor.ts:435-545 | A barrier keeps "pending exactly while the claimer has not run" if and only if it forces no target ahead of a reset claimer. |
| ClaimCounters.CounterRuleIff | extensions/graph-executor.ts:682-885 | In every fresh run the counters obey the rule at all barriers up to k if and only if no earlier round forced a target early. |
| ClaimCounters.ReadyIffRule | extensions/graph-executor.ts:533-543 | Under the rule, ready means routed to, not run in this wave, and all claimers run. |
| ClaimCounters.FrontierByRule | extensions/graph-executor.ts:682-885 | In every fresh run without nested resets, the rule holds at every barrier and the frontier is exactly the nodes ready by it. |
| NestedResets.RuleFailsUnderNestedResets | extensions/graph-executor.ts:500-506 | A concrete five-node graph and run whose third round resets nested targets and breaks the rule. |
| Stranding.PendingChainsAreAcyclic | extensions/graph-executor.ts:533-543 | No chain of pending claims revisits a node, and everything waited for has not run: there is no circular wait. |
| Stranding.StrandedBehindSkipped | extensions/graph-executor.ts:866-876 | With nothing ready, following pending claims back from a stranded node reaches a predecessor that nothing routed to. |
| Stranding.CompletedIff | extensions/graph-executor.ts:866-888 | A fresh run completes exactly when it ends with an empty frontier and everything selected has run. |
| Stranding.DeadlockIsSkippedBranch | extensions/graph-executor.ts:866-876 | In every fresh run, an empty frontier with a stranded node has a skipped branch behind it, and the run is reported aborted. |
| Sequential.ExecutorFollowsWalk | extensions/graph-executor.ts:682-885 | If every node has one outgoing edge, each barrier has at most one ready node, selected is executed plus that node, and state and path are those of the plain walk. |
| Sequential.LeavesWalkIff | extensions/graph-executor.ts:533-545 | Standing at a node, the executor goes on along the walk if and only if it is the entry or the walk has visited every static claimer of it in this wave; otherwise the run is aborted there. |
| Sequential.WaveIsWalked | extensions/graph-executor.ts:484-505 | What has run in the executor's wave is what the walk has visited since its last returns. |
| Sequential.CompletedRunIsTheWalk | extensions/graph-executor.ts:682-888 | A completed run of such a graph is the plain walk all the way to END, loops through wave resets included. |
| Topological.LevelIsLongest | extensions/graph-executor.ts:648-664 | The level of a node is the length of the longest path from the entry, which exists. |
| Topological.EdgeRaisesLevel | extensions/graph-executor.ts:229-239 | On a validated acyclic graph of direct edges every edge goes to a strictly higher level. |
| Topological.SweepReady | extensions/graph-executor.ts:533-543 | After k rounds the ready nodes are exactly those at level k. |
| Topological.EveryBarrierSweeps | extensions/graph-executor.ts:682-885 | Every barrier of every fresh run, failures elsewhere or not, is a stage of the level-by-level sweep. |
| Topological.SweepTheorem | extensions/graph-executor.ts:682-888 | With no failing node and a cap of at least 1 + the longest path, the run completes in exactly that many rounds, each node runs once, in round 1 + its level; with a smaller cap the cap stops it. Duplicate edges are allowed. |
| Confluence.FinishingOrderIrrelevant | extensions/graph-executor.ts:703-729 | Every order in which a round's nodes can finish leaves the same outcomes, each computed on the previous barrier's state. |
| Confluence.FiredOrderIrrelevant | extensions/graph-executor.ts:435-545 | The next book and frontier, which the method computes edge by edge, depend on the set of fired edges only: permuting or repeating them changes nothing. |
| Confluence.RoundIsolation | extensions/graph-executor.ts:698-852 | A round reads only the previous barrier's state, changes only its own nodes' keys, and records one execution per node with consecutive steps. |
| Journal.ReadableAfterWrite | extensions/graph-journal.ts:374-398 | A torn record is lost alone; a record without its line end can be read until the next append, which costs both; whatever has its line end stays readable. |
| Journal.ReadGraphJournal | extensions/graph-journal.ts:374-398 | The reading loop returns exactly the lines that parse, in order. |
| Journal.GraphJournal.RecordNode | extensions/graph-journal.ts:249-269 | Appends one node record, counts it and adds its tokens to the total. |
| Journal.GraphJournal.RecordRoundComplete | extensions/graph-journal.ts:271-287 | Appends one round record and nothing else. |
| Journal.GraphJournal.RecordEvents | extensions/graph-journal.ts:249-287 | A run's callbacks become its journal records, in order, and the tokens of all its nodes add up. |
| Journal.JournalRun | extensions/graph-run.ts:265-330 | The journaling of a run appends its header, its callbacks in order and its result, and totals its tokens. |
| Journal.TokensAddUp | extensions/graph-journal.ts:249-251 | Tokens add up over the callbacks: those a node reported count, and nothing else. |
| Journal.AppendAllReadable | extensions/graph-journal.ts:374-398 | Whatever is appended to a file that ends with a line end is read back in full. |
| Journal.LoadMeaning | extensions/graph-journal.ts:522-604 | For any records: which of the three refusals applies, exactly; accepted exactly if the first header has the given hash; and then round, frontier, claims, executions in order, and every key's last result. |
| Journal.LoadGraphSuperstepResumeState | extensions/graph-journal.ts:522-604 | The loader's passes and its replay loop compute the declared resume state, with the reasons for which it refuses. |
| CrashReplay.RoundIsJournaled | extensions/graph-journal.ts:249-287 | A round that reaches its barrier adds one record per node, in frontier order, then the round record, which lists these nodes, the next frontier, every node's claim total and every pending count source by source. |
| CrashReplay.MatchingLoads | extensions/graph-journal.ts:522-604 | A journal cut inside a round loads as its last checkpoint, whatever it recorded of the unfinished round. |
| CrashReplay.StaleIsOverwritten | extensions/graph-journal.ts:571-574 | Stale records are overwritten once their nodes re-run. |
| CrashReplay.FreshCrashReplays | extensions/graph-journal.ts:522-604 | For every prefix of a fresh run's journal the loader returns the live state, frontier, claim totals, per-source claims, round and execution count of the last barrier. |
| CrashReplay.LifeKeepsMatch | extensions/graph-journal.ts:522-604 | Any run continued from a checkpoint and cut anywhere leaves a journal that matches the last barrier it reached. |
| CrashReplay.CountIsOffByStale | extensions/graph-journal.ts:600 | After a resume that got past the crashed round the loaded execution count exceeds the live one by exactly the stale records; it is exact if and only if there are none. |
| CrashChains.UncutLife | extensions/graph-run.ts:265-330 | A life that is not cut short writes what the journaling of a whole run writes. |
| CrashChains.LifeReplays | extensions/graph-journal.ts:522-604 | A life that resumes from a matching file, and may die at any point of any write, leaves a file that matches the last barrier it reported, unless it lost a line that mattered. |
| CrashChains.ChainReplays | extensions/graph-journal.ts:522-604 | Every load along a chain of lives returns the last live barrier if and only if the first header was written and no life went on from a file without its line end, nor, reporting no barrier, from one without the line end of a round record. |
| CrashChains.ContinuableIff | extensions/graph-journal.ts:241-247 | A safe chain can be continued by any life whatever if and only if nothing is left to run or its file lacks the line end of neither a round record nor the first header. |
| CrashChains.HarmlessDeaths | extensions/graph-journal.ts:241-247 | Lives that only die inside a text, or before the line end of other records, lose nothing, whatever follows. |
| CrashChains.ChainCountIsOffByStale | extensions/graph-journal.ts:556-603 | Over any safe chain of lives the loaded execution count is the number of executions of completed rounds plus all stale records that lives got past. |
| ResumeEquivalence.ResumeRestoresClaims | extensions/graph-executor.ts:618-634 | Resuming from a round record restores every pending claim, source by source, although zero counts are dropped. |
| ResumeEquivalence.ZeroRoundResumeForgetsClaims | extensions/graph-journal.ts:597-598 | Without a completed round the resume starts with no claims; those are the fresh claims if and only if no node but the entry is claimed by anyone. |
| ResumeEquivalence.AlikeRunsEndAlike | extensions/graph-executor.ts:682-888 | Two runs that differ only in forgotten selections run the same nodes with the same results and end alike. |
| ResumeEquivalence.ResumeEqualsNoCrash | extensions/graph-executor.ts:611-646 | On validated acyclic graphs of direct edges: crash at any record after the first barrier, load and resume, and every remaining barrier and the end are those of the run that never crashed. |
| ChainEquivalence.LifeFollows | extensions/graph-executor.ts:611-646 | On validated acyclic graphs of direct edges one more life, aborted or capped earlier or not, leaves a file that stands at a barrier of the run that was never interrupted. |
| ChainEquivalence.ChainEqualsNoCrash | extensions/graph-executor.ts:611-646 | After any safe chain of crashes, aborts and resumes whose first life reported a barrier, with nodes that ignore their step number, the resumed run has the remaining barriers, nodes, state, rounds, status and error of the run that was never interrupted; its execution count is ahead by the stale records that lives got past. |
| LegacyResume.ResumedBookIs | extensions/graph-executor.ts:618-646 | In both formats a resume keeps on every node as many pending claims as the journal says; the frontier is selected and none of it counts as executed. |
| LegacyResume.LegacyNeverRuns | extensions/graph-executor.ts:511-525 | A node with a positive flat total that has neither run nor is in the resumed frontier is in no later frontier, and the run is not checked for stranded nodes. |
| ZeroRoundResume.CrashBeforeBarrier | extensions/graph-journal.ts:556-603 | A crash anywhere before the first barrier loads as the resume from the entry with the initial state and no claims. |
| ZeroRoundResume.NoClaimsEver | extensions/graph-executor.ts:611-646 | On any graph, at every barrier of such a resume nobody claims anything: the frontier is exactly what was routed to and has not run. |
| ZeroRoundResume.NodeRunsTwice | extensions/graph-executor.ts:611-646 | On a three-node graph such a resume runs the fan-in node together with its predecessor, and then again. |
| ZeroRoundResume.ShortcutDiffers | extensions/graph-executor.ts:611-646 | That run is not the fresh run of the graph. |
| ZeroRoundResume.ZeroRoundResumeIff | extensions/graph-executor.ts:611-646 | On validated acyclic graphs of direct edges with no failing node the resume has the barriers, history and end of the fresh run if and only if every edge within the round cap goes from one level to the very next. |
| FirstRoundCrashes.FirstCrashMiscounts | extensions/graph-journal.ts:600 | Dying right after the first node and resuming for one round loads a count of two for one completed execution, on every graph of direct edges. |
| FirstRoundCrashes.ShortcutMiscounts | extensions/graph-journal.ts:600 | The same on a concrete graph. |
| FirstRoundCrashes.LineEndLosesBarrier | extensions/graph-journal.ts:241-247 | A run that dies before the line end of its first round record loads with one completed round; after the resumed run has appended its header, the same journal loads with none, from the entry. |
| FirstRoundCrashes.ShortcutLosesBarrier | extensions/graph-journal.ts:241-247 | The same on a concrete graph. |
| FirstRoundCrashes.LineEndLosesHeader | extensions/graph-journal.ts:241-247 | If the first header lacks its line end, the first resume is accepted and the next one refused. |
| EdgeTargets.CollectReturnedExpressions | extensions/graph-edge-targets.ts:83-110 | The recursive walk collects exactly the returned expressions of a body, nested functions excluded. |
| EdgeTargets.ReadReturnedValue | extensions/graph-edge-targets.ts:118-167 | Adds to the accumulator exactly what the expression says about targets, END and unknown values. |
| EdgeTargets.Extraction.Visit | extensions/graph-edge-targets.ts:193-249 | Visiting a tree adds the contribution of every edge call in it, in visiting order. |
| EdgeTargets.ExtractConditionalTargets | extensions/graph-edge-targets.ts:178-253 | The extraction is the fold of those contributions over the whole script. |
| ExtractionMeaning.ReturnedIff | extensions/graph-edge-targets.ts:83-110 | An expression is collected from a block if and only if a return of it is reached without entering a function. |
| ExtractionMeaning.ReadIff | extensions/graph-edge-targets.ts:118-167 | Reading lists exactly what some arm spells out, expects END exactly if some arm is END, and is dynamic exactly if some arm is none of the readable forms. |
| ExtractionMeaning.ExtractedIff | extensions/graph-edge-targets.ts:178-253 | Exactly which sources have an entry, which declared names it lists, whether it expects END, and why it is not analysable. |
| ExtractionMeaning.NestedReturnsAreLeftOut | extensions/graph-edge-targets.ts:96-103 | A body with a nested function that returns: only its own return is collected. |
| EdgeTargets.ReadIsSound | extensions/graph-edge-targets.ts:118-167 | Every value that an expression not read as dynamic can take was predicted. |
| EdgeTargets.ReturnsAreCollected | extensions/graph-edge-targets.ts:83-110 | Whatever a statement returns, through branches, loops, labels, try, switch and finally, is the value of a collected expression. |
| EdgeTargets.BodyIsPredicted | extensions/graph-edge-targets.ts:83-167 | Any value a body returns, under any test results, was predicted if nothing in it is dynamic. |
| EdgeTargets.TargetsAreDeclared | extensions/graph-edge-targets.ts:237-241 | Only declared node ids are ever listed. |
| EdgeTargets.ExtractionIsSound | extensions/graph-edge-targets.ts:178-253 | For every inline call with a literal source that is left analysable: a returned node id that is declared is a listed target, and END is returned only if expected. |
| EdgeTargets.EntryCoversIff | extensions/graph-edge-targets.ts:199-245 | An analysable entry covers all conditional edges of its source if and only if it lists the declared routes of those that no attributed inline call made. |
| EdgeTargets.LiteralSourcesCover | extensions/graph-edge-targets.ts:199-245 | If every edge call of the script names its source literally, an analysable entry lists the declared routes of every conditional edge that the calls made for its source. |
| EdgeTargets.ComputedSourceEscapes | extensions/graph-edge-targets.ts:199-206 | A script with a computed source id: the entry of the source stays analysable and does not list the route. |
| EdgeTargets.UnlistedIsUnclaimed | extensions/graph-executor.ts:250-253 | A route that is not listed claims nothing, unless a direct edge leads there. |
| EdgeTargets.RoutesStayForward | extensions/graph-executor.ts:347-357 | Every route of an attributed inline call, and of any other edge whose routes are listed, stays inside the forward reach of its source, as a claim it held or a way back. |
| GraphDsl.CanReachEnd | extensions/graph-dsl.ts:482-501 | The search terminates and succeeds if and only if some path leads to an edge that may end the walk. |
| GraphDsl.IsReachable | extensions/graph-dsl.ts:503-525 | The search terminates and succeeds if and only if a path of direct edges exists. |
| GraphDsl.EndInReachIff | extensions/graph-dsl.ts:482-505 | The end is in reach exactly if some node on a path has a direct edge to END or any condition. |
| GraphDsl.GraphBuilder.Node | extensions/graph-dsl.ts:344-366 | Adds a node with a valid new id and a definition that is a function or a typed object, else reports the first rule it breaks; the first node becomes the entry. |
| GraphDsl.GraphBuilder.AddEdge | extensions/graph-dsl.ts:368-388 | Appends an edge between valid ids, keeping earlier edges and their order. |
| GraphDsl.GraphBuilder.Start | extensions/graph-dsl.ts:390-394 | Sets the entry, defined or not, if its id is valid. |
| GraphDsl.GraphBuilder.Run | extensions/graph-dsl.ts:402-414 | Marks the graph started once, with an object or nothing as initial state; refuses a second time or anything else without changing the state. |
| GraphDsl.GraphBuilder.Validate | extensions/graph-dsl.ts:421-480 | Lists exactly the problems there are, reachability only when the rest is sound and all edges are direct; none if and only if the graph is well defined. |
| GraphDsl.GraphBuilder.Build | extensions/graph-dsl.ts:527-544 | Succeeds exactly for well-defined graphs, and returns a graph the executor can rely on. |
| GraphDsl.StateOf | extensions/graph-dsl.ts:402-415 | The initial state holds exactly the members of the object given, each under its own name. |
| GraphDsl.NodeIdPattern | extensions/graph-dsl.ts:200-215 | A node id is a non-empty text of letters, digits and underscores that does not begin with a digit. |
| GraphDsl.SnapshotSourceIsNoNode | extensions/graph-executor.ts:190-198 | The snapshot bucket's name cannot be defined as a node. |
| GraphDsl.WellDefinedIsBuilt | extensions/graph-dsl.ts:421-480 | Validation implies what the executor assumes of its graphs. |
| GraphDsl.ValidatedIsSweepable | extensions/graph-dsl.ts:458-477 | For acyclic graphs of direct edges validation is all that the topological theorem needs. |
| StructuredOutput.LookupCommutes | extensions/structured-output.ts:27-64 | For every JSON pointer, looking up in the rewritten tree is rewriting what the pointer finds in the original, as the kind of thing it is there (section 4 of RFC 6901). |
| StructuredOutput.ResourceIsUntouched | extensions/structured-output.ts:31-38 | A schema with a string `$id` keeps every reference inside it (section 8.2.1 of JSON Schema Core 2020-12). |
| StructuredOutput.EmbeddedIsUntouched | extensions/structured-output.ts:31-62 | Nothing below an embedded resource changes. |
| StructuredOutput.RewrittenPointer | extensions/structured-output.ts:32-38 | A rewritten local reference is local and carries the pointer of the original below /properties/value, percent and tilde escapes included (section 6 of RFC 6901). |
| StructuredOutput.ReferencesLand | extensions/structured-output.ts:27-73 | Every local reference of the document's own resource lands, in the wrapper, on the image of its original target, and dangles exactly if it dangled; others keep their text. |
| StructuredOutput.RewrittenIff | extensions/structured-output.ts:27-73 | A text changes by wrapping if and only if it is a local reference, under a reference keyword of a schema, in the document's own resource. |
| SchemaPaths.RewritesExactly | extensions/structured-output.ts:27-63 | For every pointer the wrapper has something there exactly if the document has; a text is rewritten exactly if it is a local reference at the end of a path through subschemas of the own resource; all else keeps its kind and contents. |
| SchemaPaths.InsideItemsIsRewritten | extensions/structured-output.ts:47-49 | A reference inside items is moved along. |
| StructuredOutput.WrapperResolvesIff | extensions/structured-output.ts:66-73 | A pointer leads somewhere in the wrapper if and only if it is one of the wrapper's own or leads somewhere in the document below /properties/value. |
| StructuredOutput.UnknownKeywordIsLeftBehind | extensions/structured-output.ts:23-25 | A local pointer in the document's resource that is not at a reference place keeps its text, dangles in the wrapper if and only if it is none of the wrapper's pointers, and still names the image of its target if and only if it dangles before and after or names one of five listed coincidences. |
| StructuredOutput.LeftBehindDangles | extensions/structured-output.ts:23-63 | A document whose inner reference, under an unknown keyword, leads to a schema before wrapping and nowhere after. |
| StructuredOutput.LeftBehindRenames | extensions/structured-output.ts:23-63 | A document whose inner `#`, under an unknown keyword, names the document before wrapping and the wrapper after. |
| StructuredOutput.LocateImage | extensions/structured-output.ts:27-64 | A pointer leads to a schema in the rewritten tree exactly when it does in the original, and to its image, with the resource root it is read against. |
| StructuredOutput.RewritingKeepsMeaning | extensions/structured-output.ts:27-64 | For every vocabulary, every depth and every value, the rewritten schema inside the wrapper evaluates to what the original evaluates to. |
| StructuredOutput.WrapperAcceptsExactly | extensions/structured-output.ts:66-73 | The tool parameters accept exactly the objects {value: x} with x accepted by the original schema. |
| StructuredOutput.ObjectKeywordsReadObjects | extensions/structured-output.ts:66-73 | A vocabulary with the keywords the wrapper uses meets the condition of the previous row. |
| ChildProtocol.ReadBytesIsOneShot | extensions/child-protocol.ts:37-87 | Reading byte by byte is reading the newline-separated segments of the whole stream. |
| ChildProtocol.WholeStreamLines | extensions/child-protocol.ts:75-92 | A stream read to its end yields the non-empty segments before the first one longer than the limit; the limit is passed exactly if there is one. |
| StreamLines.LinesAre | extensions/child-protocol.ts:19-93 | The lines of a stream, by position: in order, every non-empty stretch between newlines up to the first that is too long. |
| StreamLines.TooLongIff | extensions/child-protocol.ts:19-93 | The limit is passed exactly if some line is longer. |
| ChildProtocol.BoundedLineReader.EmitPending | extensions/child-protocol.ts:37-42 | Emits the buffered line, if any, and empties the buffer. |
| ChildProtocol.BoundedLineReader.Append | extensions/child-protocol.ts:44-73 | Buffers a segment, never beyond the limit, or reports the limit once with the first and last bytes of the line. |
| ChildProtocol.Diagnostics | extensions/child-protocol.ts:48-56 | The pieced-together diagnostics are the first and the last 4096 bytes of prior plus segment. |
| ChildProtocol.BoundedLineReader.Push | extensions/child-protocol.ts:76-87 | Wherever the chunks are cut, the reader is where byte-by-byte reading of the stream would be. |
| ChildProtocol.BoundedLineReader.End | extensions/child-protocol.ts:88-90 | The end of the stream acts as a final newline. |
| ChildProtocol.BoundedLineReader.PushAll | extensions/child-protocol.ts:75-92 | For every chunking, the emitted lines are the one-shot lines, and the limit fires exactly once or never. |
| ChildProtocol.CreateBoundedLineReader | extensions/child-protocol.ts:19-36 | Refuses limits below one byte, else starts an empty reader. |
| ChildProtocol.TrimToUtf8Boundary | extensions/child-protocol.ts:95-100 | The scan keeps the last bytes from the first character start on. |
| ChildProtocol.BoundedByteTail.Push | extensions/child-protocol.ts:110-113 | One chunk: the trimmed tail of what was kept plus the chunk. |
| ChildProtocol.BoundedByteTail.PushAll | extensions/child-protocol.ts:102-117 | Any chunks: the tail is the repeated trim. |
| ChildProtocol.TailIsSuffix | extensions/child-protocol.ts:102-117 | For every chunking the tail is a suffix of the stream of at most the limit. |
| ChildProtocol.TrimEarlyIff | extensions/child-protocol.ts:95-113 | Trimming before a chunk equals trimming after it unless all that was kept was continuation bytes and a short chunk goes on with one. |
| ChildProtocol.TailIgnoresChunks | extensions/child-protocol.ts:102-117 | Without a bad cut (max + 1 continuation bytes around a place near the end) the tail is the whole stream trimmed once, whatever the chunks. |
| ChildProtocol.ChunksMatterIff | extensions/child-protocol.ts:102-117 | All ways of cutting a stream into chunks give the same tail if and only if the stream has no bad cut. |
| ChildProtocol.ChunksCanMatter | extensions/child-protocol.ts:102-117 | Three continuation bytes and a limit of one byte: two chunks leave one byte, one chunk leaves none. |
| ChildProtocol.Utf8HasNoBadCut | extensions/child-protocol.ts:95-117 | UTF-8 text (section 3 of RFC 3629), complete or cut anywhere, has no bad cut for limits of three bytes or more. |
| Truncation.ByteLengthMonotone | extensions/types.ts:597-608 | The UTF-8 length of a prefix never falls as it grows, also where a cut splits a surrogate pair. |
| Utf8Length.EncodingLength | extensions/types.ts:585-602 | The counted byte length is that of the UTF-8 encoding, pairs and lone surrogates included, and that encoding is valid. |
| Truncation.FirstLines | extensions/types.ts:591-596 | The first k lines joined are the prefix of the output with k lines. |
| Truncation.CutToBytes | extensions/types.ts:598-608 | The binary search finds the last prefix length that fits. |
| Truncation.KeptIsLongest | extensions/types.ts:591-609 | Cutting by lines, then by bytes, gives the longest prefix that meets both limits. |
| Truncation.TruncateOutput | extensions/types.ts:579-621 | Truncates exactly when a limit is passed; the text is then the marker, given the true counts, and the longest legal prefix. |
| Broker.SettledAtMostOnce | extensions/request-broker.ts:150-295 | In every run each accepted ask is exactly one of pending, settled once, or displaced once by a later ask that reused its id; nothing else is settled. |
| Broker.NeverDisplacedIff | extensions/request-broker.ts:150-166 | No promise is displaced in a run if and only if no accepted ask takes an id that is pending at that moment. |
| Broker.ReuseLosesPromise | extensions/request-broker.ts:162-166 | Two asks under one id and one answer: the first asker is never settled, the second is. |
| Broker.MixedIdsDisplaceNothing | extensions/request-broker.ts:151-166 | Nothing is displaced as long as every given id is not pending when asked and does not look like a numbered one. |
| Broker.StepConserves | extensions/request-broker.ts:150-295 | No operation loses or duplicates a promise. |
| Broker.FreshIsNeverDisplaced | extensions/request-broker.ts:162-166 | With ids that never repeat no promise is ever displaced. |
| Broker.NumberedIdsAreFresh | extensions/request-broker.ts:151 | Ids the broker numbers itself are fresh, also beside given ids that differ from each other and do not look numbered. |
| Broker.PendingOrigin | extensions/request-broker.ts:156-164 | A pending request is the one its ask made, and its deadline is ask time plus timeout plus every extension since. |
| Broker.TimesOutIff | extensions/request-broker.ts:198-210 | The expiry half of a tick settles a request if and only if it is a pending supervisor request that expects a reply, not held, not busy, past its ask time plus timeout plus extensions: human requests never time out. |
| Broker.FlagsFollow | extensions/request-broker.ts:126-129 | Busy and held say what the last operation that set them said. |
| Broker.BatchesPartitionAsks | extensions/request-broker.ts:171-196 | Every accepted ask enters exactly one batch, in the order of asking. |
| Broker.OpenBatchIsWindow | extensions/request-broker.ts:171-196 | The open batch holds every ask since its opener, and no tick since then came at or after the opener's time plus the window. |
| Broker.HandoverIff | extensions/request-broker.ts:190-196 | The first tick at or after the close time hands over exactly the members whose own ask is still pending or whose id a later pending ask has reused; no earlier tick hands over anything. |
| Broker.CancelRunFrame | extensions/request-broker.ts:290-295 | Cancelling a run settles exactly its requests and leaves all others as they are. |
| Broker.RunKeepsIds | extensions/request-broker.ts:114 | Pending ids stay distinct over every run. |
| BrokerAnswers.EveryAnswer | extensions/request-broker.ts:150-295 | In every run: a resolved ask gets the answer given under its id, a cancelled human ask its default, any other cancelled ask none, a timed-out one its default with that source, and only earlier accepted asks are answered. |
| BrokerAnswers.AnswersComeAtOnce | extensions/request-broker.ts:152-155 | A refused ask is answered at once with the reason; resolving or cancelling answers one ask if its id is pending and none otherwise. |
| BrokerAnswers.DeliveredIff | extensions/request-broker.ts:251-255 | A pending request counts as delivered inline exactly if it was marked, under its id, after it was asked. |
| BrokerObject.RequestBroker.Submit | extensions/request-broker.ts:150-169 | Performs the ask operation: refusal of over-long human questions, numbering, deadline, batch. |
| BrokerObject.RequestBroker.AddToBatch | extensions/request-broker.ts:171-178 | Opens a batch with its close time, or joins the open one without moving it. |
| BrokerObject.RequestBroker.Tick | extensions/request-broker.ts:187-213 | A whole tick with a sink that only takes the batch: both halves in order, and the number of actions. |
| BrokerObject.RequestBroker.CloseBatch | extensions/request-broker.ts:190-196 | The first half of a tick: closes the window if it has elapsed and yields the batch for the sink, which may call any operation before the second half. |
| BrokerObject.RequestBroker.ExpireDue | extensions/request-broker.ts:198-210 | The second half of a tick: the loop that deletes while it iterates removes and settles exactly the due requests. |
| BrokerObject.RequestBroker.Settle | extensions/request-broker.ts:232-238 | Performs the resolve operation; unknown ids change nothing. |
| BrokerObject.RequestBroker.CancelOne | extensions/request-broker.ts:264-285 | Settles one request as cancelled, or with its default if it is a human one with a default. |
| BrokerObject.RequestBroker.CancelEveryRequest | extensions/request-broker.ts:290-295 | Performs the cancel-run operation. |
| BrokerObject.RequestBroker.ExtendSupervisorExpiry | extensions/request-broker.ts:130-132 | Adds the time to every deadline there is. |
| WorkflowControl.OneUncompletedRun | extensions/workflow-controller.ts:24-41 | At any time at most one controlled run is uncompleted. |
| WorkflowControl.ReportAtMostOnce | extensions/workflow-controller.ts:48-77 | Over all interleavings a report is handed out at most once by a wait returning it or by the idle fallback. |
| WorkflowControl.InterruptedTakesReport | extensions/workflow-controller.ts:68-72 | Once an interrupted wait has ended, neither normal path hands out that report again. |
| WorkflowControl.StepDelivers | extensions/workflow-controller.ts:48-77 | What an operation hands out was unclaimed before and is claimed after. |
| Reminders.BrokerIsRun | extensions/workflow-controller.ts:24-165 | Under the controller and the reminders the broker only ever reaches states it reaches by itself, so its theorems apply. |
| Reminders.BoundedNagging | extensions/workflow-controller.ts:129-164 | A request gets at most three reminders and at most one notice in a session. |
| Reminders.NoticeAfterThree | extensions/workflow-controller.ts:147-162 | The notice is the first, and comes after exactly three counted reminders: the request's own and those counted under its id before it was asked. |
| Reminders.ReaskInherits | extensions/workflow-controller.ts:132-139 | A run in which an id is answered and asked again before the next tick: the new request inherits a reminder. |
| Reminders.NaggedArePending | extensions/workflow-controller.ts:132-162 | Whoever is reminded or given up on is pending, so not answered, and nobody waits on its run. |
| Reminders.GraceBeforeNag | extensions/workflow-controller.ts:140-157 | Before each question, reminder or notice the supervisor settled at least the grace period ago, and since then was not busy and was asked and reminded of nothing. |
| ControlMeaning.ReportIsLastGiven | extensions/workflow-controller.ts:36-76 | Every report handed out is the one last given for the run since it was begun; an interrupted wait returns that or the lack of one. |
| ControlMeaning.QuestionsAre | extensions/workflow-controller.ts:78-87 | A wait on an uncompleted run returns the ids of exactly its open supervisor questions as soon as there are any, and nothing before. |
| ControlMeaning.UncompletedAreHeld | extensions/workflow-controller.ts:27-40 | At every moment the clocks of exactly the uncompleted runs are held. |
| ControlMeaning.UncompletedNeverTimesOut | extensions/workflow-controller.ts:28-30 | A request of an uncompleted run never times out. |
| ControlMeaning.EndingCancels | extensions/workflow-controller.ts:36-46 | Completing or stopping a run leaves none of its requests pending and all others as they are. |
| ControlMeaning.WaitIsOn | extensions/workflow-controller.ts:56-61 | A wait is on the given run, else the first uncompleted, else the last; it is refused without one or with another waiter. |
| ControlMeaning.BeginsIff | extensions/workflow-controller.ts:24-31 | A run begins exactly if no run is uncompleted and none is waited on; it replaces an earlier one under its id. |
| ControlMeaning.PollOfCompleted | extensions/workflow-controller.ts:67-77 | A wait that is not interrupted returns the report of a completed run once, and then only says so; an interrupted one returns nothing here. |
| ControlMeaning.ReturnedIsDelivered | extensions/workflow-controller.ts:79-87 | What a wait returned as open questions counts as delivered inline from then on. |
| ControlMeaning.FallbackQuestions | extensions/workflow-controller.ts:140-146 | The idle fallback asks exactly the open questions never shown whose run nobody waits on, once the supervisor has been idle for the grace period. |
| ControlMeaning.AskedIsDelivered | extensions/workflow-controller.ts:142-143 | What the fallback asks counts as delivered inline from then on. |
| ControlMeaning.FallbackIsUnclaimed | extensions/workflow-controller.ts:49-55 | The fallback hands out a report only if nobody waits on its run and nobody has it; it then counts as delivered. |
| ControlMeaning.BusyIs | extensions/workflow-controller.ts:118-165 | The clocks of supervisor requests stand still exactly while the supervisor is busy: since it became so, or was asked or reminded, and has not settled. |
| ControlMeaning.ReminderNumbers | extensions/workflow-controller.ts:153-156 | A reminder says how many its request will have had with it, those inherited under its id included. |
| ControlMeaning.TickPauses | extensions/workflow-controller.ts:129-131 | While the supervisor is not idle a tick moves every deadline by the time since the tick before it, and no other operation moves one. |
| ControllerObjects.WorkflowController.Start | extensions/workflow-controller.ts:24-31 | Performs the begin operation, refused while a run is active. |
| ControllerObjects.WorkflowController.Finish | extensions/workflow-controller.ts:36-41 | Performs the complete operation on the runs and on the broker. |
| ControllerObjects.WorkflowController.Halt | extensions/workflow-controller.ts:42-46 | Performs the stop operation; completed and unknown runs are left alone. |
| ControllerObjects.WorkflowController.TakeUndeliveredReports | extensions/workflow-controller.ts:49-55 | The loop hands out and marks exactly the undelivered reports of completed runs nobody waits on. |
| ControllerObjects.WorkflowController.EnterWait | extensions/workflow-controller.ts:56-62 | Picks the given, the active or the last run, and refuses a second waiter. |
| ControllerObjects.WorkflowController.Abort | extensions/workflow-controller.ts:62-65 | Interrupts the waiter and stops its run. |
| ControllerObjects.WorkflowController.PollOnce | extensions/workflow-controller.ts:67-92 | One turn of the waiting loop: the report, its absence, the open questions, or nothing yet. |
| ControllerObjects.WorkflowController.LeaveInterrupted | extensions/workflow-controller.ts:68-72 | Ends an interrupted wait and takes the report. |
| ControllerObjects.MarkAll | extensions/workflow-controller.ts:80-83 | Marks each request of a list that is not marked yet, and no other. |
| ControllerObjects.SupervisorReminders.Prune | extensions/workflow-controller.ts:133-135 | The two loops keep the bookkeeping of pending requests only. |
| ControllerObjects.SupervisorReminders.Follow | extensions/workflow-controller.ts:137-139 | Starts tracking the requests delivered inline that are neither tracked nor given up. |
| ControllerObjects.SupervisorReminders.CountUp | extensions/workflow-controller.ts:153 | Counts one reminder for each request on the list and exhausts it at three. |
| ControllerObjects.SupervisorReminders.Escalate | extensions/workflow-controller.ts:159-162 | Moves the exhausted requests from tracked to given up. |
| ControllerObjects.SupervisorReminders.Settled | extensions/workflow-controller.ts:123-128 | The supervisor becomes idle, and the broker's clocks run again. |
| ControllerObjects.SupervisorReminders.Tick | extensions/workflow-controller.ts:129-164 | Performs the whole tick: pause, bookkeeping, questions, reminders, notices, reports. |
| ControllerObjects.SupervisorReminders.Reset | extensions/workflow-controller.ts:165 | Forgets all bookkeeping and releases the broker. |

## Left out

- Spawning, timers, sockets, worktrees, signals, rendering: I/O. Node outcomes, the clock, the abort signal and appends to
  the journal are inputs of the model.
- JSON, acorn, typebox and the script sandbox: library behaviour. Journal lines are records or unreadable, scripts are
  syntax trees, and a validator's vocabulary is an arbitrary function.
- Metadata of nodes and executions (types, agent names, tokens, sessions, timestamps, durations) and the wording of error
  and report texts: errors are told apart by kind.
- Edge conditions that write shared state: conditions are pure functions. A later sibling's condition still sees the
  results that earlier siblings of its round committed.
- Node outcomes are a function of node, state and step, so two runs are compared in the same world.
- The order in which JavaScript visits maps of claims and sets of nodes where the result does not depend on it: the model
  visits them in any order. The frontier keeps declaration order.
- Resume of the legacy flat counters after a wave reset, the linear loader `loadGraphResumeState` and broker and state
  records in the journal: superseded or never replayed. The flat snapshot itself is part of the resumed claims.
- Resume on graphs with conditional edges or wave resets: the journal does not store what equivalence would need.
- Two records glued to one line are taken for unreadable, a partial record too: JSON text of an object ends with its last
  bracket.
- Failing journal writes (`writeErrors`): the run goes on without its record, and a resume sees less.
- ChainEquivalence.ChainEqualsNoCrash: is for chains whose first life reported a barrier; a resume before that starts over
  without claims, which `ZeroRoundResume.ZeroRoundResumeIff` compares with the fresh run.
- ResumeEquivalence.ResumeEqualsNoCrash: says nothing about `finalResult` before the first resumed round ends.
- EdgeTargets.ReturnsAreCollected: loops run for at most `fuel` iterations, for every fuel; a body that never returns
  routes nowhere. Generators, async functions and `with` statements are not part of the language.
- EdgeTargets.ExtractionIsSound: needs that no local name shadows `END`, as the analysis itself does.
- EdgeTargets.RoutesStayForward: does not speak of unlisted routes of calls that the analysis attributes to nobody; a
  condition passed by name makes its source unanalysable instead.
- GraphDsl.GraphBuilder.Validate: says which problems are listed, not their wording and order.
- GraphDsl.GraphBuilder.Node: what a definition holds besides being a function or a typed object.
- Journal.GraphJournal.RecordNode: the metadata of a record.
- Truncation.TruncateOutput: the wording of the marker line is a parameter; a line limit of zero keeps nothing.
- ChildProtocol.WholeStreamLines: lines are bytes; decoding them to text is not modelled. Default limits are parameters.
- StructuredOutput.RewrittenPointer: percent-encoded bytes are decoded one by one, without combining UTF-8 sequences.
- StructuredOutput.RewritingKeepsMeaning: resolves local pointers to schema positions, statically; references by anchor
  or by `$id`, dynamic scopes, and pointers to places that are no schema are left to the vocabulary as text.
- StructuredOutput.WrapperAcceptsExactly: counts one level of evaluation for the wrapper itself.
- Compiling schemas, reading the captured output file and formatting validation errors.
- BrokerObject.RequestBroker.Tick: is for a sink that only takes the batch; one that calls back is the two halves with its
  calls in between, which the theorems about runs allow.
- Broker.TimesOutIff: each operation reads the clock once. The text of time-out reasons is abbreviated.
- The question length check is an input of the ask operation, and the broker's `start`, `stop` and listing helpers are
  left out.
- WorkflowControl.ReportAtMostOnce: does not cover reading the report again through an interrupted wait, which returns the
  text without asking whether it was delivered.
- Broadcasting a stop to all runs (`stopAll`), `setDone` and the run's own promise: an interrupted wait may end at any
  later time.
- The field `pausedAt` of the reminders, which is written and never read.
- Reminders.BoundedNagging: counts since the reminders were last cleared, which happens at the end of a session.
- Turn and tool budgets, bash guards, failure classification, settings, slugs, the state reducer: small case splits that
  would only add easy members.
