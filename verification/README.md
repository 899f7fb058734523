# kalived: a verified model of the algorithmic cores

kalived is a single-host security scanner with a cockpit: scripts that turn logs and reports into findings,
and a backend that runs an agent loop, detached jobs, a browser session and a terminal socket. This project
models the parts of it that are state machines, transformations or counting passes, and proves what they keep.

The modules follow the source files:

| file | module | subject |
|---|---|---|
| UfwDigest.dfy | UfwEvents, UfwScans, UfwFloods, UfwDigest | the firewall journal digest |
| Orchestrate.dfy, TurnLoop.dfy, TurnHistory.dfy | Orchestrate, TurnLoop, TurnHistory | the brakes, the agent's turn, and the turn told by its history |
| AxTree.dfy | AxTree | the accessibility tree as numbered lines |
| WsFrames.dfy | WsFrames | WebSocket frames (sections 5.2 and 5.3 of RFC 6455) |
| CdpSession.dfy | CdpSession | browser request and reply correlation |
| JobRegistry.dfy | JobRegistry | detached jobs, watchdog, persist and reload |
| Recency.dfy | Recency | bounded most-recently-used lists |
| EnvFile.dfy, EnvMeaning.dfy, EnvRepeat.dfy, EnvComments.dfy | EnvFile, EnvMeaning, EnvRepeat, EnvComments | parse, update and print the secrets file; its grammar and meaning; repeating a put; what happens to comments |
| AideClassify.dfy, AideTriage.dfy | AidePaths, AideScope, AideTriage | AIDE triage and the freeze overlay |
| RepeatTable.dfy | RepeatTable | the table over several snapshots |
| AlertRows.dfy | AlertCounts, FindingIds, HostAlerts | Falco and Suricata rows |
| ScanActions.dfy | ScanActions | the sheet of actions after a scan |
| Veto.dfy | Veto | rules over a model's answers |
| Lists.dfy, Strings.dfy, Sorting.dfy | Lists, Strings, Sorting | shared vocabulary |

Loops and objects that the source updates in place are methods and classes here, each tied to a function of
its inputs or of the old state; the lemmas are about those functions. Functions that only compute have no row
of their own below: the row of the lemma or method about them names them.

Abstractions common to all modules: a line or JSON value is already parsed (a function from a line to an
optional record, or a datatype with one case for each shape the code tells apart); times are integers; digests,
link resolution, process liveness and random ids are parameters; a random id is assumed new.

Where the code does less than its comments or the surrounding text suggest, the model follows the code. Each
such place has a concrete example and the exact condition:

- A force-stop, once on, stays on at later quiet rounds, also at rounds that are not see-only
  (`Orchestrate.ForceStopPersists`, `Orchestrate.BrakesFireExactly`).
- A failing send leaves its request in the table for ever, and a second reply to a request ends the reader
  (`CdpSession.LeakExample`, `CdpSession.PendingIsInFlightIffNoSendRaised`, `CdpSession.SecondReplyExample`,
  `CdpSession.ReaderHasEndedIff`).
- A job that a listing timed out runs again after a restart that comes before the next written tick
  (`JobRegistry.ResurrectionExample`, `JobRegistry.RestartReturnsIffStale`, `JobRegistry.JobsNeverReturnIff`).
- The secrets file accepts values and keys that do not come back (`EnvFile.AcceptedButImproper`,
  `EnvFile.PutRoundTripsIff`), a put that is repeated can change the text (`EnvRepeat.AcceptedButUnsettled`,
  `EnvRepeat.PutAgainIsStableIff`), and a put can add lines that are no entries (`EnvComments.AcceptedButUntidy`,
  `EnvComments.CommentsSurviveIff`).
- A doubly escaped prefix changes each time the scope is rewritten (`AideScope.DoublyEscapedPathDrifts`,
  `AideScope.RewriteKeepsIffStable`), and the change of its file goes unnoticed
  (`AideScope.EscapedPathGoesUnnoticed`, `AideScope.NoticesChangesIffStable`).
- A freeze scope can take away the ALERT of a report: the overlay raises on a reported file that has a digest and
  can no longer be read, and the whole run is lost with it, so that scripts/lib/check-aide.sh reports one ERROR
  instead (`AideTriage.UnreadableFileLosesAlert`, `AideTriage.TriageIsLostIff`, `AideTriage.ScopeKeepsAlertIff`).
- A dual answer that is no number passes the veto's test of two domains: cockpit/backend/app/decide.py turns the
  model's text into a float without a check, and a comparison with not-a-number fails (`Veto.NotANumberPasses`,
  `Veto.TwoDomainsIff`, `Veto.TwoDomainsAlwaysIff`).
- An extra ERROR finding lowers the severity of a Falco or Suricata finding (`FindingIds.ExtraErrorLowers`,
  `FindingIds.RaisedIff`).

## Model

| member | source | states |
|---|---|---|
| UfwScans.ScanSource | scripts/lib/ufw-digest.py:108-117 | the two-pointer pass over one source's time-sorted rows yields a row exactly when the source is a scanner (10 distinct ports within 60 s), with 10 ports and the seconds of its earliest alarm |
| UfwScans.Advance | scripts/lib/ufw-digest.py:111-112 | the left pointer lands on the first row of the 60-second window of row j |
| UfwScans.WindowPorts | scripts/lib/ufw-digest.py:113 | the port set of rows i to j reaches 10 exactly when row j alarms, and before the first alarm never exceeds 10 |
| UfwScans.GroupBySource | scripts/lib/ufw-digest.py:99-105 | groups the timestamped inbound BLOCK events with a nonzero port by source, in order of first sight |
| UfwScans.ScansFor | scripts/lib/ufw-digest.py:98-118 | the table of all sources, cut at 20 |
| UfwScans.NoEarlierAlarm | scripts/lib/ufw-digest.py:110-117 | in a quiet prefix no event of the whole set alarms earlier, ties included |
| UfwScans.OneMorePort | scripts/lib/ufw-digest.py:113-117 | one more row adds at most one port, so dpts is exactly 10 at the first alarm |
| UfwScans.FirstAlarm | scripts/lib/ufw-digest.py:110-117 | the pointers at the first alarm give the scanner's seconds, at least 1 |
| UfwScans.ScannerIffBurst | scripts/lib/ufw-digest.py:98-118 | a source is a scanner exactly when some set of its events, all within 60 s, covers 10 distinct ports |
| UfwScans.SecsWithinWindow | scripts/lib/ufw-digest.py:98-118 | reported seconds lie between 1 and 60 |
| UfwScans.ReportsExactlyTheScanners | scripts/lib/ufw-digest.py:98-118 | before the cut a row is in the table exactly when its source is a scanner and it has that scanner's exact numbers |
| UfwScans.OneRowPerScanner | scripts/lib/ufw-digest.py:98-118 | the rows' sources are the scanners in order of first sight, none twice |
| UfwScans.OrderIsIrrelevant | scripts/lib/ufw-digest.py:98-118 | reordering the journal changes neither who is reported nor the numbers |
| UfwScans.RowsAre | scripts/lib/ufw-digest.py:89-118 | in terms of the journal's events: a source has a row exactly when an inbound BLOCK of it brings ten ports within 60 s, and the row says the seconds of the first such window |
| UfwScans.SourcesAre | scripts/lib/ufw-digest.py:99-105 | the sources come in the order of their first inbound BLOCK with a time and a port |
| UfwEvents.ShadowedReasonsNeverFire | scripts/lib/ufw-digest.py:67-86 | the noise test gives every event the reason of the source's seven-branch chain, of which two branches never fire |
| UfwFloods.CountBuckets | scripts/lib/ufw-digest.py:122-129 | exact event counts of each (source, port, protocol, second) bucket, in order of first sight |
| UfwFloods.FloodsFor | scripts/lib/ufw-digest.py:121-142 | the reported rows of all buckets, cut at 20 |
| UfwFloods.RowsAreDistinctAndTrue | scripts/lib/ufw-digest.py:130-142 | no key twice, and each row's rate is that of a bucket of its key at the limit |
| UfwFloods.ReportsExactlyTheFloods | scripts/lib/ufw-digest.py:121-142 | a key is reported exactly when some second of it reaches 20 (TCP) or 50 (ICMP) |
| UfwFloods.OrderIsIrrelevant | scripts/lib/ufw-digest.py:121-142 | reordering the journal changes no flooding key |
| UfwFloods.FloodsAre | scripts/lib/ufw-digest.py:89-142 | in terms of the journal's events: a key is in the table exactly when some second saw 20 inbound TCP BLOCKs of it, or 50 ICMP ones |
| UfwFloods.BucketsAre | scripts/lib/ufw-digest.py:122-129 | the buckets come in the order of their first event |
| UfwDigest.MakeDigest | scripts/lib/ufw-digest.py:145-207 | counts are exact, lines equals dropped noise plus interesting events, and scans, floods and hits are those of the non-noise events, cut at 20 |
| UfwDigest.DropSingletons | scripts/lib/ufw-digest.py:173-180 | keeps exactly the interesting events and counts the others |
| UfwDigest.CollectHits | scripts/lib/ufw-digest.py:181-190 | the hits in order of first sight |
| UfwDigest.HitsSurviveTheFilter | scripts/lib/ufw-digest.py:173-190 | a filter that keeps listener events hides no hit |
| UfwDigest.HitsAreTheListenerKeys | scripts/lib/ufw-digest.py:181-190 | a (source, port, action) has a hit exactly when some event on a listening port and a real interface carries it |
| UfwDigest.HitsAreDistinct | scripts/lib/ufw-digest.py:181-190 | no hit twice |
| UfwDigest.HitsAre | scripts/lib/ufw-digest.py:181-190 | a hit is listed exactly when the first event of its key that reaches a listener says so, interface included |
| UfwDigest.InterestingAre | scripts/lib/ufw-digest.py:164-180 | the singleton filter keeps exactly the events whose source and port occur five times, whose source scans, or whose port listens |
| Orchestrate.CountersAreHistory | cockpit/backend/app/orchestrate.py:77-117 | over every trace the three counters of `NextBrake` are the last decisive round, the look after it, and the length of the see-only tail |
| Orchestrate.BrakesFireExactly | cockpit/backend/app/orchestrate.py:77-117 | when force-stop, write-nudge, see-cap and nudge fire, as facts about the trace alone; the see-cap never adds to the write-nudge |
| Orchestrate.FirstForceStop | cockpit/backend/app/orchestrate.py:77-117 | up to the first one, force-stop fires exactly at a plain see-only round whose latest earlier decisive round counts as a verify |
| Orchestrate.ForceStopPersists | cockpit/backend/app/orchestrate.py:77-117 | an example where force-stop is on at a round that is not see-only |
| Orchestrate.KindsExclude | cockpit/backend/app/orchestrate.py:27-65 | looking and changing exclude each other; a result is both a success and a failure exactly for a shell command that timed out with exit code 0; what each tool's success and failure mean |
| TurnLoop.RunTurn | cockpit/backend/app/llm.py:263-491 | the loop over rounds computes the sent requests and the outcome of `Run` |
| TurnLoop.DoCalls | cockpit/backend/app/llm.py:347-452 | the calls of a round change messages, tools and flags as `AfterCalls` says, or the first failing one ends the turn |
| TurnLoop.EveryTurnEndsWell | cockpit/backend/app/llm.py:263-491 | for all replies and tool results a turn sends at most tool_cap+1 requests, never runs out of rounds, and each request is good |
| TurnLoop.EachRequestIsGood | cockpit/backend/app/llm.py:263-491 | every request has each tool call answered once in order, offers no tool an earlier one did not, is without tools exactly when it is the last and then ends with the short-answer order; from the fifth round a code agent that has not mutated is offered writers only |
| TurnLoop.NoToolsAfterForceStop | cockpit/backend/app/llm.py:453-490 | after a see-only round that follows a verified state a code turn sends only the last request |
| TurnLoop.CallsAnswerAll | cockpit/backend/app/llm.py:341-452 | the calls of one round answer the first outstanding ids one by one and leave the others |
| TurnLoop.CallsKeepTools | cockpit/backend/app/llm.py:347-452 | calls keep the offered tools or empty them, and mark a mutation exactly when one happened |
| TurnLoop.BrakesKeep | cockpit/backend/app/llm.py:453-490 | the brake stage never adds a tool and keeps the conversation paired |
| TurnLoop.EveryCallGetsItsAnswer | cockpit/backend/app/llm.py:347-452 | for tool results of the shapes the tools make, the tool messages of every request of a turn are, in order, one for each earlier call: its result, or the excerpt of the sub-agent it dispatched |
| TurnLoop.CallIsAnswered | cockpit/backend/app/llm.py:416-452 | one call's messages hold its answer as their only tool message |
| TurnHistory.TurnIsItsHistory | cockpit/backend/app/llm.py:255-491 | for all replies and results: every request, its messages, its offered tools, the end of the turn and its outcome are what the history of rounds tells, without counters or running state |
| TurnHistory.OffersExactly | cockpit/backend/app/llm.py:263-491 | each request but the last offers exactly the registered tools of the agent, or exactly its writers once the turn has been narrowed |
| TurnHistory.LastExactly | cockpit/backend/app/llm.py:268-476 | the next request is the last one exactly at the cap, after a finished job, after a look that follows a verified state, or when nothing is left to offer |
| TurnHistory.Braked | cockpit/backend/app/llm.py:453-490 | after the calls of a round a code agent gets exactly the orders and keeps exactly the tools that its history asks for |
| TurnHistory.RoundsAre | cockpit/backend/app/llm.py:354-414 | the brakes see each round's calls in order and whether one succeeded, edited or failed |
| AxTree.FlattenAx | cockpit/backend/app/browser_cdp.py:62-103 | the early-stopping walk gives the first `limit` visible nodes of the full preorder; line k has number k, and refs holds exactly the emitted nodes with a backend |
| AxTree.Flattener.Walk | cockpit/backend/app/browser_cdp.py:68-96 | one walk extends the output by the node's visible descendants in preorder, up to the limit |
| AxTree.Flattener.WalkAll | cockpit/backend/app/browser_cdp.py:95-102 | the loop over children or roots, a missing child included |
| AxTree.WalkedIsItems | cockpit/backend/app/browser_cdp.py:62-103 | passing the depth down is counting visible ancestors on the path to the root |
| AxTree.LineSays | cockpit/backend/app/browser_cdp.py:84-94 | indent, role, name and reference of a line |
| AxTree.SkippedIff | cockpit/backend/app/browser_cdp.py:80-83 | which nodes give no line of their own |
| AxTree.IndexedAre | cockpit/backend/app/browser_cdp.py:63 | the last node with an id counts |
| AxTree.RootsAre | cockpit/backend/app/browser_cdp.py:98-100 | the walk starts at the nodes without a parent, and only without any at the first node |
| WsFrames.Socket.RecvExact | api/pty_ws.py:28-35 | for every chunking takes exactly n bytes, or reports a closed peer |
| WsFrames.Socket.WsRead | api/pty_ws.py:38-53 | reading takes exactly what `Decode` takes from the stream |
| WsFrames.Socket.WsWrite | api/pty_ws.py:56-68 | writing appends exactly the encoded frame |
| WsFrames.WrittenFrameIsRead | api/pty_ws.py:38-68 | a written frame is read back whatever follows it, or refused as too large exactly above 1,000,000 bytes |
| WsFrames.ClientFrameIsRead | api/pty_ws.py:38-53 | a masked frame is read back as the unmasked payload |
| WsFrames.StreamRoundTrip | api/pty_ws.py:28-68 | written frames come back as the same sequence and later bytes stay |
| WsFrames.StreamsFollowFrames | api/pty_ws.py:28-68 | a codec that reads each frame in front of any tail reads streams |
| WsFrames.CutFrameIsClosed | api/pty_ws.py:28-53 | no proper prefix of a frame is taken for a frame |
| WsFrames.WriterIsShortest | api/pty_ws.py:56-68 | no byte string decodes to the frame in fewer bytes than the writer uses |
| WsFrames.XorTwice | api/pty_ws.py:51-52 | masking a byte twice gives it back |
| WsFrames.DecodeIff | api/pty_ws.py:38-53 | a frame is read exactly when the stream begins with it: opcode, length field, and a payload each bit of which is the stream's bit, inverted where the key byte in turn has a one |
| WsFrames.TooLargeIff | api/pty_ws.py:38-48 | a frame is refused exactly when its length field says more than 1,000,000 |
| WsFrames.WrittenBytesAre | api/pty_ws.py:56-68 | a written frame is final, unmasked, and its length field in network order says the length of the payload that ends it |
| WsFrames.BigEndianRoundTrip | api/pty_ws.py:42-45 | network byte order is read back |
| CdpSession.StepKeepsInv | cockpit/backend/app/browser_cdp.py:158-196 | every step of callers, reader and timeouts keeps the invariant |
| CdpSession.RunKeepsInv | cockpit/backend/app/browser_cdp.py:158-196 | in every interleaving pending ids were issued and a request's state matches the table |
| CdpSession.RepliesAreDelivered | cockpit/backend/app/browser_cdp.py:158-196 | a returned reply was delivered by the reader and carries the caller's own id |
| CdpSession.FinishedIff | cockpit/backend/app/browser_cdp.py:158-196 | over every run, a request finishes with a reply exactly when the reader took that reply as its first outcome before its coroutine woke up, and as timed out exactly when its timer fired first |
| CdpSession.CallerEndsIff | cockpit/backend/app/browser_cdp.py:177-185 | over every run, a caller returns exactly the reply it collects, and raises exactly when it collects a failure or gives up |
| CdpSession.FailureHasCause | cockpit/backend/app/browser_cdp.py:177-196 | by the actions alone: a request times out only after its timer, and a caller raises only after its timer, a failing send or its own timeout |
| CdpSession.CallReturnsItsReply | cockpit/backend/app/browser_cdp.py:158-196 | by the actions alone: a call that is sent and answered in either order, resumed and collected returns exactly its own reply, whatever others do in between and happened before |
| CdpSession.IdsAreFresh | cockpit/backend/app/browser_cdp.py:172-191 | a new id was never issued and registering overwrites nothing |
| CdpSession.PendingIsInFlightIffNoSendRaised | cockpit/backend/app/browser_cdp.py:187-196 | over every run, all pending requests are unfinished exactly when no send of the run raised |
| CdpSession.LeakExample | cockpit/backend/app/browser_cdp.py:187-196 | the run of three steps that leaves a finished request pending |
| CdpSession.LeakIsForever | cockpit/backend/app/browser_cdp.py:187-196 | an entry whose send raised stays in the table through every later step |
| CdpSession.ReaderHasEndedIff | cockpit/backend/app/browser_cdp.py:158-170 | the reader has ended exactly when some step of the run was the socket's end, a value that is no object, or a reply to a request that had its outcome |
| CdpSession.ReaderEndHasCause | cockpit/backend/app/browser_cdp.py:158-170 | in terms of the actions alone: the end follows the socket's end, a value that is no object, or a second reply after a reply or the timer |
| CdpSession.SecondReplyExample | cockpit/backend/app/browser_cdp.py:158-170 | the run of four steps that ends the reader by a second reply, after which a second request never gets one |
| CdpSession.DeadReaderStarves | cockpit/backend/app/browser_cdp.py:158-196 | after that no request gets a reply |
| CdpSession.Cdp.NextId | cockpit/backend/app/browser_cdp.py:172-175 | the id counter's step of the machine |
| CdpSession.Cdp.BeginSend | cockpit/backend/app/browser_cdp.py:187-192 | registering a request |
| CdpSession.Cdp.Read | cockpit/backend/app/browser_cdp.py:158-170 | one message through the reader |
| CdpSession.Cdp.LoseSocket | cockpit/backend/app/browser_cdp.py:158-170 | the connection ends under the reader |
| CdpSession.Cdp.EndWait | cockpit/backend/app/browser_cdp.py:193-196 | the caller wakes with its outcome and removes its entry |
| JobRegistry.Registry.Reap | cockpit/backend/app/hiroshima.py:377-452 | one job is closed as done or timed out, or left running |
| JobRegistry.Registry.ReapAll | cockpit/backend/app/hiroshima.py:458-463 | one pass over all jobs |
| JobRegistry.Registry.Persist | cockpit/backend/app/hiroshima.py:470-494 | the file holds the kept jobs, or the old content when the write fails |
| JobRegistry.Registry.WatchTick | cockpit/backend/app/hiroshima.py:455-467 | reap all, then persist |
| JobRegistry.Registry.ReapName | cockpit/backend/app/hiroshima.py:579-584 | reaps the running jobs of a name and says whether one still runs |
| JobRegistry.Registry.BeginStart | cockpit/backend/app/hiroshima.py:567-584 | result and table after the first locked section of a start, on every branch |
| JobRegistry.Registry.Launch | cockpit/backend/app/hiroshima.py:585-638 | result, table and file after the second one |
| JobRegistry.Registry.Load | cockpit/backend/app/hiroshima.py:497-531 | the table after reading the file |
| JobRegistry.StartPassVisitsAll | cockpit/backend/app/hiroshima.py:579-584 | the early exit of a start skips nothing: it reaps every job of the name and blocks exactly when one is left |
| JobRegistry.PassVisitsAll | cockpit/backend/app/hiroshima.py:377-463 | after a pass a job runs exactly when it ran, its process is alive and ours and its age is at most 900 s, and is then unchanged; a process that is gone ends it as done, with the exit code of our child, an old one as timed out |
| JobRegistry.StartPassVisits | cockpit/backend/app/hiroshima.py:579-584 | the same for the jobs of a starting name, which blocks exactly when one of them may stay |
| JobRegistry.BeginAnswers | cockpit/backend/app/hiroshima.py:567-584 | which of its answers the first section of a start gives, and what it leaves of the table |
| JobRegistry.RunsUntilClosed | cockpit/backend/app/hiroshima.py:377-638 | over runs inside one process: a running job stays exactly as it is until the first step that visits it and finds its process gone, not ours or too old, and that step ends it for good |
| JobRegistry.LaunchedRunsUntilClosed | cockpit/backend/app/hiroshima.py:585-638 | the same for a job from its launch on |
| JobRegistry.KeptAre | cockpit/backend/app/hiroshima.py:470-494 | every running job is kept, and exactly the eight newest finished ones, or all when there are fewer |
| JobRegistry.ReloadAfterPersist | cockpit/backend/app/hiroshima.py:470-531 | exactly the kept jobs come back, with their fields; a running one stays running exactly when its process is alive and ours |
| JobRegistry.LoadExtends | cockpit/backend/app/hiroshima.py:497-531 | reading any file into any table keeps the table in front and ids distinct, and adds an id exactly when a row has it |
| JobRegistry.AddedJobsAre | cockpit/backend/app/hiroshima.py:497-531 | an added job is what the first row of its id says, with the defaults for name and start |
| JobRegistry.EveryRunIsGood | cockpit/backend/app/hiroshima.py:306-338 | over every run, whatever happens between the two sections of a start: stopped exactly when not running, distinct ids, never two running jobs of one name |
| JobRegistry.StepsNeverReturn | cockpit/backend/app/hiroshima.py:306-338 | inside one process no finished job runs again |
| JobRegistry.RestartReturnsIffStale | cockpit/backend/app/hiroshima.py:497-531 | a restart brings a finished job back exactly when the file holds a stale row for it |
| JobRegistry.WrittenTickLeavesNothingStale | cockpit/backend/app/hiroshima.py:455-494 | a tick that is written leaves no stale row |
| JobRegistry.JobsNeverReturnIff | cockpit/backend/app/hiroshima.py:377-531 | over every run: at no point of it is a job that was seen finished running again, exactly when no restart finds a stale row |
| JobRegistry.ResurrectionExample | cockpit/backend/app/hiroshima.py:377-531 | a run in which a finished job is running again |
| Recency.Workspaces.Open | cockpit/backend/app/workspace.py:215-227 | the opened path moves to the front, cut at 12 |
| Recency.Sessions.List | cockpit/backend/app/sessions.py:130-137 | the sessions of the index, newest first, those with one time in their old order |
| Recency.Sessions.Touch | cockpit/backend/app/sessions.py:176-214 | the touched session moves to the front of the listed index, cut at 80 |
| Recency.CutCommutes | cockpit/backend/app/workspace.py:215-227 | cutting before a step as well loses nothing |
| Recency.OpensKeepTheNewest | cockpit/backend/app/workspace.py:215-227 | after any run of opens the list is the first 12 of the reversed, deduplicated history |
| Recency.TouchesKeepTheNewest | cockpit/backend/app/sessions.py:130-214 | with a clock that never goes back the index is the first 80 of the reversed, deduplicated history and sorting it changes nothing |
| Recency.NextListingKeepsOrderIff | cockpit/backend/app/sessions.py:130-137 | the next listing keeps the order exactly when the touch is not older than the entry behind it |
| EnvFile.Parse | cockpit/backend/app/secrets_store.py:133-143 | the dictionary of the file's lines |
| EnvFile.SecretsFile.Put | cockpit/backend/app/secrets_store.py:173-217 | a refused put leaves the text; an accepted one writes the updated dictionary over the old lines |
| EnvFile.Rewrite | cockpit/backend/app/secrets_store.py:189-204 | known keys get their new line, removed keys lose theirs, other lines stay |
| EnvFile.AppendNew | cockpit/backend/app/secrets_store.py:209-211 | new keys follow in ascending order |
| EnvFile.FileRoundTrip | cockpit/backend/app/secrets_store.py:133-217 | the written file parses to the dictionary exactly when keys are proper and values clean |
| EnvFile.PutRoundTripsIff | cockpit/backend/app/secrets_store.py:133-217 | the file after an accepted put parses to the old dictionary with the updates exactly when all set values are clean and their keys proper |
| EnvFile.AcceptedButImproper | cockpit/backend/app/secrets_store.py:179-187 | three accepted updates that do not come back |
| EnvFile.UpdatedIsGoodIff | cockpit/backend/app/secrets_store.py:179-187 | the updated dictionary prints well exactly when every update does |
| EnvMeaning.ParseLineIff | cockpit/backend/app/secrets_store.py:133-143 | the grammar of a line: it assigns a value exactly when it is blanks, a key, blanks, the sign, the value as it stands, blanks |
| EnvMeaning.KeyIff | cockpit/backend/app/secrets_store.py:9 | a key is a capital and then 1 to 63 capitals, digits or underscores |
| EnvMeaning.DictIs | cockpit/backend/app/secrets_store.py:133-143 | the last line that assigns a key says its value |
| EnvMeaning.PutIsRefusedIff | cockpit/backend/app/secrets_store.py:178-187 | a put is refused by its first offending update, for its key or its value |
| EnvMeaning.NewFileIs | cockpit/backend/app/secrets_store.py:189-214 | the new file line by line: old lines in order without those of deleted keys, assigned ones with their new value, then the keys no old line has, ascending |
| EnvMeaning.PutMeans | cockpit/backend/app/secrets_store.py:173-217 | after an accepted put of proper updates each key reads back with its new value, is gone, or is as before |
| EnvFile.CommentsSurvive | cockpit/backend/app/secrets_store.py:189-214 | for any dictionary with proper keys and values without breaks, trailing blanks included, comments, blanks and unrecognised lines survive in order |
| EnvComments.CommentsSurviveIff | cockpit/backend/app/secrets_store.py:173-217 | an accepted put keeps the comments and unrecognised lines, adding none, exactly when each key set is proper and each line that a break in a value opens is an entry |
| EnvComments.TidyIffNoOther | cockpit/backend/app/secrets_store.py:133-143 | that condition on an accepted update says that its printed line is read back without a line that is no entry |
| EnvComments.BreakFreeIsTidy | cockpit/backend/app/secrets_store.py:179-187 | it holds for proper keys and values without breaks |
| EnvComments.AcceptedButUntidy | cockpit/backend/app/secrets_store.py:179-187 | an accepted update that adds an unrecognised line |
| EnvFile.DuplicatesAgree | cockpit/backend/app/secrets_store.py:189-214 | two lines of a written file with one key are equal |
| EnvFile.PrintingAgainIsStable | cockpit/backend/app/secrets_store.py:189-214 | printing the same dictionary over its own file changes nothing |
| EnvRepeat.PutAgainIsStableIff | cockpit/backend/app/secrets_store.py:173-217 | repeating an accepted put leaves the text unchanged exactly when each key set is proper and each line that a break in a value opens is deleted by the same put |
| EnvRepeat.BreakFreeIsSettled | cockpit/backend/app/secrets_store.py:173-217 | the condition holds for proper keys and values without breaks, trailing blanks included |
| EnvRepeat.AcceptedButUnsettled | cockpit/backend/app/secrets_store.py:179-187 | an accepted put, of a key with a final line feed, that changes the text when repeated |
| EnvRepeat.SettledThoughBroken | cockpit/backend/app/secrets_store.py:173-217 | it holds for a value with a break whose second line the put deletes |
| EnvRepeat.SecondIsStableIff | cockpit/backend/app/secrets_store.py:189-214 | the same for the printed lines of one file |
| AideScope.UnionPrefixes | scripts/lib/aide_classify.py:566-577 | the nested loops compute the stable union |
| AideScope.ScopeFile.WriteScope | scripts/lib/aide_classify.py:580-617 | the file holds `WrittenScope`: the union of old and requested prefixes, the default scope for an empty request, and the digests of the readable files among them |
| AideScope.HashPrefixes | scripts/lib/aide_classify.py:595-603 | digests of exactly the prefixes that are readable regular files |
| AideScope.UnionIsFirstOccurrences | scripts/lib/aide_classify.py:557-577 | the union is the first-occurrence list of the kept decoded requests |
| AideScope.ScopeLists | scripts/lib/aide_classify.py:557-617 | a written scope lists exactly the old and requested prefixes, decoded, that are absolute and neither Proton's nor snap's |
| AidePaths.CoversIff | scripts/lib/aide_classify.py:470-471 | a prefix covers itself and what lies in the directory it names, with any closing slashes, and no longer name that merely begins alike |
| AidePaths.ClassesAre | scripts/lib/aide_classify.py:377-398 | which paths belong to which class |
| AideScope.UnionAbsorbs | scripts/lib/aide_classify.py:566-577 | stored stable prefixes stand for everything requested before |
| AideScope.StoredIsUnionOfAll | scripts/lib/aide_classify.py:557-617 | over any run of writes with decode-stable requests the file holds the first-occurrence union of everything requested, the default scope standing for an empty request |
| AideScope.RewriteKeepsIffStable | scripts/lib/aide_classify.py:566-617 | a rewrite keeps the stored prefixes exactly when each is decode-stable |
| AideScope.DoublyEscapedPathDrifts | scripts/lib/aide_classify.py:75-77 | a path that two writes store differently |
| AideScope.ListedIsFrozenAfterWrite | scripts/lib/aide_classify.py:463-617 | right after any write every path of the written scope is frozen, its file readable or not |
| AideScope.ListedUnfreezesIffChanged | scripts/lib/aide_classify.py:463-483 | a listed, decode-stable path with a recorded digest unfreezes exactly when it is a readable file with another digest, and raises exactly when it is an unreadable one |
| AideScope.NoticesChangesIffStable | scripts/lib/aide_classify.py:463-483 | for every listed path with a recorded digest: the overlay notices exactly the changes of that file if and only if the path is decode-stable |
| AideScope.RaisesIffCannotCompare | scripts/lib/aide_classify.py:463-483 | the overlay raises exactly on a covered path with a digest, its own or that of its first covering prefix, that is an unreadable file |
| AideScope.ChangedIff | scripts/lib/aide_classify.py:463-483 | the overlay lets a path show exactly without a scope, outside it, or when its readable content is known to differ |
| AideScope.EscapedPathGoesUnnoticed | scripts/lib/aide_classify.py:463-617 | a written scope that lists a path with its digest and stays frozen when that file changes |
| AideTriage.ParsePaths | scripts/lib/aide_classify.py:401-434 | the line loop lists each path once, by its first line |
| AideTriage.ParsedAreFirstListings | scripts/lib/aide_classify.py:401-434 | the parsed paths are the listed ones without repetition, in order |
| AideTriage.ReportListsIff | scripts/lib/aide_classify.py:401-434 | a report lists exactly the paths of its entries, changed directories aside, and of its file headers outside the sections, each once |
| AideTriage.PkgForPath | scripts/lib/aide_classify.py:221-233 | exact owner first, else the best covering identity owner |
| AideTriage.BestOwnerIsLongest | scripts/lib/aide_classify.py:221-233 | the chosen owner has the longest covering path, the first on a tie, and there is one exactly when some owner covers |
| AideTriage.SortPaths | scripts/lib/aide_classify.py:507-521 | each bucket and the skipped list hold exactly their paths in report order, and the loop crashes exactly when the overlay raises on a path of a class that may be frozen |
| AideTriage.EveryPathHasOnePlace | scripts/lib/aide_classify.py:401-521 | buckets and skipped paths together are the parsed paths, each once |
| AideTriage.PlacesPartition | scripts/lib/aide_classify.py:507-521 | distinct places that cover all paths split them without loss or repetition |
| AideTriage.Records | scripts/lib/aide_classify.py:522-554 | one finding for each nonempty bucket, in the fixed order |
| AideTriage.FindingsFromReport | scripts/lib/aide_classify.py:486-554 | the whole pass on every branch, before the display cuts |
| AideTriage.AlertIsUnexcusedIdentity | scripts/lib/aide_classify.py:221-554 | the ALERT finding holds exactly the identity paths without an owner whose event or debsums excuses them, in report order, and is absent when there are none |
| AideTriage.FinalClassIs | scripts/lib/aide_classify.py:221-518 | an identity path is excused exactly by its owner's package: an event of that very package within a day of the first known time, or of the scan for a binary, makes it a package path, else debsums OK for it or its target a stale one |
| AideTriage.PkgIsOwner | scripts/lib/aide_classify.py:221-233 | the package is that of the path's own entry, else of the longest covering identity entry |
| AideTriage.OtherEventsDoNotMatter | scripts/lib/aide_classify.py:236-283 | events of other packages change nothing about a path |
| AideTriage.FindingsAre | scripts/lib/aide_classify.py:507-554 | one finding for each class with a path to show, in the fixed order, with exactly its unfrozen paths in report order |
| AideTriage.NoDifferencesSays | scripts/lib/aide_classify.py:491-503 | a report without differences has at most one finding, the missing database, exactly when it failed to open |
| AideTriage.SeverityAndId | scripts/lib/aide_classify.py:47-56 | severity and id of each finding |
| AideTriage.EndingRunsShareTheAlert | scripts/lib/aide_classify.py:463-554 | two runs that end, under any overlays, give the same ALERT |
| AideTriage.TriageIsLostIff | scripts/lib/aide_classify.py:463-554 | a run is lost with all its findings exactly when some reported path, of a class that may be frozen, is covered by the scope, has a digest for itself or for its first covering prefix, and is an unreadable file |
| AideTriage.ScopeKeepsAlertIff | scripts/lib/aide_classify.py:463-554 | the run without a scope always ends, and a scope keeps its ALERT exactly when no such path is reported |
| AideTriage.UnreadableFileLosesAlert | scripts/lib/aide_classify.py:463-617 | the default scope, written once, with a report and a later disk for which the ALERT of the run without a scope is lost |
| AideTriage.TriageReport | scripts/lib/aide_classify.py:377-554 | the pass with the source's decoder, classes and overlay, and its ALERT |
| RepeatTable.ListedAreNewest | scripts/kalived-advise.py:200-214 | listed snapshots are live, and a live one is left out only of a full list, and only when it is no newer |
| RepeatTable.WindowHasDistinctPaths | scripts/kalived-advise.py:249-256 | the window holds no snapshot twice and keeps its bound when the current one is put in front |
| RepeatTable.ListedIs | scripts/kalived-advise.py:200-214 | listed snapshots are live ones of the directory, newest first, and all of them if they fit |
| RepeatTable.WindowIs | scripts/kalived-advise.py:249-256 | a live current snapshot that the list lacks stands in front and the oldest makes room; any other changes nothing |
| RepeatTable.AddSnap | scripts/kalived-advise.py:265-321 | one snapshot updates the record of each id it holds once, by its first finding or as the synthetic id |
| RepeatTable.Tabulate | scripts/kalived-advise.py:258-321 | the records after all snapshots are those of `RecOf` |
| RepeatTable.RecordCountsHolders | scripts/kalived-advise.py:260-321 | an id has a record exactly when some window snapshot holds it; n counts those snapshots and the stamps are theirs |
| RepeatTable.SeverityIsMaximal | scripts/kalived-advise.py:273-321 | no finding read for the id outranks the record's severity, which was read or is the INFO of a synthetic first sighting |
| RepeatTable.SeverityIsLastHighest | scripts/kalived-advise.py:273-321 | the record's severity is the one the last snapshot of highest rank read, but a synthetic first sighting counts as an INFO that no unknown severity replaces |
| RepeatTable.FirstReadIsFirst | scripts/kalived-advise.py:265-272 | the first finding of an id counts in its snapshot |
| RepeatTable.RowLeIs | scripts/kalived-advise.py:343-350 | rows seen before, graver, more frequent first, then by id |
| RepeatTable.RanksAre | scripts/kalived-advise.py:139 | the order of the severities, ALERT and ERROR alike, unknown ones last |
| RepeatTable.RepeatFromStatus | scripts/kalived-advise.py:242-355 | one row for each id of the window, with exact n, least and greatest stamp, seen before exactly from two on, sorted by (seen before, rank, n, id), cut at 32 |
| AlertCounts.CountLines | scripts/lib/suricata_eve.py:122-126 | the counter holds the exact count of every record that occurs |
| AlertCounts.Aggregate | scripts/lib/falco_burst.py:80-89 | one row for each record with its exact count, sorted by (-n, record), for any total order of records |
| AlertCounts.OrderIsIrrelevant | scripts/lib/suricata_eve.py:121-138 | every reordering of the lines gives the identical list |
| AlertCounts.CountsSumToLines | scripts/lib/suricata_eve.py:121-138 | the counts sum to the number of lines that parse |
| AlertCounts.RowOrderIs | scripts/lib/falco_burst.py:80-89 | more frequent rows first, the record breaks ties |
| FindingIds.FindingIds | scripts/lib/suricata_eve.py:194-211 | the severity kept for each id |
| FindingIds.HighestIsMaximum | scripts/lib/falco_burst.py:136-153 | it is one of the id's severities and none outranks it |
| FindingIds.RaisedIff | scripts/lib/suricata_eve.py:194-221 | a domain is raised exactly when one of its ids has a WARN or ALERT finding and no ERROR finding |
| FindingIds.ExtraFindingsKeepRaised | scripts/lib/suricata_eve.py:194-221 | extra findings keep a domain raised when some raising id gets no ERROR |
| FindingIds.ExtraErrorLowers | scripts/lib/suricata_eve.py:194-221 | an extra ERROR that ends a raised domain |
| FindingIds.DomainsAre | scripts/lib/falco_burst.py:156-163 | the two domains by name; the network ids listed one by one would count by their prefix anyway |
| HostAlerts.AggregateFalco | scripts/lib/falco_burst.py:80-89 | Falco rows in the order of their (rule, exe, event) tuples |
| HostAlerts.AggregateSuricata | scripts/lib/suricata_eve.py:121-138 | Suricata rows in the order of their (sid, signature, protocol, exe) tuples |
| HostAlerts.FalcoAlertIff | scripts/lib/falco_burst.py:166-215 | ALERT exactly when rows are harvested and a file or network id is raised |
| HostAlerts.SuricataAlertIff | scripts/lib/suricata_eve.py:239-316 | ALERT exactly when a signal row meets a raised domain, or decoder rows alone name a program and a network or Falco finding is raised |
| HostAlerts.SeveritiesAre | scripts/lib/suricata_eve.py:272-316 | every severity of the two findings in terms of the rows and the other findings |
| HostAlerts.TupleOrdersAre | scripts/lib/suricata_eve.py:121-138 | the tuples are compared part by part |
| HostAlerts.ExtraFindingsNeverLower | scripts/lib/suricata_eve.py:239-316 | with rows fixed, extra findings without ERROR lower neither severity |
| ScanActions.DeletedKind | scripts/lib/scan_actions.py:143-163 | packaged exactly when there are hits and each names only package-owned executables and at least one |
| ScanActions.ActionsFromVerdict | scripts/lib/scan_actions.py:235-397 | the chain of conditions gives the wanted entries of the table in order, or the closing row |
| ScanActions.TableRowsAre | scripts/lib/scan_actions.py:55-397 | table rows have distinct ids, and each stands for a wanted entry with that entry's run and confirmation |
| ScanActions.SignalPort | scripts/lib/scan_actions.py:435-505 | all picks in turn, the network's own first |
| ScanActions.SignalOne | scripts/lib/scan_actions.py:457-504 | one pick: rewrite, move first, add a text row, or drop |
| ScanActions.PortActions | scripts/lib/scan_actions.py:400-432 | one row's why is rewritten and the row moved first, or nothing changes |
| ScanActions.PicksKeepActingRows | scripts/lib/scan_actions.py:435-505 | any list of picks keeps ids distinct and every row's (id, run, confirm); added rows are text only |
| ScanActions.PortOnlyReorders | scripts/lib/scan_actions.py:400-432 | a port only reorders the (id, run, confirm) parts |
| ScanActions.PicksTouchOneRow | scripts/lib/scan_actions.py:400-505 | a pick or port that finds its row leaves every other row unchanged and in order; an accepted port puts its row first |
| ScanActions.AttachActions | cockpit/backend/app/hiroshima.py:189-216 | the composed sheet, with distinct ids and no ack-stale verb beside an identity ALERT |
| ScanActions.SheetIsSafe | cockpit/backend/app/hiroshima.py:189-216 | for every verdict, picks and last pick the sheet keeps the table's acting rows and adds text rows only |
| ScanActions.VerbsAreTheTables | scripts/lib/scan_actions.py:235-505 | a runnable verb is on the final sheet exactly when the table wants its row |
| ScanActions.IdentityAlertBlocksAck | scripts/lib/scan_actions.py:235-505 | an identity ALERT ends with no ack-stale row and no such verb, whatever the model says |
| ScanActions.SheetOffersExactly | scripts/lib/scan_actions.py:235-505 | for any texts, picks and last pick: isolate-dst is offered exactly at home with something isolatable, isolate-undo exactly with a rollback, and the stale acknowledgement exactly with a stale and no identity finding at ALERT |
| ScanActions.RowsRunTheirVerb | scripts/lib/scan_actions.py:55-505 | each row of the sheet runs what its id says and asks for confirmation exactly when it runs something |
| ScanActions.TableSaysExactly | scripts/lib/scan_actions.py:235-327 | which rows the deleted executables and the network put on the table |
| ScanActions.NoticesSayExactly | scripts/lib/scan_actions.py:329-375 | which rows the notices put there |
| ScanActions.PackagedIff | scripts/lib/scan_actions.py:143-163 | when deleted executables count as package-owned, from the findings themselves |
| ScanActions.DpkgExeIff | scripts/lib/scan_actions.py:134-140 | which paths are package-owned |
| ScanActions.TargetIs | scripts/lib/scan_actions.py:415-427 | a pick means the first row with its id if there is one, else the first with its verb |
| ScanActions.ChosenRowIs | scripts/lib/scan_actions.py:400-505 | what a pick or a port makes of its row, and where the row goes |
| ScanActions.UnplacedPickIs | scripts/lib/scan_actions.py:478-489 | a pick without a row adds one text row, or nothing |
| ScanActions.UnknownVerbIsDropped | scripts/lib/scan_actions.py:400-505 | a pick whose verb is unknown, or that no row runs, changes nothing |
| ScanActions.RoamingComesFirst | scripts/lib/scan_actions.py:435-505 | on a travel or tether network the advice to harden comes first |
| ScanActions.PlaybookComesFirst | cockpit/backend/app/hiroshima.py:189-216 | the playbook the model names comes first if the sheet offers it, ask_operator brings its row to the front, any other word moves nothing |
| Veto.FindingSevs | cockpit/backend/app/hiroshima_decide.py:612-617 | the severity of the last row of each id |
| Veto.RaisedIffLastRowLifts | cockpit/backend/app/hiroshima_decide.py:612-637 | a sensor is raised exactly when its last row is WARN or ALERT |
| Veto.ApplyVeto | cockpit/backend/app/hiroshima_decide.py:925-956 | the edited copy: other answers untouched, class and playbook as guaranteed below |
| Veto.VetoGuarantees | cockpit/backend/app/hiroshima_decide.py:925-956 | for every digest and answer map: hard means alert_family and no remediation; alert_family otherwise means asked, a dual answer not below 0.5 and no raised sensor; noise means asked, nothing hard or raised and no tether or travel |
| Veto.TwoDomainsIff | cockpit/backend/app/hiroshima_decide.py:925-956 | for one digest, alert_family beside nothing hard means asked, no raised sensor and dual at least 0.5, exactly when the dual answer is a number, or alert_family was not asked, or the findings decide |
| Veto.TwoDomainsAlwaysIff | cockpit/backend/app/hiroshima_decide.py:925-956 | an answer map meets that rule for all digests exactly when its dual answer is a number or it does not ask for alert_family |
| Veto.NotANumberPasses | cockpit/backend/app/hiroshima_decide.py:931-940 | an answer map whose alert_family passes a clean scan without a dual answer of 0.5 |
| Veto.VetoTwice | cockpit/backend/app/hiroshima_decide.py:925-956 | a second veto changes nothing |
| Veto.RulesAgreeWithVeto | cockpit/backend/app/hiroshima_decide.py:856-956 | the veto changes no choice of the rules' own answers |
| Veto.RulesAlertIffHard | cockpit/backend/app/hiroshima_decide.py:856-956 | with the rules' answers alone alert_family means exactly a hard artefact or an ALERT verdict |
| Veto.VetoedClassIs | cockpit/backend/app/hiroshima_decide.py:925-946 | the class after a veto, from the findings and the answers alone |
| Veto.UnansweredIs | cockpit/backend/app/hiroshima_decide.py:931-932 | a missing or empty class counts as noise, a missing dual as 0 |
| Veto.VetoedPlaybookIs | cockpit/backend/app/hiroshima_decide.py:950-955 | a playbook that would change the machine is withdrawn exactly beside a hard artefact or an ALERT verdict |
| Veto.VetoedReasonIs | cockpit/backend/app/hiroshima_decide.py:933-949 | the veto leaves its reason exactly when it decides |
| Veto.RuleChoicesAre | cockpit/backend/app/hiroshima_decide.py:856-916 | the rules' own class and playbook, from the findings alone |
| Veto.RuleDualIs | cockpit/backend/app/hiroshima_decide.py:867-896 | when the rules call two domains |
| Veto.RuleScoresAre | cockpit/backend/app/hiroshima_decide.py:892-906 | the rules' score, and their word on the established traffic |

## Left out

- Reading lines, JSON, timestamps and patterns: the models start from parsed records.
- The digest's top_block_dpt and allow_dns_proton counters: of the same shape as those proved.
- HTTP routes, the user interface, subprocesses, sudo calls and the network clients of the language models: their answers are arbitrary inputs.
- Display cuts and wording of titles, details and reasons, and the `extra` field of an action row: no decision reads them.
- pid, exe and kind of a repeat row, and stamps that do not order like integers.
- The action file that a start may write first, and its failure.
- Signals and log handles of jobs, and an exit code that our child does not have yet: a reap is one atomic step, and the short poll after a start is a further listing step; two starts of one name do not overlap, any other steps may fall between the two locked sections of a start.
- Accessibility trees with cycles: child links are assumed acyclic, by a rank on node ids.
- Contents and titles of sessions, the last entries of a history, and the workspace's file reading and editing.
- The environment overlay, ring, mercury rules and graph stores of the decision module.
- A freeze scope that is not a JSON object, and directories among the listed prefixes beyond their path.
- AideScope.ListedIsFrozenAfterWrite: takes for granted that nothing lies below a regular file, as on every file system.
- TurnLoop.EveryCallGetsItsAnswer: says nothing of a dispatching result that carries a terminal status, which no tool makes (cockpit/backend/app/tools.py:781-788).
- HostAlerts.ExtraFindingsNeverLower: excludes ERROR findings, because with one it is false; FindingIds.RaisedIff gives the exact condition.
- Recency.TouchesKeepTheNewest: assumes a clock that never goes back; Recency.NextListingKeepsOrderIff says what a step back does.
