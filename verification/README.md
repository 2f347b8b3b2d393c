# Match control, scoring and node scheduling

The repository runs matches between coding agents: a central server keeps the
matches, hands encrypted prompt schedules to nodes and ranks them by the metrics
they report; a node decrypts its prompts when they are due, opens one window per
prompt and collects what the agent in it reports.

This project models

- **the control plane** of the server: REGISTER with its key agreement, the
  match rows, the coroutines `start`, `stop` and the auto-stop, suspended at every
  `await`, and the event loop that resumes them in any order;
- **the node**: keys, the timers of a schedule, windows and their receive loop;
- **metrics**: the ingester's handlers interleaved on the same loop, the totals
  query, scores, rounding, ranking, and the replay query.

## How it is built

A stretch of code between two awaits is one function on the state it changes
(`ServerCore.dfy`, `Ingest.dfy`, `NodeAgent.dfy`).  `Control.dfy` and `System.dfy`
let an arbitrary sequence of events pick what runs next: requests, REGISTERs,
timers, database statements, resumptions, cancellations.  An event that does not
apply changes nothing, so every sequence is a run and results are stated for all
sequences.  Histories (`log`) record accepted REGISTERs, messages sent, states
stored and how calls end; most results speak about them.

The objects that the code updates in place are classes (`Server.dfy`,
`NodeProcess.dfy`, `MetricsService.dfy`, `Framing.AgentWindow`); their methods are
proved equal to those functions, loops included.

Cryptography is a parameter, `Sealing.Suite`, with the laws it is used for:
X25519 commutes (section 6.1 of RFC 7748), decryption undoes encryption, and the
i-th random draw of a given length is a function of i; `LawfulSuite.PlainIsLawful`
shows a suite that meets them all.  Where it is said, sealing also authenticates
(`Sealing.Authentic`).  Base64 is modelled down to the bits
(section 4 of RFC 4648), with the lenient decoder that Python uses by default.

Two assumptions recur.  *Serialised* runs (`Lifecycle.SerialRun`) are those in
which no two start or stop calls of the same match overlap; other matches,
REGISTERs and metrics still interleave freely.  *Apart* (`NodeRuns.ApartRun`) means
that a START meets no active schedule of its own match; other matches may be
running, and every run in which no two STARTs carry the same match id is apart
(`NodeRuns.DistinctStartsAreApart`).  Neither holds of itself: an administrator may
start and stop one match at once, and may list one node twice in a match, so that
two STARTs of it arrive there back to back.  `Overlap.OverlapReopens` and
`NodeWindows.SecondStartDisplaces` are runs in which something goes wrong then.  When
it does is said for all runs, as an if and only if: a finished match that comes back
by `Finality.FinishedForGood`, a window lost from the table by
`NodeWindows.WindowsRightExactly`, a firing that finds no key by
`NodeRuns.MissingKeyExactly`.

## What the code does that its description does not say

- An auto-stop pops its own task and cancels it, so the stop may be cut short at
  its next await (central_server/match/manager.py:68-70), although the match is said
  to stop by itself (central_server/SETUP.md:129).  It may then stay RUNNING, its
  auto-stop gone, until someone stops it: `Overlap.AutoStopCutShort`.  In whatever
  state, a stop is in this danger exactly if it runs in the task that the timer table
  holds for its match, or was told to cancel by another stop before
  (`Interruption.StopCancelsItself`); in serialised runs that is an auto-stop that
  woke, never a stop that was asked for (`Interruption.OnlyAutoStopsAreCut`).
  Results cover this case instead of assuming it away.
- A finished match can be reopened by a start that looked it up before: exactly when
  this can happen is `Finality.FinishedForGood`.
- A node that reconnects while its match runs is told `was_running` only once; its
  next REGISTER in that match is answered with false and makes it READY:
  `Safety.WasRunningEchoedOnce`; when it is told so at all: `NodeStates.WasRunningExactly`.
- A REGISTER whose key cannot be used leaves the node registered without a session:
  `Safety.SessionsComplete` says exactly when no node is left so.
- A match may list one node twice (central_server/api/admin.py:34-48).  Both schedules
  open windows under the same ids, and the table loses one:
  `NodeWindows.SecondStartDisplaces`.
- STOP reaches the schedule of the last START only:
  `NodeAgent.StopQuietsAll` says exactly when that quiets the node.
- Metrics from a node name no match (node/connection.py:88-94) and would be dropped;
  the model takes the match from the payload, as the ingester reads it.
  `Payloads.PayloadStoredExactly` says which payloads are stored.
- `tokens_used` is cumulative per terminal but summed over rows; scores are stated
  for stored rows.

## Model

| member | source | states |
|---|---|---|
| Safety.IdentityAndSessionAgree | central_server/network/router.py:129-150 | At every await point of every run, overlapping calls included: a node is registered exactly if it had an accepted REGISTER, its identity is that of the latest one, and it has a session exactly if that one's key was usable, namely the key agreed with it |
| Safety.SessionsComplete | central_server/crypto/session.py:45-58 | Registered nodes and nodes with a session coincide if and only if the latest accepted REGISTER of every node carried a usable key |
| Safety.RegisteredMeansSession | central_server/network/router.py:132-135 | They coincide in every run whose accepted REGISTERs all carry usable keys |
| Safety.RegisterProvenance | central_server/network/router.py:108-150 | One REGISTER, accepted or not, keeps identity and session of every node traceable to its latest accepted REGISTER |
| Safety.EveryStartOpens | central_server/match/manager.py:115-136 | Every START of every run goes to the connection of its node's latest REGISTER, after that REGISTER's REGISTER_OK, carries an assignment of that node, and whoever holds the registered private key recovers every prompt in order with delays unchanged |
| Safety.StepSafe | central_server/match/manager.py:32-82 | Every event keeps provenance, the soundness of all STARTs sent, and every suspended call working on its match's stored configuration |
| Sealing.SessionAgrees | node/crypto.py:33-41 | Both ends of a registration derive the same session key |
| LawfulSuite.PlainIsLawful | central_server/crypto/session.py:39-119 | The laws asked of the cryptographic primitives can be met together |
| Sealing.UnpackPack | central_server/crypto/session.py:88-90 | The wire blob splits back into its nonce and ciphertext, whatever the length of the ciphertext |
| Sealing.UnwrapUndoesWrap | node/crypto.py:43-46 | The node unwraps exactly the match key that the server wrapped |
| Sealing.OpenUndoesSeal | node/crypto.py:48-53 | The node decrypts exactly the prompt that the server encrypted for that match |
| Sealing.ScheduleOpens | central_server/crypto/session.py:110-119 | A sealed schedule opens entry by entry: same length, order, delays and prompts |
| Sealing.OnTheWire | central_server/crypto/session.py:88-108 | What is sent is base64 of a twelve-byte nonce and the ciphertext: the match key sealed under the session, the prompt's text under the match key with the match id as associated data |
| Sealing.OpensForItsMatchOnly | central_server/crypto/session.py:97-108 | Under authenticated encryption a prompt sealed for one match opens for no other, even under the same key |
| Freshness.DrawsUsedOnce | central_server/crypto/session.py:71-108 | In every run each private key drawn, each nonce of a match key or prompt sent, and each match key held is a random draw that went into nothing else |
| Base64.RoundTrip | central_server/crypto/session.py:11-16 | Decoding undoes encoding for every byte string |
| Base64.EncodeUndoesDecode | node/crypto.py:8-12 | Encoding undoes decoding exactly on the canonical strings; the lenient decoder accepts more |
| Base64.EncodesGroups | central_server/crypto/session.py:11-12 | Each group of three bytes becomes the four letters of Table 1 of RFC 4648 for its bits from the most significant on, a short last group padded |
| Base64.StrayIsSkipped | node/crypto.py:11-12 | The decoder skips an ASCII character outside the alphabet wherever it stands |
| Base64.UnfinishedIsRefused | node/crypto.py:11-12 | and refuses an unfinished group without padding |
| Lifecycle.KeyTimerRunning | central_server/match/manager.py:55-82 | In serialised runs, with no call of the match in flight: key held, auto-stop recorded and RUNNING say the same, except after an auto-stop was cut short; timer and RUNNING agree if and only if that did not happen |
| Interruption.StopCancelsItself | central_server/match/manager.py:67-70 | In whatever state, overlapping stops included: a stop past its lookup can be cut short if and only if it was told to cancel before or runs in the task that the timer table holds for its match; cut short, it leaves the match as it was, without a timer |
| Interruption.OnlyAutoStopsAreCut | central_server/match/manager.py:138-142 | In serialised runs every call that was told to cancel began as an auto-stop that woke; a stop that was asked for never is |
| Interruption.CancelledWasAutoStop | central_server/match/manager.py:138-142 | In serialised runs every call that ended cancelled was such an auto-stop |
| Interruption.KeyTimerRunningUntilWoken | central_server/match/manager.py:55-82 | Until an auto-stop of the match wakes, with no call of it in flight: key held, auto-stop recorded and RUNNING say the same, without exception |
| Lifecycle.StepOrderlyAny | central_server/match/manager.py:32-83 | Every event that keeps the run serialised keeps the invariant that ties each suspended call to its match's row, key, timer and clock |
| Lifecycle.RunsOrderly | central_server/match/manager.py:32-83 | The invariant holds in every serialised run |
| History.MatchHistory | central_server/match/manager.py:36-82 | In serialised runs the stored states are LOBBY and STARTING in turn, RUNNING at most once and only after STARTING, FINISHED only last; t0 is stored exactly when the match begins to run, once, and stays |
| Finality.FinishedForGood | central_server/match/manager.py:33-52 | For all states, overlapping calls included: a finished match stays finished in every continuation if and only if no start of it is past a lookup that saw LOBBY and has not stored RUNNING |
| History.DispatchNeverFails | central_server/match/manager.py:113-122 | In serialised runs no call ever ends for a match key that exists already or is missing, so every dispatch reaches its end |
| Coverage.OneStartPerAssignment | central_server/match/manager.py:115-136 | In serialised runs with usable keys, the STARTs of a match that has run are as many as its assignments, with their nodes and agents in order and the stored t0, whatever re-registers meanwhile; one that has not has had none |
| Carriage.StartsCarryInOrder | central_server/match/manager.py:115-136 | In these runs the x-th START of a match is sealed from assignment x: schedule, node, agent and connection, also if two assignments name the same node and agent |
| Carriage.StartsOpenInOrder | central_server/crypto/session.py:76-119 | So the x-th START of a match opens, for whoever holds the registered private key, as assignment x: its prompts in order with their delays |
| Carriage.OneKeyPerMatch | central_server/match/manager.py:113-131 | In serialised runs all STARTs of a match wrap one and the same key, which the node behind each of them unwraps |
| Coverage.StepCovered | central_server/match/manager.py:106-136 | Every event keeps: while dispatching, exactly the assignments up to the current one have had their START |
| Halting.OneStopPerAssignment | central_server/match/manager.py:72-82 | In serialised runs, a match that has run and is finished, by whatever stop, has had one STOP per assignment, in order and in one go; before these, or while it runs, only the first few by an auto-stop that was cut short, and none without one |
| Halting.StepHalted | central_server/match/manager.py:60-83 | Every event keeps: while stopping, exactly the assignments up to the current one have had their STOP, after those sent by an auto-stop that was cut short |
| Halting.StopsReachLatest | central_server/match/manager.py:72-75 | In every run a STOP goes to the connection of its node's latest REGISTER |
| NodeStates.NodeStateChanges | central_server/registry/nodes.py:55-58 | Whatever the event and state, a node changes state only by its own REGISTER, to RUNNING after a START to it was sent, to READY after a STOP was, and then always |
| NodeStates.WasRunningExactly | central_server/network/router.py:129-150 | In every run a REGISTER with a usable key is answered reconnect exactly after an earlier accepted one, and was_running exactly if since the latest of them a START to the node was marked, with no STOP marked after it |
| NodeStates.RunningMeansMarked | central_server/match/manager.py:131-133 | In every run a registered node is RUNNING exactly if its last mark since its latest accepted REGISTER was a START |
| NodeStates.StartsWaitForReady | central_server/match/manager.py:93-104 | Whatever the event, a call comes to store RUNNING or LOBBY only through such a check of its own: with all assigned nodes READY at one moment, whose clock becomes t0, or with one missing at its deadline, which is that of CheckDecides |
| Outcomes.CheckDecides | central_server/match/manager.py:93-104 | In whatever state a readiness check goes on to RUNNING if and only if all assigned nodes are READY, with that moment as t0; gives up if and only if one is missing and the clock has reached the deadline; otherwise sleeps on. The deadline is the entry plus the timeout, and stays |
| Outcomes.GivesUpOutOfTime | central_server/match/manager.py:93-104 | In every run a start gives up only at a check that finds a node missing, at or after its own first check plus the timeout it was begun with |
| Outcomes.OutcomesExactly | central_server/match/manager.py:32-140 | In whatever state an event ends a call as not found, in the wrong state, not ready, stopped, started, failed on a match key or cancelled if and only if it resumes a call for which the code ends so |
| Outcomes.RegisterAnswered | central_server/network/router.py:108-150 | A wrong token is refused before the key is looked at, a missing key next, each with its reason; a key that cannot be used gets no answer; any other gets REGISTER_OK |
| Readiness.AwaitReady | central_server/match/manager.py:93-104 | The polling loop ends after at most ceil(timeout/0.5)+1 polls, returns on the first poll that sees everyone ready, and otherwise reports exactly the nodes missing from the last poll, at or after the deadline |
| Overlap.OverlapReopens | central_server/match/manager.py:33-42 | A concrete run with an overlapping start and stop in which a finished match goes back to STARTING |
| Overlap.AutoStopCutShort | central_server/match/manager.py:68-70 | A concrete serialised run in which START and STOP are sent, the auto-stop cancels itself and is cut short, and the match stays RUNNING without a timer |
| Server.NodeRegistry.Register | central_server/registry/nodes.py:35-53 | Registration in place: new or updated record, CONNECTED, with the identity of this connection |
| Server.NodeRegistry.UpdateState | central_server/registry/nodes.py:55-58 | Changes the state of a registered node, nothing else |
| Server.NodeRegistry.IdentityFor | central_server/registry/nodes.py:73-75 | The identity of the node's record, exactly for registered nodes |
| Server.CryptoManager.EstablishSession | central_server/crypto/session.py:39-64 | The old session is gone; the new one is the agreed key, and the public key returned belongs to it; with an unusable key there is none |
| Server.CryptoManager.GenerateMatchKey | central_server/crypto/session.py:71-74 | Fails exactly if the match has a key, else stores a fresh one |
| Server.CryptoManager.EncryptMatchKeyForNode | central_server/crypto/session.py:76-90 | Fails exactly without match key or session, else wraps that key under that session |
| Server.CryptoManager.RevokeMatchKey | central_server/crypto/session.py:92-93 | Removes the key of this match only |
| Server.CryptoManager.EncryptPrompt | central_server/crypto/session.py:97-108 | Fails exactly without a key, else seals the prompt for this match with a fresh nonce |
| Server.CryptoManager.EncryptSchedule | central_server/crypto/session.py:110-119 | The sealed schedule, entry by entry with consecutive nonces; fails exactly without a key for a non-empty one |
| Server.MatchStore.Create | central_server/match/store.py:82-111 | A new LOBBY row without t0; the primary key refuses a second one |
| Server.MatchStore.UpdateState | central_server/match/store.py:129-142 | State always, t0 only if given, of this match only |
| Server.ZMQRouter.Send | central_server/network/router.py:60-66 | Sends to the node's current identity, exactly if it is registered |
| Server.ZMQRouter.HandleRegister | central_server/network/router.py:108-150 | The handler on its objects computes the REGISTER step on which the results about runs rest |
| Server.MatchManager.SealAssignment | central_server/match/manager.py:120-130 | The START payload of an assignment: schedule sealed first, then the wrapped key |
| Server.MatchManager.DispatchFrom | central_server/match/manager.py:115-136 | The dispatch loop up to its next await equals the recursive step |
| Server.MatchManager.BeginDispatch | central_server/match/manager.py:106-115 | Fresh match key, then the loop; fails exactly if there is a key |
| Server.MatchManager.AfterStartSent | central_server/match/manager.py:131-134 | RUNNING once sent, then the rest of the loop |
| Server.MatchManager.AfterStopGet | central_server/match/manager.py:61-74 | stop after its lookup: not found, already finished, or timer popped and the loop entered |
| Server.MatchManager.StopFrom | central_server/match/manager.py:72-82 | The stop loop up to its next await, then revocation, equals the recursive step |
| Server.MatchManager.AfterStopSent | central_server/match/manager.py:74-77 | READY once sent, then the rest of the loop |
| Scoring.TotalsGroup | central_server/metrics/store.py:104-122 | The totals are one group per node with a row, in node order, each with the sums over exactly its rows |
| NodeOrder.LessIsLexicographic | central_server/metrics/store.py:104-122 | Node order is decided at the first code point that differs, a prefix first |
| Scoring.HalfEvenNearest | central_server/metrics/scoring.py:33-37 | Rounding gives a nearest integer, the even one of two |
| Scoring.Round4Bounds | central_server/metrics/scoring.py:33-37 | Rounded scores keep the order of the exact ones and are within 1/20000 of them |
| Scoring.SortDescendingSorts | central_server/metrics/scoring.py:27-43 | The stable descending sort of entries in node order is a permutation ordered by score, then node |
| Scoring.RankingsAreBoard | central_server/metrics/scoring.py:24-45 | The ranking is the only sequence that holds exactly one entry per node with a row, with its sums and rounded score, in that order |
| Scoring.BoardPermutes | central_server/metrics/store.py:104-122 | The board does not depend on the order in which rows were stored |
| Scoring.InsertKeepsOthers | central_server/metrics/scoring.py:24-45 | A new row of one node leaves all other entries as they were, in the same order; one of another match changes nothing |
| Scoring.InsertNeverLowersRank | central_server/metrics/scoring.py:24-60 | If a row's weighted contribution is not negative, its node's rank does not get worse |
| Scoring.BoardAddsUp | central_server/metrics/scoring.py:47-60 | Tokens and idle time on the published board add up to those of the match's rows |
| Scoring.BoardIsPublished | central_server/metrics/scoring.py:24-60 | The published board, and nothing else, has: ranks from 1 on, one line per node with a row, its sums over those rows, as score tokens times token weight minus idle seconds times idle penalty to four places with halves to even, higher scores first and ties in node order |
| Scoring.BoardRanks | central_server/metrics/scoring.py:47-60 | Entry i has rank i + 1, for every board and entry; nodes are distinct, scores descend with ties in node order, and unrounded scores differ by at most 1/10000 the wrong way |
| System.BoardsComeFromPrefixes | central_server/metrics/ingester.py:35-58 | With handlers interleaved freely, every board handed over is what is to be published, with the weights of the match's configuration, of a prefix of the log that contains the row that caused it |
| System.CompleteBoardHanded | central_server/metrics/ingester.py:50-58 | Once every handler that stored a row of a match has handed over, what is to be published of its complete log has been handed over |
| System.StoredTimes | central_server/metrics/ingester.py:36-50 | In serialised runs every stored row is of a registered node, and its relative time plus the match's t0 is the time reported |
| System.ReplayFollowsReports | central_server/metrics/store.py:89-102 | So reading a match by relative time replays the reports in the order of their times |
| MetricsService.ReplaySorts | central_server/metrics/store.py:89-102 | The replay is the rows of the match, all of them, by relative time |
| MetricsService.MetricsStore.InsertMetric | central_server/metrics/store.py:69-77 | Appends the row |
| MetricsService.MetricsStore.GetTotalsPerNode | central_server/metrics/store.py:104-122 | One group per node with a row, in node order, with the sums over its rows |
| MetricsService.MetricsStore.GetMetricsForMatch | central_server/metrics/store.py:89-102 | The rows of the match in time order |
| MetricsService.MetricsIngester.OnMetrics | central_server/network/router.py:152-159 | Payloads of unregistered nodes are dropped, others begin a handler |
| MetricsService.MetricsIngester.Statement | central_server/metrics/ingester.py:37-56 | A handler's lookup, insert or totals statement on the store equals the step on which the results rest |
| Payloads.PayloadStoredExactly | central_server/metrics/ingester.py:35-48 | With anything in between its steps, a payload is stored, once, if and only if its node is registered on arrival and its lookup finds a row with t0: node, match, terminal, idle time and tokens as they are, and its timestamp, or the clock if it has none, minus t0 |
| NodeAgent.FireTimeIs | node/scheduler.py:35-46 | A prompt is due at t0 plus its delay, or on arrival if that is past |
| NodeProcess.RestartKeepsTimers | node/scheduler.py:28-46 | Starting the same schedule again later sets the same prompts under the same ids, none missing, keeps the absolute time of those in the future and the order of delays, and fires exactly the due ones at once |
| NodeProcess.FiresWhenDue | node/scheduler.py:60-62 | A prompt may fire if and only if it still sleeps, its START has arrived and its delay after t0 is over |
| NodeProcess.NodeProcess.SleepsUntilDue | node/scheduler.py:38-62 | which is when the sleep given to its coroutine is over |
| NodeRuns.FiresOnceNeverEarly | node/scheduler.py:38-71 | In every run, STARTs and STOPs in any order, every prompt is pending, cancelled or fired; fires at most once and never early; nothing is active after the STOP of its schedule and nothing cancelled before |
| NodeRuns.KeyHeldUntilStopped | node/crypto.py:43-56 | In every run the key of a match is held if and only if its latest schedule was not stopped, and it is the key of that schedule |
| NodeRuns.SessionFollowsOffer | node/crypto.py:33-41 | In every run the session key is the one agreed with the usable server key that came last |
| NodeRuns.MissingKeyExactly | node/scheduler.py:64-65 | In every run a prompt that fires fails for want of a key exactly if the latest schedule of its match was stopped |
| NodeRuns.DistinctStartsAreApart | node/main.py:24-42 | Runs in which no two STARTs carry the same match id are apart |
| NodeRuns.PromptsPartition | node/scheduler.py:38-70 | In runs that are apart, moreover, every prompt that fires is opened with its START's key, and that key is held while it is pending |
| NodeAgent.StopQuietsAll | node/scheduler.py:50-58 | After STOP nothing can fire and no window is open if and only if no earlier schedule was still active |
| NodeWindows.WindowsRightExactly | node/window.py:45-56 | In every run, any STARTs and STOPs in any order: the window table holds exactly the open windows, each under its own id, if and only if no window came up, and no STOP took out an id, at the position of an open window of another schedule of the same match |
| NodeWindows.WindowsNeverCollide | node/window.py:45-56 | So in runs that are apart, any number of matches at once, it always does |
| NodeWindows.SecondStartDisplaces | node/window.py:45 | A concrete run of a node that one match lists twice: two STARTs under one key, and the second window takes the place of the first, which stays open outside the table |
| TerminalId.SplitOf | node/scheduler.py:41 | Splitting a terminal id at its last "-t" and reading the digits gives back match id and position |
| TerminalId.Injective | node/scheduler.py:41 | Terminal ids are equal only for the same match and position |
| EndToEnd.FiresWhatOpens | node/scheduler.py:38-70 | In every run: if a START opens for the node as some assignment, its schedule fires no prompt before its time, and, if all schedules of the match carry one key, each firing is the prompt of the same position in that assignment or lacks the key of a stopped match; in runs that are apart it is the prompt |
| EndToEnd.DeliveredUnderOneKey | node/crypto.py:43-46 | STARTs of a match that a serialised server sends leave one key on a node, also on one that the match lists twice |
| EndToEnd.FiredPromptsAreAssigned | node/scheduler.py:60-70 | From configuration to firing: what the schedule of a server's START fires, never before its time, is the prompt of the same position in an assignment of that node, in serialised runs with usable keys the one whose turn it was; the node's run is apart, or the server's is serialised and a firing may also lack the key of a stopped match |
| NodeProcess.NodeCrypto.DeriveSessionKey | node/crypto.py:33-41 | The agreed key if the server's key is usable, else nothing changes |
| NodeProcess.NodeCrypto.UnwrapMatchKey | node/crypto.py:43-46 | Stores what the blob opens to under the session key, or fails without a change |
| NodeProcess.NodeCrypto.DecryptPrompt | node/crypto.py:48-53 | The prompt, or which of the two errors |
| NodeProcess.NodeCrypto.RevokeMatchKey | node/crypto.py:55-56 | Removes the key of this match only |
| NodeProcess.MatchScheduler.Start | node/scheduler.py:28-48 | One sleeping task per prompt, due at t0 plus its delay or on arrival if that is past, under match id, "-t" and position, with its own blob |
| NodeProcess.MatchScheduler.Fire | node/scheduler.py:60-70 | Decrypts with the key held at that moment and records the window |
| NodeProcess.MatchScheduler.WindowUp | node/window.py:45 | The window enters the table under its terminal id |
| NodeProcess.MatchScheduler.Stop | node/scheduler.py:50-58 | Cancels what sleeps, closes what is open, takes exactly those windows out of the table, revokes the key |
| NodeProcess.NodeProcess.OnStart | node/main.py:24-42 | START on the objects equals the step on which the results rest, whatever other schedulers exist |
| NodeProcess.NodeProcess.OnStop | node/main.py:44-50 | STOP on the objects equals that step |
| NodeProcess.NodeProcess.OnExpire | node/scheduler.py:60-68 | A timer that runs out, of any scheduler, equals that step |
| NodeProcess.NodeProcess.OnWindowUp | node/window.py:38-47 | A window that comes up equals that step |
| NodeProcess.NodeProcess.OnRegistered | node/connection.py:74-82 | REGISTER_OK replaces the session key and nothing else |
| Framing.LinesAppend | node/window.py:82-88 | Cutting a byte stream anywhere does not change its lines nor what follows the last newline |
| Framing.AgentWindow.ApplyMetrics | node/window.py:96-98 | Fields present are taken, absent ones kept |
| Framing.AgentWindow.Drain | node/window.py:86-88 | Applies the complete lines of the buffer in order, up to one that does not parse |
| Framing.AgentWindow.Collect | node/window.py:78-94 | For every way of cutting the stream into chunks and timeouts, exactly the complete lines are applied, in order, and the bytes after the last newline are kept |
| Framing.TimeoutsChangeNothing | node/window.py:89-90 | A wait that timed out changes nothing, wherever it falls |
| Framing.NothingAfterEnd | node/window.py:81-92 | What comes after a reset or the end of the stream changes nothing |
| Framing.Watch | node/window.py:29-94 | Whenever what arrives is the first n bytes of the runner's stream, cut anyhow and with timeouts anywhere, a fresh window ends up showing the last message that arrived whole |
| Framing.ParsedUpTo | node/window.py:86-92 | Of any lines exactly those before the first that does not parse count, in order |
| Framing.FieldsShowLast | node/window.py:96-98 | Each field shows the last message that had it, or what it was before |
| Framing.FramesDecode | node/agent_runner.py:66-72 | A stream of sent messages decodes to exactly those messages |
| Framing.PartialDelivery | node/window.py:79-88 | Whatever part of the stream has arrived, exactly the messages that arrived whole are applied |
| Framing.ShowsLastWhole | node/window.py:78-98 | Whatever part of the stream has arrived, the window shows the last message that arrived whole |
| Framing.WindowFollows | node/window.py:96-98 | So its token count never goes down as more arrives, and at the end it shows the last message of all |
| Framing.RunAgent | node/agent_runner.py:62-94 | The runner pushes exactly at the outputs that come five seconds or more after its last push, and at the end, each time with the sum of all token counts so far |
| Framing.ReceivePrompt | node/agent_runner.py:24-31 | The prompt line is the first line of the stream, however it is cut |

## Left out

- Node records are values in the registry's map: no aliasing of a record after a
  REGISTER replaced its fields; `connected_at`, `last_seen` and `touch` are not kept.
- Each SQL statement with its commit is one atomic step; a stop cancelled while
  its last statement is under way either has stored FINISHED or has not.
- Match configurations are kept as values, not as JSON text; `version` and
  `created_at` are not kept; match ids are given, not drawn.
- How long a sleep lasts beyond its order: an auto-stop may wake at any time, a
  prompt's timer at any time from when it is due.
- ZMQ, HTTP, WebSocket and SQLite themselves: sends append to a log, boards to a list.
- X25519, HKDF and AES-GCM inside; secrecy, and that different random draws differ.
- JSON text: metrics messages go through an abstract codec without raw newlines.
- The pattern that finds token counts in agent output, xterm, PTY, fork, Unix sockets,
  and send errors that the runner ignores.
- Floating-point error: times and scores are reals, rounding is exact.
- Resuming from the node's saved state, a server restart on an old database, and
  cancellation of the whole process: the code keeps no key for the first and
  nothing in memory for the others.
- Hooks: `on_hook` and `insert_hook` repeat the metrics path without a board.
- The metrics reporter, configuration loading, HTTP routes, logging and `all_connected`.
- Where clocks are read, and what the registry looks like when a readiness check
  reads it, are inputs of the two loops that have them.
