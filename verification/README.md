# Dexiask, modelled and verified in Dafny

Dexiask answers questions about code repositories: an engine streams an agent's work, a Go
backend buffers it and fans it out, a web client shows it, an indexer keeps a vector store in
step with each repository, and a memory service keeps observations and curated notes. This
project models the parts of it that have to be right in every order of events, and proves them.

`dafny verify dfyconfig.toml` checks everything. There is one module per component:

- Streaming, engine to browser: `SdkMapping` (SDK messages to events), `Drain` (events to run
  buffer, saved row and Slack), `RunBuffer` (the buffer and its subscribers as a concurrent
  protocol), `RunRegistry` (start, stop and eviction of runs), `Sse` (frames and chunked
  parsing; the format is section 9.2.6 of the WHATWG HTML Living Standard), `Resume` (frame ids,
  reconnecting and what a client ends up with), `UiPump` (events to UI parts), `ToolAgreement`
  (both ends rebuild the same tool inputs), `EndToEnd` (all of these composed), `Protocol` (the
  shared events).
- Indexing: `Reconcile` (store, cache and passes), `Schema` (point keys), `Glob` (globs to
  regular expressions), `Batching`, `LineWindows`, `Slugs`, and `Toon` for the tool output.
- Memory: `Working` (daily files and marks), `Digest`, `Consolidated` with `EntryNames` and
  `AuditLog`.
- Conversations: `Pagination`.
- Shared by them: `Text`, `Sorting`, `Wrappers`.

The pattern is the same throughout. A pure step function says what one event, action or call
does to the state. Classes and loops that update their fields in place, as the originals do, are
proved to compute it. What a step function, a printer or a reader makes is in turn tied to what
was asked, sent or given. The main results are about every sequence of steps: every schedule of
goroutines, every message stream, every chunking, every history of passes and restarts, every
run of calls. `RunBuffer` and `RunRegistry` split the code at its lock boundaries, so that
"channel swapped but not yet closed", "existing run looked at but the new one not yet
registered" and "run looked up but not yet cancelled" are states of their own.

Some promises of the code or its comments do not hold as stated. Each has its exact condition or
a concrete input:

- Resuming a stream is complete if and only if every event before the last resume index
  marshalled, and the first connection was not lost right after the conversation frame, which
  has the id of event 0 (`Resume.ResumeIsCompleteIff`, `Resume.ResumeWhenAllMarshal`).
- Engine and client need not rebuild the same tool inputs, even when every block is started
  before use and stopped before its index is used again. Without shared ids they do if and only
  if every tool block starts over an empty buffer (`ToolAgreement.CallsAgreeIff`), which fragments
  of other block kinds spoil (`ToolAgreement.OtherBlockFragmentsDiverge`); open blocks that share
  an id can part them too (`ToolAgreement.SharedIdDiverges`). Two parsers that read a text
  differently show different inputs (`ToolAgreement.ToolInputsAgree`), as for NaN.
- Slack and the saved row judge a run differently: Slack shows an error exactly as
  `Drain.SlackShowsAnErrorIff` says, a row saved as complete included.
- A run stopped in mid-stream is saved as an error, not as partial: partial is only for a start
  that fails after a stop (`Drain.StatusExactly`).
- The document prefix can collide with a repository path, since the directory is not among the
  skipped ones. Documents spare code exactly when no code point has a document's id
  (`Reconcile.DocsSpareCode`), and cache and store agree throughout a history if and only if no
  document was embedded at a recorded path (`Reconcile.EveryHistoryAgrees`).
- The index is a function of the branch tip without restarts and such collisions
  (`Reconcile.IndexIsFunctionOfTip`; `Reconcile.IndexIsFunctionOfTipIff` is exact). After a
  collision a file's code can stay lost (`Reconcile.DocsCanHideCode`), after a restart vanished
  paths can stay (`Reconcile.RestartKeepsVanishedPaths`), and the index is exact if and only if
  there are no such orphans (`Reconcile.ExactIffNoOrphans`).
- A mark skips what was appended after the last read (`Working.LosslessIff`).
- INDEX.md is current if and only if no topic is called INDEX.md (`Consolidated.IndexIsCurrentIff`).
- The audit trail misses moves while a topic is called LOG.md, and only then
  (`Consolidated.LogIsTheMovesIff`; `Consolidated.LogTopicCanBeMade` has the input). It reads back
  if and only if no detail holds a newline (`AuditLog.LogRoundTripIff`): both conditions together
  are `Consolidated.LogReadsTheMovesIff`.
- Entry names that end in `.md` or a space after their suffix is taken off do not lead back to
  their file (`EntryNames.ListedNameFindsItsFile`), which is how the listing and the stale sweep
  name entries.
- TOON rows tell values apart exactly by their texts (`Toon.RowsAgreeIffTextsAgree`), tables
  decode if and only if their keys hold no newline (`Toon.TableRoundTrip`), and
  `fit_rows` keeps a row only if the limit allows one (`Toon.FitRows`).
- The documented batching limits suffice if and only if there is room for one token
  (`Batching.DocumentedLimitsSuffice`).
- Globs and their translation agree for all patterns exactly on newline-free paths
  (`Glob.AgreeIffNewlineFree`).
- The digest's notice can be shown with nothing dropped (`Digest.NoticeIsRightIff` says when).
- A touch between two page requests drops a conversation that is still to be listed, or makes
  the listing start over; `Pagination.TouchIsHarmlessIff` says when it does neither.

## Model

| member | source | states |
|---|---|---|
| RunBuffer.EveryScheduleKeepsInv | backend/internal/agent/run_manager.go:31-92 | in every interleaving of appends, the done mark, closings and any number of subscribers, the joint invariant of buffer, channels and cursors holds |
| RunBuffer.StartsWhereAsked | backend/internal/agent/run_manager.go:53-57 | in every schedule a subscriber exists iff it was asked for, and starts at the index the first request for it named |
| RunBuffer.SubscriptionCounts | backend/internal/agent/run_manager.go:53-57 | a subscription under a new number, at any point of any schedule, is at the end the one that number stands for, with the index it asked for |
| RunBuffer.BufferIsWhatWasEmitted | backend/internal/agent/run_manager.go:31-48 | the buffer is what was emitted, in order, and the run is done iff it was marked so |
| RunBuffer.OnlyClientsGoneAreLeft | backend/internal/agent/run_manager.go:66-87 | a subscription is cancelled only for a client that went away |
| RunBuffer.ReceivedExactly | backend/internal/agent/run_manager.go:53-92 | a subscriber has received exactly the events emitted from the index it asked for up to its cursor, and nothing if it asked past the end |
| RunBuffer.NoLostWakeup | backend/internal/agent/run_manager.go:31-92 | a subscriber blocked on an unclosed channel is caught up on an unfinished run, or a broadcaster is about to close that very channel |
| RunBuffer.ChannelsClosedOnce | backend/internal/agent/run_manager.go:31-48 | no schedule closes a channel twice |
| RunBuffer.EndsOnlyWhenDelivered | backend/internal/agent/run_manager.go:50-92 | an uncancelled subscription ends only when the run is done and every event emitted from the index it asked for has been delivered |
| RunBuffer.QuietMeansDelivered | backend/internal/agent/run_manager.go:53-92 | when no goroutine can move, every subscriber has returned, or waits on an unfinished run with everything from the index it asked for delivered |
| RunBuffer.InternalStepsMakeProgress | backend/internal/agent/run_manager.go:53-92 | each internal step closes one of finitely many pending channels or brings its own subscriber strictly nearer to having nothing to do, and moves no other away |
| RunBuffer.QuietIsReached | backend/internal/agent/run_manager.go:53-92 | from any reachable state no run of internal steps is longer than the pending channels and the distances of all subscribers together, so quiet is always reached |
| RunBuffer.Run.AppendLocked | backend/internal/agent/run_manager.go:31-36 | the critical section appends the event and swaps the channel, leaving the old one still to be closed |
| RunBuffer.Run.MarkDoneLocked | backend/internal/agent/run_manager.go:41-46 | the critical section sets done and swaps the channel, leaving the old one still to be closed |
| RunBuffer.Run.CloseSwapped | backend/internal/agent/run_manager.go:37-47 | closing the old channel is a step of its own, after the unlock |
| RunBuffer.Run.NewSubscriber | backend/internal/agent/run_manager.go:53-57 | a subscription starts with its cursor at any index, also past the end |
| RunBuffer.Run.Turn | backend/internal/agent/run_manager.go:58-90 | one turn of the subscriber loop takes the branch its phase and snapshot call for |
| RunBuffer.Run.NoticeCancel | backend/internal/agent/run_manager.go:66-87 | a cancelled context ends the subscription at either select |
| RunRegistry.ExecKeepsInv | backend/internal/agent/run_manager.go:133-192 | the registry invariant holds after every sequence of interleaved Start, Stop, finish, timer and eviction steps |
| RunRegistry.LiveRunIsTheRegisteredOne | backend/internal/agent/run_manager.go:133-171 | a run that is neither finished nor cancelled is the one registered for its conversation, so there is at most one |
| RunRegistry.TimerRemovesOnlyItsRun | backend/internal/agent/run_manager.go:158-164 | an eviction timer removes its own finished run's entry and never a newer run's |
| RunRegistry.FinishedRunsGetEvicted | backend/internal/agent/run_manager.go:153-165 | a finished run still registered has its eviction pending |
| RunRegistry.AllFiredMeansEmpty | backend/internal/agent/run_manager.go:158-164 | once every timer has fired the registry is empty |
| RunRegistry.StopEndsEveryEarlierRun | backend/internal/agent/run_manager.go:182-192 | whatever happens between Stop's lookup and its cancel, every run the conversation had at the lookup is then finished or cancelled |
| RunRegistry.DiesForAReason | backend/internal/agent/run_manager.go:133-192 | in every reachable state a live run dies only of its own deadline or return, of a stop that looked it up, or of a newer start of its conversation |
| RunRegistry.RequestsAreForTheirConversation | backend/internal/agent/run_manager.go:182-191 | a stop about to cancel looked up a run of the conversation it was asked to stop |
| RunRegistry.CancelledForCause | backend/internal/agent/run_manager.go:133-192 | in every schedule a cancelled run had its deadline, its return, a stop of its conversation that went through, or has a newer run of its conversation |
| RunRegistry.StagesMoveOnTheirOwn | backend/internal/agent/run_manager.go:149-165 | a run goes from return to done to timer to eviction by its own steps only |
| RunRegistry.EntriesGoForAReason | backend/internal/agent/run_manager.go:133-164 | an entry goes only by its own run's timer or for a newer run of its conversation |
| RunRegistry.DeadlineEndsTheRun | backend/internal/agent/run_manager.go:143-147 | a deadline ends its run |
| RunRegistry.StopFindsNothing | backend/internal/agent/run_manager.go:182-188 | when Stop finds no run, no run of the conversation is live |
| RunRegistry.DoneMeansSaved | backend/internal/service/chat_service.go:370-482 | in every schedule a finished run has saved its row, exactly once, and it is the row its event buffer says, so turning a resuming client away hides nothing |
| RunRegistry.ResumeGivesItsOwnRun | backend/internal/service/chat_service.go:472-482 | the run a resuming client is given is one of its conversation and not done |
| RunRegistry.ResumeHidesOnlySavedOrCancelled | backend/internal/service/chat_service.go:472-482 | a run that has saved nothing and is not cancelled is the one a resuming client is given |
| RunRegistry.SavedStays | backend/internal/service/chat_service.go:370-458 | in every schedule a run has at most one saved row, and once saved it stays |
| RunRegistry.PartialMeansCancelled | backend/internal/service/chat_service.go:374-382 | a row is saved as partial only for a run whose context was cancelled |
| RunRegistry.RunManager.BeginStart | backend/internal/agent/run_manager.go:133-135 | Start's look at the existing run, with the registry lock held |
| RunRegistry.RunManager.CompleteStart | backend/internal/agent/run_manager.go:135-148 | Start cancels the unfinished run it found and registers a live new one under the conversation |
| RunRegistry.RunManager.Lookup | backend/internal/agent/run_manager.go:182-188 | Stop and Get read the registered run of a conversation |
| RunRegistry.RunManager.CancelFound | backend/internal/agent/run_manager.go:189-191 | Stop cancels the run it looked up, after the unlock |
| RunRegistry.RunManager.Evict | backend/internal/agent/run_manager.go:158-164 | the timer deletes the entry only if it still is its own run's |
| Sse.ScanInTwoGoes | web/src/lib/chat/go-sse-to-ui.ts:58-84 | scanning a text in two pieces, carrying the rest over, gives what one scan of the whole gives |
| Sse.TakeFrames | web/src/lib/chat/go-sse-to-ui.ts:63-83 | the inner loop takes exactly the whole frames off the buffer: events, dropped count, rest and end |
| Sse.ParseGoSSE | web/src/lib/chat/go-sse-to-ui.ts:44-88 | however the bytes are cut into reads, the parser yields what a scan of the whole stream yields |
| Sse.FrameIdReadsBack | backend/internal/handler/chat_handler.go:185 | a written frame is four lines: the id, the payload, and the blank line that ends it |
| Sse.PayloadOfLines | web/src/lib/chat/go-sse-to-ui.ts:67-71 | the payload of a frame is all its data lines, trimmed, one below the other |
| Sse.TrimTakesSpace | web/src/lib/chat/go-sse-to-ui.ts:70 | trimming takes the space off both ends and nothing else |
| Sse.DecodedOrDropped | web/src/lib/chat/go-sse-to-ui.ts:75-81 | every payload is decoded or counted as dropped |
| Sse.ScanWritten | backend/internal/handler/chat_handler.go:175-192 | frames in front of any text scan to their payloads, then the scan of that text |
| Sse.RoundTripUnderChunking | backend/internal/handler/chat_handler.go:175-192 | any reads of a finished stream yield exactly the written payloads and the end marker |
| Sse.CutStreamYieldsPrefix | web/src/lib/chat/go-sse-to-ui.ts:58-84 | a stream cut anywhere, even inside a frame, yields a prefix of the written payloads |
| Sse.StreamRun | backend/internal/handler/chat_handler.go:175-192 | the writer writes one numbered frame per event that marshals, then the end marker unless the client is gone |
| Sse.StartStream | backend/internal/handler/chat_handler.go:126-130 | a new run is written as the conversation frame under id 0, then the numbered frames of the run |
| Sse.FrameIdIsIndexIff | backend/internal/handler/chat_handler.go:177-187 | a frame's id is its event's buffer index exactly when every event delivered before it marshalled |
| Sse.ClientGetsTheEvents | backend/internal/handler/chat_handler.go:175-192 | with a JSON codec that round-trips, the client decodes exactly the delivered events, dropping none, under any chunking |
| Sse.NewClientGetsTheEvents | backend/internal/handler/chat_handler.go:126-192 | a client that starts a run decodes the conversation event, then exactly the delivered events, dropping none |
| Resume.HeaderDecidesStart | backend/internal/handler/chat_handler.go:152-157 | a resume starts one after a non-negative Last-Event-ID and from the beginning on any other header |
| Resume.SessionShape | backend/internal/handler/chat_handler.go:119-170 | after any number of lost connections a client has exactly the sendable events before its resume index, or its copy repeats or misses one, and which of the two depends on what marshalled before that index |
| Resume.ResumeIsCompleteIff | backend/internal/handler/chat_handler.go:126-192 | resuming gives every sendable event exactly once, in order, iff all events before the last resume index marshalled, except that event 0 must not have if the first connection brought the conversation frame alone |
| Resume.ResumeWhenAllMarshal | backend/internal/handler/chat_handler.go:126-169 | when everything marshals, resuming is complete iff the first connection did not end right after the conversation frame; one lost before that frame, or after an event frame, misses nothing |
| Resume.FramesAreSendable | backend/internal/handler/chat_handler.go:175-187 | frame k of a connection from an index carries the k-th event from there that marshals, under the index plus k |
| SdkMapping.EmitsWhatIsSaid | engine/claude_engine/core/sdk_mapping.py:91-235 | for every message stream the engine emits exactly what the messages say, each by what came before it: under the id of the block last opened at its index, with the fragments sent there since a tool block was last stopped, the steps counted |
| SdkMapping.ResultsAreTheFinals | engine/claude_engine/core/sdk_mapping.py:198-233 | the reported results are, in order, a success for each final message with its session id, and nothing else |
| SdkMapping.ToolResultsAreHandedOn | engine/claude_engine/core/sdk_mapping.py:190-195 | the tool results handed in are emitted in order, each under its tool id |
| SdkMapping.ThoughtsAreHandedOn | engine/claude_engine/core/sdk_mapping.py:139-140 | the thinking streamed is the thinking sent |
| SdkMapping.SessionIsTheLastFinal | engine/claude_engine/core/sdk_mapping.py:198-237 | the session id returned is that of the last final message |
| SdkMapping.BlockIdsAreNumbers | engine/claude_engine/core/sdk_mapping.py:104-106 | a block at index i goes by b followed by i + 1 |
| SdkMapping.ToolsKeepTheirIds | engine/claude_engine/core/sdk_mapping.py:117-121 | a tool block goes by its own id if it brings one |
| SdkMapping.SharedIdsComeFromTools | engine/claude_engine/core/sdk_mapping.py:104-121 | two indices share an id only if a tool block open at one of them brings it |
| SdkMapping.StepsCountToolInputs | engine/claude_engine/core/sdk_mapping.py:153-184 | for every message stream each tool.input_done is followed at once by agent.step, numbered 1, 2, 3 and so on, and there is no other step |
| SdkMapping.Mapper.OnStart | engine/claude_engine/core/sdk_mapping.py:107-126 | a block start opens the block under its index and emits its event; other block kinds do nothing |
| SdkMapping.Mapper.OnDelta | engine/claude_engine/core/sdk_mapping.py:128-151 | a delta goes out under its block's id, an index nobody opened counting as text; input fragments are buffered per index |
| SdkMapping.Mapper.OnStop | engine/claude_engine/core/sdk_mapping.py:153-184 | a stop closes the block; a tool block's buffered text is parsed, reported and followed by its step |
| SdkMapping.Mapper.ProcessMessages | engine/claude_engine/core/sdk_mapping.py:91-235 | the loop computes the fold of the message steps, sub-agent messages skipped |
| UiPump.WritesWhatIsShown | web/src/lib/chat/go-sse-to-ui.ts:118-242 | for every event sequence the parts written are exactly those the events show, each by what came before it: open lanes, the name of the tool since its start, the text sent for it since it started or finished |
| UiPump.PlainPartsAreTheEvents | web/src/lib/chat/go-sse-to-ui.ts:169-241 | tool starts, input fragments, outputs, the conversation and errors reach the UI in order with what their events carry, and stock texts where a name or message is missing |
| UiPump.OutputsAreTheResults | web/src/lib/chat/go-sse-to-ui.ts:210-219 | the outputs shown are, in order, the tool results, each under its tool id |
| UiPump.LaneIsRepaired | web/src/lib/chat/go-sse-to-ui.ts:118-167 | the parts written for one id of one lane are the repair of its own events, whatever other ids do |
| UiPump.RepairIsWellFormed | web/src/lib/chat/go-sse-to-ui.ts:100-108 | a repaired lane is start, deltas, end, then possibly again; never a delta or an end while closed |
| UiPump.RepairKeepsText | web/src/lib/chat/go-sse-to-ui.ts:127-138 | repairing a lane keeps its text |
| UiPump.RepairOfWellFormed | web/src/lib/chat/go-sse-to-ui.ts:118-167 | a lane that was well formed passes through one to one |
| UiPump.EveryLaneIsWellFormed | web/src/lib/chat/go-sse-to-ui.ts:97-167 | for every event sequence each text and reasoning lane is well formed, has exactly its text, and is unchanged if it was well formed |
| UiPump.Pumper.HandleEvent | web/src/lib/chat/go-sse-to-ui.ts:120-241 | one event's effect on open parts, tool names, buffers and written parts |
| UiPump.Pumper.PumpStream | web/src/lib/chat/go-sse-to-ui.ts:118-242 | the loop computes the fold of the events |
| ToolAgreement.StreamAgrees | engine/claude_engine/core/sdk_mapping.py:84-185 | when tool blocks are stopped before their index is reused, share no id, and alone get input fragments, both ends rebuild the same calls |
| ToolAgreement.CallsAgreeIff | engine/claude_engine/core/sdk_mapping.py:84-185 | for every stream without shared ids the engine's text of a call is what its block started over followed by the client's text, so they agree iff every finished tool block started over an empty buffer |
| ToolAgreement.ToolInputsAgree | engine/claude_engine/core/sdk_mapping.py:127-184 | for every stream without shared ids both ends report the same calls in the same order, and a call whose block started over an empty buffer is shown with the input the engine parsed, or {} where it parsed none, iff its text is empty or both parsers read it alike |
| ToolAgreement.StaleFragmentsDiverge | engine/claude_engine/core/sdk_mapping.py:142-184 | they part, unless the fragment is empty, when a tool block is never stopped: its fragments are prepended to the next tool block at its index, in the engine only |
| ToolAgreement.OtherBlockFragmentsDiverge | engine/claude_engine/core/sdk_mapping.py:107-165 | they part even when blocks are started before use and stopped before reuse: a fragment of a block of another kind, unless empty, is kept and prepended to the next tool block |
| ToolAgreement.SharedIdDiverges | web/src/lib/chat/go-sse-to-ui.ts:169-209 | they can part when two open tool blocks share an id: the client has one buffer for both, which the second start empties |
| Drain.Forward | backend/internal/service/chat_service.go:393-449 | the select loop forwards every event up to the end or the idle timeout, adds the error the code adds, and its locals are what the buffer says |
| Drain.Conclude | backend/internal/service/chat_service.go:429-449 | an idle timeout or an end without a verdict puts an error into the buffer and fails the run |
| Drain.Drain | backend/internal/service/chat_service.go:370-469 | for every start outcome and event sequence the row is saved exactly once and is the fold of the run buffer; the session id is saved if the last result has one |
| Drain.AdvanceKeepsSound | backend/internal/service/chat_service.go:370-469 | taken step by step, with anything happening in between, the run goroutine saves nothing before its end, then the row its buffer says, once, then the session id: what the method computes in one go |
| Drain.StatusExactly | backend/internal/service/chat_service.go:374-449 | never saved as running; complete iff started, never silent, and the last result or error was a good result; partial iff the start failed after a stop, so a run stopped mid-stream is saved as error |
| Drain.HeardIsBeforeTheSilence | backend/internal/service/chat_service.go:393-440 | what is heard is what arrives before the engine first falls silent |
| Drain.StatusIsTheLastVerdict | backend/internal/service/chat_service.go:418-449 | the saved status is decided by the last result or error of the buffer |
| Drain.SessionIsTheLastResults | backend/internal/service/chat_service.go:419-420 | the session id saved is that of the last result |
| Drain.AskChoiceNames | backend/internal/service/chat_service.go:508-512 | the tools whose inputs are questions are AskChoice by itself or behind a double underscore |
| Drain.QuestionsAreWhatWasAsked | backend/internal/service/chat_service.go:415-418 | the saved questions are the inputs of the AskChoice calls heard, in order |
| Drain.ReplyIsWhatWasHeard | backend/internal/service/chat_service.go:413-414 | the saved text is the concatenation of the text deltas heard |
| Drain.FailureIsVisible | backend/internal/service/chat_service.go:418-449 | a row is saved as error exactly when the buffer holds an error or error result that no later result takes back |
| Drain.Stream | backend/internal/slack/bot.go:176-212 | however edits are throttled or refused, the message shown is that of a prefix of the buffer, one no older than any edit that was due and taken, and of the whole buffer once the last edit is taken |
| Drain.MessageHoldsBoth | backend/internal/slack/bot.go:216-228 | the message starts with the trimmed reply, ends with the error, and without an error is the reply alone |
| Drain.FaultIsTheLastError | backend/internal/slack/bot.go:199-208 | the error shown is the last error's message, or the stock one after an error result |
| Drain.MadeUpErrorsAreShown | backend/internal/service/chat_service.go:374-440 | a run that stalls, ends without a verdict or fails to start says so in Slack |
| Drain.FailureReachesSlack | backend/internal/slack/bot.go:199-211 | for a failed row Slack shows an error unless the last verdict is an error without a message |
| Drain.SlackShowsAnErrorIff | backend/internal/slack/bot.go:199-211 | for every buffer Slack shows an error iff an error with a message or an error result is not followed by an error without a message |
| Drain.CompleteMayStillShowAnError | backend/internal/slack/bot.go:199-211 | a good result makes any row complete and leaves whatever error Slack shows standing |
| Drain.CompleteRowShowsAnErrorIff | backend/internal/slack/bot.go:199-211 | a complete row is shown with an error iff such a complaint came before its good result |
| Drain.SubscribersFoldTheSavedRow | backend/internal/agent/run_manager.go:50-92 | a full subscription that ends on its own was handed exactly the buffer the saved row is computed from |
| EndToEnd.EngineSpeaksTheSdkText | engine/claude_engine/core/sdk_mapping.py:136-137 | the engine's text deltas concatenate to the text the SDK streamed |
| EndToEnd.EngineEndsWell | engine/claude_engine/core/sdk_mapping.py:198-233 | the last verdict of the engine is a success with the last final session id, or none |
| EndToEnd.RowFollowsTheFinal | backend/internal/service/chat_service.go:418-469 | when everything was heard the row is complete, with the session of the last final message, iff there was one and no silence after it; it is failed otherwise |
| EndToEnd.BrowserShowsTheToolResults | web/src/lib/chat/go-sse-to-ui.ts:210-219 | the tool results shown in the browser are a prefix of those handed to the engine, all of them if everything was heard |
| EndToEnd.BrowserSeesTheBuffer | backend/internal/handler/chat_handler.go:126-192 | under every schedule and every chunking, a browser that starts a run and whose subscription ended on its own decodes the conversation event, then exactly the run buffer |
| EndToEnd.EngineBrowserAndRowAgree | backend/internal/service/chat_service.go:370-469 | wherever the backend stops listening, inside a message too, the saved reply is the SDK's text up to there, the browser has one call per finished tool input heard, with the engine's text up to what its block started over, and all its lanes are well formed |
| Reconcile.EmbedPathEffect | indexer/indexer/pipeline/indexer.py:70-92 | embedding a path leaves exactly its blob's points at that path and every other path alone |
| Reconcile.EmbeddedPathHoldsItsChunks | indexer/indexer/pipeline/indexer.py:70-92 | embedding a path leaves there one code point per chunk of its blob, numbered from 0 in order, with the blob sha and the chunk, and none when the blob is too large |
| Reconcile.PassEffect | indexer/indexer/pipeline/indexer.py:127-165 | what a pass, complete or raised anywhere, leaves at each path and in the cache |
| Reconcile.CompletedPassIsExact | indexer/indexer/pipeline/indexer.py:127-165 | a completed pass makes the store exact on every desired and every recorded path and leaves all others alone |
| Reconcile.CompletedPassHoldsTheChunks | indexer/indexer/pipeline/indexer.py:127-165 | after a completed pass every desired path holds exactly the numbered chunks of its blob |
| Reconcile.RecordedPathsHoldTheirChunks | indexer/indexer/pipeline/indexer.py:146-157 | whenever cache and store agree, every recorded path holds exactly the numbered chunks of its recorded blob, and at least one |
| Reconcile.CountIsOfEmbedded | indexer/indexer/pipeline/indexer.py:146-153 | the number a pass reports is that of the paths it embedded chunks of |
| Reconcile.PassKeepsConsistent | indexer/indexer/pipeline/indexer.py:127-165 | every recorded path keeps having exactly the points of its recorded blob, wherever a read or embedding raises |
| Reconcile.SecondPassIsIdle | indexer/indexer/pipeline/indexer.py:138-162 | a second pass at the same tip that is not a full one embeds and removes nothing and changes nothing, up to files without chunks, which are tried again |
| Reconcile.DocsHoldTheirTexts | indexer/indexer/pipeline/indexer.py:104-123 | replacing the documents leaves each text of each document at its path under its number, with its title |
| Reconcile.OnlyNewDocsRemain | indexer/indexer/pipeline/indexer.py:100-123 | and no other document; none when embedding raised |
| Reconcile.DocsSpareCode | indexer/indexer/pipeline/indexer.py:95-124 | replacing the documents leaves the code points alone exactly when no code point sits at a document's id |
| Reconcile.DocsKeepPaths | indexer/indexer/pipeline/indexer.py:95-124 | when no code lies under the document prefix, replacing documents changes no code path, even if an embedding raises halfway |
| Reconcile.DocsKeepConsistentIff | indexer/indexer/pipeline/indexer.py:95-124 | replacing the documents keeps cache and store in agreement iff embedding them raised or none of their points lies at a recorded path |
| Reconcile.PassSparesDocs | indexer/indexer/pipeline/indexer.py:127-165 | a pass, completed or raised, leaves the documents alone iff none lies at a path it has gone through |
| Reconcile.EveryHistoryAgrees | indexer/indexer/pipeline/indexer.py:70-165 | over any history of passes, raised passes, document updates and restarts, on any trees, cache and store agree throughout iff no document was embedded at a path recorded then |
| Reconcile.UnprefixedHistoryAgrees | indexer/indexer/pipeline/indexer.py:70-165 | they agree throughout when no tree has a path under the document prefix |
| Reconcile.ExactIffNoOrphans | indexer/indexer/pipeline/indexer.py:127-165 | a completed pass leaves exactly the tip's code if and only if nothing unrecorded is stored outside the tree |
| Reconcile.UnbrokenHistoryRecordsAll | indexer/indexer/pipeline/indexer.py:146-162 | in any history without a restart, every path with stored code is recorded |
| Reconcile.IndexIsFunctionOfTipIff | indexer/indexer/pipeline/indexer.py:127-165 | after any history without a restart a completed pass gives the code points of a pass over an empty index iff it is a full one or every path it skips still has the code of its blob |
| Reconcile.IndexIsFunctionOfTip | indexer/indexer/pipeline/indexer.py:127-165 | without a restart, and with no document embedded at a recorded path, a completed pass gives the same code points as a pass over an empty index: the index is a function of the tip |
| Reconcile.DocsCanHideCode | indexer/indexer/pipeline/indexer.py:95-165 | a repository file at the path of a document loses its code to the document, and indexing the same tip again does not bring it back |
| Reconcile.RestartKeepsVanishedPaths | indexer/indexer/pipeline/indexer.py:138-162 | after a restart it is not: a path that vanished meanwhile is never removed |
| Reconcile.Pipeline.EmbedOrDrop | indexer/indexer/pipeline/indexer.py:70-157 | embed a path, or drop it when it has no chunks; a raise before the delete changes nothing |
| Reconcile.Pipeline.ListTree | indexer/indexer/pipeline/indexer.py:132-138 | the comprehension over the tree and its order: included blobs in the order their paths first come in |
| Reconcile.DesiredIsWhatIsIncluded | indexer/indexer/pipeline/indexer.py:57-67 | on newline-free paths, the desired paths are the blobs of the tree that the filter is for |
| Reconcile.DesiredIsTheLastEntry | indexer/indexer/pipeline/indexer.py:132-138 | each desired path is wanted at the sha of its last included entry |
| Reconcile.Pipeline.ReconcileTo | indexer/indexer/pipeline/indexer.py:127-165 | the pass computes the specified index with its counts, or raises at the first path that it has to embed and cannot, with everything before it done |
| Reconcile.Pipeline.EmbedDesired | indexer/indexer/pipeline/indexer.py:146-157 | the embedding loop goes on to the first failing path that it does not skip, and skips paths whose recorded sha is the desired one |
| Reconcile.Pipeline.RemoveGone | indexer/indexer/pipeline/indexer.py:158-162 | the removal loop drops every recorded path the tree no longer has |
| Reconcile.Pipeline.ReplaceDocs | indexer/indexer/pipeline/indexer.py:95-124 | the documents are dropped and the new set upserted, or only dropped when an embedding raises |
| Schema.PointKeyInjective | indexer/indexer/store/schema.py:45-47 | within a repo two point keys are equal iff path and ordinal are, whatever colons and digits the paths hold |
| Schema.PointKeyInjectiveAcrossRepos | indexer/indexer/config/models.py:15-58 | for all repo ids the configuration accepts, point keys are equal iff repo, path and ordinal are |
| Schema.KeysMeetIff | indexer/indexer/store/schema.py:45-47 | for arbitrary ids, two repos have some key in common iff one id up to its colon starts the other |
| Schema.DocKeysDistinct | indexer/indexer/store/schema.py:76-78 | documents with distinct slugs never share a point key |
| Glob.NextPiece | indexer/indexer/pipeline/indexer.py:174-187 | one turn of the loop emits the expression of the next glob piece and consumes it |
| Glob.GlobRegex | indexer/indexer/pipeline/indexer.py:169-188 | the emitted text accepts exactly what the glob means on every newline-free string |
| Glob.ReadBackEmitted | indexer/indexer/pipeline/indexer.py:169-188 | reading the emitted expression back gives the pieces that were emitted, escapes included |
| Glob.AcceptsIffMatches | indexer/indexer/pipeline/indexer.py:170-187 | the pieces accept a string iff the glob semantics does: ** any text and a following slash, * and ? never cross a slash |
| Glob.RegexMeansGlob | indexer/indexer/pipeline/indexer.py:169-188 | for every pattern and every newline-free string, the compiled expression and the glob agree |
| Glob.NewlineBreaksStars | indexer/indexer/pipeline/indexer.py:175-188 | on every string with a newline before its end, ** matches and its expression does not |
| Glob.FinalNewlineSlipsIn | indexer/indexer/pipeline/indexer.py:188 | on every string that ends in a newline, the expression of a pattern for the rest matches and the pattern does not |
| Glob.AgreeIffNewlineFree | indexer/indexer/pipeline/indexer.py:169-188 | translation and glob agree on a string for all patterns iff it holds no newline |
| Glob.CompiledMatchIsReMatch | indexer/indexer/pipeline/indexer.py:169-193 | a matcher over the emitted pieces decides the compiled expression on every string |
| Glob.MatchTriesBothNames | indexer/indexer/pipeline/indexer.py:191-193 | _match is the glob on the whole path or on the basename |
| Glob.BasenameIsTheTail | indexer/indexer/pipeline/indexer.py:193 | the basename holds no slash and is what the path ends with |
| Glob.SubpathIsSegmentPrefix | indexer/indexer/pipeline/indexer.py:61-64 | the subpath test goes by whole path segments |
| Glob.StripTakesSlashes | indexer/indexer/pipeline/indexer.py:61-62 | stripping the subpath takes the slashes off both ends and nothing else |
| Glob.IncludedCodeMeansIncluded | indexer/indexer/pipeline/indexer.py:57-67 | the inclusion test includes, on newline-free paths, exactly what the skipped segments, subpath and globs mean |
| Batching.TruncationCuts | indexer/indexer/embedding/_batching.py:39 | truncation keeps the first max_chars characters |
| Batching.EstimateIsAQuarter | indexer/indexer/embedding/_batching.py:18-25 | an estimate is a quarter of the length, rounded down, and at least one |
| Batching.PrepareBatches | indexer/indexer/embedding/_batching.py:27-47 | batches concatenate to the truncated inputs in order, and no split into acceptable batches uses fewer |
| Batching.GreedyStaysAhead | indexer/indexer/embedding/_batching.py:36-47 | a greedy packing of any suffix takes no more batches than any acceptable split of the whole |
| Batching.CapsHoldIffEachInputFits | indexer/indexer/embedding/_batching.py:30-35 | with a positive item cap every request is within both caps iff each truncated input alone is within the token cap |
| Batching.DocumentedLimitsSuffice | indexer/indexer/embedding/_batching.py:18-39 | every truncated input fits iff max_tokens is at least one and max_chars // 4 is at most max_tokens; under the documented max_chars / 4 <= max_tokens that is iff max_tokens is at least one |
| LineWindows.LineChunks | indexer/indexer/chunking/chunker.py:36-55 | the loop cuts the windows, and its chunks cover the file: from the first line to the last, each holding the lines it names, all but the last full, and consecutive ones sharing exactly the overlap, or starting one line apart when the overlap leaves no progress |
| LineWindows.ChunksOverlap | indexer/indexer/chunking/chunker.py:36-55 | the same of the chunks of any lines, base, size and overlap |
| LineWindows.ChunksHoldTheirLines | indexer/indexer/chunking/chunker.py:44-51 | a chunk's line range is inside the file and its text is exactly those lines |
| LineWindows.WindowsOverlapExactly | indexer/indexer/chunking/chunker.py:40-54 | windows are non-empty and at most max_lines long, share exactly the overlap, each adds a line, the last ends at the last line |
| LineWindows.GlueRebuilds | indexer/indexer/chunking/chunker.py:36-55 | dropping each later window's overlap rebuilds the input |
| LineWindows.WindowCount | indexer/indexer/chunking/chunker.py:40-54 | the number of windows is 0, 1, or 1 + ceil((n - max_lines) / step) |
| Slugs.SlugifyGivesSlugs | indexer/indexer/docs/domain.py:33-35 | whatever lower-casing does, a slug is non-empty, of a-z, 0-9 and single inner dashes, and its own slug if lower-casing leaves it alone |
| Slugs.SlugIsTheWords | indexer/indexer/docs/domain.py:33-35 | the slug of a title is its lower-case words, the longest runs of letters and digits, with a dash between two, or doc if it has none |
| Slugs.CandidatesAreNumbered | indexer/indexer/docs/domain.py:65-69 | the first candidate is the base, the k-th the base with the number k after a dash |
| Slugs.CandidatesDistinct | indexer/indexer/docs/domain.py:65-69 | the numbered candidates of a base are pairwise distinct |
| Slugs.TakenCandidates | indexer/indexer/docs/domain.py:65-69 | pigeonhole: n candidates are all taken only if n slugs are |
| Slugs.UniqueSlug | indexer/indexer/docs/domain.py:64-70 | the loop ends after at most |seen| + 1 candidates, with the first free one |
| Slugs.ParseDocs | indexer/indexer/docs/domain.py:52-72 | one document per usable item in order, with pairwise distinct slugs, each the first free candidate of its title |
| Slugs.UsableAreTheFilled | indexer/indexer/docs/domain.py:57-60 | the usable items are those with a title and a body, in order |
| Slugs.CategoriesAreKnown | indexer/indexer/docs/domain.py:61-63 | a document has a known category, its item's if that is one |
| Toon.EscapedIsPerCharacter | indexer/indexer/mcp/formatting.py:47-48 | the three sequential replacements equal one escape per character |
| Toon.RowRoundTrip | indexer/indexer/mcp/formatting.py:31-75 | a decoder recovers every list of string cells from its row, which holds no newline |
| Toon.RowsAgreeIffTextsAgree | indexer/indexer/mcp/formatting.py:39-49 | two rows render alike iff their values have the same texts: null, booleans and numbers are not told from the like strings |
| Toon.EncodeTable | indexer/indexer/mcp/formatting.py:70-75 | the uniform branch emits the header with key, row count and field names, and one padded line per record |
| Toon.TableRoundTrip | indexer/indexer/mcp/formatting.py:63-90 | a whole table decodes to the texts of its values, row by row, iff its key and field names hold no newline |
| Toon.PadIsTwoALevel | indexer/indexer/mcp/formatting.py:64 | each level indents by two spaces |
| Toon.HeaderHoldsCountAndFields | indexer/indexer/mcp/formatting.py:71-72 | the header reads back as the number of rows and, when no field name holds a comma, the fields |
| Toon.RowCostIsAQuarter | indexer/indexer/mcp/formatting.py:20-22 | a row costs a quarter of its plain texts with commas between them, rounded up |
| Toon.LimitLeads | indexer/indexer/mcp/formatting.py:115-141 | a limit keeps that many rows, a negative one leaves out as many at the end |
| Toon.FitRows | indexer/indexer/mcp/formatting.py:114-131 | the kept rows are the longest affordable leading ones within the limit, at least one if the limit allows any; truncated iff a row is missing |
| Working.Daily.Append | memory/internal/store/working.go:55-72 | an append adds one headed block, right-trimmed, to the day's file and nothing else |
| Working.Daily.ReadPending | memory/internal/store/working.go:76-99 | a read concatenates the chunks past the marks in order of file name |
| Working.Daily.MarkProcessed | memory/internal/store/working.go:177-200 | a mark sets each existing named file's mark to its current length, whatever was read, and counts them |
| Working.BlockReadsBack | memory/internal/store/working.go:60-67 | a block reads back as an empty line, a heading with time and conversation, and the lines of the observation without space at its end |
| Working.ChunkOfDay | memory/internal/store/working.go:87-97 | what a read shows of a day is headed by the day and is what is past its mark |
| Working.PendingHoldsEveryChunk | memory/internal/store/working.go:76-101 | a read holds that of every file that has something to show: what is past its mark, or all of it when marks are ignored |
| Working.PresentCounts | memory/internal/store/working.go:186-195 | the number a mark request reports is that of the named files that exist |
| Working.FileIsItsBlocks | memory/internal/store/working.go:64-70 | a file is the concatenation of its observation blocks |
| Working.MarksSitBetweenObservations | memory/internal/store/working.go:177-200 | in every run a mark is the end of an observation, at most the file's length, and past it are the observations made since |
| Working.MarksNeverDecrease | memory/internal/store/working.go:190-199 | no mark moves back and no written text changes |
| Working.ReadShowsEveryPendingFile | memory/internal/store/working.go:86-97 | skipping blank chunks never hides an observation: a file is shown iff its mark is not at its end |
| Working.TailIsReadThenUnread | memory/internal/store/working.go:76-99 | past the mark is what the last read returned and what was appended since |
| Working.NoByteVanishes | memory/internal/store/working.go:55-200 | a file is what was read before each mark, what each mark skipped, in order, and what is pending |
| Working.LosslessIff | memory/internal/store/working.go:177-200 | what was read before each mark and what is pending are the whole file iff no append falls between a mark and the read before it |
| Digest.EntriesAreTheLines | memory/internal/digest/digest.go:53-72 | the entries are, per scope directory, the lines of INDEX.md with something on them, in order, and 5 guaranteed lines unless it says otherwise |
| Digest.CostIsBytes | memory/internal/digest/digest.go:94-113 | lines count as their UTF-8 bytes and one for each newline |
| Digest.Guarantee | memory/internal/digest/digest.go:84-97 | phase one takes each scope's minimum, counts its cost, and is truncated iff some scope has more |
| Digest.Fill | memory/internal/digest/digest.go:99-121 | phase two takes the longest affordable prefix of the overflow, in scope order |
| Digest.Apportion | memory/internal/digest/digest.go:81-121 | both phases buy exactly what the budget buys; truncated iff some scope exceeds its guarantee |
| Digest.ShowsPrefixes | memory/internal/digest/digest.go:84-121 | each scope shows a prefix of its lines, its minimum or all of them |
| Digest.DroppedIffCutShort | memory/internal/digest/digest.go:110-121 | a line is missing iff the overflow was cut short, and then the notice is shown |
| Digest.NoticeIsRightIff | memory/internal/digest/digest.go:84-121 | the notice is shown only when a line is missing iff no scope exceeds its guarantee or all lines together cost more than the budget |
| Digest.CostWithinBudget | memory/internal/digest/digest.go:99-121 | the counted cost is within the budget or is that of the guarantees alone |
| Digest.NoticeWithoutLoss | memory/internal/digest/digest.go:88-91 | for all scopes of which one exceeds its guarantee some budget buys every line, and the notice is shown with nothing dropped |
| Digest.NoSectionIsEmpty | memory/internal/digest/digest.go:125-128 | the empty-section test never fires |
| Digest.RenderSections | memory/internal/digest/digest.go:123-142 | one section per scope, joined, with the notice appended when truncated |
| Digest.DigestReadsBack | memory/internal/digest/digest.go:123-142 | a digest reads back, line by line, as the heading of each scope with the lines taken below it, and the notice |
| Digest.Build | memory/internal/digest/digest.go:28-142 | empty iff no scope has a line, else the rendering of what the budget buys |
| EntryNames.SanitizedIsClean | memory/internal/pivot/pivot.go:61-70 | an accepted name is one visible path component without separators, double dots or outer space |
| EntryNames.SanitizeRefusesIff | memory/internal/pivot/pivot.go:61-70 | a name is refused iff nothing is left without the space around it, or it starts with a dot that no second one follows |
| EntryNames.SanitizeReplacesSlashes | memory/internal/pivot/pivot.go:61-70 | in a name without double dots only the slashes are replaced, by underscores |
| EntryNames.UnDotReplaces | memory/internal/pivot/pivot.go:65 | a double dot becomes one underscore |
| EntryNames.CleanIsKept | memory/internal/pivot/pivot.go:61-70 | a clean name is accepted unchanged, so sanitizing is idempotent |
| EntryNames.ListedNameFindsItsFile | memory/internal/store/consolidated.go:68-73 | the stem an entry is listed under leads back to its file iff it ends neither in .md nor in a space |
| Consolidated.RebuildIndex | memory/internal/store/consolidated.go:496-522 | walking the sorted topics and files gives the rendering of the active tree |
| Consolidated.IndexNamesEveryEntry | memory/internal/store/consolidated.go:496-517 | the index has a line with the label and link of every topic, and in it the name of every entry, that a listing sees |
| Consolidated.IndexIsItsTopics | memory/internal/store/consolidated.go:496-521 | the lines of the index are those of the topics with entries, in order, and no others |
| Consolidated.LabelIsTitle | memory/internal/store/fsutil.go:85-95 | a label is upper-case at the start of each word and lower-case after it |
| Consolidated.HooksKeepNames | memory/internal/store/fsutil.go:98-100 | a shown name has a space for each dash and underscore and is unchanged otherwise |
| Consolidated.WritesStoreTheContent | memory/internal/store/consolidated.go:283-335 | what a creation or update stores is the content given, without the space at its end, and a newline |
| Consolidated.RefusedCallsChangeNothing | memory/internal/store/consolidated.go:283-426 | a refused call changes nothing; read-only sessions, bad names, creations over an entry and updates of none are refused |
| Consolidated.GoodCallsSucceed | memory/internal/store/consolidated.go:283-426 | writable calls whose entry is there, or for a creation is not, succeed unless the index or log file is in the way |
| Consolidated.CleanNamesAreTheEntry | memory/internal/store/consolidated.go:291-299 | two clean names are the topic and, with the extension if it lacks it, the file of the entry |
| Consolidated.PurgeTakesTheStale | memory/internal/store/consolidated.go:441-457 | a purge takes exactly the stale markdown entries out of the archive |
| Consolidated.ArchiveRecordNamesIt | memory/internal/store/consolidated.go:377-382 | the record of an archived entry has the time and names the entry and the reason |
| Consolidated.RestoreRecordNamesIt | memory/internal/store/consolidated.go:424 | the record of a restored entry has the time and names the entry |
| Consolidated.Store.Create | memory/internal/store/consolidated.go:283-310 | create: the outcome of each failing test in order, or the entry written and the index rewritten |
| Consolidated.Store.Update | memory/internal/store/consolidated.go:313-336 | update: the outcome of each failing test in order, or the body replaced and the index rewritten |
| Consolidated.Store.Archive | memory/internal/store/consolidated.go:347-389 | archive: the body moves to the archive over any older one, index and audit trail follow |
| Consolidated.Store.Restore | memory/internal/store/consolidated.go:392-426 | restore: the archived body moves back over any active one, index and audit trail follow |
| Consolidated.Store.PurgeArchive | memory/internal/store/consolidated.go:429-462 | purging removes exactly the stale archived entries and counts them |
| Consolidated.IndexIsCurrentIff | memory/internal/store/consolidated.go:283-462 | in every run, once anything was written, INDEX.md is the rendering of the active tree iff no topic is itself called INDEX.md |
| Consolidated.IndexTopicOnlyFirst | memory/internal/store/consolidated.go:300-308 | such a topic can only be created in a scope nothing was written to before |
| Consolidated.UpdateKeepsIndex | memory/internal/store/consolidated.go:328-335 | an update never changes the index |
| Consolidated.TouchesOnlyItsEntry | memory/internal/store/consolidated.go:283-462 | each call changes only its own (topic, entry), a purge only stale archived ones |
| Consolidated.MovesKeepTheBody | memory/internal/store/consolidated.go:347-426 | a moved entry is in exactly one of the two trees afterwards, with its body unchanged |
| Consolidated.RestoreUndoesArchive | memory/internal/store/consolidated.go:347-426 | archive then restore gives the same body back, whatever happened in between to other entries, even over an entry created meanwhile |
| Consolidated.ArchiveHoldsTheLast | memory/internal/store/consolidated.go:347-462 | in every run the archive holds exactly the entries archived and neither restored nor purged since, each with the body it had when it was last archived |
| Consolidated.LogIsTheMovesIff | memory/internal/store/consolidated.go:382-542 | in every run LOG.md is the record of every successful move in order iff after none of them a topic called LOG.md stood |
| Consolidated.LogIsTheMoves | memory/internal/store/consolidated.go:382-424 | when nobody asks to create a topic called LOG.md, LOG.md is the record of every successful move of the run in order |
| Consolidated.LogTopicCanBeMade | memory/internal/store/consolidated.go:283-308 | where nothing was logged yet, an entry can be created under the topic LOG.md |
| Consolidated.LogTopicSilencesTheLog | memory/internal/store/consolidated.go:524-543 | while an entry of that topic stands, no call on another entry is logged |
| Consolidated.LogTopicOnlyFirst | memory/internal/store/consolidated.go:283-426 | once anything was logged there is no topic LOG.md and no call makes one |
| Consolidated.LogReadsTheMovesIff | memory/internal/store/consolidated.go:382-580 | reading LOG.md gives the run's successful moves, newest first, iff each was logged and no moved topic, file or reason holds a newline |
| AuditLog.BlockOf | memory/internal/store/consolidated.go:535-541 | the block written for a record |
| AuditLog.ReadLog | memory/internal/store/consolidated.go:545-580 | the parsed records, newest first, at most limit of them |
| AuditLog.LogRoundTripIff | memory/internal/store/consolidated.go:527-580 | reading a log gives the appended records back iff no detail holds a newline |
| AuditLog.NewestFirst | memory/internal/store/consolidated.go:570-575 | entry k of a read is the k-th newest record, and the limit is kept exactly |
| Pagination.Conversations.Create | backend/internal/repository/conversation_repository.go:40-60 | a new row with a default title, refused for a missing workspace or user or a taken id |
| Pagination.Conversations.Touch | backend/internal/repository/conversation_repository.go:112-125 | a touch changes one row's time only; an unknown id is no error |
| Pagination.Conversations.UpdateSessionID | backend/internal/repository/conversation_repository.go:127-141 | the session id and time of one row change, nothing else |
| Pagination.Conversations.List | backend/internal/repository/conversation_repository.go:78-110 | the page a filter is answered with: validation, default size, cursor lookup by id alone, one row more than a page asked for |
| Pagination.PastIsTheRest | backend/internal/repository/conversation_repository.go:90-97 | the rows past a cursor are the rest of the listing after it |
| Pagination.WalkListsEverything | backend/internal/repository/conversation_repository.go:78-110 | over an unchanged table, following the tokens lists all n conversations in order and takes exactly max(1, ceil(n/p)) requests, where p is the page size asked for, or 20 |
| Pagination.PagesHaveTheSizeAskedFor | backend/internal/repository/conversation_repository.go:82-108 | page i is the i-th stretch of the listing of the size asked for, or 20, and has the id of its last conversation as token iff more follow |
| Pagination.UnknownTokenStartsOver | backend/internal/repository/conversation_repository.go:90-97 | a token that names no conversation is ignored |
| Pagination.EachExactlyOnce | backend/internal/repository/conversation_repository.go:86-97 | the listing holds each of the user's conversations exactly once, in descending (updated_at, id) order |
| Pagination.TouchIsHarmlessIff | backend/internal/repository/conversation_repository.go:90-125 | a touch between two requests leaves what is still to be listed as it was iff the touched conversation is not still to be listed and is not the token, unless the token is the first of all |
| Pagination.TouchedUnlistedIsDropped | backend/internal/repository/conversation_repository.go:90-125 | a conversation touched before it was listed is not listed by the rest of the walk |
| Pagination.TouchedCursorStartsOver | backend/internal/repository/conversation_repository.go:90-97 | touching the cursor's conversation between two requests makes the walk start over |

## Left out

- HTTP servers and handlers beyond framing and cursor arithmetic, proxies, sign-in, cookies, encryption, the Slack transport, React components, telemetry, settings, prompts and skills: plumbing over libraries.
- Git, Qdrant, embedding services, tree-sitter, JSON libraries and uuid5: blob contents, chunks by content and path, JSON text and its parse, marshalling and its inverse, and the key behind an id are parameters or abstract values. uuid5 is taken to be injective.
- Embedding vectors: points carry their text, and one vector per text is assumed.
- Real time: the idle timer, the run deadline, eviction, the Slack throttle and file ages are inputs or steps that may happen at any point.
- The capacity of a subscriber's output channel: an event counts as received once it is sent.
- Failures of the store between its delete and its upsert, of the disk and of the database: the code promises nothing there, and a save counts as a save. Failing reads and embeddings are modelled, before the delete, where they occur.
- More than one repository in the state store, purging a repository during its pass, and the per-repo collections: one repository with its collection is modelled.
- The recorded commit of a repository is kept in the model but nothing is claimed of it beyond its value after a pass.
- `walk_symbols` and the choice between it and line windows: chunks of a file are a function of content and path.
- `_extract_tool_result_text`, token usage and cost fields, and the log lines of the engine.
- The branches of `encode_toon` other than the one for uniform rows, and floats: a number is its printed text.
- `ArchiveStale`, `View`, `Search`, the listings and `GetEntry` of the curated store, and `ListFiles`, `GetFile` and `ListScopes` of the daily store: reads and a loop over modelled calls.
- Scope resolution and path jailing: each model is of one resolved scope directory; a mark request names files by their base names.
- Crash points inside one call of the memory store: each call is one step.
- The JSON fence and decoding in front of `_parse_docs`: the model starts at the decoded items, with their fields stripped.
- Unknown columns, collations and concurrent transactions of the database: ids compare by code point and each query sees one table.
- The conversation frame is in the resume model by its id only; the frames the client decodes are those of events, and a client that resumes after the run is done is sent to the saved history.
- Working.MarksSitBetweenObservations: offsets count characters where the code counts bytes; since marks fall on observation boundaries both name the same places.
- ToolAgreement.CallsAgreeIff: streams in which an open tool block shares its id with another block are shown to part the two ends on one family of inputs (`SharedIdDiverges`), without an exact condition.
- The fairness of the Go scheduler: `RunBuffer.QuietIsReached` bounds the steps, it does not say when they are taken.
- Glob.RegexMeansGlob: the meaning of the few regular-expression forms the translation emits is defined here, not taken from Python's `re`.
