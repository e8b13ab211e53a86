# Verified model of an embedded agent's stateful core

This project models the stateful algorithms around the agent loop and proves what they
keep over whole runs: how streamed bytes become one response, how a long conversation is
compacted without losing its durable transcript, and the smaller machines beside them (loop
detection, permission modes, memory extraction, credential rotation, text wrapping, curated
memory files, query sanitising and the skill cache).

`dafny verify dfyconfig.toml` checks everything.

## How the model is built

- Each source file has a module of its own. Objects that the source updates in place are
  classes; every method is proved against a function of the old state, and the promises
  are lemmas about those functions. Loops the source has are loops here.
- A `char` of a string is one byte, except in `TextWrap`, where it is one Unicode scalar.
- `json` is a datatype; its text form, where needed, is a pair of functions of which only
  the round trip is assumed (`JsonLines.Lawful`).
- The database is a sequence of rows. Every SQL statement asks an oracle whether it
  succeeds, so each failure point of an operation is an input. Files are strings.
- Clocks, generated ids, the network, the file system and the model's answers are
  parameters. Percentages of the compressor are exact fractions.
- History variables (what was appended, written, accepted, approved, and where history and
  store last parted) are ghost fields.

Five groups of results:

1. **Streaming.** `SseParser` (with `SseStandard`), `OpenAIProvider`, `CallProviderStep` and
   `OllamaProvider` prove that neither the network's cuts nor the interleaving of deltas
   shows in the result, from raw bytes to the collected response.
2. **Compaction and transcript.** `ContextCompressor` gives the shape and the arithmetic of
   a compression; `ConversationStore` and `StoreSafety` the database under failing
   statements; `JsonLines` the export; `AgentLoop` and `TranscriptSafety` (with the
   steps to it in `TranscriptFacts`) the refinement between live history, stored rows and
   waiting messages over all sequences of operations.
3. **State machines.** `LoopDetector`, `PermissionMode`, `MemoryExtractor`,
   `CredentialPool`.
4. **Text.** `TextWrap` with `WrapGuarantees` (and the steps to it in `WrapFacts`),
   `CuratedMemory`, `FtsSanitizer`.
5. **A cache.** `SkillCache`.

## Where the code differs from its documentation

The model follows the code. Each difference below has a lemma.

- Event data drops leading empty values and ignores a `data` line without a colon, unlike
  section 9.2.6 of the WHATWG HTML Standard (`SseParser.DataAsStandard` says exactly when
  they agree), and a stream with CR LF line ends yields no event (`SseParser.CrLfUnread`; for
  CR in general `SseStandard.RecordsAsStandard`).
- When everything behind the head fits the tail budget the compressor keeps only the bare
  minimum (`ContextCompressor.TailIsMaximal` says exactly when what fits is kept,
  `ContextCompressor.OverrunHappens` is an input).
- Compression throws when a tool call to be summarised has arguments that are not a string,
  and when an old call's arguments have more than 500 elements
  (`ContextCompressor.ThrowsExactly`, `ContextCompressor.ObjectArgumentsThrow`).
- The text for duplicate tool output names a more recent call; it is an earlier one that
  is described (`ContextCompressor.DuplicatePointsBack`).
- A number read that fails inside `append` restarts the numbering at 0
  (`StoreSafety.AppendKeepsNumbers`, `StoreSafety.RunSafe`); `append` can report an error
  after it wrote the row (`ConversationStore.SqliteStore.Append`).
- An import that meets a malformed line keeps what it has written up to there
  (`JsonLines.ImportOutcome`), and the filter for search operators never meets one, because
  tokens are lower case (`FtsSanitizer.SearchableIs`).
- Resuming, clearing and an unarchived manual compression discard waiting messages, and so
  does persisting when an insert fails: the failure is logged and the message forgotten
  (`TranscriptSafety.OpConserves`, `TranscriptSafety.PersistAgrees`). A run that compresses
  and then fails leaves history and store apart (`TranscriptSafety.FailureAfterCompression`).
- Ping-pong detection fires on any calls whose neighbours differ, not only on two
  alternating tools (`LoopDetector.PingPongIsTwoTools`, `LoopDetector.FiveToolsReported`),
  and no-progress compares 64 bytes of a result (`LoopDetector.ResultsConfused`).
- A watermark row that cannot be read lets the watermark move back
  (`MemoryExtractor.WatermarkNeverBack`); a batch that holds the prompt's placeholder makes
  templating run forever (`MemoryExtractor.FillingEnds`); a request for a conversation in
  flight is dropped (`MemoryExtractor.RequestDropped`); messages that a compaction keeps are
  extracted once more (`MemoryExtractor.CompactionPendsAgain`).
- A pending plan approval survives a new entry into plan mode
  (`PermissionMode.StepFaithful`, `PermissionMode.StaleApproval`).
- A memory file that cannot be opened reads as empty and is then overwritten
  (`CuratedMemory.UnreadableLoses`).
- Of two slots with the same key and model the second is never updated
  (`CredentialPool.DuplicateUntouched`).
- A skill name can be taken by a file that is itself not listed (`SkillCache.HiddenName`), and
  a path that looks like an entry makes the cache key ambiguous and the cached list wrong
  (`SkillCache.KeyDetermines`, `SkillCache.WrongList`).

## Model

| member | source | states |
|---|---|---|
| Text.Split | src/base/StringUtil.h:15-24 | returns the pieces between delimiters; with `PiecesJoin` and `PiecesClean` nothing is lost and no piece holds a delimiter |
| Text.PiecesJoin | src/base/StringUtil.h:15-24 | joining the pieces gives the text back |
| Text.FramingUnique | src/net/SseParser.cpp:9-14 | a stream has exactly one division into records that end at their first separator and a separator-free remainder, and leftmost cutting computes it |
| Text.BlocksStep | src/net/SseParser.cpp:7-14 | records of a longer stream are those cut so far followed by those cut from leftover and new bytes |
| SseParser.ParseBlock | src/net/SseParser.cpp:16-40 | the per-line loop computes the fold that `EventMeaning` characterises |
| SseParser.Parser.Feed | src/net/SseParser.cpp:6-45 | one chunk emits the events of exactly the records it completes and keeps the rest |
| SseParser.Parser.FeedAll | src/net/SseParser.cpp:6-45 | chunk invariance: for every cutting into feeds, events and leftover are those of one feed of the whole stream |
| SseParser.EventMeaning | src/net/SseParser.cpp:16-40 | event data is the data values after leading empty ones, joined by line breaks; event and id are the last values given |
| SseParser.FieldMeaning | src/net/SseParser.cpp:20-28 | a line is a field if and only if a colon follows a name; exactly one space behind the colon is not part of the value |
| SseParser.BlockMeaning | src/net/SseParser.cpp:16-43 | a record becomes an event if and only if it gives a data value that is not empty or a last event name that is not empty, with the fields of its lines |
| SseParser.DataAsStandard | src/net/SseParser.cpp:19-40 | for lines ended by LF, data equals what section 9.2.6 of the WHATWG HTML Standard prescribes if and only if at most one data value is present or the values agree with the first one non-empty |
| SseParser.CrLfUnread | src/net/SseParser.cpp:9-14 | a stream whose lines all end in CR LF, which the standard allows, is never cut: no event comes out and every byte is kept |
| SseParser.DataDiffersFromStandard | src/net/SseParser.cpp:32-35 | two data lines of which the first is empty always differ from the standard |
| SseStandard.RecordsAsStandard | src/net/SseParser.cpp:9-14 | with lines ended by LF, CR or CR LF as in section 9.2.6 of the standard, the parser cuts the standard's records if and only if no CR stands in what it has cut and what it holds back is no record of the standard |
| SseStandard.EmptyLinesIgnored | src/net/SseParser.cpp:19-40 | empty lines change nothing in an event, so the records determine the events |
| OpenAIProvider.CallAccumulator.ParseSseChunk | src/provider/OpenAIProvider.cpp:259-344 | one payload's effect on accumulated calls and content and every chunk it emits, in order |
| OpenAIProvider.PayloadEmits | src/provider/OpenAIProvider.cpp:259-344 | one payload announces every argument fragment and every call id its deltas carry, in order and once each |
| OpenAIProvider.CallAccumulator.FlushCalls | src/provider/OpenAIProvider.cpp:329-343 | a finish emits one end chunk per call in index order, with argument text that parses replaced by its value and everything else as gathered, and clears the calls |
| OpenAIProvider.AssemblyPerIndex | src/provider/OpenAIProvider.cpp:278-317 | call k is the last id, the concatenated names and the concatenated argument text of exactly the deltas with index k |
| OpenAIProvider.FlushedMeaning | src/provider/OpenAIProvider.cpp:278-343 | a delivered call k has the last id and the concatenated names of its own deltas; its arguments are null when they carried no text, the parsed value when the text parses, and else the text |
| OpenAIProvider.InterleavingIrrelevant | src/provider/OpenAIProvider.cpp:278-317 | two delta streams with the same subsequence for every index assemble the same calls |
| CallProviderStep.ChunkCollector.OnChunk | src/agent/steps/CallProviderStep.cpp:111-124 | the callback's locals stay the text, ended calls and last reason of all chunks seen |
| CallProviderStep.ChunkCollector.Finish | src/agent/steps/CallProviderStep.cpp:138-143 | the response is a function of the chunks seen |
| CallProviderStep.CollectEvents | src/provider/OpenAIProvider.cpp:228-344 | text, calls and reason collected from an event list are the content deltas concatenated, per finish the assembled calls of the deltas since the finish before, and the last finish reason that is not empty |
| CallProviderStep.StreamChat | src/agent/steps/CallProviderStep.cpp:104-143 | end to end: for every cutting of the bytes the response has the text of the whole stream, the calls described by their own deltas, and as stop reason `tool_calls` when there are calls, else the last reason given, else `stop` |
| CallProviderStep.BuildRequest | src/agent/steps/CallProviderStep.cpp:65-92 | the request is what the compression of prompt and history answers, or both as they are without a compressor; history is replaced if and only if that is strictly shorter, then by a list without the system prompt that ends in the protected last messages |
| CallProviderStep.ReplacementKeepsPrompt | src/agent/steps/CallProviderStep.cpp:78-86 | a compressed list starts with the prompt it was given, and with or without a prompt what goes into the history ends in the protected messages of the old one |
| OllamaProvider.NdjsonStream.OnData | src/provider/OllamaProvider.cpp:243-357 | one chunk emits the chunks of exactly the lines it completes with ids drawn in order, and keeps the rest |
| OllamaProvider.LineMeaning | src/provider/OllamaProvider.cpp:254-345 | what each line emits: nothing for a blank or malformed one, the error, or its text, one ended call with the next id for each call, and the end with its usage; a carriage return at the end does not count |
| OllamaProvider.StreamAll | src/provider/OllamaProvider.cpp:239-365 | chunk invariance with ids: chunks, `tc_N` ids and leftover do not depend on the cuts, and no id is used twice |
| OllamaProvider.IdsDistinct | src/provider/OllamaProvider.cpp:304-306 | every id comes from the counter's range and no two calls share one |
| ContextCompressor.Compressor.constructor | src/agent/ContextCompressor.cpp:58-90 | the threshold is the clamped share of the window, at least the floor when the window is larger than that and 85 percent of it otherwise; tail and summary budgets are their clamped shares |
| ContextCompressor.TokensBetween | src/agent/ContextCompressor.cpp:92-112 | a message counts a token for every four bytes of content, name, call id and calls, bytes that start a longer character twice, each part rounded up |
| ContextCompressor.CostIsTokens | src/agent/ContextCompressor.cpp:114-118 | the backward walk charges a whole list its tokens and ten more per message |
| ContextCompressor.HeadFacts | src/agent/ContextCompressor.cpp:166-178 | the head covers a leading system message and, while nothing has been summarised, the protected first messages, then the tool results that follow, and nothing else; it depends on roles only |
| ContextCompressor.Compressor.ProtectHeadSize | src/agent/ContextCompressor.cpp:166-178 | the loop computes that head, and the first messages are protected exactly until a compression counted or left a summary |
| ContextCompressor.Compressor.FindTailCut | src/agent/ContextCompressor.cpp:180-213 | the two backward walks and the arithmetic around them compute the cut that the next six rows characterise |
| ContextCompressor.TailBounds | src/agent/ContextCompressor.cpp:180-213 | the cut lies behind the head with at least the protected minimum behind it |
| ContextCompressor.SpeakerKept | src/agent/ContextCompressor.cpp:204-211 | the last user or assistant message behind the head index is in the tail |
| ContextCompressor.TailByFit | src/agent/ContextCompressor.cpp:185-213 | the cut from the inputs alone: where the longest suffix starts that fits one and a half budgets, or the minimum when that is at the head, but never behind the minimum or the last speaker, and always behind the head |
| ContextCompressor.TailIsMaximal | src/agent/ContextCompressor.cpp:189-202 | every suffix behind the head that fits the soft ceiling is kept if and only if not everything from the head on fits, or the minimum or the last speaker reaches up to the head anyway |
| ContextCompressor.OverrunFallsBack | src/agent/ContextCompressor.cpp:200-202 | when everything behind the head fits, the tail is the bare minimum and what the last speaker adds |
| ContextCompressor.OverrunHappens | src/agent/ContextCompressor.cpp:200-202 | five messages that cost 50 of the 150 allowed are cut down to one |
| ContextCompressor.Compressor.PruneOldToolResults | src/agent/ContextCompressor.cpp:127-164 | the loop with its table of seen texts gives the pruned list, or throws exactly on oversized arguments before the cut |
| ContextCompressor.PruneKeeps | src/agent/ContextCompressor.cpp:136-162 | pruning changes nothing but the content of long tool results before the cut |
| ContextCompressor.DuplicatePointsBack | src/agent/ContextCompressor.cpp:139-154 | of old results with the same first 256 bytes the earliest is described by tool and length and exactly the later ones become the duplicate text |
| ContextCompressor.SummaryRoleFits | src/agent/ContextCompressor.cpp:325-336 | the summary is a user or assistant message, never repeats the role before it, and the one after it only when it must; which of the two in every case |
| ContextCompressor.Compressor.StaticFallbackSummary | src/agent/ContextCompressor.cpp:266-284 | the loop lists the last eight messages, newest first, cut to 300 bytes |
| ContextCompressor.Compressor.Compress | src/agent/ContextCompressor.cpp:286-361 | over the threshold it throws as `ThrowsExactly` says, summarises if and only if the head is not the whole list and a missing summary is no reason to give up, with the shape and the summary text of the result, and otherwise hands back the input, or the pruned list when all of it is head; all bookkeeping |
| ContextCompressor.AttemptAnswers | src/agent/ContextCompressor.cpp:294-320 | every attempt has that answer |
| ContextCompressor.SameHead | src/agent/ContextCompressor.cpp:294-295 | the head computed on the pruned list is the head of the input |
| ContextCompressor.ProtectedTail | src/agent/ContextCompressor.cpp:294-296 | the protected last messages lie behind both cuts although these are computed on different lists |
| ContextCompressor.CompressionShape | src/agent/ContextCompressor.cpp:286-361 | every compressed list is pruned head, one summary that holds the summary text, pruned tail, never longer than the input, with roles, names and ids kept, the protected first messages at their own places and the protected last ones identical |
| ContextCompressor.ThrowsExactly | src/agent/ContextCompressor.cpp:157-158 | an exception escapes if and only if an old call has a container of more than 500 elements, or there is a middle to send to a provider with a call whose arguments are no string |
| ContextCompressor.ObjectArgumentsThrow | src/agent/ContextCompressor.cpp:242-246 | a concrete list: a call to be summarised whose arguments are an object |
| ConversationStore.RowRoundTrip | src/conversation/SqliteConversationStore.cpp:184-250 | a stored message reads back with all optional fields; it is the message itself if and only if its content holds no NUL |
| ConversationStore.FieldsRoundTrip | src/conversation/SqliteConversationStore.cpp:184-250 | name, tool calls, call id, mode and plan file survive the JSON object they are written into |
| ConversationStore.RolesRoundTrip | src/conversation/SqliteConversationStore.cpp:164-180 | role names are read back, and every other name reads as system |
| ConversationStore.SqliteStore.Append | src/conversation/SqliteConversationStore.cpp:283-334 | the new row for every combination of failing statements, when it is written and when success is reported |
| ConversationStore.SqliteStore.ArchiveAndCompact | src/conversation/SqliteConversationStore.cpp:502-607 | all or nothing: the compacted tables on success, the old tables on any failure; success if and only if every statement but the number reads succeeds and the conversation exists or gets no rows |
| ConversationStore.CommitsExactly | src/conversation/SqliteConversationStore.cpp:502-607 | the same condition for the compaction as a function |
| ConversationStore.SqliteStore.Load | src/conversation/SqliteConversationStore.cpp:385-426 | the messages of the conversation's rows in `seq` order, or an error |
| ConversationStore.SqliteStore.Remove | src/conversation/SqliteConversationStore.cpp:609-631 | deletes exactly one conversation with its rows |
| StoreSafety.LoadInOrder | src/conversation/SqliteConversationStore.cpp:405-425 | with exact numbering, ordering by `seq` is the order of writing for both kinds of load |
| StoreSafety.AppendKeepsNumbers | src/conversation/SqliteConversationStore.cpp:288-302 | an inserted row keeps every numbering 0, 1, 2, ... if and only if its number could be read or the conversation was empty |
| StoreSafety.AddLoads | src/conversation/SqliteConversationStore.cpp:283-334 | a row with the number that was read is loaded behind all others, whatever numbers the table holds |
| StoreSafety.CompactLoads | src/conversation/SqliteConversationStore.cpp:502-607 | after a compaction that could read its numbers `load` gives exactly the compacted list, `load_all` all earlier rows and then that list, and other conversations are untouched |
| StoreSafety.CompactWritten | src/conversation/SqliteConversationStore.cpp:502-607 | whichever numbers are read, a committed compaction writes exactly the compacted list behind the rows of one conversation |
| StoreSafety.RemoveLoads | src/conversation/SqliteConversationStore.cpp:609-631 | removal empties one conversation and leaves the others as they are |
| StoreSafety.PerformAll | src/conversation/SqliteConversationStore.cpp:254-631 | the runs that the next rows speak of are sequences of calls of the store |
| StoreSafety.StepLoads | src/conversation/SqliteConversationStore.cpp:254-631 | every operation, whichever statement but the silent number read fails, keeps the tables valid and only extends the full transcript of a conversation that is not removed |
| StoreSafety.StepSafe | src/conversation/SqliteConversationStore.cpp:254-631 | numbering survives an operation if and only if each row it writes has its number read or opens its conversation; then the tables stay valid and a conversation that is not removed only grows |
| StoreSafety.RunSafe | src/conversation/SqliteConversationStore.cpp:254-631 | the same over every run, whichever statements fail: numbers are 0, 1, 2, ... throughout if and only if that holds of every operation |
| JsonLines.ExportJsonl | src/conversation/SqliteConversationStore.cpp:633-668 | one dumped line per active message |
| JsonLines.ImportJsonl | src/conversation/SqliteConversationStore.cpp:670-738 | the tables after every outcome: success, a malformed line, a failed append with its cleanup |
| JsonLines.ImportOutcome | src/conversation/SqliteConversationStore.cpp:684-737 | an import ends behind the last line or at the first that is malformed, throws or is not stored; the lines before are written, and only in the last case the conversation is removed again, if that succeeds |
| JsonLines.FieldsMeaning | src/conversation/SqliteConversationStore.cpp:699-728 | which objects are messages, which are refused and which throw, and the fields read |
| JsonLines.LinesSplit | src/conversation/SqliteConversationStore.cpp:680-683 | a text is the lines its line breaks close and the rest behind the last one, if there is any |
| JsonLines.LineRoundTrip | src/conversation/SqliteConversationStore.cpp:640-725 | an exported line reads back as the message |
| JsonLines.RoundTrip | src/conversation/SqliteConversationStore.cpp:633-738 | importing the export of any conversation gives a new one that loads the same messages and changes no other |
| AgentLoop.Loop.Run | src/agent/AgentLoop.cpp:95-266 | one run as a function of what its steps do, including interrupts, failures, handoffs and the iteration limit; `FinishedRun` and `UnfinishedRun` say what it leaves |
| AgentLoop.Loop.PersistNewMessages | src/agent/AgentLoop.cpp:507-518 | waiting messages are appended in order, failures skipped, and the list is emptied |
| AgentLoop.Loop.PersistOrArchiveTurn | src/agent/AgentLoop.cpp:520-535 | the originals are appended before the compaction, which only clears the waiting list when it succeeds; `FinishedRun` says when that is |
| AgentLoop.Loop.CompressContext | src/agent/AgentLoop.cpp:583-627 | the manual compression in each case, and exactly when it reports success |
| AgentLoop.Loop.Resume | src/agent/AgentLoop.cpp:537-543 | history becomes the loaded list without legacy directives, waiting messages are dropped |
| TranscriptSafety.FinishedRun | src/agent/AgentLoop.cpp:95-266 | every run that reaches its last persist, from its turns and the failing statements: the history is what was said behind the last compressed list; the waiting messages that land are added to the rows; if a list was put in place, compaction in place is on and each of its statements succeeds, the history follows, nothing waits, and with the numbers read it is what a load gives and history and store agree |
| TranscriptSafety.UnfinishedRun | src/agent/AgentLoop.cpp:142-188 | every run that fails or is interrupted writes nothing; what was said up to then is in the history and waits |
| TranscriptSafety.CompressedManually | src/agent/AgentLoop.cpp:583-627 | every manual compression: what history, waiting messages and rows are when the store is not compacted, when that succeeds, and when it fails |
| TranscriptFacts.StripCuts | src/agent/AgentLoop.cpp:25-38 | a resumed user message is cut at the first marker and the blank line in front of it, and at nothing else |
| TranscriptSafety.HistoryRefined | src/agent/AgentLoop.cpp:507-581 | after every sequence of runs, compressions, resumes and clears, whichever statements of the store fail: active rows followed by waiting messages are the history without system messages, if and only if the two said the same where they last may have parted (a replaced history, a failed append, an unread number, a stripped marker) |
| TranscriptFacts.PersistAllLoads | src/agent/AgentLoop.cpp:507-518 | appending writes exactly the waiting messages whose insert succeeds behind the rows of one conversation, and with the numbers read they are loaded in that order |
| TranscriptSafety.PersistAgrees | src/agent/AgentLoop.cpp:507-518 | history and store still agree after a persist that could read its numbers if and only if every waiting message was inserted |
| TranscriptFacts.ArchiveRefines | src/agent/AgentLoop.cpp:520-535 | a committed compaction that could read its numbers re-establishes the agreement whatever was the case before |
| TranscriptSafety.FailureAfterCompression | src/agent/AgentLoop.cpp:142-188 | after any run that compresses, last in turn k, and fails or is interrupted in that turn or a later one, history and store agree if and only if the compressed list says what active rows and waiting messages said in front of turn k |
| TranscriptSafety.ResumeUnchanged | src/agent/AgentLoop.cpp:25-38 | a resume takes over the loaded list unchanged if and only if no user message holds the legacy marker |
| TranscriptSafety.OpConserves | src/agent/AgentLoop.cpp:507-627 | an operation loses no conversation message if and only if it neither discards waiting ones nor persists with an insert that fails; in every case the rows grow by exactly what it writes |
| TranscriptSafety.TranscriptConserved | src/agent/AgentLoop.cpp:507-627 | over every sequence of operations, whichever statements fail: the rows of each conversation are those it held before followed by the ones written since, appended or compacted, in order and once each, loads return them in that order when numbers are in place, and the appended rows and the waiting messages are all messages ever appended if and only if no operation loses one |
| TranscriptSafety.FreshSession | src/agent/AgentLoop.cpp:59-93 | a new loop on a new store meets every assumption of these results, so they hold of every run from there |
| LoopDetector.Detector.Check | src/agent/LoopDetector.cpp:19-48 | the two bounded windows stay the ends of the whole log, and the verdict is the one `VerdictMeaning` describes |
| LoopDetector.VerdictMeaning | src/agent/LoopDetector.cpp:19-97 | break when the latest results of the tool among the last 50 all equal this one, else block when the latest of the last 20 calls all equal this one, else warn when no two neighbours of the latest calls have one tool |
| LoopDetector.ProgressMeaning | src/agent/LoopDetector.cpp:82-97 | the scan for results counts the run at the end of that tool's results |
| LoopDetector.ExactMeaning | src/agent/LoopDetector.cpp:50-61 | the backward scan counts the run of identical calls at the end of the log |
| LoopDetector.ExactWindow | src/agent/LoopDetector.cpp:35-61 | the 20-call window decides identical calls as the whole log would, on every log, if and only if the threshold is at most 21 |
| LoopDetector.PingPongMeaning | src/agent/LoopDetector.cpp:63-80 | the scan fires if and only if the last calls and the current one have pairwise different neighbours |
| LoopDetector.PingPongWindow | src/agent/LoopDetector.cpp:35-80 | the window decides alternation as the whole log would if and only if the threshold is at most 20 |
| LoopDetector.NoProgressWindow | src/agent/LoopDetector.cpp:38-97 | the windowed no-progress verdict holds if and only if the whole log's does and the window holds enough calls of the tool |
| LoopDetector.VerdictOfWholeLog | src/agent/LoopDetector.cpp:19-97 | with thresholds in range and enough of the tool's calls in the result window the detector answers as one that forgets nothing |
| LoopDetector.PingPongIsTwoTools | src/agent/LoopDetector.cpp:66-79 | where it fires, two tools really alternate if and only if no third tool is among the calls looked at |
| LoopDetector.FiveToolsReported | src/agent/LoopDetector.cpp:66-79 | five different tools in a row are reported at the default threshold |
| LoopDetector.ResultsConfused | src/agent/LoopDetector.cpp:11-17 | two results count as identical if and only if they are, or share the error flag and their first 64 bytes |
| LoopDetector.CallsConfused | src/agent/LoopDetector.cpp:7-9 | two calls of tools without a colon in their names count as identical if and only if names and dumped arguments are |
| LoopDetector.RepeatsAreStopped | src/agent/LoopDetector.cpp:50-61 | a call repeated up to the threshold since the reset is always blocked or broken |
| LoopDetector.WorstIsMaximal | src/agent/steps/LoopDetectStep.cpp:12-18 | the worst action is break if some pair is judged so after those before it, else block if one is, else warn if one is |
| LoopDetector.LoopDetectStep | src/agent/steps/LoopDetectStep.cpp:6-42 | effect on calls, results, messages and the stop flag for each worst action; unpaired calls and results are not judged |
| MemoryExtractor.RunSafe | src/memory/MemoryExtractor.cpp:61-108 | in every interleaving: requests are served once each and in order, and the deduplication set is exactly the ids waiting and in flight, without duplicates |
| MemoryExtractor.Drains | src/memory/MemoryExtractor.cpp:73-108 | after a stop the worker exits with an empty queue once it had its moves, and everything accepted was processed in order |
| MemoryExtractor.RequestDropped | src/memory/MemoryExtractor.cpp:61-71 | a request has no effect if and only if its id is empty, waiting or in flight, or the extractor is stopped |
| MemoryExtractor.Extractor.Process | src/memory/MemoryExtractor.cpp:142-283 | every way out releases the id; the watermark moves to the last row read if and only if nothing failed and a user message was read |
| MemoryExtractor.ReadBatch | src/memory/MemoryExtractor.cpp:179-202 | rows read, text built and whether a user spoke |
| MemoryExtractor.ReachedWithinBudget | src/memory/MemoryExtractor.cpp:182-201 | a row is read if and only if the rows before it leave some of the budget, or there is no budget at all |
| MemoryExtractor.BatchIsEntries | src/memory/MemoryExtractor.cpp:182-201 | the batch is, for each row read, its role and as much of its text as the budget left by the rows before allows |
| MemoryExtractor.BatchLength | src/memory/MemoryExtractor.cpp:193-200 | the batch exceeds the budget by at most one frame and five bytes per message |
| MemoryExtractor.ExtractionCovers | src/memory/MemoryExtractor.cpp:150-274 | a successful extraction moves one watermark forward and skips no pending row if and only if all pending rows fit the limit; otherwise nothing moves |
| MemoryExtractor.ReadOnce | src/memory/MemoryExtractor.cpp:150-274 | however the table changes, no row enters two batches that counted, and rows are read in writing order |
| MemoryExtractor.CompactionPendsAgain | src/memory/MemoryExtractor.cpp:160-166 | after a committed compaction exactly the user and assistant messages of the compacted list are pending, whatever of them was extracted before |
| MemoryExtractor.WatermarkNeverBack | src/memory/MemoryExtractor.cpp:317-331 | watermarks never move back if and only if their row can be read or the extraction stops before writing |
| MemoryExtractor.StoreIdsOrdered | src/conversation/SqliteConversationStore.cpp:121-131 | message ids ascend in the table through every run of the store |
| MemoryExtractor.FillingEnds | src/memory/MemoryExtractor.cpp:213-219 | for every prompt and every batch that can be read, the loop ends if and only if the prompt or the batch holds no placeholder |
| TextWrap.WrapByWidth | src/tui/TextWrap.cpp:28-124 | the loops compute greedy placement of whole words and glyphs, segment by segment |
| TextWrap.FlushWord | src/tui/TextWrap.cpp:56-74 | flushing a pending word places its atoms; only a word wider than a line is taken apart |
| WrapGuarantees.LinesFit | src/tui/TextWrap.cpp:46-123 | lines fit the width if and only if it is at least 2 or no glyph is wide; they never exceed the larger of the width and 2 |
| WrapGuarantees.LinesTrimmed | src/tui/TextWrap.cpp:10-15 | no line ends in a space |
| WrapGuarantees.ContentKept | src/tui/TextWrap.cpp:28-124 | the lines hold the text in order, spaces and line ends aside |
| WrapGuarantees.WordsKept | src/tui/TextWrap.cpp:28-124 | wherever a word that fits the width stands in the text, it stands unbroken on a line, behind exactly the characters that precede it, spaces and line ends aside; of one that does not fit, as many characters as the width holds start a line |
| WrapGuarantees.BreaksNecessary | src/tui/TextWrap.cpp:56-116 | every line but the first of a segment begins with a word, a glyph or the start of an overlong word that the line before could not take, and never with a space |
| WrapGuarantees.LineEndsKept | src/tui/TextWrap.cpp:28-124 | a line end of the text ends a line: what stands before it is wrapped by itself, an empty line stays one, a last line end opens none |
| WrapGuarantees.FittingTextStays | src/tui/TextWrap.cpp:46-123 | text that fits one line stays one line |
| WrapGuarantees.LinesStay | src/tui/TextWrap.cpp:28-124 | wrapping a produced line again changes nothing |
| PermissionMode.NamesRoundTrip | src/agent/PermissionMode.h:20-39 | mode names are read back; every other name but the aliases means manual |
| PermissionMode.PlanExitTool.Execute | src/agent/PlanExitTool.cpp:6-31 | approval in plan mode sets the handoff and the saved mode, manual if that is plan mode; outside plan mode and for every other decision the state is unchanged; the reply of each case |
| PermissionMode.ModeControl.SetPlanMode | src/agent/AgentLoop.cpp:372-404 | new state and result, including the failing plan directory |
| PermissionMode.ModeControl.SetPermissionMode | src/agent/AgentLoop.cpp:349-370 | new state and result for each requested mode |
| PermissionMode.ModeControl.AfterTurn | src/agent/AgentLoop.cpp:190-216 | a pending approval becomes exactly one user message and is consumed |
| PermissionMode.ModeControl.RestoreMode | src/agent/AgentLoop.cpp:545-571 | the backward search takes mode and plan file from the last user message |
| PermissionMode.AlwaysConsistent | src/agent/AgentLoop.cpp:349-404 | in every interleaving: the saved mode is not plan mode, is the mode itself outside plan mode, both plan files agree, and plan mode has a plan file |
| PermissionMode.HandoffsApproved | src/agent/AgentLoop.cpp:190-216 | in every interleaving, from any state, each handoff uses up one approval among the steps or the one that was pending, and the plan file on record is that of the last approval in plan mode |
| PermissionMode.PlanPathsDiffer | src/agent/AgentLoop.cpp:406-422 | two plan files are the same if and only if times and conversations are |
| PermissionMode.StepFaithful | src/agent/AgentLoop.cpp:372-393 | a pending approval stays that of the plan to be executed if and only if plan mode is not asked for again before the handoff |
| PermissionMode.HandoffFaithful | src/agent/AgentLoop.cpp:190-216 | then every handoff names the approved plan and leaves the mode as it is |
| PermissionMode.StaleApproval | src/agent/AgentLoop.cpp:372-393 | otherwise a plan can be executed that nobody approved |
| PermissionMode.RestoreReestablishes | src/agent/AgentLoop.cpp:545-571 | restoring gives the mode, and in plan mode the plan file, in which the last user input was given |
| CuratedMemory.SplitEntries | src/memory/CuratedMemoryStore.cpp:26-41 | the loop yields the trimmed non-blank pieces between delimiters |
| CuratedMemory.TrimmedIs | src/memory/CuratedMemoryStore.cpp:18-24 | trimming cuts white space off both ends and stops at the first other character |
| CuratedMemory.RoundTrip | src/memory/CuratedMemoryStore.cpp:26-50 | reading a written list gives it back if and only if every entry is trimmed, non-empty, free of the delimiter and does not end in an unfinished one |
| CuratedMemory.CuratedMemoryStore.AddEntry | src/memory/CuratedMemoryStore.cpp:144-179 | effect on entries and file of one target, none on the other, and exactly when it succeeds |
| CuratedMemory.CuratedMemoryStore.RemoveEntry | src/memory/CuratedMemoryStore.cpp:181-207 | removes the first entry that contains the text, and when it reports so |
| CuratedMemory.AddConforms | src/memory/CuratedMemoryStore.cpp:144-179 | what an addition finds in the file and leaves in memory; memory and file stay equal, distinct and within the limit if and only if nothing is appended, or the write succeeds with an entry the format can hold |
| CuratedMemory.RemoveConforms | src/memory/CuratedMemoryStore.cpp:181-207 | effect on memory and file; they stay equal if and only if nothing matched or the write succeeds, and with an unreadable file, which empties memory, if and only if there was nothing to forget |
| CuratedMemory.AlwaysConforming | src/memory/CuratedMemoryStore.cpp:144-207 | over every sequence of such calls |
| CuratedMemory.UnreadableLoses | src/memory/CuratedMemoryStore.cpp:225-228 | all earlier entries survive the addition of an entry the format can hold if and only if the file was readable, was not written, or there were none; otherwise the new entry is all that is left |
| CredentialPool.Pool.Acquire | src/provider/CredentialPool.cpp:24-41 | the search ends; it fails if and only if no slot is healthy and then leaves the index, else it returns the next healthy slot in turn |
| CredentialPool.RoundRobin | src/provider/CredentialPool.cpp:24-41 | any h acquires in a row with h healthy slots return each once in cyclic order and restore every turn |
| CredentialPool.TurnIsHealthy | src/provider/CredentialPool.cpp:30-38 | a turn holds each healthy slot once and nothing else |
| CredentialPool.Pool.HealthyCount | src/provider/CredentialPool.cpp:15-22 | counts the slots of a turn |
| CredentialPool.Pool.Release | src/provider/CredentialPool.cpp:43-59 | a report changes the first matching slot only |
| CredentialPool.HealthFollowsReports | src/provider/CredentialPool.cpp:43-59 | over every run, the error count of a slot with a key and model of its own is the number of failures reported since the last success, and it is unhealthy if and only if its last three reports were failures |
| CredentialPool.DuplicateUntouched | src/provider/CredentialPool.cpp:45-57 | no run ever changes a slot behind another with the same key and model |
| FtsSanitizer.Tokenize | src/memory/FtsSanitizer.cpp:52-70 | the character loop yields the lower-case runs of word characters |
| FtsSanitizer.TokensHold | src/memory/FtsSanitizer.cpp:52-70 | the tokens hold every word character of the text, in lower case and in order |
| FtsSanitizer.SearchableIs | src/memory/FtsSanitizer.cpp:29-37 | a token is dropped if and only if it is short or a stop word: the filter for operators never meets one |
| FtsSanitizer.JoinRoundTrip | src/memory/FtsSanitizer.cpp:52-70 | tokenizing undoes joining by spaces for every list of tokens |
| FtsSanitizer.TokenizeStable | src/memory/FtsSanitizer.cpp:52-70 | the tokens of a text, joined by spaces, have the tokens of the text |
| FtsSanitizer.SanitizedIs | src/memory/FtsSanitizer.cpp:25-50 | the searchable tokens of a query, in order, are what comes back from its sanitized form |
| FtsSanitizer.SanitizeIdempotent | src/memory/FtsSanitizer.cpp:25-50 | sanitizing twice is sanitizing once |
| FtsSanitizer.JaccardSimilarity | src/memory/FtsSanitizer.cpp:72-87 | the counting loop computes shared over all distinct tokens |
| FtsSanitizer.JaccardMeaning | src/memory/FtsSanitizer.cpp:72-87 | symmetric, within [0, 1], 1 if and only if the token sets are equal, 0 if and only if disjoint and not both empty |
| SkillCache.SkillManager.Scan | src/skill/Skill.cpp:763-834 | the scan with its two sets lists the winning candidates in order |
| SkillCache.CandidateMeaning | src/skill/Skill.cpp:776-818 | what a file offers, exactly when, and with which fields |
| SkillCache.FilterKeepsEnabled | src/skill/Skill.cpp:803-818 | leaving out disabled skills drops exactly those from the candidates and keeps the order |
| SkillCache.ScanLists | src/skill/Skill.cpp:819-833 | a list holds exactly the winning candidates, strictly ordered by category and then name, with distinct names and distinct directories |
| SkillCache.OrderUnique | src/skill/Skill.cpp:828-832 | only one order is possible, so the sort need not be stable |
| SkillCache.HiddenName | src/skill/Skill.cpp:819-822 | a name is listed if and only if its first candidate finds its directory free, and offered but hidden if and only if that one does not, whatever later candidates have the name |
| SkillCache.HiddenNameExample | src/skill/Skill.cpp:819-822 | three files of which the second, itself not listed, hides the third |
| SkillCache.KeyInjective | src/skill/Skill.cpp:739-755 | equal keys mean equal paths, times and sizes in the same order, as long as no path holds the end of an entry such as `:1:2;` |
| SkillCache.KeyUnambiguous | src/skill/Skill.cpp:739-755 | the key of one file stands for that file alone if and only if its path holds no such text; otherwise two files share it |
| SkillCache.KeyDetermines | src/skill/Skill.cpp:739-755 | among all lists of files, one is determined by its key if and only if it is empty or a single file with such a path |
| SkillCache.SkillManager.ScanCached | src/skill/Skill.cpp:847-858 | the cache is reused if and only if it is valid and its key is the present one |
| SkillCache.ListsAgree | src/skill/Skill.cpp:847-1066 | in every run of lists, creations, edits, enabling and disabling, each list is what a fresh scan would give, as long as equal keys mean equal scans among the file lists met |
| SkillCache.ListsAgreeExactly | src/skill/Skill.cpp:847-1066 | every list of every run is fresh if and only if equal keys mean equal scans |
| SkillCache.HonestKeysTell | src/skill/Skill.cpp:739-755 | that is so when changes of content show in times or sizes and no path holds the end of an entry |
| SkillCache.WrongList | src/skill/Skill.cpp:848-851 | a run in which the cache returns a wrong list, because the path of one file reads like two entries |
| SkillCache.StaleList | src/skill/Skill.cpp:848-851 | a change that keeps times and sizes is never seen |

## Left out

- HTTP, retries, processes, SQLite itself, SQL text and the file system: foreign code; the model has rows, strings and failure oracles.
- JSON text: parsing and dumping are a codec of which only the round trip and the absence of line breaks are assumed. A payload whose delta fails half way with a type error is modelled as a shorter delta. Dumping text that is not valid UTF-8 throws in the original and is not modelled.
- A byte order mark in front of an event stream, and the `retry` field of an event.
- Negative tool-call indices (undefined behaviour) and negative `protect_first_n` or `protect_last_n`: natural numbers here.
- 32-bit overflow of token estimates, counters and sums: unbounded integers here.
- Anthropic streaming, which forwards argument deltas without accumulating them, and the non-streaming paths of the providers.
- The steps between provider call and loop detection: any step that appends messages is an action of a turn. The system prompt, memory strategies, budget and events are not modelled.
- Titles, timestamps, listing, usage sums and metadata rows of the store; an error while rows of a load are being read.
- Rows and imported lines that hold JSON no version of the program writes (for instance an object as `tool_calls`).
- The interface's removal of the active conversation, and two processes on one database or one memory file; creation of the memory files, and a write cut short by a full disk.
- Extraction of facts from the model's answer, their storage, and the query that enqueues conversations at start-up.
- PermissionMode.RestoreReestablishes: speaks of the last user message as it was appended; after a compaction that may be the summary, which records no mode.
- The glyph table of the terminal library: widths are any function into 0, 1, 2. Invalid UTF-8 is not modelled.
- Frontmatter, platform names, roots and name matching of skills: results of given functions. Overlapping roots, for which a path alone does not determine the relative directory.
- HRR vectors, full-text ranking, trust scores and costs: floating point or simple sums.
- The terminal interface and its incremental wrapping.
