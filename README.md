# discord-speech-bot-v2 in Dafny

This project models the core of a Discord voice bot. The bot listens to a voice channel, runs speech
recognition on each speaker's audio, and keeps two conversation logs. The *hot* log holds what
was said to the bot. The *latent* log holds what the bot overheard. A transcript that names the bot
gets an answer from a chat model, which is streamed to a speech-synthesis server.

The model covers these parts:

- **Conversation log** (`conversation.dfy`, module `Conversation`, from conversation.ts). The class
  `CondensedConversation` keeps:
  - the append-only entry list;
  - the `dirty` flag;
  - the cached synopsis and its time stamp (`lastUpdated`).

  The context window rendered for a prompt is the pure function `ContextWindow`. The periodic summary
  trigger is `SummaryDue`. Both are proved equal to what the imperative loops compute, and their
  meaning is stated in lemmas.
- **Debounce monitor** (`quiescence.dfy`, module `Quiescence`, from quiescenceMonitor.ts). The monitor
  accumulates values, remembers whether any was "hot", and restarts one timer on every activity.
  - The timer is a deadline. `Run` is an event loop over activities and clock ticks.
  - Lemmas show what bursts of activity, and activities spread out in time, hand to the callback.
- **Response streaming and prompts** (`prompting.dfy`, module `Prompting`, from prompting.ts). It covers:
  - the handler that turns streamed chat deltas into utterances on a response dispatcher;
  - what happens once the chat call returns or throws;
  - the follow-up answer;
  - the system prompt text;
  - the case-insensitive "yes" test.
- **Synthesis link** (`tts.dfy` for tts.ts, `bot_server.dfy` for bot.py, `tts_server.dfy` for tts.py).
  - The bot writes `"<nonce> <text>"` to the server and remembers the voice connection under that nonce.
  - The server writes `tts_output/<nonce>.wav`.
  - A directory watcher parses the nonce back out of the file name and plays the file once.
  - Both servers' decodes are proved to round-trip the bot's messages, and the file name is proved to
    parse back to the nonce. JavaScript `parseInt` and Python `int`/`str` are modelled digit by digit.
- **Bot glue** (`bot.dfy`, module `Bot`, from bot.ts). It covers:
  - the 30-second duplicate filter;
  - the alias fix for user names;
  - the per-guild, per-user map of recognition streams;
  - the handler that routes a finished transcript to the hot or the latent log.
- **Recognition worker** (`whisper.dfy`, module `Whisper`, from whisper_wrapper.cpp). It covers:
  - each unit's 30-second sliding window and its count of unprocessed samples;
  - the inference buffer, with its 0.2 s overlap;
  - the worker pass: drain the queue, apply the workloads, keep each unit id's first appearance,
    acquire the callback on a unit's first run, recognise, and suppress quiet inferences.

  The high-pass filter, the energy-based voice detection and the recogniser are function parameters.

`options.dfy` holds the `Option` type. `text.dfy` holds the string helpers:
- decimal rendering and its inverse;
- the first index of a character;
- prefix/suffix/substring predicates;
- ASCII lower-casing.

Times are integer milliseconds and the epoch is 0. The clock (`Date.now()`, `new Date()`) is a
parameter `now`.

tts.py and bot.py differ on one point, which the model keeps as written. tts.py parses the
nonce with `int` and slices the message at `len(str(nonce)) + 1`. A token written with a leading
zero therefore moves the cut into the text (`TtsServer.LeadingZeroShiftsText`). The bot only ever
sends canonical decimals (`TtsServer.CanonicalTokenKeepsText`), so the round trip with the bot
is exact.

## Model

| member | source | states |
|---|---|---|
| Conversation.CondensedConversation.constructor | conversation.ts:10-14 | A new log has no synopsis, is not dirty and holds no entries. |
| Conversation.CondensedConversation.AddUtterance | conversation.ts:16-20 | The entry is appended at the end. The log becomes dirty, the summary watermark goes back to the epoch, and the synopsis is kept. |
| Conversation.CondensedConversation.TransformConversationOrGetCachedSynopsis | conversation.ts:22-48 | The rendering loop returns exactly `ContextWindow` of the current state. |
| Conversation.ContextWindow | conversation.ts:22-48 | The text transformConversationOrGetCachedSynopsis returns: the synopsis prefix, then the lines of the window's recent entries when the log is dirty. Its meaning is stated by `ContextWindowPrefix`, `KeptMembers`, `KeptAll` and `NewestEntryIsLastLine`. |
| Conversation.ContextWindowPrefix | conversation.ts:23-33 | The window always starts with the synopsis header and synopsis. A clean log renders only that prefix, which is empty when there is no synopsis. |
| Conversation.RenderStep | conversation.ts:40-45 | One loop step appends the entry's line exactly when the entry is not older than the filter date. |
| Conversation.AppendRecent | conversation.ts:35-47 | The loop over the window appends, in order, the lines of exactly the entries not older than the filter date. |
| Conversation.KeptMembers | conversation.ts:40-42 | The date filter keeps an entry iff it is in the list and not older than the filter date. |
| Conversation.WindowByIndex | conversation.ts:31-47 | A dirty log renders, after the prefix, the lines of the entries at ascending indices. An index is rendered iff it is at least `length - lastN` (so from `Math.max(0, length - lastN)` on) and its entry is not older than the filter date. |
| Conversation.KeptAll | conversation.ts:35-46 | When no entry is older than the filter date, every entry of the window is rendered, in order. |
| Conversation.NewestEntryIsLastLine | conversation.ts:16-47 | Right after an append, the new entry is the last line of every window of at least one entry. |
| Conversation.Unsummarized | conversation.ts:76-85 | The backward count never exceeds its budget or the log length. |
| Conversation.UnsummarizedFull | conversation.ts:76-85 | The count reaches its budget iff the log has that many entries and the newest ones are all at least as recent as the watermark. |
| Conversation.CondensedConversation.Update | conversation.ts:70-90 | A summary is requested iff `SummaryDue` holds. The request is the 50-entry window. No field changes. |
| Conversation.SummaryDue | conversation.ts:70-89 | Whether update() starts a summary. `SummaryDueIff` states when it holds. |
| Conversation.SummaryDueIff | conversation.ts:70-89 | A summary is due iff the log is dirty, has more than ten entries, and its eleven newest entries are all at least as recent as the last summary. |
| Conversation.SummaryDueAfterAppend | conversation.ts:72-87 | Right after an append, a summary is due iff the log has at least eleven entries. |
| Conversation.CondensedConversation.CompleteSummary | conversation.ts:56-66 | Non-empty content becomes the synopsis, through the transform when one is given, and the watermark becomes the completion time. Empty content changes nothing. The dirty flag is never cleared. |
| Conversation.CondensedConversation.Clone | conversation.ts:92-99 | The copy is a fresh object with the same four fields. |
| Conversation.CloneIsIndependent | conversation.ts:92-99 | Appending to the original and to its clone affects each of them alone. |
| Quiescence.Delay | quiescenceMonitor.ts:30-36 | The timer delay is the timeout when it lies in Node's accepted range, and exactly 1 ms otherwise. |
| Quiescence.QuiescenceMonitor.constructor | quiescenceMonitor.ts:9-17 | A new monitor is idle and consistent, and keeps its timeout and hotness check. |
| Quiescence.QuiescenceMonitor.Activity | quiescenceMonitor.ts:19-37 | One activity appends the value. It consults the check only while the window is not hot, and re-arms the single timer. The monitor invariant is kept. |
| Quiescence.QuiescenceMonitor.Expire | quiescenceMonitor.ts:30-36 | A due timer hands the accumulated values to the callback exactly when the window is hot, then empties the monitor. A timer that is not due changes nothing. |
| Quiescence.ActivityStep | quiescenceMonitor.ts:19-37 | One activity on the monitor state: append, update `hot`, re-arm the timer. `ActivityKeepsConsistent` and `HotIsSticky` state what it keeps. |
| Quiescence.ExpireStep | quiescenceMonitor.ts:30-36 | The timer callback on the monitor state. `ExpiryFlushesHotWindows` states what it hands out and leaves behind. |
| Quiescence.Run | quiescenceMonitor.ts:19-37 | The event loop over activities and clock ticks. `RunActNotDue`, `BurstAccumulates`, `CloseActivitiesMerge` and `SeparatedActivitiesSplit` state its behaviour. |
| Quiescence.ActivityKeepsConsistent | quiescenceMonitor.ts:24-28 | After an activity, `hot` is still true iff some accumulated value passed the check, and a timer is pending iff values are accumulated. |
| Quiescence.HotIsSticky | quiescenceMonitor.ts:26-28 | Once hot, the window stays hot and the check is no longer consulted. |
| Quiescence.ExpiryFlushesHotWindows | quiescenceMonitor.ts:30-36 | When the timer fires, the callback gets the values iff one of them was hot. The monitor is left empty, cold and without a timer. |
| Quiescence.RunActNotDue | quiescenceMonitor.ts:19-36 | An activity that arrives before the pending timer is due only replaces that timer. |
| Quiescence.BurstAccumulates | quiescenceMonitor.ts:19-37 | A burst whose gaps are all shorter than the timeout fires no callback. It ends with all values accumulated in order, hotness as the disjunction, and one timer. |
| Quiescence.CloseActivitiesMerge | quiescenceMonitor.ts:19-37 | Two activities closer than the timeout give one callback with both values. |
| Quiescence.SeparatedActivitiesSplit | quiescenceMonitor.ts:19-37 | Two hot activities at least a timeout apart give two separate callbacks. |
| Prompting.OnDelta | prompting.ts:163-188 | The onMessage handler on one delta. What it does over a whole stream is stated by `FunctionCallEndsResponse`, `FinalizedIsStable`, `UnbrokenChunksAccumulate`, `StreamPreservesText` and `FinishedStreamSaysEverything`. |
| Prompting.FinalizedIsStable | prompting.ts:170-171 | After finalization, no later delta changes anything. |
| Prompting.FunctionCallEndsResponse | prompting.ts:164-171 | A function call on an open dispatcher says the thinking message once and finalizes it. Nothing streamed afterwards is said. |
| Prompting.UnbrokenChunksAccumulate | prompting.ts:173-186 | Content without a paragraph break says nothing yet. It only gathers in the accumulator, in arrival order. |
| Prompting.PlainStepKeepsText | prompting.ts:173-186 | A content delta that is neither a function call nor a finish keeps the dispatcher open, and the utterances plus the accumulator grow by exactly the chunk's text. |
| Prompting.StreamPreservesText | prompting.ts:152-190 | Before the finish, the emitted utterances followed by the accumulator spell out exactly the content received. |
| Prompting.FinishedStreamSaysEverything | prompting.ts:152-190 | A response ending in a finish delta says, across its utterances, exactly the content it streamed. |
| Prompting.ResponseStream.OnMessage | prompting.ts:162-189 | The callback applies `OnDelta` to the accumulator and the dispatcher. Error flag and children are untouched. |
| Prompting.ResponseStream.Settle | prompting.ts:192-203 | A thrown chat call marks the dispatcher errored. A function call with a parsed question adds one child answer. Nothing else changes. |
| Prompting.ShowActivityHint | prompting.ts:224-231 | The hint is shown only when there is an activity and the check's reply says yes. `IsYes` states when a reply says yes. |
| Prompting.IsYes | prompting.ts:276 | The test holds iff "yes" occurs in the lower-cased reply. |
| Prompting.AgentInput | prompting.ts:236-240 | The agent input is exactly the hint naming the activity followed by the question when the hint is shown, and only the question otherwise. |
| Prompting.AnswerQuestion | prompting.ts:233-256 | A successful agent call yields one fresh, finalized dispatcher holding exactly the output. A failed call yields none. |
| Prompting.FinalSystem | prompting.ts:55-88 | The system prompt text. `FinalSystemFrame` and `FinalSystemHint` state its layout. |
| Prompting.FinalSystemFrame | prompting.ts:55-88 | The system prompt starts with "You are" and the bot's name, and ends with the conversation text followed by the closing instructions. |
| Prompting.FinalSystemHint | prompting.ts:75-81 | Right before the conversation text stands the `[Hint: …]` note with the latent synopsis when that synopsis is non-empty, and "so far:" when it is not. |
| Tts.WireMessage | tts.ts:78 | The message is the decimal nonce, the first space, then the text unchanged. |
| Tts.TrimStart | tts.ts:34 | The white space that `parseInt` skips: every character removed is JavaScript white space, and what is left does not start with any. |
| Tts.ParseInt | tts.ts:34 | `parseInt` without a radix. `ParseIntDecimal` and `AudioFileNameRoundTrip` state what it reads from the file names the server writes. |
| Tts.Stem | tts.ts:34 | The stem is the longest dot-free prefix of the file name. |
| Tts.ParseIntDecimal | tts.ts:34 | `parseInt` reads a canonical decimal back as its number. |
| Tts.AudioFileNameRoundTrip | tts.ts:32-36 | The watcher turns `<n>.wav` back into nonce n. |
| Tts.TtsClient.constructor | tts.ts:69 | The counter starts at 0 with no waiting connections. |
| Tts.TtsClient.PlayText | tts.ts:72-85 | The message carries the current nonce. The connection is registered under that nonce, which no entry used before. The counter moves on by one. |
| Tts.TtsClient.OnWatchEvent | tts.ts:32-64 | Events that are not a rename with a file name are ignored. A nonce with no waiting connection is a miss that changes nothing. A hit removes exactly that entry and plays the file of the event, `tts_output/<filename>`, on its connection, never a second time. |
| Tts.TtsClient.Take | tts.ts:36-62 | A parsed nonce with a waiting connection gets the given file played on it, and its entry is removed. Any other parse result, NaN included, is a miss that changes nothing. |
| Tts.PlayedOnce | tts.ts:32-84 | The first watcher event for a sent nonce plays `tts_output/<n>.wav` on its connection, and a second event for the same file is a miss. |
| BotServer.Decode | bot.py:58-59 | The nonce holds no space. With a space, the message is nonce, a space, then the text. Without one, the whole message is the nonce and the text is empty. |
| BotServer.DecodeSplits | bot.py:58-59 | Every space-free nonce and text joined with a space decode back to themselves. |
| BotServer.WireRoundTrip | bot.py:58-59 | What playText sends for nonce n decodes to the decimal of n and the exact text. |
| BotServer.OutputPath | bot.py:61 | The path of the audio file for a nonce. `OutputPathNamesNonce` states that it is the file the watcher plays. |
| BotServer.OutputPathNamesNonce | bot.py:61 | The file written is the file the watcher plays for nonce n, and its name parses back to n. |
| TtsServer.StripStart | tts.py:41 | Stripping removes only white space from the front, and what is left does not start with white space. |
| TtsServer.StripEnd | tts.py:41 | Stripping removes only white space from the back, and what is left does not end with white space. |
| TtsServer.PyStr | tts.py:42 | `str` writes a canonical decimal that denotes n, with a minus sign for negative numbers. |
| TtsServer.PyInt | tts.py:41 | `int` in base 10. `PyIntDigits`, `PyIntPadded` and `PyIntPyStr` state what it reads. |
| TtsServer.PyIntDigits | tts.py:41 | `int` of a run of ASCII digits, leading zeros allowed, is its decimal value. |
| TtsServer.PyIntDecimal | tts.py:41 | `int(str(n)) == n` for every nonce the bot sends. |
| TtsServer.PyIntPadded | tts.py:41 | `int` skips white space on both sides: `int(w1 + str(n) + w2) == n` for white-space `w1` and `w2`. |
| TtsServer.PyIntPyStr | tts.py:41-42 | `int(str(n)) == n` for every integer, negative ones included. |
| TtsServer.Decode | tts.py:41-42 | The message is rejected iff its first token is not an integer. Otherwise the nonce is `int` of that token and the text is a suffix of the message. |
| TtsServer.LeadingZerosParse | tts.py:41 | `int("007")` is 7: the token's length and the length of its `str` differ. |
| TtsServer.WireRoundTrip | tts.py:41-42 | What playText sends for nonce n decodes to n and the exact text. |
| TtsServer.OutputPath | tts.py:44 | The path the server writes for a nonce. `TtsServer.OutputPathNamesNonce` states that it is the file the watcher plays. |
| TtsServer.OutputPathNamesNonce | tts.py:44 | The file written for that message is the file the watcher plays for n, and its name parses back to n. |
| TtsServer.CanonicalTokenKeepsText | tts.py:41-42 | A canonical token followed by a space always yields exactly the rest of the message. |
| TtsServer.LeadingZeroShiftsText | tts.py:41-42 | A token with leading zeros parses, but the slice then cuts into the text: "007 hi" gives 7 and "7 hi". |
| Bot.Duplicate | bot.ts:54-62 | Whether a text counts as a recent repeat. `RecordIsLocal`, `EveryTwentySecondsAlternates` and `IsRecentDuplicate` state its behaviour over several calls. |
| Bot.Record | bot.ts:54-62 | The cache after one call: a miss records the time. `RecordIsLocal` states that no other entry changes. |
| Bot.RecordIsLocal | bot.ts:54-62 | A call records at most its own text, records the time on a miss, and leaves every other entry as it was. |
| Bot.EveryTwentySecondsAlternates | bot.ts:54-62 | A text repeated every 20 seconds is alternately let through and suppressed, because a suppressed call does not refresh its time. |
| Bot.DuplicateFilter.constructor | bot.ts:52 | The cache starts empty. |
| Bot.DuplicateFilter.IsRecentDuplicate | bot.ts:54-62 | The answer is true iff the text was recorded at a non-zero time less than 30 s ago. Only a miss records the time. |
| Bot.FixNames | bot.ts:73-78 | The alias fix for one user name. `FixNamesSpec` states its behaviour and that it is idempotent. |
| Bot.FixNamesSpec | bot.ts:73-78 | The four aliases become the bot's name, every other name passes through, and the fix is idempotent. |
| Bot.Lookup | bot.ts:88-94 | `getActiveStream` on the registry's map: missing for an unknown guild or user. `InsertThenLookup`, `RemoveThenLookup` and `InsertRemoveRestores` state how set and destroy change it. |
| Bot.StreamRegistry.GetActiveStream | bot.ts:88-94 | `Lookup` on the registry's current map. `SetActiveStream` ensures it then finds the new stream. |
| Bot.InsertThenLookup | bot.ts:88-110 | After a set, the pair finds its stream and every other pair finds what it found before. |
| Bot.RemoveThenLookup | bot.ts:112-122 | After a destroy, the pair is gone and the guild's map stays. Every other pair is unchanged. An unknown guild leaves everything as it was. |
| Bot.InsertRemoveRestores | bot.ts:96-122 | A set followed by a destroy of a previously absent pair restores every lookup. |
| Bot.StreamRegistry.constructor | bot.ts:80-86 | The registry starts empty. |
| Bot.StreamRegistry.SetActiveStream | bot.ts:96-110 | The guild's map is created on first use and the user's stream is set. |
| Bot.StreamRegistry.DestroyActiveStream | bot.ts:112-122 | The stream that was registered is returned for destruction, and the pair is removed. |
| Bot.Routing | bot.ts:252-291 | Where a transcript goes: dropped, repeated, hot or latent. `HotIgnoresCase` and `RoutedTranscriptBlocksRepeat` state the choice. |
| Bot.RoutedTranscriptBlocksRepeat | bot.ts:252-291 | A transcript that reached either log is a duplicate for the next 30 seconds. |
| Bot.HotIgnoresCase | bot.ts:265-266 | A fresh transcript goes to the hot log iff it contains the bot's name in any case. |
| Bot.OnTranscript | bot.ts:252-293 | Empty transcripts are dropped and repeats are filtered. Then exactly one log receives the entry. The hot route returns the four-entry context window given to finalPrompt. |
| Whisper.SuppressQuietInferences | whisper_wrapper.cpp:91-96 | The three transcripts produced for silence. `ReportIsSpeech` states that they never reach the callback. |
| Whisper.SlideWindow | whisper_wrapper.cpp:183-184 | Append the chunk, then erase as many samples from the front; the length is kept. `SlideWindowKeepsNewest` and `SlideWindowCompose` state what the window holds. |
| Whisper.SlideWindowKeepsNewest | whisper_wrapper.cpp:182-184 | The window keeps its length and holds the newest samples. |
| Whisper.SlideWindowCompose | whisper_wrapper.cpp:175-184 | Sliding by two chunks in turn equals sliding by both together. |
| Whisper.SlideAllIsSlideOfConcat | whisper_wrapper.cpp:175-184 | Any sequence of workloads leaves the window holding the newest samples of all of them. |
| Whisper.CopyLength | whisper_wrapper.cpp:101 | The copy covers the unprocessed samples plus the overlap, capped at 30 seconds. |
| Whisper.InferenceBuffer | whisper_wrapper.cpp:99-105 | The buffer is 30 seconds long: the newest samples at the start, then silence. |
| Whisper.CopyIntoInferenceBuffer | whisper_wrapper.cpp:99-105 | The array copy loop produces exactly `InferenceBuffer`. |
| Whisper.Fresh | whisper_wrapper.cpp:252 | A new unit is consistent: 30 seconds of silence, nothing pending, the callback not yet acquired. |
| Whisper.AppliedKeepsConsistent | whisper_wrapper.cpp:180-184 | Applying workloads keeps the window 30 seconds long and leaves the callback state alone. |
| Whisper.RunKeepsConsistent | whisper_wrapper.cpp:205-213 | A run leaves the callback acquired exactly once however many runs a unit has, nothing pending, and the window unchanged. |
| Whisper.ReportIsSpeech | whisper_wrapper.cpp:91-154 | The callback gets a transcript iff speech is detected and the transcript is not a quiet inference, and then it gets the stored transcript. |
| Whisper.WindowIsNewestAudio | whisper_wrapper.cpp:180-184 | A unit's window is the newest 30 seconds of silence followed by all its audio. Its counter is the number of samples received. |
| Whisper.AsrUnit.constructor | whisper_wrapper.cpp:252 | A new unit is in the `Fresh` state under its id. |
| Whisper.AsrUnit.Receive | whisper_wrapper.cpp:180-184 | One workload moves the unit to `Step` of its old state. |
| Whisper.AsrUnit.Acquire | whisper_wrapper.cpp:206-212 | The callback is acquired only when the unit still needs it. |
| Whisper.Step | whisper_wrapper.cpp:180-184 | One workload on a unit: the window slides by the chunk and the counter grows by its length. `SlideWindowKeepsNewest` and `WindowIsNewestAudio` state what the window holds. |
| Whisper.Infer | whisper_wrapper.cpp:98-158 | A unit's state after an inference. `RunKeepsConsistent` states what it keeps. |
| Whisper.Report | whisper_wrapper.cpp:91-154 | What an inference hands to the callback. `ReportIsSpeech` states that it is detected speech that is not one of the quiet transcripts. |
| Whisper.RunWhisperOnUnit | whisper_wrapper.cpp:98-158 | The counter is reset and speech replaces the stored text. What reaches the callback is `Report` of the old state. |
| Whisper.DedupeById | whisper_wrapper.cpp:191-201 | The unit list the dedupe loop builds. `DedupeIsFirstAppearances`, `DedupeIds`, `DedupeDistinct` and `DedupeMembers` state what it holds. |
| Whisper.DedupeIds | whisper_wrapper.cpp:191-201 | The unit list names exactly the ids that occur in the workloads. |
| Whisper.DedupeDistinct | whisper_wrapper.cpp:191-201 | No id appears twice in the unit list. |
| Whisper.DedupeIsFirstAppearances | whisper_wrapper.cpp:191-201 | The dedupe keeps each id's first appearance, in queue order. |
| Whisper.DedupeMembers | whisper_wrapper.cpp:191-201 | Every listed unit comes from a workload. |
| Whisper.FindId | whisper_wrapper.cpp:191-197 | The inner search finds a unit with the id iff one is listed. |
| Whisper.AddIfNew | whisper_wrapper.cpp:191-201 | A unit joins the list iff no listed unit has its id. |
| Whisper.ApplyWorkloads | whisper_wrapper.cpp:175-202 | Every unit ends in the state its old state reaches after its own chunks, in queue order. The list is the first appearance of each id. |
| Whisper.RunUnits | whisper_wrapper.cpp:205-214 | Each listed unit is acquired if need be and then run once, and its report is recorded. |
| Whisper.Worker.constructor | whisper_wrapper.cpp:87 | The work queue starts empty. |
| Whisper.Worker.Process | whisper_wrapper.cpp:254-263 | The workload joins the back of the queue. |
| Whisper.Worker.Drain | whisper_wrapper.cpp:164-170 | Every queued workload is taken, front first, and the queue is left empty. |
| Whisper.Worker.RunOnce | whisper_wrapper.cpp:161-215 | One worker pass applies every workload. Each id's first unit runs once on its updated window. Units sharing an id with an earlier one only receive their samples. Every unit stays consistent. |

## Left out

- Sockets, the Unix socket server loop, `fs.watch` registration, directory cleanup, the Discord gateway, Google speech and the audio player are I/O. Their events are parameters: a decoded message, a watch event, a transcript, a chat delta.
- Floating-point signal processing is not modelled. The high-pass filter, the `vad_simple` energy test and `whisper_full` are function parameters of the recogniser. Sample values are opaque.
- The int16 to float conversion in `process` is not modelled (`Whisper.Worker.Process` takes the converted samples).
- Whisper.RunWhisperOnUnit: a failing `whisper_full` aborts the process with `Napi::Error::Fatal`; `transcribe` (and so `Whisper.Infer`) always succeeds here.
- Whisper.RunUnits: an `Acquire` of the callback that is not `napi_ok` aborts the process; acquiring (`Whisper.AsrUnit.Acquire`) always succeeds here.
- Counters are unbounded integers: the JavaScript `nonce++` of tts.ts stops being exact past 2^53, and CPython 3.11 and later refuse `int`/`str` of numbers over 4300 digits; neither limit is modelled.
- Threads, the queue mutex and the `running` loop are not modelled. `Whisper.Worker.RunOnce` is one pass of the worker loop, run without interleaving.
- Whisper.CopyLength: C++ `int` overflow of `unprocessedSamples` is not modelled, because counters are unbounded here.
- TTSDispatcher is not part of this model. `Prompting.Dispatcher` keeps only the fields this code uses, and the speaking of utterances is left out.
- bot.ts imports `TTSDispatcher`, `connection` and `setConnection` from ./tts, but the tts.ts modelled here exports only `initTTS` and `playText`. bot.ts also calls `finalPrompt` with five of its seven parameters. The model follows each file on its own terms: `Bot.OnTranscript` stops at the context window handed to `finalPrompt`, and `Prompting.FinalSystem` takes the latent synopsis and activity as parameters.
- Calls to the chat model, the summariser, the agent and `JSON.parse` are not modelled. Their outcomes are inputs (`Prompting.ChatResult`, the agent output, the summary content).
- Summaries are asynchronous, so a second summary can start while one is pending. The model completes each one with an explicit `Conversation.CondensedConversation.CompleteSummary` call. The five-minute interval and `pickActivity` are not modelled.
- The uninitialised `lastUpdated` of a new log is modelled as the epoch. This is the same thing for entry times that are not negative. `Date` objects are integer milliseconds, and `Date.now()` and `new Date()` read the same clock parameter.
- Quiescence.QuiescenceMonitor.Expire: the source does not clear its timer handle after firing; the model drops the deadline. A later `clearTimeout` on a fired timer does nothing, so the behaviour is the same.
- Bot.HotIgnoresCase: the bot name is used as a regular expression in the source. It is modelled as a literal text, with ASCII-only case folding.
- Tts.ParseInt follows `parseInt` for decimal and `0x` prefixes over the JavaScript white space characters. Python `int` (`TtsServer.PyInt`) is modelled for ASCII digits and white space only.
- `recv(16384)` truncation and UTF-8 decoding of the message are not modelled. A message is a string.
- A `ValueError` from `int` in tts.py ends the server. This is modelled as `None`, and the server loop is not modelled.
- Voice receiving, Opus decoding, the creation of recognition streams, their "error" and "end" handlers, and the slash commands of bot.ts are I/O. The model covers the stream map those handlers use and the "data" handler.
