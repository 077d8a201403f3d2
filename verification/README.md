# FFmpegKit in Dafny

A model of the parts of FFmpegKit whose correctness is not visible in any single function, with
proofs of what they promise. Every file is one module; a class or a loop stands where the
original updates fields or loops, and is proved equal to a function on values, about which the
theorems are stated.

| module | part of the system |
|---|---|
| `FFplayHandoff` | the rule that only one FFplay session is active at a time |
| `TimedJoin` | ownership of the block shared by the fallback `pthread_timedjoin_np` and its waiter thread |
| `CancelProtocol` | cancelling FFmpeg sessions while their native contexts are attached, run, detached and freed, and the session map they share |
| `MessageTransit` | the asynchronous callback queue and its counters of messages in transit |
| `SessionHistory` | the list and the map of sessions, and the eviction of expired ones |
| `Arguments` | `parseArguments` and `argumentsToString` |
| `Utf8Log` | `sanitizeUtf8` and the `Log` constructor |
| `WasmExports` | reading the export section of a WebAssembly module |
| `UrlRedaction` | masking the secrets of URLs in log lines, in place |
| `CommandLine` | `split_commandline`: tokens and option groups |
| `StreamSpecParse`, `StreamMatch` | parsing and matching stream specifiers |
| `AudioTimeline` | audio timestamps across changes of the sample rate |
| `SubtitleDuration` | cutting subtitles at the start of the next one |
| `Discontinuity` | correcting timestamp discontinuities of a demuxer |
| `Multiview` | mapping requested views to decoder outputs |
| `Rescaling`, `Common` | rational rescaling; shared datatypes |

How the model is built:

- A concurrent protocol is a state machine: one event is one atomic action of one thread, a run is
  any list of events whose turn has come, and the theorems hold for all runs. A timeout, a spurious
  wakeup or an exception is an event that may happen whenever the original allows it.
- C text is a byte array with a terminating NUL where the original walks a pointer, and a `string`
  where it only compares and slices. Character classes are those of the C locale.
- Conversions that lose information are written out: the 32-bit counters of messages, the index of
  a stream specifier, the gap between subtitles, the unsigned comparison of display times.
- Timestamps are integers without bounds; rescaling is exact rational arithmetic, rounded to
  nearest with ties away from zero.

What came out differently from what one might expect:

- The FFplay handoff is safe for sessions that are executed once, except for three kinds of steps: a
  wait that times out before the predecessor has left; `clearSessions()` while a session plays and
  another is still to be created, or while a created session has not exchanged and two are still to
  be created; and an exception after the first compare-and-swap of `ffplayExecute`, which may
  reset the claim of the next session because a failing `compare_exchange_strong` has changed
  `sessionId`. `Harmful` says exactly when such a step is harmful: without one the rule holds, and each
  one can be continued to two playing sessions. `FFmpegKit/README.md`, line 15, states the single
  session without exceptions.
- `executeFFplay` looks its own ID up in the session history and uses the result without a test for
  null. The lookup succeeds exactly if the history has not been cleared since the session was created,
  so a clear can crash the process exactly if some session is between its creation and
  `executeFFplay`. The model ends a run there.
- `requestCancel` also marks a slot that all sessions with the same ID modulo 1000 share, and every
  context reads the slot of its session. `FFmpegKit::cancel` stores any other ID there too, whether a
  session has it or not. So cancelling 1001 stops session 1. A session can be stopped by a cancel that
  was not meant for it exactly if two IDs that are stored share a slot.
- `argumentsToString` does not quote for `\v` and `\f`, and `parseArguments` splits at them; a
  backslash at the end of an unquoted argument swallows the separator. The round trip holds exactly
  outside these cases.
- The native reset of a counter at the start of an execution makes it read zero while messages of
  the same residue are queued, exactly if it did not read zero before.
- A stream index of 2^31 or more is converted to another index, or to none.
- An index that counts to a later entry of a stream that is listed twice selects nothing. The lists
  of programs and groups are filled by libavformat, which is not part of this model;
  `av_program_add_stream_index` and `avformat_stream_group_add_stream`, which
  `FFmpegKit/src/ffmpeg_mux_init.c` calls at lines 2670, 2687 and 2795, refuse a stream that is already
  there, so a repeated entry could only come from somebody who writes the list himself.
- A subtitle whose successor starts before it is dropped. Its end is changed, and the message about
  dropping it logged, only if the end is beyond 2^32 plus the negative gap, as an end of 0xFFFFFFFF
  is: the comparison converts the gap to unsigned.
- The bound of a tenth of a second on steps back holds exactly if the ticks of the time base are not
  coarser than about 0.2 seconds, which all usual time bases meet; `SafeTicks` is the exact condition.

## Model

| member | source | states |
|---|---|---|
| `FFplayHandoff.Exclusion` | FFmpegKit/src/FFmpegKitConfig.cpp:2202-2268 | for any number of sessions, created at any time and each executed once, and every interleaving of their threads: in a run without a harmful step at most one session is inside `executeFFplay`, and it plays only after every session that exchanged before it has left or been lost by the history. Harmful are exactly these: a wait that times out while the predecessor has not left, if somebody follows the waiter or is still to exchange; a handler that resets the claim of another session that can still play, if somebody is still to exchange; a clear while somebody plays and somebody is still to be created, or while a created session has not exchanged and two are still to be created |
| `FFplayHandoff.HarmfulStepBreaks` | FFmpegKit/src/FFmpegKitConfig.cpp:2213-2257 | the converse: whenever a harmless run has led to a state in which a harmful step is enabled, that step has a continuation after which two sessions, both found by their own lookup, are inside `executeFFplay` |
| `FFplayHandoff.TimeoutBreaks` | FFmpegKit/src/FFmpegKitConfig.cpp:2220-2229 | so for every state of the invariant and a timeout: the follower of the waiter, or a fresh session that finds the claim reset, plays beside the first session that has not left |
| `FFplayHandoff.HandlerBreaks` | FFmpegKit/src/FFmpegKitConfig.cpp:2252-2258 | so for a handler whose `sessionId` a failing `compare_exchange_strong` has overwritten: a fresh session plays beside the owner of the claim |
| `FFplayHandoff.ClearBreaks` | FFmpegKit/src/FFmpegKitConfig.cpp:2826-2834 | so for a clear, and without any later clear, timeout or handler: a session that is created afterwards does not find the one that plays; or the first of two plays, the session that the history has lost displaces it, and the second does not find that one |
| `FFplayHandoff.ClearBreaksIff` | FFmpegKit/src/FFmpegKitConfig.cpp:2826-2834 | after any harmless run a clear can lead to two playing sessions, without any later clear, timeout or handler, exactly if it is harmful |
| `FFplayHandoff.OwnLookupIff` | FFmpegKit/src/FFmpegKitConfig.cpp:1613-1617 | on every run: a session that is about to enter `executeFFplay` finds its own ID, and plays, exactly if the history has not been cleared since the session was created; otherwise the null session is dereferenced |
| `FFplayHandoff.InHistoryIff` | FFmpegKit/src/FFplaySession.cpp:28-60 | on every run, from any state of the chain on, the history holds an unfinished session at the end exactly if it held it at the start or the session was created meanwhile, and it has not been cleared since: eviction only takes terminal ones |
| `FFplayHandoff.ClearCrashesIff` | FFmpegKit/src/FFmpegKitConfig.cpp:2826-2834 | on every run: some continuation of a clear, without another clear, ends in that null dereference exactly if some session is between its creation and `executeFFplay` when the history is cleared |
| `FFplayHandoff.NoCrashWithoutClear` | FFmpegKit/src/FFmpegKitConfig.cpp:1613-1617 | a run without a clear never meets the null session |
| `FFplayHandoff.NoDeadlock` | FFmpegKit/src/FFmpegKitConfig.cpp:2212-2243 | in a run without a harmful step the chain of waits cannot deadlock: while a session that has exchanged is unfinished and the process has not crashed, one such session has an enabled step that is neither a timeout nor a clear; that step crashes exactly if it is the entry of a session that was created before the last clear |
| `FFplayHandoff.StepKeepsInv` | FFmpegKit/src/FFmpegKitConfig.cpp:2202-2268 | the inductive invariant (whoever plays or has nobody to wait for has only predecessors that are out; an active ID that is zero or not in the history means that everybody is out or nobody is to come; where a lost session is still to exchange, only one can still play) is kept by every step that is not harmful |
| `FFplayHandoff.ExchangeKeepsInv` | FFmpegKit/src/FFmpegKitConfig.cpp:2213 | publishing the own ID and taking the predecessor keeps the invariant |
| `FFplayHandoff.LookupKeepsInv` | FFmpegKit/src/FFmpegKitConfig.cpp:2214-2219 | a session that finds no predecessor to wait for may go on: everybody before it is out |
| `FFplayHandoff.EntryKeepsInv` | FFmpegKit/src/FFmpegKitConfig.cpp:1613-1617 | the end of the wait and the lookup of the own ID keep the invariant |
| `FFplayHandoff.ClearKeepsInv` | FFmpegKit/src/FFmpegKitConfig.cpp:2826-2834 | a clear that is not harmful keeps the invariant |
| `FFplayHandoff.TimeoutKeepsInv` | FFmpegKit/src/FFmpegKitConfig.cpp:2220-2229 | a timeout keeps the invariant if the predecessor has left, or if nobody follows and nobody is to come |
| `FFplayHandoff.RunKeepsInv` | FFmpegKit/src/FFmpegKitConfig.cpp:2202-2268 | the invariant holds after every run without a harmful step |
| `FFplayHandoff.InvImpliesExclusion` | FFmpegKit/src/FFmpegKitConfig.cpp:2232-2237 | the invariant gives mutual exclusion and playing in exchange order |
| `FFplayHandoff.TimeoutBreaksExclusion` | FFmpegKit/src/FFmpegKitConfig.cpp:2220-2229 | one such run from the start: a waiter gives up and resets the active ID while its predecessor plays, and a third session plays beside it |
| `FFplayHandoff.ClearBreaksExclusion` | FFmpegKit/src/FFmpegKitConfig.cpp:2826-2834 | one such run from the start: a session plays, the history is cleared, and a session that is created after that does not wait |
| `FFplayHandoff.ClearCrashesLaterEntry` | FFmpegKit/src/FFmpegKitConfig.cpp:1613-1617 | one run from the start in which a single session is created, the history cleared, and the entry dereferences the null session |
| `FFplayHandoff.LateThrowBreaksExclusion` | FFmpegKit/src/FFmpegKitConfig.cpp:2240-2257 | one such run from the start: an exception after `complete` resets the claim of the successor, which plays |
| `TimedJoin.NoUseAfterFree` | FFmpegKit/src/FFmpegKitConfig.cpp:91-186 | in every interleaving of caller, waiter and target thread, with timeouts, spurious wakeups and wait errors, the shared block is never touched after it was freed and never freed twice |
| `TimedJoin.FreedExactlyOnce` | FFmpegKit/src/FFmpegKitConfig.cpp:91-186 | once caller and waiter have both ended, the block has been freed exactly once: no leak on the timeout path, the success path or the setup error paths |
| `TimedJoin.SuccessReturnsTheJoinResult` | FFmpegKit/src/FFmpegKitConfig.cpp:165-177 | the success path returns the result of the waiter's `pthread_join`, and only after the waiter has ended |
| `TimedJoin.NoDeadlock` | FFmpegKit/src/FFmpegKitConfig.cpp:143-177 | neither side can be stuck: until both are done one of them can move, or the target thread is still running and the waiter is joining it |
| `TimedJoin.RunKeepsInv` | FFmpegKit/src/FFmpegKitConfig.cpp:91-186 | the ownership invariant (who holds the mutex, who has been handed the block, how often it was freed) holds in every reachable state |
| `TimedJoin.LateWriteIff` | FFmpegKit/src/FFmpegKitConfig.cpp:99-103 | after `ETIMEDOUT` the waiter can still store through the pointer that the caller has passed exactly if there is one, the target is joined without error and the waiter has not published |
| `TimedJoin.TimeoutReturnsBeforeTheWrite` | FFmpegKit/src/FFmpegKitConfig.cpp:158-177 | at the return with `ETIMEDOUT` nothing has been stored; after the success path nothing can be stored any more, and everything has been |
| `CancelProtocol.SessionMap.RegisterSessionId` | FFmpegKit/src/FFmpegKitConfig.cpp:1055-1058 | stores 1 in the slot of the residue, and nowhere else |
| `CancelProtocol.SessionMap.RemoveSession` | FFmpegKit/src/FFmpegKitConfig.cpp:1065-1068 | stores 0 in that slot |
| `CancelProtocol.SessionMap.CancelSession` | FFmpegKit/src/FFmpegKitConfig.cpp:1079-1082 | stores 2 in that slot |
| `CancelProtocol.SessionMap.CancelRequested` | FFmpegKit/src/FFmpegKitConfig.cpp:1091-1098 | reads whether the slot holds 2 |
| `CancelProtocol.FFmpegSession.SetContext` | FFmpegKit/src/FFmpegSession.cpp:196-202 | stores the context and cancels it at once if a cancel was requested before |
| `CancelProtocol.FFmpegSession.DetachContext` | FFmpegKit/src/FFmpegSession.cpp:204-209 | takes the context out and leaves a null pointer |
| `CancelProtocol.FFmpegSession.RequestCancel` | FFmpegKit/src/FFmpegSession.cpp:211-222 | does nothing on a terminal session; otherwise sets the flag, marks the slot of the session and cancels the attached context |
| `CancelProtocol.FFmpegSession.CancelObserved` | FFmpegKit/src/ffmpeg_lib.c:146-155 | a context counts as cancelled if it was given to `ffmpeg_cancel` or the slot of its session holds 2 |
| `CancelProtocol.NeverUsesFreedContext` | FFmpegKit/src/FFmpegKitConfig.cpp:1476-1511 | in every interleaving of any number of sessions and of `requestCancel` callers with attach, run, detach and free, `ffmpeg_cancel`, `ffmpeg_run` and the release only ever get live, non-null contexts |
| `CancelProtocol.CancelIsNeverLost` | FFmpegKit/src/FFmpegSession.cpp:196-222 | once a `requestCancel` that passed its state check has returned, no context of the session runs uncancelled, now or after a later attach, whatever is stored in the shared slot |
| `CancelProtocol.ObservedIff` | FFmpegKit/src/ffmpeg_lib.c:146-155 | in every reachable state a context observes a cancel exactly if it was given to `ffmpeg_cancel`, or the last store to the slot of its session was a cancel, of some ID of that residue |
| `CancelProtocol.UnaskedObservesIff` | FFmpegKit/src/FFmpegKitConfig.cpp:1079-1098 | a context of a session that nobody asked to cancel, through `requestCancel` or by handing its ID to `FFmpegKit::cancel`, observes a cancel exactly if the last store to its slot was the cancel of another ID of the same residue |
| `CancelProtocol.SpuriousIffCollision` | FFmpegKit/src/FFmpegKitConfig.cpp:1055-1098 | a session can be stopped by a cancel that was not meant for it, in some run, exactly if the ID of an FFmpeg session and another ID that is stored through the map, of a session or of none, have the same residue modulo 1000 |
| `CancelProtocol.Cancelling1001Stops1` | FFmpegKit/src/FFmpegKitConfig.cpp:1111-1117 | the run for session 1 and the ID 1001, whether that is a session or not |
| `CancelProtocol.SlotIsLastWrite` | FFmpegKit/src/FFmpegKitConfig.cpp:1055-1082 | in every reachable state a slot holds what its last writer has stored |
| `CancelProtocol.RunKeepsInv` | FFmpegKit/src/FFmpegSession.cpp:196-222 | the invariant of each session about mutex, attached context, live contexts and pending requests holds in every reachable state |
| `CancelProtocol.AttachRefinesSetContext` | FFmpegKit/src/FFmpegSession.cpp:196-202 | the interleaved attach steps, run without interruption, are the method `SetContext` |
| `CancelProtocol.DetachRefinesDetachContext` | FFmpegKit/src/FFmpegSession.cpp:204-209 | those of detaching are the method `DetachContext` |
| `CancelProtocol.CallRefinesRequestCancel` | FFmpegKit/src/FFmpegSession.cpp:211-222 | those of a caller are the method `RequestCancel`, its store to the slot included |
| `MessageTransit.CallbackQueue.CountMessage` | FFmpegKit/src/FFmpegKitConfig.cpp:967-972 | exactly the counter of the message's residue goes up by one, modulo 2^32; messages without a session have a counter of their own |
| `MessageTransit.CallbackQueue.PushMessage` | FFmpegKit/src/FFmpegKitConfig.cpp:974-976 | the message is appended; no counter changes |
| `MessageTransit.CallbackQueue.RemoveMessage` | FFmpegKit/src/FFmpegKitConfig.cpp:1036-1048 | the oldest message is taken, or none from an empty list; no counter changes |
| `MessageTransit.CallbackQueue.Drain` | FFmpegKit/src/FFmpegKitConfig.cpp:1393-1406 | the guard takes exactly one from the counter of the message's residue |
| `MessageTransit.CallbackQueue.ResetMessagesInTransmit` | FFmpegKit/src/FFmpegKitConfig.cpp:1131-1141 | one counter becomes zero, the others stay |
| `MessageTransit.CallbackQueue.MessagesInTransmit` | FFmpegKit/src/FFmpegKitConfig.cpp:2964-2971 | reads the counter of the session's residue; unattributed messages are never reported |
| `MessageTransit.Conservation` | FFmpegKit/src/FFmpegKitConfig.cpp:967-982 | for any number of producers and consumers, in every reachable state, each counter is the number of messages of its residue that are counted but not drained, minus all values that resets have wiped, modulo 2^32 |
| `MessageTransit.PendingStep` | FFmpegKit/src/FFmpegKitConfig.cpp:1386-1439 | how each step changes the number of pending messages: only counting and draining do, by one |
| `MessageTransit.StepKeepsBalance` | FFmpegKit/src/FFmpegKitConfig.cpp:967-1048 | every single step keeps the balance of every counter |
| `MessageTransit.ZeroMeansDrained` | FFmpegKit/src/FFmpegKitConfig.cpp:2973-2983 | over every run in which each reset of the slot meets a counter that reads zero, a counter reads zero exactly if nothing of its residue is about to be pushed, queued or in progress |
| `MessageTransit.NoResetsMeetZero` | FFmpegKit/src/FFmpegKitConfig.cpp:1128-1130 | runs without resets, those of WebAssembly builds, are such runs |
| `MessageTransit.ResetKeepsMeaningIff` | FFmpegKit/src/FFmpegKitConfig.cpp:1131-1141 | after the native reset a zero counter still means drained exactly if the counter read zero before it |
| `MessageTransit.CallbackQueue.DrainNext` | FFmpegKit/src/FFmpegKitConfig.cpp:1386-1439 | one turn of the drain loop: the message is taken and drained exactly once, whether processing returns or throws |
| `MessageTransit.Perform` | FFmpegKit/src/FFmpegKitConfig.cpp:967-1048 | each event of the interleaved model is one call on the queue object, with the same effect on counters and list |
| `MessageTransit.ResetHidesQueuedMessage` | FFmpegKit/src/FFmpegKitConfig.cpp:1128-1141 | one run in which the reset meets a counter that is not zero: afterwards it reads zero while a message of the session is queued |
| `SessionHistory.Evicted` | FFmpegKit/src/FFmpegKitConfig.cpp:658-690 | an eviction removes a prefix of finished sessions, never more than needed, and stops because the rest fits or the front is unfinished, never because of the iteration cap |
| `SessionHistory.EvictedIsUnique` | FFmpegKit/src/FFmpegKitConfig.cpp:658-690 | these conditions leave only one possible number of evictions |
| `SessionHistory.AllFinishedFits` | FFmpegKit/src/FFmpegKitConfig.cpp:666-684 | if every session has finished the history is cut to its limit, the newest sessions staying |
| `SessionHistory.UnfinishedShields` | FFmpegKit/src/FFmpegKitConfig.cpp:673-682 | an unfinished session anywhere keeps itself and everything behind it |
| `SessionHistory.History.DeleteExpiredSessions` | FFmpegKit/src/FFmpegKitConfig.cpp:658-690 | the list loses exactly the evicted prefix; list and map keep holding the same sessions under distinct IDs |
| `SessionHistory.History.AddSession` | FFmpegKit/src/FFmpegKitConfig.cpp:692-712 | a known ID changes nothing; a new session is appended, the eviction runs, and the new session is always retrievable |
| `SessionHistory.History.SetSessionHistorySize` | FFmpegKit/src/FFmpegKitConfig.cpp:2660-2682 | the limit is clamped, a size that is not positive is ignored, and the eviction runs with the new limit |
| `SessionHistory.History.ClearSessions` | FFmpegKit/src/FFmpegKitConfig.cpp:2826-2834 | list and map become empty together |
| `SessionHistory.History.GetSession` | FFmpegKit/src/FFmpegKitConfig.cpp:2684-2695 | finds a session exactly if the list holds one with that ID |
| `Arguments.ParseArguments` | FFmpegKit/src/FFmpegKitConfig.cpp:3001-3067 | the loop computes the recursive scan of the command line |
| `Arguments.ArgumentsToString` | FFmpegKit/src/FFmpegKitConfig.cpp:3072-3108 | the loops compute the quoted rendering of the list, and "null" for a null pointer |
| `Arguments.RoundTripIff` | FFmpegKit/src/FFmpegKitConfig.cpp:3001-3108 | parsing what was printed gives the same list exactly when no unquoted argument contains `\v` or `\f` and no unquoted argument but the last ends in a backslash |
| `Arguments.LossIsStrict` | FFmpegKit/src/FFmpegKitConfig.cpp:3001-3108 | whenever that condition fails, fewer backslashes, `\v` and `\f` come back than went in |
| `Arguments.ScanQuoted` | FFmpegKit/src/FFmpegKitConfig.cpp:3093-3104 | a quoted argument is read back whole, from behind its opening quote to its closing one |
| `Arguments.StepQuotedChar` | FFmpegKit/src/FFmpegKitConfig.cpp:3096-3102 | inside single quotes every character is literal, and the closed, escaped and reopened quote is one quote |
| `Arguments.ScanPlain` | FFmpegKit/src/FFmpegKitConfig.cpp:3018-3060 | unquoted text that survives is read back verbatim up to the separator |
| `Arguments.ScanBound` | FFmpegKit/src/FFmpegKitConfig.cpp:3001-3108 | scanning a rendering never yields more fragile characters than were printed, and strictly fewer if an argument does not survive |
| `Utf8Log.SanitizeUtf8` | FFmpegKit/src/Log.cpp:23-61 | the pointer loop computes the repaired text and never reads past the terminator |
| `Utf8Log.ReadUnit` | FFmpegKit/src/Log.cpp:35-49 | the length and validity test agrees with the byte table for every text before the terminator |
| `Utf8Log.UnitAcceptsEncoding` | FFmpegKit/src/Log.cpp:35-49 | the encoding of every Unicode scalar value passes the byte table, whatever follows it |
| `Utf8Log.UnitIsEncoding` | FFmpegKit/src/Log.cpp:35-49 | whatever passes the byte table is the encoding of a Unicode scalar value: no overlong form, surrogate or value above U+10FFFF (section 4 of RFC 3629) |
| `Utf8Log.SanitizeRepairs` | FFmpegKit/src/Log.cpp:23-61 | for every input the output encodes the characters of the input, one U+FFFD for each byte that starts none; so it is well-formed |
| `Utf8Log.IdentityIffWellFormed` | FFmpegKit/src/Log.cpp:23-61 | text is left alone exactly if it is well-formed |
| `Utf8Log.SanitizeIsIdempotent` | FFmpegKit/src/Log.cpp:23-61 | sanitizing twice is sanitizing once |
| `Utf8Log.RebuildingALogKeepsItsMessage` | FFmpegKit/src/Log.cpp:64-71 | a `Log` built from another `Log`'s message has the same, well-formed message |
| `Utf8Log.Log.constructor` | FFmpegKit/src/Log.cpp:64-71 | the message is the repaired text, with a newline appended if it is not empty and does not end in one |
| `WasmExports.ReadUleb` | FFmpegKit/scripts/verify-binary-exports.py:59-69 | the loop reads the integer that the recursive definition reads, and where it ends; the bitwise or is a sum because the bits are disjoint |
| `WasmExports.ReadUlebIff` | FFmpegKit/scripts/verify-binary-exports.py:59-69 | an integer is read exactly where its encoding, of any width up to six bytes, stands (section 5.2.2 of the WebAssembly Core Specification) |
| `WasmExports.CanonicalReadIff` | FFmpegKit/scripts/verify-binary-exports.py:59-69 | the shortest encoding of a value is read back, up to its exact end, exactly if the value is below 2^42 |
| `WasmExports.ReadExportNames` | FFmpegKit/scripts/verify-binary-exports.py:72-101 | the loops compute the set of names of the sections that the recursive reader finds, or its error; no index is out of range on arbitrary bytes |
| `WasmExports.ReadNames` | FFmpegKit/scripts/verify-binary-exports.py:85-97 | the loop over the entries of the export section |
| `WasmExports.ReadExportsComplete` | FFmpegKit/scripts/verify-binary-exports.py:85-97 | every encoded list of well-formed entries is read back (section 5.5.10) |
| `WasmExports.ReadExportsSound` | FFmpegKit/scripts/verify-binary-exports.py:85-97 | whatever is read as a list of entries is the encoding of that list |
| `WasmExports.ReadModuleIff` | FFmpegKit/scripts/verify-binary-exports.py:72-101 | the reader accepts exactly the encoded modules, and reads the sections that were encoded (section 5.5.2) |
| `UrlRedaction.RedactUrlSecrets` | FFmpegKit/src/FFmpegKitConfig.cpp:884-937 | the line in the buffer is overwritten by its redaction, byte by byte; nothing from the terminator on changes |
| `UrlRedaction.MaskUrl` | FFmpegKit/src/FFmpegKitConfig.cpp:902-933 | one URL is masked in place, and its end returned |
| `UrlRedaction.RedactsTheUrls` | FFmpegKit/src/FFmpegKitConfig.cpp:891-936 | masking each URL before the next is searched gives the same line as masking the URLs of the untouched line: exactly the bytes of the user information and those behind the first `?` or `#` become `*`, all others stay |
| `UrlRedaction.RedactsTheLine` | FFmpegKit/src/FFmpegKitConfig.cpp:884-937 | the same for a whole line |
| `UrlRedaction.RedactionIsIdempotent` | FFmpegKit/src/FFmpegKitConfig.cpp:884-937 | a second redaction finds the same URLs and changes nothing |
| `UrlRedaction.UrlsSurviveRedaction` | FFmpegKit/src/FFmpegKitConfig.cpp:884-937 | a scan of a redacted line finds the same separators, schemes, URL ends and last `@` as a scan of the original |
| `UrlRedaction.SameUrl` | FFmpegKit/src/FFmpegKitConfig.cpp:907-933 | a masked URL is recognised again with the same parts |
| `UrlRedaction.SecretsAreAhead` | FFmpegKit/src/FFmpegKitConfig.cpp:891-936 | every secret byte lies behind the `://` of its URL |
| `CommandLine.Separator` | FFmpegKit/src/cmdutils.c:704-718 | the first group definition with that separator, or none |
| `CommandLine.OptionParseContext.FinishGroup` | FFmpegKit/src/cmdutils.c:724-755 | the current group goes, with its argument and the dictionaries, to the end of its list, and a new one is begun |
| `CommandLine.OptionParseContext.AddOpt` | FFmpegKit/src/cmdutils.c:758-774 | a per-file option goes to the current group, any other to the global one |
| `CommandLine.OptionParseContext.SplitNext` | FFmpegKit/src/cmdutils.c:838-936 | one turn of the loop consumes one token and applies it, or reports its error and changes nothing |
| `CommandLine.OptionParseContext.SplitCommandline` | FFmpegKit/src/cmdutils.c:823-944 | the loop builds exactly the context that the tokens of the command line describe, or reports the error of the first bad token |
| `CommandLine.TokensPrintBack` | FFmpegKit/src/cmdutils.c:838-936 | on success every element of `argv` is consumed exactly once: the tokens, printed in order, are the command line |
| `CommandLine.TokensReadBackIff` | FFmpegKit/src/cmdutils.c:823-944 | the converse: a list of tokens is cut from the command line it prints exactly if each token says what the tables know of its text; only an exiting option without argument and a switch that is turned off depend on what follows |
| `CommandLine.NextTokenIff` | FFmpegKit/src/cmdutils.c:838-936 | so for one token in front of any text |
| `CommandLine.CurrentAndGlobal` | FFmpegKit/src/cmdutils.c:758-774 | the leftovers are the per-file options behind the last terminator, in order; all other options are in the global group, in order |
| `CommandLine.GroupBetweenTerminators` | FFmpegKit/src/cmdutils.c:724-755 | the group that a terminator ends holds its argument and exactly the per-file options and dictionary entries since the terminator before it, of any kind |
| `CommandLine.EveryGroupHasATerminator` | FFmpegKit/src/cmdutils.c:724-755 | there are as many groups of a kind as terminators of that kind |
| `CommandLine.GroupsOnlyGrow` | FFmpegKit/src/cmdutils.c:724-755 | a finished group is never changed by later tokens |
| `StreamSpecParse.Parse` | FFmpegKit/src/cmdutils.c:1044-1257 | the loop computes the scan into parts, their meaning and the remainder; the assertions of the original are asserted and proved |
| `StreamSpecParse.ParsePart` | FFmpegKit/src/cmdutils.c:1058-1224 | one turn of the loop reads one part and sets its field, stops, or reports the error; each continuing turn shortens the input |
| `StreamSpecParse.Strtol` | FFmpegKit/src/cmdutils.c:1060 | consumes at least one character of text that starts with a digit, never leaves the text, and yields a saturated 64-bit value |
| `StreamSpecParse.ScanWellFormed` | FFmpegKit/src/cmdutils.c:1044-1257 | for every accepted string the parts contain at most one list designator, at most one media type, at most one nonempty disposition, and nothing behind a part that terminates |
| `StreamSpecParse.EveryPartCounts` | FFmpegKit/src/cmdutils.c:1058-1224 | each part of a well-formed list keeps the value it has set |
| `StreamSpecParse.AcceptedIsWellFormed` | FFmpegKit/src/cmdutils.c:1044-1257 | an accepted string means exactly its parts, every other field is blank, and there is a remainder only where it is allowed |
| `StreamSpecParse.AcceptedCanBeMatched` | FFmpegKit/src/cmdutils.c:1268-1271 | an accepted specifier never has both a stream ID and an index, so the assertion of the matcher cannot fire |
| `StreamSpecParse.ParseReadsBack` | FFmpegKit/src/cmdutils.c:1044-1257 | every well-formed list of parts, printed, is parsed to what it means: decimal numbers, both ID marks, flags and metadata included; text behind it that is no part becomes the remainder, or is refused |
| `StreamSpecParse.StrtolReads` | FFmpegKit/src/cmdutils.c:1060 | a printed integer in front of a colon or the end is read back, saturated to 64 bits |
| `StreamSpecParse.IndexSurvivesIff` | FFmpegKit/src/cmdutils.c:1060 | a stream index is kept exactly if it is below 2^31: the conversion to `int` loses all others |
| `StreamMatch.Match` | FFmpegKit/src/cmdutils.c:1259-1369 | the early-exit matcher returns true exactly if the stream is listed, passes every filter, and is the index-th to pass when an index is given |
| `StreamMatch.MatchInList` | FFmpegKit/src/cmdutils.c:1318-1366 | the counting loop computes membership and rank in the filtered list |
| `StreamMatch.PassesFilters` | FFmpegKit/src/cmdutils.c:1322-1360 | the filters of the loop body, in their order, are their conjunction |
| `StreamMatch.UpToItself` | FFmpegKit/src/cmdutils.c:1277-1280 | in the list of all streams nothing behind the stream matters, and without an index nothing before it |
| `StreamMatch.OnlyItself` | FFmpegKit/src/cmdutils.c:1268-1276 | with a stream ID looking at the stream alone is enough |
| `StreamMatch.AtMostOneMatches` | FFmpegKit/src/cmdutils.c:1362-1365 | with an index at most one stream of a file matches |
| `StreamMatch.ExactlyOneMatches` | FFmpegKit/src/cmdutils.c:1362-1365 | in a list of distinct streams exactly the index-th passing stream matches if enough pass, and none otherwise |
| `StreamMatch.SelectsIff` | FFmpegKit/src/cmdutils.c:1318-1366 | for every list: with an index a stream matches exactly if enough entries pass and the entry at the index is the first entry of its stream, and then it is that stream |
| `StreamMatch.RepeatedEntryHidesTheNext` | FFmpegKit/src/cmdutils.c:1318-1366 | one list in which a later entry of a stream is counted to: nothing matches |
| `AudioTimeline.DecoderPriv.AudioSamplerateUpdate` | FFmpegKit/src/ffmpeg_dec.c:214-255 | the fields after a sample rate change |
| `AudioTimeline.DecoderPriv.AudioTsProcess` | FFmpegKit/src/ffmpeg_dec.c:257-292 | the fields and the frame after a frame has been stamped |
| `AudioTimeline.NewBaseGrows` | FFmpegKit/src/ffmpeg_dec.c:226-242 | without the fallback the new denominator fits an `int` and is a multiple of the old one and of the sample rate |
| `AudioTimeline.FallbackMeansTooLarge` | FFmpegKit/src/ffmpeg_dec.c:228-234 | the fallback is only taken when the exact denominator would come within one sample rate of `INT_MAX` |
| `AudioTimeline.BaseGrowsOverRuns` | FFmpegKit/src/ffmpeg_dec.c:214-255 | over any run without the fallback, whatever timestamps the frames carry, the denominator stays an `int` and is a multiple of every earlier one and of every rate seen |
| `AudioTimeline.UpdateIsExact` | FFmpegKit/src/ffmpeg_dec.c:244-251 | so changing the base changes neither the last timestamp nor the predicted one, as times |
| `AudioTimeline.UnstampedFrame` | FFmpegKit/src/ffmpeg_dec.c:257-292 | a frame without a timestamp starts exactly where the last one ended and lasts its number of samples over its rate |
| `AudioTimeline.RunIsExact` | FFmpegKit/src/ffmpeg_dec.c:257-292 | after a run of frames without timestamps the clock stands exactly at its start plus the sum of samples over rate |
| `AudioTimeline.FrameAfterRun` | FFmpegKit/src/ffmpeg_dec.c:257-292 | the next frame has exactly that internal timestamp, and the one it is sent with is the nearest integer in units of its own rate |
| `SubtitleDuration.DecoderPriv.ProcessSubtitle` | FFmpegKit/src/ffmpeg_dec.c:578-619 | what is sent and what is held back, with the unsigned comparison and the truncation to `int` of the original |
| `SubtitleDuration.DecoderPriv.FixSubDurationHeartbeat` | FFmpegKit/src/ffmpeg_dec.c:621-641 | a heartbeat acts as a copy of the held subtitle with a later time, or does nothing |
| `SubtitleDuration.WithoutHeartbeats` | FFmpegKit/src/ffmpeg_dec.c:578-619 | without heartbeats the output is every subtitle but the last that has a positive gap to its successor, its end cut to the gap; the last is held back |
| `SubtitleDuration.NoSubtitleOverlaps` | FFmpegKit/src/ffmpeg_dec.c:578-641 | for events in time order, heartbeats included, a subtitle that is sent ends at most 500 microseconds behind the start of any later one |
| `SubtitleDuration.HeartbeatsKeepOrder` | FFmpegKit/src/ffmpeg_dec.c:578-641 | the inductive form: the held subtitle counts as a later one and is not behind the last event |
| `SubtitleDuration.GapBound` | FFmpegKit/src/ffmpeg_dec.c:586-588 | a positive gap is no longer than the time passed plus half a millisecond, even after truncation to `int` |
| `SubtitleDuration.BackwardsSuccessorDrops` | FFmpegKit/src/ffmpeg_dec.c:586-594 | a subtitle whose successor starts earlier is dropped; its end is left alone exactly if it is at most 2^32 plus the negative gap, since the comparison is unsigned |
| `SubtitleDuration.NoEndIsReduced` | FFmpegKit/src/ffmpeg_dec.c:586-594 | an input with the other outcome: an end of 0xFFFFFFFF and a successor one second earlier |
| `Discontinuity.Demuxer.TsDiscontinuityDetect` | FFmpegKit/src/ffmpeg_demux.c:232-298 | the ledger and the packet after detection |
| `Discontinuity.Demuxer.TsDiscontinuityProcess` | FFmpegKit/src/ffmpeg_demux.c:300-318 | the ledger and the packet after the running offset and the detection |
| `Discontinuity.DemuxStream.DtsUpdate` | FFmpegKit/src/ffmpeg_demux.c:320-378 | the estimate of a stream after a packet |
| `Discontinuity.LedgerBalances` | FFmpegKit/src/ffmpeg_demux.c:300-318 | for discontinuous formats, in the microsecond time base, every outgoing timestamp is the incoming one plus the running offset after the call; a packet without dts changes nothing |
| `Discontinuity.LedgerWithinOneTick` | FFmpegKit/src/ffmpeg_demux.c:250-318 | in any time base the outgoing dts is within one tick of that |
| `Discontinuity.CorrectedOrClose` | FFmpegKit/src/ffmpeg_demux.c:251-265 | in any time base an audio or video dts that is corrected lands within half a tick and a microsecond of the prediction, exactly on it in the microsecond base; one that is not is within the threshold and not a tenth of a second behind the last one |
| `Discontinuity.LandsNear` | FFmpegKit/src/ffmpeg_demux.c:251-265 | the rounding of both conversions: taking away the distance to the prediction lands within half a tick and a microsecond of it |
| `Discontinuity.FrameStepGrows` | FFmpegKit/src/ffmpeg_demux.c:349-356 | rounding to the frame grid, one step on, and back never goes backwards |
| `Discontinuity.PredictionGrows` | FFmpegKit/src/ffmpeg_demux.c:342-372 | a prediction is never before the dts it is made from |
| `Discontinuity.PredictionsAreAhead` | FFmpegKit/src/ffmpeg_demux.c:320-378 | in every run over any number of streams of any time bases every prediction is at or ahead of its dts |
| `Discontinuity.NeverFarBack` | FFmpegKit/src/ffmpeg_demux.c:232-378 | over any run of packets of any streams the dts of an audio or video stream that has a prediction never falls more than `AV_TIME_BASE / 10` below its previous one, if its ticks are safe: with a tick of p / q microseconds in lowest terms, p is less than 200000 q, or at most 200000 q + 1 where q is odd |
| `Discontinuity.UnsafeTicksFallBack` | FFmpegKit/src/ffmpeg_demux.c:232-378 | for every time base whose ticks are not safe there is a run of two packets in which it does fall further, so the condition is exact |
| `Discontinuity.LandsSafely` | FFmpegKit/src/ffmpeg_demux.c:251-265 | with safe ticks, taking away the distance to the prediction lands at most `AV_TIME_BASE / 10` before it |
| `Discontinuity.MpegTicksAreSafe` | FFmpegKit/src/ffmpeg_demux.c:232-378 | the time bases 1/90000 and 1/1000000 are so |
| `Multiview.DecoderPriv.RequestView` | FFmpegKit/src/ffmpeg_dec.c:1035-1096 | a request is found, refused or appended; outputs and requests stay in step and no view is requested twice |
| `Multiview.DecoderPriv.MultiviewSetup` | FFmpegKit/src/ffmpeg_dec.c:1098-1297 | exactly when setup fails and with what error; on success bit i of a view's mask is set exactly if request i resolves to it, and the IDs given to the decoder are those of the wanted views in ascending position |
| `Multiview.DecoderPriv.MapRequests` | FFmpegKit/src/ffmpeg_dec.c:1185-1266 | after the mapping loop `views_wanted` contains a view exactly if its mask is not zero; it fails exactly if errors are fatal and a request resolves to nothing |
| `Multiview.DecoderPriv.MapView` | FFmpegKit/src/ffmpeg_dec.c:1204-1205 | the body for a request of one view |
| `Multiview.DecoderPriv.MapAll` | FFmpegKit/src/ffmpeg_dec.c:1258-1264 | the body for a request of all views |
| `Multiview.DecoderPriv.SetBit` | FFmpegKit/src/ffmpeg_dec.c:1205 | sets one bit of one mask and no other |
| `Multiview.Lookup` | FFmpegKit/src/ffmpeg_dec.c:1188-1258 | finds the one view that a request resolves to, or none |
| `Multiview.FindFirst` | FFmpegKit/src/ffmpeg_dec.c:1212-1217 | the search loop finds the first position of a value |
| `Multiview.Extract` | FFmpegKit/src/ffmpeg_dec.c:1274-1289 | the extraction loop lists the IDs at the set bits, lowest first, and its assertion holds |
| `Multiview.LowestIsFirst` | FFmpegKit/src/ffmpeg_dec.c:1284-1286 | taking and clearing the lowest bit steps through the set bits in order |
| `Multiview.OnesAre` | FFmpegKit/src/ffmpeg_dec.c:1274-1289 | the listed positions are exactly the set bits |
| `Multiview.AscendingSame` | FFmpegKit/src/ffmpeg_dec.c:1274-1289 | ascending lists of the same positions are equal |
| `Multiview.BitOfOr` | FFmpegKit/src/ffmpeg_dec.c:1205 | the meaning of `or-assignment` bit by bit |
| `Multiview.BitOfAllOnes` | FFmpegKit/src/ffmpeg_dec.c:1259 | `(1U << n) - 1` has exactly the bits below n |

## Left out

- Allocation failures and other `ENOMEM` paths: every allocation succeeds.
- Real time: how long a wait lasts, and the busy parts of waiting; a timeout may happen at any moment.
- FFplay sessions that are executed again: each session of `FFplayHandoff` runs `ffplayExecute` once.
- What happens after a null session has been dereferenced: a run of `FFplayHandoff` ends there.
- An FFmpeg session executed by two threads at once, and an exception between attaching and detaching its context.
- The teardown of the callback queue when redirection is switched off, and the wakeups of its consumers.
- Memory ordering weaker than sequential consistency.
- `AbstractSession::addLog`: numbering logs under a mutex is a counter.
- `WasmCallbackDispatcher`, the JSON accessors, `Packages`, `ReturnCode`, `Statistics` and the `*Kit` facades.
- `avutil_log_sanitize`: what it does with bytes from 0x80 on depends on the sign of `char`.
- `opt_default`, `av_opt_eval_flags`, `av_get_token` and the dictionaries they fill: foreign functions are parameters, the four dictionaries one list.
- `av_rescale_delta` between unequal time bases: a parameter; with equal bases it returns its input.
- The system-dependent conversion of `argv` on Windows, and the warning about trailing options.
- Codecs, demuxers, hardware, the send loop of decoded frames, and the initial delay of a stream, which is a parameter.
- Thresholds in floating-point seconds: they are integers of microseconds.
- Overflow of 64-bit timestamps.
- `FFmpegKit::cancel()` without an ID, which raises SIGINT for all sessions.
- The order in which `wasm_exports` returns names: the set is modelled, not its sorting.
- StreamSpecParse.Strtol: models the 64-bit `long` of LP64 targets and the prefixes of ISO C up to C17.
- MessageTransit.ZeroMeansDrained: asks for fewer than 2^32 pending messages, since the counters have 32 bits.
- Multiview.DecoderPriv.MultiviewSetup: fixes `out_mask` to 64 bits and leaves out IDs from 2^31 on, which the decoder gets as negative numbers.
