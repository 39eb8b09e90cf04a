# InferGuard: a verified model

InferGuard watches inference servers, replays recorded workloads against them and turns what it
finds into evidence. This project models the parts of it that carry state, arithmetic or a
protocol, and proves what they keep over all inputs and all interleavings. Verify it with
`dafny verify dfyconfig.toml`.

| part of the repository | files |
|---|---|
| streaming replay harness: SSE splitter, request timing, session runner, two-way aggregation, trace waits | `SseStream`, `RequestTiming`, `ReplayRunner`, `ReplayMetrics`, `TraceReplayBuild` |
| Prometheus text: label scanner, two line readers, whole texts, printer and round trips | `PrometheusLexer`, `PrometheusText`, `PrometheusLabels`, `PrometheusKeys`, `PrometheusLines`, `PrometheusCanonical`, `PrometheusExactness`, `PrometheusAgreement`, `PrometheusComments` |
| crash-safe writer | `AtomicWrite` |
| KV-cache trend | `KvSlope`, `KvClock` |
| LMCache traces: framing, report, replay evidence | `TraceFraming`, `TraceReport`, `LatencySummary`, `TraceReplaySummaries`, `TraceReplayOps` |
| coverage reports | `FamilyStatus`, `SurfaceRollup` |
| anomaly detector, action executor, control loop | `AnomalyDetector`, `ActionExecutor`, `AgentLoop` |
| shared vocabulary | `Basics`, `Sums`, `Counts` |

How the model is set up:

- Floats are reals. The clock, the network, file-system answers, JSON, msgpack and UTF-8 decoding,
  token counting and Python's `float` on a word are arbitrary inputs or arbitrary partial functions.
  Glob matching is an arbitrary predicate on names, and the metric registries are arbitrary.
- Concurrency is a step system: the runner's sessions share a semaphore, any number of writers share
  one target, and the agent's background work interleaves with its cycles at every point where the
  loop waits. Main results hold in every state of every such run.
- The writer's machine has a volatile and a durable side. Until a file is synced its blocks on disk
  are arbitrary, and until the directory is synced any later entry of the target may or may not
  survive a crash. Temporary names of different writers are distinct.
- Loops and objects of the source are methods and classes here, each with a contract that equates its
  result or new state with a specification function; the lemmas are about those functions.
- Line splitting follows Python's `str.splitlines`, white space Python's `str.split` and `str.strip`,
  and the escapes the section "Text format details" of the Prometheus exposition format 0.0.4. The
  SSE part covers the part of section 9.2.6 of the WHATWG HTML standard that the harness implements:
  only LF ends a line, and only `data` fields and comments are interpreted.

Where the code and its own documentation disagree, the model follows the code:

- `src/inferguard/metrics_core.py:9` says that the two parsers agree on numbers.
  `PrometheusAgreement.ReadersAgree` says on which lines they do, for every line. They differ on
  a trailing timestamp, with labels or without (`up 1 1700000000000`, `PrometheusAgreement.TimestampLine`);
  when a value follows the brace without a space (`up{a="b"}1`, `PrometheusAgreement.UnspacedValueIsLost`);
  when a brace is not closed (`up{ 1`, `PrometheusAgreement.UnclosedBraceIsRead`); and in the
  name, when there is a space inside it (`foo bar{a="b"} 1`).
- Label values may hold any character, but only line feeds are escaped while every `splitlines`
  boundary ends a line, so a printed carriage return does not come back
  (`PrometheusExactness.TextRoundTripIsExact` has the exact condition on values and keys).
- The branch that marks a trace as truncated (`src/inferguard/lmcache_trace.py:81`) cannot be reached,
  since the reader stops at one header and `MAX_RECORDS` records (`TraceReport.OverflowIsInvisible`).
- The fallback of the trend (`rlm_agent/rlm_engine/tools.py:29`) is described as the case of identical
  timestamps. It is also taken for distinct ones, and its divisor is always 1.0
  (`KvSlope.FallbackIsPlainChange`).
- A turn cap of 0 still keeps one turn (`TraceReplayBuild.BuildTurns`).
- The inline investigation is guarded by an empty buffer to avoid duplicated work
  (`src/inferguard/agent.py:255`). It overlaps a background one in some run if and only if
  `proactive_cycle_every` is positive, `brain_mode` is local, and API key, base URL and model of the
  language model are all set (`AgentLoop.InvestigationsOverlap`); and advice that no report has
  taken can be overwritten, inline or from cycle to cycle, under just the same condition
  (`AgentLoop.AdviceIsSafeExactly`). The defaults set no API key, so nothing is lost under them.
- A failed scrape is recognised by the text of its exception (`src/inferguard/agent.py:132`,
  `src/inferguard/metrics.py:40`), which may be empty, as that of a bare time-out is. Failed scrapes
  leave the detector alone if and only if their text is not empty
  (`AgentLoop.FailuresLeaveDetectorAlone`); an empty one is taken for a server at rest, after which
  the whole counter counts as new (`AgentLoop.SilentFailureInventsPreemptions`) and an action can be
  judged improved (`ActionExecutor.FailuresAreNotJudgedExactly`).
- A timestamp of 0.0 counts as missing (`rlm_agent/rlm_engine/tools.py:18`), so the trend depends on
  the clock's zero: exactly when is in `KvClock.ClockMattersExactly`, and what becomes of a line in
  `KvClock.ZeroTimestampsBendLines`.
- A frame with an empty payload is delivered if and only if its line feed arrives
  (`SseStream.EmptyPayloadNeedsItsLineFeed`).

## Model

| member | source | states |
|---|---|---|
| `SseStream.IterSseLines` | demo/replay_harness.py:596-634 | however the response is cut into chunks, the incremental splitter yields exactly what one reading of the joined bytes yields: split at LF, classify each line, stop at the first end mark or undecodable line, flush an unterminated tail |
| `SseStream.SplitIsUnique` | demo/replay_harness.py:605-607 | the lines and the tail the splitter works with are the one way to cut a stream at its LFs |
| `SseStream.RunToFirstStop` | demo/replay_harness.py:608-634 | the payloads are those of the lines before the first that stops the reading, and the tail counts only when no line does |
| `SseStream.InterpretAppend` | demo/replay_harness.py:603-634 | a stream that is cut behind an LF is read piece by piece; nothing behind an end mark or a decoding failure matters |
| `SseStream.DataLine` | demo/replay_harness.py:614-634 | a data: line, with or without a space, carries what follows, trimmed: read in front of the rest, ending the reading when it is the end mark, and at the unterminated end counted unless empty or the end mark |
| `SseStream.FramesThen` | demo/replay_harness.py:608-624 | payloads framed with or without a space behind the colon, in any mix, come back in order in front of whatever follows |
| `SseStream.FramesRoundTrip` | demo/replay_harness.py:608-624 | round trip: framed payloads followed by the end mark come back exactly, and nothing behind the mark does |
| `SseStream.UnterminatedFrame` | demo/replay_harness.py:625-634 | a last frame whose LF never arrived is delivered, unless it is empty or the end mark |
| `SseStream.EmptyPayloadNeedsItsLineFeed` | demo/replay_harness.py:614-634 | an empty last payload is yielded when its LF arrived and dropped when it did not |
| `SseStream.EmptyIsSendable` | demo/replay_harness.py:608-624 | the framing theorems cover the empty payload, in either form, for every encoding that writes ASCII as itself |
| `SseStream.OtherLine` | demo/replay_harness.py:608-623 | a blank line, a comment or any other line that does not start with data: changes nothing, in the middle of a stream and at its unterminated end |
| `SseStream.UndecodableLine` | demo/replay_harness.py:612-628 | a line that cannot be decoded makes the iterator raise, with its LF or without |
| `RequestTiming.ConsumeEvents` | demo/replay_harness.py:652-684 | the event loop: first delay, latencies, last reading, text and token count as functions of the clock readings of the events with content |
| `RequestTiming.EventByEvent` | demo/replay_harness.py:662-684 | event by event, which clock reading, text and token count a stream contributes: empty deltas nothing, the last count outside of choices the tokens |
| `RequestTiming.SendCompletionTurn` | demo/replay_harness.py:779-827 | the accounting of a request: refused, broken off and completed responses, with the clamp of the end-to-end latency and the token fallback; ttft plus tpot for every further token is the end-to-end latency, and tpot is 0.0 for a single token or a failure |
| `RequestTiming.LatenciesTelescope` | demo/replay_harness.py:674-682 | time to first token plus the latencies is the last reading less the start, for any clock, also when a first delay of 0.0 is reset |
| `RequestTiming.LatencySplitExact` | demo/replay_harness.py:674-693 | they add up to the end-to-end latency if and only if the last reading is not before the start |
| `RequestTiming.MonotoneTiming` | demo/replay_harness.py:652-693 | under a clock that never runs backwards nothing is negative, the parts add up, and tpot times (output_len - 1) is the sum of the latencies |
| `ReplayRunner.RunReplaySession` | demo/replay_harness.py:960-1009 | one session: turn results in order with their indices, totals over the successful turns, no result exactly when a request raises |
| `ReplayRunner.RunIsSafe` | demo/replay_harness.py:1137-1159 | in every state of every interleaving: running sessions plus free permits is max_concurrency, no session starts twice, its turns are sent in order |
| `ReplayRunner.CompleteRun` | demo/replay_harness.py:1137-1159 | when all sessions have finished, result i is that of session i replayed alone, every turn was sent once and every permit is back |
| `ReplayRunner.NoDeadlock` | demo/replay_harness.py:1137-1159 | some step is possible if and only if there is a permit at all and a session is not settled |
| `ReplayRunner.RunLengthBound` | demo/replay_harness.py:960-1009 | every step uses up work that is bounded by the workload |
| `ReplayRunner.RunsEnd` | demo/replay_harness.py:960-1009 | in numbers: no run is longer than twice the turns plus twice the sessions |
| `ReplayMetrics.SummarizeTurn` | demo/replay_harness.py:878-957 | the per-turn loop over all sessions: completed count and means of the successful turns at one index |
| `ReplayMetrics.CalculateMultiturnMetrics` | demo/replay_harness.py:878-957 | the whole report: one summary per turn index, token and session totals, and means over all successful turns |
| `ReplayMetrics.WallTimeIsUnique` | demo/replay_harness.py:925-932 | the reported wall time is fixed by the session durations: none is longer, and it is 0.0 exactly when none is positive |
| `ReplayMetrics.SingleTurnReport` | demo/replay_harness.py:878-957 | a session of one turn reports that turn, latencies in milliseconds, when it succeeded, and nothing otherwise |
| `ReplayMetrics.SessionTotals` | demo/replay_harness.py:926-936 | one more session adds its tokens to the totals, and counts as completed when it has turns and all succeeded |
| `ReplayMetrics.DoubleCounting` | demo/replay_harness.py:878-957 | for any weight of a turn, summing by turn index and summing by session agree |
| `ReplayMetrics.ReportConservesSums` | demo/replay_harness.py:878-957 | when the report covers the longest session, means times completed counts add up to the sum over all successful turns |
| `ReplayMetrics.ReportConservesTotals` | demo/replay_harness.py:878-957 | in particular they give back total_input_tokens and total_output_tokens |
| `ReplayMetrics.CompletedCountsAreExact` | demo/replay_harness.py:878-957 | for any number of reported turns: the completed counts add up to all successes if and only if no session succeeded at a later index |
| `ReplayMetrics.ReplayReportConserves` | demo/replay_harness.py:1000-1004 | end to end: in every complete interleaving of the runner the report accounts for exactly the tokens of the successful turns |
| `TraceReplayBuild.BuildTurns` | demo/replay_harness.py:422-445 | the loop over the recorded events: turn i with its wait, and a list of min(n, max(1, cap)) turns that is a prefix of the uncapped one |
| `TraceReplayBuild.TurnsOfEvents` | demo/replay_harness.py:422-445 | the list has one turn per event, with its index and payload, and is shorter only when a cap of at least one is reached |
| `TraceReplayBuild.WaitsAreRises` | demo/replay_harness.py:422-445 | the waits of the list built, capped or not, sum to the positive variation of the offsets of its turns in seconds, ignored ones to zero |
| `TraceReplayBuild.ReplaySpan` | demo/replay_harness.py:422-445 | so a replay waits at least the recorded span of its turns, and exactly that if and only if their offsets never decrease |
| `PrometheusLexer.ReadValue` | src/inferguard/metrics_core.py:152-168 | the inner loop of the label scanner reads one quoted value with its escapes |
| `PrometheusLexer.ReadLabel` | src/inferguard/metrics_core.py:134-151 | the middle part skips separators and reads a key |
| `PrometheusLexer.ParseLabelBlock` | src/inferguard/metrics_core.py:127-173 | the scanner of a label block; it terminates on every input and computes the label map that the specification gives |
| `PrometheusKeys.EscapeMeaning` | src/inferguard/metrics_core.py:152-163 | a backslash stands for the character behind it, except that n makes a line feed |
| `PrometheusKeys.UnclosedValue` | src/inferguard/metrics_core.py:152-168 | a value without a closing quote goes to the end of the block |
| `PrometheusKeys.LaterLabelWins` | src/inferguard/metrics_core.py:168-171 | of two labels with one key the later one counts |
| `PrometheusKeys.ScanningGivesUp` | src/inferguard/metrics_core.py:139-151 | scanning stops where no label follows and keeps what it has |
| `PrometheusLabels.LabelsRoundTrip` | src/inferguard/metrics_core.py:127-173 | printing a label map - any values, any order - and scanning it returns exactly the map |
| `PrometheusKeys.KeyConditionIsExact` | src/inferguard/metrics_core.py:134-151 | a printed label comes back if and only if its key is non-empty, has no =, starts with no separator and has no space at either end |
| `PrometheusKeys.ListingIsExact` | src/inferguard/metrics_core.py:127-173 | a printed list of labels with distinct keys comes back as its map if and only if every key is such a key |
| `PrometheusKeys.MapIsPrintableExactly` | src/inferguard/metrics_core.py:127-173 | a label map can be printed in some order that comes back if and only if all its keys are such keys |
| `PrometheusLabels.ParsedKeysAreClean` | src/inferguard/metrics_core.py:134-171 | no scanned key is empty, holds a = or has space at either end |
| `PrometheusText.ParseLabeledPrometheusText` | src/inferguard/metrics_core.py:46-61 | the labelled parser, line by line |
| `PrometheusText.ParsePrometheusText` | src/inferguard/metrics_core.py:27-43 | the label-free parser, whose dictionary keeps the last value of a name |
| `PrometheusComments.NoiseSaysNothing` | src/inferguard/metrics_core.py:36-38 | neither reader makes anything of a comment or a blank line, however indented |
| `PrometheusComments.CommentsAreSkipped` | src/inferguard/metrics_core.py:35-61 | comments and blank lines anywhere in a text change nothing for either parser |
| `PrometheusComments.CommentedTextRoundTrip` | src/inferguard/metrics_core.py:27-61 | a printed text with comments and blank lines between its samples comes back like one without |
| `PrometheusText.LastWinsMeaning` | src/inferguard/metrics_core.py:30-43 | a name is kept exactly when it was seen, with the value seen last |
| `PrometheusText.JoinedTextsParse` | src/inferguard/metrics_core.py:46-61 | the labelled parse of any two texts joined by a line feed is the concatenation of their parses |
| `PrometheusText.LinesAreCut` | src/inferguard/metrics_core.py:35-37 | a text is cut at every line boundary, a carriage return with its line feed counting as one, and the empty end of a text is no line |
| `PrometheusLines.WordsConcat` | src/inferguard/metrics_core.py:76-124 | splitting at white space does not run across a space |
| `PrometheusLines.LabeledLineReads` | src/inferguard/metrics_core.py:91-124 | on name{block}rest the labelled reader finds the name, the block up to the last closing brace and the first word of the rest |
| `PrometheusLines.PlainLineReads` | src/inferguard/metrics_core.py:76-88 | the label-free reader finds the name and the last word of the rest |
| `PrometheusCanonical.PrintedLineReads` | src/inferguard/metrics_core.py:76-124 | a printed sample is read back exactly, by both readers |
| `PrometheusCanonical.PrintedTextRoundTrip` | src/inferguard/metrics_core.py:46-61 | a printed text is read back sample by sample |
| `PrometheusCanonical.PlainParseIsProjection` | src/inferguard/metrics_core.py:27-61 | on printed texts, whatever their labels hold, the label-free parse is the last-value-wins projection of the labelled one |
| `PrometheusExactness.ParsedTextIsOneLine` | src/inferguard/metrics_core.py:46-61 | no parsed label crosses a line boundary, except through an escaped line feed |
| `PrometheusExactness.TextRoundTripIsExact` | src/inferguard/metrics_core.py:46-173 | printed texts come back if and only if every label has a good key and no line boundary other than a line feed in its value |
| `PrometheusExactness.CarriageReturnIsLost` | src/inferguard/metrics_core.py:51-60 | a carriage return in a label value is such a boundary: a concrete sample that does not come back |
| `PrometheusAgreement.ReadersAgree` | src/inferguard/metrics_core.py:64-124 | for every raw line and every number parser: both readers give the same name and value, or both none, if and only if the line is blank, a comment, or meets a condition given by cases - no brace, an unclosed one, a block with nothing, a glued or a spaced rest behind it |
| `PrometheusAgreement.ReadersAgreeByNumbers` | src/inferguard/metrics_core.py:64-124 | the same for parsers that, like `float`, accept no brace: behind a block, either no number at all, or a space there, the same number first and last, and no space in the name |
| `PrometheusAgreement.NamesAgree` | src/inferguard/metrics_core.py:76-100 | the readers find the same name if and only if no space lies inside the trimmed text before the brace |
| `PrometheusAgreement.UnspacedValueIsLost` | src/inferguard/metrics_core.py:64-124 | with one word glued to the block the label-free reader finds nothing and the labelled one the full sample, whatever block and name hold |
| `PrometheusAgreement.TimestampIsTaken` | src/inferguard/metrics_core.py:76-124 | on a line without labels the label-free reader takes a timestamp for the value |
| `PrometheusAgreement.UnclosedBraceIsRead` | src/inferguard/metrics_core.py:76-124 | a line with an unclosed brace is a sample to the label-free reader only |
| `PrometheusAgreement.TextsReadAlike` | src/inferguard/metrics_core.py:27-61 | for any text all of whose lines meet the condition the label-free parse is the last-value-wins projection of the labelled one |
| `AtomicWrite.Machine.AtomicWriteText` | src/inferguard/io.py:26-56 | the function, against any answers of the operating system: it is a run of the step system, ends as those answers say, replaces the target exactly when everything up to the rename succeeds, and leaves its temporary file exactly when its removal is refused |
| `AtomicWrite.Machine.FillAndReplace` | src/inferguard/io.py:37-49 | the body of the try: write, flush, fsync, close, replace, directory fsync |
| `AtomicWrite.Machine.CleanUp` | src/inferguard/io.py:50-56 | the exception path removes the temporary file unless that is refused |
| `AtomicWrite.Machine.FsyncDirectory` | src/inferguard/io.py:239-249 | the directory fsync and its silent return when the directory cannot be opened |
| `AtomicWrite.CrashLeavesWholeText` | src/inferguard/io.py:26-56 | after a crash at any point of any interleaving the target is the complete old text or the complete text of a writer that had renamed |
| `AtomicWrite.LiveTargetIsWhole` | src/inferguard/io.py:26-56 | a running reader sees the full text of the writer that renamed last, or the old file |
| `AtomicWrite.ReturnedTextIsDurable` | src/inferguard/io.py:49-49 | after a return with the directory synced no crash brings back the old file or an earlier rename |
| `AtomicWrite.DurableExactlyWhenSynced` | src/inferguard/io.py:46-49 | for any number of writers: no crash leaves anything older than the rename of a writer if and only if some writer synced the directory after that rename |
| `AtomicWrite.LoneCallIsDurable` | src/inferguard/io.py:239-249 | a lone call that returned is safe from every crash if and only if the directory was synced, or nothing changed |
| `AtomicWrite.TornExactly` | src/inferguard/io.py:37-44 | for any number of writers: a crash can leave anything of a temporary file on disk if and only if its writer has begun and has not synced it (a creation that failed leaves no name to read it by) |
| `AtomicWrite.EndOfCall` | src/inferguard/io.py:50-56 | a call that returned has renamed and left no temporary file; one that raised leaves it exactly when removal was refused, and then has not renamed |
| `AtomicWrite.WritersNeverWait` | src/inferguard/io.py:26-56 | a writer can step if and only if its call has not ended |
| `KvSlope.SpreadIsPairs` | rlm_agent/rlm_engine/tools.py:21-26 | numerator and denominator are sums over all pairs of snapshots of products of differences |
| `KvSlope.DenominatorSign` | rlm_agent/rlm_engine/tools.py:26-27 | the denominator is never negative, and zero if and only if all timestamps coincide |
| `KvSlope.FallbackIsPlainChange` | rlm_agent/rlm_engine/tools.py:27-29 | in the fallback first and last timestamp are less than a millisecond apart, so its divisor is always 1.0 and it returns the plain change |
| `KvSlope.FallbackForDistinctTimes` | rlm_agent/rlm_engine/tools.py:27-29 | the fallback is also taken for timestamps that are not identical |
| `KvSlope.SlopeIgnoresShifts` | rlm_agent/rlm_engine/tools.py:17-32 | shifting the clock or the usage by a constant changes nothing |
| `KvClock.ClockDoesNotMatter` | rlm_agent/rlm_engine/tools.py:17-32 | a window of snapshots gives the same value on a shifted clock, as long as no timestamp behind the first is 0.0 on either |
| `KvClock.ClockMattersExactly` | rlm_agent/rlm_engine/tools.py:17-32 | over recorded times and for any change of the clock: the returned value is the same for every list of usages if and only if the clocks are the same or no timestamp behind the first is 0.0 on either |
| `KvClock.TimesToldApartExactly` | rlm_agent/rlm_engine/tools.py:20-32 | two lists of times give the same value for every list of usages if and only if they differ by a constant or are both in the fallback |
| `KvClock.ClockMatters` | rlm_agent/rlm_engine/tools.py:17-32 | a concrete window: two snapshots a second apart give 0.5 on one clock and 1.0 on another |
| `KvSlope.LineIsRecovered` | rlm_agent/rlm_engine/tools.py:17-32 | points on a line give its slope if and only if the denominator reaches the threshold or the line is flat |
| `KvSlope.SlopeIsLeastSquares` | rlm_agent/rlm_engine/tools.py:8-32 | outside the fallback the slope, with the intercept through the mean point, is the one line of least squared error |
| `KvSlope.ReturnedValue` | rlm_agent/rlm_engine/tools.py:27-32 | the returned value is within 0.00005 of the slope and no multiple of 0.0001 is closer; the fallback is not rounded |
| `KvSlope.TwoSnapshots` | rlm_agent/rlm_engine/tools.py:13-32 | two snapshots: the change per second, rounded, when they are a millisecond or more apart, and the plain change otherwise |
| `KvSlope.MissingFields` | rlm_agent/rlm_engine/tools.py:17-19 | a missing timestamp counts as the position in the window, a missing usage as 0.0 |
| `KvSlope.LineOfSnapshots` | rlm_agent/rlm_engine/tools.py:8-32 | what a window of snapshots on a line returns, in both branches |
| `KvClock.ZeroTimestampsBendLines` | rlm_agent/rlm_engine/tools.py:17-32 | usage on a line over the recorded timestamps, any of which may be 0.0: the slope of the line is found if and only if the line is flat, or the window is out of the fallback and the displacements are uncorrelated with the times used |
| `KvClock.OneZeroTimestamp` | rlm_agent/rlm_engine/tools.py:17-32 | one 0.0 behind the first snapshot: it is found only if flat, or if the position of that snapshot is the mean of the times used |
| `TraceFraming.IterRecords` | src/inferguard/lmcache_trace.py:325-339 | the offset loop of the decoder, with its error cases and its cap |
| `TraceFraming.FirstFrameMeaning` | src/inferguard/lmcache_trace.py:325-339 | byte by byte, which fault of the first frame ends the decoding with which error |
| `TraceFraming.LengthRoundTrip` | src/inferguard/lmcache_trace.py:331-331 | four big-endian bytes give back the length they encode |
| `TraceFraming.PrefixRoundTrip` | src/inferguard/lmcache_trace.py:331-331 | and every prefix is the encoding of the length it is read as |
| `TraceFraming.DecodeOfEncode` | src/inferguard/lmcache_trace.py:325-339 | decoding framed records returns the first cap of them, whatever follows those |
| `TraceFraming.SuccessReencodes` | src/inferguard/lmcache_trace.py:325-339 | success below the cap, on any bytes, loses nothing: framing the records again gives the bytes |
| `TraceFraming.DecoderIsExact` | src/inferguard/lmcache_trace.py:325-339 | any result, records or error, is returned if and only if the bytes are framed records followed by a tail that the cap hides, that is empty, or that has just the fault reported |
| `TraceReport.CountCalls` | src/inferguard/lmcache_trace.py:85-93 | the loop that counts calls and keeps the first and last record |
| `TraceReport.ParseTraceFile` | src/inferguard/lmcache_trace.py:57-96 | the report of a file, with its error cases; it is never marked as truncated |
| `TraceReport.CallsAreCounted` | src/inferguard/lmcache_trace.py:85-90 | each call is counted as often as it occurs, and all counts add up to the record count |
| `TraceReport.ShortNameMeaning` | src/inferguard/lmcache_trace.py:85-90 | a call goes by the part of its qualified name behind the last dot, and is unknown without one |
| `TraceReport.ReportIsConsistent` | src/inferguard/lmcache_trace.py:57-96 | for every file: the calls sum to record_count, record_count is at most the limit, and the truncated and no-records branches are not reached |
| `TraceReport.ReportOfRecords` | src/inferguard/lmcache_trace.py:71-96 | a file of n framed records reports the header and the first min(n - 1, limit) records |
| `TraceReport.OverflowIsInvisible` | src/inferguard/lmcache_trace.py:72-82 | records beyond the limit change nothing in the report |
| `LatencySummary.SummaryMeans` | src/inferguard/lmcache_trace.py:432-439 | a summary counts the values, bounds them by two of their own, and its mean times its count is their sum |
| `LatencySummary.MergeIsConcatenation` | src/inferguard/lmcache_trace.py:449-474 | merging two summaries is summarizing the concatenation |
| `LatencySummary.MeanIsBetween` | src/inferguard/lmcache_trace.py:432-474 | the mean lies between minimum and maximum, after merging as well |
| `LatencySummary.MergeOrder` | src/inferguard/lmcache_trace.py:449-474 | two summaries can be merged into a third in either order |
| `TraceReplaySummaries.MergeCountsInto` | src/inferguard/lmcache_trace.py:442-446 | merging counts adds them pointwise, in whatever order the entries are taken |
| `TraceReplaySummaries.MergeLatencySummaries` | src/inferguard/lmcache_trace.py:449-474 | merging summaries copies new keys and merges known ones |
| `TraceReplaySummaries.ParseReplayJsonl` | src/inferguard/lmcache_trace.py:269-296 | the line loop of the JSONL parser, with the errors it reports by line number |
| `TraceReplaySummaries.ParseReplayDirectory` | src/inferguard/lmcache_trace.py:146-167 | the loop over the files of a directory |
| `TraceReplaySummaries.JsonlTotals` | src/inferguard/lmcache_trace.py:283-291 | op counts add up to the rows seen, op errors to the failed rows |
| `TraceReplaySummaries.EvidencePerCall` | src/inferguard/lmcache_trace.py:269-296 | call by call: counted once for each row that names it, errors once for each of those that failed, latencies summarized over those rows |
| `TraceReplaySummaries.ErrorsMeaning` | src/inferguard/lmcache_trace.py:271-282 | an error is reported if and only if the line of that number cannot be used, for just that reason |
| `TraceReplaySummaries.JoinedFilesMerge` | src/inferguard/lmcache_trace.py:146-167 | the evidence of two files one after the other is their merged evidence |
| `TraceReplaySummaries.DirectoryIsOneFile` | src/inferguard/lmcache_trace.py:135-167 | merging the evidence of all files gives the counts, errors and summaries of one file with all their lines |
| `TraceReplaySummaries.DirectoryOrderIsIrrelevant` | src/inferguard/lmcache_trace.py:146-167 | the merged evidence does not depend on the order of the files |
| `TraceReplaySummaries.FileOrderIsIrrelevant` | src/inferguard/lmcache_trace.py:146-167 | from files to merged evidence: two listings of the same JSONL files give the same evidence |
| `TraceReplayOps.ParseReplayJson` | src/inferguard/lmcache_trace.py:213-266 | the loop over the operations of a JSON list or object, with its defaults for counts and errors and its bare counts |
| `TraceReplayOps.ItemMeaning` | src/inferguard/lmcache_trace.py:249-266 | what one more operation adds to the evidence of any name, defaults included |
| `TraceReplayOps.ItemsAreCounted` | src/inferguard/lmcache_trace.py:249-266 | the evidence of a JSON list never summarizes nothing, so that the order of such files is irrelevant as well |
| `TraceReplayOps.JoinedListsMergeExactly` | src/inferguard/lmcache_trace.py:213-266 | the evidence of two such lists one after the other is their merged evidence if and only if no operation has latencies in both: within a file a later summary replaces an earlier one |
| `FamilyStatus.DetectionGrows` | src/inferguard/compat.py:470-484 | more samples may change the detected mode but take nothing back that was shown |
| `FamilyStatus.DetectionMeaning` | src/inferguard/compat.py:468-490 | the mode, read off the names of the samples |
| `FamilyStatus.CompatStatusMeaning` | src/inferguard/compat.py:687-730 | populated if and only if the family applies and a matching sample is not zero; zero if and only if something matches and all that does is zero; missing if and only if nothing matches, outside of the CacheBlend surface |
| `FamilyStatus.CoverageStatusMeaning` | src/inferguard/observability_coverage.py:322-361 | the same for the coverage report, with its own rule for unmatched families |
| `FamilyStatus.MoreSamplesNeverLowerAStatus` | src/inferguard/compat.py:687-730 | for any registry and fixed flags, adding samples never lowers the status of a family |
| `FamilyStatus.CoverageRowGrows` | src/inferguard/observability_coverage.py:322-380 | the same for the families of the coverage report |
| `FamilyStatus.RowsDisagree` | src/inferguard/observability_coverage.py:322-361 | for the same samples the two reports give an applicable family different statuses if and only if it matched nothing and exactly one of their special rules applies |
| `SurfaceRollup.SurfaceRows` | src/inferguard/compat.py:733-776 | the counting loop and the status loop of a rollup, for both rules |
| `SurfaceRollup.TalliesCount` | src/inferguard/compat.py:752-762 | every counter of a surface is the number of families it names |
| `SurfaceRollup.TalliesConserve` | src/inferguard/compat.py:752-762 | family_count is populated + zero + missing + not_applicable, and likewise for the required counts |
| `SurfaceRollup.SurfaceTotals` | src/inferguard/compat.py:752-762 | the family counts of all surfaces add up to the length of the list |
| `SurfaceRollup.RollupIgnoresOrder` | src/inferguard/compat.py:733-776 | neither rollup depends on the order of the families |
| `SurfaceRollup.RulesDisagree` | src/inferguard/observability_coverage.py:383-427 | the two rollups give different statuses if and only if required families are missing, others are zero and none is populated; then one says zero and the other partial |
| `SurfaceRollup.StatusMeaning` | src/inferguard/observability_coverage.py:383-427 | each of the five statuses under both rules, read off the families of the surface |
| `SurfaceRollup.CoverageGaps` | src/inferguard/observability_coverage.py:532-559 | the two loops that collect gaps |
| `SurfaceRollup.Failures` | src/inferguard/compat.py:1015-1051 | the list of failures |
| `SurfaceRollup.FailureMeaning` | src/inferguard/compat.py:1015-1051 | a failure is reported if and only if its reason holds |
| `SurfaceRollup.MissingGapsAreFailures` | src/inferguard/observability_coverage.py:532-582 | for the whole outputs of both reports: the gaps that call an MP family missing name, in order, exactly the families of the failures, without lookup_tokens under CacheBlend, if and only if no engine family is itself such a gap |
| `SurfaceRollup.CompleteSurfaceHasNoGap` | src/inferguard/observability_coverage.py:562-582 | a surface that either report rolls up as complete contributes no gap |
| `AnomalyDetector.CheckPressure` | src/inferguard/metrics.py:219-232 | the checks of the cache and the latency, severity updated along the way |
| `AnomalyDetector.CheckLoad` | src/inferguard/metrics.py:234-249 | the checks of the queue, the preemptions and the swap space |
| `AnomalyDetector.DetectAnomalies` | src/inferguard/metrics.py:206-255 | the detector reports exactly the failing checks in order; its severity is the worst of them, and it is an anomaly if and only if there is a reason |
| `AnomalyDetector.ReasonMeaning` | src/inferguard/metrics.py:219-249 | each of the five reasons is reported if and only if the raw readings exceed its limit |
| `AnomalyDetector.ReasonsInOrder` | src/inferguard/metrics.py:219-249 | no check reports twice, and the reasons keep the order of the checks |
| `AnomalyDetector.SeverityMeaning` | src/inferguard/metrics.py:219-249 | critical if and only if a reported cache is above 0.95, the first token is slow or the counter rose; none if and only if nothing is reported |
| `AnomalyDetector.DetectRlmAnomalies` | src/inferguard/metrics.py:169-203 | the checks for reasoning models |
| `AnomalyDetector.RlmReasonMeaning` | src/inferguard/metrics.py:169-203 | each of the three reasons is reported if and only if the model is a reasoning model and the raw readings give it |
| `AnomalyDetector.ExtendAnomaly` | src/inferguard/agent.py:152-157 | adding the reasoning-model reasons keeps the severity the worst of all reasons |
| `AnomalyDetector.PreemptionsAreReported` | src/inferguard/metrics.py:239-243 | a preemption reason is reported if and only if the counter rose, with just that rise |
| `ActionExecutor.Executor.Execute` | src/inferguard/executor.py:25-56 | executing sets the fields of the action step by step, for every mode and answer |
| `ActionExecutor.Executor.Verify` | src/inferguard/executor.py:58-92 | verifying compares cache usage and running requests; a failure is recognised by its text |
| `ActionExecutor.VerdictMeaning` | src/inferguard/executor.py:76-92 | improved if and only if a throttled server has clearly less of its cache used or fewer requests running, regressed otherwise with clearly more |
| `ActionExecutor.HistoriesAreSound` | src/inferguard/executor.py:19-92 | after any executions and verifications of a proposed action: applied implies attempted, not advisory, allowlisted and live; only throttle_concurrency is judged improved or regressed |
| `ActionExecutor.RegressionReversed` | src/inferguard/executor.py:77-89 | what is a regression one way is an improvement the other way, and an unchanged server is neither |
| `ActionExecutor.AppliedExactly` | src/inferguard/executor.py:19-92 | after any history of executions and verifications: attempted if and only if an eligible action was executed at all, applied if and only if it is allowlisted, the mode is live and the endpoint accepted the last execution |
| `ActionExecutor.FailuresAreNotJudgedExactly` | src/inferguard/executor.py:66-89 | no history whose scrapes all failed with a given text ends in a judgement if and only if the text is not empty |
| `AgentLoop.InferGuardAgent.ProcessSnapshot` | src/inferguard/agent.py:137-161 | the detection section of a cycle: baseline first, comparison with the previous scrape, then the update |
| `AgentLoop.InferGuardAgent.DrainProactiveAdvisories` | src/inferguard/agent.py:314-317 | a report takes all waiting advisories |
| `AgentLoop.InferGuardAgent.ReceiveAdvisories` | src/inferguard/agent.py:453-454 | a finished investigation replaces the waiting advisories |
| `AgentLoop.InferGuardAgent.CloseCycle` | src/inferguard/agent.py:464-471 | when watch launches an investigation in the background |
| `AgentLoop.OnlyDetectionWrites` | src/inferguard/agent.py:130-161 | scrapes recognised as failed, background verifications, investigations and reports leave the detector state unchanged |
| `AgentLoop.FailuresLeaveDetectorAlone` | src/inferguard/agent.py:130-161 | between any two states of any run, scrapes that failed with a given text leave the detector unchanged if and only if the text is not empty |
| `AgentLoop.SilentFailureInventsPreemptions` | src/inferguard/agent.py:144-161 | after a failure without text the next reading of the counter is reported whole, which is what would have been reported if and only if it stood at zero before or after |
| `AgentLoop.DetectorFollowsScrapes` | src/inferguard/agent.py:137-161 | in every reachable state the baseline is the first time to first token of the scrapes without error, counter and snapshot are the last, and the reported preemptions sum to the positive variation of the counter |
| `AgentLoop.BaselineIsWrittenOnce` | src/inferguard/agent.py:137-138 | no step changes a baseline once it is set |
| `AgentLoop.PreemptionsAddUp` | src/inferguard/agent.py:144-161 | the reported preemptions are last minus first if and only if the counter never falls |
| `AgentLoop.ActionsAreSound` | src/inferguard/agent.py:233-253 | in every reachable state actions are sound and only applied ones are under verification |
| `AgentLoop.LoopStepsAreExact` | src/inferguard/agent.py:130-317 | in every reachable state the loop can take exactly the step its phase and its remaining actions call for, whatever runs in the background |
| `AgentLoop.CycleCanEnd` | src/inferguard/agent.py:130-317 | from every reachable state in which the loop has not stopped the cycle can be brought to an end, in a bounded number of steps and without any background task |
| `AgentLoop.AdvisoriesAreReportedOnce` | src/inferguard/agent.py:314-317 | every advisory ever produced is in exactly one place: reported once, overwritten, or waiting |
| `AgentLoop.OneInvestigationInFlight` | src/inferguard/agent.py:464-471 | at most one investigation launched by watch is in flight |
| `AgentLoop.LaunchesAreSpaced` | src/inferguard/agent.py:464-471 | at most one launch for every _proactive_cycle_every cycles, and none when it is 0 |
| `AgentLoop.InvestigationsOverlap` | src/inferguard/agent.py:255-266 | some run has an inline investigation discard the advisories of a background one if and only if investigations are launched in the background and a local brain with a language model answers |
| `AgentLoop.AdviceCanBeLost` | src/inferguard/agent.py:411-471 | for every such setting: a run in which an advisory is overwritten and never reported, because the cycles between two launches could not scrape |
| `AgentLoop.AdviceIsSafeExactly` | src/inferguard/agent.py:411-471 | no state of any run has overwritten an advisory if and only if no investigation is launched in the background, the brain is not local, or its language model is not configured |

## Left out

- ReplayMetrics.SummarizeTurn: medians, standard deviations and percentiles are left out.
- ReplayMetrics.CalculateMultiturnMetrics: medians, standard deviations and percentiles are left out, and the benchmark's own duration is not part of this model.
- AtomicWrite.Machine.AtomicWriteText: interruptions that are not exceptions (a signal, the end of the interpreter) skip the clean-up and appear only as crashes; temporary names are never reused.
- TraceReport.ParseTraceFile: the limit is a parameter (the source has 10 000); file size and hash of the report are left out, and first and last record are kept whole rather than compacted.
- TraceReplaySummaries.ParseReplayDirectory: replay_info, duration_s and the list of parse errors depend on the unspecified order of file listing and are left out, as are the CSV and plain-text replay formats; JSON is in `TraceReplayOps`.
- TraceReplayOps.ParseReplayJson: the operations arrive decoded; replay_info and duration_s of a JSON object are left out.
- TraceReplaySummaries.DirectoryIsOneFile: stated for JSONL files; for JSON it needs a condition, which `TraceReplayOps.JoinedListsMergeExactly` gives for two of them.
- SurfaceRollup.SurfaceRows: the seven rows made from external evidence are ordinary rows here; how their status is read off the evidence is left out.
- Series counts, matched metric names and support levels of the family rows.
- Persistence, resolution checks, diagnosis, remediation texts and replay validation between the steps of the control loop, which do not touch the state modelled; an exception that leaves a cycle ends the loop.
- AnomalyDetector.DetectAnomalies: the wording of the reasons and the model-dependent threshold are left out; the threshold is a parameter.
- How the first exception propagates through `gather` to its caller; as with `gather`, which does not cancel the other sessions, it ends its own session only.
- Binary floating point, NaN and infinities; rounding to four digits is half to even in exact arithmetic.
- Summaries with a count of zero, which no parser produces, in the order results for directories.
- The nested label scanner appears as three methods, one for each level of its loops.
- The chat variant of a request and its retry after a rejected option (`_send_chat_turn`): its event loop is the one modelled.
- Warm-up sessions, progress bars, the server poller, tokenizers and the building of messages.
- The HTTP clients, Redis and vector memory, CLI, UI, rendering, prompts and Modal deployment.
- The concrete metric registries, thresholds and remediation tables.
- The runtime registries of `src/inferguard/io.py` (JSONL streams, partial results, child processes): plain bookkeeping under a lock.
- The event tail of `src/inferguard/memory.py`.
