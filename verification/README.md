# Verification of LoopAI-MCP

LoopAI-MCP runs a terminal client in a pseudo-terminal. A launcher forwards what the
client prints to a backend and signals when it has been idle; the backend then runs the
build, lint and test tools and replies with a prompt, which the launcher types into the
terminal. This project models the parts of that program in which something can go wrong
silently, and proves what they promise.

**Escape sequences.** `FilterGrammar`, `FilterCsi`: the stdin filter of
`cmd/loopai/filter_csi.go`. A grammar divides any input into factors (plain bytes,
two-byte escapes, SS3 and control sequences, aborted and cut sequences) and an interrupted
tail, without mentioning states. Every input has exactly one reading, the five-state
machine finds it, and the streaming loop writes it without the discarded factors, for every
reader, every writer and every split into reads (the bodies of its two inner loops are
methods of their own, `FilterChunk` and `FilterByte`). `Refiltering`: a second pass.
`StripAnsi`, `StripGrammar`: the scanner of
`internal/backend/ansi.go` with its three skip helpers is equal to a one-byte-at-a-time
transducer and to the unique reading of the buffer; from this follow prefix monotonicity,
the exact boundaries at which a buffer may be cut, and the print-and-strip round trip.
`FilterLaws`, `StripLaws`: what the two machines do with each kind of input, as laws about
bytes that mention neither states nor factors, and a proof that each machine is the only
function that obeys its laws.
`Agreement`: on text and complete control sequences the two machines agree exactly when
every sequence is clean.

**Enforcement.** `Gate`, `Loop`: the gate and the loop that serves one launcher, as
methods. `GateProtocol`: any number of concurrent callers. `Idle`, `IdleRaces`: the idle
detector and its races. `Stream`: the two pipes. `EndToEnd`: all of these joined by FIFO
channels, with a clock; in every state of every session the backend has done what the loop
of `Loop` does with the messages it has acted on. `Server`, `ServerSteps`: the accept loop,
its handlers and Stop.
A protocol is a step function with an enabling condition; a run is a sequence of states,
and the theorems hold in every state of every run. The steps use the same functions of the
state as the methods of the classes.

**Output analysis.** `Output`: the capped buffer with its two latches, as a function of the
chunks written since the last reset. `Lines`, `Phase`: lines, pattern tables, verdicts and
the extraction of error lines.

`Bytes`, `Io`, `Proto` and `Spacing` hold what the others share. Readers, writers,
connections and listeners are scripts of outcomes, so a statement about all scripts covers
short and empty reads, data returned together with an error, short and failing writes.
Contexts are cancelled after an arbitrary number of polls. What the tools report, how a
prompt renders, which sends fail and what a regular expression matches are arbitrary
functions. The zero time of a gate that has never run is a value of its own, `Never`.

Where the code and its comments differ, the model follows the code:

- `filter_csi.go:30` says SS3 ends with a final byte in 0x40..0x7E; the code discards any
  byte after ESC O.
- `ansi.go:65-67` says an invalid byte stops a control sequence; the code goes on to the
  first final byte.
- `ansi.go:42-44` speaks of two-character escapes for ESC and 0x20..0x2F; the code skips one
  byte after ESC in every remaining case, so ESC ( B leaves the B.
- `README.md:86` speaks of one cooldown between runs; the code makes a gate for each
  connection, so the rate bounds are per connection.
- `README.md:79` says that interactive mode strips CSI u sequences; the code does so only
  with the flag `-filter-csi`, and then strips all control sequences it recognises.

Some expectations are false of the code. Each has a concrete input or a run from the initial
state that shows it, and the exact condition:

- Filtering twice is not filtering once: `FilterNotIdempotent`. It is exactly if no cut
  sequence is followed, among what the first pass keeps, by plain bytes that complete it:
  `FilterTwice`.
- Filtering or stripping pieces is not filtering or stripping the whole: `FilterInPieces`,
  `CutSequenceLeavesRest`. It is, for every continuation, exactly at the boundaries: the two
  `BoundaryExact` and, for the capped buffer, `StaysInStepExactly`.
- The two machines do not agree on all control sequences: `MachinesDisagree`, and the
  equivalence `MachinesAgree`.
- Stopping the idle detector does not silence it: `IdleAfterStop`, `SilentAfterStopExactly`.
- A failure need not show error lines: `FailureWithoutErrorLines`, `FailureUnexplainedExactly`.
- Stop alone does not keep a handler from starting: `HandlerAfterStop`,
  `StopExcludesExactly`.

## Model

| member | source | states |
|---|---|---|
| FilterGrammar.StepInvariant | cmd/loopai/filter_csi.go:42-145 | in every state the pending bytes are in that state's prefix language; pending bytes and the next byte read as the factor announced, if any, and the new pending bytes |
| FilterGrammar.RunReads | cmd/loopai/filter_csi.go:37-158 | every input has a reading into kept, discarded, aborted and cut factors and a tail |
| FilterGrammar.ReadingIsRun | cmd/loopai/filter_csi.go:37-158 | any reading of an input is the one the state machine announces |
| FilterGrammar.MachineDecidesGrammar | cmd/loopai/filter_csi.go:37-158 | a factorisation is a reading if and only if it is the machine's, so there is exactly one |
| FilterGrammar.FilterDeletesDiscarded | cmd/loopai/filter_csi.go:27-31 | what is written up to the end of input is the input with exactly the discarded factors deleted |
| FilterGrammar.RunCut | cmd/loopai/filter_csi.go:86-95 | a sequence interrupted by ESC is flushed, and the ESC begins the next factor |
| FilterGrammar.RunFactor | cmd/loopai/filter_csi.go:42-145 | every other factor is complete with its last byte and leaves the machine in its normal state |
| FilterGrammar.FilterSplits | cmd/loopai/filter_csi.go:37-158 | after a piece that ends in the normal state, filtering continues as if afresh |
| FilterGrammar.BoundaryExact | cmd/loopai/filter_csi.go:37-158 | filter(a+b) = filter(a)+filter(b) for all b if and only if the machine is in its normal state after a |
| FilterGrammar.FilterInPieces | cmd/loopai/filter_csi.go:79-82 | ESC [ A is discarded as a whole, and kept when cut before the A |
| FilterLaws.PlainByteKept | cmd/loopai/filter_csi.go:43-54 | a byte that is not ESC is kept, whatever follows |
| FilterLaws.TwoByteEscapeKept | cmd/loopai/filter_csi.go:56-72 | ESC and a byte other than [ and O are kept, whatever follows |
| FilterLaws.Ss3Dropped | cmd/loopai/filter_csi.go:140-144 | ESC O and the byte after it are dropped, whatever follows |
| FilterLaws.CompleteDropped | cmd/loopai/filter_csi.go:74-118 | a control sequence, with or without a '<' part, is dropped up to its final byte, whatever follows |
| FilterLaws.AbortedKept | cmd/loopai/filter_csi.go:96-137 | one that meets a byte it cannot contain is kept with that byte, and filtering goes on after it |
| FilterLaws.CutKept | cmd/loopai/filter_csi.go:86-95 | one that meets ESC is kept, and filtering goes on with the ESC |
| FilterLaws.InterruptedFlushed | cmd/loopai/filter_csi.go:148-156 | one that the end of input interrupts is kept |
| FilterLaws.LawsDetermineFilter | cmd/loopai/filter_csi.go:32-159 | a function obeys these seven laws, stated for all bytes and all continuations, if and only if it is the filter |
| Refiltering.FilterTwice | cmd/loopai/filter_csi.go:32-159 | a second pass changes nothing if and only if, among the factors the first pass keeps, no cut sequence is followed by plain bytes that complete it |
| Refiltering.UnchangedExactly | cmd/loopai/filter_csi.go:32-159 | the filter is the identity on a string if and only if nothing in its reading is discarded |
| Refiltering.FilterNotIdempotent | cmd/loopai/filter_csi.go:86-95 | ESC [ ESC [ A A filters to ESC [ A, which filters to nothing |
| FilterCsi.FilterByte | cmd/loopai/filter_csi.go:42-145 | one byte: the write it causes, the bytes accepted, the error, and the next state and pending bytes are those of the labelled machine |
| FilterCsi.FilterChunk | cmd/loopai/filter_csi.go:40-147 | the bytes of one read are written factor by factor, up to the first failing write |
| FilterCsi.Filter | cmd/loopai/filter_csi.go:32-159 | for every reader and writer: bytes accepted, reads consumed and error are those of the read-by-read copy, and the count is the number of bytes accepted, also when a write fails or is short |
| FilterCsi.ChunkIndependence | cmd/loopai/filter_csi.go:33-158 | however the input is split into reads, what is delivered is what one unsplit pass delivers |
| FilterCsi.CopiesFiltered | cmd/loopai/filter_csi.go:148-157 | with a writer that takes everything: at end of input the whole reading without its discarded factors; on any other read error the tail is not flushed |
| FilterCsi.InterruptedCopy | cmd/loopai/filter_csi.go:49-53 | however the reader ends and whatever writes fail, an honest writer has received a prefix of the filtered input; if no write failed the reader's error is reported, and at end of input all of it was received |
| FilterCsi.FailedWrite | cmd/loopai/filter_csi.go:48-53 | the first write that fails ends the copy: delivered are the writes before it and what it took, and its error is reported |
| FilterCsi.CopyReads | cmd/loopai/filter_csi.go:148-156 | if no write fails, the reader is read up to its first error and no further |
| Io.Reader.Read | cmd/loopai/filter_csi.go:38-40 | a read fills the front of the caller's buffer and leaves the rest alone |
| Io.Writer.Write | cmd/loopai/filter_csi.go:49-53 | a write appends the accepted prefix and reports its length |
| StripAnsi.SkipCsi | internal/backend/ansi.go:56-70 | returns the position just past the first final byte, or the end of data |
| StripAnsi.SkipOsc | internal/backend/ansi.go:72-86 | returns the position just past the first BEL or ESC \, or the end of data |
| StripAnsi.SkipSt | internal/backend/ansi.go:88-99 | returns the position just past the first ESC \, or the end of data |
| StripAnsi.EscapeStrips | internal/backend/ansi.go:29-50 | the position to which the scanner jumps after an ESC is where the transducer is back in text |
| StripAnsi.StripAnsi | internal/backend/ansi.go:7-54 | the scanner computes the output of the one-byte-at-a-time transducer |
| StripGrammar.ReadingExists | internal/backend/ansi.go:7-54 | every buffer can be read as visible bytes, short escapes, terminated sequences and at most one cut-off sequence |
| StripGrammar.ReadingUnique | internal/backend/ansi.go:7-54 | in only one way |
| StripGrammar.StripIsVisibleText | internal/backend/ansi.go:5-54 | the output is exactly the visible bytes of the reading |
| StripGrammar.PrefixMonotone | internal/backend/ansi.go:7-54 | the output for a is a prefix of the output for a+b |
| StripGrammar.BoundaryExact | internal/backend/ansi.go:7-54 | strip(a+b) = strip(a)+strip(b) for all b if and only if a ends on a sequence boundary |
| StripGrammar.BoundaryIsCompleteReading | internal/backend/ansi.go:23-27 | a boundary is where no sequence and no lone ESC is cut off |
| StripGrammar.StripSelects | internal/backend/ansi_test.go:157-176 | the output is an ESC-free subsequence of the input, not longer than it |
| StripGrammar.PlainText | internal/backend/ansi_test.go:14-20 | ESC-free data is unchanged |
| StripGrammar.StripTwice | internal/backend/ansi.go:5-54 | stripping is idempotent |
| StripLaws.TextKept | internal/backend/ansi.go:16-20 | a byte that is not ESC is kept, whatever follows |
| StripLaws.TwoByteEscapeDropped | internal/backend/ansi.go:42-49 | ESC and a byte other than [ ] P X ^ _ are dropped, whatever follows |
| StripLaws.ControlDropped | internal/backend/ansi.go:30-32 | ESC [ is dropped up to the first byte in 0x40..0x7E, or the end of data |
| StripLaws.OsCommandDropped | internal/backend/ansi.go:34-36 | ESC ] is dropped up to the first BEL or ESC \, or the end of data |
| StripLaws.ControlStringDropped | internal/backend/ansi.go:38-40 | ESC and P, X, ^ or _ are dropped up to the first ESC \, or the end of data |
| StripLaws.LawsDetermineStrip | internal/backend/ansi.go:7-54 | a function obeys these laws, stated for all bytes and all continuations, if and only if it is the stripper |
| StripGrammar.PrintStripRoundTrip | internal/backend/ansi.go:15-50 | stripping any printed interleaving of text, control sequences, OSC, DCS, SOS, PM, APC and two-byte escapes gives the text |
| Agreement.FilterPrinted | cmd/loopai/filter_csi.go:74-138 | on text and complete control sequences the filter keeps the text and those sequences that are not clean after a '<', whole |
| Agreement.MachinesAgree | cmd/loopai/filter_csi.go:74-138 | on such streams filter and stripper agree if and only if every sequence is clean, and then both give the text |
| Agreement.MachinesDisagree | cmd/loopai/filter_csi.go:128-138 | ESC [ < 3 : 5 u passes the filter and is stripped by the stripper |
| Gate.AllPassed | internal/backend/gate.go:106-113 | true if and only if every result passed |
| Gate.ChosenIsChoice | internal/backend/gate.go:70-90 | the prompt is the idle prompt if everything passed, otherwise the failure prompt for the first failure |
| Gate.ChoiceIsUnique | internal/backend/gate.go:70-90 | no other choice satisfies that |
| Gate.Gate.TryClaim | internal/backend/gate.go:48-60 | claims if and only if no run is under way and the cooldown is over, and otherwise changes nothing |
| Gate.Gate.Release | internal/backend/gate.go:65-68 | clears the flag and starts the cooldown at the end of the run |
| Gate.Gate.HandleEnforcement | internal/backend/gate.go:47-104 | one idle event: gate state, runs and messages sent are those of one enforcement |
| GateProtocol.MutualExclusion | internal/backend/gate.go:48-68 | in every interleaving at most one caller is between claim and release, and the flag is set exactly then |
| GateProtocol.CooldownBetweenRuns | internal/backend/gate.go:54-58 | each claim comes at least the cooldown after the previous release |
| GateProtocol.ClaimRate | internal/backend/gate.go:12-12 | any window of length L holds at most 1 + floor(L / 30s) claims |
| GateProtocol.OneReplyPerRun | internal/backend/gate.go:92-103 | replies never outnumber runs, and match them when nobody is inside |
| GateProtocol.TurnedAwayExactly | internal/backend/gate.go:49-58 | a caller is turned away if and only if another is running the tools or the last release is less than the cooldown ago |
| Loop.HandleLauncher | internal/backend/loop.go:14-60 | the messages sent and consumed are those of the message-by-message specification, and the connection is closed |
| Loop.ServeIsEnforceAll | internal/backend/loop.go:31-58 | what a connection does is a function of the times of its idle messages before it ends |
| Loop.CancellationTruncates | internal/backend/loop.go:19-23 | a cancelled context only cuts the prompts short |
| Loop.MessageCounts | internal/backend/loop.go:31-53 | an idle message counts with its time, wherever it comes; a broken connection or an exit, well formed or not, ends the count; nothing else matters |
| Loop.ServeCancelled | internal/backend/loop.go:18-23 | cancelled after n polls, the loop has acted on exactly the first n messages, if none of them ends it |
| Loop.ServeEnds | internal/backend/loop.go:25-46 | otherwise it ends with the first failed receive or exit, and no sooner |
| Loop.OutputDoesNotInterfere | internal/backend/loop.go:31-58 | connections with the same idle events send the same prompts, whatever else they carry |
| Loop.NoiseKeepsIdleTimes | internal/backend/loop.go:32-34 | inserting output, started or unknown messages anywhere leaves the idle events as they are |
| Loop.RunsRest | internal/backend/gate.go:54-68 | each run begins at least the cooldown after the end of the one before |
| Loop.IdleRunsExactly | internal/backend/gate.go:47-60 | after any idle events, the next one starts the tools if and only if it does not come within the cooldown after the end of the last run |
| Loop.PromptsAnswerRuns | internal/backend/gate.go:70-103 | the prompts are one for each run whose reply can be encoded, in the order of the runs |
| Loop.RunRate | README.md:86-95 | at most 1 + floor(L / 30s) runs in a window of length L, at most one prompt for each run, at most one run for each idle event |
| Idle.IdleDetector.Start | internal/launcher/idle.go:43-51 | arms the timer unless already running |
| Idle.IdleDetector.Reset | internal/launcher/idle.go:54-61 | rearms for the full timeout if running, otherwise nothing |
| Idle.IdleDetector.Stop | internal/launcher/idle.go:64-72 | disarms if running, otherwise nothing |
| IdleRaces.ArmingsConserved | internal/launcher/idle.go:43-89 | effective Starts and Resets equal expiries plus cancelled armings plus one if armed; calls of onIdle do not exceed expiries; a running detector has a timer |
| IdleRaces.ExpiryAfterTimeout | internal/launcher/idle.go:21-22 | the timer expires no earlier than the timeout after the latest effective Start or Reset |
| IdleRaces.ExpiryRate | internal/launcher/idle.go:21-22 | a window of length L sees at most 1 + floor(L / timeout) expiries |
| IdleRaces.AfterStop | internal/launcher/idle.go:74-89 | from Stop to the next Start only callbacks that had already passed the check call onIdle |
| IdleRaces.NoExpiryAfterStop | internal/launcher/idle.go:64-72 | and the timer does not expire |
| IdleRaces.QuietAfterReset | internal/launcher/idle.go:54-61 | from a reset of a running detector until the timeout is over the timer does not expire, whatever happens, and only callbacks already started call onIdle |
| IdleRaces.ExpiresExactly | internal/launcher/idle.go:43-61 | left alone after Start or Reset, the timer can expire if and only if the timeout is over |
| IdleRaces.SilentAfterStopExactly | internal/launcher/idle.go:74-79 | after Stop another call of onIdle is possible if and only if a callback has already passed the check |
| IdleRaces.IdleAfterStop | internal/launcher/idle.go:74-89 | a run from the initial state in which onIdle is called after Stop |
| Stream.PipePtyToBackend | internal/launcher/stream.go:40-73 | messages, reads consumed and result are those of the read-by-read specification, with one reset for each message attempted |
| Stream.ForwardChunks | internal/launcher/stream.go:48-65 | payloads are chunks of 1 to 65536 bytes, and sending stops at the first refusal |
| Stream.ForwardConserves | internal/launcher/stream.go:37-73 | the payloads are a prefix of the bytes read, and all of them if the pipe returns nil |
| Stream.ForwardCancelled | internal/launcher/stream.go:42-46 | cancelled after n polls, exactly n reads are consumed and forwarded, one message for each that brings data |
| Stream.ForwardStops | internal/launcher/stream.go:48-72 | otherwise the pipe goes on to the first read error and no further, forwards the data that came with it, and returns nil only at end of input |
| Stream.ForwardRefused | internal/launcher/stream.go:63-65 | a refused message is the last thing it does |
| Stream.ForwardEnds | internal/launcher/stream.go:40-73 | if nothing is refused: cancelled before the first error, exactly as many reads as polls are forwarded; otherwise everything the reader delivers is, and the result is nil if and only if it ended with Eof |
| Io.DrainedExactly | internal/launcher/stream.go:48-72 | a reader delivers everything up to its first error, the data returned with the error included |
| Stream.PipeBackendToPty | internal/launcher/stream.go:77-124 | bytes typed, interrupts, messages consumed and result are those of the message-by-message specification |
| Stream.TypingDelivers | internal/launcher/stream.go:90-122 | with any terminal: text and carriage return of each well-formed prompt in order, up to a failing write; otherwise it ends with the first shutdown or the connection, every interrupt before that passed on |
| Stream.TypingCancelled | internal/launcher/stream.go:78-83 | cancelled after n polls, exactly n messages have been acted on, if none of them ends the pipe and no write fails |
| Stream.MessageTyped | internal/launcher/stream.go:90-122 | a well-formed prompt adds its text and a carriage return, an interrupt message an interrupt, wherever they come; shutdown or a broken connection ends it; nothing else matters |
| Stream.TypingTypesPrompts | internal/launcher/stream.go:91-108 | if all writes succeed, exactly the prompts before the first shutdown are typed, each followed by a carriage return; cancelled after n polls, if and only if none of the first n messages ends the pipe, exactly those among them |
| EndToEnd.BackendIsLauncherLoop | internal/backend/loop.go:18-58 | in every state of every session the tools were started at exactly the times, and the prompts handed over are exactly those, of HandleLauncher on the messages the backend has acted on, but for a run under way or a prompt still due |
| EndToEnd.HandledInOrder | internal/backend/loop.go:25-46 | the messages the channel took are, in order, those acted on, the one in hand and those in the channel; the loop is over if and only if the last one acted on ends it |
| EndToEnd.OutputInOrder | internal/launcher/stream.go:48-65 | the output messages the channel took are, in order, the chunks read, but for those refused and one not sent yet |
| EndToEnd.IdlesAccounted | cmd/loopai/main.go:115-124 | calls of onIdle = messages refused + in the channel + runs started + turned away within the cooldown + 1 if one is being decided on |
| EndToEnd.RunsAnswered | internal/backend/gate.go:92-103 | the prompts handed over, and the one due, are one for each run that can be answered, in the order of the runs; the prompts sent are those whose sending succeeded |
| EndToEnd.PromptIsTyped | cmd/loopai/main.go:115-178 | a session from the initial state in which the prompt about the first run, whatever the tools report, is typed |
| EndToEnd.QuietAfterChunk | internal/launcher/stream.go:48-50 | after a chunk of output is read the timer does not expire until the timeout is over |
| EndToEnd.PromptBudget | cmd/loopai/main.go:115-178 | in every interleaving: typed <= sent <= runs <= idle messages received <= idle messages sent <= calls of onIdle <= expiries <= 1 + nonempty chunks read |
| EndToEnd.TypedInOrder | cmd/loopai/main.go:168-175 | the prompts typed are a prefix of those sent, and while the pipe works the rest is in the channel in order |
| EndToEnd.OnlyPromptsComeBack | cmd/loopai/main.go:180-187 | the channel to the launcher holds prompts only, so the launcher's own shutdown message never ends the pipe that types |
| EndToEnd.PromptRate | internal/backend/gate.go:12-12 | in a session of length L at most 1 + floor(L / 30s) prompts are typed |
| EndToEnd.IdleRate | internal/launcher/idle.go:21-22 | in a session of length L at most 1 + floor(L / timeout) idle messages are sent |
| Server.Backend.Run | internal/backend/server.go:67-109 | a listener that cannot be opened changes nothing but the result; otherwise connections handled, result and listener state are those of the accept-by-accept specification, and handlers are left running unless the context ended the loop |
| Server.Backend.Stop | internal/backend/server.go:113-125 | afterwards the listener accepts nothing and no handler is running |
| Server.EveryConnectionHandled | internal/backend/server.go:84-108 | every connection before the first error that is not a timeout gets one handler |
| Server.AcceptCancelled | internal/backend/server.go:76-89 | cancelled after as many polls as some outcomes take, one handler was started for each connection among them and nothing further was accepted |
| Server.AcceptEnds | internal/backend/server.go:84-108 | otherwise the loop goes on through connections and timeouts and ends with the first other error |
| ServerSteps.InvHolds | internal/backend/server.go:103-107 | the wait group counts the running handlers and the one about to start |
| ServerSteps.QuietAfterCancel | internal/backend/server.go:77-89 | when Run returns the context error no handler is running and none runs or starts afterwards |
| ServerSteps.QuietAfterStop | internal/backend/server.go:111-125 | once Run has returned and then Stop returns, no handler is running or starts |
| ServerSteps.StopExcludesExactly | internal/backend/server.go:113-125 | with the listener closed, a new handler can start if and only if Run holds an accepted connection, or has not listened yet and is not cancelled |
| ServerSteps.HandlerAfterStop | internal/backend/server.go:113-125 | a run from the initial state in which a handler starts after Stop has returned |
| ServerSteps.LoopAlone | internal/backend/server.go:76-108 | whatever connections and timeouts arrive, there is an interleaving that does what the accept loop does by itself |
| Lines.SplitJoins | internal/backend/phase.go:172-172 | lines hold no newline and joined give the text back |
| Lines.SplitUnique | internal/backend/phase.go:172-182 | splitting undoes joining |
| Lines.TrimmedLines | internal/backend/phase.go:153-155 | each line of the trimmed text begins the same line of the text |
| Lines.TrimmedExactly | internal/backend/phase.go:155-155 | exactly the newlines, returns, tabs and spaces at the end are removed |
| Phase.DetectedExactly | internal/backend/phase.go:89-124 | building takes precedence over linting and linting over testing |
| Phase.ErrorPatterns | internal/backend/phase.go:58-87 | which patterns mean an error, spelled out for each phase |
| Phase.VerdictExactly | internal/backend/phase.go:126-143 | the verdict of each phase, spelled out: an error pattern fails it, unless in the test phase a package is ok; without one, compile and lint succeed and test is unknown |
| Phase.ExtractErrorLines | internal/backend/phase.go:152-183 | the result is the join of the matching lines of the trimmed output, in order |
| Phase.ErrorLinesSelect | internal/backend/phase.go:172-182 | for a known phase they are the lines at strictly increasing positions, which are exactly the positions of the lines that report an error |
| Phase.ErrorLinesUnknown | internal/backend/phase.go:153-168 | for an unknown phase they are the trimmed output |
| Phase.ExtractErrorLinesMax | internal/backend/phase.go:188-194 | a prefix of that of at most the given length, and shorter than it only if it has to be |
| Phase.MatchingMatches | internal/backend/phase.go:174-181 | every extracted line matches a failure pattern |
| Phase.ErrorLinesMeanFailure | internal/backend/phase.go:126-183 | if the failure patterns of the phase match a text whenever they match the beginning of one of its lines, error lines mean that the phase failed, or that a test package is ok |
| Phase.ErrorLinesExactly | internal/backend/phase.go:152-183 | if no pattern matches an empty line, there are error lines if and only if some trimmed line reports an error |
| Phase.FailureUnexplainedExactly | internal/backend/phase.go:126-183 | if no pattern matches an empty line, a phase fails without error lines if and only if the output reports an error, no test package is ok, and no trimmed line by itself reports one |
| Phase.FailureWithoutErrorLines | internal/backend/phase.go:66-66 | that happens for every matcher whose package header pattern matches across the newline of a text neither of whose lines reports an error |
| Phase.HeaderOnlyByLine | internal/backend/phase.go:66-66 | also if every match on the beginning of a line is a match on the text |
| Output.OutputBuffer.Write | internal/backend/output.go:49-85 | buffer, phase and overflow stay the function of the history to which the chunk is added |
| Output.OutputBuffer.Analyze | internal/backend/output.go:96-106 | phase and verdict of the accepted history; for chunks cut at boundaries, the verdict on the stripped stream |
| Output.OutputBuffer.Reset | internal/backend/output.go:109-115 | an empty history |
| Output.OutputBuffer.String | internal/backend/output.go:118-122 | the stripped accepted chunks, one after the other |
| Output.AcceptedIsLongestFitting | internal/backend/output.go:61-66 | a prefix of the chunks fits in 10 MiB if and only if it is among those accepted |
| Output.ContentsCappedAndClean | internal/backend/output.go:9-14 | the buffer never exceeds 10 MiB and holds no ESC |
| Output.OverflowLatches | internal/backend/output.go:53-57 | once a chunk is refused, later ones change nothing |
| Output.PhaseIsFirstTrigger | internal/backend/output.go:70-84 | the phase is that of the first accepted chunk that, once stripped, has a trigger in its first 4096 bytes |
| Output.NoTriggerNoPhase | internal/backend/output.go:70-84 | and unknown if and only if none has |
| Output.BufferIsWholeStream | internal/backend/output.go:59-68 | if no accepted chunk but the last ends inside a sequence, the buffer, which is what is analysed, is the stripped stream |
| Output.StaysInStepExactly | internal/backend/output.go:59-68 | while the buffer is the stripped stream, it stays so for every further chunk that fits if and only if the stream ends at a boundary, or the buffer is full and the stream ends in a control string |
| Output.CutSequenceLeavesRest | internal/backend/output.go:59-68 | a sequence cut between two chunks leaves its second half in the buffer |

## Left out

- Readers, connections and listeners that never end: a script is finite, so the methods are about runs that return.
- Locks and goroutines in the classes: each critical section is one method, and interleavings are in the step modules `GateProtocol`, `IdleRaces`, `EndToEnd` and `ServerSteps`.
- Server.Backend.Run: handlers end only in `wg.Wait` here; in `ServerSteps` they end at any time.
- Contexts in `EndToEnd`: a loop or pipe that finds its context cancelled is one that takes no further step.
- EndToEnd.PromptRate: instants are those of the critical sections; how long a send or a write takes is not bounded.
- Phase.ErrorLinesMeanFailure: takes as a hypothesis that a failure pattern of the phase that matches the beginning of a line matches the text, since regular expressions are arbitrary predicates.
- Regular expressions, JSON and base64 encoding, sockets and deadlines, template files, tool execution and logging.
- The launcher's PTY, echo, signal and exit-code handling, the PID file and the capture tool.
- The names of phases and results as strings, parsing of log levels, and default paths.
