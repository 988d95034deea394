/** One session, end to end (cmd/loopai/main.go:103-178): the idle detector, the pipe
    that resets it, the channel to the backend, the launcher loop with its gate, the
    channel back, and the pipe that types. Channels are FIFO; any send or write may
    fail; steps interleave in any way. */
module EndToEnd {
  import opened Bytes
  import opened Proto
  import opened Gate
  import opened Spacing
  import I = IdleRaces
  import D = Idle
  import L = Loop

  /** The idle timeout, and what the tools report and how prompts render. */
  datatype Config = Config(timeout: nat, world: World)

  /** Where the backend's loop is. */
  datatype Phase =
    | Receiving
    | Enforcing                 // took an idle message, is about to claim
    | RunningTools              // claimed
    | Replying(prompt: Bytes)   // released, is about to send
    | Gone

  datatype State = State(
    idle: I.State,
    chunks: seq<Bytes>,          // the nonempty reads from the PTY
    unsent: seq<Message>,        // the chunk the first pipe has not sent yet, if any
    passed: seq<bool>,           // which of the others were sent
    accepted: seq<Message>,      // what the channel to the backend took
    toBackend: seq<Message>,     // what is still in it
    idlesSent: nat,
    idlesLost: nat,              // calls of onIdle whose message was not sent
    phase: Phase,
    gate: GateState,
    handled: seq<Incoming>,      // what the loop has acted on, idle messages with the time of the decision
    idlesReceived: nat,
    turnedAway: nat,             // idle messages within the cooldown
    claims: seq<int>,            // when the tools were started
    attempted: seq<Bytes>,       // the prompts handed over for sending
    outcomes: seq<bool>,         // which of them were sent
    toPty: seq<Message>,
    prompts: seq<Bytes>,         // the prompts that were sent
    typing: bool,                // the second pipe is still at work
    typed: seq<Bytes>)           // the prompts typed into the PTY

  datatype Step =
    | Tick(time: int)
    | Start                            // once, by the launcher's main
    | Stop
    | ReadChunk(data: Bytes)
    | SendChunk(ok: bool)
    | SendOther(msg: Message)          // started, exited, shutdown
    | Expire
    | Check
    | Notify(ok: bool)
    | Receive
    | ReceiveBreaks
    | Decide
    | FinishTools
    | Reply(ok: bool)
    | TypePrompt(ok: bool)

  /** When the run of the tools that was claimed last comes to its end. */
  function ToolsEnd(s: State, w: World): int
    requires s.claims != []
  {
    s.claims[|s.claims| - 1] + w.run(|s.claims| - 1).duration
  }

  predicate Enabled(s: State, step: Step, c: Config) {
    match step
    case Tick(time) => s.idle.clock <= time
    case Start => s.idle.starts == 0
    case Stop => true
    case ReadChunk(data) => s.unsent == [] && data != []
    case SendChunk(_) => s.unsent != []
    case SendOther(msg) => !msg.Idle? && !msg.Output?
    case Expire => I.Enabled(s.idle, I.Expire)
    case Check => I.Enabled(s.idle, I.Check)
    case Notify(_) => I.Enabled(s.idle, I.Notify)
    case Receive => s.phase == Receiving && s.toBackend != []
    case ReceiveBreaks => s.phase == Receiving
    case Decide => s.phase == Enforcing
    case FinishTools => s.phase == RunningTools && s.claims != [] && s.idle.clock == ToolsEnd(s, c.world)
    case Reply(_) => s.phase.Replying?
    case TypePrompt(_) => s.typing && s.toPty != []
  }

  function WithIdle(s: State, step: I.Step, c: Config): State
    requires I.Enabled(s.idle, step)
  {
    s.(idle := I.Do(s.idle, step, c.timeout))
  }

  function Put(s: State, ms: seq<Message>): State {
    s.(accepted := s.accepted + ms, toBackend := s.toBackend + ms)
  }

  function Dispatch(s: State, msg: Message): State {
    var noted := s.(handled := s.handled + [Received(s.idle.clock, msg)]);
    match msg
    case Idle => s.(phase := Enforcing, idlesReceived := s.idlesReceived + 1)
    case Exited(_) => noted.(phase := Gone)
    case _ => noted
  }

  /** What the run of the tools with this number has to say, if it can be encoded. */
  function Answer(n: nat, w: World): seq<Bytes> {
    if w.run(n).unencodable then [] else [w.render(n, Chosen(w.run(n).results))]
  }

  function Do(s: State, step: Step, c: Config): State
    requires Enabled(s, step, c)
  {
    match step
    case Tick(time) => WithIdle(s, I.Tick(time), c)
    case Start => WithIdle(s, I.Start, c)
    case Stop => WithIdle(s, I.Stop, c)
    case ReadChunk(data) => WithIdle(s, I.Reset, c).(chunks := s.chunks + [data], unsent := [Output(data)])
    case SendChunk(ok) => (if ok then Put(s, s.unsent) else s).(unsent := [], passed := s.passed + [ok])
    case SendOther(msg) => Put(s, [msg])
    case Expire => WithIdle(s, I.Expire, c)
    case Check => WithIdle(s, I.Check, c)
    case Notify(ok) =>
      var t := WithIdle(s, I.Notify, c);
      if ok then Put(t, [Idle]).(idlesSent := s.idlesSent + 1) else t.(idlesLost := s.idlesLost + 1)
    case Receive => Dispatch(s.(toBackend := s.toBackend[1..]), s.toBackend[0])
    case ReceiveBreaks => s.(phase := Gone, handled := s.handled + [ReceiveFails])
    case Decide =>
      var t := s.(handled := s.handled + [Received(s.idle.clock, Idle)]);
      if MayClaim(s.gate, s.idle.clock) then
        t.(gate := Claimed(s.gate), phase := RunningTools, claims := s.claims + [s.idle.clock])
      else t.(phase := Receiving, turnedAway := s.turnedAway + 1)
    case FinishTools =>
      var answer := Answer(|s.claims| - 1, c.world);
      s.(gate := Released(s.idle.clock), phase := if answer == [] then Receiving else Replying(answer[0]))
    case Reply(ok) =>
      var prompt := s.phase.prompt;
      var t := s.(phase := Receiving, attempted := s.attempted + [prompt], outcomes := s.outcomes + [ok]);
      if ok then t.(toPty := s.toPty + [Type(Good(prompt))], prompts := s.prompts + [prompt]) else t
    case TypePrompt(ok) => TypeFirst(s, ok)
  }

  function TypeFirst(s: State, ok: bool): State
    requires s.toPty != []
  {
    var t := s.(toPty := s.toPty[1..]);
    match s.toPty[0]
    case Type(Good(text)) => if ok then t.(typed := s.typed + [text]) else t.(typing := false)
    case _ => t
  }

  predicate Initial(s: State) {
    && I.Initial(s.idle)
    && s.idlesSent == s.idlesLost == s.idlesReceived == s.turnedAway == 0
    && s.chunks == [] && s.unsent == [] && s.passed == [] && s.accepted == [] && s.toBackend == [] && s.toPty == []
    && s.phase == Receiving && s.gate == FRESH && s.handled == []
    && s.claims == [] && s.attempted == [] && s.outcomes == [] && s.prompts == [] && s.typed == []
    && s.typing
  }

  ghost predicate Successor(s: State, t: State, c: Config) {
    exists step :: Enabled(s, step, c) && t == Do(s, step, c)
  }

  ghost predicate Follow(run: seq<State>, c: Config) {
    forall i :: 0 <= i < |run| - 1 ==> Successor(run[i], run[i + 1], c)
  }

  ghost predicate IsRun(run: seq<State>, c: Config) {
    run != [] && Initial(run[0]) && Follow(run, c)
  }

  // ---------- the launcher's side ----------

  function Idles(ms: seq<Message>): nat {
    if ms == [] then 0 else (if ms[0].Idle? then 1 else 0) + Idles(ms[1..])
  }

  lemma {:induction false} IdlesSnoc(ms: seq<Message>, m: Message)
    ensures Idles(ms + [m]) == Idles(ms) + if m.Idle? then 1 else 0
  {
    if ms == [] {
      assert [m][1..] == [];
    } else {
      assert (ms + [m])[1..] == ms[1..] + [m];
      IdlesSnoc(ms[1..], m);
    }
  }

  predicate LauncherSide(s: State, c: Config) {
    && I.Inv(s.idle, c.timeout)
    && s.idle.starts <= 1 && s.idle.resets <= |s.chunks|
    && s.idlesSent + s.idlesLost == s.idle.idles
    && |s.unsent| <= 1 && (s.unsent != [] ==> s.unsent[0].Output?)
  }

  /** The data of the output messages among these. */
  function OutputsOf(ms: seq<Message>): seq<Bytes> {
    if ms == [] then []
    else
      var last := ms[|ms| - 1];
      OutputsOf(ms[..|ms| - 1]) + if last.Output? then [last.data] else []
  }

  lemma OutputsSnoc(ms: seq<Message>, m: Message)
    ensures OutputsOf(ms + [m]) == OutputsOf(ms) + if m.Output? then [m.data] else []
  {
    assert (ms + [m])[..|ms|] == ms;
  }

  /** The texts whose sending succeeded. */
  function Successes(texts: seq<Bytes>, outcomes: seq<bool>): seq<Bytes>
    requires |texts| == |outcomes|
  {
    if texts == [] then []
    else
      var n := |texts| - 1;
      Successes(texts[..n], outcomes[..n]) + if outcomes[n] then [texts[n]] else []
  }

  lemma SuccessesSnoc(texts: seq<Bytes>, outcomes: seq<bool>, text: Bytes, ok: bool)
    requires |texts| == |outcomes|
    ensures Successes(texts + [text], outcomes + [ok]) == Successes(texts, outcomes) + if ok then [text] else []
  {
    assert (texts + [text])[..|texts|] == texts && (outcomes + [ok])[..|texts|] == outcomes;
  }

  lemma {:induction false} SuccessesFewer(texts: seq<Bytes>, outcomes: seq<bool>)
    requires |texts| == |outcomes|
    ensures |Successes(texts, outcomes)| <= |texts|
  {
    if texts != [] {
      SuccessesFewer(texts[..|texts| - 1], outcomes[..|texts| - 1]);
    }
  }

  /** The output in the channel is what was read, in order, but for what was refused and
      what is not sent yet. */
  predicate OutputSide(s: State) {
    && |s.passed| <= |s.chunks|
    && s.unsent == Chunks(s.chunks[|s.passed|..])
    && OutputsOf(s.accepted) == Successes(s.chunks[..|s.passed|], s.passed)
  }

  function Chunks(data: seq<Bytes>): seq<Message> {
    seq(|data|, i requires 0 <= i < |data| => Output(data[i]))
  }

  lemma SendKeepsOutputSide(s: State, ok: bool, c: Config)
    requires LauncherSide(s, c) && OutputSide(s) && s.unsent != []
    ensures OutputSide(Do(s, SendChunk(ok), c))
  {
    hide OutputsOf, Successes, I.Inv;
    var (t, n) := (Do(s, SendChunk(ok), c), |s.passed|);
    assert |s.chunks| == n + 1 && s.unsent[0] == Output(s.chunks[n]);
    assert s.unsent == [Output(s.chunks[n])];
    OutputsSnoc(s.accepted, Output(s.chunks[n]));
    SuccessesSnoc(s.chunks[..n], s.passed, s.chunks[n], ok);
    assert t.chunks[..n + 1] == s.chunks[..n] + [s.chunks[n]];
    assert OutputsOf(s.accepted) + [] == OutputsOf(s.accepted);
  }

  lemma ReadKeepsOutputSide(s: State, data: Bytes, c: Config)
    requires OutputSide(s) && Enabled(s, ReadChunk(data), c)
    ensures OutputSide(Do(s, ReadChunk(data), c))
  {
    hide OutputsOf, Successes, I.Do;
    var t := Do(s, ReadChunk(data), c);
    assert |s.chunks| == |s.passed|;
    assert t.chunks[..|s.passed|] == s.chunks[..|s.passed|] && t.chunks[|s.passed|..] == [data];
    assert t.unsent == Chunks([data]);
  }

  lemma OutputSideKept(s: State, step: Step, c: Config)
    requires LauncherSide(s, c) && OutputSide(s) && Enabled(s, step, c)
    ensures OutputSide(Do(s, step, c))
  {
    hide I.Do, I.Inv, OutputsOf, Successes, TypeFirst, Answer, LauncherSide, Chunks;
    match step {
      case SendChunk(ok) => SendKeepsOutputSide(s, ok, c);
      case SendOther(msg) => OutputsSnoc(s.accepted, msg);
      case Notify(ok) => OutputsSnoc(s.accepted, Idle);
      case ReadChunk(data) => ReadKeepsOutputSide(s, data, c);
      case TypePrompt(ok) => TypingLeavesRest(s, ok);
      case _ =>
    }
  }

  /** Typing is no concern of the other parts. */
  lemma TypingLeavesRest(s: State, ok: bool)
    requires s.toPty != []
    ensures var t := TypeFirst(s, ok);
            t == s.(toPty := t.toPty, typing := t.typing, typed := t.typed)
  {
  }

  /** What a step of the detector does to the counts this side is about. */
  lemma DetectorStep(s: I.State, step: I.Step, timeout: nat)
    requires I.Inv(s, timeout) && I.Enabled(s, step)
    ensures var t := I.Do(s, step, timeout);
            && I.Inv(t, timeout)
            && t.starts <= (if step == I.Start then s.starts + 1 else s.starts)
            && t.resets <= (if step == I.Reset then s.resets + 1 else s.resets)
            && t.idles == (if step == I.Notify then s.idles + 1 else s.idles)
            && s.clock <= t.clock
  {
    I.InvKept(s, step, timeout);
  }

  lemma LauncherSideKept(s: State, step: Step, c: Config)
    requires LauncherSide(s, c) && Enabled(s, step, c)
    ensures LauncherSide(Do(s, step, c), c)
    ensures s.idle.clock <= Do(s, step, c).idle.clock
  {
    hide I.Do, I.Inv;
    match step {
      case Tick(time) => DetectorStep(s.idle, I.Tick(time), c.timeout);
      case Start => DetectorStep(s.idle, I.Start, c.timeout);
      case Stop => DetectorStep(s.idle, I.Stop, c.timeout);
      case ReadChunk(_) => DetectorStep(s.idle, I.Reset, c.timeout);
      case Expire => DetectorStep(s.idle, I.Expire, c.timeout);
      case Check => DetectorStep(s.idle, I.Check, c.timeout);
      case Notify(_) => DetectorStep(s.idle, I.Notify, c.timeout);
      case _ =>
    }
  }

  // ---------- the channel to the backend ----------

  /** The messages among these. */
  function MessagesOf(handled: seq<Incoming>): seq<Message> {
    if handled == [] then []
    else
      var last := handled[|handled| - 1];
      MessagesOf(handled[..|handled| - 1]) + if last.Received? then [last.msg] else []
  }

  lemma MessagesSnoc(handled: seq<Incoming>, r: Incoming)
    ensures MessagesOf(handled + [r]) == MessagesOf(handled) + if r.Received? then [r.msg] else []
  {
    assert (handled + [r])[..|handled|] == handled;
  }

  /** The idle message the loop has taken up and not decided on. */
  function InHand(s: State): seq<Message> {
    if s.phase == Enforcing then [Idle] else []
  }

  /** The channel is FIFO, and each idle message taken up is decided on once. */
  predicate ChannelSide(s: State) {
    && s.accepted == MessagesOf(s.handled) + InHand(s) + s.toBackend
    && s.idlesReceived + Idles(s.toBackend) == s.idlesSent
    && |s.claims| + s.turnedAway + |InHand(s)| == s.idlesReceived
  }

  lemma TakeFirst(ms: seq<Message>)
    requires ms != []
    ensures ms == [ms[0]] + ms[1..] && Idles(ms) == Idles(ms[1..]) + if ms[0].Idle? then 1 else 0
  {
  }

  lemma ReceiveKeepsChannelSide(s: State, c: Config)
    requires ChannelSide(s) && Enabled(s, Receive, c)
    ensures ChannelSide(Do(s, Receive, c))
  {
    hide MessagesOf, Idles;
    var (msg, rest) := (s.toBackend[0], s.toBackend[1..]);
    var done := MessagesOf(s.handled);
    TakeFirst(s.toBackend);
    MessagesSnoc(s.handled, Received(s.idle.clock, msg));
    assert done + [] + ([msg] + rest) == done + [msg] + rest == done + [msg] + [] + rest;
  }

  lemma PutKeepsChannelSide(s: State, t: State, m: Message)
    requires ChannelSide(s)
    requires t.handled == s.handled && InHand(t) == InHand(s) && t.claims == s.claims
    requires t.turnedAway == s.turnedAway && t.idlesReceived == s.idlesReceived
    requires t.accepted == s.accepted + [m] && t.toBackend == s.toBackend + [m]
    requires t.idlesSent == s.idlesSent + if m.Idle? then 1 else 0
    ensures ChannelSide(t)
  {
    hide MessagesOf, Idles;
    IdlesSnoc(s.toBackend, m);
    var done := MessagesOf(s.handled) + InHand(s);
    assert done + s.toBackend + [m] == done + (s.toBackend + [m]);
  }

  lemma ChannelSideKept(s: State, step: Step, c: Config)
    requires LauncherSide(s, c) && ChannelSide(s) && Enabled(s, step, c)
    ensures ChannelSide(Do(s, step, c))
  {
    hide I.Do, I.Inv, MessagesOf, Idles, Answer, TypeFirst;
    var t := Do(s, step, c);
    match step {
      case SendChunk(ok) =>
        assert s.unsent == [s.unsent[0]];
        if ok {
          PutKeepsChannelSide(s, t, s.unsent[0]);
        }
      case SendOther(msg) =>
        PutKeepsChannelSide(s, t, msg);
      case Notify(ok) =>
        if ok {
          PutKeepsChannelSide(s, t, Idle);
        }
      case Receive =>
        ReceiveKeepsChannelSide(s, c);
      case ReceiveBreaks =>
        MessagesSnoc(s.handled, ReceiveFails);
      case Decide =>
        MessagesSnoc(s.handled, Received(s.idle.clock, Idle));
      case TypePrompt(ok) =>
        TypingLeavesRest(s, ok);
      case _ =>
    }
  }

  // ---------- the backend is the launcher loop ----------

  function Wrapped(texts: seq<Bytes>): seq<Message> {
    seq(|texts|, i requires 0 <= i < |texts| => Type(Good(texts[i])))
  }

  /** The prompt that is due for the last run of the tools and not handed over yet. */
  function Due(s: State, w: World): seq<Bytes> {
    if s.phase == RunningTools && s.claims != [] then Answer(|s.claims| - 1, w)
    else if s.phase.Replying? then [s.phase.prompt]
    else []
  }

  const BEGINNING := Progress(FRESH, 0, [])

  /** The gate, the runs and the prompts are those of the launcher loop for the same
      messages, except that a run of the tools may not have come to its end. */
  predicate GateSide(s: State, w: World) {
    var times := L.IdleTimes(s.handled);
    var p := L.EnforceAll(BEGINNING, times, w);
    && s.claims == L.RunTimes(BEGINNING, times, w)
    && p.runs == |s.claims|
    && p.sent == Wrapped(s.attempted + Due(s, w))
    && (if s.phase == RunningTools then s.gate.running && s.claims != [] && p.gate == Released(ToolsEnd(s, w))
        else p.gate == s.gate)
  }

  /** The loop has met nothing that ends it, or has just ended. */
  predicate Lives(s: State) {
    && (s.phase != Gone ==> L.Continuing(s.handled))
    && (s.phase == Gone ==>
          && s.handled != []
          && var last := s.handled[|s.handled| - 1];
             L.Continuing(s.handled[..|s.handled| - 1]) && (last.ReceiveFails? || last.msg.Exited?))
  }

  predicate BackendSide(s: State, w: World) {
    Lives(s) && GateSide(s, w) && forall i :: 0 <= i < |s.claims| ==> s.claims[i] <= s.idle.clock
  }

  lemma WrappedAppend(a: seq<Bytes>, b: seq<Bytes>)
    ensures Wrapped(a + b) == Wrapped(a) + Wrapped(b)
  {
  }

  lemma OneMoreTime(times: seq<int>, now: int, w: World)
    ensures var p := L.EnforceAll(BEGINNING, times, w);
            && L.EnforceAll(BEGINNING, times + [now], w) == Enforce(p, now, w)
            && L.RunTimes(BEGINNING, times + [now], w) ==
               L.RunTimes(BEGINNING, times, w) + if MayClaim(p.gate, now) then [now] else []
  {
    var p := L.EnforceAll(BEGINNING, times, w);
    L.RunsAppend(BEGINNING, times, [now], w);
    assert [now][1..] == [];
    assert L.RunTimes(p, [now], w) == if MayClaim(p.gate, now) then [now] else [];
    assert L.EnforceAll(p, [now], w) == Enforce(p, now, w);
  }

  lemma HandledGrows(handled: seq<Incoming>, r: Incoming)
    requires L.Continuing(handled)
    ensures L.IdleTimes(handled + [r]) == L.IdleTimes(handled) + if r.Received? && r.msg.Idle? then [r.at] else []
    ensures L.Continuing(handled + [r]) <==> r.Received? && !r.msg.Exited?
    ensures (handled + [r])[..|handled|] == handled
  {
    hide L.IdleTimes;
    NoTimes();
    assert handled + [r] + [] == handled + [r];
    L.MessageCounts(handled, r, []);
    hide L.Continuing;
    ContinuingSnoc(handled, r);
  }

  lemma ContinuingSnoc(handled: seq<Incoming>, r: Incoming)
    requires L.Continuing(handled)
    ensures L.Continuing(handled + [r]) <==> r.Received? && !r.msg.Exited?
  {
    assert (handled + [r])[|handled|] == r;
  }

  lemma NoTimes()
    ensures L.IdleTimes([]) == []
  {
  }

  lemma DecideKeepsGateSide(s: State, c: Config)
    requires Lives(s) && GateSide(s, c.world) && Enabled(s, Decide, c)
    ensures GateSide(Do(s, Decide, c), c.world)
  {
    hide L.EnforceAll, L.RunTimes, L.IdleTimes, L.Continuing, Chosen;
    var t := Do(s, Decide, c);
    var now := s.idle.clock;
    var p := L.EnforceAll(BEGINNING, L.IdleTimes(s.handled), c.world);
    HandledGrows(s.handled, Received(now, Idle));
    OneMoreTime(L.IdleTimes(s.handled), now, c.world);
    assert s.attempted + [] == s.attempted;
    if MayClaim(s.gate, now) {
      WrappedAppend(s.attempted, Answer(p.runs, c.world));
      assert Due(t, c.world) == Answer(p.runs, c.world);
    } else {
      assert s.claims + [] == s.claims;
    }
  }

  lemma GateSideFrame(s: State, t: State, w: World)
    requires GateSide(s, w)
    requires L.IdleTimes(t.handled) == L.IdleTimes(s.handled) && t.claims == s.claims && t.gate == s.gate
    requires t.attempted == s.attempted && Due(t, w) == Due(s, w) && (t.phase == RunningTools <==> s.phase == RunningTools)
    ensures GateSide(t, w)
  {
  }

  lemma GateSideKept(s: State, step: Step, c: Config)
    requires Lives(s) && GateSide(s, c.world) && Enabled(s, step, c)
    ensures GateSide(Do(s, step, c), c.world)
  {
    hide I.Do, GateSide, L.IdleTimes, L.Continuing;
    var t := Do(s, step, c);
    match step {
      case Receive =>
        HandledGrows(s.handled, Received(s.idle.clock, s.toBackend[0]));
        GateSideFrame(s, t, c.world);
      case ReceiveBreaks =>
        HandledGrows(s.handled, ReceiveFails);
        GateSideFrame(s, t, c.world);
      case Decide =>
        DecideKeepsGateSide(s, c);
      case FinishTools =>
        FinishKeepsGateSide(s, c);
      case Reply(ok) =>
        ReplyKeepsGateSide(s, ok, c);
      case TypePrompt(ok) =>
        GateSideFrame(s, t, c.world);
      case _ =>
        GateSideFrame(s, t, c.world);
    }
  }

  lemma FinishKeepsGateSide(s: State, c: Config)
    requires GateSide(s, c.world) && Enabled(s, FinishTools, c)
    ensures GateSide(Do(s, FinishTools, c), c.world)
  {
    hide L.EnforceAll, L.RunTimes, L.IdleTimes, Chosen;
    assert Due(Do(s, FinishTools, c), c.world) == Due(s, c.world);
  }

  lemma ReplyKeepsGateSide(s: State, ok: bool, c: Config)
    requires GateSide(s, c.world) && Enabled(s, Reply(ok), c)
    ensures GateSide(Do(s, Reply(ok), c), c.world)
  {
    hide L.EnforceAll, L.RunTimes, L.IdleTimes;
    var t := Do(s, Reply(ok), c);
    assert t.attempted + Due(t, c.world) == s.attempted + Due(s, c.world);
  }

  lemma LivesKept(s: State, step: Step, c: Config)
    requires Lives(s) && Enabled(s, step, c)
    ensures Lives(Do(s, step, c))
  {
    hide I.Do, L.IdleTimes, L.Continuing, Answer;
    match step {
      case Receive => HandledGrows(s.handled, Received(s.idle.clock, s.toBackend[0]));
      case ReceiveBreaks => HandledGrows(s.handled, ReceiveFails);
      case Decide => HandledGrows(s.handled, Received(s.idle.clock, Idle));
      case TypePrompt(ok) =>
        assert TypeFirst(s, ok).handled == s.handled;
      case _ =>
    }
  }

  lemma BackendSideKept(s: State, step: Step, c: Config)
    requires LauncherSide(s, c) && BackendSide(s, c.world) && Enabled(s, step, c)
    ensures BackendSide(Do(s, step, c), c.world)
  {
    hide I.Do, I.Inv, Lives, GateSide, LauncherSide, Answer;
    LauncherSideKept(s, step, c);
    LivesKept(s, step, c);
    GateSideKept(s, step, c);
  }

  // ---------- the channel back ----------

  /** The channel back holds exactly the prompts not typed yet, in the order sent. */
  predicate PtySide(s: State) {
    && |s.attempted| == |s.outcomes| && s.prompts == Successes(s.attempted, s.outcomes)
    && s.typed <= s.prompts
    && (forall i :: 0 <= i < |s.toPty| ==> s.toPty[i].Type? && s.toPty[i].text.Good?)
    && (s.typing ==> s.toPty == Wrapped(s.prompts[|s.typed|..]))
  }

  lemma ReplyKeepsPtySide(s: State, ok: bool, c: Config)
    requires PtySide(s) && s.phase.Replying?
    ensures PtySide(Do(s, Reply(ok), c))
  {
    var t := Do(s, Reply(ok), c);
    SuccessesSnoc(s.attempted, s.outcomes, s.phase.prompt, ok);
    if s.typing && ok {
      assert t.prompts[|s.typed|..] == s.prompts[|s.typed|..] + [s.phase.prompt];
    }
  }

  lemma TypingKeepsPtySide(s: State, ok: bool)
    requires PtySide(s) && s.typing && s.toPty != []
    ensures PtySide(TypeFirst(s, ok))
  {
    hide Successes;
    var t := TypeFirst(s, ok);
    var waiting := s.prompts[|s.typed|..];
    assert s.toPty[0] == Type(Good(waiting[0]));
    assert s.prompts[|s.typed|] == waiting[0];
    if t.typing {
      assert t.prompts[|t.typed|..] == waiting[1..];
    }
  }

  lemma PtySideKept(s: State, step: Step, c: Config)
    requires PtySide(s) && Enabled(s, step, c)
    ensures PtySide(Do(s, step, c))
  {
    hide I.Do, PtySide, TypeFirst, Answer;
    match step {
      case Reply(ok) => ReplyKeepsPtySide(s, ok, c);
      case TypePrompt(ok) => TypingKeepsPtySide(s, ok);
      case _ => PtySideFrame(s, Do(s, step, c));
    }
  }

  lemma PtySideFrame(s: State, t: State)
    requires PtySide(s) && t.attempted == s.attempted && t.outcomes == s.outcomes
    requires t.typed == s.typed && t.prompts == s.prompts && t.toPty == s.toPty && t.typing == s.typing
    ensures PtySide(t)
  {
  }

  // ---------- the invariant ----------

  predicate Inv(s: State, c: Config) {
    LauncherSide(s, c) && OutputSide(s) && ChannelSide(s) && BackendSide(s, c.world) && PtySide(s)
  }

  lemma InitialInv(s: State, c: Config)
    requires Initial(s)
    ensures Inv(s, c)
  {
    assert s.prompts[0..] == [];
  }

  lemma {:induction false} InvHolds(run: seq<State>, c: Config, n: nat)
    requires IsRun(run, c) && n < |run|
    ensures Inv(run[n], c)
  {
    hide Initial, Enabled, Do, LauncherSide, OutputSide, ChannelSide, BackendSide, PtySide;
    if n > 0 {
      InvHolds(run, c, n - 1);
      var s := run[n - 1];
      assert Successor(s, run[n], c);
      var step :| Enabled(s, step, c) && run[n] == Do(s, step, c);
      LauncherSideKept(s, step, c);
      OutputSideKept(s, step, c);
      ChannelSideKept(s, step, c);
      BackendSideKept(s, step, c);
      PtySideKept(s, step, c);
    } else {
      InitialInv(run[0], c);
    }
  }

  // ---------- whole sessions ----------

  /** In every state of every session, what the backend has done is what HandleLauncher
      does with the messages the backend has acted on: the tools were started exactly
      at the same times, the same prompts were handed over, but for one that may still
      be due, and the gate is the same, but for a run under way. */
  lemma BackendIsLauncherLoop(run: seq<State>, c: Config, n: nat)
    requires IsRun(run, c) && n < |run|
    ensures var s := run[n];
            var p := L.Serve(Progress(FRESH, 0, []), Forever, s.handled, c.world).progress;
            && s.claims == L.RunTimes(Progress(FRESH, 0, []), L.IdleTimes(s.handled), c.world)
            && p.runs == |s.claims|
            && p.sent == Wrapped(s.attempted + Due(s, c.world))
            && (s.phase != RunningTools ==> p.gate == s.gate)
  {
    hide L.EnforceAll, L.RunTimes, L.IdleTimes, L.Serve, Due;
    InvHolds(run, c, n);
    L.ServeIsEnforceAll(BEGINNING, run[n].handled, c.world);
  }

  /** The channel to the backend loses and reorders nothing: the messages it took are
      those acted on, then the one in hand, then those still in it; and the loop has
      ended exactly if the last one acted on ends it. */
  lemma HandledInOrder(run: seq<State>, c: Config, n: nat)
    requires IsRun(run, c) && n < |run|
    ensures var s := run[n];
            && s.accepted == MessagesOf(s.handled) + InHand(s) + s.toBackend
            && (s.phase == Gone <==> !L.Continuing(s.handled))
            && (s.handled != [] ==> L.Continuing(s.handled[..|s.handled| - 1]))
  {
    InvHolds(run, c, n);
    var s := run[n];
    if s.phase == Gone {
      assert !L.Continuing(s.handled) by {
        assert s.handled[|s.handled| - 1].ReceiveFails? || s.handled[|s.handled| - 1].msg.Exited?;
      }
    }
  }

  /** The client's output reaches the channel whole and in order, as far as it is not
      refused: what the channel took are the chunks that were read, without those
      refused and the one not sent yet. */
  lemma OutputInOrder(run: seq<State>, c: Config, n: nat)
    requires IsRun(run, c) && n < |run|
    ensures var (s, done) := (run[n], |run[n].passed|);
            && done <= |s.chunks| <= done + 1
            && OutputsOf(s.accepted) == Successes(s.chunks[..done], s.passed)
            && (done < |s.chunks| ==> s.unsent == [Output(s.chunks[done])])
  {
    hide OutputsOf, Successes;
    InvHolds(run, c, n);
    if |run[n].passed| < |run[n].chunks| {
      assert run[n].unsent[0] == Output(run[n].chunks[|run[n].passed|]);
    }
  }

  /** Every call of onIdle is accounted for: its message was refused, is in the channel,
      started the tools, came within the cooldown, or is about to be decided on. */
  lemma IdlesAccounted(run: seq<State>, c: Config, n: nat)
    requires IsRun(run, c) && n < |run|
    ensures var s := run[n];
            s.idle.idles == s.idlesLost + Idles(s.toBackend) + |s.claims| + s.turnedAway +
                            if s.phase == Enforcing then 1 else 0
  {
    InvHolds(run, c, n);
  }

  /** Every run of the tools is accounted for too: by a prompt sent, a prompt refused, one
      still due, or a reply that cannot be encoded. */
  lemma RunsAnswered(run: seq<State>, c: Config, n: nat)
    requires IsRun(run, c) && n < |run|
    ensures var s := run[n];
            && Wrapped(s.attempted + Due(s, c.world)) == L.Replies(0, |s.claims|, c.world)
            && |s.attempted| == |s.outcomes| && s.prompts == Successes(s.attempted, s.outcomes)
  {
    hide L.EnforceAll, L.RunTimes, L.IdleTimes, Due;
    InvHolds(run, c, n);
    var times := L.IdleTimes(run[n].handled);
    L.PromptsAnswerRuns(BEGINNING, times, c.world);
    assert [] + L.Replies(0, |run[n].claims|, c.world) == L.Replies(0, |run[n].claims|, c.world);
  }

  /** Nothing is typed that a prompt does not ask for, no prompt is sent without a run
      of the tools, no run starts without an idle message, no idle message is sent
      unless the timer expired, and the timer expires at most once, and once more
      for each chunk of output. */
  lemma PromptBudget(run: seq<State>, c: Config, n: nat)
    requires IsRun(run, c) && n < |run|
    ensures var s := run[n];
            && |s.typed| <= |s.prompts| <= |s.claims| <= s.idlesReceived <= s.idlesSent
            && s.idlesSent <= s.idle.idles <= |s.idle.expiries| <= 1 + |s.chunks|
  {
    hide L.EnforceAll, L.RunTimes, L.IdleTimes;
    InvHolds(run, c, n);
    L.RunsAndPrompts(BEGINNING, L.IdleTimes(run[n].handled), c.world);
    SuccessesFewer(run[n].attempted, run[n].outcomes);
  }

  /** Prompts are typed in the order in which they were sent, without gaps, and while
      the second pipe works, every prompt sent is typed or in the channel. */
  lemma TypedInOrder(run: seq<State>, c: Config, n: nat)
    requires IsRun(run, c) && n < |run|
    ensures run[n].typed <= run[n].prompts
    ensures run[n].typing ==> run[n].toPty == Wrapped(run[n].prompts[|run[n].typed|..])
  {
    InvHolds(run, c, n);
  }

  /** Only prompts ever come back from the backend. The launcher sends its own shutdown
      message the other way, where it is ignored, so no shutdown ends the second pipe. */
  lemma OnlyPromptsComeBack(run: seq<State>, c: Config, n: nat)
    requires IsRun(run, c) && n < |run|
    ensures forall m <- run[n].toPty :: m.Type? && m.text.Good?
    ensures Shutdown !in run[n].toPty
  {
    InvHolds(run, c, n);
  }

  lemma {:induction false} AllWithin(xs: seq<int>, lo: int, hi: int)
    requires forall i :: 0 <= i < |xs| ==> lo <= xs[i] <= hi
    ensures CountWithin(xs, lo, hi) == |xs|
  {
    if xs != [] {
      AllWithin(xs[..|xs| - 1], lo, hi);
    }
  }

  /** Nothing happened before `lo`. */
  predicate Since(s: State, lo: int) {
    && lo <= s.idle.clock
    && (forall i :: 0 <= i < |s.claims| ==> lo <= s.claims[i])
    && (forall i :: 0 <= i < |s.idle.expiries| ==> lo <= s.idle.expiries[i])
  }

  lemma SinceKept(s: State, step: Step, c: Config, lo: int)
    requires Since(s, lo) && Enabled(s, step, c)
    ensures Since(Do(s, step, c), lo)
  {
    hide Answer, TypeFirst;
    var t := Do(s, step, c);
    if step.Decide? {
      assert t.idle == s.idle;
    } else if step.TypePrompt? {
      TypingLeavesRest(s, step.ok);
    } else {
      assert t.claims == s.claims;
    }
  }

  lemma {:induction false} ClockForward(run: seq<State>, c: Config, n: nat)
    requires IsRun(run, c) && n < |run|
    ensures Since(run[n], run[0].idle.clock)
  {
    hide Enabled, Do, Since;
    if n > 0 {
      ClockForward(run, c, n - 1);
      assert Successor(run[n - 1], run[n], c);
      var step :| Enabled(run[n - 1], step, c) && run[n] == Do(run[n - 1], step, c);
      SinceKept(run[n - 1], step, c, run[0].idle.clock);
    } else {
      NothingYet(run[0]);
    }
  }

  lemma NothingYet(s: State)
    requires Initial(s)
    ensures Since(s, s.idle.clock)
  {
  }

  /** In a session of length L at most 1 + floor(L / cooldown) prompts are typed. */
  lemma PromptRate(run: seq<State>, c: Config, n: nat)
    requires IsRun(run, c) && n < |run|
    ensures |run[n].typed| <= 1 + (run[n].idle.clock - run[0].idle.clock) / 30_000_000_000
  {
    hide L.EnforceAll, L.RunTimes, L.IdleTimes;
    var s := run[n];
    InvHolds(run, c, n);
    PromptBudget(run, c, n);
    ClockForward(run, c, n);
    L.RunsApart(BEGINNING, L.IdleTimes(s.handled), c.world);
    AllWithin(s.claims, run[0].idle.clock, s.idle.clock);
    WindowBound(s.claims, COOLDOWN, run[0].idle.clock, s.idle.clock);
  }

  /** And at most 1 + floor(L / timeout) idle messages are sent, if there is a timeout. */
  lemma IdleRate(run: seq<State>, c: Config, n: nat)
    requires IsRun(run, c) && n < |run| && c.timeout > 0
    ensures run[n].idlesSent <= 1 + (run[n].idle.clock - run[0].idle.clock) / c.timeout
  {
    hide OutputSide, ChannelSide, BackendSide, PtySide, IsRun;
    var s := run[n];
    InvHolds(run, c, n);
    ClockForward(run, c, n);
    assert forall i :: 0 <= i < |s.idle.expiries| ==> s.idle.expiries[i] <= s.idle.clock;
    AllWithin(s.idle.expiries, run[0].idle.clock, s.idle.clock);
    WindowBound(s.idle.expiries, c.timeout, run[0].idle.clock, s.idle.clock);
  }

  /** A step of the session is a step of the detector, or leaves it alone. */
  lemma IdleSteps(s: State, step: Step, c: Config)
    requires Enabled(s, step, c)
    ensures var t := Do(s, step, c);
            && (t.idle == s.idle || I.Successor(s.idle, t.idle, c.timeout))
            && s.idle.clock <= t.idle.clock
  {
  }

  /** Once a chunk of output has been read while the detector is running, the timer does
      not expire until the timeout is over. */
  lemma {:induction false} QuietAfterChunk(s: State, data: Bytes, run: seq<State>, c: Config, n: nat)
    requires s.idle.detector.running && Enabled(s, ReadChunk(data), c)
    requires Follow(run, c) && n < |run| && run[0] == Do(s, ReadChunk(data), c)
    requires run[n].idle.clock < s.idle.clock + c.timeout
    ensures run[n].idle.expiries == s.idle.expiries
    ensures run[n].idle.idles <= s.idle.idles + s.idle.passed + s.idle.checking
    ensures I.QuietSince(s.idle, run[n].idle, c.timeout)
  {
    hide Do, Enabled, I.Do;
    if n > 0 {
      assert Successor(run[n - 1], run[n], c);
      var step :| Enabled(run[n - 1], step, c) && run[n] == Do(run[n - 1], step, c);
      IdleSteps(run[n - 1], step, c);
      QuietAfterChunk(s, data, run, c, n - 1);
      if run[n].idle != run[n - 1].idle {
        I.QuietKept(s.idle, run[n - 1].idle, run[n].idle, c.timeout);
      }
    } else {
      ChunkResets(s, data, c);
    }
  }

  lemma ChunkResets(s: State, data: Bytes, c: Config)
    requires s.idle.detector.running && Enabled(s, ReadChunk(data), c)
    ensures I.QuietSince(s.idle, Do(s, ReadChunk(data), c).idle, c.timeout)
  {
  }

  // ---------- a session in which a prompt is typed ----------

  lemma RunExtends(run: seq<State>, step: Step, c: Config) returns (longer: seq<State>)
    requires IsRun(run, c) && run != [] && Enabled(run[|run| - 1], step, c)
    ensures IsRun(longer, c) && longer == run + [Do(run[|run| - 1], step, c)]
  {
    longer := run + [Do(run[|run| - 1], step, c)];
    forall i | 0 <= i < |longer| - 1 ensures Successor(longer[i], longer[i + 1], c) {
      if i < |run| - 1 {
        assert longer[i] == run[i] && longer[i + 1] == run[i + 1];
      }
    }
  }

  const OUTSET := State(
    I.State(D.UNSTARTED, 0, 0, 0, 0, 0, 0, 0, 0, 0, []), [], [], [], [], [], 0, 0,
    Receiving, FRESH, [], 0, 0, [], [], [], [], [], true, [])

  /** The client stays silent for the timeout, and the backend gets to know. */
  lemma FirstIdle(c: Config) returns (run: seq<State>)
    ensures IsRun(run, c) && run != []
    ensures var s := run[|run| - 1];
            s == OUTSET.(idle := s.idle, accepted := [Idle], toBackend := [Idle], idlesSent := 1)
    ensures run[|run| - 1].idle.clock == c.timeout
  {
    run := [OUTSET];
    run := RunExtends(run, Start, c);
    run := RunExtends(run, Tick(c.timeout), c);
    run := RunExtends(run, Expire, c);
    run := RunExtends(run, Check, c);
    run := RunExtends(run, Notify(true), c);
  }

  lemma TickSets(s: I.State, time: int, timeout: nat)
    requires s.clock <= time
    ensures I.Do(s, I.Tick(time), timeout) == s.(clock := time)
  {
  }

  /** The backend takes the message up, claims the gate and runs the tools, which have
      something to say. */
  lemma FirstReply(c: Config) returns (run: seq<State>)
    requires !c.world.run(0).unencodable
    ensures IsRun(run, c) && run != []
    ensures var (s, prompt) := (run[|run| - 1], c.world.render(0, Chosen(c.world.run(0).results)));
            s.typed == [] && s.typing && s.toPty == [Type(Good(prompt))]
  {
    hide I.Do, Chosen, IsRun;
    run := FirstIdle(c);
    run := RunExtends(run, Receive, c);
    run := RunExtends(run, Decide, c);
    var end := c.timeout + c.world.run(0).duration;
    TickSets(run[|run| - 1].idle, end, c.timeout);
    run := RunExtends(run, Tick(end), c);
    run := RunExtends(run, FinishTools, c);
    run := RunExtends(run, Reply(true), c);
  }

  /** Whatever the tools report in the first run, there is a session in which the prompt
      about it is typed, provided that it can be encoded. */
  lemma PromptIsTyped(c: Config) returns (run: seq<State>)
    requires !c.world.run(0).unencodable
    ensures IsRun(run, c)
    ensures run[|run| - 1].typed == [c.world.render(0, Chosen(c.world.run(0).results))]
  {
    run := FirstReply(c);
    run := RunExtends(run, TypePrompt(true), c);
  }
}
