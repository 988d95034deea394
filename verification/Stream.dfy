/** internal/launcher/stream.go: the two pipes between the PTY and the backend. */
module Stream {
  import opened Bytes
  import opened Io
  import opened Proto

  const READ_BUF_SIZE: nat := 65536

  /** How a pipe ends. */
  datatype Ending =
    | Finished           // nil
    | ContextDone
    | SendFailed
    | ReadFailed
    | ReceiveFailed
    | WriteFailed

  // ---------- PTY to backend ----------

  /** Takes messages for the backend; the n-th may be refused. */
  class Sender {
    const fails: nat -> bool
    var sent: seq<Message>

    constructor (fails: nat -> bool)
      ensures this.fails == fails && sent == []
    {
      this.fails := fails;
      sent := [];
    }

    method Send(m: Message) returns (failed: bool)
      modifies this
      ensures sent == old(sent) + [m] && failed == fails(|old(sent)|)
    {
      failed := fails(|sent|);
      sent := sent + [m];
    }
  }

  /** What a resetter is told: how often the idle window was extended. */
  class Resetter {
    var resets: nat

    constructor ()
      ensures resets == 0
    {
      resets := 0;
    }

    method Reset()
      modifies this
      ensures resets == old(resets) + 1
    {
      resets := resets + 1;
    }
  }

  datatype Forwarded = Forwarded(sent: seq<Message>, ending: Ending, unread: seq<ReadOutcome>, patience: Patience)

  function Forward(sent: seq<Message>, patience: Patience, ins: seq<ReadOutcome>, fails: nat -> bool): Forwarded
    decreases |ins|
  {
    if Exhausted(patience) then Forwarded(sent, ContextDone, ins, patience)
    else
      var now := Head(ins);
      var more := if now.data == [] then sent else sent + [Output(now.data)];
      if now.data != [] && fails(|sent|) then Forwarded(more, SendFailed, Rest(ins), Asked(patience))
      else if now.err == Eof then Forwarded(more, Finished, Rest(ins), Asked(patience))
      else if now.err != NoError then Forwarded(more, ReadFailed, Rest(ins), Asked(patience))
      else Forward(more, Asked(patience), Rest(ins), fails)
  }

  /** Forwards what the PTY prints, one message and one reset for each read. */
  method PipePtyToBackend(ctx: Context, sender: Sender, r: Reader, resetter: Resetter) returns (ending: Ending)
    requires Fits(r.script, READ_BUF_SIZE)
    modifies ctx, sender, r, resetter
    ensures Forwarded(sender.sent, ending, r.script, ctx.patience) ==
            Forward(old(sender.sent), old(ctx.patience), old(r.script), sender.fails)
    ensures resetter.resets - old(resetter.resets) == |sender.sent| - |old(sender.sent)|
  {
    var buf := new Byte[READ_BUF_SIZE];
    ghost var whole := Forward(sender.sent, ctx.patience, r.script, sender.fails);
    while true
      invariant fresh(buf) && Fits(r.script, buf.Length)
      invariant whole == Forward(sender.sent, ctx.patience, r.script, sender.fails)
      invariant resetter.resets - old(resetter.resets) == |sender.sent| - |old(sender.sent)|
      decreases |r.script|
    {
      var cancelled := ctx.Err();
      if cancelled {
        return ContextDone;
      }
      var n, err := r.Read(buf);
      if n > 0 {
        resetter.Reset();
        var data := buf[..n];
        var failed := sender.Send(Output(data));
        if failed {
          return SendFailed;
        }
      }
      if err != NoError {
        if err == Eof {
          return Finished;
        }
        return ReadFailed;
      }
    }
  }

  function PayloadOf(m: Message): Bytes {
    if m.Output? then m.data else []
  }

  function Payloads(ms: seq<Message>): Bytes {
    if ms == [] then [] else Payloads(ms[..|ms| - 1]) + PayloadOf(ms[|ms| - 1])
  }

  /** The first `n` messages were there before; the others are nonempty chunks. */
  predicate OnlyChunks(ms: seq<Message>, n: nat) {
    forall i :: n <= i < |ms| ==> ms[i].Output? && 1 <= |ms[i].data| <= 65536
  }

  /** What is sent are nonempty chunks, and sending stops at the first refusal. */
  lemma {:induction false} ForwardChunks(
      sent: seq<Message>, patience: Patience, ins: seq<ReadOutcome>, fails: nat -> bool)
    requires Fits(ins, READ_BUF_SIZE)
    ensures var f := Forward(sent, patience, ins, fails);
            && sent <= f.sent && OnlyChunks(f.sent, |sent|)
            && (forall i :: |sent| <= i < |f.sent| - 1 ==> !fails(i))
            && (f.ending == SendFailed <==> |f.sent| > |sent| && fails(|f.sent| - 1))
            && f.ending in {Finished, ContextDone, SendFailed, ReadFailed}
    decreases |ins|
  {
    if !Exhausted(patience) {
      var now := Head(ins);
      if now.err == NoError && (now.data == [] || !fails(|sent|)) {
        var more := if now.data == [] then sent else sent + [Output(now.data)];
        ForwardChunks(more, Asked(patience), ins[1..], fails);
      }
    }
  }

  lemma PayloadsLast(ms: seq<Message>, m: Message)
    ensures Payloads(ms + [m]) == Payloads(ms) + PayloadOf(m)
  {
    assert (ms + [m])[..|ms|] == ms;
  }

  lemma PayloadsSnoc(ms: seq<Message>, data: Bytes)
    ensures Payloads(ms + [Output(data)]) == Payloads(ms) + data
  {
    PayloadsLast(ms, Output(data));
  }

  lemma Between(a: Bytes, b: Bytes, c: Bytes, p: Bytes)
    requires a + b <= p <= a + b + c
    ensures a <= p <= a + (b + c)
    ensures p == a + b + c ==> p == a + (b + c)
  {
    assert a + b + c == a + (b + c);
    assert forall i :: 0 <= i < |a| ==> a[i] == (a + b)[i];
  }

  /** Bytes are neither invented, lost nor reordered: the payloads are a prefix of what
      was read, and all of it if the pipe finished. */
  lemma {:induction false} ForwardConserves(
      sent: seq<Message>, patience: Patience, ins: seq<ReadOutcome>, fails: nat -> bool)
    ensures var f := Forward(sent, patience, ins, fails);
            && Payloads(sent) <= Payloads(f.sent) <= Payloads(sent) + Drain(ins).data
            && (f.ending == Finished ==> Payloads(f.sent) == Payloads(sent) + Drain(ins).data && Drain(ins).err == Eof)
    decreases |ins|
  {
    hide Payloads;
    if !Exhausted(patience) {
      var now := Head(ins);
      var more := if now.data == [] then sent else sent + [Output(now.data)];
      PayloadsSnoc(sent, now.data);
      assert Payloads(more) == Payloads(sent) + now.data;
      if now.err == NoError && (now.data == [] || !fails(|sent|)) {
        var rest := Drain(ins[1..]);
        ForwardConserves(more, Asked(patience), ins[1..], fails);
        Between(Payloads(sent), now.data, rest.data, Payloads(Forward(more, Asked(patience), ins[1..], fails).sent));
      } else if now.err == NoError {
        assert Drain(ins).data == now.data + Drain(ins[1..]).data;
        Between(Payloads(sent), now.data, Drain(ins[1..]).data, Payloads(more));
      }
    }
  }

  /** The messages for these reads: one for each that brings data. */
  function Chunks(ins: seq<ReadOutcome>): seq<Message> {
    if ins == [] then []
    else (if ins[0].data == [] then [] else [Output(ins[0].data)]) + Chunks(ins[1..])
  }

  /** None of the messages numbered `from` up to `to` is refused. */
  predicate Accepts(fails: nat -> bool, from: nat, to: nat) {
    forall i :: from <= i < to ==> !fails(i)
  }

  /** Ordinary reads are passed on, one message each, and the pipe goes on. */
  lemma {:induction false} ForwardPasses(
      sent: seq<Message>, patience: Patience, a: seq<ReadOutcome>, b: seq<ReadOutcome>, fails: nat -> bool)
    requires Ordinary(a) && Lasts(patience, |a|) && Accepts(fails, |sent|, |sent| + |Chunks(a)|)
    ensures Forward(sent, patience, a + b, fails) == Forward(sent + Chunks(a), Later(patience, |a|), b, fails)
    decreases |a|
  {
    if a == [] {
      assert a + b == b && sent + [] == sent;
    } else {
      assert (a + b)[1..] == a[1..] + b;
      var more := if a[0].data == [] then sent else sent + [Output(a[0].data)];
      assert more + Chunks(a[1..]) == sent + Chunks(a);
      ForwardPasses(more, Asked(patience), a[1..], b, fails);
    }
  }

  /** Cancelled after `n` polls, the pipe has consumed and forwarded exactly `n` reads,
      if these are ordinary and none of their messages is refused. */
  lemma ForwardCancelled(sent: seq<Message>, a: seq<ReadOutcome>, b: seq<ReadOutcome>, fails: nat -> bool)
    requires Ordinary(a) && Accepts(fails, |sent|, |sent| + |Chunks(a)|)
    ensures Forward(sent, For(|a|), a + b, fails) == Forwarded(sent + Chunks(a), ContextDone, b, For(0))
  {
    ForwardPasses(sent, For(|a|), a, b, fails);
  }

  /** Not cancelled before, it stops with the first error and no sooner, having
      forwarded the data that came with it; only end of input counts as success. */
  lemma ForwardStops(
      sent: seq<Message>, patience: Patience, a: seq<ReadOutcome>, last: ReadOutcome, b: seq<ReadOutcome>,
      fails: nat -> bool)
    requires Ordinary(a) && last.err != NoError && Lasts(patience, |a| + 1)
    requires Accepts(fails, |sent|, |sent| + |Chunks(a)| + |Chunks([last])|)
    ensures Forward(sent, patience, a + [last] + b, fails) ==
            Forwarded(sent + Chunks(a) + Chunks([last]), if last.err == Eof then Finished else ReadFailed, b,
                      Later(patience, |a| + 1))
  {
    assert a + [last] + b == a + ([last] + b);
    assert [last][1..] == [] && ([last] + b)[1..] == b;
    ForwardPasses(sent, patience, a, [last] + b, fails);
    assert sent + Chunks(a) + [] == sent + Chunks(a);
  }

  /** A refused message is the last thing it does. */
  lemma ForwardRefused(
      sent: seq<Message>, patience: Patience, a: seq<ReadOutcome>, now: ReadOutcome, b: seq<ReadOutcome>,
      fails: nat -> bool)
    requires Ordinary(a) && now.data != [] && Lasts(patience, |a| + 1)
    requires Accepts(fails, |sent|, |sent| + |Chunks(a)|) && fails(|sent| + |Chunks(a)|)
    ensures Forward(sent, patience, a + [now] + b, fails) ==
            Forwarded(sent + Chunks(a) + [Output(now.data)], SendFailed, b, Later(patience, |a| + 1))
  {
    assert a + [now] + b == a + ([now] + b);
    assert ([now] + b)[1..] == b;
    ForwardPasses(sent, patience, a, [now] + b, fails);
  }

  lemma NoPayload()
    ensures Payloads([]) == []
  {
  }

  lemma {:induction false} PayloadsAppend(ms: seq<Message>, more: seq<Message>)
    ensures Payloads(ms + more) == Payloads(ms) + Payloads(more)
  {
    hide Payloads, PayloadOf;
    if more == [] {
      NoPayload();
      assert ms + more == ms;
    } else {
      var (front, last) := (more[..|more| - 1], more[|more| - 1]);
      PayloadsAppend(ms, front);
      PayloadsLast(front, last);
      PayloadsLast(ms + front, last);
      Regroup(ms, front, last, Payloads(ms), Payloads(front), PayloadOf(last));
      assert more == front + [last];
    }
  }

  lemma Regroup(ms: seq<Message>, front: seq<Message>, last: Message, a: Bytes, b: Bytes, c: Bytes)
    ensures ms + (front + [last]) == (ms + front) + [last] && a + (b + c) == a + b + c
  {
  }

  lemma {:induction false} ChunksCarryData(ins: seq<ReadOutcome>)
    ensures Payloads(Chunks(ins)) == AllData(ins)
  {
    if ins != [] {
      ChunksCarryData(ins[1..]);
      var first := if ins[0].data == [] then [] else [Output(ins[0].data)];
      PayloadsAppend(first, Chunks(ins[1..]));
      PayloadsSnoc([], ins[0].data);
      assert [] + [Output(ins[0].data)] == [Output(ins[0].data)];
    }
  }

  lemma {:induction false} ChunksAppend(a: seq<ReadOutcome>, b: seq<ReadOutcome>)
    ensures Chunks(a + b) == Chunks(a) + Chunks(b)
    decreases |a|
  {
    if a == [] {
      assert a + b == b;
    } else {
      assert (a + b)[1..] == a[1..] + b;
      ChunksAppend(a[1..], b);
    }
  }

  /** As long as nothing is refused: a context that is cancelled before the first error
      ends the pipe with exactly as many reads consumed and forwarded as it was asked;
      otherwise everything the reader delivers is forwarded, and the pipe succeeds
      exactly if the reader ends with Eof. */
  lemma ForwardEnds(sent: seq<Message>, patience: Patience, ins: seq<ReadOutcome>, fails: nat -> bool)
    requires Accepts(fails, |sent|, |sent| + |Chunks(ins)|)
    ensures var f := Forward(sent, patience, ins, fails);
            if patience.For? && patience.polls <= |ins| && Ordinary(ins[..patience.polls]) then
              && f.ending == ContextDone && f.unread == ins[patience.polls..]
              && Payloads(f.sent) == Payloads(sent) + AllData(ins[..patience.polls])
            else
              && f.ending == (if Drain(ins).err == Eof then Finished else ReadFailed)
              && Payloads(f.sent) == Payloads(sent) + Drain(ins).data
  {
    hide Forward, Payloads;
    if patience.For? && patience.polls <= |ins| && Ordinary(ins[..patience.polls]) {
      var (a, b) := (ins[..patience.polls], ins[patience.polls..]);
      assert ins == a + b;
      ChunksAppend(a, b);
      ForwardCancelled(sent, a, b, fails);
      ChunksCarryData(a);
      PayloadsAppend(sent, Chunks(a));
    } else {
      ForwardRunsOut(sent, patience, ins, fails);
    }
  }

  lemma OrdinaryBefore(ins: seq<ReadOutcome>, n: nat)
    requires n <= |ins| && Ordinary(ins[..n])
    ensures forall k :: 0 <= k <= n ==> Ordinary(ins[..k])
  {
    forall k | 0 <= k <= n ensures Ordinary(ins[..k]) {
      assert forall i :: 0 <= i < k ==> ins[..k][i] == ins[..n][i];
    }
  }

  lemma ForwardRunsOut(sent: seq<Message>, patience: Patience, ins: seq<ReadOutcome>, fails: nat -> bool)
    requires Accepts(fails, |sent|, |sent| + |Chunks(ins)|)
    requires !(patience.For? && patience.polls <= |ins| && Ordinary(ins[..patience.polls]))
    ensures var f := Forward(sent, patience, ins, fails);
            && f.ending == (if Drain(ins).err == Eof then Finished else ReadFailed)
            && Payloads(f.sent) == Payloads(sent) + Drain(ins).data
  {
    hide Payloads, Forward, Drain, Chunks, Ordinary;
    var n := FirstError(ins);
    var a := ins[..n];
    OrdinaryBefore(ins, n);
    if n < |ins| {
      assert ins == a + [ins[n]] + ins[n + 1..];
      ForwardToError(sent, patience, a, ins[n], ins[n + 1..], fails);
    } else {
      assert ins == a && ins[..|ins|] == ins;
      ForwardToEnd(sent, patience, a, fails);
    }
  }

  lemma ForwardToError(
      sent: seq<Message>, patience: Patience, a: seq<ReadOutcome>, last: ReadOutcome, b: seq<ReadOutcome>,
      fails: nat -> bool)
    requires Ordinary(a) && last.err != NoError && Lasts(patience, |a| + 1)
    requires Accepts(fails, |sent|, |sent| + |Chunks(a + [last] + b)|)
    ensures var ins := a + [last] + b;
            var f := Forward(sent, patience, ins, fails);
            && f.ending == (if Drain(ins).err == Eof then Finished else ReadFailed)
            && Payloads(f.sent) == Payloads(sent) + Drain(ins).data
  {
    hide Payloads, Forward, Drain;
    ChunksAppend(a, [last]);
    ChunksAppend(a + [last], b);
    ForwardStops(sent, patience, a, last, b, fails);
    DrainedExactly(a, last, b);
    ChunksCarryData(a);
    ChunksCarryData([last]);
    PayloadsAppend(sent, Chunks(a));
    PayloadsAppend(sent + Chunks(a), Chunks([last]));
    assert AllData([last]) == last.data + [];
    assert Payloads(sent) + AllData(a) + last.data == Payloads(sent) + (AllData(a) + last.data);
  }

  lemma ForwardToEnd(sent: seq<Message>, patience: Patience, a: seq<ReadOutcome>, fails: nat -> bool)
    requires Ordinary(a) && Lasts(patience, |a| + 1) && Accepts(fails, |sent|, |sent| + |Chunks(a)|)
    ensures var f := Forward(sent, patience, a, fails);
            f.ending == Finished && Drain(a).err == Eof && Payloads(f.sent) == Payloads(sent) + Drain(a).data
  {
    hide Payloads, Drain;
    assert a + [] == a;
    ForwardPasses(sent, patience, a, [], fails);
    DrainedExactly(a, ReadOutcome([], Eof), []);
    ChunksCarryData(a);
    PayloadsAppend(sent, Chunks(a));
  }

  // ---------- backend to PTY ----------

  datatype Replied = Got(msg: Message) | Broken

  /** The launcher's end of the connection: what is still to be received. */
  class Receiver {
    var script: seq<Replied>

    constructor (script: seq<Replied>)
      ensures this.script == script
    {
      this.script := script;
    }

    method Receive() returns (r: Replied)
      modifies this
      ensures r == (if old(script) == [] then Broken else old(script)[0]) && script == Rest(old(script))
    {
      if script == [] {
        return Broken;
      }
      r := script[0];
      script := script[1..];
    }
  }

  /** The PTY: bytes typed into it, and how often it was interrupted. */
  class Pty {
    const writer: Writer
    var interrupts: nat

    constructor (writer: Writer)
      ensures this.writer == writer && interrupts == 0
    {
      this.writer := writer;
      interrupts := 0;
    }

    method Interrupt()
      modifies this
      ensures interrupts == old(interrupts) + 1
    {
      interrupts := interrupts + 1;
    }
  }

  datatype Typed = Typed(
    written: Bytes, outs: seq<WriteOutcome>, interrupts: nat, ending: Ending, unread: seq<Replied>, patience: Patience)

  /** What each message does to the PTY, until one ends the pipe. */
  function Typing(written: Bytes, outs: seq<WriteOutcome>, interrupts: nat, patience: Patience, script: seq<Replied>): Typed
    decreases |script|
  {
    if Exhausted(patience) then Typed(written, outs, interrupts, ContextDone, script, patience)
    else if script == [] || script[0].Broken? then
      Typed(written, outs, interrupts, ReceiveFailed, Rest(script), Asked(patience))
    else
      match script[0].msg
      case Type(Good(text)) =>
        var d := Deliver([text, [CR]], outs);
        if d.err != NoError then Typed(written + d.bytes, d.rest, interrupts, WriteFailed, Rest(script), Asked(patience))
        else Typing(written + d.bytes, d.rest, interrupts, Asked(patience), Rest(script))
      case CtrlC => Typing(written, outs, interrupts + 1, Asked(patience), Rest(script))
      case Shutdown => Typed(written, outs, interrupts, Finished, Rest(script), Asked(patience))
      case _ => Typing(written, outs, interrupts, Asked(patience), Rest(script))
  }

  lemma DeliverTwo(a: Bytes, b: Bytes, outs: seq<WriteOutcome>)
    ensures Deliver([a, b], outs) == Then(Offer(a, outs), Offer(b, Offer(a, outs).rest))
  {
    assert [a, b] == [a] + [b];
    DeliverAppend([a], [b], outs);
    DeliverOne(a, outs);
    DeliverOne(b, Offer(a, outs).rest);
  }

  /** Types the backend's prompts into the PTY, each followed by a carriage return. */
  method PipeBackendToPty(ctx: Context, receiver: Receiver, pty: Pty) returns (ending: Ending)
    modifies ctx, receiver, pty, pty.writer
    ensures Typed(pty.writer.written, pty.writer.script, pty.interrupts, ending, receiver.script, ctx.patience) ==
            old(Typing(pty.writer.written, pty.writer.script, pty.interrupts, ctx.patience, receiver.script))
  {
    var w := pty.writer;
    ghost var whole := Typing(w.written, w.script, pty.interrupts, ctx.patience, receiver.script);
    while true
      invariant whole == Typing(w.written, w.script, pty.interrupts, ctx.patience, receiver.script)
      decreases |receiver.script|
    {
      var cancelled := ctx.Err();
      if cancelled {
        return ContextDone;
      }
      var r := receiver.Receive();
      if r.Broken? {
        return ReceiveFailed;
      }
      match r.msg {
        case Type(payload) =>
          if payload.Malformed? {
            continue;
          }
          ghost var before := w.written;
          DeliverTwo(payload.value, [CR], w.script);
          var n, err := w.Write(payload.value);
          if err != NoError {
            return WriteFailed;
          }
          ghost var first := w.written[|before|..];
          n, err := w.Write([CR]);
          assert w.written == before + (first + w.written[|before| + |first|..]);
          if err != NoError {
            return WriteFailed;
          }
        case CtrlC =>
          pty.Interrupt();
        case Shutdown =>
          return Finished;
        case _ =>
      }
    }
  }

  /** The writes for one message. */
  function KeysFor(m: Message): seq<Bytes> {
    match m
    case Type(Good(text)) => [text, [CR]]
    case _ => []
  }

  /** The text to be typed for one message, if any. */
  function PromptOf(m: Message): seq<Bytes> {
    match m
    case Type(Good(text)) => [text + [CR]]
    case _ => []
  }

  /** The texts to be typed: those of well-formed prompts before the first shutdown. */
  function Prompts(script: seq<Replied>): seq<Bytes> {
    if script == [] || script[0].Broken? || script[0].msg.Shutdown? then []
    else PromptOf(script[0].msg) + Prompts(script[1..])
  }

  /** The single writes for these messages. */
  function Keystrokes(script: seq<Replied>): seq<Bytes> {
    if script == [] || script[0].Broken? || script[0].msg.Shutdown? then []
    else KeysFor(script[0].msg) + Keystrokes(script[1..])
  }

  function CtrlCs(script: seq<Replied>): nat {
    if script == [] || script[0].Broken? || script[0].msg.Shutdown? then 0
    else (if script[0].msg.CtrlC? then 1 else 0) + CtrlCs(script[1..])
  }

  predicate EndsInShutdown(script: seq<Replied>) {
    script != [] && script[0].Got? && (script[0].msg.Shutdown? || EndsInShutdown(script[1..]))
  }

  /** Left alone, with any PTY: the pipe makes these writes in order until one fails,
      and otherwise ends with the first shutdown or the connection, having passed
      on every interrupt before that. */
  lemma {:induction false} TypingDelivers(written: Bytes, outs: seq<WriteOutcome>, interrupts: nat, script: seq<Replied>)
    ensures var t := Typing(written, outs, interrupts, Forever, script);
            var d := Deliver(Keystrokes(script), outs);
            && t.written == written + d.bytes && t.outs == d.rest
            && (if d.err != NoError then t.ending == WriteFailed
                else
                  && t.ending == (if EndsInShutdown(script) then Finished else ReceiveFailed)
                  && t.interrupts == interrupts + CtrlCs(script))
    decreases |script|
  {
    if script != [] && script[0].Got? && !script[0].msg.Shutdown? {
      var (msg, rest) := (script[0].msg, script[1..]);
      if msg.Type? && msg.text.Good? {
        var keys := [msg.text.value, [CR]];
        var d := Deliver(keys, outs);
        DeliverAppend(keys, Keystrokes(rest), outs);
        if d.err == NoError {
          TypingDelivers(written + d.bytes, d.rest, interrupts, rest);
        }
      } else {
        assert Keystrokes(script) == Keystrokes(rest);
        TypingDelivers(written, outs, if msg.CtrlC? then interrupts + 1 else interrupts, rest);
      }
    }
  }

  /** Messages after which the pipe goes on, as far as they are concerned. */
  predicate Continuing(script: seq<Replied>) {
    forall i :: 0 <= i < |script| ==> script[i].Got? && !script[i].msg.Shutdown?
  }

  lemma TypingOne(written: Bytes, outs: seq<WriteOutcome>, interrupts: nat, patience: Patience, m: Message, b: seq<Replied>)
    requires !m.Shutdown? && !Exhausted(patience) && Deliver(KeysFor(m), outs).err == NoError
    ensures var d := Deliver(KeysFor(m), outs);
            Typing(written, outs, interrupts, patience, [Got(m)] + b) ==
            Typing(written + d.bytes, d.rest, if m.CtrlC? then interrupts + 1 else interrupts, Asked(patience), b)
  {
    assert ([Got(m)] + b)[1..] == b && written + [] == written;
  }

  /** Messages that do not end the pipe are acted on one by one, and it goes on. */
  lemma {:induction false} TypingPasses(
      written: Bytes, outs: seq<WriteOutcome>, interrupts: nat, patience: Patience, a: seq<Replied>, b: seq<Replied>)
    requires Continuing(a) && Lasts(patience, |a|) && Deliver(Keystrokes(a), outs).err == NoError
    ensures var d := Deliver(Keystrokes(a), outs);
            Typing(written, outs, interrupts, patience, a + b) ==
            Typing(written + d.bytes, d.rest, interrupts + CtrlCs(a), Later(patience, |a|), b)
    decreases |a|
  {
    hide Typing, Deliver, KeysFor;
    if a == [] {
      assert a + b == b;
      NothingTyped(written, outs);
    } else {
      var (msg, rest) := (a[0].msg, a[1..]);
      assert a + b == [Got(msg)] + (rest + b);
      DeliverAppend(KeysFor(msg), Keystrokes(rest), outs);
      TypingOne(written, outs, interrupts, patience, msg, rest + b);
      var d := Deliver(KeysFor(msg), outs);
      var more := Deliver(Keystrokes(rest), d.rest);
      TypingPasses(written + d.bytes, d.rest, if msg.CtrlC? then interrupts + 1 else interrupts, Asked(patience), rest, b);
      assert written + d.bytes + more.bytes == written + (d.bytes + more.bytes);
    }
  }

  lemma NothingTyped(written: Bytes, outs: seq<WriteOutcome>)
    ensures Deliver([], outs) == Delivery([], outs, NoError) && written + [] == written
  {
  }

  /** Cancelled after `n` polls, the pipe has acted on exactly `n` messages, if none of
      them ends it and no write for them fails. */
  lemma TypingCancelled(written: Bytes, outs: seq<WriteOutcome>, interrupts: nat, a: seq<Replied>, b: seq<Replied>)
    requires Continuing(a) && Deliver(Keystrokes(a), outs).err == NoError
    ensures var d := Deliver(Keystrokes(a), outs);
            Typing(written, outs, interrupts, For(|a|), a + b) ==
            Typed(written + d.bytes, d.rest, interrupts + CtrlCs(a), ContextDone, b, For(0))
  {
    TypingPasses(written, outs, interrupts, For(|a|), a, b);
  }

  /** What each kind of message adds, wherever it comes; after a shutdown or a broken
      connection nothing is added any more. */
  lemma MessageTyped(a: seq<Replied>, r: Replied, b: seq<Replied>)
    requires Continuing(a)
    ensures var (all, rest) := (a + [r] + b, if r.Broken? || r.msg.Shutdown? then [] else b);
            && Keystrokes(all) == Keystrokes(a) +
                 ((if r.Got? && r.msg.Type? && r.msg.text.Good? then [r.msg.text.value, [0x0D]] else []) + Keystrokes(rest))
            && Prompts(all) == Prompts(a) +
                 ((if r.Got? && r.msg.Type? && r.msg.text.Good? then [r.msg.text.value + [0x0D]] else []) + Prompts(rest))
            && CtrlCs(all) == CtrlCs(a) + (if r == Got(CtrlC) then 1 else 0) + CtrlCs(rest)
  {
    assert a + [r] + b == a + ([r] + b) && ([r] + b)[1..] == b;
    MessagesAppend(a, [r] + b);
    assert [] + Keystrokes(b) == Keystrokes(b) && [] + Prompts(b) == Prompts(b);
  }

  lemma {:induction false} MessagesAppend(a: seq<Replied>, b: seq<Replied>)
    requires Continuing(a)
    ensures Keystrokes(a + b) == Keystrokes(a) + Keystrokes(b)
    ensures Prompts(a + b) == Prompts(a) + Prompts(b)
    ensures CtrlCs(a + b) == CtrlCs(a) + CtrlCs(b)
  {
    hide KeysFor, PromptOf;
    if a == [] {
      assert a + b == b;
    } else {
      var rest := a[1..];
      assert (a + b)[1..] == rest + b;
      MessagesAppend(rest, b);
      assert KeysFor(a[0].msg) + (Keystrokes(rest) + Keystrokes(b)) == Keystrokes(a) + Keystrokes(b);
      assert PromptOf(a[0].msg) + (Prompts(rest) + Prompts(b)) == Prompts(a) + Prompts(b);
    }
  }

  lemma {:induction false} EndsWith(a: seq<Replied>, r: Replied, b: seq<Replied>)
    requires Continuing(a)
    ensures !EndsInShutdown(a)
    ensures r.Broken? || r.msg.Shutdown? ==> (EndsInShutdown(a + [r] + b) <==> r == Got(Shutdown))
  {
    var all := a + [r] + b;
    if a == [] {
      assert all[0] == r;
    } else {
      assert all[1..] == a[1..] + [r] + b;
      EndsWith(a[1..], r, b);
    }
  }

  lemma AllTyped(script: seq<Replied>)
    ensures Deliver(Keystrokes(script), []) == Delivery(Concat(Prompts(script)), [], NoError)
  {
    DeliverAll(Keystrokes(script));
    KeysArePrompts(script);
  }

  lemma {:induction false} KeysArePrompts(script: seq<Replied>)
    ensures Concat(Keystrokes(script)) == Concat(Prompts(script))
  {
    if script != [] && script[0].Got? && !script[0].msg.Shutdown? {
      var (m, rest) := (script[0].msg, script[1..]);
      KeysArePrompts(rest);
      ConcatAppend(KeysFor(m), Keystrokes(rest));
      ConcatAppend(PromptOf(m), Prompts(rest));
      SameKeys(m);
    }
  }

  lemma SameKeys(m: Message)
    ensures Concat(KeysFor(m)) == Concat(PromptOf(m))
  {
    if m.Type? && m.text.Good? {
      var text := m.text.value;
      assert [text, [CR]] == [text] + [[CR]];
      ConcatSnoc([text], [CR]);
      ConcatSnoc([], text);
      ConcatSnoc([], text + [CR]);
      assert [] + [text] == [text] && [] + [text + [CR]] == [text + [CR]];
    }
  }

  /** With a PTY that takes everything the pipe types exactly the prompts before the
      first shutdown, in order; cancelled after `n` polls, those among the first `n`
      messages, and it is cancelled exactly if none of these ends it. */
  lemma TypingTypesPrompts(written: Bytes, interrupts: nat, patience: Patience, script: seq<Replied>)
    ensures var t := Typing(written, [], interrupts, patience, script);
            if patience.For? && patience.polls <= |script| && Continuing(script[..patience.polls]) then
              && t.ending == ContextDone && t.unread == script[patience.polls..]
              && t.written == written + Concat(Prompts(script[..patience.polls]))
              && t.interrupts == interrupts + CtrlCs(script[..patience.polls])
            else
              && t.ending == (if EndsInShutdown(script) then Finished else ReceiveFailed)
              && t.written == written + Concat(Prompts(script))
              && t.interrupts == interrupts + CtrlCs(script)
  {
    hide Typing, Deliver, Keystrokes, Prompts;
    if patience.For? && patience.polls <= |script| && Continuing(script[..patience.polls]) {
      var (a, b) := (script[..patience.polls], script[patience.polls..]);
      assert script == a + b;
      AllTyped(a);
      TypingCancelled(written, [], interrupts, a, b);
    } else {
      Unhurried(written, [], interrupts, patience, script);
      AllTyped(script);
      TypingDelivers(written, [], interrupts, script);
    }
  }

  /** A context that outlasts the messages makes no difference. */
  lemma {:induction false} Unhurried(
      written: Bytes, outs: seq<WriteOutcome>, interrupts: nat, patience: Patience, script: seq<Replied>)
    requires !(patience.For? && patience.polls <= |script| && Continuing(script[..patience.polls]))
    ensures var t := Typing(written, outs, interrupts, patience, script);
            t == Typing(written, outs, interrupts, Forever, script).(patience := t.patience)
    decreases |script|
  {
    if script != [] && script[0].Got? && !script[0].msg.Shutdown? {
      if patience.For? && patience.polls <= |script| {
        UnhurriedRest(patience.polls, script);
      }
      var (m, rest) := (script[0].msg, script[1..]);
      var d := Deliver(KeysFor(m), outs);
      Unhurried(if m.Type? && m.text.Good? then written + d.bytes else written,
                if m.Type? && m.text.Good? then d.rest else outs,
                if m.CtrlC? then interrupts + 1 else interrupts, Asked(patience), rest);
    }
  }

  lemma UnhurriedRest(polls: nat, script: seq<Replied>)
    requires script != [] && polls <= |script| && !Continuing(script[..polls])
    requires script[0].Got? && !script[0].msg.Shutdown?
    ensures polls > 0 && !Continuing(script[1..][..polls - 1])
  {
    var i :| 0 <= i < polls && !(script[..polls][i].Got? && !script[..polls][i].msg.Shutdown?);
    assert script[1..][..polls - 1][i - 1] == script[i];
  }
}
