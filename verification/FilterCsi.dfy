/** cmd/loopai/filter_csi.go: the streaming filter itself. */
module FilterCsi {
  import opened Bytes
  import opened Io
  import opened FilterGrammar

  const BUFFER_SIZE: nat := 4096

  /** Where a copy leaves the writer and the reader, and how it ends. */
  datatype Copied = Copied(written: Bytes, outs: seq<WriteOutcome>, unread: seq<ReadOutcome>, err: IoError)

  /** The copy read by read, when `written` has been accepted so far. */
  function Copy(written: Bytes, m: Machine, ins: seq<ReadOutcome>, outs: seq<WriteOutcome>): Copied
    decreases |ins|
  {
    var now := Head(ins);
    var r := RunFrom(m, now.data);
    var d := Deliver(KeptTexts(r.factors), outs);
    if d.err != NoError then Copied(written + d.bytes, d.rest, Rest(ins), d.err)
    else if now.err == NoError then Copy(written + d.bytes, r.machine, Rest(ins), d.rest)
    else
      var last := Deliver(Flush(r.machine, now.err), d.rest);
      Copied(written + d.bytes + last.bytes, last.rest, Rest(ins), if last.err != NoError then last.err else now.err)
  }

  /** At end of input, and only there, an interrupted sequence is written out. */
  function Flush(m: Machine, err: IoError): seq<Bytes> {
    if err == Eof && m.pending != [] then [m.pending] else []
  }

  /** The body of the inner loop: one byte through the state machine. */
  method FilterByte(dst: Writer, state: State, pending: Bytes, b: Byte)
    returns (state': State, pending': Bytes, nw: nat, werr: IoError)
    modifies dst
    ensures var r := Step(Machine(state, pending), b);
            var d := Deliver(KeptTexts(r.factors), old(dst.script));
            && dst.written == old(dst.written) + d.bytes && dst.script == d.rest
            && nw == |d.bytes| && werr == d.err
            && (werr == NoError ==> Machine(state', pending') == r.machine)
  {
    ghost var r := Step(Machine(state, pending), b);
    if r.factors != [] {
      KeptSingle(r.factors[0], dst.script);
      assert r.factors == [r.factors[0]];
    }
    state', pending', nw, werr := state, pending, 0, NoError;
    match state {
      case Normal =>
        if b == ESC {
          pending' := [b];
          state' := Esc;
        } else {
          nw, werr := dst.Write([b]);
        }
      case Esc =>
        pending' := pending' + [b];
        if b == BRACKET {
          state' := InCsi;
        } else if b == CAPITAL_O {
          state' := InSs3;
        } else {
          nw, werr := dst.Write(pending');
          if werr != NoError {
            return;
          }
          pending' := [];
          state' := Normal;
        }
      case InCsi =>
        if b == LT {
          pending' := pending' + [b];
          state' := InCsiU;
        } else if 0x40 <= b <= 0x7E {
          pending' := [];
          state' := Normal;
        } else if 0x20 <= b <= 0x3F {
          pending' := pending' + [b];
        } else if b == ESC {
          nw, werr := dst.Write(pending');
          if werr != NoError {
            return;
          }
          pending' := [b];
          state' := Esc;
        } else {
          pending' := pending' + [b];
          nw, werr := dst.Write(pending');
          if werr != NoError {
            return;
          }
          pending' := [];
          state' := Normal;
        }
      case InCsiU =>
        if b == 0x75 {
          pending' := [];
          state' := Normal;
        } else if 0x30 <= b <= 0x39 || b == 0x3B {
          pending' := pending' + [b];
        } else if 0x40 <= b <= 0x7E {
          pending' := [];
          state' := Normal;
        } else if b == ESC {
          nw, werr := dst.Write(pending');
          if werr != NoError {
            return;
          }
          pending' := [b];
          state' := Esc;
        } else {
          pending' := pending' + [b];
          nw, werr := dst.Write(pending');
          if werr != NoError {
            return;
          }
          pending' := [];
          state' := Normal;
        }
      case InSs3 =>
        pending' := [];
        state' := Normal;
    }
  }

  lemma KeptSingle(f: Factor, outs: seq<WriteOutcome>)
    ensures KeptTexts([f]) == if Discarded(f.kind) then [] else [f.text]
    ensures Deliver(KeptTexts([f]), outs) ==
            if Discarded(f.kind) then Delivery([], outs, NoError) else Offer(f.text, outs)
  {
    assert [f][1..] == [];
    DeliverOne(f.text, outs);
  }

  /** The inner loop: the bytes of one read. */
  method FilterChunk(dst: Writer, state: State, pending: Bytes, data: Bytes)
    returns (state': State, pending': Bytes, nw: nat, werr: IoError)
    modifies dst
    ensures var r := RunFrom(Machine(state, pending), data);
            var d := Deliver(KeptTexts(r.factors), old(dst.script));
            && dst.written == old(dst.written) + d.bytes && dst.script == d.rest
            && nw == |d.bytes| && werr == d.err
            && (werr == NoError ==> Machine(state', pending') == r.machine)
  {
    hide Step, RunFrom, Deliver, KeptTexts;
    ghost var m, outs := Machine(state, pending), dst.script;
    ghost var sent: Bytes := [];
    state', pending', nw, werr := state, pending, 0, NoError;
    NothingRead(m, outs);
    var i := 0;
    assert data[..i] == [];
    while i < |data|
      invariant 0 <= i <= |data|
      invariant dst.written == old(dst.written) + sent && nw == |sent| && werr == NoError
      invariant Machine(state', pending') == RunFrom(m, data[..i]).machine
      invariant Deliver(KeptTexts(RunFrom(m, data[..i]).factors), outs) == Delivery(sent, dst.script, NoError)
    {
      RunInChunk(m, data, i, outs);
      ghost var before := dst.written;
      var n;
      state', pending', n, werr := FilterByte(dst, state', pending', data[i]);
      nw := nw + n;
      sent := sent + dst.written[|before|..];
      if werr != NoError {
        return;
      }
      i := i + 1;
    }
    assert data[..i] == data;
  }

  /** Copies `src` to `dst` without the control sequences: what is accepted, the
      count and the error are those of `Copy`, for every reader and every writer. */
  method Filter(dst: Writer, src: Reader) returns (written: nat, err: IoError)
    requires Fits(src.script, BUFFER_SIZE)
    modifies dst, src
    ensures Copied(dst.written, dst.script, src.script, err) ==
            Copy(old(dst.written), START, old(src.script), old(dst.script))
    ensures |dst.written| == |old(dst.written)| + written
  {
    hide Step, RunFrom, Deliver, KeptTexts;
    written := 0;
    var buf := new Byte[BUFFER_SIZE];
    var pending: Bytes := [];
    var state := Normal;
    ghost var whole := Copy(dst.written, START, src.script, dst.script);
    while true
      invariant fresh(buf) && Fits(src.script, buf.Length)
      invariant |dst.written| == |old(dst.written)| + written
      invariant whole == Copy(dst.written, Machine(state, pending), src.script, dst.script)
      decreases |src.script|
    {
      ghost var m, now, outs := Machine(state, pending), Head(src.script), dst.script;
      NothingRead(m, outs);
      var n, rerr := src.Read(buf);
      if n > 0 {
        var nw, werr;
        state, pending, nw, werr := FilterChunk(dst, state, pending, buf[..n]);
        written := written + nw;
        if werr != NoError {
          return written, werr;
        }
      } else {
        assert now.data == [] && dst.written + [] == dst.written;
      }
      if rerr != NoError {
        NothingRead(m, dst.script);
        if rerr == Eof && |pending| > 0 {
          DeliverOne(pending, dst.script);
          var nw, werr := dst.Write(pending);
          written := written + nw;
          if werr != NoError {
            return written, werr;
          }
        }
        return written, rerr;
      }
    }
  }

  lemma NothingRead(m: Machine, outs: seq<WriteOutcome>)
    ensures RunFrom(m, []) == Run(m, [])
    ensures Deliver(KeptTexts([]), outs) == Delivery([], outs, NoError)
    ensures Deliver([], outs) == Delivery([], outs, NoError)
  {
  }

  lemma RunInChunk(m: Machine, data: Bytes, i: nat, outs: seq<WriteOutcome>)
    requires i < |data|
    requires Deliver(KeptTexts(RunFrom(m, data[..i]).factors), outs).err == NoError
    ensures var before := RunFrom(m, data[..i]);
            var step := Step(before.machine, data[i]);
            var sent := Deliver(KeptTexts(before.factors), outs);
            var d := Deliver(KeptTexts(step.factors), sent.rest);
            var after := RunFrom(m, data[..i + 1]);
            && (d.err == NoError ==> after.machine == step.machine)
            && Deliver(KeptTexts(after.factors), outs) == Then(sent, d)
            && (d.err != NoError ==> Deliver(KeptTexts(RunFrom(m, data).factors), outs) == Then(sent, d))
  {
    var before := RunFrom(m, data[..i]);
    var step := Step(before.machine, data[i]);
    assert data[..i + 1] == data[..i] + [data[i]];
    RunSnoc(m, data[..i], data[i]);
    KeptAppend(before.factors, step.factors);
    DeliverAppend(KeptTexts(before.factors), KeptTexts(step.factors), outs);
    var after := RunFrom(m, data[..i + 1]);
    var rest := RunFrom(after.machine, data[i + 1..]);
    assert data == data[..i + 1] + data[i + 1..];
    RunAppend(m, data[..i + 1], data[i + 1..]);
    KeptAppend(after.factors, rest.factors);
    DeliverAppend(KeptTexts(after.factors), KeptTexts(rest.factors), outs);
  }

  // ---------- one pass over everything read ----------

  /** All the writes for the input `s` when the reader then ends with `err`. */
  function Requests(s: Bytes, err: IoError): seq<Bytes> {
    KeptTexts(RunAll(s).factors) + Flush(RunAll(s).machine, err)
  }

  /** The unsplit pass: a failed write is reported, otherwise the reader's end is. */
  function OnePass(s: Bytes, err: IoError, outs: seq<WriteOutcome>): Delivery {
    var d := Deliver(Requests(s, err), outs);
    if d.err == NoError then d.(err := err) else d
  }

  function PassFrom(m: Machine, s: Bytes, err: IoError, outs: seq<WriteOutcome>): Delivery {
    var r := RunFrom(m, s);
    var d := Deliver(KeptTexts(r.factors) + Flush(r.machine, err), outs);
    if d.err == NoError then d.(err := err) else d
  }

  /** What one read adds in front of a pass over the rest. */
  lemma PassSplits(m: Machine, a: Bytes, b: Bytes, err: IoError, outs: seq<WriteOutcome>)
    ensures var r := RunFrom(m, a);
            var d := Deliver(KeptTexts(r.factors), outs);
            PassFrom(m, a + b, err, outs) == Then(d, PassFrom(r.machine, b, err, d.rest))
  {
    var r := RunFrom(m, a);
    var r' := RunFrom(r.machine, b);
    RunAppend(m, a, b);
    KeptAppend(r.factors, r'.factors);
    var (k, k', f) := (KeptTexts(r.factors), KeptTexts(r'.factors), Flush(r'.machine, err));
    assert (k + k') + f == k + (k' + f);
    DeliverAppend(k, k' + f, outs);
  }

  lemma {:induction false} CopyIsPass(written: Bytes, m: Machine, ins: seq<ReadOutcome>, outs: seq<WriteOutcome>)
    ensures var c := Copy(written, m, ins, outs);
            var pass := PassFrom(m, Drain(ins).data, Drain(ins).err, outs);
            c.written == written + pass.bytes && c.outs == pass.rest && c.err == pass.err
    decreases |ins|
  {
    hide Deliver, RunFrom, KeptTexts;
    var now := Head(ins);
    var r := RunFrom(m, now.data);
    var d := Deliver(KeptTexts(r.factors), outs);
    if now.err != NoError {
      DeliverAppend(KeptTexts(r.factors), Flush(r.machine, now.err), outs);
    } else {
      var more := Drain(ins[1..]);
      PassSplits(m, now.data, more.data, more.err, outs);
      CopyIsPass(written + d.bytes, r.machine, ins[1..], d.rest);
    }
  }

  /** However the input is split into reads, the writes are those of one pass. */
  lemma ChunkIndependence(ins: seq<ReadOutcome>, outs: seq<WriteOutcome>)
    ensures var c := Copy([], START, ins, outs);
            Delivery(c.written, c.outs, c.err) == OnePass(Drain(ins).data, Drain(ins).err, outs)
  {
    CopyIsPass([], START, ins, outs);
  }

  /** With a writer that takes everything, a reader that reaches its end copies the
      input without its discarded factors; one that breaks off before that keeps
      the interrupted sequence back. */
  lemma CopiesFiltered(ins: seq<ReadOutcome>, fs: seq<Factor>, tail: Bytes)
    requires Reading(Drain(ins).data, fs, tail)
    ensures var c := Copy([], START, ins, []);
            && c.written == Output(fs, if Drain(ins).err == Eof then tail else [])
            && c.err == Drain(ins).err
  {
    var (s, err) := (Drain(ins).data, Drain(ins).err);
    ChunkIndependence(ins, []);
    ReadingIsRun(s, fs, tail);
    DeliverAll(Requests(s, err));
    var flush := Flush(RunAll(s).machine, err);
    ConcatAppend(KeptTexts(fs), flush);
    assert Concat(flush) == if err == Eof then tail else [];
  }

  /** A writer that takes less than it is given says so. */
  predicate Honest(outs: seq<WriteOutcome>, ps: seq<Bytes>) {
    forall o <- outs :: o.err == NoError ==> forall p <- ps :: |p| <= o.limit
  }

  lemma {:induction false} DeliverPrefix(ps: seq<Bytes>, outs: seq<WriteOutcome>)
    requires Honest(outs, ps)
    ensures Deliver(ps, outs).bytes <= Concat(ps)
    ensures Deliver(ps, outs).err == NoError ==> Deliver(ps, outs).bytes == Concat(ps)
  {
    if ps != [] {
      var first := Offer(ps[0], outs);
      if first.err == NoError {
        DeliverPrefix(ps[1..], first.rest);
        assert first.bytes == ps[0];
      }
    }
  }

  lemma RequestsWithinFilter(s: Bytes, err: IoError)
    ensures Concat(Requests(s, err)) <= FilterGrammar.Filter(s)
    ensures err == Eof ==> Concat(Requests(s, err)) == FilterGrammar.Filter(s)
  {
    var r := RunAll(s);
    var flush := Flush(r.machine, err);
    ConcatAppend(KeptTexts(r.factors), flush);
    assert Concat(flush) == if err == Eof then r.machine.pending else [];
  }

  /** Whatever goes wrong on either side, an honest writer has received a prefix of the
      filtered input; if no write failed, the error reported is the reader's, and
      at end of input the writer has received all of it. */
  lemma InterruptedCopy(ins: seq<ReadOutcome>, outs: seq<WriteOutcome>)
    requires Honest(outs, Requests(Drain(ins).data, Drain(ins).err))
    ensures var (c, s, err) := (Copy([], START, ins, outs), Drain(ins).data, Drain(ins).err);
            && c.written <= FilterGrammar.Filter(s)
            && (Deliver(Requests(s, err), outs).err == NoError ==>
                  c.err == err && (err == Eof ==> c.written == FilterGrammar.Filter(s)))
  {
    var (s, err) := (Drain(ins).data, Drain(ins).err);
    ChunkIndependence(ins, outs);
    DeliverPrefix(Requests(s, err), outs);
    RequestsWithinFilter(s, err);
  }

  /** A write that fails is the last thing the copy does: it has delivered the writes
      before it, and what the failing one took, and reports its error. */
  lemma FailedWrite(
      ins: seq<ReadOutcome>, a: seq<Bytes>, p: Bytes, b: seq<Bytes>,
      good: seq<WriteOutcome>, bad: WriteOutcome, more: seq<WriteOutcome>)
    requires Requests(Drain(ins).data, Drain(ins).err) == a + [p] + b
    requires Takes(good, a) && bad.err != NoError
    ensures var c := Copy([], START, ins, good + [bad] + more);
            && c.written == Concat(a) + (if bad.limit < |p| then p[..bad.limit] else p)
            && c.outs == more && c.err == bad.err
  {
    ChunkIndependence(ins, good + [bad] + more);
    DeliverFails(a, p, b, good, bad, more);
  }

  /** With a writer that takes everything, the copy reads up to the first error. */
  lemma {:induction false} CopyReads(
      written: Bytes, m: Machine, a: seq<ReadOutcome>, last: ReadOutcome, b: seq<ReadOutcome>)
    requires Ordinary(a) && last.err != NoError
    ensures Copy(written, m, a + [last] + b, []).unread == b
    decreases |a|
  {
    hide Deliver, RunFrom, KeptTexts;
    var all := a + [last] + b;
    var now := Head(all);
    var r := RunFrom(m, now.data);
    DeliverAll(KeptTexts(r.factors));
    if a == [] {
      assert all[0] == last && all[1..] == b;
    } else {
      assert all[0] == a[0] && all[1..] == a[1..] + [last] + b;
      CopyReads(written + Deliver(KeptTexts(r.factors), []).bytes, r.machine, a[1..], last, b);
    }
  }
}
