/** Readers and writers as scripts.

    A script lists what the successive calls do, so quantifying over scripts is
    quantifying over every reader and writer: short reads, empty reads, data
    returned together with an error, short writes and failing writes. A reader
    whose script is used up is at its end; a writer whose script is used up
    accepts everything. */
module Io {
  import opened Bytes

  datatype IoError = NoError | Eof | Failed(code: int)

  // ---------- readers ----------

  datatype ReadOutcome = ReadOutcome(data: Bytes, err: IoError)

  function Head(ins: seq<ReadOutcome>): ReadOutcome {
    if ins == [] then ReadOutcome([], Eof) else ins[0]
  }

  function Rest<T>(script: seq<T>): seq<T> {
    if script == [] then [] else script[1..]
  }

  /** No call returns more bytes than the caller's buffer holds. */
  predicate Fits(ins: seq<ReadOutcome>, size: nat) {
    forall i :: 0 <= i < |ins| ==> |ins[i].data| <= size
  }

  class Reader {
    var script: seq<ReadOutcome>

    constructor (script: seq<ReadOutcome>)
      ensures this.script == script
    {
      this.script := script;
    }

    /** Fills the front of `buf` and says how much of it, and how the call ended. */
    method Read(buf: array<Byte>) returns (n: nat, err: IoError)
      requires Fits(script, buf.Length)
      modifies this, buf
      ensures n == |Head(old(script)).data| <= buf.Length
      ensures buf[..n] == Head(old(script)).data && buf[n..] == old(buf[n..])
      ensures err == Head(old(script)).err
      ensures script == Rest(old(script))
    {
      if script == [] {
        return 0, Eof;
      }
      var outcome := script[0];
      script := script[1..];
      n, err := |outcome.data|, outcome.err;
      forall i | 0 <= i < n {
        buf[i] := outcome.data[i];
      }
    }
  }

  /** Everything a reader delivers before its first error, and that error. */
  datatype Drained = Drained(data: Bytes, err: IoError)

  function Drain(ins: seq<ReadOutcome>): Drained {
    if Head(ins).err != NoError then Drained(Head(ins).data, Head(ins).err)
    else
      var more := Drain(ins[1..]);
      Drained(ins[0].data + more.data, more.err)
  }

  /** Reads that all come back without an error. */
  predicate Ordinary(ins: seq<ReadOutcome>) {
    forall i :: 0 <= i < |ins| ==> ins[i].err == NoError
  }

  function AllData(ins: seq<ReadOutcome>): Bytes {
    if ins == [] then [] else ins[0].data + AllData(ins[1..])
  }

  lemma {:induction false} DrainPasses(a: seq<ReadOutcome>, b: seq<ReadOutcome>)
    requires Ordinary(a)
    ensures Drain(a + b) == Drained(AllData(a) + Drain(b).data, Drain(b).err)
    decreases |a|
  {
    if a == [] {
      assert a + b == b && [] + Drain(b).data == Drain(b).data;
    } else {
      assert (a + b)[1..] == a[1..] + b;
      DrainPasses(a[1..], b);
    }
  }

  /** A reader is drained up to its first error, data returned with the error included;
      if there is none, up to the end of its script. */
  lemma DrainedExactly(a: seq<ReadOutcome>, last: ReadOutcome, b: seq<ReadOutcome>)
    requires Ordinary(a) && last.err != NoError
    ensures Drain(a + [last] + b) == Drained(AllData(a) + last.data, last.err)
    ensures Drain(a) == Drained(AllData(a), Eof)
  {
    assert a + [last] + b == a + ([last] + b);
    DrainPasses(a, [last] + b);
    DrainPasses(a, []);
    assert a + [] == a && AllData(a) + [] == AllData(a);
  }

  lemma {:induction false} FirstError(ins: seq<ReadOutcome>) returns (n: nat)
    ensures n <= |ins| && Ordinary(ins[..n]) && (n < |ins| ==> ins[n].err != NoError)
  {
    n := 0;
    while n < |ins| && ins[n].err == NoError
      invariant n <= |ins| && Ordinary(ins[..n])
    {
      n := n + 1;
    }
  }

  // ---------- writers ----------

  /** One write: the most bytes it takes, and how it ends. */
  datatype WriteOutcome = WriteOutcome(limit: nat, err: IoError)

  datatype Delivery = Delivery(bytes: Bytes, rest: seq<WriteOutcome>, err: IoError)

  function Offer(p: Bytes, outs: seq<WriteOutcome>): Delivery {
    if outs == [] then Delivery(p, [], NoError)
    else Delivery(if outs[0].limit < |p| then p[..outs[0].limit] else p, outs[1..], outs[0].err)
  }

  /** The writes `ps` in turn, up to the first that fails. */
  function Deliver(ps: seq<Bytes>, outs: seq<WriteOutcome>): Delivery {
    if ps == [] then Delivery([], outs, NoError)
    else
      var first := Offer(ps[0], outs);
      if first.err != NoError then first
      else
        var more := Deliver(ps[1..], first.rest);
        Delivery(first.bytes + more.bytes, more.rest, more.err)
  }

  class Writer {
    var written: Bytes
    var script: seq<WriteOutcome>

    constructor (script: seq<WriteOutcome>)
      ensures written == [] && this.script == script
    {
      written := [];
      this.script := script;
    }

    method Write(p: Bytes) returns (n: nat, err: IoError)
      modifies this
      ensures var d := Offer(p, old(script));
              && written == old(written) + d.bytes && script == d.rest
              && n == |d.bytes| && err == d.err
    {
      n, err := |p|, NoError;
      if script != [] {
        if script[0].limit < n {
          n := script[0].limit;
        }
        err := script[0].err;
        script := script[1..];
      }
      written := written + p[..n];
    }
  }

  /** Two deliveries, the second only if the first succeeded. */
  function Then(first: Delivery, second: Delivery): Delivery {
    if first.err != NoError then first
    else Delivery(first.bytes + second.bytes, second.rest, second.err)
  }

  lemma {:induction false} DeliverAppend(a: seq<Bytes>, b: seq<Bytes>, outs: seq<WriteOutcome>)
    ensures var first := Deliver(a, outs);
            Deliver(a + b, outs) == Then(first, Deliver(b, first.rest))
  {
    if a == [] {
      assert a + b == b;
    } else {
      assert (a + b)[1..] == a[1..] + b;
      DeliverAppend(a[1..], b, Offer(a[0], outs).rest);
    }
  }

  lemma DeliverOne(p: Bytes, outs: seq<WriteOutcome>)
    ensures Deliver([p], outs) == Offer(p, outs)
  {
    assert [p][1..] == [];
  }

  /** A writer that takes everything receives exactly what is written. */
  lemma {:induction false} DeliverAll(ps: seq<Bytes>)
    ensures Deliver(ps, []) == Delivery(Concat(ps), [], NoError)
  {
    if ps != [] {
      DeliverAll(ps[1..]);
    }
  }

  /** These writes all succeed, in full. */
  predicate Takes(outs: seq<WriteOutcome>, ps: seq<Bytes>) {
    |outs| == |ps| && forall i :: 0 <= i < |ps| ==> outs[i].err == NoError && |ps[i]| <= outs[i].limit
  }

  /** The first failing write is the last one, and may have taken a part of its bytes. */
  lemma {:induction false} DeliverFails(
      a: seq<Bytes>, p: Bytes, b: seq<Bytes>, good: seq<WriteOutcome>, bad: WriteOutcome, more: seq<WriteOutcome>)
    requires Takes(good, a) && bad.err != NoError
    ensures Deliver(a + [p] + b, good + [bad] + more) ==
            Delivery(Concat(a) + if bad.limit < |p| then p[..bad.limit] else p, more, bad.err)
  {
    var (all, outs) := (a + [p] + b, good + [bad] + more);
    if a == [] {
      assert all[0] == p && outs[0] == bad && outs[1..] == more;
    } else {
      assert all[0] == a[0] && all[1..] == a[1..] + [p] + b;
      assert outs[0] == good[0] && outs[1..] == good[1..] + [bad] + more;
      DeliverFails(a[1..], p, b, good[1..], bad, more);
      var cut := if bad.limit < |p| then p[..bad.limit] else p;
      assert a[0] + (Concat(a[1..]) + cut) == Concat(a) + cut;
    }
  }
}
