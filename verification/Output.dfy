/** internal/backend/output.go: the capped buffer of stripped terminal output with
    its overflow and phase latches. */
module Output {
  import opened Bytes
  import opened StripAnsi
  import opened StripGrammar
  import opened Phase

  const MAX_BUFFER_SIZE: nat := 10 * 1024 * 1024
  const MAX_TRIGGER_SAMPLE: nat := 4 * 1024

  datatype GateResult = GateResult(phase: Phase, result: PhaseResult)

  // ---------- the buffer as a function of its history ----------

  /** The stripped chunks, one after the other. */
  function Stripped(chunks: seq<Bytes>): Bytes {
    if chunks == [] then []
    else Stripped(chunks[..|chunks| - 1]) + Strip(chunks[|chunks| - 1])
  }

  /** How many of the chunks since the last reset fit. */
  function Accepted(chunks: seq<Bytes>): (n: nat)
    ensures n <= |chunks|
  {
    if chunks == [] then 0
    else
      var before := Accepted(chunks[..|chunks| - 1]);
      if before == |chunks| - 1 && |Stripped(chunks)| <= MAX_BUFFER_SIZE then |chunks| else before
  }

  function Contents(chunks: seq<Bytes>): Bytes {
    Stripped(chunks[..Accepted(chunks)])
  }

  function Sample(chunk: Bytes): Bytes {
    var clean := Strip(chunk);
    if |clean| > MAX_TRIGGER_SAMPLE then clean[..MAX_TRIGGER_SAMPLE] else clean
  }

  function Triggered(chunk: Bytes, m: Matcher): Phase {
    DetectPhaseTrigger(Sample(chunk), m)
  }

  function FirstPhase(chunks: seq<Bytes>, m: Matcher): Phase {
    if chunks == [] then PhaseUnknown
    else
      var before := FirstPhase(chunks[..|chunks| - 1], m);
      if before != PhaseUnknown then before else Triggered(chunks[|chunks| - 1], m)
  }

  class OutputBuffer {
    const matcher: Matcher
    var buf: Bytes
    var phase: Phase
    var overflow: bool
    ghost var history: seq<Bytes>   // every chunk written since the last reset

    ghost predicate Valid()
      reads this
    {
      && buf == Contents(history)
      && (overflow <==> Accepted(history) < |history|)
      && phase == FirstPhase(history[..Accepted(history)], matcher)
    }

    constructor (matcher: Matcher)
      ensures Valid() && history == [] && this.matcher == matcher
    {
      this.matcher := matcher;
      buf, phase, overflow, history := [], PhaseUnknown, false, [];
    }

    method Write(data: Bytes)
      requires Valid()
      modifies this
      ensures Valid() && history == old(history) + [data]
    {
      WriteExtends(history, data);
      history := history + [data];
      if overflow {
        return;
      }
      var clean := StripAnsi.StripAnsi(data);
      if |buf| + |clean| > MAX_BUFFER_SIZE {
        overflow := true;
        return;
      }
      buf := buf + clean;
      if phase == PhaseUnknown {
        var sample := clean;
        if |sample| > MAX_TRIGGER_SAMPLE {
          sample := sample[..MAX_TRIGGER_SAMPLE];
        }
        var p := DetectPhaseTrigger(sample, matcher);
        if p != PhaseUnknown {
          phase := p;
        }
      }
    }

    method CurrentPhase() returns (p: Phase)
      requires Valid()
      ensures p == FirstPhase(history[..Accepted(history)], matcher)
    {
      p := phase;
    }

    method Analyze() returns (r: GateResult)
      requires Valid()
      ensures var p := FirstPhase(history[..Accepted(history)], matcher);
              r == GateResult(p, AnalyzeOutput(Contents(history), p, matcher))
      ensures var accepted := history[..Accepted(history)];
              CutAtBoundaries(accepted) ==> r.result == AnalyzeOutput(Strip(Concat(accepted)), r.phase, matcher)
    {
      if CutAtBoundaries(history[..Accepted(history)]) {
        BufferIsWholeStream(history);
      }
      if phase == PhaseUnknown {
        return GateResult(PhaseUnknown, ResultUnknown);
      }
      r := GateResult(phase, AnalyzeOutput(buf, phase, matcher));
    }

    method Reset()
      modifies this
      ensures Valid() && history == []
    {
      buf, phase, overflow, history := [], PhaseUnknown, false, [];
    }

    method String() returns (s: Bytes)
      requires Valid()
      ensures s == Contents(history)
    {
      s := buf;
    }
  }

  /** What one more chunk changes. */
  lemma WriteExtends(chunks: seq<Bytes>, data: Bytes)
    ensures var (n, more) := (Accepted(chunks), chunks + [data]);
            if n == |chunks| && |Contents(chunks)| + |Strip(data)| <= MAX_BUFFER_SIZE then
              && Accepted(more) == |more| && more[..|more|] == more
              && Contents(more) == Contents(chunks) + Strip(data)
              && (forall m :: FirstPhase(more, m) ==
                    if FirstPhase(chunks, m) != PhaseUnknown then FirstPhase(chunks, m) else Triggered(data, m))
              && chunks[..n] == chunks
            else
              Accepted(more) == n && more[..n] == chunks[..n]
  {
    var (n, more) := (Accepted(chunks), chunks + [data]);
    assert more[..|chunks|] == chunks && chunks[..|chunks|] == chunks;
    assert more[..|more|] == more;
    assert more[..n] == chunks[..n];
  }

  // ---------- what that function is ----------

  lemma {:induction false} StrippedGrows(chunks: seq<Bytes>, i: nat, j: nat)
    requires i <= j <= |chunks|
    ensures |Stripped(chunks[..i])| <= |Stripped(chunks[..j])|
    decreases j
  {
    if i < j {
      StrippedGrows(chunks, i, j - 1);
      assert chunks[..j][..j - 1] == chunks[..j - 1];
    }
  }

  /** The accepted chunks are the longest prefix that fits: a prefix fits exactly when
      it is no longer. */
  lemma {:induction false} AcceptedIsLongestFitting(chunks: seq<Bytes>, j: nat)
    requires j <= |chunks|
    ensures |Stripped(chunks[..j])| <= 10_485_760 <==> j <= Accepted(chunks)
  {
    if chunks != [] {
      var n := |chunks| - 1;
      var front := chunks[..n];
      assert chunks[..|chunks|] == chunks;
      if j <= n {
        AcceptedIsLongestFitting(front, j);
        assert front[..j] == chunks[..j];
      } else {
        AcceptedIsLongestFitting(front, n);
        assert front[..n] == front;
        StrippedGrows(chunks, n, n + 1);
      }
    }
  }

  /** The buffer never exceeds its cap, and no escape character gets into it. */
  lemma ContentsCappedAndClean(chunks: seq<Bytes>)
    ensures |Contents(chunks)| <= 10_485_760 && 0x1B !in Contents(chunks)
  {
    AcceptedIsLongestFitting(chunks, Accepted(chunks));
    StrippedEscFree(chunks[..Accepted(chunks)]);
  }

  lemma {:induction false} StrippedEscFree(chunks: seq<Bytes>)
    ensures EscFree(Stripped(chunks))
  {
    if chunks != [] {
      StrippedEscFree(chunks[..|chunks| - 1]);
      StripSelects(Text, chunks[|chunks| - 1]);
    }
  }

  /** Once a chunk has been refused, nothing changes until the next reset. */
  lemma {:induction false} OverflowLatches(chunks: seq<Bytes>, later: seq<Bytes>)
    requires Accepted(chunks) < |chunks|
    ensures var all := chunks + later;
            Accepted(all) == Accepted(chunks) && all[..Accepted(all)] == chunks[..Accepted(chunks)]
    decreases |later|
  {
    if later == [] {
      assert chunks + later == chunks;
    } else {
      var (front, last) := (later[..|later| - 1], later[|later| - 1]);
      OverflowLatches(chunks, front);
      assert chunks + later == (chunks + front) + [last];
      WriteExtends(chunks + front, last);
    }
  }

  /** The phase announced by the first `n` bytes of a text, or by all of it. */
  function Announced(text: Bytes, n: nat, m: Matcher): Phase {
    DetectPhaseTrigger(if |text| <= n then text else text[..n], m)
  }

  /** The phase is that of the first chunk that, stripped of its escape sequences, has a
      trigger in its first 4096 bytes. */
  lemma {:induction false} PhaseIsFirstTrigger(chunks: seq<Bytes>, m: Matcher, i: nat)
    requires i < |chunks| && Announced(Strip(chunks[i]), 4096, m) != PhaseUnknown
    requires forall j :: 0 <= j < i ==> Announced(Strip(chunks[j]), 4096, m) == PhaseUnknown
    ensures FirstPhase(chunks, m) == Announced(Strip(chunks[i]), 4096, m)
  {
    hide Strip, DetectPhaseTrigger;
    var front := chunks[..|chunks| - 1];
    if i < |front| {
      PhaseIsFirstTrigger(front, m, i);
    } else {
      NoTriggerNoPhase(front, m);
    }
  }

  lemma {:induction false} NoTriggerNoPhase(chunks: seq<Bytes>, m: Matcher)
    ensures FirstPhase(chunks, m) == PhaseUnknown <==>
            forall j :: 0 <= j < |chunks| ==> Announced(Strip(chunks[j]), 4096, m) == PhaseUnknown
  {
    hide Strip, DetectPhaseTrigger;
    if chunks != [] {
      var front := chunks[..|chunks| - 1];
      NoTriggerNoPhase(front, m);
      assert forall j :: 0 <= j < |front| ==> front[j] == chunks[j];
    }
  }

  // ---------- chunk by chunk, or all at once ----------

  /** No chunk but the last ends inside a sequence. */
  predicate CutAtBoundaries(chunks: seq<Bytes>) {
    forall i :: 0 <= i < |chunks| - 1 ==> AtBoundary(chunks[i])
  }

  lemma {:induction false} StrippedIsStrip(chunks: seq<Bytes>)
    requires CutAtBoundaries(chunks)
    ensures Stripped(chunks) == Strip(Concat(chunks))
    ensures chunks == [] || AtBoundary(chunks[|chunks| - 1]) ==> AtBoundary(Concat(chunks))
  {
    if chunks != [] {
      var (front, last) := (chunks[..|chunks| - 1], chunks[|chunks| - 1]);
      StrippedIsStrip(front);
      assert chunks == front + [last];
      ConcatSnoc(front, last);
      StripAppend(Text, Concat(front), last);
    }
  }

  /** If the accepted chunks are cut at boundaries, the buffer holds the stripped
      stream. */
  lemma BufferIsWholeStream(chunks: seq<Bytes>)
    requires CutAtBoundaries(chunks[..Accepted(chunks)])
    ensures Contents(chunks) == Strip(Concat(chunks[..Accepted(chunks)]))
  {
    StrippedIsStrip(chunks[..Accepted(chunks)]);
  }

  /** Everything so far was accepted, and is the stripped stream. */
  predicate InStep(chunks: seq<Bytes>) {
    Accepted(chunks) == |chunks| && Contents(chunks) == Strip(Concat(chunks))
  }

  predicate InControlString(m: Mode) {
    m == In(StringShape) || m == AfterEsc(StringShape)
  }

  /** Nothing that a full buffer can still accept can bring a control string to its end
      and then show anything: what ends it also ends whatever the chunk has opened. */
  predicate Shadows(m: Mode, n: Mode) {
    || m == n
    || n == In(StringShape)
    || (n == AfterEsc(StringShape) && m != In(OscShape) && m != In(StringShape))
  }

  lemma {:induction false} ShadowShowsNothing(m: Mode, n: Mode, s: Bytes)
    requires Shadows(m, n) && StripFrom(m, s) == []
    ensures StripFrom(n, s) == []
    decreases |s|
  {
    if s != [] {
      ShadowShowsNothing(Next(m, s[0]), Next(n, s[0]), s[1..]);
    }
  }

  lemma NextChunk(chunks: seq<Bytes>, data: Bytes)
    requires InStep(chunks)
    ensures var more := chunks + [data];
            && (Accepted(more) == |more| <==> |Contents(chunks)| + |Strip(data)| <= MAX_BUFFER_SIZE)
            && (Accepted(more) == |more| ==> Contents(more) == Contents(chunks) + Strip(data))
            && Strip(Concat(more)) == Contents(chunks) + StripFrom(ModeAfter(Text, Concat(chunks)), data)
  {
    WriteExtends(chunks, data);
    ConcatSnoc(chunks, data);
    StripAppend(Text, Concat(chunks), data);
  }

  /** A chunk that strips to nothing by itself, and shows something behind a sequence
      that is not a control string: ESC P BEL y. */
  const PROBE: Bytes := [ESC, 0x50, BEL, 0x79]

  lemma ProbeShows(m: Mode)
    requires m != Text && !InControlString(m)
    ensures Strip(PROBE) == [] && StripFrom(m, PROBE) != []
  {
    var (a, b, c) := (PROBE[1..], PROBE[2..], PROBE[3..]);
    assert PROBE[1..] == a && a[1..] == b && b[1..] == c && c[1..] == [];
    assert StripFrom(In(StringShape), c) == [];
    assert StripFrom(In(StringShape), b) == [];
    assert StripFrom(Esc, a) == [];
    var m1 := Next(m, ESC);
    var m2 := Next(m1, 0x50);
    var m3 := Next(m2, BEL);
    assert m3 == Text;
    assert StripFrom(Text, c) == [0x79];
    assert |StripFrom(m2, b)| >= 1;
    assert |StripFrom(m1, a)| >= 1;
  }

  lemma LetterShows(m: Mode)
    ensures StripFrom(m, [0x79]) == if m == Text then [0x79] else []
  {
    assert [0x79][1..] == [];
  }

  /** Once chunk by chunk has been as good as all at once, it stays so for every
      further chunk that fits exactly if the stream ends at a boundary, or the buffer
      is full and the stream ends in a control string. */
  lemma StaysInStepExactly(chunks: seq<Bytes>)
    requires InStep(chunks)
    ensures var m := ModeAfter(Text, Concat(chunks));
            (forall data :: Accepted(chunks + [data]) == |chunks| + 1 ==> InStep(chunks + [data]))
            <==> m == Text || (|Contents(chunks)| == 10_485_760 && InControlString(m))
  {
    var m := ModeAfter(Text, Concat(chunks));
    ContentsCappedAndClean(chunks);
    if m == Text || (|Contents(chunks)| == MAX_BUFFER_SIZE && InControlString(m)) {
      forall data | Accepted(chunks + [data]) == |chunks| + 1 ensures InStep(chunks + [data]) {
        NextChunk(chunks, data);
        if m != Text {
          assert Strip(data) == [];
          ShadowShowsNothing(Text, m, data);
        }
      }
    } else {
      var data := if InControlString(m) then [0x79] else PROBE;
      NextChunk(chunks, data);
      if InControlString(m) {
        LetterShows(Text);
        LetterShows(m);
      } else {
        ProbeShows(m);
      }
      assert Accepted(chunks + [data]) == |chunks| + 1 && !InStep(chunks + [data]);
    }
  }

  /** In general it does not: a control sequence cut between two chunks leaves its
      second half in the buffer. */
  lemma CutSequenceLeavesRest()
    ensures Stripped([[ESC, BRACKET], [0x41]]) == [0x41]
    ensures Strip(Concat([[ESC, BRACKET], [0x41]])) == []
  {
    var (a, b) := ([ESC, BRACKET], [0x41]);
    CutOffStrips(a);
    assert b[1..] == [] && Strip(b) == b;
    assert Stripped([a, b]) == b by {
      assert [a, b][..1] == [a] && [a][..0] == [];
      assert Stripped([a]) == [] + Strip(a);
    }
    assert a + b == Print(Control([], 0x41));
    PieceStrips(Control([], 0x41));
    assert [a, b] == [a] + [b];
    ConcatSnoc([a], b);
    assert Concat([a]) == a + [];
  }
}
