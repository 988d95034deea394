/** The stdin filter of cmd/loopai/filter_csi.go as a labelled machine, and the
    whole-string grammar it decides.

    A factor is a stretch of the input that the filter treats as one unit. The
    machine announces each factor when its last byte arrives; the grammar says
    which texts a factor of each kind may have, without mentioning states. */
module FilterGrammar {
  import opened Bytes

  datatype Kind =
    | Plain      // a byte that is not ESC
    | Escape     // ESC and a byte that opens nothing
    | Ss3        // ESC O and any byte
    | Csi        // a complete control sequence
    | Aborted    // a control sequence ended by a byte it cannot contain
    | Cut        // a control sequence interrupted by the next ESC

  datatype Factor = Factor(kind: Kind, text: Bytes)

  predicate Discarded(k: Kind) {
    k.Ss3? || k.Csi?
  }

  // ---------- the grammar ----------

  predicate IsDigitOrSemicolon(b: Byte) {
    0x30 <= b <= 0x39 || b == 0x3B
  }

  /** ESC [ p*, with p in 0x20..0x3F other than '<'. */
  predicate CsiPrefix(t: Bytes) {
    && |t| >= 2 && t[0] == ESC && t[1] == BRACKET
    && forall i :: 2 <= i < |t| ==> IsParameter(t[i]) && t[i] != LT
  }

  /** ESC [ p* < q*, where the '<' is at position k and q is a digit or ';'. */
  predicate CsiUPrefixAt(t: Bytes, k: nat) {
    && 2 <= k < |t| && CsiPrefix(t[..k]) && t[k] == LT
    && forall i :: k < i < |t| ==> IsDigitOrSemicolon(t[i])
  }

  ghost predicate CsiUPrefix(t: Bytes) {
    exists k: nat :: CsiUPrefixAt(t, k)
  }

  ghost predicate IsFactor(f: Factor) {
    var t := f.text;
    && t != []
    && var (front, last) := (t[..|t| - 1], t[|t| - 1]);
       match f.kind
       case Plain => |t| == 1 && last != ESC
       case Escape => |t| == 2 && t[0] == ESC && last != BRACKET && last != CAPITAL_O
       case Ss3 => |t| == 3 && t[0] == ESC && t[1] == CAPITAL_O
       case Csi => IsFinal(last) && (CsiPrefix(front) || CsiUPrefix(front))
       case Aborted =>
         && last != ESC && !IsFinal(last)
         && ((CsiPrefix(front) && !IsParameter(last)) || (CsiUPrefix(front) && !IsDigitOrSemicolon(last)))
       case Cut => CsiPrefix(t) || CsiUPrefix(t)
  }

  /** What may be left when the input ends in the middle of a sequence. */
  ghost predicate IsTail(t: Bytes) {
    t == [] || t == [ESC] || t == [ESC, CAPITAL_O] || CsiPrefix(t) || CsiUPrefix(t)
  }

  function Text(fs: seq<Factor>): Bytes {
    if fs == [] then [] else fs[0].text + Text(fs[1..])
  }

  /** The texts of the factors that are not discarded, one per write. */
  function KeptTexts(fs: seq<Factor>): seq<Bytes> {
    if fs == [] then []
    else (if Discarded(fs[0].kind) then [] else [fs[0].text]) + KeptTexts(fs[1..])
  }

  /** The input with its discarded factors deleted. */
  function Output(fs: seq<Factor>, tail: Bytes): Bytes {
    Concat(KeptTexts(fs)) + tail
  }

  predicate StartsWithEsc(t: Bytes) {
    t != [] && t[0] == ESC
  }

  /** `fs` and then `tail` is a reading of `s`: every factor has the text its
      kind demands, and a cut sequence is followed by the ESC that cut it. */
  ghost predicate Reading(s: Bytes, fs: seq<Factor>, tail: Bytes) {
    if fs == [] then s == tail && IsTail(tail)
    else
      && IsFactor(fs[0])
      && fs[0].text <= s
      && var rest := s[|fs[0].text|..];
         && (fs[0].kind.Cut? ==> StartsWithEsc(rest))
         && Reading(rest, fs[1..], tail)
  }

  // ---------- the machine ----------

  datatype State = Normal | Esc | InCsi | InCsiU | InSs3

  datatype Machine = Machine(state: State, pending: Bytes)

  const START := Machine(Normal, [])

  datatype Run = Run(machine: Machine, factors: seq<Factor>)

  /** One byte: the next configuration and the factor, if any, that ends here. */
  function Step(m: Machine, b: Byte): Run {
    var grown := m.pending + [b];
    match m.state
    case Normal =>
      if b == ESC then Run(Machine(Esc, [b]), []) else Run(m, [Factor(Plain, [b])])
    case Esc =>
      if b == BRACKET then Run(Machine(InCsi, grown), [])
      else if b == CAPITAL_O then Run(Machine(InSs3, grown), [])
      else Run(START, [Factor(Escape, grown)])
    case InCsi =>
      if b == LT then Run(Machine(InCsiU, grown), [])
      else if IsFinal(b) then Run(START, [Factor(Csi, grown)])
      else if IsParameter(b) then Run(Machine(InCsi, grown), [])
      else if b == ESC then Run(Machine(Esc, [b]), [Factor(Cut, m.pending)])
      else Run(START, [Factor(Aborted, grown)])
    case InCsiU =>
      if IsDigitOrSemicolon(b) then Run(Machine(InCsiU, grown), [])
      else if IsFinal(b) then Run(START, [Factor(Csi, grown)])
      else if b == ESC then Run(Machine(Esc, [b]), [Factor(Cut, m.pending)])
      else Run(START, [Factor(Aborted, grown)])
    case InSs3 =>
      Run(START, [Factor(Ss3, grown)])
  }

  function RunFrom(m: Machine, s: Bytes): Run
    decreases |s|
  {
    if s == [] then Run(m, [])
    else
      var first := Step(m, s[0]);
      var rest := RunFrom(first.machine, s[1..]);
      Run(rest.machine, first.factors + rest.factors)
  }

  function RunAll(s: Bytes): Run {
    RunFrom(START, s)
  }

  /** What a reader that ends after `s` makes the filter write. */
  function Filter(s: Bytes): Bytes {
    var r := RunAll(s);
    Output(r.factors, r.machine.pending)
  }

  // ---------- running in pieces ----------

  lemma {:induction false} RunAppend(m: Machine, a: Bytes, b: Bytes)
    ensures var first := RunFrom(m, a);
            var second := RunFrom(first.machine, b);
            RunFrom(m, a + b) == Run(second.machine, first.factors + second.factors)
    decreases |a|
  {
    if a == [] {
      assert a + b == b;
    } else {
      assert (a + b)[1..] == a[1..] + b;
      RunAppend(Step(m, a[0]).machine, a[1..], b);
    }
  }

  lemma RunOne(m: Machine, b: Byte)
    ensures RunFrom(m, [b]) == Step(m, b)
  {
    var r := Step(m, b);
    assert [b][1..] == [];
    assert r.factors + [] == r.factors;
  }

  lemma RunSnoc(m: Machine, a: Bytes, b: Byte)
    ensures var first := RunFrom(m, a);
            var last := Step(first.machine, b);
            RunFrom(m, a + [b]) == Run(last.machine, first.factors + last.factors)
  {
    RunAppend(m, a, [b]);
    RunOne(RunFrom(m, a).machine, b);
  }

  lemma RunTwo(m: Machine, a: Byte, b: Byte)
    ensures var first := Step(m, a);
            var last := Step(first.machine, b);
            RunFrom(m, [a, b]) == Run(last.machine, first.factors + last.factors)
  {
    assert [a, b] == [a] + [b];
    RunOne(m, a);
    RunSnoc(m, [a], b);
  }

  lemma {:induction false} KeptAppend(a: seq<Factor>, b: seq<Factor>)
    ensures KeptTexts(a + b) == KeptTexts(a) + KeptTexts(b)
  {
    if a == [] {
      assert a + b == b;
    } else {
      assert (a + b)[1..] == a[1..] + b;
      KeptAppend(a[1..], b);
    }
  }

  // ---------- the step invariant ----------

  /** The pending bytes always match the prefix language of the state. */
  ghost predicate PendingMatches(m: Machine) {
    match m.state
    case Normal => m.pending == []
    case Esc => m.pending == [ESC]
    case InSs3 => m.pending == [ESC, CAPITAL_O]
    case InCsi => CsiPrefix(m.pending)
    case InCsiU => CsiUPrefix(m.pending)
  }

  lemma CsiUGrows(t: Bytes, b: Byte)
    requires (CsiPrefix(t) && b == LT) || (CsiUPrefix(t) && IsDigitOrSemicolon(b))
    ensures CsiUPrefix(t + [b])
  {
    var grown := t + [b];
    if CsiPrefix(t) && b == LT {
      assert grown[..|t|] == t;
      assert CsiUPrefixAt(grown, |t|);
    } else {
      var k: nat :| CsiUPrefixAt(t, k);
      assert grown[..k] == t[..k];
      assert CsiUPrefixAt(grown, k);
    }
  }

  lemma CsiUStart(t: Bytes)
    requires CsiUPrefix(t)
    ensures |t| >= 3 && t[0] == ESC && t[1] == BRACKET
  {
    var k: nat :| CsiUPrefixAt(t, k);
    assert t[..k][0] == t[0] && t[..k][1] == t[1];
  }

  lemma StepPending(m: Machine, b: Byte)
    requires PendingMatches(m)
    ensures PendingMatches(Step(m, b).machine)
  {
    if Step(m, b).machine.state == InCsiU {
      CsiUGrows(m.pending, b);
    }
  }

  lemma StepFactor(m: Machine, b: Byte)
    requires PendingMatches(m) && Step(m, b).factors != []
    ensures var r := Step(m, b);
            && |r.factors| == 1
            && IsFactor(r.factors[0])
            && r.factors[0].text + r.machine.pending == m.pending + [b]
            && (r.factors[0].kind.Cut? ==> r.machine.pending == [ESC])
  {
    var f := Step(m, b).factors[0];
    if f.kind.Cut? {
      if m.state == InCsiU {
        CsiUStart(m.pending);
      }
    } else {
      assert f.text[..|f.text| - 1] == m.pending;
    }
  }

  lemma ReadingCons(f: Factor, rest: Bytes, fs: seq<Factor>, tail: Bytes)
    requires IsFactor(f) && Reading(rest, fs, tail) && (f.kind.Cut? ==> StartsWithEsc(rest))
    ensures Reading(f.text + rest, [f] + fs, tail)
  {
    assert (f.text + rest)[|f.text|..] == rest;
    assert ([f] + fs)[1..] == fs;
  }

  /** A byte keeps the invariant, and what was pending plus the byte reads as the
      announced factor plus what is pending now. */
  lemma StepInvariant(m: Machine, b: Byte)
    requires PendingMatches(m)
    ensures PendingMatches(Step(m, b).machine)
    ensures Reading(m.pending + [b], Step(m, b).factors, Step(m, b).machine.pending)
  {
    var r := Step(m, b);
    StepPending(m, b);
    if r.factors != [] {
      StepFactor(m, b);
      ReadingCons(r.factors[0], r.machine.pending, [], r.machine.pending);
      assert r.factors == [r.factors[0]] + [];
    } else {
      assert r.machine.pending == m.pending + [b];
    }
  }

  // ---------- the machine decides the grammar ----------

  lemma {:induction false} ReadingExtends(s: Bytes, fs: seq<Factor>, t: Bytes, b: Byte, gs: seq<Factor>, tail: Bytes)
    requires Reading(s, fs, t) && Reading(t + [b], gs, tail)
    ensures Reading(s + [b], fs + gs, tail)
  {
    if fs == [] {
      assert fs + gs == gs;
    } else {
      var n := |fs[0].text|;
      assert (s + [b])[n..] == s[n..] + [b];
      assert (fs + gs)[1..] == fs[1..] + gs;
      ReadingExtends(s[n..], fs[1..], t, b, gs, tail);
    }
  }

  /** Every input has a reading: the one the machine announces. */
  lemma {:induction false} RunReads(s: Bytes)
    ensures var r := RunAll(s);
            PendingMatches(r.machine) && Reading(s, r.factors, r.machine.pending)
  {
    if s != [] {
      var (front, b) := (s[..|s| - 1], s[|s| - 1]);
      assert s == front + [b];
      RunReads(front);
      RunSnoc(START, front, b);
      var before := RunAll(front);
      var last := Step(before.machine, b);
      StepInvariant(before.machine, b);
      ReadingExtends(front, before.factors, before.machine.pending, b, last.factors, last.machine.pending);
    }
  }

  lemma {:induction false} RunCsiPrefix(t: Bytes)
    requires CsiPrefix(t)
    ensures RunAll(t) == Run(Machine(InCsi, t), [])
    decreases |t|
  {
    var (front, b) := (t[..|t| - 1], t[|t| - 1]);
    assert t == front + [b];
    if |t| == 2 {
      assert t == [ESC, BRACKET];
      RunTwo(START, ESC, BRACKET);
    } else {
      RunCsiPrefix(front);
      RunSnoc(START, front, b);
    }
  }

  lemma {:induction false} RunCsiUPrefix(t: Bytes, k: nat)
    requires CsiUPrefixAt(t, k)
    ensures RunAll(t) == Run(Machine(InCsiU, t), [])
    decreases |t|
  {
    var (front, b) := (t[..|t| - 1], t[|t| - 1]);
    assert t == front + [b];
    if |front| == k {
      RunCsiPrefix(front);
    } else {
      assert front[..k] == t[..k];
      RunCsiUPrefix(front, k);
    }
    RunSnoc(START, front, b);
  }

  /** An interrupted sequence is all pending. */
  lemma RunTail(t: Bytes)
    requires IsTail(t)
    ensures RunAll(t).factors == [] && RunAll(t).machine.pending == t
    ensures CsiPrefix(t) ==> RunAll(t).machine.state == InCsi
    ensures CsiUPrefix(t) ==> RunAll(t).machine.state == InCsiU
  {
    if CsiPrefix(t) {
      RunCsiPrefix(t);
    } else if CsiUPrefix(t) {
      var k: nat :| CsiUPrefixAt(t, k);
      RunCsiUPrefix(t, k);
    } else if t == [ESC, CAPITAL_O] {
      RunTwo(START, ESC, CAPITAL_O);
    }
  }

  lemma CsiUNotCsi(t: Bytes)
    requires CsiUPrefix(t)
    ensures !CsiPrefix(t)
  {
    var k: nat :| CsiUPrefixAt(t, k);
  }

  lemma RunShortFactor(f: Factor)
    requires IsFactor(f) && (f.kind.Plain? || f.kind.Escape? || f.kind.Ss3?)
    ensures RunAll(f.text) == Run(START, [f])
  {
    hide CsiPrefix, CsiUPrefix, RunFrom;
    var t := f.text;
    var front := t[..|t| - 1];
    assert t == front + [t[|t| - 1]];
    if f.kind.Plain? {
      assert t == [t[0]];
      RunOne(START, t[0]);
    } else {
      RunTwo(START, ESC, t[1]);
      if f.kind.Escape? {
        assert t == [ESC, t[1]] == [ESC] + [t[1]];
        assert f == Factor(Escape, t);
      } else {
        assert front == [ESC, CAPITAL_O] == [ESC] + [CAPITAL_O] && t[1] == front[1];
        RunSnoc(START, front, t[2]);
        assert f == Factor(Ss3, t) && front + [t[2]] == t;
      }
    }
  }

  lemma RunSequenceFactor(f: Factor)
    requires IsFactor(f) && (f.kind.Csi? || f.kind.Aborted?)
    ensures RunAll(f.text) == Run(START, [f])
  {
    hide RunFrom;
    var t := f.text;
    var (front, last) := (t[..|t| - 1], t[|t| - 1]);
    assert t == front + [last];
    RunTail(front);
    if CsiUPrefix(front) {
      CsiUNotCsi(front);
    }
    RunSnoc(START, front, last);
  }

  /** A factor that no ESC cuts is announced with its last byte. */
  lemma RunFactor(f: Factor)
    requires IsFactor(f) && !f.kind.Cut?
    ensures RunAll(f.text) == Run(START, [f])
  {
    hide RunFrom, IsFactor;
    if f.kind.Csi? || f.kind.Aborted? {
      RunSequenceFactor(f);
    } else {
      RunShortFactor(f);
    }
  }

  /** A cut sequence is announced by the ESC after it, which then counts as the
      first byte of what follows. */
  lemma RunCut(f: Factor, rest: Bytes)
    requires IsFactor(f) && f.kind.Cut? && StartsWithEsc(rest)
    ensures var r := RunAll(rest);
            RunAll(f.text + rest) == Run(r.machine, [f] + r.factors)
  {
    var t := f.text;
    RunTail(t);
    RunAppend(START, t, rest);
    var m := RunAll(t).machine;
    assert Step(m, ESC) == Run(Machine(Esc, [ESC]), [f]);
    assert Step(START, ESC) == Run(Machine(Esc, [ESC]), []);
    assert RunFrom(m, rest) == Run(RunAll(rest).machine, [f] + RunAll(rest).factors);
  }

  lemma {:induction false} ReadingIsRun(s: Bytes, fs: seq<Factor>, tail: Bytes)
    requires Reading(s, fs, tail)
    ensures RunAll(s).factors == fs && RunAll(s).machine.pending == tail
  {
    if fs == [] {
      RunTail(s);
    } else {
      var (f, rest) := (fs[0], s[|fs[0].text|..]);
      assert s == f.text + rest;
      ReadingIsRun(rest, fs[1..], tail);
      assert fs == [f] + fs[1..];
      if f.kind.Cut? {
        RunCut(f, rest);
      } else {
        RunFactor(f);
        RunAppend(START, f.text, rest);
      }
    }
  }

  /** The input has exactly one reading, and the machine finds it. */
  lemma MachineDecidesGrammar(s: Bytes, fs: seq<Factor>, tail: Bytes)
    ensures Reading(s, fs, tail) <==> (RunAll(s).factors == fs && RunAll(s).machine.pending == tail)
  {
    RunReads(s);
    if Reading(s, fs, tail) {
      ReadingIsRun(s, fs, tail);
    }
  }

  /** A reading accounts for every byte of the input, in order. */
  lemma {:induction false} ReadingCovers(s: Bytes, fs: seq<Factor>, tail: Bytes)
    requires Reading(s, fs, tail)
    ensures s == Text(fs) + tail
  {
    if fs != [] {
      ReadingCovers(s[|fs[0].text|..], fs[1..], tail);
      assert s == fs[0].text + s[|fs[0].text|..];
    }
  }

  /** Whatever reading of `s` one is given, `Filter` writes its factors without the
      discarded ones, and the interrupted tail. */
  lemma FilterDeletesDiscarded(s: Bytes, fs: seq<Factor>, tail: Bytes)
    requires Reading(s, fs, tail)
    ensures s == Text(fs) + tail
    ensures Filter(s) == Output(fs, tail)
  {
    ReadingCovers(s, fs, tail);
    ReadingIsRun(s, fs, tail);
  }

  // ---------- where a stream may be cut ----------

  lemma FilterSplits(a: Bytes, b: Bytes)
    requires RunAll(a).machine.state == Normal
    ensures Filter(a + b) == Filter(a) + Filter(b)
  {
    hide RunFrom, KeptTexts, Concat, Reading;
    var (r, r') := (RunAll(a), RunAll(b));
    RunReads(a);
    RunAppend(START, a, b);
    KeptAppend(r.factors, r'.factors);
    ConcatAppend(KeptTexts(r.factors), KeptTexts(r'.factors));
    var (k, k') := (Concat(KeptTexts(r.factors)), Concat(KeptTexts(r'.factors)));
    assert Filter(a) == k + [] == k;
    assert k + k' + r'.machine.pending == k + (k' + r'.machine.pending);
  }

  /** A continuation that completes, hence discards, the pending sequence. */
  function Completion(s: State): Bytes {
    if s == Esc then [BRACKET, 0x41] else [0x41]
  }

  lemma CompletionDiscards(m: Machine)
    requires PendingMatches(m) && m.state != Normal
    ensures var r := RunFrom(m, Completion(m.state));
            r.machine == START && KeptTexts(r.factors) == []
  {
    if m.state == Esc {
      RunTwo(m, BRACKET, 0x41);
    } else {
      RunOne(m, 0x41);
    }
  }

  /** Filtering piece by piece is filtering the whole, for every second piece,
      exactly when the first piece does not end inside a sequence. */
  lemma BoundaryExact(a: Bytes)
    ensures (forall b :: Filter(a + b) == Filter(a) + Filter(b)) <==> RunAll(a).machine.state == Normal
  {
    RunReads(a);
    var m := RunAll(a).machine;
    if m.state == Normal {
      forall b ensures Filter(a + b) == Filter(a) + Filter(b) {
        FilterSplits(a, b);
      }
    } else {
      var b := Completion(m.state);
      RunAppend(START, a, b);
      CompletionDiscards(m);
      var r := RunFrom(m, b);
      KeptAppend(RunAll(a).factors, r.factors);
      assert KeptTexts(RunAll(a).factors) + [] == KeptTexts(RunAll(a).factors);
      assert |Filter(a + b)| < |Filter(a)|;
    }
  }

  lemma OutputCons(f: Factor, more: seq<Factor>, tail: Bytes)
    ensures Output([f] + more, tail) == (if Discarded(f.kind) then [] else f.text) + Output(more, tail)
  {
    assert ([f] + more)[1..] == more;
    ConcatAppend([f.text], KeptTexts(more));
    assert Concat([f.text]) == f.text + [];
    assert [] + KeptTexts(more) == KeptTexts(more);
  }

  /** A factor in front of a stream. */
  lemma FilterOne(f: Factor, rest: Bytes)
    requires IsFactor(f) && !f.kind.Cut?
    ensures Filter(f.text + rest) == (if Discarded(f.kind) then [] else f.text) + Filter(rest)
    ensures RunAll(f.text + rest).machine == RunAll(rest).machine
  {
    RunFactor(f);
    RunAppend(START, f.text, rest);
    OutputCons(f, RunAll(rest).factors, RunAll(rest).machine.pending);
  }

  /** ESC [ A is discarded as a whole and kept when it is cut before the A. */
  lemma FilterInPieces()
    ensures Filter([ESC, BRACKET] + [0x41]) == []
    ensures Filter([ESC, BRACKET]) + Filter([0x41]) == [ESC, BRACKET, 0x41]
  {
    var (arrow, letter) := (Factor(Csi, [ESC, BRACKET, 0x41]), Factor(Plain, [0x41]));
    assert arrow.text[..2] == [ESC, BRACKET] && [ESC, BRACKET] + [0x41] == arrow.text;
    RunFactor(arrow);
    OutputCons(arrow, [], []);
    RunTail([ESC, BRACKET]);
    RunFactor(letter);
    OutputCons(letter, [], []);
    assert [arrow] + [] == [arrow] && [letter] + [] == [letter];
    assert Output([], []) == [] && Output([], [ESC, BRACKET]) == [ESC, BRACKET];
  }
}
