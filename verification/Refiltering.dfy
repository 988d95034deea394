/** Filtering a second time (cmd/loopai/filter_csi.go:32-159). Discarding what stood
    behind a cut sequence can put the cut sequence next to text that completes it;
    this is the only way in which a second pass finds something to discard. */
module Refiltering {
  import opened Bytes
  import opened FilterGrammar

  /** What a first pass keeps. */
  function KeptFactors(fs: seq<Factor>): seq<Factor> {
    if fs == [] then []
    else (if Discarded(fs[0].kind) then [] else [fs[0]]) + KeptFactors(fs[1..])
  }

  // ---------- cut sequences that meet their completion ----------

  ghost predicate IsOpen(t: Bytes) {
    CsiPrefix(t) || CsiUPrefix(t)
  }

  /** The plain bytes at the beginning of `ks` complete the open sequence `t`. */
  ghost predicate Completes(t: Bytes, ks: seq<Factor>)
    decreases |ks|
  {
    && ks != [] && ks[0].kind.Plain? && ks[0].text != []
    && var b := ks[0].text[0];
       IsFinal(b) || (IsOpen(t + [b]) && Completes(t + [b], ks[1..]))
  }

  /** Some cut sequence is followed by plain bytes that complete it. */
  ghost predicate Merges(ks: seq<Factor>) {
    && ks != []
    && ((ks[0].kind.Cut? && Completes(ks[0].text, ks[1..])) || Merges(ks[1..]))
  }

  ghost predicate Discards(s: Bytes) {
    exists f :: f in RunAll(s).factors && Discarded(f.kind)
  }

  ghost predicate AllKept(ks: seq<Factor>) {
    forall f <- ks :: IsFactor(f) && !Discarded(f.kind)
  }

  /** A factor in front of a string is discarded or not, and so is what follows. */
  lemma DiscardsBehind(f: Factor, rest: Bytes)
    requires IsFactor(f) && (f.kind.Cut? ==> StartsWithEsc(rest))
    ensures Discards(f.text + rest) <==> Discarded(f.kind) || Discards(rest)
  {
    hide IsFactor, RunFrom;
    if f.kind.Cut? {
      RunCut(f, rest);
    } else {
      RunFactor(f);
      RunAppend(START, f.text, rest);
    }
    var all := RunAll(f.text + rest).factors;
    assert all == [f] + RunAll(rest).factors;
    assert f in all && forall g :: g in all <==> g == f || g in RunAll(rest).factors;
  }

  lemma TailDiscardsNothing(t: Bytes)
    requires IsTail(t)
    ensures !Discards(t)
  {
    RunTail(t);
  }

  lemma FactorStart(f: Factor)
    requires IsFactor(f)
    ensures f.kind.Plain? ==> f.text == [f.text[0]] && f.text[0] != ESC
    ensures !f.kind.Plain? ==> StartsWithEsc(f.text)
  {
    if !f.kind.Plain? && |f.text| > 1 {
      OpenStart(f.text[..|f.text| - 1]);
      OpenStart(f.text);
    }
  }

  lemma OpenStart(t: Bytes)
    ensures IsOpen(t) ==> StartsWithEsc(t)
  {
    if CsiUPrefix(t) {
      CsiUStart(t);
    }
  }

  /** A byte after an open sequence: it completes it, extends it or aborts it. */
  lemma OpenPlusByte(t: Bytes, b: Byte)
    requires IsOpen(t) && b != ESC && !IsOpen(t + [b])
    ensures IsFactor(Factor(if IsFinal(b) then Csi else Aborted, t + [b]))
  {
    var grown := t + [b];
    assert grown[..|grown| - 1] == t;
    if CsiUPrefix(t) && IsDigitOrSemicolon(b) {
      CsiUGrows(t, b);
    }
    if CsiPrefix(t) && b == LT {
      CsiUGrows(t, b);
    }
  }

  lemma FinalCloses(t: Bytes, b: Byte)
    requires IsOpen(t) && IsFinal(b)
    ensures !IsOpen(t + [b])
  {
    var grown := t + [b];
    assert grown[|t|] == b;
    if k: nat :| CsiUPrefixAt(grown, k) {
      assert k == |t| || IsDigitOrSemicolon(grown[|t|]);
    }
  }

  lemma {:induction false} KeptDiscards(ks: seq<Factor>, tail: Bytes)
    requires AllKept(ks) && IsTail(tail) && (tail != [] ==> tail[0] == ESC)
    ensures Discards(Text(ks) + tail) <==> Merges(ks)
    decreases |ks|, 0
  {
    hide IsFactor, Discards, IsTail;
    if ks == [] {
      assert [] + tail == tail;
      TailDiscardsNothing(tail);
    } else {
      var (f, rest) := (ks[0], Text(ks[1..]) + tail);
      assert f in ks && f.text + rest == Text(ks) + tail;
      if f.kind.Cut? {
        CutIsOpen(f);
        OpenDiscards(f.text, ks[1..], tail);
      } else {
        KeptDiscards(ks[1..], tail);
        DiscardsBehind(f, rest);
      }
    }
  }

  lemma CutIsOpen(f: Factor)
    requires IsFactor(f)
    ensures f.kind.Cut? <==> IsOpen(f.text)
    ensures IsOpen(f.text) ==> IsTail(f.text)
  {
    if IsOpen(f.text) {
      RunTail(f.text);
      if !f.kind.Cut? {
        RunFactor(f);
      }
    }
  }

  /** Behind an open sequence `t` the kept factors read as before, except that plain
      bytes at their beginning are drawn into it. */
  lemma {:induction false} OpenDiscards(t: Bytes, ks: seq<Factor>, tail: Bytes)
    requires IsOpen(t) && AllKept(ks) && IsTail(tail) && (tail != [] ==> tail[0] == ESC)
    ensures Discards(t + (Text(ks) + tail)) <==> Completes(t, ks) || Merges(ks)
    decreases |ks|, 1
  {
    hide IsFactor, Discards, IsTail, IsOpen;
    var rest := Text(ks) + tail;
    if ks == [] && tail == [] {
      assert t + rest == t;
      OpenIsTail(t);
      TailDiscardsNothing(t);
    } else if ks == [] || !ks[0].kind.Plain? {
      RestStartsWithEsc(ks, tail);
      OpenIsTail(t);
      DiscardsBehind(Factor(Cut, t), rest);
      KeptDiscards(ks, tail);
    } else {
      var (f, more) := (ks[0], Text(ks[1..]) + tail);
      assert f in ks;
      FactorStart(f);
      var b := f.text[0];
      var grown := t + [b];
      assert t + rest == grown + more;
      if IsOpen(grown) {
        if IsFinal(b) {
          FinalCloses(t, b);
        }
        OpenDiscards(grown, ks[1..], tail);
      } else {
        OpenPlusByte(t, b);
        DiscardsBehind(Factor(if IsFinal(b) then Csi else Aborted, grown), more);
        KeptDiscards(ks[1..], tail);
      }
    }
  }

  lemma OpenIsTail(t: Bytes)
    requires IsOpen(t)
    ensures IsTail(t) && IsFactor(Factor(Cut, t))
  {
  }

  lemma RestStartsWithEsc(ks: seq<Factor>, tail: Bytes)
    requires AllKept(ks) && (tail != [] ==> tail[0] == ESC)
    requires if ks == [] then tail != [] else !ks[0].kind.Plain?
    ensures StartsWithEsc(Text(ks) + tail)
  {
    if ks != [] {
      assert ks[0] in ks;
      FactorStart(ks[0]);
    }
  }

  // ---------- what a second pass does ----------

  lemma {:induction false} KeptLength(fs: seq<Factor>)
    ensures |Concat(KeptTexts(fs))| <= |Text(fs)|
    ensures (forall f <- fs :: IsFactor(f)) && |Concat(KeptTexts(fs))| == |Text(fs)| ==> forall f <- fs :: !Discarded(f.kind)
    ensures (forall f <- fs :: !Discarded(f.kind)) ==> Concat(KeptTexts(fs)) == Text(fs)
  {
    if fs != [] {
      KeptLength(fs[1..]);
      assert forall f <- fs :: f == fs[0] || f in fs[1..];
      OutputCons(fs[0], fs[1..], []);
      assert fs == [fs[0]] + fs[1..];
    }
  }

  lemma {:induction false} ReadingFactors(s: Bytes, fs: seq<Factor>, tail: Bytes)
    requires Reading(s, fs, tail)
    ensures forall f <- fs :: IsFactor(f)
  {
    if fs != [] {
      ReadingFactors(s[|fs[0].text|..], fs[1..], tail);
      assert forall f <- fs :: f == fs[0] || f in fs[1..];
    }
  }

  /** The filter leaves a string alone exactly when its reading has nothing to
      discard. */
  lemma UnchangedExactly(s: Bytes)
    ensures Filter(s) == s <==> forall f <- RunAll(s).factors :: !Discarded(f.kind)
  {
    var (fs, tail) := (RunAll(s).factors, RunAll(s).machine.pending);
    RunReads(s);
    ReadingCovers(s, fs, tail);
    ReadingFactors(s, fs, tail);
    KeptLength(fs);
  }

  lemma {:induction false} KeptFactorsKept(fs: seq<Factor>)
    requires forall f <- fs :: IsFactor(f)
    ensures AllKept(KeptFactors(fs)) && Text(KeptFactors(fs)) == Concat(KeptTexts(fs))
  {
    if fs != [] {
      KeptFactorsKept(fs[1..]);
      var kept := KeptFactors(fs);
      if Discarded(fs[0].kind) {
        assert kept == KeptFactors(fs[1..]) && KeptTexts(fs) == KeptTexts(fs[1..]);
      } else {
        assert kept == [fs[0]] + KeptFactors(fs[1..]) && kept[1..] == KeptFactors(fs[1..]);
        assert KeptTexts(fs)[1..] == KeptTexts(fs[1..]);
        assert forall f <- kept :: f == fs[0] || f in KeptFactors(fs[1..]);
      }
    }
  }

  lemma TailStart(t: Bytes)
    requires IsTail(t)
    ensures t != [] ==> t[0] == ESC
  {
    OpenStart(t);
  }

  /** A second pass changes nothing exactly when, among the factors that the first
      keeps, no cut sequence is followed by plain bytes that complete it. */
  lemma FilterTwice(s: Bytes, fs: seq<Factor>, tail: Bytes)
    requires Reading(s, fs, tail)
    ensures Filter(Filter(s)) == Filter(s) <==> !Merges(KeptFactors(fs))
  {
    hide IsFactor, IsTail, Merges;
    FilterDeletesDiscarded(s, fs, tail);
    ReadingFactors(s, fs, tail);
    ReadingTail(s, fs, tail);
    TailStart(tail);
    KeptFactorsKept(fs);
    KeptDiscards(KeptFactors(fs), tail);
    UnchangedExactly(Filter(s));
  }

  lemma {:induction false} ReadingTail(s: Bytes, fs: seq<Factor>, tail: Bytes)
    requires Reading(s, fs, tail)
    ensures IsTail(tail)
  {
    if fs != [] {
      ReadingTail(s[|fs[0].text|..], fs[1..], tail);
    }
  }

  const ARROW := Factor(Csi, [ESC, BRACKET, 0x41])
  const OPENING := Factor(Cut, [ESC, BRACKET])
  const LETTER := Factor(Plain, [0x41])

  lemma ArrowReading(rest: Bytes, fs: seq<Factor>)
    requires Reading(rest, fs, [])
    ensures Reading(ARROW.text + rest, [ARROW] + fs, [])
    ensures Output([ARROW] + fs, []) == Output(fs, [])
  {
    assert ARROW.text[..2] == [ESC, BRACKET];
    ReadingCons(ARROW, rest, fs, []);
    OutputCons(ARROW, fs, []);
    assert [] + Output(fs, []) == Output(fs, []);
  }

  lemma OpeningReading(rest: Bytes, fs: seq<Factor>)
    requires Reading(rest, fs, []) && StartsWithEsc(rest)
    ensures Filter(OPENING.text + rest) == OPENING.text + Output(fs, [])
  {
    ReadingCons(OPENING, rest, fs, []);
    OutputCons(OPENING, fs, []);
    FilterDeletesDiscarded(OPENING.text + rest, [OPENING] + fs, []);
  }

  lemma LetterReading()
    ensures Reading(LETTER.text, [LETTER], []) && Output([LETTER], []) == LETTER.text
  {
    ReadingCons(LETTER, [], [], []);
    OutputCons(LETTER, [], []);
    assert LETTER.text + [] == LETTER.text && [LETTER] + [] == [LETTER];
  }

  /** In general it is not: ESC [ (ESC [ A) A leaves the control sequence ESC [ A,
      which a second pass throws away. */
  lemma FilterNotIdempotent()
    ensures Filter([ESC, BRACKET] + ([ESC, BRACKET, 0x41] + [0x41])) == [ESC, BRACKET, 0x41]
    ensures Filter([ESC, BRACKET, 0x41]) == []
  {
    LetterReading();
    ArrowReading(LETTER.text, [LETTER]);
    OpeningReading(ARROW.text + LETTER.text, [ARROW] + [LETTER]);
    assert OPENING.text + LETTER.text == ARROW.text;
    ArrowReading([], []);
    assert ARROW.text + [] == ARROW.text && [ARROW] + [] == [ARROW];
    FilterDeletesDiscarded(ARROW.text, [ARROW], []);
  }
}
