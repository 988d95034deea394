/** What the stdin filter does with everything it can meet
    (cmd/loopai/filter_csi.go:42-157), said of the bytes alone: neither the machine nor
    its factors appear in the laws, and the laws leave nothing open. */
module FilterLaws {
  import opened Bytes
  import F = FilterGrammar

  /** The parameters `a` of a control sequence and what follows a '<', if there is one. */
  predicate Parts(a: Bytes, marked: bool, q: Bytes) {
    && (forall b <- a :: 0x20 <= b <= 0x3F && b != 0x3C)
    && (forall b <- q :: 0x30 <= b <= 0x39 || b == 0x3B)
    && (!marked ==> q == [])
  }

  /** ESC [ a, or ESC [ a < q. */
  function Opening(a: Bytes, marked: bool, q: Bytes): Bytes {
    [0x1B, 0x5B] + a + if marked then [0x3C] + q else []
  }

  /** A byte that neither continues nor completes what has been opened. */
  predicate Bad(marked: bool, b: Byte) {
    && b != 0x1B && !(0x40 <= b <= 0x7E)
    && if marked then !(0x30 <= b <= 0x39) && b != 0x3B else !(0x20 <= b <= 0x3F)
  }

  // ---------- the laws ----------

  ghost predicate KeepsPlainBytes(g: Bytes -> Bytes) {
    forall b: Byte, rest: Bytes :: b != 0x1B ==> g([b] + rest) == [b] + g(rest)
  }

  ghost predicate KeepsTwoByteEscapes(g: Bytes -> Bytes) {
    forall b: Byte, rest: Bytes :: b != 0x5B && b != 0x4F ==> g([0x1B, b] + rest) == [0x1B, b] + g(rest)
  }

  ghost predicate DropsSs3(g: Bytes -> Bytes) {
    forall b: Byte, rest: Bytes :: g([0x1B, 0x4F, b] + rest) == g(rest)
  }

  ghost predicate DropsComplete(g: Bytes -> Bytes) {
    forall a, marked, q, final: Byte, rest: Bytes ::
      Parts(a, marked, q) && 0x40 <= final <= 0x7E ==> g(Opening(a, marked, q) + [final] + rest) == g(rest)
  }

  ghost predicate KeepsAborted(g: Bytes -> Bytes) {
    forall a, marked, q, bad: Byte, rest: Bytes ::
      Parts(a, marked, q) && Bad(marked, bad) ==>
        g(Opening(a, marked, q) + [bad] + rest) == Opening(a, marked, q) + [bad] + g(rest)
  }

  ghost predicate KeepsCut(g: Bytes -> Bytes) {
    forall a, marked, q, rest: Bytes ::
      Parts(a, marked, q) ==> g(Opening(a, marked, q) + ([0x1B] + rest)) == Opening(a, marked, q) + g([0x1B] + rest)
  }

  ghost predicate KeepsInterrupted(g: Bytes -> Bytes) {
    && g([]) == [] && g([0x1B]) == [0x1B] && g([0x1B, 0x4F]) == [0x1B, 0x4F]
    && forall a, marked, q :: Parts(a, marked, q) ==> g(Opening(a, marked, q)) == Opening(a, marked, q)
  }

  ghost predicate Laws(g: Bytes -> Bytes) {
    && KeepsPlainBytes(g) && KeepsTwoByteEscapes(g) && DropsSs3(g) && DropsComplete(g)
    && KeepsAborted(g) && KeepsCut(g) && KeepsInterrupted(g)
  }

  // ---------- openings are prefixes ----------

  lemma OpeningIsPrefix(a: Bytes, marked: bool, q: Bytes)
    requires Parts(a, marked, q)
    ensures if marked then F.CsiUPrefix(Opening(a, marked, q)) else F.CsiPrefix(Opening(a, marked, q))
  {
    var t := Opening(a, marked, q);
    var head := [0x1B, 0x5B] + a;
    assert F.CsiPrefix(head) by {
      assert forall i :: 2 <= i < |head| ==> head[i] == a[i - 2] && a[i - 2] in a;
    }
    if marked {
      var k := |head|;
      assert t == head + ([0x3C] + q);
      assert t[..k] == head && t[k] == 0x3C;
      assert forall i :: k < i < |t| ==> t[i] == q[i - k - 1] && q[i - k - 1] in q;
      assert F.CsiUPrefixAt(t, k);
    } else {
      assert t == head;
    }
  }

  lemma PrefixIsOpening(t: Bytes) returns (a: Bytes, marked: bool, q: Bytes)
    requires F.CsiPrefix(t) || F.CsiUPrefix(t)
    ensures Parts(a, marked, q) && t == Opening(a, marked, q) && (marked <==> F.CsiUPrefix(t))
  {
    marked := F.CsiUPrefix(t);
    if marked {
      var k: nat :| F.CsiUPrefixAt(t, k);
      a, q := t[2..k], t[k + 1..];
      assert forall i :: 2 <= i < k ==> t[i] == t[..k][i];
      assert t == [t[0], t[1]] + a + ([t[k]] + q);
      assert t[..k][0] == t[0] && t[..k][1] == t[1];
    } else {
      a, q := t[2..], [];
      assert t == [t[0], t[1]] + a + [];
    }
  }

  // ---------- the filter obeys them ----------

  lemma PlainByteKept(b: Byte, rest: Bytes)
    requires b != 0x1B
    ensures F.Filter([b] + rest) == [b] + F.Filter(rest)
  {
    F.FilterOne(F.Factor(F.Plain, [b]), rest);
  }

  lemma TwoByteEscapeKept(b: Byte, rest: Bytes)
    requires b != 0x5B && b != 0x4F
    ensures F.Filter([0x1B, b] + rest) == [0x1B, b] + F.Filter(rest)
  {
    F.FilterOne(F.Factor(F.Escape, [0x1B, b]), rest);
  }

  lemma Ss3Dropped(b: Byte, rest: Bytes)
    ensures F.Filter([0x1B, 0x4F, b] + rest) == F.Filter(rest)
  {
    F.FilterOne(F.Factor(F.Ss3, [0x1B, 0x4F, b]), rest);
    assert [] + F.Filter(rest) == F.Filter(rest);
  }

  lemma CompleteDropped(a: Bytes, marked: bool, q: Bytes, final: Byte, rest: Bytes)
    requires Parts(a, marked, q) && 0x40 <= final <= 0x7E
    ensures F.Filter(Opening(a, marked, q) + [final] + rest) == F.Filter(rest)
  {
    var t := Opening(a, marked, q);
    OpeningIsPrefix(a, marked, q);
    assert (t + [final])[..|t|] == t;
    F.FilterOne(F.Factor(F.Csi, t + [final]), rest);
    assert [] + F.Filter(rest) == F.Filter(rest);
  }

  lemma AbortedKept(a: Bytes, marked: bool, q: Bytes, bad: Byte, rest: Bytes)
    requires Parts(a, marked, q) && Bad(marked, bad)
    ensures F.Filter(Opening(a, marked, q) + [bad] + rest) == Opening(a, marked, q) + [bad] + F.Filter(rest)
  {
    var t := Opening(a, marked, q);
    OpeningIsPrefix(a, marked, q);
    assert (t + [bad])[..|t|] == t;
    F.FilterOne(F.Factor(F.Aborted, t + [bad]), rest);
  }

  lemma CutKept(a: Bytes, marked: bool, q: Bytes, rest: Bytes)
    requires Parts(a, marked, q)
    ensures F.Filter(Opening(a, marked, q) + ([0x1B] + rest)) == Opening(a, marked, q) + F.Filter([0x1B] + rest)
  {
    var (t, more) := (Opening(a, marked, q), [0x1B] + rest);
    OpeningIsPrefix(a, marked, q);
    F.RunCut(F.Factor(F.Cut, t), more);
    F.OutputCons(F.Factor(F.Cut, t), F.RunAll(more).factors, F.RunAll(more).machine.pending);
  }

  lemma InterruptedFlushed(a: Bytes, marked: bool, q: Bytes)
    requires Parts(a, marked, q)
    ensures F.Filter(Opening(a, marked, q)) == Opening(a, marked, q)
    ensures F.Filter([]) == [] && F.Filter([0x1B]) == [0x1B] && F.Filter([0x1B, 0x4F]) == [0x1B, 0x4F]
  {
    OpeningIsPrefix(a, marked, q);
    TailFlushed(Opening(a, marked, q));
    TailFlushed([]);
    TailFlushed([0x1B]);
    TailFlushed([0x1B, 0x4F]);
  }

  lemma TailFlushed(t: Bytes)
    requires F.IsTail(t)
    ensures F.Filter(t) == t
  {
    F.RunTail(t);
    assert [] + t == t;
  }

  lemma FilterObeys()
    ensures Laws(F.Filter)
  {
    hide F.Filter, Opening, Parts, Bad;
    forall b: Byte, rest: Bytes | b != 0x1B ensures F.Filter([b] + rest) == [b] + F.Filter(rest) {
      PlainByteKept(b, rest);
    }
    forall b: Byte, rest: Bytes | b != 0x5B && b != 0x4F
      ensures F.Filter([0x1B, b] + rest) == [0x1B, b] + F.Filter(rest)
    {
      TwoByteEscapeKept(b, rest);
    }
    forall b: Byte, rest: Bytes ensures F.Filter([0x1B, 0x4F, b] + rest) == F.Filter(rest) {
      Ss3Dropped(b, rest);
    }
    forall a, marked, q, final: Byte, rest: Bytes | Parts(a, marked, q) && 0x40 <= final <= 0x7E
      ensures F.Filter(Opening(a, marked, q) + [final] + rest) == F.Filter(rest)
    {
      CompleteDropped(a, marked, q, final, rest);
    }
    forall a, marked, q, bad: Byte, rest: Bytes | Parts(a, marked, q) && Bad(marked, bad)
      ensures F.Filter(Opening(a, marked, q) + [bad] + rest) == Opening(a, marked, q) + [bad] + F.Filter(rest)
    {
      AbortedKept(a, marked, q, bad, rest);
    }
    forall a, marked, q, rest: Bytes | Parts(a, marked, q)
      ensures F.Filter(Opening(a, marked, q) + ([0x1B] + rest)) == Opening(a, marked, q) + F.Filter([0x1B] + rest)
    {
      CutKept(a, marked, q, rest);
    }
    forall a, marked, q | Parts(a, marked, q) ensures F.Filter(Opening(a, marked, q)) == Opening(a, marked, q) {
      InterruptedFlushed(a, marked, q);
    }
    TailFlushed([]);
    TailFlushed([0x1B]);
    TailFlushed([0x1B, 0x4F]);
  }

  // ---------- and nothing else does ----------

  lemma LawOnSequence(g: Bytes -> Bytes, f: F.Factor, rest: Bytes)
    requires Laws(g) && F.IsFactor(f) && (f.kind.Csi? || f.kind.Aborted?)
    ensures g(f.text + rest) == (if f.kind.Csi? then [] else f.text) + g(rest)
  {
    hide Opening, F.CsiPrefix, F.CsiUPrefix;
    var (front, last) := (f.text[..|f.text| - 1], f.text[|f.text| - 1]);
    assert f.text == front + [last];
    var a, marked, q := PrefixIsOpening(front);
    if marked {
      F.CsiUNotCsi(front);
    }
    if f.kind.Csi? {
      assert g(Opening(a, marked, q) + [last] + rest) == g(rest);
    } else {
      assert Bad(marked, last);
      assert g(Opening(a, marked, q) + [last] + rest) == Opening(a, marked, q) + [last] + g(rest);
    }
  }

  lemma LawOnCut(g: Bytes -> Bytes, t: Bytes, rest: Bytes)
    requires Laws(g) && (F.CsiPrefix(t) || F.CsiUPrefix(t))
    ensures g(t) == t
    ensures F.StartsWithEsc(rest) ==> g(t + rest) == t + g(rest)
  {
    hide Opening, F.CsiPrefix, F.CsiUPrefix;
    var a, marked, q := PrefixIsOpening(t);
    assert g(Opening(a, marked, q)) == Opening(a, marked, q);
    if F.StartsWithEsc(rest) {
      var more := rest[1..];
      assert rest == [0x1B] + more;
      assert g(Opening(a, marked, q) + ([0x1B] + more)) == Opening(a, marked, q) + g([0x1B] + more);
    }
  }

  lemma LawOnShort(g: Bytes -> Bytes, f: F.Factor, rest: Bytes)
    requires Laws(g) && F.IsFactor(f) && (f.kind.Plain? || f.kind.Escape? || f.kind.Ss3?)
    ensures g(f.text + rest) == (if f.kind.Ss3? then [] else f.text) + g(rest)
  {
    hide F.CsiPrefix, F.CsiUPrefix;
    var t := f.text;
    if f.kind.Plain? {
      assert t == [t[0]];
    } else if f.kind.Escape? {
      assert t == [0x1B, t[1]];
    } else {
      assert t == [0x1B, 0x4F, t[2]];
    }
  }

  lemma {:induction false} OnlyFilter(g: Bytes -> Bytes, s: Bytes, fs: seq<F.Factor>, tail: Bytes)
    requires Laws(g) && F.Reading(s, fs, tail)
    ensures g(s) == F.Output(fs, tail)
    decreases |fs|
  {
    hide Laws, F.IsFactor;
    if fs == [] {
      assert F.Output(fs, tail) == tail;
      LawOnTail(g, s);
    } else {
      var (f, rest) := (fs[0], s[|fs[0].text|..]);
      assert s == f.text + rest && fs == [f] + fs[1..];
      OnlyFilter(g, rest, fs[1..], tail);
      F.OutputCons(f, fs[1..], tail);
      if f.kind.Cut? {
        LawOnCutFactor(g, f, rest);
      } else if f.kind.Csi? || f.kind.Aborted? {
        LawOnSequence(g, f, rest);
      } else {
        LawOnShort(g, f, rest);
      }
    }
  }

  lemma LawOnCutFactor(g: Bytes -> Bytes, f: F.Factor, rest: Bytes)
    requires Laws(g) && F.IsFactor(f) && f.kind.Cut? && F.StartsWithEsc(rest)
    ensures g(f.text + rest) == f.text + g(rest)
  {
    LawOnCut(g, f.text, rest);
  }

  lemma LawOnTail(g: Bytes -> Bytes, t: Bytes)
    requires Laws(g) && F.IsTail(t)
    ensures g(t) == t
  {
    if F.CsiPrefix(t) || F.CsiUPrefix(t) {
      LawOnCut(g, t, []);
    }
  }

  /** The filter obeys the laws, and it is the only function that does. */
  lemma LawsDetermineFilter(g: Bytes -> Bytes)
    ensures Laws(g) <==> forall s :: g(s) == F.Filter(s)
  {
    hide Laws, F.Filter, F.Reading;
    if Laws(g) {
      forall s ensures g(s) == F.Filter(s) {
        var r := F.RunAll(s);
        F.RunReads(s);
        OnlyFilter(g, s, r.factors, r.machine.pending);
        F.FilterDeletesDiscarded(s, r.factors, r.machine.pending);
      }
    }
    if forall s :: g(s) == F.Filter(s) {
      FilterObeys();
      SameLaws(g, F.Filter);
    }
  }

  lemma SameLaws(g: Bytes -> Bytes, h: Bytes -> Bytes)
    requires Laws(h) && forall s :: g(s) == h(s)
    ensures Laws(g)
  {
    hide Opening, Parts, Bad;
  }
}
