/** What StripANSI does with everything it can meet (internal/backend/ansi.go:15-99), said
    of the bytes alone: neither the transducer nor its openers appear in the laws, and the
    laws leave nothing open. */
module StripLaws {
  import opened Bytes
  import opened StripAnsi
  import G = StripGrammar

  /** The byte after ESC opens a control string: DCS, SOS, PM or APC. */
  predicate OpensString(b: Byte) {
    b in {0x50, 0x58, 0x5E, 0x5F}
  }

  /** ESC and this byte are a whole escape sequence. */
  predicate OpensNone(b: Byte) {
    b !in {0x50, 0x58, 0x5B, 0x5D, 0x5E, 0x5F}
  }

  predicate NoFinal(body: Bytes) {
    forall b <- body :: !(0x40 <= b <= 0x7E)
  }

  /** ESC \ does not occur. */
  predicate NoSt(body: Bytes) {
    forall i :: 0 <= i < |body| - 1 && body[i] == 0x1B ==> body[i + 1] != 0x5C
  }

  predicate NoOscEnd(body: Bytes) {
    0x07 !in body && NoSt(body)
  }

  // ---------- the laws ----------

  ghost predicate KeepsText(g: Bytes -> Bytes) {
    g([]) == [] && forall b: Byte, rest: Bytes :: b != 0x1B ==> g([b] + rest) == [b] + g(rest)
  }

  ghost predicate DropsTwoByteEscapes(g: Bytes -> Bytes) {
    forall b: Byte, rest: Bytes :: OpensNone(b) ==> g([0x1B, b] + rest) == g(rest)
  }

  ghost predicate DropsControls(g: Bytes -> Bytes) {
    forall body, final: Byte, rest: Bytes ::
      NoFinal(body) && 0x40 <= final <= 0x7E ==> g([0x1B, 0x5B] + body + [final] + rest) == g(rest)
  }

  ghost predicate DropsOsCommands(g: Bytes -> Bytes) {
    forall body, rest: Bytes :: NoOscEnd(body) ==>
      && g([0x1B, 0x5D] + body + [0x07] + rest) == g(rest)
      && g([0x1B, 0x5D] + body + [0x1B, 0x5C] + rest) == g(rest)
  }

  ghost predicate DropsControlStrings(g: Bytes -> Bytes) {
    forall b: Byte, body, rest: Bytes ::
      OpensString(b) && NoSt(body) ==> g([0x1B, b] + body + [0x1B, 0x5C] + rest) == g(rest)
  }

  ghost predicate DropsCutOff(g: Bytes -> Bytes) {
    && g([0x1B]) == []
    && (forall body :: NoFinal(body) ==> g([0x1B, 0x5B] + body) == [])
    && (forall body :: NoOscEnd(body) ==> g([0x1B, 0x5D] + body) == [])
    && (forall b: Byte, body :: OpensString(b) && NoSt(body) ==> g([0x1B, b] + body) == [])
  }

  ghost predicate Laws(g: Bytes -> Bytes) {
    && KeepsText(g) && DropsTwoByteEscapes(g) && DropsControls(g) && DropsOsCommands(g)
    && DropsControlStrings(g) && DropsCutOff(g)
  }

  // ---------- bodies ----------

  /** No terminator of the shape is in the body. */
  predicate Endless(shape: Shape, body: Bytes) {
    match shape
    case CsiShape => NoFinal(body)
    case OscShape => NoOscEnd(body)
    case StringShape => NoSt(body)
  }

  predicate Terminates(shape: Shape, end: Bytes) {
    match shape
    case CsiShape => |end| == 1 && 0x40 <= end[0] <= 0x7E
    case OscShape => end == [0x07] || end == [0x1B, 0x5C]
    case StringShape => end == [0x1B, 0x5C]
  }

  lemma EndlessBody(opener: Byte, shape: Shape, body: Bytes, end: Bytes)
    requires Endless(shape, body)
    requires end == [] || Terminates(shape, end)
    ensures var t := [0x1B, opener] + body + end;
            Unterminated(t, 2, shape, if end == [] then |t| else |t| - 1) && (end != [] ==> EndsAt(t, 2, shape, |t|))
  {
    var t := [0x1B, opener] + body + end;
    forall p | 2 < p <= |t| && (end != [] ==> p < |t|) ensures !EndsAt(t, 2, shape, p) {
      if p <= 2 + |body| {
        assert t[p - 1] == body[p - 3] && body[p - 3] in body;
        if p > 3 {
          assert t[p - 2] == body[p - 4];
        }
      } else {
        assert t[p - 1] == 0x1B;
      }
    }
  }

  /** The body of a text that no terminator ends, or only its last bytes end. */
  lemma BodyEndless(t: Bytes, shape: Shape, upTo: nat)
    requires 2 <= upTo <= |t| && Unterminated(t, 2, shape, upTo)
    ensures Endless(shape, t[2..upTo])
  {
    var body := t[2..upTo];
    forall i | 0 <= i < |body| ensures shape.CsiShape? ==> !IsFinal(body[i])
                               ensures shape.OscShape? ==> body[i] != 0x07
                               ensures !shape.CsiShape? && 0 < i && body[i - 1] == 0x1B ==> body[i] != 0x5C {
      assert !EndsAt(t, 2, shape, i + 3);
    }
  }

  // ---------- the stripper obeys them ----------

  /** A complete sequence in front of a stream. */
  lemma SequenceDropped(opener: Byte, shape: Shape, body: Bytes, end: Bytes, rest: Bytes)
    requires Opener(opener) == Opens(shape) && Endless(shape, body) && Terminates(shape, end)
    ensures Strip([0x1B, opener] + body + end + rest) == Strip(rest)
  {
    var t := [0x1B, opener] + body + end;
    EndlessBody(opener, shape, body, end);
    G.ItemStrips(G.Item(G.Sequence, t));
    StripAppend(Text, t, rest);
  }

  lemma CutOffDropped(opener: Byte, shape: Shape, body: Bytes)
    requires Opener(opener) == Opens(shape) && Endless(shape, body)
    ensures Strip([0x1B, opener] + body) == []
  {
    EndlessBody(opener, shape, body, []);
    assert [0x1B, opener] + body + [] == [0x1B, opener] + body;
    G.CutOffStrips([0x1B, opener] + body);
  }

  lemma TextKept(b: Byte, rest: Bytes)
    requires b != 0x1B
    ensures Strip([b] + rest) == [b] + Strip(rest)
  {
    G.ItemStrips(G.Item(G.Visible, [b]));
    StripAppend(Text, [b], rest);
  }

  lemma TwoByteEscapeDropped(b: Byte, rest: Bytes)
    requires OpensNone(b)
    ensures Strip([0x1B, b] + rest) == Strip(rest)
  {
    G.ItemStrips(G.Item(G.Short, [0x1B, b]));
    StripAppend(Text, [0x1B, b], rest);
  }

  lemma ControlDropped(body: Bytes, final: Byte, rest: Bytes)
    requires NoFinal(body) && 0x40 <= final <= 0x7E
    ensures Strip([0x1B, 0x5B] + body + [final] + rest) == Strip(rest)
    ensures Strip([0x1B, 0x5B] + body) == []
  {
    SequenceDropped(0x5B, CsiShape, body, [final], rest);
    CutOffDropped(0x5B, CsiShape, body);
  }

  lemma OsCommandDropped(body: Bytes, rest: Bytes)
    requires NoOscEnd(body)
    ensures Strip([0x1B, 0x5D] + body + [0x07] + rest) == Strip(rest)
    ensures Strip([0x1B, 0x5D] + body + [0x1B, 0x5C] + rest) == Strip(rest)
    ensures Strip([0x1B, 0x5D] + body) == []
  {
    SequenceDropped(0x5D, OscShape, body, [0x07], rest);
    SequenceDropped(0x5D, OscShape, body, [0x1B, 0x5C], rest);
    CutOffDropped(0x5D, OscShape, body);
  }

  lemma ControlStringDropped(b: Byte, body: Bytes, rest: Bytes)
    requires OpensString(b) && NoSt(body)
    ensures Strip([0x1B, b] + body + [0x1B, 0x5C] + rest) == Strip(rest)
    ensures Strip([0x1B, b] + body) == []
  {
    SequenceDropped(b, StringShape, body, [0x1B, 0x5C], rest);
    CutOffDropped(b, StringShape, body);
  }

  lemma StripObeys()
    ensures Laws(Strip)
  {
    hide Strip, OpensNone, OpensString, NoFinal, NoOscEnd, NoSt;
    forall b: Byte, rest: Bytes | b != 0x1B ensures Strip([b] + rest) == [b] + Strip(rest) {
      TextKept(b, rest);
    }
    forall b: Byte, rest: Bytes | OpensNone(b) ensures Strip([0x1B, b] + rest) == Strip(rest) {
      TwoByteEscapeDropped(b, rest);
    }
    forall body, final: Byte, rest: Bytes | NoFinal(body) && 0x40 <= final <= 0x7E
      ensures Strip([0x1B, 0x5B] + body + [final] + rest) == Strip(rest)
    {
      ControlDropped(body, final, rest);
    }
    forall body, rest: Bytes | NoOscEnd(body)
      ensures Strip([0x1B, 0x5D] + body + [0x07] + rest) == Strip(rest)
      ensures Strip([0x1B, 0x5D] + body + [0x1B, 0x5C] + rest) == Strip(rest)
    {
      OsCommandDropped(body, rest);
    }
    forall b: Byte, body, rest: Bytes | OpensString(b) && NoSt(body)
      ensures Strip([0x1B, b] + body + [0x1B, 0x5C] + rest) == Strip(rest)
    {
      ControlStringDropped(b, body, rest);
    }
    CutOffObeys();
    assert Strip([]) == [] by { G.PlainText([]); }
  }

  lemma CutOffObeys()
    ensures DropsCutOff(Strip)
  {
    hide Strip, OpensString, NoFinal, NoOscEnd, NoSt;
    G.CutOffStrips([0x1B]);
    forall body | NoFinal(body) ensures Strip([0x1B, 0x5B] + body) == [] {
      ControlDropped(body, 0x40, []);
    }
    forall body | NoOscEnd(body) ensures Strip([0x1B, 0x5D] + body) == [] {
      OsCommandDropped(body, []);
    }
    forall b: Byte, body | OpensString(b) && NoSt(body) ensures Strip([0x1B, b] + body) == [] {
      ControlStringDropped(b, body, []);
    }
  }

  // ---------- and nothing else does ----------

  lemma LawOnItem(g: Bytes -> Bytes, u: G.Item, rest: Bytes)
    requires Laws(g) && G.IsItem(u)
    ensures g(u.text + rest) == (if u.kind.Visible? then u.text else []) + g(rest)
  {
    var t := u.text;
    if u.kind.Visible? {
      assert t == [t[0]];
    } else if u.kind.Short? {
      assert t == [0x1B, t[1]];
    } else {
      LawOnSequence(g, t, Opener(t[1]).shape, rest);
    }
  }

  /** Where the body of a terminated sequence ends. */
  function BodyEnd(t: Bytes, shape: Shape): (n: nat)
    requires |t| > 2 && EndsAt(t, 2, shape, |t|)
    ensures 2 <= n < |t| && Terminates(shape, t[n..])
  {
    if shape.CsiShape? || (shape.OscShape? && t[|t| - 1] == 0x07) then
      |t| - 1
    else
      assert t[|t| - 2..] == [0x1B, 0x5C];
      |t| - 2
  }

  lemma LawOnSequence(g: Bytes -> Bytes, t: Bytes, shape: Shape, rest: Bytes)
    requires Laws(g) && |t| > 2 && t[0] == 0x1B && Opener(t[1]) == Opens(shape)
    requires Unterminated(t, 2, shape, |t| - 1) && EndsAt(t, 2, shape, |t|)
    ensures g(t + rest) == g(rest)
  {
    hide NoFinal, NoOscEnd, NoSt;
    var n := BodyEnd(t, shape);
    var (body, end) := (t[2..n], t[n..]);
    BodyEndless(t, shape, n);
    assert t == [0x1B, t[1]] + body + end;
    if shape.CsiShape? {
      assert end == [end[0]];
    }
  }

  lemma LawOnCutOff(g: Bytes -> Bytes, t: Bytes)
    requires Laws(g) && G.IsCutOff(t)
    ensures g(t) == []
  {
    hide NoFinal, NoOscEnd, NoSt;
    if |t| > 1 {
      BodyEndless(t, Opener(t[1]).shape, |t|);
      assert t == [0x1B, t[1]] + t[2..|t|];
    } else {
      assert t == [0x1B];
    }
  }

  lemma {:induction false} OnlyStrip(g: Bytes -> Bytes, s: Bytes, us: seq<G.Item>, tail: Bytes)
    requires Laws(g) && G.Reading(s, us, tail)
    ensures g(s) == G.VisibleText(us)
    decreases |us|
  {
    hide G.IsItem, G.IsCutOff;
    if us == [] {
      if tail != [] {
        LawOnCutOff(g, tail);
      }
    } else {
      var rest := s[|us[0].text|..];
      assert s == us[0].text + rest;
      OnlyStrip(g, rest, us[1..], tail);
      LawOnItem(g, us[0], rest);
    }
  }

  /** The stripper obeys the laws, and it is the only function that does. */
  lemma LawsDetermineStrip(g: Bytes -> Bytes)
    ensures Laws(g) <==> forall s :: g(s) == Strip(s)
  {
    hide Laws, Strip, G.Reading;
    if Laws(g) {
      forall s ensures g(s) == Strip(s) {
        var us, tail := G.ReadingExists(s);
        OnlyStrip(g, s, us, tail);
        G.StripIsVisibleText(s, us, tail);
      }
    }
    if forall s :: g(s) == Strip(s) {
      StripObeys();
      SameLaws(g, Strip);
    }
  }

  lemma SameLaws(g: Bytes -> Bytes, h: Bytes -> Bytes)
    requires Laws(h) && forall s :: g(s) == h(s)
    ensures Laws(g)
  {
    hide OpensNone, OpensString, NoFinal, NoOscEnd, NoSt;
  }
}
