/** What StripANSI means: the only way to read a buffer as text and sequences,
    where a buffer may be cut, and that printing followed by stripping gives back
    the printed text. */
module StripGrammar {
  import opened Bytes
  import opened StripAnsi

  // ---------- the grammar ----------

  datatype UnitKind =
    | Visible    // a byte that is not ESC
    | Short      // ESC and a byte that opens nothing
    | Sequence   // ESC, an opening byte, a body and its first terminator

  datatype Item = Item(kind: UnitKind, text: Bytes)

  predicate IsItem(u: Item) {
    var t := u.text;
    match u.kind
    case Visible => |t| == 1 && t[0] != ESC
    case Short => |t| == 2 && t[0] == ESC && Opener(t[1]) == OpensNothing
    case Sequence =>
      && |t| > 2 && t[0] == ESC && Opener(t[1]).Opens?
      && Unterminated(t, 2, Opener(t[1]).shape, |t| - 1)
      && EndsAt(t, 2, Opener(t[1]).shape, |t|)
  }

  /** A sequence, or its ESC alone, cut off by the end of the data. */
  predicate IsCutOff(t: Bytes) {
    && t != [] && t[0] == ESC
    && (|t| > 1 ==> Opener(t[1]).Opens? && Unterminated(t, 2, Opener(t[1]).shape, |t|))
  }

  predicate Reading(s: Bytes, us: seq<Item>, tail: Bytes) {
    if us == [] then s == tail && (tail == [] || IsCutOff(tail))
    else IsItem(us[0]) && us[0].text <= s && Reading(s[|us[0].text|..], us[1..], tail)
  }

  function VisibleText(us: seq<Item>): Bytes {
    if us == [] then [] else (if us[0].kind.Visible? then us[0].text else []) + VisibleText(us[1..])
  }

  // ---------- exactly one reading ----------

  lemma EndsAtPrefix(t: Bytes, s: Bytes, start: nat, shape: Shape, p: nat)
    requires t <= s && start < p <= |t|
    ensures EndsAt(t, start, shape, p) == EndsAt(s, start, shape, p)
  {
  }

  /** No item is a proper prefix of another: two that begin `s` are the same. */
  lemma FirstItem(s: Bytes, u: Item, v: Item)
    requires IsItem(u) && IsItem(v) && u.text <= s && v.text <= s
    ensures u == v
  {
    var (t, w) := (u.text, v.text);
    assert t[0] == s[0] && w[0] == s[0];
    if s[0] == ESC {
      assert t[1] == s[1] && w[1] == s[1];
      if Opener(s[1]).Opens? {
        var shape := Opener(s[1]).shape;
        if |t| < |w| {
          EndsAtPrefix(t, s, 2, shape, |t|);
          EndsAtPrefix(w, s, 2, shape, |t|);
        } else if |w| < |t| {
          EndsAtPrefix(t, s, 2, shape, |w|);
          EndsAtPrefix(w, s, 2, shape, |w|);
        }
      }
    }
    assert t == s[..|t|] && w == s[..|w|];
  }

  lemma CutOffHasNoItem(s: Bytes, u: Item)
    requires IsItem(u) && u.text <= s
    ensures s != [] && !IsCutOff(s)
  {
    assert u.text[0] == s[0];
    if s[0] == ESC {
      assert u.text[1] == s[1];
      if Opener(s[1]).Opens? {
        EndsAtPrefix(u.text, s, 2, Opener(s[1]).shape, |u.text|);
      }
    }
  }

  lemma {:induction false} ReadingUnique(s: Bytes, us: seq<Item>, tail: Bytes, vs: seq<Item>, rest: Bytes)
    requires Reading(s, us, tail) && Reading(s, vs, rest)
    ensures us == vs && tail == rest
  {
    if us == [] {
      if vs != [] {
        CutOffHasNoItem(s, vs[0]);
      }
    } else if vs == [] {
      CutOffHasNoItem(s, us[0]);
    } else {
      FirstItem(s, us[0], vs[0]);
      ReadingUnique(s[|us[0].text|..], us[1..], tail, vs[1..], rest);
      assert us == [us[0]] + us[1..] && vs == [vs[0]] + vs[1..];
    }
  }

  lemma {:induction false} FirstEnd(data: Bytes, start: nat, shape: Shape, q: nat) returns (end: nat)
    requires start <= q <= |data| && Unterminated(data, start, shape, q)
    ensures q <= end && IsSkip(data, start, shape, end)
    ensures end == q ==> Unterminated(data, start, shape, end)
    decreases |data| - q
  {
    if q == |data| {
      end := q;
    } else if EndsAt(data, start, shape, q + 1) {
      end := q + 1;
    } else {
      end := FirstEnd(data, start, shape, q + 1);
    }
  }

  lemma {:induction false} ReadingExists(s: Bytes) returns (us: seq<Item>, tail: Bytes)
    ensures Reading(s, us, tail)
    decreases |s|
  {
    if s == [] || IsCutOff(s) {
      return [], s;
    }
    var n := 1;
    var kind := Visible;
    if s[0] == ESC {
      n, kind := 2, Short;
      if Opener(s[1]).Opens? {
        var shape := Opener(s[1]).shape;
        kind := Sequence;
        n := FirstEnd(s, 2, shape, 2);
        forall p | 2 < p <= n ensures EndsAt(s[..n], 2, shape, p) == EndsAt(s, 2, shape, p) {
          EndsAtPrefix(s[..n], s, 2, shape, p);
        }
      }
    }
    var u := Item(kind, s[..n]);
    us, tail := ReadingExists(s[n..]);
    us := [u] + us;
  }

  // ---------- stripping follows the reading ----------

  lemma OpeningStrips(t: Bytes)
    requires |t| > 1 && t[0] == ESC
    ensures ModeAfter(Text, t) == ModeAfter(Next(Esc, t[1]), t[2..])
    ensures Strip(t) == StripFrom(Next(Esc, t[1]), t[2..])
  {
    var rest := StripFrom(Next(Esc, t[1]), t[2..]);
    assert t[1..][0] == t[1] && t[1..][1..] == t[2..];
    assert [] + rest == rest;
    assert StripFrom(Esc, t[1..]) == rest;
  }

  lemma ItemStrips(u: Item)
    requires IsItem(u)
    ensures ModeAfter(Text, u.text) == Text
    ensures Strip(u.text) == if u.kind.Visible? then u.text else []
  {
    var t := u.text;
    if u.kind.Sequence? {
      assert t[2..] == t[2..|t|];
      OpeningStrips(t);
      BodyEnds(t, 2, Opener(t[1]).shape, |t|);
    } else if u.kind.Short? {
      assert t[2..] == [];
      OpeningStrips(t);
    } else {
      assert t == [] + [t[0]];
      StripSnoc(Text, [], t[0]);
    }
  }

  lemma CutOffStrips(t: Bytes)
    requires IsCutOff(t)
    ensures ModeAfter(Text, t) != Text && Strip(t) == []
  {
    if |t| > 1 {
      assert t[2..] == t[2..|t|];
      OpeningStrips(t);
      BodyMode(t, 2, Opener(t[1]).shape, |t|);
    } else {
      assert t == [] + [t[0]];
      StripSnoc(Text, [], t[0]);
    }
  }

  /** Stripping keeps the visible bytes of the reading and nothing else, and leaves
      off in the middle of a sequence exactly when the data does. */
  lemma {:induction false} StripIsVisibleText(s: Bytes, us: seq<Item>, tail: Bytes)
    requires Reading(s, us, tail)
    ensures Strip(s) == VisibleText(us)
    ensures ModeAfter(Text, s) == Text <==> tail == []
  {
    if us == [] {
      if tail != [] {
        CutOffStrips(tail);
      }
    } else {
      var rest := s[|us[0].text|..];
      assert s == us[0].text + rest;
      ItemStrips(us[0]);
      StripAppend(Text, us[0].text, rest);
      StripIsVisibleText(rest, us[1..], tail);
    }
  }

  // ---------- prefixes and boundaries ----------

  /** More data never takes back what was already stripped. */
  lemma PrefixMonotone(a: Bytes, b: Bytes)
    ensures Strip(a) <= Strip(a + b)
  {
    StripAppend(Text, a, b);
  }

  predicate AtBoundary(s: Bytes) {
    ModeAfter(Text, s) == Text
  }

  /** Stripping two pieces separately is stripping them together, whatever the
      second piece, exactly when the first ends at a boundary. */
  lemma BoundaryExact(a: Bytes)
    ensures (forall b :: Strip(a + b) == Strip(a) + Strip(b)) <==> AtBoundary(a)
  {
    forall b ensures AtBoundary(a) ==> Strip(a + b) == Strip(a) + Strip(b) {
      StripAppend(Text, a, b);
    }
    if !AtBoundary(a) {
      var b := [0x79];
      StripAppend(Text, a, b);
      assert b[1..] == [] && Strip(b) == b;
      assert StripFrom(ModeAfter(Text, a), b) == [];
    }
  }

  /** Boundaries in terms of the reading: nothing is cut off. */
  lemma BoundaryIsCompleteReading(s: Bytes, us: seq<Item>, tail: Bytes)
    requires Reading(s, us, tail)
    ensures AtBoundary(s) <==> tail == []
  {
    StripIsVisibleText(s, us, tail);
  }

  // ---------- the output ----------

  predicate Subsequence(r: Bytes, s: Bytes) {
    if s == [] then r == []
    else (r != [] && r[0] == s[0] && Subsequence(r[1..], s[1..])) || Subsequence(r, s[1..])
  }

  lemma {:induction false} StripSelects(m: Mode, s: Bytes)
    ensures Subsequence(StripFrom(m, s), s) && EscFree(StripFrom(m, s))
    ensures |StripFrom(m, s)| <= |s|
    decreases |s|
  {
    if s != [] {
      StripSelects(Next(m, s[0]), s[1..]);
      var rest := StripFrom(Next(m, s[0]), s[1..]);
      if m == Text && s[0] != ESC {
        assert StripFrom(m, s)[1..] == rest;
      } else {
        assert StripFrom(m, s) == rest;
      }
    }
  }

  lemma {:induction false} PlainText(s: Bytes)
    requires EscFree(s)
    ensures Strip(s) == s && AtBoundary(s)
  {
    if s != [] {
      PlainText(s[1..]);
    }
  }

  lemma StripTwice(s: Bytes)
    ensures Strip(Strip(s)) == Strip(s)
  {
    StripSelects(Text, s);
    PlainText(Strip(s));
  }

  // ---------- print, then strip ----------

  /** What a terminal program prints. */
  datatype Piece =
    | Words(text: Bytes)
    | Control(body: Bytes, final: Byte)            // ESC [ ... (ECMA-48, section 5.4)
    | OsCommand(payload: Bytes, byBel: bool)       // ESC ] ... (section 5.6, and BEL)
    | ControlString(intro: Byte, payload: Bytes)   // DCS, SOS, PM, APC (section 5.6)
    | TwoByte(code: Byte)

  const ST: Bytes := [0x1B, 0x5C]

  predicate WellFormed(p: Piece) {
    match p
    case Words(text) => 0x1B !in text
    case Control(body, final) => (forall b <- body :: 0x20 <= b <= 0x3F) && 0x40 <= final <= 0x7E
    case OsCommand(payload, _) => 0x1B !in payload && 0x07 !in payload
    case ControlString(intro, payload) => intro in {0x50, 0x58, 0x5E, 0x5F} && 0x1B !in payload
    case TwoByte(code) => code !in {0x50, 0x58, 0x5B, 0x5D, 0x5E, 0x5F}
  }

  function Print(p: Piece): Bytes {
    match p
    case Words(text) => text
    case Control(body, final) => [0x1B, 0x5B] + body + [final]
    case OsCommand(payload, byBel) => [0x1B, 0x5D] + payload + (if byBel then [0x07] else ST)
    case ControlString(intro, payload) => [0x1B, intro] + payload + ST
    case TwoByte(code) => [0x1B, code]
  }

  function WordsOf(p: Piece): Bytes {
    if p.Words? then p.text else []
  }

  function PrintAll(ps: seq<Piece>): Bytes {
    if ps == [] then [] else Print(ps[0]) + PrintAll(ps[1..])
  }

  function AllWords(ps: seq<Piece>): Bytes {
    if ps == [] then [] else WordsOf(ps[0]) + AllWords(ps[1..])
  }

  /** ESC, an opening byte, a body without ESC or terminator, and a terminator. */
  lemma SequenceItem(intro: Byte, body: Bytes, end: Bytes)
    requires Opener(intro).Opens?
    requires match Opener(intro).shape
             case CsiShape => (forall b <- body :: !IsFinal(b)) && |end| == 1 && IsFinal(end[0])
             case OscShape => EscFree(body) && BEL !in body && (end == [BEL] || end == ST)
             case StringShape => EscFree(body) && end == ST
    ensures IsItem(Item(Sequence, [ESC, intro] + body + end))
  {
    var t := [ESC, intro] + body + end;
    var shape := Opener(intro).shape;
    forall p | 2 < p < |t| ensures !EndsAt(t, 2, shape, p) {
      if p <= 2 + |body| {
        assert t[p - 1] == body[p - 3];
        if p > 3 {
          assert t[p - 2] == body[p - 4];
        }
      } else {
        assert t[p - 1] == ESC;
      }
    }
  }

  lemma PieceStrips(p: Piece)
    requires WellFormed(p)
    ensures AtBoundary(Print(p)) && Strip(Print(p)) == WordsOf(p)
  {
    match p {
      case Words(text) =>
        PlainText(text);
      case Control(body, final) =>
        SequenceItem(BRACKET, body, [final]);
        ItemStrips(Item(Sequence, Print(p)));
      case OsCommand(payload, byBel) =>
        SequenceItem(OSC_OPEN, payload, if byBel then [BEL] else ST);
        ItemStrips(Item(Sequence, Print(p)));
      case ControlString(intro, payload) =>
        SequenceItem(intro, payload, ST);
        ItemStrips(Item(Sequence, Print(p)));
      case TwoByte(code) =>
        ItemStrips(Item(Short, Print(p)));
    }
  }

  /** Stripping a printed stream gives the words that were printed. */
  lemma {:induction false} PrintStripRoundTrip(ps: seq<Piece>)
    requires forall p <- ps :: WellFormed(p)
    ensures Strip(PrintAll(ps)) == AllWords(ps) && AtBoundary(PrintAll(ps))
  {
    if ps != [] {
      PieceStrips(ps[0]);
      PrintStripRoundTrip(ps[1..]);
      StripAppend(Text, Print(ps[0]), PrintAll(ps[1..]));
    }
  }
}
