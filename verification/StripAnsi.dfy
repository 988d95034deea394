/** internal/backend/ansi.go: the whole-buffer scanner that removes escape
    sequences, its three skip helpers, the grammar of what they skip, and the
    one-byte-at-a-time transducer that the scanner is proved equal to. */
module StripAnsi {
  import opened Bytes

  // ---------- sequences and where they end ----------

  /** The three ways a sequence can be terminated. */
  datatype Shape =
    | CsiShape      // by a final byte
    | OscShape      // by BEL or ESC \
    | StringShape   // by ESC \ only

  datatype Opening = Opens(shape: Shape) | OpensNothing

  function Opener(b: Byte): Opening {
    if b == BRACKET then Opens(CsiShape)
    else if b == OSC_OPEN then Opens(OscShape)
    else if b == 0x50 || b == 0x5F || b == 0x5E || b == 0x58 then Opens(StringShape)
    else OpensNothing
  }

  /** A terminator of the body that begins at `start` ends just before `p`. */
  predicate EndsAt(data: Bytes, start: nat, shape: Shape, p: nat)
    requires start < p <= |data|
  {
    match shape
    case CsiShape => IsFinal(data[p - 1])
    case OscShape => data[p - 1] == BEL || (start + 2 <= p && data[p - 2] == ESC && data[p - 1] == BACKSLASH)
    case StringShape => start + 2 <= p && data[p - 2] == ESC && data[p - 1] == BACKSLASH
  }

  predicate Unterminated(data: Bytes, start: nat, shape: Shape, upTo: nat)
    requires start <= upTo <= |data|
  {
    forall p :: start < p <= upTo ==> !EndsAt(data, start, shape, p)
  }

  /** `end` is just past the first terminator, or the end of data if there is none. */
  predicate IsSkip(data: Bytes, start: nat, shape: Shape, end: nat) {
    && start <= end <= |data|
    && (start < end ==> Unterminated(data, start, shape, end - 1))
    && (end < |data| ==> start < end && EndsAt(data, start, shape, end))
  }

  method SkipCsi(data: Bytes, start: nat) returns (i: nat)
    requires start <= |data|
    ensures IsSkip(data, start, CsiShape, i)
  {
    i := start;
    while i < |data|
      invariant start <= i <= |data|
      invariant Unterminated(data, start, CsiShape, i)
    {
      var b := data[i];
      i := i + 1;
      if 0x40 <= b <= 0x7E {
        break;
      }
    }
  }

  method SkipOsc(data: Bytes, start: nat) returns (i: nat)
    requires start <= |data|
    ensures IsSkip(data, start, OscShape, i)
  {
    i := start;
    while i < |data|
      invariant start <= i <= |data|
      invariant Unterminated(data, start, OscShape, i)
      invariant start < i < |data| && data[i - 1] == ESC ==> data[i] != BACKSLASH
    {
      var b := data[i];
      i := i + 1;
      if b == BEL {
        break;
      }
      if b == ESC && i < |data| && data[i] == BACKSLASH {
        i := i + 1;
        break;
      }
    }
  }

  method SkipSt(data: Bytes, start: nat) returns (i: nat)
    requires start <= |data|
    ensures IsSkip(data, start, StringShape, i)
  {
    i := start;
    while i < |data|
      invariant start <= i <= |data|
      invariant Unterminated(data, start, StringShape, i)
      invariant start < i < |data| && data[i - 1] == ESC ==> data[i] != BACKSLASH
    {
      var b := data[i];
      i := i + 1;
      if b == ESC && i < |data| && data[i] == BACKSLASH {
        i := i + 1;
        break;
      }
    }
  }

  // ---------- the transducer ----------

  datatype Mode = Text | Esc | In(shape: Shape) | AfterEsc(shape: Shape)

  function Next(m: Mode, b: Byte): Mode {
    match m
    case Text => if b == ESC then Esc else Text
    case Esc => (match Opener(b) case Opens(shape) => In(shape) case OpensNothing => Text)
    case In(shape) => InBody(shape, b)
    case AfterEsc(shape) => if b == BACKSLASH then Text else InBody(shape, b)
  }

  function InBody(shape: Shape, b: Byte): Mode {
    match shape
    case CsiShape => if IsFinal(b) then Text else In(CsiShape)
    case OscShape => if b == BEL then Text else if b == ESC then AfterEsc(OscShape) else In(OscShape)
    case StringShape => if b == ESC then AfterEsc(StringShape) else In(StringShape)
  }

  function ModeAfter(m: Mode, s: Bytes): Mode
    decreases |s|
  {
    if s == [] then m else ModeAfter(Next(m, s[0]), s[1..])
  }

  /** Only bytes met in text that are not ESC get through. */
  function StripFrom(m: Mode, s: Bytes): Bytes
    decreases |s|
  {
    if s == [] then []
    else (if m == Text && s[0] != ESC then [s[0]] else []) + StripFrom(Next(m, s[0]), s[1..])
  }

  function Strip(s: Bytes): Bytes {
    StripFrom(Text, s)
  }

  lemma {:induction false} StripAppend(m: Mode, a: Bytes, b: Bytes)
    ensures StripFrom(m, a + b) == StripFrom(m, a) + StripFrom(ModeAfter(m, a), b)
    ensures ModeAfter(m, a + b) == ModeAfter(ModeAfter(m, a), b)
    decreases |a|
  {
    if a == [] {
      assert a + b == b;
    } else {
      assert (a + b)[1..] == a[1..] + b;
      StripAppend(Next(m, a[0]), a[1..], b);
    }
  }

  // ---------- the scanner is the transducer ----------

  lemma StripSnoc(m: Mode, a: Bytes, b: Byte)
    ensures ModeAfter(m, a + [b]) == Next(ModeAfter(m, a), b)
    ensures StripFrom(m, a + [b]) == StripFrom(m, a) + (if ModeAfter(m, a) == Text && b != ESC then [b] else [])
  {
    StripAppend(m, a, [b]);
    assert [b][1..] == [];
    assert ModeAfter(Next(ModeAfter(m, a), b), []) == Next(ModeAfter(m, a), b);
  }

  /** Inside an unterminated body the transducer remembers only a preceding ESC. */
  lemma {:induction false} BodyMode(data: Bytes, start: nat, shape: Shape, q: nat)
    requires start <= q <= |data| && Unterminated(data, start, shape, q)
    ensures StripFrom(In(shape), data[start..q]) == []
    ensures ModeAfter(In(shape), data[start..q]) ==
            if start < q && data[q - 1] == ESC && shape != CsiShape then AfterEsc(shape) else In(shape)
  {
    if start < q {
      BodyMode(data, start, shape, q - 1);
      assert !EndsAt(data, start, shape, q);
      assert data[start..q] == data[start..q - 1] + [data[q - 1]];
      StripSnoc(In(shape), data[start..q - 1], data[q - 1]);
    }
  }

  /** The byte that completes the first terminator takes the transducer to text. */
  lemma BodyEnds(data: Bytes, start: nat, shape: Shape, end: nat)
    requires IsSkip(data, start, shape, end) && start < end && EndsAt(data, start, shape, end)
    ensures StripFrom(In(shape), data[start..end]) == [] && ModeAfter(In(shape), data[start..end]) == Text
  {
    BodyMode(data, start, shape, end - 1);
    assert data[start..end] == data[start..end - 1] + [data[end - 1]];
    StripSnoc(In(shape), data[start..end - 1], data[end - 1]);
  }

  /** Jumping to `end` is what the transducer does inside a sequence. */
  lemma SkipStrips(data: Bytes, start: nat, shape: Shape, end: nat)
    requires IsSkip(data, start, shape, end)
    ensures StripFrom(In(shape), data[start..]) == Strip(data[end..])
  {
    assert data[start..] == data[start..end] + data[end..];
    StripAppend(In(shape), data[start..end], data[end..]);
    if start < end && EndsAt(data, start, shape, end) {
      BodyEnds(data, start, shape, end);
    } else {
      BodyMode(data, start, shape, end);
    }
  }

  /** What one turn of the scanning loop removes after an ESC. */
  lemma EscapeStrips(data: Bytes, i: nat, end: nat)
    requires i < |data|
    requires match Opener(data[i])
             case Opens(shape) => IsSkip(data, i + 1, shape, end)
             case OpensNothing => end == i + 1
    ensures end <= |data| && StripFrom(Esc, data[i..]) == Strip(data[end..])
  {
    assert data[i..][1..] == data[i + 1..];
    if Opener(data[i]).Opens? {
      SkipStrips(data, i + 1, Opener(data[i]).shape, end);
    }
  }

  method StripAnsi(data: Bytes) returns (result: Bytes)
    ensures result == Strip(data)
  {
    if |data| == 0 {
      return data;
    }
    result := [];
    var i := 0;
    while i < |data|
      invariant 0 <= i <= |data|
      invariant result + Strip(data[i..]) == Strip(data)
    {
      assert data[i..][1..] == data[i + 1..];
      if data[i] != ESC {
        result := result + [data[i]];
        i := i + 1;
        continue;
      }
      i := i + 1;
      if i >= |data| {
        assert data[i - 1..][1..] == [];
        assert StripFrom(Esc, []) == [] && Strip(data[i - 1..]) == [];
        break;
      }
      ghost var opener := i;
      if data[i] == BRACKET {
        i := SkipCsi(data, i + 1);
      } else if data[i] == OSC_OPEN {
        i := SkipOsc(data, i + 1);
      } else if data[i] == 0x50 || data[i] == 0x5F || data[i] == 0x5E || data[i] == 0x58 {
        i := SkipSt(data, i + 1);
      } else if 0x20 <= data[i] <= 0x2F {
        i := i + 1;
      } else {
        i := i + 1;
      }
      EscapeStrips(data, opener, i);
    }
    assert result + [] == result;
  }
}
