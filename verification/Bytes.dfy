/** Bytes, the control characters both escape-sequence machines look at, and
    concatenation of byte strings. */
module Bytes {
  newtype Byte = x: int | 0 <= x < 0x100

  type Bytes = seq<Byte>

  const BEL: Byte := 0x07
  const ESC: Byte := 0x1B
  const CR: Byte := 0x0D
  const LF: Byte := 0x0A
  const LT: Byte := 0x3C           // '<'
  const CAPITAL_O: Byte := 0x4F    // 'O'
  const BRACKET: Byte := 0x5B      // '['
  const BACKSLASH: Byte := 0x5C
  const OSC_OPEN: Byte := 0x5D     // ']'

  /** Parameter and intermediate bytes of a control sequence (ECMA-48, section 5.4). */
  predicate IsParameter(b: Byte) {
    0x20 <= b <= 0x3F
  }

  /** Final bytes of a control sequence (ECMA-48, section 5.4). */
  predicate IsFinal(b: Byte) {
    0x40 <= b <= 0x7E
  }

  predicate EscFree(s: Bytes) {
    ESC !in s
  }

  function Concat(parts: seq<Bytes>): Bytes {
    if parts == [] then [] else parts[0] + Concat(parts[1..])
  }

  lemma {:induction false} ConcatAppend(a: seq<Bytes>, b: seq<Bytes>)
    ensures Concat(a + b) == Concat(a) + Concat(b)
  {
    if a == [] {
      assert a + b == b;
    } else {
      assert (a + b)[1..] == a[1..] + b;
      ConcatAppend(a[1..], b);
    }
  }

  lemma ConcatSnoc(a: seq<Bytes>, x: Bytes)
    ensures Concat(a + [x]) == Concat(a) + x
  {
    ConcatAppend(a, [x]);
    assert Concat([x]) == x + Concat([]) == x;
  }
}
