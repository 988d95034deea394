/** Counting instants that keep a minimum distance. */
module Spacing {
  predicate Spaced(xs: seq<int>, gap: nat) {
    forall i, j :: 0 <= i < j < |xs| ==> xs[i] + gap <= xs[j]
  }

  /** How many of `xs` fall between `lo` and `hi`, both included. */
  function CountWithin(xs: seq<int>, lo: int, hi: int): nat {
    if xs == [] then 0
    else
      var last := xs[|xs| - 1];
      CountWithin(xs[..|xs| - 1], lo, hi) + if lo <= last <= hi then 1 else 0
  }

  lemma {:induction false} CountUpTo(xs: seq<int>, lo: int, hi: int, hi': int)
    requires forall i :: 0 <= i < |xs| ==> (xs[i] <= hi <==> xs[i] <= hi')
    ensures CountWithin(xs, lo, hi) == CountWithin(xs, lo, hi')
  {
    if xs != [] {
      CountUpTo(xs[..|xs| - 1], lo, hi, hi');
    }
  }

  lemma {:induction false} CountNone(xs: seq<int>, lo: int, hi: int)
    requires forall i :: 0 <= i < |xs| ==> xs[i] < lo || hi < xs[i]
    ensures CountWithin(xs, lo, hi) == 0
  {
    if xs != [] {
      CountNone(xs[..|xs| - 1], lo, hi);
    }
  }

  lemma MultiplyMonotone(a: int, b: int, gap: nat)
    requires a <= b
    ensures a * gap <= b * gap
  {
    assert (b - a) * gap >= 0;
    assert (b - a) * gap == b * gap - a * gap;
  }

  lemma Quotient(n: int, gap: nat, length: int)
    requires gap > 0 && n * gap <= length
    ensures n <= length / gap
  {
    var q := length / gap;
    assert length == q * gap + length % gap;
    assert (q + 1) * gap == q * gap + gap;
    if n > q {
      MultiplyMonotone(q + 1, n, gap);
    }
  }

  /** Each instant in the window but the first uses up a gap. */
  lemma {:induction false} WindowGaps(xs: seq<int>, gap: nat, lo: int, hi: int)
    requires Spaced(xs, gap) && lo <= hi
    ensures (CountWithin(xs, lo, hi) - 1) * gap <= hi - lo
  {
    if xs != [] {
      var (front, last) := (xs[..|xs| - 1], xs[|xs| - 1]);
      if lo <= last <= hi {
        assert forall i :: 0 <= i < |front| ==> front[i] == xs[i];
        CountUpTo(front, lo, hi, last - gap);
        var n := CountWithin(front, lo, last - gap);
        if lo <= last - gap {
          WindowGaps(front, gap, lo, last - gap);
          assert (n - 1) * gap == n * gap - gap;
        } else {
          CountNone(front, lo, last - gap);
        }
      } else {
        WindowGaps(front, gap, lo, hi);
      }
    } else {
      MultiplyMonotone(-1, 0, gap);
    }
  }

  /** A window of length L holds at most 1 + floor(L / gap) instants. */
  lemma WindowBound(xs: seq<int>, gap: nat, lo: int, hi: int)
    requires gap > 0 && Spaced(xs, gap) && lo <= hi
    ensures CountWithin(xs, lo, hi) <= 1 + (hi - lo) / gap
  {
    WindowGaps(xs, gap, lo, hi);
    Quotient(CountWithin(xs, lo, hi) - 1, gap, hi - lo);
  }
}
