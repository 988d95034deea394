/** The stdin filter of the launcher and the stripper of the backend, on the streams
    both are meant for: ESC-free text and complete control sequences. */
module Agreement {
  import opened Bytes
  import F = FilterGrammar
  import opened StripAnsi
  import opened StripGrammar

  predicate TextOrControl(p: Piece) {
    WellFormed(p) && (p.Words? || p.Control?)
  }

  /** After a '<' there are only digits and semicolons. */
  predicate CleanBody(body: Bytes) {
    forall i, j :: 0 <= i < j < |body| && body[i] == LT ==> F.IsDigitOrSemicolon(body[j])
  }

  predicate Clean(p: Piece) {
    p.Control? ==> CleanBody(p.body)
  }

  /** The filter lets a control sequence through, whole, if it is not clean. */
  function Filtered(p: Piece): Bytes {
    if p.Words? || !Clean(p) then Print(p) else []
  }

  function FilteredAll(ps: seq<Piece>): Bytes {
    if ps == [] then [] else Filtered(ps[0]) + FilteredAll(ps[1..])
  }

  lemma {:induction false} FilterPlain(s: Bytes)
    requires EscFree(s)
    ensures F.Filter(s) == s && F.RunAll(s).machine == F.START
  {
    if s != [] {
      var f := F.Factor(F.Plain, s[..1]);
      FilterPlain(s[1..]);
      F.RunFactor(f);
      F.FilterOne(f, s[1..]);
      assert s == s[..1] + s[1..];
    }
  }

  /** The opening of a control sequence, as far as a body goes without a bad byte. */
  lemma OpeningPrefix(body: Bytes)
    requires forall b <- body :: IsParameter(b)
    requires CleanBody(body)
    ensures F.CsiPrefix([ESC, BRACKET] + body) || F.CsiUPrefix([ESC, BRACKET] + body)
  {
    var t := [ESC, BRACKET] + body;
    if k :| 0 <= k < |body| && body[k] == LT {
      forall i | 0 <= i < k ensures body[i] != LT {
        assert body[i] == LT ==> F.IsDigitOrSemicolon(body[k]);
      }
      assert F.CsiPrefix(t[..k + 2]) by {
        assert forall i :: 2 <= i < k + 2 ==> t[i] == body[i - 2];
      }
      assert F.CsiUPrefixAt(t, k + 2) by {
        assert forall i :: k + 2 < i < |t| ==> t[i] == body[i - 2];
      }
    } else {
      assert forall i :: 2 <= i < |t| ==> t[i] == body[i - 2];
    }
  }

  /** The first byte that a body with a '<' should not contain. */
  lemma {:induction false} FirstBad(body: Bytes) returns (x: nat)
    requires !CleanBody(body)
    ensures x < |body| && CleanBody(body[..x])
    ensures LT in body[..x] && !F.IsDigitOrSemicolon(body[x])
    decreases |body|
  {
    var front := body[..|body| - 1];
    if CleanBody(front) {
      x := |front|;
      assert forall i :: 0 <= i < |front| ==> front[i] == body[i];
      var i, j :| 0 <= i < j < |body| && body[i] == LT && !F.IsDigitOrSemicolon(body[j]);
      assert j == |front|;
      assert body[..x][i] == LT;
    } else {
      x := FirstBad(front);
      assert body[..x] == front[..x];
    }
  }

  lemma FilterPiece(p: Piece, rest: Bytes)
    requires TextOrControl(p)
    ensures F.Filter(Print(p) + rest) == Filtered(p) + F.Filter(rest)
  {
    if p.Words? {
      FilterPlain(p.text);
      F.FilterSplits(p.text, rest);
    } else if Clean(p) {
      OpeningPrefix(p.body);
      assert Print(p)[..|Print(p)| - 1] == [ESC, BRACKET] + p.body;
      F.FilterOne(F.Factor(F.Csi, Print(p)), rest);
    } else {
      FilterUnclean(p.body, p.final, rest);
    }
  }

  lemma Regroup(a: Bytes, b: Bytes, c: Bytes)
    ensures a + b + c == a + (b + c)
  {
  }

  /** The bad byte aborts the sequence, and what is left of it is plain text. */
  lemma FilterUnclean(body: Bytes, final: Byte, rest: Bytes)
    requires (forall b <- body :: IsParameter(b)) && IsFinal(final) && !CleanBody(body)
    ensures var t := [ESC, BRACKET] + body + [final];
            F.Filter(t + rest) == t + F.Filter(rest)
  {
    var t := [ESC, BRACKET] + body + [final];
    var x := FirstBad(body);
    AbortedText(body, x);
    var (abort, after) := ([ESC, BRACKET] + body[..x + 1], body[x + 1..] + [final]);
    assert forall b <- after :: b in body || b == final;
    FilterPlain(after);
    F.FilterSplits(after, rest);
    hide F.Filter, CleanBody, EscFree;
    assert abort + after == t;
    FilterAborted(abort, after + rest);
    Regroup(abort, after, rest);
    Regroup(abort, after, F.Filter(rest));
  }

  lemma FilterAborted(abort: Bytes, rest: Bytes)
    requires F.IsFactor(F.Factor(F.Aborted, abort))
    ensures F.Filter(abort + rest) == abort + F.Filter(rest)
  {
    F.FilterOne(F.Factor(F.Aborted, abort), rest);
  }

  lemma AbortedText(body: Bytes, x: nat)
    requires forall b <- body :: IsParameter(b)
    requires x < |body| && CleanBody(body[..x]) && LT in body[..x] && !F.IsDigitOrSemicolon(body[x])
    ensures F.IsFactor(F.Factor(F.Aborted, [ESC, BRACKET] + body[..x + 1]))
  {
    var t := [ESC, BRACKET] + body[..x + 1];
    var front := [ESC, BRACKET] + body[..x];
    assert t[..|t| - 1] == front;
    assert t[|t| - 1] == body[x] && body[x] in body;
    OpeningPrefix(body[..x]);
    var i :| 0 <= i < x && body[..x][i] == LT;
    assert front[i + 2] == LT;
    assert F.CsiUPrefix(front);
  }

  lemma {:induction false} FilterPrinted(ps: seq<Piece>)
    requires forall p <- ps :: TextOrControl(p)
    ensures F.Filter(PrintAll(ps)) == FilteredAll(ps)
  {
    if ps != [] {
      FilterPrinted(ps[1..]);
      FilterPiece(ps[0], PrintAll(ps[1..]));
    }
  }

  /** The filter lets through at least the words, and more if a sequence is not clean. */
  lemma {:induction false} FilteredAtLeastWords(ps: seq<Piece>)
    requires forall p <- ps :: TextOrControl(p)
    ensures |FilteredAll(ps)| >= |AllWords(ps)|
    ensures (forall p <- ps :: Clean(p)) ==> FilteredAll(ps) == AllWords(ps)
    ensures |FilteredAll(ps)| == |AllWords(ps)| ==> forall p <- ps :: Clean(p)
  {
    if ps != [] {
      FilteredAtLeastWords(ps[1..]);
      assert forall p <- ps :: p == ps[0] || p in ps[1..];
    }
  }

  /** On such a stream the two machines agree exactly when every sequence is clean,
      and then both give the text. */
  lemma MachinesAgree(ps: seq<Piece>)
    requires forall p <- ps :: TextOrControl(p)
    ensures F.Filter(PrintAll(ps)) == Strip(PrintAll(ps)) <==> forall p <- ps :: Clean(p)
    ensures (forall p <- ps :: Clean(p)) ==> F.Filter(PrintAll(ps)) == AllWords(ps)
  {
    FilterPrinted(ps);
    PrintStripRoundTrip(ps);
    FilteredAtLeastWords(ps);
  }

  /** They disagree on ESC [ < 3 : 5 u, which the filter lets through. */
  lemma MachinesDisagree()
    ensures var s := [ESC, BRACKET, LT, 0x33, 0x3A, 0x35, 0x75];
            F.Filter(s) == s && Strip(s) == []
  {
    var p := Control([LT, 0x33, 0x3A, 0x35], 0x75);
    var s := [ESC, BRACKET, LT, 0x33, 0x3A, 0x35, 0x75];
    assert p.body[0] == LT && !F.IsDigitOrSemicolon(p.body[2]);
    assert Print(p) == s && s + [] == s;
    PieceStrips(p);
    FilterPiece(p, []);
    FilterPlain([]);
    assert Filtered(p) + [] == s;
  }
}
