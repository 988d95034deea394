/** Splitting into lines, joining, and trimming on the right, as Go's strings package
    does them for a newline and for the cutset newline, return, tab, space. */
module Lines {
  import opened Bytes

  predicate IsBlank(b: Byte) {
    b == LF || b == CR || b == 0x09 || b == 0x20
  }

  function TrimRight(s: Bytes): Bytes {
    if s != [] && IsBlank(s[|s| - 1]) then TrimRight(s[..|s| - 1]) else s
  }

  function Split(s: Bytes): (lines: seq<Bytes>)
    ensures lines != []
  {
    if s == [] then [[]]
    else
      var (front, last) := (Split(s[..|s| - 1]), s[|s| - 1]);
      if last == LF then front + [[]]
      else front[|front| - 1 := front[|front| - 1] + [last]]
  }

  function Join(lines: seq<Bytes>): Bytes {
    if lines == [] then []
    else if |lines| == 1 then lines[0]
    else Join(lines[..|lines| - 1]) + [LF] + lines[|lines| - 1]
  }

  predicate IsLine(line: Bytes) {
    0x0A !in line
  }

  /** The lines hold no newline, and joining them gives the text back. */
  lemma {:induction false} SplitJoins(s: Bytes)
    ensures forall i :: 0 <= i < |Split(s)| ==> IsLine(Split(s)[i])
    ensures Join(Split(s)) == s
  {
    if s != [] {
      var (front, last) := (Split(s[..|s| - 1]), s[|s| - 1]);
      SplitJoins(s[..|s| - 1]);
      assert s == s[..|s| - 1] + [last];
      if last == LF {
        assert Split(s)[..|front|] == front;
      } else {
        JoinGrows(front, last);
      }
    }
  }

  lemma JoinGrows(lines: seq<Bytes>, b: Byte)
    requires lines != []
    ensures Join(lines[|lines| - 1 := lines[|lines| - 1] + [b]]) == Join(lines) + [b]
  {
    var n := |lines| - 1;
    var grown := lines[n := lines[n] + [b]];
    assert grown[..n] == lines[..n];
  }

  lemma SplitEmpty()
    ensures Split([]) == [[]]
  {
  }

  lemma SplitGrows(s: Bytes, b: Byte)
    ensures Split(s + [b]) ==
            if b == LF then Split(s) + [[]]
            else Split(s)[|Split(s)| - 1 := Split(s)[|Split(s)| - 1] + [b]]
  {
    assert (s + [b])[..|s|] == s;
  }

  lemma JoinNonempty(lines: seq<Bytes>)
    requires lines != [] && lines[|lines| - 1] != []
    ensures Join(lines) != []
  {
  }

  /** Splitting is the only way to write a text as joined lines. */
  lemma {:induction false} SplitUnique(lines: seq<Bytes>)
    requires lines != [] && forall i :: 0 <= i < |lines| ==> IsLine(lines[i])
    ensures Split(Join(lines)) == lines
    decreases |lines|, |lines[|lines| - 1]|
  {
    hide Split;
    var n := |lines| - 1;
    var line := lines[n];
    if line != [] {
      LastLineShrinks(lines);
      SplitUnique(lines[n := line[..|line| - 1]]);
      SplitGrows(Join(lines[n := line[..|line| - 1]]), line[|line| - 1]);
    } else if n > 0 {
      SplitUnique(lines[..n]);
      SplitGrows(Join(lines[..n]), LF);
      assert Join(lines) == Join(lines[..n]) + [LF];
      assert lines == lines[..n] + [[]];
    } else {
      assert lines == [[]];
      assert Split([]) == [[]] by { SplitEmpty(); }
    }
  }

  lemma LastLineShrinks(lines: seq<Bytes>)
    requires lines != [] && lines[|lines| - 1] != [] && IsLine(lines[|lines| - 1])
    ensures var (n, line) := (|lines| - 1, lines[|lines| - 1]);
            var (shorter, b) := (line[..|line| - 1], line[|line| - 1]);
            && b != LF && IsLine(shorter) && shorter + [b] == line
            && Join(lines) == Join(lines[n := shorter]) + [b]
            && lines[n := shorter][n := shorter + [b]] == lines
  {
    var (n, line) := (|lines| - 1, lines[|lines| - 1]);
    var (shorter, b) := (line[..|line| - 1], line[|line| - 1]);
    assert b in line && shorter + [b] == line;
    JoinGrows(lines[n := shorter], b);
    assert lines[n := shorter][n := shorter + [b]] == lines;
  }

  /** Each line of the trimmed text is the beginning of the same line of the text. */
  lemma {:induction false} TrimmedLines(s: Bytes)
    ensures |Split(TrimRight(s))| <= |Split(s)|
    ensures forall i :: 0 <= i < |Split(TrimRight(s))| ==> Split(TrimRight(s))[i] <= Split(s)[i]
  {
    if s != [] && IsBlank(s[|s| - 1]) {
      var shorter := s[..|s| - 1];
      TrimmedLines(shorter);
      assert forall i :: 0 <= i < |Split(shorter)| ==> Split(shorter)[i] <= Split(s)[i];
    }
  }

  /** Exactly the newlines, returns, tabs and spaces at the end are removed. */
  lemma {:induction false} TrimmedExactly(s: Bytes)
    ensures var t := TrimRight(s);
            && t <= s
            && (forall i :: |t| <= i < |s| ==> s[i] in {0x0A, 0x0D, 0x09, 0x20})
            && (t != [] ==> t[|t| - 1] !in {0x0A, 0x0D, 0x09, 0x20})
  {
    if s != [] && IsBlank(s[|s| - 1]) {
      TrimmedExactly(s[..|s| - 1]);
    }
  }
}
