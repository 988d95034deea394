/** internal/backend/phase.go: phases, their pattern tables, and the lines of an
    output that report an error. What a pattern matches is left open. */
module Phase {
  import opened Bytes
  import opened Lines

  datatype Phase = PhaseUnknown | PhaseCompile | PhaseLint | PhaseTest

  datatype PhaseResult = ResultUnknown | ResultSuccess | ResultFailure

  /** The regular expressions of the tables, by what they look for. */
  datatype Pattern =
    // errors
    | FileLineColumn | FileLine | PackageHeader | BuildFailed | CompilationError
    | CannotFindPackage | Undefined | CannotFindModule | MissingGoSum
    | InconsistentVendoring | FoundPackages
    | TestFailed | PackageFailed | IndentedFileLine | DataRace
    // success
    | PackageOk
    // triggers
    | GoBuild | GoInstall | GoVet | GoMod | GoGenerate | GoRun
    | GolangciLint | LintWord | GoTest

  /** Which pattern matches which text. */
  type Matcher = (Pattern, Bytes) -> bool

  datatype PhaseMatch = PhaseMatch(trigger: Pattern, result: PhaseResult)

  const COMPILE_PATTERNS: seq<PhaseMatch> := [
    PhaseMatch(FileLineColumn, ResultFailure),
    PhaseMatch(FileLine, ResultFailure),
    PhaseMatch(PackageHeader, ResultFailure),
    PhaseMatch(BuildFailed, ResultFailure),
    PhaseMatch(CompilationError, ResultFailure),
    PhaseMatch(CannotFindPackage, ResultFailure),
    PhaseMatch(Undefined, ResultFailure),
    PhaseMatch(CannotFindModule, ResultFailure),
    PhaseMatch(MissingGoSum, ResultFailure),
    PhaseMatch(InconsistentVendoring, ResultFailure),
    PhaseMatch(FoundPackages, ResultFailure)]

  const TEST_PATTERNS: seq<PhaseMatch> := [
    PhaseMatch(PackageOk, ResultSuccess),
    PhaseMatch(TestFailed, ResultFailure),
    PhaseMatch(PackageFailed, ResultFailure),
    PhaseMatch(IndentedFileLine, ResultFailure),
    PhaseMatch(DataRace, ResultFailure)]

  const LINT_PATTERNS: seq<PhaseMatch> := [PhaseMatch(FileLineColumn, ResultFailure)]

  datatype Trigger = Trigger(phase: Phase, pattern: Pattern)

  const PHASE_TRIGGERS: seq<Trigger> := [
    Trigger(PhaseCompile, GoBuild),
    Trigger(PhaseCompile, GoInstall),
    Trigger(PhaseCompile, GoVet),
    Trigger(PhaseCompile, GoMod),
    Trigger(PhaseCompile, GoGenerate),
    Trigger(PhaseCompile, GoRun),
    Trigger(PhaseLint, GolangciLint),
    Trigger(PhaseLint, LintWord),
    Trigger(PhaseTest, GoTest)]

  function GatePatterns(p: Phase): seq<PhaseMatch> {
    match p
    case PhaseCompile => COMPILE_PATTERNS
    case PhaseLint => LINT_PATTERNS
    case PhaseTest => TEST_PATTERNS
    case PhaseUnknown => []
  }

  function FirstTriggered(ts: seq<Trigger>, output: Bytes, m: Matcher): Phase {
    if ts == [] then PhaseUnknown
    else if m(ts[0].pattern, output) then ts[0].phase
    else FirstTriggered(ts[1..], output, m)
  }

  function DetectPhaseTrigger(output: Bytes, m: Matcher): Phase {
    FirstTriggered(PHASE_TRIGGERS, output, m)
  }

  function FirstMatched(ps: seq<PhaseMatch>, output: Bytes, m: Matcher, otherwise: PhaseResult): PhaseResult {
    if ps == [] then otherwise
    else if m(ps[0].trigger, output) then ps[0].result
    else FirstMatched(ps[1..], output, m, otherwise)
  }

  function AnalyzeOutput(output: Bytes, p: Phase, m: Matcher): PhaseResult {
    if p == PhaseUnknown then ResultUnknown
    else
      FirstMatched(GatePatterns(p), output, m,
                   if p == PhaseCompile || p == PhaseLint then ResultSuccess else ResultUnknown)
  }

  // ---------- which phase a text announces ----------

  predicate OfPhase(ts: seq<Trigger>, p: Phase) {
    p != PhaseUnknown && forall i :: 0 <= i < |ts| ==> ts[i].phase == p
  }

  lemma {:induction false} TriggersOfPhase(ts: seq<Trigger>, p: Phase, rest: seq<Trigger>, output: Bytes, m: Matcher)
    requires OfPhase(ts, p)
    ensures FirstTriggered(ts + rest, output, m) ==
            if exists i :: 0 <= i < |ts| && m(ts[i].pattern, output) then p else FirstTriggered(rest, output, m)
  {
    if ts == [] {
      assert ts + rest == rest;
    } else {
      assert (ts + rest)[1..] == ts[1..] + rest;
      TriggersOfPhase(ts[1..], p, rest, output, m);
      assert forall i :: 1 <= i < |ts| ==> ts[i] == ts[1..][i - 1];
    }
  }

  /** Building takes precedence over linting, and linting over testing. */
  lemma DetectedExactly(output: Bytes, m: Matcher)
    ensures DetectPhaseTrigger(output, m) ==
            if exists p <- [GoBuild, GoInstall, GoVet, GoMod, GoGenerate, GoRun] :: m(p, output) then PhaseCompile
            else if m(GolangciLint, output) || m(LintWord, output) then PhaseLint
            else if m(GoTest, output) then PhaseTest
            else PhaseUnknown
  {
    hide FirstTriggered;
    var ts := PHASE_TRIGGERS;
    var (building, linting, testing) := (ts[..6], ts[6..8], ts[8..]);
    TriggersOfPhase(building, PhaseCompile, linting + testing, output, m);
    TriggersOfPhase(linting, PhaseLint, testing, output, m);
    TriggersOfPhase(testing, PhaseTest, [], output, m);
    assert ts == building + (linting + testing) && testing + [] == testing;
    assert FirstTriggered([], output, m) == PhaseUnknown by { NoTriggers(output, m); }
    var patterns := [GoBuild, GoInstall, GoVet, GoMod, GoGenerate, GoRun];
    assert forall i :: 0 <= i < 6 ==> building[i].pattern == patterns[i];
    assert linting[0].pattern == GolangciLint && linting[1].pattern == LintWord && testing[0].pattern == GoTest;
  }

  lemma NoTriggers(output: Bytes, m: Matcher)
    ensures FirstTriggered([], output, m) == PhaseUnknown
  {
  }

  // ---------- what the verdict means ----------

  function FailureOf(q: PhaseMatch): seq<Pattern> {
    if q.result == ResultFailure then [q.trigger] else []
  }

  function FailurePatterns(ps: seq<PhaseMatch>): seq<Pattern> {
    if ps == [] then []
    else FailureOf(ps[0]) + FailurePatterns(ps[1..])
  }

  predicate AnyMatches(ps: seq<Pattern>, text: Bytes, m: Matcher) {
    exists i :: 0 <= i < |ps| && m(ps[i], text)
  }

  predicate ReportsError(p: Phase, text: Bytes, m: Matcher) {
    AnyMatches(FailurePatterns(GatePatterns(p)), text, m)
  }

  predicate OnlyFailures(ps: seq<PhaseMatch>) {
    forall i :: 0 <= i < |ps| ==> ps[i].result == ResultFailure
  }

  lemma {:induction false} AnyFailure(ps: seq<PhaseMatch>, output: Bytes, m: Matcher, otherwise: PhaseResult)
    requires OnlyFailures(ps)
    ensures FirstMatched(ps, output, m, otherwise) ==
            if AnyMatches(FailurePatterns(ps), output, m) then ResultFailure else otherwise
  {
    if ps != [] {
      AnyFailure(ps[1..], output, m, otherwise);
      var fs := FailurePatterns(ps);
      assert fs == [ps[0].trigger] + FailurePatterns(ps[1..]);
      assert m(ps[0].trigger, output) ==> m(fs[0], output);
      forall i | 0 <= i < |fs| - 1 ensures fs[i + 1] == FailurePatterns(ps[1..])[i] {
      }
      if AnyMatches(FailurePatterns(ps[1..]), output, m) {
        var i :| 0 <= i < |fs| - 1 && m(FailurePatterns(ps[1..])[i], output);
        assert m(fs[i + 1], output);
      }
    }
  }

  /** The shape of the tables: every pattern is a failure pattern, except that the
      test phase first looks for an ok package. */
  lemma Tables(p: Phase)
    ensures var ps := GatePatterns(p);
            && (ps == [] <==> p == PhaseUnknown)
            && (p != PhaseTest ==> OnlyFailures(ps))
            && (p == PhaseTest ==> |ps| > 1 && ps[0] == PhaseMatch(PackageOk, ResultSuccess) && OnlyFailures(ps[1..]))
  {
  }

  lemma {:induction false} AllFailures(ps: seq<PhaseMatch>)
    requires OnlyFailures(ps)
    ensures var fs := FailurePatterns(ps);
            |fs| == |ps| && forall i :: 0 <= i < |ps| ==> fs[i] == ps[i].trigger
  {
    if ps != [] {
      AllFailures(ps[1..]);
      assert FailurePatterns(ps) == [ps[0].trigger] + FailurePatterns(ps[1..]);
    }
  }

  lemma CompileErrors()
    ensures FailurePatterns(GatePatterns(PhaseCompile)) ==
            [FileLineColumn, FileLine, PackageHeader, BuildFailed, CompilationError, CannotFindPackage,
             Undefined, CannotFindModule, MissingGoSum, InconsistentVendoring, FoundPackages]
  {
    hide FailurePatterns;
    AllFailures(COMPILE_PATTERNS);
  }

  lemma LintErrors()
    ensures FailurePatterns(GatePatterns(PhaseLint)) == [FileLineColumn]
  {
    hide FailurePatterns;
    AllFailures(LINT_PATTERNS);
  }

  lemma TestErrors()
    ensures FailurePatterns(GatePatterns(PhaseTest)) == [TestFailed, PackageFailed, IndentedFileLine, DataRace]
  {
    hide FailurePatterns;
    AllFailures(TEST_PATTERNS[1..]);
    SuccessFirst(TEST_PATTERNS);
  }

  lemma SuccessFirst(ps: seq<PhaseMatch>)
    requires ps != [] && ps[0].result != ResultFailure
    ensures FailurePatterns(ps) == FailurePatterns(ps[1..])
  {
  }

  /** The patterns that mean an error, phase by phase. */
  lemma ErrorPatterns(text: Bytes, p: Phase, m: Matcher)
    ensures ReportsError(p, text, m) <==>
            match p
            case PhaseUnknown => false
            case PhaseCompile =>
              exists q <- [FileLineColumn, FileLine, PackageHeader, BuildFailed, CompilationError, CannotFindPackage,
                           Undefined, CannotFindModule, MissingGoSum, InconsistentVendoring, FoundPackages] :: m(q, text)
            case PhaseLint => m(FileLineColumn, text)
            case PhaseTest => exists q <- [TestFailed, PackageFailed, IndentedFileLine, DataRace] :: m(q, text)
  {
    hide GatePatterns, FailurePatterns;
    KnownPhaseHasFailures(p);
    CompileErrors();
    LintErrors();
    TestErrors();
    var ps := FailurePatterns(GatePatterns(p));
    assert AnyMatches(ps, text, m) <==> exists q <- ps :: m(q, text);
  }

  /** An error anywhere fails a phase, unless, in the test phase, some package is
      reported to be ok. */
  lemma VerdictOnErrors(output: Bytes, p: Phase, m: Matcher)
    ensures AnalyzeOutput(output, p, m) ==
            if p == PhaseUnknown then ResultUnknown
            else if p == PhaseTest && m(PackageOk, output) then ResultSuccess
            else if ReportsError(p, output, m) then ResultFailure
            else if p == PhaseTest then ResultUnknown
            else ResultSuccess
  {
    hide GatePatterns;
    Tables(p);
    var ps := GatePatterns(p);
    if p == PhaseTest {
      assert FailurePatterns(ps) == [] + FailurePatterns(ps[1..]) == FailurePatterns(ps[1..]);
      AnyFailure(ps[1..], output, m, ResultUnknown);
    } else if p != PhaseUnknown {
      AnyFailure(ps, output, m, ResultSuccess);
    }
  }

  /** The verdict of every phase. */
  lemma VerdictExactly(output: Bytes, p: Phase, m: Matcher)
    ensures AnalyzeOutput(output, p, m) ==
            match p
            case PhaseUnknown => ResultUnknown
            case PhaseCompile =>
              if exists q <- [FileLineColumn, FileLine, PackageHeader, BuildFailed, CompilationError, CannotFindPackage,
                              Undefined, CannotFindModule, MissingGoSum, InconsistentVendoring, FoundPackages] ::
                   m(q, output)
              then ResultFailure else ResultSuccess
            case PhaseLint => if m(FileLineColumn, output) then ResultFailure else ResultSuccess
            case PhaseTest =>
              if m(PackageOk, output) then ResultSuccess
              else if exists q <- [TestFailed, PackageFailed, IndentedFileLine, DataRace] :: m(q, output)
              then ResultFailure else ResultUnknown
  {
    hide AnalyzeOutput, ReportsError;
    VerdictOnErrors(output, p, m);
    ErrorPatterns(output, p, m);
  }

  // ---------- error lines ----------

  function Matching(lines: seq<Bytes>, ps: seq<Pattern>, m: Matcher): seq<Bytes> {
    if lines == [] then []
    else
      var last := lines[|lines| - 1];
      Matching(lines[..|lines| - 1], ps, m) + if AnyMatches(ps, last, m) then [last] else []
  }

  /** The lines of the trimmed output that match a failure pattern, in order; for a
      phase without patterns, the trimmed output itself. */
  function ErrorLines(output: Bytes, p: Phase, m: Matcher): Bytes {
    var (text, ps) := (TrimRight(output), FailurePatterns(GatePatterns(p)));
    if ps == [] then text else Join(Matching(Split(text), ps, m))
  }

  lemma {:induction false} FailuresSnoc(ps: seq<PhaseMatch>, q: PhaseMatch)
    ensures FailurePatterns(ps + [q]) == FailurePatterns(ps) + FailureOf(q)
  {
    hide GatePatterns;
    var all := ps + [q];
    if ps == [] {
      assert all[1..] == [] && FailurePatterns(all[1..]) == [];
      assert FailurePatterns(all) == FailureOf(q) + [] == [] + FailureOf(q);
    } else {
      assert all[1..] == ps[1..] + [q] && all[0] == ps[0];
      FailuresSnoc(ps[1..], q);
      assert FailurePatterns(all) == FailureOf(ps[0]) + (FailurePatterns(ps[1..]) + FailureOf(q));
      assert FailurePatterns(ps) == FailureOf(ps[0]) + FailurePatterns(ps[1..]);
    }
  }

  method ExtractErrorLines(output: Bytes, p: Phase, m: Matcher) returns (errors: Bytes)
    ensures errors == ErrorLines(output, p, m)
  {
    hide GatePatterns, Split, Join, TrimRight;
    var text := TrimRight(output);
    var patterns := GatePatterns(p);
    if |patterns| == 0 {
      return text;
    }
    var errorPatterns: seq<Pattern> := [];
    for i := 0 to |patterns|
      invariant errorPatterns == FailurePatterns(patterns[..i])
    {
      FailuresSnoc(patterns[..i], patterns[i]);
      assert patterns[..i + 1] == patterns[..i] + [patterns[i]];
      if patterns[i].result == ResultFailure {
        errorPatterns := errorPatterns + [patterns[i].trigger];
      }
    }
    assert patterns[..|patterns|] == patterns;
    if |errorPatterns| == 0 {
      return text;
    }
    var lines := Split(text);
    var matched: seq<Bytes> := [];
    for i := 0 to |lines|
      invariant matched == Matching(lines[..i], errorPatterns, m)
    {
      assert lines[..i + 1][..i] == lines[..i];
      ghost var before := matched;
      var k := 0;
      while k < |errorPatterns|
        invariant 0 <= k <= |errorPatterns|
        invariant matched == before
        invariant forall j :: 0 <= j < k ==> !m(errorPatterns[j], lines[i])
      {
        if m(errorPatterns[k], lines[i]) {
          matched := matched + [lines[i]];
          break;
        }
        k := k + 1;
      }
    }
    assert lines[..|lines|] == lines;
    return Join(matched);
  }

  method ExtractErrorLinesMax(output: Bytes, p: Phase, m: Matcher, maxBytes: nat) returns (errors: Bytes)
    ensures errors <= ErrorLines(output, p, m) && |errors| <= maxBytes
    ensures errors == ErrorLines(output, p, m) || |errors| == maxBytes
  {
    errors := ExtractErrorLines(output, p, m);
    if |errors| > maxBytes {
      errors := errors[..maxBytes];
    }
  }

  predicate StrictlyIncreasing(ks: seq<nat>) {
    forall i, j :: 0 <= i < j < |ks| ==> ks[i] < ks[j]
  }

  /** `ks` are, in order, the lines among `lines` that one of the patterns matches. */
  ghost predicate AreMatches(ks: seq<nat>, lines: seq<Bytes>, ps: seq<Pattern>, m: Matcher) {
    && StrictlyIncreasing(ks)
    && (forall i :: 0 <= i < |ks| ==> ks[i] < |lines|)
    && forall k :: 0 <= k < |lines| ==> (k in ks <==> AnyMatches(ps, lines[k], m))
  }

  function LinesAt(ks: seq<nat>, lines: seq<Bytes>): seq<Bytes>
    requires forall i :: 0 <= i < |ks| ==> ks[i] < |lines|
  {
    seq(|ks|, i requires 0 <= i < |ks| => lines[ks[i]])
  }

  lemma {:induction false} MatchingSelects(lines: seq<Bytes>, ps: seq<Pattern>, m: Matcher) returns (ks: seq<nat>)
    ensures AreMatches(ks, lines, ps, m) && Matching(lines, ps, m) == LinesAt(ks, lines)
  {
    hide AnyMatches, AreMatches;
    ks := [];
    if lines == [] {
      NoMatches(ps, m);
    } else {
      var n := |lines| - 1;
      ks := MatchingSelects(lines[..n], ps, m);
      ks := OneMoreLine(ks, lines, ps, m);
    }
  }

  lemma NoMatches(ps: seq<Pattern>, m: Matcher)
    ensures AreMatches([], [], ps, m)
  {
  }

  lemma OneMoreLine(before: seq<nat>, lines: seq<Bytes>, ps: seq<Pattern>, m: Matcher) returns (ks: seq<nat>)
    requires lines != [] && AreMatches(before, lines[..|lines| - 1], ps, m)
    ensures AreMatches(ks, lines, ps, m)
    ensures var last := lines[|lines| - 1];
            LinesAt(ks, lines) == LinesAt(before, lines[..|lines| - 1]) + if AnyMatches(ps, last, m) then [last] else []
  {
    hide AnyMatches;
    var n := |lines| - 1;
    ks := if AnyMatches(ps, lines[n], m) then before + [n] else before;
    assert forall k :: 0 <= k < n ==> lines[..n][k] == lines[k];
    assert forall k :: 0 <= k < n ==> (k in ks <==> k in before);
    assert n !in before && (n in ks <==> AnyMatches(ps, lines[n], m));
  }

  /** For a known phase the error lines are the lines of the trimmed output that report
      an error: all of these, in their order, each as often as it occurs. */
  lemma ErrorLinesSelect(output: Bytes, p: Phase, m: Matcher) returns (ks: seq<nat>)
    requires p != PhaseUnknown
    ensures var lines := Split(TrimRight(output));
            && StrictlyIncreasing(ks)
            && (forall i :: 0 <= i < |ks| ==> ks[i] < |lines|)
            && (forall k :: 0 <= k < |lines| ==> (k in ks <==> ReportsError(p, lines[k], m)))
            && ErrorLines(output, p, m) == Join(seq(|ks|, i requires 0 <= i < |ks| => lines[ks[i]]))
  {
    hide GatePatterns, Split, TrimRight, FailurePatterns, Join;
    KnownPhaseHasFailures(p);
    hide Matching;
    ks := MatchingSelects(Split(TrimRight(output)), FailurePatterns(GatePatterns(p)), m);
  }

  /** For an unknown phase they are the whole trimmed output. */
  lemma ErrorLinesUnknown(output: Bytes, m: Matcher)
    ensures ErrorLines(output, PhaseUnknown, m) == TrimRight(output)
  {
    KnownPhaseHasFailures(PhaseUnknown);
  }

  // ---------- error lines and verdict ----------

  predicate BeginsLine(line: Bytes, text: Bytes, i: nat) {
    i < |Split(text)| && line <= Split(text)[i]
  }

  /** A failure pattern of the phase that matches the beginning of a line matches the
      text with that line. This holds of a regular expression that does not look
      behind its match, as none of the failure patterns does: they have no word
      boundary or end of line at their end. */
  ghost predicate MatchesByLine(p: Phase, m: Matcher) {
    forall pattern, text: Bytes, i: nat, line: Bytes ::
      pattern in FailurePatterns(GatePatterns(p)) && BeginsLine(line, text, i) && m(pattern, line) ==> m(pattern, text)
  }

  lemma {:induction false} MatchedLine(lines: seq<Bytes>, ps: seq<Pattern>, m: Matcher)
    ensures Matching(lines, ps, m) != [] <==> exists i :: 0 <= i < |lines| && AnyMatches(ps, lines[i], m)
  {
    if lines != [] {
      var n := |lines| - 1;
      MatchedLine(lines[..n], ps, m);
      assert forall i :: 0 <= i < n ==> lines[..n][i] == lines[i];
    }
  }

  lemma MatchInText(output: Bytes, p: Phase, m: Matcher, i: nat)
    requires MatchesByLine(p, m) && i < |Split(TrimRight(output))| && ReportsError(p, Split(TrimRight(output))[i], m)
    ensures ReportsError(p, output, m)
  {
    TrimmedLines(output);
    var ps := FailurePatterns(GatePatterns(p));
    var line := Split(TrimRight(output))[i];
    var k :| 0 <= k < |ps| && m(ps[k], line);
    assert ps[k] in ps;
    assert BeginsLine(line, output, i);
    assert m(ps[k], output);
  }

  /** If there are error lines to show, the phase did not pass unnoticed: it failed,
      or some test package was reported to be ok. */
  lemma ErrorLinesMeanFailure(output: Bytes, p: Phase, m: Matcher)
    requires MatchesByLine(p, m) && p != PhaseUnknown && ErrorLines(output, p, m) != []
    ensures AnalyzeOutput(output, p, m) ==
            if p == PhaseTest && m(PackageOk, output) then ResultSuccess else ResultFailure
  {
    hide GatePatterns, Split, TrimRight, FailurePatterns;
    var (lines, ps) := (Split(TrimRight(output)), FailurePatterns(GatePatterns(p)));
    KnownPhaseHasFailures(p);
    MatchedLine(lines, ps, m);
    var i: nat :| i < |lines| && AnyMatches(ps, lines[i], m);
    MatchInText(output, p, m, i);
    VerdictOnErrors(output, p, m);
  }

  lemma KnownPhaseHasFailures(p: Phase)
    ensures FailurePatterns(GatePatterns(p)) == [] <==> p == PhaseUnknown
  {
    hide GatePatterns;
    Tables(p);
    var ps := GatePatterns(p);
    if p == PhaseTest {
      assert ps[1..][0].result == ResultFailure;
      assert FailurePatterns(ps[1..]) != [];
    }
  }

  /** There are error lines exactly when a line of the trimmed output reports an
      error, provided that no pattern matches an empty line. */
  lemma ErrorLinesExactly(output: Bytes, p: Phase, m: Matcher)
    requires p != PhaseUnknown && !ReportsError(p, [], m)
    ensures ErrorLines(output, p, m) != [] <==>
            exists i :: 0 <= i < |Split(TrimRight(output))| && ReportsError(p, Split(TrimRight(output))[i], m)
  {
    hide GatePatterns, Split, TrimRight, FailurePatterns;
    var (lines, ps) := (Split(TrimRight(output)), FailurePatterns(GatePatterns(p)));
    KnownPhaseHasFailures(p);
    MatchedLine(lines, ps, m);
    var found := Matching(lines, ps, m);
    if found != [] {
      MatchingMatches(lines, ps, m);
      assert AnyMatches(ps, found[|found| - 1], m);
      assert found[|found| - 1] != [];
      JoinNonempty(found);
    }
  }

  lemma {:induction false} MatchingMatches(lines: seq<Bytes>, ps: seq<Pattern>, m: Matcher)
    ensures forall i :: 0 <= i < |Matching(lines, ps, m)| ==> AnyMatches(ps, Matching(lines, ps, m)[i], m)
  {
    if lines != [] {
      MatchingMatches(lines[..|lines| - 1], ps, m);
    }
  }

  /** A phase fails without any error line to show exactly when an error is reported
      by the output, no test package is ok, and no single line of the trimmed
      output reports it, provided that no pattern matches an empty line. */
  lemma FailureUnexplainedExactly(output: Bytes, p: Phase, m: Matcher)
    requires p != PhaseUnknown && !ReportsError(p, [], m)
    ensures AnalyzeOutput(output, p, m) == ResultFailure && ErrorLines(output, p, m) == [] <==>
            && ReportsError(p, output, m)
            && !(p == PhaseTest && m(PackageOk, output))
            && forall i :: 0 <= i < |Split(TrimRight(output))| ==> !ReportsError(p, Split(TrimRight(output))[i], m)
  {
    hide Split, TrimRight, ReportsError, GatePatterns;
    VerdictOnErrors(output, p, m);
    ErrorLinesExactly(output, p, m);
  }

  /** The text "#", newline, "x". */
  const ACROSS: Bytes := [0x23, LF, 0x78]

  lemma AcrossLines()
    ensures TrimRight(ACROSS) == ACROSS && Split(ACROSS) == [[0x23], [0x78]]
  {
    SplitEmpty();
    SplitGrows([], 0x23);
    SplitGrows([0x23], LF);
    SplitGrows([0x23, LF], 0x78);
    assert [] + [0x23] == [0x23] && [0x23] + [LF] == [0x23, LF] && [0x23, LF] + [0x78] == ACROSS;
    assert Split([0x23]) == [[0x23]];
    assert Split([0x23, LF]) == [[0x23], []];
    assert [] + [0x78] == [0x78];
  }

  /** That happens: the package header pattern allows a newline before the package.
      So a text of two lines, neither of which reports an error, can fail. */
  lemma FailureWithoutErrorLines(m: Matcher)
    requires m(PackageHeader, ACROSS)
    requires !ReportsError(PhaseCompile, [0x23], m) && !ReportsError(PhaseCompile, [0x78], m)
    ensures AnalyzeOutput(ACROSS, PhaseCompile, m) == ResultFailure
    ensures ErrorLines(ACROSS, PhaseCompile, m) == []
  {
    hide GatePatterns, Split, FailurePatterns, TrimRight;
    HeaderReported(ACROSS, m);
    VerdictOnErrors(ACROSS, PhaseCompile, m);
    AcrossLines();
    KnownPhaseHasFailures(PhaseCompile);
    MatchedLine(Split(ACROSS), FailurePatterns(GatePatterns(PhaseCompile)), m);
  }

  lemma HeaderReported(text: Bytes, m: Matcher)
    requires m(PackageHeader, text)
    ensures ReportsError(PhaseCompile, text, m)
  {
    hide FailurePatterns;
    assert GatePatterns(PhaseCompile)[2] == PhaseMatch(PackageHeader, ResultFailure);
    InFailures(GatePatterns(PhaseCompile), 2);
  }

  lemma {:induction false} InFailures(ps: seq<PhaseMatch>, i: nat)
    requires i < |ps| && ps[i].result == ResultFailure
    ensures ps[i].trigger in FailurePatterns(ps)
  {
    if i > 0 {
      InFailures(ps[1..], i - 1);
    }
  }

  /** A matcher for which this happens although every match on the beginning of a line
      is a match on the text. */
  const HEADER_ONLY: Matcher := (pattern, text) => pattern == PackageHeader && text == ACROSS

  lemma HeaderOnlyByLine()
    ensures MatchesByLine(PhaseCompile, HEADER_ONLY)
    ensures AnalyzeOutput(ACROSS, PhaseCompile, HEADER_ONLY) == ResultFailure
    ensures ErrorLines(ACROSS, PhaseCompile, HEADER_ONLY) == []
  {
    hide GatePatterns, FailurePatterns;
    forall text: Bytes, i: nat, line: Bytes | BeginsLine(line, text, i) ensures line != ACROSS {
      SplitJoins(text);
      assert forall j :: 0 <= j < |line| ==> line[j] == Split(text)[i][j];
      assert ACROSS[1] == LF;
    }
    FailureWithoutErrorLines(HEADER_ONLY);
  }
}
