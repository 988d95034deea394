/** The enforcement gate under concurrency: any number of callers inside
    HandleEnforcement (internal/backend/gate.go:47-104), interleaved in any way, and
    a clock that never goes back. */
module GateProtocol {
  import opened Gate
  import opened Spacing

  type Caller = nat

  /** Where a caller is; one that is not in the map is outside. */
  datatype Pc =
    | Entered      // called, waiting for the lock
    | Running      // claimed, runs the tools without the lock
    | Replying     // released, is about to send

  datatype State = State(
    gate: GateState,
    pcs: map<Caller, Pc>,
    clock: int,
    claims: seq<int>,      // when the gate was claimed
    releases: seq<int>,    // when it was released
    replies: nat)          // how many replies were sent, or failed to be

  datatype Step =
    | Tick(time: int)
    | Enter(c: Caller)
    | Skip(c: Caller)
    | Claim(c: Caller)
    | Release(c: Caller)
    | Reply(c: Caller)

  predicate IsAt(s: State, c: Caller, pc: Pc) {
    c in s.pcs && s.pcs[c] == pc
  }

  function Leave(pcs: map<Caller, Pc>, c: Caller): map<Caller, Pc> {
    map d | d in pcs && d != c :: pcs[d]
  }

  predicate Enabled(s: State, step: Step) {
    match step
    case Tick(time) => s.clock <= time
    case Enter(c) => c !in s.pcs
    case Skip(c) => IsAt(s, c, Entered) && !MayClaim(s.gate, s.clock)
    case Claim(c) => IsAt(s, c, Entered) && MayClaim(s.gate, s.clock)
    case Release(c) => IsAt(s, c, Running)
    case Reply(c) => IsAt(s, c, Replying)
  }

  function Do(s: State, step: Step): State
    requires Enabled(s, step)
  {
    match step
    case Tick(time) => s.(clock := time)
    case Enter(c) => s.(pcs := s.pcs[c := Entered])
    case Skip(c) => s.(pcs := Leave(s.pcs, c))
    case Claim(c) => s.(gate := Claimed(s.gate), pcs := s.pcs[c := Running], claims := s.claims + [s.clock])
    case Release(c) =>
      s.(gate := Released(s.clock), pcs := s.pcs[c := Replying], releases := s.releases + [s.clock])
    case Reply(c) => s.(pcs := Leave(s.pcs, c), replies := s.replies + 1)
  }

  predicate Initial(s: State) {
    s.gate == FRESH && s.pcs == map[] && s.claims == [] && s.releases == [] && s.replies == 0
  }

  /** `run` is the successive states of an interleaving. */
  ghost predicate IsRun(run: seq<State>) {
    && run != [] && Initial(run[0])
    && forall i :: 0 <= i < |run| - 1 ==> Successor(run[i], run[i + 1])
  }

  ghost predicate Successor(s: State, t: State) {
    exists step :: Enabled(s, step) && t == Do(s, step)
  }

  // ---------- the invariant ----------

  function CallersAt(s: State, pc: Pc): set<Caller> {
    set c | c in s.pcs && s.pcs[c] == pc
  }

  /** Who is between claim and release. */
  ghost predicate Exclusive(s: State) {
    && (forall c, d :: IsAt(s, c, Running) && IsAt(s, d, Running) ==> c == d)
    && (s.gate.running <==> exists c :: IsAt(s, c, Running))
    && |s.claims| == |s.releases| + if s.gate.running then 1 else 0
  }

  /** Every release follows its claim, and every claim the cooldown of the release
      before it. */
  predicate Cooled(claims: seq<int>, releases: seq<int>) {
    && |releases| <= |claims| <= |releases| + 1
    && (forall i :: 0 <= i < |releases| ==> claims[i] <= releases[i])
    && (forall i :: 0 <= i < |claims| - 1 ==> releases[i] + COOLDOWN <= claims[i + 1])
  }

  predicate OnTime(s: State) {
    && Cooled(s.claims, s.releases)
    && s.gate.last == (if s.releases == [] then Never else At(s.releases[|s.releases| - 1]))
    && (s.claims != [] ==> s.claims[|s.claims| - 1] <= s.clock)
    && (s.releases != [] ==> s.releases[|s.releases| - 1] <= s.clock)
  }

  /** Every release is answered once, by the caller that made it. */
  predicate Answered(s: State) {
    s.replies + |CallersAt(s, Replying)| == |s.releases|
  }

  ghost predicate Inv(s: State) {
    Exclusive(s) && OnTime(s) && Answered(s)
  }

  lemma ExclusiveKept(s: State, step: Step)
    requires Exclusive(s) && Enabled(s, step)
    ensures Exclusive(Do(s, step))
  {
    var t := Do(s, step);
    forall d
      ensures IsAt(t, d, Running) <==>
                (IsAt(s, d, Running) && step != Release(d)) || step == Claim(d)
    {
    }
    if s.gate.running {
      var c :| IsAt(s, c, Running);
      assert step.Release? ==> step.c == c;
    } else {
      assert forall d :: !IsAt(s, d, Running);
    }
  }

  lemma OnTimeKept(s: State, step: Step)
    requires Exclusive(s) && OnTime(s) && Enabled(s, step)
    ensures OnTime(Do(s, step))
  {
    if step.Release? {
      assert IsAt(s, step.c, Running) && s.gate.running;
    }
  }

  lemma AnsweredKept(s: State, step: Step)
    requires Answered(s) && Enabled(s, step)
    ensures Answered(Do(s, step))
  {
    var t := Do(s, step);
    var (before, after) := (CallersAt(s, Replying), CallersAt(t, Replying));
    match step {
      case Release(c) => assert after == before + {c};
      case Reply(c) => assert after == before - {c};
      case _ => assert after == before;
    }
  }

  lemma {:induction false} InvHolds(run: seq<State>, n: nat)
    requires IsRun(run) && n < |run|
    ensures Inv(run[n])
  {
    if n == 0 {
      assert CallersAt(run[0], Replying) == {};
    } else {
      InvHolds(run, n - 1);
      assert Successor(run[n - 1], run[n]);
      var step :| Enabled(run[n - 1], step) && run[n] == Do(run[n - 1], step);
      ExclusiveKept(run[n - 1], step);
      OnTimeKept(run[n - 1], step);
      AnsweredKept(run[n - 1], step);
    }
  }

  // ---------- what holds in every interleaving ----------

  /** At most one caller is between claim and release, and the flag says whether
      there is one. */
  lemma MutualExclusion(run: seq<State>, n: nat, c: Caller, d: Caller)
    requires IsRun(run) && n < |run|
    ensures IsAt(run[n], c, Running) && IsAt(run[n], d, Running) ==> c == d
    ensures IsAt(run[n], c, Running) ==> run[n].gate.running
    ensures run[n].gate.running ==> exists e :: IsAt(run[n], e, Running)
  {
    InvHolds(run, n);
  }

  /** Tool runs do not overlap, and the next never begins before the cooldown that
      follows the end of the one before. */
  lemma CooldownBetweenRuns(run: seq<State>, n: nat, i: nat)
    requires IsRun(run) && n < |run| && i + 1 < |run[n].claims|
    ensures i < |run[n].releases|
    ensures run[n].claims[i] <= run[n].releases[i]
    ensures run[n].releases[i] + 30_000_000_000 <= run[n].claims[i + 1]
  {
    InvHolds(run, n);
  }

  lemma {:induction false} ClaimsApart(claims: seq<int>, releases: seq<int>, i: nat, j: nat)
    requires Cooled(claims, releases) && i < j < |claims|
    ensures claims[i] + COOLDOWN <= claims[j]
    decreases j
  {
    if i + 1 < j {
      ClaimsApart(claims, releases, i, j - 1);
    }
  }

  /** Any window of length L contains at most 1 + floor(L / cooldown) claims. */
  lemma ClaimRate(run: seq<State>, n: nat, lo: int, hi: int)
    requires IsRun(run) && n < |run| && lo <= hi
    ensures CountWithin(run[n].claims, lo, hi) <= 1 + (hi - lo) / 30_000_000_000
  {
    InvHolds(run, n);
    forall i, j | 0 <= i < j < |run[n].claims| ensures run[n].claims[i] + COOLDOWN <= run[n].claims[j] {
      ClaimsApart(run[n].claims, run[n].releases, i, j);
    }
    WindowBound(run[n].claims, COOLDOWN, lo, hi);
  }

  /** Each run of the tools is answered at most once, and exactly once when nobody is
      left inside. */
  lemma OneReplyPerRun(run: seq<State>, n: nat)
    requires IsRun(run) && n < |run|
    ensures run[n].replies <= |run[n].releases| <= |run[n].claims|
    ensures run[n].pcs == map[] ==> run[n].replies == |run[n].releases| == |run[n].claims|
  {
    InvHolds(run, n);
    if run[n].pcs == map[] {
      assert CallersAt(run[n], Replying) == {};
    }
  }

  /** Nothing else holds a caller back: one that finds the gate free and the cooldown
      over gets it, and one that does not is turned away only for those reasons. */
  lemma TurnedAwayExactly(run: seq<State>, n: nat, c: Caller)
    requires IsRun(run) && n < |run| && IsAt(run[n], c, Entered)
    ensures var s := run[n];
            Enabled(s, Skip(c)) <==>
              (exists d :: IsAt(s, d, Running)) ||
              (s.releases != [] && s.clock - s.releases[|s.releases| - 1] < 30_000_000_000)
    ensures Enabled(run[n], Claim(c)) <==> !Enabled(run[n], Skip(c))
  {
    InvHolds(run, n);
  }
}
