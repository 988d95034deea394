/** internal/launcher/idle.go: the idle detector, a one-shot timer behind a lock. */
module Idle {
  /** The runtime's timer: armed until it expires, is stopped, or is reset. */
  datatype Timer = Timer(armed: bool, deadline: int)

  datatype MaybeTimer = NoTimer | Has(timer: Timer)

  datatype Detector = Detector(running: bool, timer: MaybeTimer)

  const UNSTARTED := Detector(false, NoTimer)

  predicate Armed(d: Detector) {
    d.timer.Has? && d.timer.timer.armed
  }

  /** A running detector has a timer, a stopped one has none that could expire. */
  predicate Consistent(d: Detector) {
    if d.running then d.timer.Has? else !Armed(d)
  }

  function Rearmed(now: int, timeout: nat): Detector {
    Detector(true, Has(Timer(true, now + timeout)))
  }

  function Started(d: Detector, now: int, timeout: nat): Detector {
    if d.running then d else Rearmed(now, timeout)
  }

  function WasReset(d: Detector, now: int, timeout: nat): Detector {
    if d.running then Rearmed(now, timeout) else d
  }

  function Disarmed(t: MaybeTimer): MaybeTimer {
    if t.Has? then Has(t.timer.(armed := false)) else t
  }

  function Stopped(d: Detector): Detector {
    if d.running then Detector(false, Disarmed(d.timer)) else d
  }

  predicate MayExpire(d: Detector, now: int) {
    Armed(d) && d.timer.timer.deadline <= now
  }

  /** The runtime takes an expired timer out of service and calls `fire`. */
  function Expired(d: Detector): Detector {
    d.(timer := Disarmed(d.timer))
  }

  /** The function called when the client has been idle. */
  class OnIdle {
    var calls: nat

    constructor ()
      ensures calls == 0
    {
      calls := 0;
    }

    method Call()
      modifies this
      ensures calls == old(calls) + 1
    {
      calls := calls + 1;
    }
  }

  class IdleDetector {
    const timeout: nat
    const onIdle: OnIdle
    var timer: MaybeTimer
    var running: bool

    function Value(): Detector
      reads this
    {
      Detector(running, timer)
    }

    constructor (timeout: nat, onIdle: OnIdle)
      ensures this.timeout == timeout && this.onIdle == onIdle && Value() == UNSTARTED
    {
      this.timeout, this.onIdle := timeout, onIdle;
      timer, running := NoTimer, false;
    }

    method Start(now: int)
      requires Consistent(Value())
      modifies this
      ensures Value() == Started(old(Value()), now, timeout) && Consistent(Value())
      ensures if old(running) then Value() == old(Value())
              else running && timer == Has(Timer(true, now + timeout))
    {
      if running {
        return;
      }
      running := true;
      timer := Has(Timer(true, now + timeout));
    }

    method Reset(now: int)
      requires Consistent(Value())
      modifies this
      ensures Value() == WasReset(old(Value()), now, timeout) && Consistent(Value())
      ensures if old(running) then running && timer == Has(Timer(true, now + timeout))
              else Value() == old(Value())
    {
      if !running {
        return;
      }
      timer := Has(timer.timer.(armed := true, deadline := now + timeout));
    }

    method Stop()
      requires Consistent(Value())
      modifies this
      ensures Value() == Stopped(old(Value())) && Consistent(Value())
      ensures !running && !Armed(Value()) && (!old(running) ==> Value() == old(Value()))
    {
      if !running {
        return;
      }
      running := false;
      timer := Has(timer.timer.(armed := false));
    }

    /** The timer's callback, when nothing comes between its look at the flag and its
        call: it reports an idle period exactly if the detector is running, and
        leaves the detector as it is. */
    method Fire()
      modifies onIdle
      ensures onIdle.calls == if old(running) then old(onIdle.calls) + 1 else old(onIdle.calls)
    {
      var seen := running;
      if !seen {
        return;
      }
      onIdle.Call();
    }
  }
}

/** The detector under concurrency: calls of Start, Reset and Stop from anywhere, the
    timer expiring, and the callbacks it starts, which look at `running` some time
    later and call `onIdle` later still. */
module IdleRaces {
  import opened Idle
  import opened Spacing

  datatype State = State(
    detector: Detector,
    clock: int,
    checking: nat,        // callbacks started that have not looked at `running`
    passed: nat,          // callbacks that saw it set and are about to call onIdle
    starts: nat,          // calls of Start and Reset that armed the timer
    resets: nat,
    cancelled: nat,       // armings stopped, or replaced, before they expired
    dropped: nat,         // callbacks that found the detector stopped
    idles: nat,           // calls of onIdle
    armedAt: int,         // when the timer was last armed
    expiries: seq<int>)   // when it expired

  datatype Step = Tick(time: int) | Start | Reset | Stop | Expire | Check | Notify

  predicate Enabled(s: State, step: Step) {
    match step
    case Tick(time) => s.clock <= time
    case Expire => MayExpire(s.detector, s.clock)
    case Check => s.checking > 0
    case Notify => s.passed > 0
    case _ => true
  }

  function Interrupted(s: State): nat {
    if Armed(s.detector) then s.cancelled + 1 else s.cancelled
  }

  function Do(s: State, step: Step, timeout: nat): State
    requires Enabled(s, step)
  {
    match step
    case Tick(time) => s.(clock := time)
    case Start =>
      if s.detector.running then s
      else s.(detector := Started(s.detector, s.clock, timeout), starts := s.starts + 1,
              cancelled := Interrupted(s), armedAt := s.clock)
    case Reset =>
      if !s.detector.running then s
      else s.(detector := WasReset(s.detector, s.clock, timeout), resets := s.resets + 1,
              cancelled := Interrupted(s), armedAt := s.clock)
    case Stop =>
      if !s.detector.running then s
      else s.(detector := Stopped(s.detector), cancelled := Interrupted(s))
    case Expire =>
      s.(detector := Expired(s.detector), checking := s.checking + 1, expiries := s.expiries + [s.clock])
    case Check =>
      if s.detector.running then s.(checking := s.checking - 1, passed := s.passed + 1)
      else s.(checking := s.checking - 1, dropped := s.dropped + 1)
    case Notify => s.(passed := s.passed - 1, idles := s.idles + 1)
  }

  predicate Initial(s: State) {
    && s.detector == UNSTARTED && s.expiries == []
    && s.checking == s.passed == s.starts == s.resets == s.cancelled == s.dropped == s.idles == 0
  }

  ghost predicate Successor(s: State, t: State, timeout: nat) {
    exists step :: Enabled(s, step) && t == Do(s, step, timeout)
  }

  ghost predicate Follow(run: seq<State>, timeout: nat) {
    forall i :: 0 <= i < |run| - 1 ==> Successor(run[i], run[i + 1], timeout)
  }

  ghost predicate IsRun(run: seq<State>, timeout: nat) {
    run != [] && Initial(run[0]) && Follow(run, timeout)
  }

  // ---------- the invariant ----------

  /** Every arming ends in exactly one way, or is still under way; and every expiry
      started one callback, which is somewhere. */
  predicate Conserved(s: State) {
    && s.starts + s.resets == |s.expiries| + s.cancelled + (if Armed(s.detector) then 1 else 0)
    && |s.expiries| == s.checking + s.passed + s.dropped + s.idles
  }

  /** The deadline is the timeout after the latest arming, which is after the latest
      expiry; and expiries are a timeout apart. */
  predicate Timely(s: State, timeout: nat) {
    && (Armed(s.detector) ==>
          && s.detector.timer.timer.deadline == s.armedAt + timeout
          && (s.expiries != [] ==> s.expiries[|s.expiries| - 1] <= s.armedAt))
    && (s.expiries != [] ==> s.expiries[|s.expiries| - 1] <= s.clock)
    && (s.starts + s.resets > 0 ==> s.armedAt <= s.clock)
    && Spaced(s.expiries, timeout)
  }

  predicate Inv(s: State, timeout: nat) {
    Consistent(s.detector) && Conserved(s) && Timely(s, timeout)
  }

  lemma InvKept(s: State, step: Step, timeout: nat)
    requires Inv(s, timeout) && Enabled(s, step)
    ensures Inv(Do(s, step, timeout), timeout)
  {
    if step.Expire? {
      var n := |s.expiries|;
      forall i | 0 <= i < n ensures s.expiries[i] + timeout <= s.clock {
        assert i < n - 1 ==> s.expiries[i] + timeout <= s.expiries[n - 1];
      }
    }
  }

  lemma {:induction false} InvHolds(run: seq<State>, timeout: nat, n: nat)
    requires IsRun(run, timeout) && n < |run|
    ensures Inv(run[n], timeout)
  {
    if n > 0 {
      InvHolds(run, timeout, n - 1);
      assert Successor(run[n - 1], run[n], timeout);
      var step :| Enabled(run[n - 1], step) && run[n] == Do(run[n - 1], step, timeout);
      InvKept(run[n - 1], step, timeout);
    }
  }

  // ---------- what holds in every interleaving ----------

  /** Armings are conserved, and no more calls of onIdle than expiries, no more
      expiries than armings. A running detector has a timer. */
  lemma ArmingsConserved(run: seq<State>, timeout: nat, n: nat)
    requires IsRun(run, timeout) && n < |run|
    ensures var s := run[n];
            && s.starts + s.resets == |s.expiries| + s.cancelled + (if Armed(s.detector) then 1 else 0)
            && s.idles <= |s.expiries| <= s.starts + s.resets
            && (s.detector.running ==> s.detector.timer.Has?)
  {
    InvHolds(run, timeout, n);
  }

  /** An expiry comes at least the timeout after the latest call that armed the timer. */
  lemma ExpiryAfterTimeout(run: seq<State>, timeout: nat, n: nat)
    requires IsRun(run, timeout) && n < |run| && Enabled(run[n], Expire)
    ensures run[n].armedAt + timeout <= run[n].clock
    ensures run[n].detector.running
  {
    InvHolds(run, timeout, n);
  }

  /** A window of length L sees at most 1 + floor(L / timeout) expiries. */
  lemma ExpiryRate(run: seq<State>, timeout: nat, n: nat, lo: int, hi: int)
    requires IsRun(run, timeout) && n < |run| && timeout > 0 && lo <= hi
    ensures CountWithin(run[n].expiries, lo, hi) <= 1 + (hi - lo) / timeout
  {
    InvHolds(run, timeout, n);
    WindowBound(run[n].expiries, timeout, lo, hi);
  }

  /** `run[n]` is reached from `s` without the detector being started again. */
  ghost predicate Continues(s: State, run: seq<State>, n: nat, timeout: nat) {
    && Follow(run, timeout) && n < |run| && run[0] == s
    && forall i :: 0 <= i <= n ==> run[i].starts == s.starts
  }

  /** From a stopped state until the next Start, the only calls of onIdle are those
      of callbacks that had already looked. */
  lemma {:induction false} AfterStop(s: State, run: seq<State>, timeout: nat, n: nat)
    requires Continues(s, run, n, timeout) && !s.detector.running
    ensures !run[n].detector.running
    ensures run[n].idles + run[n].passed == s.idles + s.passed
    ensures run[n].idles - s.idles <= s.passed
  {
    if n > 0 {
      AfterStop(s, run, timeout, n - 1);
      assert Successor(run[n - 1], run[n], timeout);
    }
  }

  /** Stopping is not silence: after Stop another onIdle can still come, and does so
      exactly when a callback has already looked. */
  lemma SilentAfterStopExactly(s: State, timeout: nat)
    requires !s.detector.running
    ensures (exists run: seq<State>, n: nat :: Continues(s, run, n, timeout) && run[n].idles > s.idles) <==> s.passed > 0
  {
    if s.passed > 0 {
      var run := [s, Do(s, Notify, timeout)];
      assert Successor(s, run[1], timeout);
      assert Continues(s, run, 1, timeout) && run[1].idles > s.idles;
    }
    forall run: seq<State>, n: nat | Continues(s, run, n, timeout)
      ensures run[n].idles > s.idles ==> s.passed > 0
    {
      AfterStop(s, run, timeout, n);
    }
  }

  /** Nor does the timer expire again before the next Start. */
  lemma {:induction false} NoExpiryAfterStop(s: State, run: seq<State>, timeout: nat, n: nat)
    requires Continues(s, run, n, timeout) && !s.detector.running && Consistent(s.detector)
    ensures !Armed(run[n].detector) && run[n].expiries == s.expiries
  {
    if n > 0 {
      NoExpiryAfterStop(s, run, timeout, n - 1);
      AfterStop(s, run, timeout, n - 1);
      assert Successor(run[n - 1], run[n], timeout);
    }
  }

  // ---------- when the timer expires ----------

  /** Nothing expires before the deadline given by the state `s`, and only callbacks
      already started can call onIdle. */
  predicate QuietSince(s: State, t: State, timeout: nat) {
    && s.clock <= t.clock
    && (Armed(t.detector) ==> s.clock + timeout <= t.detector.timer.timer.deadline)
    && t.expiries == s.expiries
    && t.idles + t.passed + t.checking <= s.idles + s.passed + s.checking
  }

  lemma QuietKept(s: State, t: State, u: State, timeout: nat)
    requires QuietSince(s, t, timeout) && Successor(t, u, timeout) && u.clock < s.clock + timeout
    ensures QuietSince(s, u, timeout)
  {
  }

  lemma ClockAdvances(s: State, t: State, timeout: nat)
    requires Successor(s, t, timeout)
    ensures s.clock <= t.clock
  {
  }

  /** Once a running detector has been reset, the timer does not expire until the timeout
      is over, whatever else happens, and onIdle is called only by callbacks that
      were already under way. */
  lemma {:induction false} QuietAfterReset(s: State, run: seq<State>, timeout: nat, n: nat)
    requires s.detector.running && Follow(run, timeout) && n < |run| && run[0] == Do(s, Reset, timeout)
    requires run[n].clock < s.clock + timeout
    ensures run[n].expiries == s.expiries
    ensures run[n].idles <= s.idles + s.passed + s.checking
    ensures QuietSince(s, run[n], timeout)
  {
    hide Successor;
    if n > 0 {
      assert Successor(run[n - 1], run[n], timeout);
      ClockAdvances(run[n - 1], run[n], timeout);
      QuietAfterReset(s, run, timeout, n - 1);
      QuietKept(s, run[n - 1], run[n], timeout);
    }
  }

  /** Left alone from then on, it expires as soon as the timeout is over. */
  lemma ExpiresExactly(s: State, time: int, timeout: nat)
    requires s.clock <= time
    ensures s.detector.running ==>
              (Enabled(Do(Do(s, Reset, timeout), Tick(time), timeout), Expire) <==> s.clock + timeout <= time)
    ensures !s.detector.running ==>
              (Enabled(Do(Do(s, Start, timeout), Tick(time), timeout), Expire) <==> s.clock + timeout <= time)
  {
  }

  lemma RunExtends(run: seq<State>, step: Step, timeout: nat)
    requires IsRun(run, timeout) && Enabled(run[|run| - 1], step)
    ensures IsRun(run + [Do(run[|run| - 1], step, timeout)], timeout)
  {
    var longer := run + [Do(run[|run| - 1], step, timeout)];
    forall i | 0 <= i < |longer| - 1 ensures Successor(longer[i], longer[i + 1], timeout) {
      if i < |run| - 1 {
        assert longer[i] == run[i] && longer[i + 1] == run[i + 1];
      }
    }
  }

  /** A run in which it happens: the timer expires, the callback looks, the detector is
      stopped, and then onIdle is called. */
  lemma IdleAfterStop(timeout: nat) returns (run: seq<State>)
    ensures IsRun(run, timeout) && |run| == 7
    ensures run[4].detector.running && run[5] == Do(run[4], Stop, timeout) && !run[5].detector.running
    ensures run[5].idles == 0 && run[6].idles == 1 && run[6].starts == run[5].starts
  {
    run := [State(UNSTARTED, 0, 0, 0, 0, 0, 0, 0, 0, 0, [])];
    assert IsRun(run, timeout);
    var steps := [Start, Tick(timeout), Expire, Check, Stop, Notify];
    for i := 0 to 6
      invariant IsRun(run, timeout) && |run| == i + 1
      invariant run[i].detector.running <==> 1 <= i <= 4
      invariant run[i].starts == if i == 0 then 0 else 1
      invariant i == 1 ==> Armed(run[i].detector) && run[i].detector.timer.timer.deadline == timeout
      invariant i == 2 ==> MayExpire(run[i].detector, run[i].clock)
      invariant run[i].clock == if i < 2 then 0 else timeout
      invariant run[i].checking == if i == 3 then 1 else 0
      invariant run[i].passed == if i == 4 || i == 5 then 1 else 0
      invariant run[i].idles == if i == 6 then 1 else 0
      invariant i >= 4 ==> run[4].detector.running
      invariant i >= 5 ==> run[5] == Do(run[4], Stop, timeout) && !run[5].detector.running
      invariant i >= 5 ==> run[5].idles == 0 && run[5].starts == 1
    {
      RunExtends(run, steps[i], timeout);
      run := run + [Do(run[i], steps[i], timeout)];
    }
  }
}
