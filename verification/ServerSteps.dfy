/** The server under concurrency: Run, its handlers, cancellation and any number of
    callers of Stop, as interleaved steps of one Backend with one Run
    (internal/backend/server.go:67-125). */
module ServerSteps {
  import P = Proto
  import opened Server

  /** Where Run is. */
  datatype Pc =
    | Listening
    | Selecting                      // at the top of the loop
    | Accepting
    | Failed(err: AcceptError)       // Accept returned an error
    | HasConn                        // Accept returned a connection
    | Counted                        // wg.Add(1) done, the handler not yet started
    | Waiting                        // in wg.Wait, then to return the context error
    | Returned(reason: Reason)

  datatype StopPc = Closing | StopWaiting | Stopped

  datatype State = State(
    run: Pc,
    stored: bool,            // b.ln holds the listener
    open: bool,              // the listener accepts
    cancelled: bool,
    wg: nat,
    handlers: set<Id>,       // running handlers
    started: nat,            // handlers ever started; they are numbered
    stops: map<Id, StopPc>)  // callers of Stop

  datatype Step =
    | Cancel
    | Listen(ok: bool)
    | Select
    | Accept
    | AcceptFails(err: AcceptError)
    | Retry                  // what Run does about an error
    | Count
    | Spawn
    | Finish(h: Id)          // a handler ends
    | WaitDone
    | CallStop(c: Id)
    | Close(c: Id)
    | StopDone(c: Id)

  predicate StopAt(s: State, c: Id, pc: StopPc) {
    c in s.stops && s.stops[c] == pc
  }

  predicate Enabled(s: State, step: Step) {
    match step
    case Cancel => true
    case Listen(_) => s.run == Listening
    case Select => s.run == Selecting
    case Accept => s.run == Accepting && s.open
    case AcceptFails(_) => s.run == Accepting
    case Retry => s.run.Failed?
    case Count => s.run == HasConn
    case Spawn => s.run == Counted
    case Finish(h) => h in s.handlers && s.wg > 0
    case WaitDone => s.run == Waiting && s.wg == 0
    case CallStop(c) => c !in s.stops
    case Close(c) => StopAt(s, c, Closing)
    case StopDone(c) => StopAt(s, c, StopWaiting) && s.wg == 0
  }

  function Do(s: State, step: Step): State
    requires Enabled(s, step)
  {
    match step
    case Cancel => s.(cancelled := true)
    case Listen(ok) => if ok then s.(run := Selecting, stored := true, open := true) else s.(run := Returned(ListenFailed))
    case Select => s.(run := if s.cancelled then Waiting else Accepting)
    case Accept => s.(run := HasConn)
    case AcceptFails(err) => s.(run := Failed(err))
    case Retry =>
      s.(run := if s.cancelled then Waiting else if s.run.err == TimedOut then Selecting else Returned(AcceptFailed))
    case Count => s.(run := Counted, wg := s.wg + 1)
    case Spawn => s.(run := Selecting, handlers := s.handlers + {s.started}, started := s.started + 1)
    case Finish(h) => s.(handlers := s.handlers - {h}, wg := s.wg - 1)
    case WaitDone => s.(run := Returned(ContextCancelled))
    case CallStop(c) => s.(stops := s.stops[c := if s.stored then Closing else StopWaiting])
    case Close(c) => s.(open := false, stops := s.stops[c := StopWaiting])
    case StopDone(c) => s.(stops := s.stops[c := Stopped])
  }

  predicate Initial(s: State) {
    && s.run == Listening && !s.stored && !s.open
    && s.wg == 0 && s.handlers == {} && s.started == 0 && s.stops == map[]
  }

  ghost predicate Successor(s: State, t: State) {
    exists step :: Enabled(s, step) && t == Do(s, step)
  }

  ghost predicate Follow(run: seq<State>) {
    forall i :: 0 <= i < |run| - 1 ==> Successor(run[i], run[i + 1])
  }

  ghost predicate IsRun(run: seq<State>) {
    run != [] && Initial(run[0]) && Follow(run)
  }

  // ---------- the invariant ----------

  /** The wait group counts the handlers, and one about to start; only Run adds to it,
      and when Run has returned the context error nothing is left. */
  ghost predicate Inv(s: State) {
    && s.wg == |s.handlers| + (if s.run == Counted then 1 else 0)
    && (forall h <- s.handlers :: h < s.started)
    && (s.open ==> s.stored)
    && (s.run == Listening ==> !s.stored)
    && (s.run == Returned(ContextCancelled) ==> s.wg == 0)
  }

  lemma InvKept(s: State, step: Step)
    requires Inv(s) && Enabled(s, step)
    ensures Inv(Do(s, step))
  {
  }

  lemma {:induction false} InvHolds(run: seq<State>, n: nat)
    requires IsRun(run) && n < |run|
    ensures Inv(run[n])
  {
    if n > 0 {
      InvHolds(run, n - 1);
      assert Successor(run[n - 1], run[n]);
      var step :| Enabled(run[n - 1], step) && run[n] == Do(run[n - 1], step);
      InvKept(run[n - 1], step);
    }
  }

  // ---------- after Run has returned ----------

  lemma ReturnedStays(s: State, t: State)
    requires Successor(s, t) && s.run.Returned?
    ensures t.run == s.run && t.started == s.started && t.handlers <= s.handlers
  {
  }

  lemma {:induction false} ReturnedForGood(run: seq<State>, n: nat, k: nat)
    requires Follow(run) && n <= k < |run| && run[n].run.Returned?
    ensures run[k].run == run[n].run && run[k].started == run[n].started
    ensures run[k].handlers <= run[n].handlers
    decreases k
  {
    if n < k {
      hide Successor;
      ReturnedForGood(run, n, k - 1);
      assert Successor(run[k - 1], run[k]);
      ReturnedStays(run[k - 1], run[k]);
    }
  }

  /** When Run returns the context error no handler is running, and none runs or
      starts ever after. */
  lemma QuietAfterCancel(run: seq<State>, n: nat, k: nat)
    requires IsRun(run) && n <= k < |run| && run[n].run == Returned(ContextCancelled)
    ensures run[n].handlers == {} && run[k].handlers == {} && run[k].started == run[n].started
  {
    InvHolds(run, n);
    ReturnedForGood(run, n, k);
  }

  /** If Run returns otherwise, handlers may still run, but no new one starts, and once
      a call of Stop returns after that there are none. */
  lemma QuietAfterStop(run: seq<State>, n: nat, c: Id, k: nat)
    requires IsRun(run) && n < |run| && n <= k < |run|
    requires run[n].run.Returned? && Enabled(run[n], StopDone(c))
    ensures run[n].handlers == {} && run[k].handlers == {} && run[k].started == run[n].started
  {
    InvHolds(run, n);
    ReturnedForGood(run, n, k);
  }

  // ---------- what Stop alone gives ----------

  /** With the listener closed, a handler can still start if Run already has a
      connection in hand, or has not begun to listen and is not cancelled. */
  predicate MayStillStart(s: State) {
    s.run == HasConn || s.run == Counted || (s.run == Listening && !s.cancelled)
  }

  /** Run cannot get hold of another connection. */
  predicate Barred(s: State) {
    || (!s.open && (s.run == Selecting || s.run == Accepting || s.run.Failed?))
    || (s.cancelled && (s.run == Selecting || s.run == Listening))
    || s.run == Waiting || s.run.Returned?
  }

  lemma BarredKept(s: State, step: Step)
    requires Barred(s) && Enabled(s, step)
    ensures Barred(Do(s, step)) && Do(s, step).started == s.started
  {
  }

  lemma {:induction false} NothingStarts(run: seq<State>, n: nat)
    requires Follow(run) && n < |run| && Barred(run[0])
    ensures Barred(run[n]) && run[n].started == run[0].started
  {
    if n > 0 {
      NothingStarts(run, n - 1);
      assert Successor(run[n - 1], run[n]);
      var step :| Enabled(run[n - 1], step) && run[n] == Do(run[n - 1], step);
      BarredKept(run[n - 1], step);
    }
  }

  ghost predicate Reaches(s: State, run: seq<State>, n: nat) {
    Follow(run) && n < |run| && run[0] == s
  }

  /** Stop does not by itself keep new handlers from starting: from a state with the
      listener closed, one can start exactly under the condition above. */
  lemma StopExcludesExactly(s: State)
    requires !s.open
    ensures (exists run: seq<State>, n: nat :: Reaches(s, run, n) && run[n].started > s.started) <==> MayStillStart(s)
  {
    if MayStillStart(s) {
      var run := Witness(s);
      WitnessRuns(s);
      assert Reaches(s, run, |run| - 1) && run[|run| - 1].started > s.started;
    }
    forall run: seq<State>, n: nat | Reaches(s, run, n) && !MayStillStart(s)
      ensures run[n].started == s.started
    {
      NothingStarts(run, n);
    }
  }

  /** A way to a new handler. */
  function Witness(s: State): seq<State>
    requires MayStillStart(s)
    decreases s.run == Listening, s.run == HasConn
  {
    if s.run == Counted then [s, Do(s, Spawn)]
    else if s.run == HasConn then [s] + Witness(Do(s, Count))
    else
      var listened := Do(s, Listen(true));
      var selected := Do(listened, Select);
      [s, listened, selected] + Witness(Do(selected, Accept))
  }

  lemma {:induction false} WitnessRuns(s: State)
    requires MayStillStart(s)
    ensures var run := Witness(s);
            Reaches(s, run, |run| - 1) && run[|run| - 1].started > s.started
    decreases s.run == Listening, s.run == HasConn
  {
    if s.run == Counted {
      assert Successor(s, Do(s, Spawn));
    } else if s.run == HasConn {
      assert Successor(s, Do(s, Count));
      WitnessRuns(Do(s, Count));
    } else {
      var listened := Do(s, Listen(true));
      var selected := Do(listened, Select);
      assert Successor(s, listened) && Successor(listened, selected);
      assert Successor(selected, Do(selected, Accept));
      WitnessRuns(Do(selected, Accept));
    }
  }

  lemma RunExtends(run: seq<State>, step: Step)
    requires IsRun(run) && Enabled(run[|run| - 1], step)
    ensures IsRun(run + [Do(run[|run| - 1], step)])
  {
    var longer := run + [Do(run[|run| - 1], step)];
    forall i | 0 <= i < |longer| - 1 ensures Successor(longer[i], longer[i + 1]) {
      if i < |run| - 1 {
        assert longer[i] == run[i] && longer[i + 1] == run[i + 1];
      }
    }
  }

  /** The run up to the moment at which Stop returns. */
  lemma StoppedWithConnection() returns (run: seq<State>)
    ensures IsRun(run) && |run| == 7
    ensures run[6] == State(HasConn, true, false, false, 0, {}, 0, map[0 := Stopped])
  {
    var initial := State(Listening, false, false, false, 0, {}, 0, map[]);
    var waiting := State(HasConn, true, false, false, 0, {}, 0, map[0 := StopWaiting]);
    run := [initial];
    RunExtends(run, Listen(true));
    run := run + [initial.(run := Selecting, stored := true, open := true)];
    RunExtends(run, Select);
    run := run + [run[1].(run := Accepting)];
    RunExtends(run, Accept);
    run := run + [run[1].(run := HasConn)];
    RunExtends(run, CallStop(0));
    run := run + [run[3].(stops := map[0 := Closing])];
    assert Do(run[4], Close(0)) == waiting;
    RunExtends(run, Close(0));
    run := run + [waiting];
    assert Do(waiting, StopDone(0)) == waiting.(stops := map[0 := Stopped]);
    RunExtends(run, StopDone(0));
    run := run + [waiting.(stops := map[0 := Stopped])];
  }

  /** A run in which it happens: Run has accepted a connection when Stop closes the
      listener, finds no handler and returns; then a handler starts. */
  lemma HandlerAfterStop() returns (run: seq<State>)
    ensures IsRun(run) && |run| == 9
    ensures StopAt(run[6], 0, Stopped) && !run[6].open && run[6].started == 0
    ensures run[8].started == 1 && run[8].handlers == {0}
  {
    run := StoppedWithConnection();
    RunExtends(run, Count);
    run := run + [Do(run[6], Count)];
    RunExtends(run, Spawn);
    run := run + [Do(run[7], Spawn)];
  }

  // ---------- left alone ----------

  /** Nobody has closed the listener or cancelled the context, and Run is at the top of
      its loop, or has come back to the caller. */
  predicate Undisturbed(s: State, at: Pc) {
    s.run == at && s.stored && s.open && !s.cancelled && s.stops == map[]
  }

  /** One outcome that does not end the loop. */
  lemma OneOutcome(run: seq<State>, r: AcceptOutcome) returns (longer: seq<State>)
    requires IsRun(run) && Undisturbed(run[|run| - 1], Selecting) && r != Error(OtherError)
    ensures IsRun(longer) && Undisturbed(longer[|longer| - 1], Selecting)
    ensures longer[|longer| - 1].started == run[|run| - 1].started + if r == Connection then 1 else 0
  {
    longer := Extended(run, Select);
    if r.Connection? {
      longer := Extended(longer, Accept);
      longer := Extended(longer, Count);
      longer := Extended(longer, Spawn);
    } else {
      longer := Extended(longer, AcceptFails(r.err));
      longer := Extended(longer, Retry);
    }
  }

  lemma Extended(run: seq<State>, step: Step) returns (longer: seq<State>)
    requires IsRun(run) && Enabled(run[|run| - 1], step)
    ensures IsRun(longer) && longer == run + [Do(run[|run| - 1], step)]
  {
    RunExtends(run, step);
    longer := run + [Do(run[|run| - 1], step)];
  }

  lemma {:induction false} AllOutcomes(run: seq<State>, script: seq<AcceptOutcome>) returns (longer: seq<State>)
    requires IsRun(run) && Undisturbed(run[|run| - 1], Selecting) && Continuing(script)
    ensures IsRun(longer) && Undisturbed(longer[|longer| - 1], Selecting)
    ensures longer[|longer| - 1].started == run[|run| - 1].started + ConnectionsIn(script)
    decreases |script|
  {
    hide Undisturbed, IsRun, ConnectionsIn;
    if script == [] {
      NoOutcomes();
      longer := run;
    } else {
      longer := OneOutcome(run, script[0]);
      longer := AllOutcomes(longer, script[1..]);
      OneMore(script[0], script[1..]);
      assert script == [script[0]] + script[1..];
    }
  }

  /** Whatever connections and timeouts arrive before the first other error, there is a
      run in which each connection gets its handler and then Run returns that error: the
      accept loop by itself is one of the interleavings. */
  lemma LoopAlone(script: seq<AcceptOutcome>) returns (run: seq<State>)
    requires Continuing(script)
    ensures IsRun(run)
    ensures var s := run[|run| - 1];
            s.run == Returned(AcceptFailed) && s.started == AcceptAll(0, P.Forever, script + [Error(OtherError)]).started
  {
    run := [State(Listening, false, false, false, 0, {}, 0, map[])];
    run := Extended(run, Listen(true));
    run := AllOutcomes(run, script);
    run := Extended(run, Select);
    run := Extended(run, AcceptFails(OtherError));
    run := Extended(run, Retry);
    assert script + [Error(OtherError)] + [] == script + [Error(OtherError)];
    AcceptEnds(0, P.Forever, script, []);
  }
}
