/** internal/backend/loop.go: the loop that serves one launcher. */
module Loop {
  import opened Proto
  import opened Gate
  import opened Spacing

  datatype Served = Served(progress: Progress, unread: seq<Incoming>, patience: Patience)

  /** The loop from some point of a connection on. */
  function Serve(p: Progress, patience: Patience, incoming: seq<Incoming>, w: World): Served
    decreases |incoming|
  {
    if Exhausted(patience) then Served(p, incoming, patience)
    else if incoming == [] then Served(p, [], Asked(patience))
    else
      var (next, rest) := (incoming[0], incoming[1..]);
      if next.ReceiveFails? || next.msg.Exited? then Served(p, rest, Asked(patience))
      else if next.msg.Idle? then Serve(Enforce(p, next.at, w), Asked(patience), rest, w)
      else Serve(p, Asked(patience), rest, w)
  }

  /** Serves a launcher until it leaves, the connection breaks or the context is
      cancelled, and closes the connection. */
  method HandleLauncher(ctx: Context, conn: Conn, world: World)
    modifies ctx, conn
    ensures conn.closed
    ensures var s := Serve(Progress(FRESH, 0, old(conn.sent)), old(ctx.patience), old(conn.incoming), world);
            conn.sent == s.progress.sent && conn.incoming == s.unread && ctx.patience == s.patience
  {
    var gate := new Gate(world);
    ghost var whole := Serve(Progress(FRESH, 0, conn.sent), ctx.patience, conn.incoming, world);
    while true
      invariant fresh(gate) && gate.world == world
      invariant whole == Serve(Progress(gate.State(), gate.runs, conn.sent), ctx.patience, conn.incoming, world)
      decreases |conn.incoming|
    {
      var cancelled := ctx.Err();
      if cancelled {
        break;
      }
      var next := conn.Receive();
      if next.ReceiveFails? {
        break;
      }
      match next.msg {
        case Output(_) =>
        case Idle =>
          gate.HandleEnforcement(next.at, conn);
        case Exited(code) =>
          // Well formed or not, an exit ends the loop.
          break;
        case Started(pid) =>
          if pid.Malformed? {
            continue;
          }
        case _ =>
      }
    }
    conn.Close();
  }

  // ---------- only idle events matter ----------

  /** When the idle events arrive that the loop gets to see. */
  function IdleTimes(incoming: seq<Incoming>): seq<int> {
    if incoming == [] || incoming[0].ReceiveFails? || incoming[0].msg.Exited? then []
    else (if incoming[0].msg.Idle? then [incoming[0].at] else []) + IdleTimes(incoming[1..])
  }

  function EnforceAll(p: Progress, times: seq<int>, w: World): Progress
    decreases |times|
  {
    if times == [] then p else EnforceAll(Enforce(p, times[0], w), times[1..], w)
  }

  /** What a connection does is a function of its idle times alone. */
  lemma {:induction false} ServeIsEnforceAll(p: Progress, incoming: seq<Incoming>, w: World)
    ensures Serve(p, Forever, incoming, w).progress == EnforceAll(p, IdleTimes(incoming), w)
    decreases |incoming|
  {
    if incoming != [] && incoming[0].Received? && !incoming[0].msg.Exited? {
      var (times, rest) := (IdleTimes(incoming), IdleTimes(incoming[1..]));
      if incoming[0].msg.Idle? {
        assert times[1..] == rest;
        ServeIsEnforceAll(Enforce(p, incoming[0].at, w), incoming[1..], w);
      } else {
        assert times == rest;
        ServeIsEnforceAll(p, incoming[1..], w);
      }
    }
  }

  /** Messages after which the loop goes on. */
  predicate Continuing(incoming: seq<Incoming>) {
    forall i :: 0 <= i < |incoming| ==> incoming[i].Received? && !incoming[i].msg.Exited?
  }

  /** What each message adds to the idle times, wherever it comes; when the connection
      breaks or the client has exited, nothing is added any more. */
  lemma {:induction false} MessageCounts(a: seq<Incoming>, r: Incoming, b: seq<Incoming>)
    requires Continuing(a)
    ensures IdleTimes(a + [r] + b) ==
            if r.ReceiveFails? || r.msg.Exited? then IdleTimes(a)
            else IdleTimes(a) + ((if r.msg == Idle then [r.at] else []) + IdleTimes(b))
  {
    assert a + [r] + b == a + ([r] + b) && ([r] + b)[1..] == b;
    TimesAppend(a, [r] + b);
    assert IdleTimes(a) + [] == IdleTimes(a);
  }

  lemma {:induction false} TimesAppend(a: seq<Incoming>, b: seq<Incoming>)
    requires Continuing(a)
    ensures IdleTimes(a + b) == IdleTimes(a) + IdleTimes(b)
  {
    if a == [] {
      assert a + b == b;
    } else {
      assert (a + b)[1..] == a[1..] + b;
      TimesAppend(a[1..], b);
    }
  }

  /** Messages that do not end the loop are acted on one by one, and it goes on. */
  lemma {:induction false} ServePasses(p: Progress, patience: Patience, a: seq<Incoming>, b: seq<Incoming>, w: World)
    requires Continuing(a) && Lasts(patience, |a|)
    ensures Serve(p, patience, a + b, w) == Serve(EnforceAll(p, IdleTimes(a), w), Later(patience, |a|), b, w)
    decreases |a|
  {
    hide Enforce;
    if a == [] {
      assert a + b == b;
    } else {
      var (times, rest) := (IdleTimes(a), IdleTimes(a[1..]));
      assert (a + b)[1..] == a[1..] + b;
      if a[0].msg.Idle? {
        assert times[1..] == rest;
        ServePasses(Enforce(p, a[0].at, w), Asked(patience), a[1..], b, w);
      } else {
        assert times == rest;
        ServePasses(p, Asked(patience), a[1..], b, w);
      }
    }
  }

  /** Cancelled after `n` polls, the loop has acted on exactly `n` messages, if none of
      them ends it. */
  lemma ServeCancelled(p: Progress, a: seq<Incoming>, b: seq<Incoming>, w: World)
    requires Continuing(a)
    ensures Serve(p, For(|a|), a + b, w) == Served(EnforceAll(p, IdleTimes(a), w), b, For(0))
  {
    ServePasses(p, For(|a|), a, b, w);
  }

  /** Not cancelled before, it ends with the first message that ends it and no sooner. */
  lemma ServeEnds(p: Progress, patience: Patience, a: seq<Incoming>, end: Incoming, b: seq<Incoming>, w: World)
    requires Continuing(a) && (end.ReceiveFails? || end.msg.Exited?) && Lasts(patience, |a| + 1)
    ensures Serve(p, patience, a + [end] + b, w) ==
            Served(EnforceAll(p, IdleTimes(a), w), b, Later(patience, |a| + 1))
  {
    assert a + [end] + b == a + ([end] + b) && ([end] + b)[1..] == b;
    ServePasses(p, patience, a, [end] + b, w);
  }

  lemma {:induction false} EnforceExtends(p: Progress, times: seq<int>, w: World)
    ensures p.sent <= EnforceAll(p, times, w).sent
    decreases |times|
  {
    if times != [] {
      EnforceExtends(Enforce(p, times[0], w), times[1..], w);
    }
  }

  /** A cancelled context only cuts the sequence of prompts short. */
  lemma {:induction false} CancellationTruncates(p: Progress, patience: Patience, incoming: seq<Incoming>, w: World)
    ensures p.sent <= Serve(p, patience, incoming, w).progress.sent <= Serve(p, Forever, incoming, w).progress.sent
    decreases |incoming|
  {
    if Exhausted(patience) {
      ServeIsEnforceAll(p, incoming, w);
      EnforceExtends(p, IdleTimes(incoming), w);
    } else if incoming != [] && incoming[0].Received? && !incoming[0].msg.Exited? {
      var next := if incoming[0].msg.Idle? then Enforce(p, incoming[0].at, w) else p;
      CancellationTruncates(next, Asked(patience), incoming[1..], w);
    }
  }

  /** The client's output, its start and unknown messages have no influence: two
      connections with the same idle events get the same prompts, and if their
      contexts are cancelled, the beginning of the same prompts. */
  lemma OutputDoesNotInterfere(a: seq<Incoming>, b: seq<Incoming>, pa: Patience, pb: Patience, p: Progress, w: World)
    requires IdleTimes(a) == IdleTimes(b)
    ensures Serve(p, Forever, a, w).progress == Serve(p, Forever, b, w).progress
    ensures var (sa, sb) := (Serve(p, pa, a, w).progress.sent, Serve(p, pb, b, w).progress.sent);
            sa <= sb || sb <= sa
  {
    ServeIsEnforceAll(p, a, w);
    ServeIsEnforceAll(p, b, w);
    CancellationTruncates(p, pa, a, w);
    CancellationTruncates(p, pb, b, w);
  }

  /** A message that is none of idle, exited. */
  predicate IsNoise(m: Message) {
    !m.Idle? && !m.Exited?
  }

  /** Putting noise anywhere into a connection leaves its idle events as they are. */
  lemma {:induction false} NoiseKeepsIdleTimes(a: seq<Incoming>, at: int, m: Message, b: seq<Incoming>)
    requires IsNoise(m)
    ensures IdleTimes(a + [Received(at, m)] + b) == IdleTimes(a + b)
  {
    var noisy := a + [Received(at, m)] + b;
    if a == [] {
      assert noisy == [Received(at, m)] + b && a + b == b;
      assert noisy[1..] == b;
    } else {
      assert noisy[1..] == a[1..] + [Received(at, m)] + b;
      assert (a + b)[1..] == a[1..] + b;
      NoiseKeepsIdleTimes(a[1..], at, m, b);
    }
  }

  // ---------- how often the tools run ----------

  /** When the runs of the tools begin. */
  function RunTimes(p: Progress, times: seq<int>, w: World): seq<int>
    decreases |times|
  {
    if times == [] then []
    else
      (if MayClaim(p.gate, times[0]) then [times[0]] else []) + RunTimes(Enforce(p, times[0], w), times[1..], w)
  }

  /** Each run begins the cooldown after the end of the one before. */
  predicate RestBetween(runs: seq<int>, first: nat, w: World) {
    forall i :: 0 <= i < |runs| - 1 ==> runs[i] + w.run(first + i).duration + COOLDOWN <= runs[i + 1]
  }

  lemma {:induction false} RunsRest(p: Progress, times: seq<int>, w: World)
    requires !p.gate.running
    ensures var runs := RunTimes(p, times, w);
            && RestBetween(runs, p.runs, w)
            && (runs != [] && p.gate.last.At? ==> p.gate.last.time + COOLDOWN <= runs[0])
    decreases |times|
  {
    if times != [] {
      var q := Enforce(p, times[0], w);
      var (runs, rest) := (RunTimes(p, times, w), RunTimes(q, times[1..], w));
      RunsRest(q, times[1..], w);
      if MayClaim(p.gate, times[0]) {
        assert runs == [times[0]] + rest;
        forall i | 0 <= i < |runs| - 1 ensures runs[i] + w.run(p.runs + i).duration + COOLDOWN <= runs[i + 1] {
          if i > 0 {
            assert runs[i] == rest[i - 1] && runs[i + 1] == rest[i];
            assert w.run(q.runs + (i - 1)) == w.run(p.runs + i);
          }
        }
      } else {
        assert runs == rest;
      }
    }
  }

  lemma {:induction false} RestIsSpace(runs: seq<int>, first: nat, w: World, i: nat, j: nat)
    requires RestBetween(runs, first, w) && i < j < |runs|
    ensures runs[i] + COOLDOWN <= runs[j]
    decreases j
  {
    if i + 1 < j {
      RestIsSpace(runs, first, w, i, j - 1);
    }
  }

  lemma RunsApart(p: Progress, times: seq<int>, w: World)
    requires !p.gate.running
    ensures Spaced(RunTimes(p, times, w), COOLDOWN)
  {
    var runs := RunTimes(p, times, w);
    RunsRest(p, times, w);
    forall i, j | 0 <= i < j < |runs| ensures runs[i] + COOLDOWN <= runs[j] {
      RestIsSpace(runs, p.runs, w, i, j);
    }
  }

  lemma {:induction false} RunsAppend(p: Progress, a: seq<int>, b: seq<int>, w: World)
    ensures EnforceAll(p, a + b, w) == EnforceAll(EnforceAll(p, a, w), b, w)
    ensures RunTimes(p, a + b, w) == RunTimes(p, a, w) + RunTimes(EnforceAll(p, a, w), b, w)
    decreases |a|
  {
    if a == [] {
      assert a + b == b;
    } else {
      assert (a + b)[1..] == a[1..] + b;
      RunsAppend(Enforce(p, a[0], w), a[1..], b, w);
    }
  }

  /** When the last of these runs, the first of which has the number `first`, ended. */
  function LastEnd(runs: seq<int>, first: nat, w: World): int
    requires runs != []
  {
    runs[|runs| - 1] + w.run(first + |runs| - 1).duration
  }

  /** The gate remembers the end of the last run, or what it remembered before. */
  lemma {:induction false} GateRemembersLastRun(p: Progress, times: seq<int>, w: World)
    requires !p.gate.running
    ensures var (q, runs) := (EnforceAll(p, times, w), RunTimes(p, times, w));
            && !q.gate.running
            && q.gate.last == if runs == [] then p.gate.last else At(LastEnd(runs, p.runs, w))
    decreases |times|
  {
    if times != [] {
      var q := Enforce(p, times[0], w);
      GateRemembersLastRun(q, times[1..], w);
      var rest := RunTimes(q, times[1..], w);
      if MayClaim(p.gate, times[0]) {
        assert RunTimes(p, times, w) == [times[0]] + rest;
        if rest != [] {
          assert p.runs + (1 + |rest|) - 1 == q.runs + |rest| - 1;
        }
      } else {
        assert RunTimes(p, times, w) == rest;
      }
    }
  }

  /** After any idle events, the next one starts the tools exactly if it does not come
      within the cooldown after the end of the last run. */
  lemma IdleRunsExactly(p: Progress, times: seq<int>, t: int, w: World)
    requires !p.gate.running
    ensures var runs := RunTimes(p, times, w);
            RunTimes(p, times + [t], w) ==
            if runs == [] && p.gate.last.At? && t < p.gate.last.time + 30_000_000_000 then runs
            else if runs != [] && t < LastEnd(runs, p.runs, w) + 30_000_000_000 then runs
            else runs + [t]
  {
    var q := EnforceAll(p, times, w);
    RunsAppend(p, times, [t], w);
    GateRemembersLastRun(p, times, w);
    assert [t][1..] == [] && RunTimes(q, [t], w) == if MayClaim(q.gate, t) then [t] else [];
  }

  /** The replies to the runs numbered `from` up to `to`: one each, in order. */
  function Replies(from: nat, to: nat, w: World): seq<Message>
    decreases to - from
  {
    if from >= to then []
    else
      (if w.run(from).unencodable then []
       else [Type(Good(w.render(from, Chosen(w.run(from).results))))]) + Replies(from + 1, to, w)
  }

  lemma {:induction false} PromptsAnswerRuns(p: Progress, times: seq<int>, w: World)
    requires !p.gate.running
    ensures var q := EnforceAll(p, times, w);
            p.runs <= q.runs && q.sent == p.sent + Replies(p.runs, q.runs, w)
    decreases |times|
  {
    if times != [] {
      PromptsAnswerRuns(Enforce(p, times[0], w), times[1..], w);
    }
  }

  lemma {:induction false} RunsAndPrompts(p: Progress, times: seq<int>, w: World)
    requires !p.gate.running
    ensures var q := EnforceAll(p, times, w);
            && q.runs == p.runs + |RunTimes(p, times, w)|
            && |q.sent| - |p.sent| <= q.runs - p.runs <= |times|
            && ((forall n :: p.runs <= n < q.runs ==> !w.run(n).unencodable) ==> |q.sent| - |p.sent| == q.runs - p.runs)
    decreases |times|
  {
    if times != [] {
      RunsAndPrompts(Enforce(p, times[0], w), times[1..], w);
    }
  }

  /** However many idle events a launcher sends, the tools start at most
      1 + floor(L / cooldown) times in a window of length L, and at most one prompt
      answers each start. */
  lemma RunRate(incoming: seq<Incoming>, w: World, lo: int, hi: int)
    requires lo <= hi
    ensures var p := Progress(FRESH, 0, []);
            var runs := RunTimes(p, IdleTimes(incoming), w);
            && CountWithin(runs, lo, hi) <= 1 + (hi - lo) / 30_000_000_000
            && |Serve(p, Forever, incoming, w).progress.sent| <= |runs| <= |IdleTimes(incoming)|
  {
    var p := Progress(FRESH, 0, []);
    RunsApart(p, IdleTimes(incoming), w);
    WindowBound(RunTimes(p, IdleTimes(incoming), w), COOLDOWN, lo, hi);
    ServeIsEnforceAll(p, incoming, w);
    RunsAndPrompts(p, IdleTimes(incoming), w);
  }
}
