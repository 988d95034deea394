/** internal/backend/server.go: the accept loop, as it runs when nobody interferes. */
module Server {
  import opened Proto

  type Id = nat

  datatype AcceptError = TimedOut | OtherError

  datatype Reason = ListenFailed | ContextCancelled | AcceptFailed

  datatype AcceptOutcome = Connection | Error(err: AcceptError)

  class Listener {
    var script: seq<AcceptOutcome>

    constructor (script: seq<AcceptOutcome>)
      ensures this.script == script
    {
      this.script := script;
    }

    /** The next result; once the script is used up, the listener is closed. */
    method Accept() returns (r: AcceptOutcome)
      modifies this
      ensures r == (if old(script) == [] then Error(OtherError) else old(script)[0])
      ensures script == if old(script) == [] then [] else old(script)[1..]
    {
      if script == [] {
        return Error(OtherError);
      }
      r := script[0];
      script := script[1..];
    }

    method Close()
      modifies this
      ensures script == []
    {
      script := [];
    }
  }

  datatype Ended = Ended(started: nat, reason: Reason, unread: seq<AcceptOutcome>, patience: Patience)

  function AcceptAll(started: nat, patience: Patience, script: seq<AcceptOutcome>): Ended
    decreases |script|
  {
    if Exhausted(patience) then Ended(started, ContextCancelled, script, patience)
    else
      var asked := Asked(patience);
      var rest := if script == [] then [] else script[1..];
      if script != [] && script[0].Connection? then AcceptAll(started + 1, asked, rest)
      else if Exhausted(asked) then Ended(started, ContextCancelled, rest, asked)
      else if script != [] && script[0].err == TimedOut then AcceptAll(started, Asked(asked), rest)
      else Ended(started, AcceptFailed, rest, Asked(asked))
  }

  function Numbered(from: Id, to: Id): (ids: set<Id>)
    ensures forall h :: h in ids <==> from <= h < to
  {
    if to <= from then {} else Numbered(from, to - 1) + {to - 1}
  }

  lemma NumberedGrows(from: Id, to: Id)
    requires from <= to
    ensures Numbered(from, from) == {} && Numbered(from, to + 1) == Numbered(from, to) + {to}
  {
  }

  class Backend {
    var listener: Listener?
    var wg: nat
    var handlers: set<Id>
    var started: nat

    ghost predicate Valid()
      reads `wg, `handlers, `started
    {
      wg == |handlers| && forall h <- handlers :: h < started
    }

    constructor ()
      ensures Valid() && listener == null && handlers == {} && started == 0
    {
      listener, wg, handlers, started := null, 0, {}, 0;
    }

    /** wg.Wait: comes back when every handler has ended. */
    method Wait()
      requires Valid()
      modifies `wg, `handlers
      ensures Valid() && wg == 0 && handlers == {}
    {
      while handlers != {}
        invariant Valid()
        decreases |handlers|
      {
        var h :| h in handlers;
        handlers, wg := handlers - {h}, wg - 1;
      }
    }

    /** Counts a handler and starts it. */
    method StartHandler()
      requires Valid()
      modifies `wg, `handlers, `started
      ensures Valid() && started == old(started) + 1 && handlers == old(handlers) + {old(started)}
    {
      assert started !in handlers;
      wg := wg + 1;
      handlers, started := handlers + {started}, started + 1;
    }

    /** Opens the listener (`ln` is null if that fails) and accepts connections. Handlers
        are left running, unless the context ended the loop. */
    method Run(ctx: Context, ln: Listener?) returns (reason: Reason)
      requires Valid()
      modifies this, ctx, ln
      ensures Valid()
      ensures ln == null ==>
                && reason == ListenFailed && ctx.patience == old(ctx.patience)
                && listener == old(listener) && started == old(started) && handlers == old(handlers)
      ensures ln != null ==>
                && listener == ln
                && Ended(started, reason, ln.script, ctx.patience) == old(AcceptAll(started, ctx.patience, ln.script))
                && handlers == if reason == ContextCancelled then {} else old(handlers) + Numbered(old(started), started)
    {
      hide Numbered, Valid;
      if ln == null {
        return ListenFailed;
      }
      NumberedGrows(started, started);
      listener := ln;
      ghost var whole := AcceptAll(started, ctx.patience, ln.script);
      while true
        invariant Valid() && listener == ln && old(started) <= started
        invariant whole == AcceptAll(started, ctx.patience, ln.script)
        invariant handlers == old(handlers) + Numbered(old(started), started)
        decreases |ln.script|
      {
        var cancelled := ctx.Err();
        if cancelled {
          Wait();
          return ContextCancelled;
        }
        var r := ln.Accept();
        if r.Error? {
          cancelled := ctx.Err();
          if cancelled {
            Wait();
            return ContextCancelled;
          }
          if r.err == TimedOut {
            continue;
          }
          return AcceptFailed;
        }
        NumberedGrows(old(started), started);
        StartHandler();
      }
    }

    /** Closes the listener, if there is one yet, and waits for the handlers. */
    method Stop()
      requires Valid()
      modifies `wg, `handlers, listener
      ensures Valid() && handlers == {} && started == old(started)
      ensures listener != null ==> listener.script == []
    {
      if listener != null {
        listener.Close();
      }
      Wait();
    }
  }

  function Connections(script: seq<AcceptOutcome>): nat {
    if script == [] || script[0] == Error(OtherError) then 0
    else (if script[0].Connection? then 1 else 0) + Connections(script[1..])
  }

  /** Every connection before the first error that is not a timeout gets a handler, and
      only that error, or the context, ends the loop. */
  lemma {:induction false} EveryConnectionHandled(started: nat, patience: Patience, script: seq<AcceptOutcome>)
    ensures var e := AcceptAll(started, patience, script);
            && started <= e.started <= started + Connections(script)
            && (patience == Forever ==> e.reason == AcceptFailed && e.started == started + Connections(script))
            && (e.reason == AcceptFailed ==> e.started == started + Connections(script))
    decreases |script|
  {
    if !Exhausted(patience) && script != [] {
      var asked := Asked(patience);
      if script[0].Connection? {
        EveryConnectionHandled(started + 1, asked, script[1..]);
      } else if !Exhausted(asked) && script[0].err == TimedOut {
        EveryConnectionHandled(started, Asked(asked), script[1..]);
      }
    }
  }

  /** Outcomes after which the loop goes on, unless the context is cancelled. */
  predicate Continuing(script: seq<AcceptOutcome>) {
    forall i :: 0 <= i < |script| ==> script[i] != Error(OtherError)
  }

  function ConnectionsIn(script: seq<AcceptOutcome>): nat {
    multiset(script)[Connection]
  }

  /** How often the context is asked: once for each outcome, and once more for a timeout. */
  function Polls(script: seq<AcceptOutcome>): nat {
    |script| + multiset(script)[Error(TimedOut)]
  }

  lemma OneMore(first: AcceptOutcome, rest: seq<AcceptOutcome>)
    ensures ConnectionsIn([first] + rest) == ConnectionsIn(rest) + if first == Connection then 1 else 0
    ensures Polls([first] + rest) == Polls(rest) + if first == Error(TimedOut) then 2 else 1
  {
  }

  /** Connections and timeouts are acted on one by one, and the loop goes on. */
  lemma {:induction false} AcceptPasses(
      started: nat, patience: Patience, a: seq<AcceptOutcome>, b: seq<AcceptOutcome>)
    requires Continuing(a) && Lasts(patience, Polls(a))
    ensures AcceptAll(started, patience, a + b) ==
            AcceptAll(started + ConnectionsIn(a), Later(patience, Polls(a)), b)
    decreases |a|
  {
    hide ConnectionsIn, Polls;
    if a == [] {
      NoOutcomes();
      assert a + b == b;
    } else {
      assert (a + b)[1..] == a[1..] + b && a == [a[0]] + a[1..];
      OneMore(a[0], a[1..]);
      if a[0].Connection? {
        AcceptPasses(started + 1, Asked(patience), a[1..], b);
      } else {
        assert a[0] == Error(a[0].err) && a[0].err.TimedOut?;
        AcceptPasses(started, Asked(Asked(patience)), a[1..], b);
      }
    }
  }

  lemma NoOutcomes()
    ensures ConnectionsIn([]) == Polls([]) == 0
  {
  }

  /** Cancelled after as many polls as the outcomes `a` take, the loop has started one
      handler for each connection among these and looked no further; if the poll is the
      one after an error, that error has been consumed. */
  lemma AcceptCancelled(started: nat, a: seq<AcceptOutcome>, err: AcceptError, b: seq<AcceptOutcome>)
    requires Continuing(a)
    ensures AcceptAll(started, For(Polls(a)), a + b) ==
            Ended(started + ConnectionsIn(a), ContextCancelled, b, For(0))
    ensures AcceptAll(started, For(Polls(a) + 1), a + [Error(err)] + b) ==
            Ended(started + ConnectionsIn(a), ContextCancelled, b, For(0))
  {
    hide ConnectionsIn, Polls;
    AcceptPasses(started, For(Polls(a)), a, b);
    assert a + [Error(err)] + b == a + ([Error(err)] + b) && ([Error(err)] + b)[1..] == b;
    AcceptPasses(started, For(Polls(a) + 1), a, [Error(err)] + b);
  }

  /** Not cancelled before, it ends with the first error that is not a timeout. */
  lemma AcceptEnds(started: nat, patience: Patience, a: seq<AcceptOutcome>, b: seq<AcceptOutcome>)
    requires Continuing(a) && Lasts(patience, Polls(a) + 2)
    ensures AcceptAll(started, patience, a + [Error(OtherError)] + b) ==
            Ended(started + ConnectionsIn(a), AcceptFailed, b, Later(patience, Polls(a) + 2))
    ensures Connections(a + [Error(OtherError)] + b) == ConnectionsIn(a)
  {
    hide ConnectionsIn, Polls;
    assert a + [Error(OtherError)] + b == a + ([Error(OtherError)] + b) && ([Error(OtherError)] + b)[1..] == b;
    AcceptPasses(started, patience, a, [Error(OtherError)] + b);
    AcceptPasses(0, Forever, a, [Error(OtherError)] + b);
    EveryConnectionHandled(0, Forever, a + [Error(OtherError)] + b);
  }
}
