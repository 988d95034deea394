/** internal/backend/gate.go: the enforcement gate. Its two critical sections are
    `TryClaim` and `Release`; the tools run, and the prompt is sent, outside them.
    Instants and durations are in nanoseconds. */
module Gate {
  import opened Bytes
  import opened Proto

  const COOLDOWN: nat := 30_000_000_000

  // ---------- tools and prompts ----------

  datatype ToolResult = ToolResult(name: Bytes, passed: bool, output: Bytes)

  datatype PromptName = IdlePrompt | FailurePrompt

  datatype PromptVars = PromptVars(failedTool: Bytes, output: Bytes)

  datatype Choice = Choice(name: PromptName, vars: PromptVars)

  /** One run of all the tools, and whether the reply then fails to be encoded. */
  datatype ToolRun = ToolRun(results: seq<ToolResult>, duration: nat, unencodable: bool)

  /** Everything a gate does not control: what its n-th run of the tools gives, and
      how the prompt renders then (templates are read anew each time). */
  datatype World = World(run: nat -> ToolRun, render: (nat, Choice) -> Bytes)

  ghost predicate PassedBefore(results: seq<ToolResult>, n: int) {
    forall i :: 0 <= i < n && i < |results| ==> results[i].passed
  }

  /** What the prompt must be: praise if everything passed, otherwise a report of
      the first failure. */
  ghost predicate IsChoice(results: seq<ToolResult>, c: Choice) {
    if PassedBefore(results, |results|) then c == Choice(IdlePrompt, PromptVars([], []))
    else exists i :: 0 <= i < |results| && !results[i].passed && PassedBefore(results, i)
           && c == Choice(FailurePrompt, PromptVars(results[i].name, results[i].output))
  }

  function Chosen(results: seq<ToolResult>): Choice {
    if results == [] then Choice(IdlePrompt, PromptVars([], []))
    else if !results[0].passed then Choice(FailurePrompt, PromptVars(results[0].name, results[0].output))
    else Chosen(results[1..])
  }

  lemma {:induction false} ChosenIsChoice(results: seq<ToolResult>)
    ensures IsChoice(results, Chosen(results))
  {
    if results != [] && results[0].passed {
      var rest := results[1..];
      ChosenIsChoice(rest);
      assert forall i :: 1 <= i < |results| ==> results[i] == rest[i - 1];
      if !PassedBefore(rest, |rest|) {
        assert !PassedBefore(results, |results|) by {
          var i :| 0 <= i < |rest| && !rest[i].passed;
          assert !results[i + 1].passed;
        }
        var i :| 0 <= i < |rest| && !rest[i].passed && PassedBefore(rest, i)
          && Chosen(rest) == Choice(FailurePrompt, PromptVars(rest[i].name, rest[i].output));
        assert !results[i + 1].passed && PassedBefore(results, i + 1);
      }
    } else if results != [] {
      assert PassedBefore(results, 0);
    }
  }

  method AllPassed(results: seq<ToolResult>) returns (all: bool)
    ensures all <==> PassedBefore(results, |results|)
  {
    for i := 0 to |results|
      invariant PassedBefore(results, i)
    {
      if !results[i].passed {
        return false;
      }
    }
    return true;
  }

  lemma {:induction false} ChoiceIsUnique(results: seq<ToolResult>, c: Choice)
    requires IsChoice(results, c)
    ensures c == Chosen(results)
  {
    ChosenIsChoice(results);
    if !PassedBefore(results, |results|) {
      var i :| 0 <= i < |results| && !results[i].passed && PassedBefore(results, i)
        && c == Choice(FailurePrompt, PromptVars(results[i].name, results[i].output));
      var j :| 0 <= j < |results| && !results[j].passed && PassedBefore(results, j)
        && Chosen(results) == Choice(FailurePrompt, PromptVars(results[j].name, results[j].output));
      assert i == j;
    }
  }

  // ---------- the two critical sections ----------

  datatype Last = Never | At(time: int)

  datatype GateState = GateState(running: bool, last: Last)

  const FRESH := GateState(false, Never)

  predicate Cooling(g: GateState, now: int) {
    g.last.At? && now - g.last.time < COOLDOWN
  }

  predicate MayClaim(g: GateState, now: int) {
    !g.running && !Cooling(g, now)
  }

  function Claimed(g: GateState): GateState {
    g.(running := true)
  }

  function Released(now: int): GateState {
    GateState(false, At(now))
  }

  // ---------- one enforcement ----------

  /** The state a connection's enforcement loop carries along. */
  datatype Progress = Progress(gate: GateState, runs: nat, sent: seq<Message>)

  function Enforce(p: Progress, now: int, w: World): Progress {
    if !MayClaim(p.gate, now) then p
    else
      var run := w.run(p.runs);
      Progress(
        Released(now + run.duration),
        p.runs + 1,
        if run.unencodable then p.sent else p.sent + [Type(Good(w.render(p.runs, Chosen(run.results))))])
  }

  class Gate {
    const world: World
    var running: bool
    var lastEnforce: Last
    var runs: nat

    constructor (world: World)
      ensures this.world == world && State() == FRESH && runs == 0
    {
      this.world := world;
      running, lastEnforce, runs := false, Never, 0;
    }

    function State(): GateState
      reads this
    {
      GateState(running, lastEnforce)
    }

    /** The first critical section. */
    method TryClaim(now: int) returns (claimed: bool)
      modifies this
      ensures claimed == old(MayClaim(State(), now))
      ensures State() == if claimed then Claimed(old(State())) else old(State())
      ensures runs == old(runs)
    {
      if running {
        return false;
      }
      if lastEnforce.At? && now - lastEnforce.time < COOLDOWN {
        return false;
      }
      running := true;
      return true;
    }

    /** The second critical section. */
    method Release(now: int)
      modifies this
      ensures State() == Released(now) && runs == old(runs)
    {
      lastEnforce := At(now);
      running := false;
    }

    method RunAll() returns (run: ToolRun)
      modifies `runs
      ensures run == world.run(old(runs)) && runs == old(runs) + 1
    {
      run := world.run(runs);
      runs := runs + 1;
    }

    /** One idle event, claimed at `now` if at all, with no other caller about. */
    method HandleEnforcement(now: int, conn: Conn)
      modifies this, conn`sent
      ensures Progress(State(), runs, conn.sent) == Enforce(old(Progress(State(), runs, conn.sent)), now, world)
    {
      var claimed := TryClaim(now);
      if !claimed {
        return;
      }
      var n := runs;
      var run := RunAll();
      Release(now + run.duration);

      var name := IdlePrompt;
      var vars := PromptVars([], []);
      var passed := AllPassed(run.results);
      if !passed {
        var i := 0;
        while i < |run.results|
          invariant 0 <= i <= |run.results| && PassedBefore(run.results, i)
          invariant name == IdlePrompt && vars == PromptVars([], [])
        {
          if !run.results[i].passed {
            name, vars := FailurePrompt, PromptVars(run.results[i].name, run.results[i].output);
            break;
          }
          i := i + 1;
        }
      }
      assert IsChoice(run.results, Choice(name, vars));
      ChoiceIsUnique(run.results, Choice(name, vars));

      if run.unencodable {
        return;
      }
      // A failed send is logged and otherwise ignored.
      var failed := conn.Send(Type(Good(world.render(n, Choice(name, vars)))));
    }
  }
}
