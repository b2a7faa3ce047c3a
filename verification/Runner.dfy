/** The controlled runner: a fixed tool chain with an audit log, step timing and progress reports. */
module Runner {
  import opened RunModel

  datatype Timing = Timing(phase: StepDef, failed: bool)

  datatype RunState = RunState(status: Status, currentStep: nat, totalSteps: nat, cancelRequested: bool,
                               error: bool, timing: seq<Timing>)

  datatype Event =
    | RunStarted
    | ToolStarted(step: nat, tool: string)
    | ToolCompleted(step: nat, tool: string)
    | RunCompleted(steps: nat)
    | RunFailed(step: nat)
    | RunCancelled(step: nat)

  /** Everything the runner does not control: which tools are registered, the
      steps whose tools raise, and the steps whose cancel check answers yes. */
  datatype Env = Env(registered: set<string>, raises: set<nat>, cancelled: set<nat>)

  /** What a step does, in the order in which the loop body decides. */
  datatype Fate = Limit | Cancel | Missing | Raise | Proceed

  function FateOf(env: Env, maxSteps: nat, cancelled: bool, step: nat): Fate {
    if step > maxSteps then Limit
    else if cancelled || step in env.cancelled then Cancel
    else if ToolOf(step) !in env.registered then Missing
    else if step in env.raises then Raise
    else Proceed
  }

  /** How many steps of the pipeline complete: those before the first one that does not proceed. */
  function Completes(env: Env, maxSteps: nat, cancelled: bool, from: nat): (n: nat)
    requires from <= STEPS
    ensures from <= n <= STEPS
    ensures forall s :: from < s <= n ==> FateOf(env, maxSteps, cancelled, s) == Proceed
    ensures n < STEPS ==> FateOf(env, maxSteps, cancelled, n + 1) != Proceed
    decreases STEPS - from
  {
    if from == STEPS || FateOf(env, maxSteps, cancelled, from + 1) != Proceed then from
    else Completes(env, maxSteps, cancelled, from + 1)
  }

  /** The first `n` steps all proceed. */
  predicate Proceeds(env: Env, maxSteps: nat, cancelled: bool, n: nat) {
    forall s :: 1 <= s <= n ==> FateOf(env, maxSteps, cancelled, s) == Proceed
  }

  /** The audit rows, timing rows and tool calls of the first `n` completed steps. */
  function ToolRows(n: nat): seq<Event> {
    if n == 0 then [] else ToolRows(n - 1) + [ToolStarted(n, ToolOf(n)), ToolCompleted(n, ToolOf(n))]
  }

  function Timings(n: nat): seq<Timing> {
    if n == 0 then [] else Timings(n - 1) + [Timing(PhaseOf(n), false)]
  }

  function Tools(n: nat): seq<string> {
    if n == 0 then [] else Tools(n - 1) + [ToolOf(n)]
  }

  /** How a run ends: after `n` completed steps, by the fate of the next one or by finishing. */
  datatype Ending = Ending(n: nat, fate: Fate)

  function EndingOf(env: Env, maxSteps: nat, cancelled: bool): (e: Ending)
    ensures e.n <= STEPS && (e.fate == Proceed <==> e.n == STEPS)
  {
    var n := Completes(env, maxSteps, cancelled, 0);
    Ending(n, if n == STEPS then Proceed else FateOf(env, maxSteps, cancelled, n + 1))
  }

  /** The tools an ending has invoked. */
  function Invoked(e: Ending): seq<string> {
    Tools(if e.fate == Raise then e.n + 1 else e.n)
  }

  function LastRows(e: Ending): seq<Event> {
    match e.fate
    case Proceed => [RunCompleted(STEPS)]
    case Cancel => [RunCancelled(e.n)]
    case Raise => [ToolStarted(e.n + 1, ToolOf(e.n + 1)), RunFailed(e.n + 1)]
    case _ => [RunFailed(e.n)]
  }

  function ExpectedLog(e: Ending): seq<Event> {
    [RunStarted] + ToolRows(e.n) + LastRows(e)
  }

  function NewTimings(e: Ending): seq<Timing> {
    if e.fate == Raise then Timings(e.n) + [Timing(PhaseOf(e.n + 1), true)] else Timings(e.n)
  }

  function TotalSteps(maxSteps: nat): nat {
    if STEPS < maxSteps then STEPS else maxSteps
  }

  /** The state reported when step `s` starts. */
  function StepReport(start: RunState, maxSteps: nat, s: nat): RunState
    requires s >= 1
  {
    start.(status := StatusOf(s), currentStep := s, totalSteps := TotalSteps(maxSteps), timing := start.timing + Timings(s - 1))
  }

  /** The reports sent while the first `k` steps start, the initial one included. */
  function Reports(start: RunState, maxSteps: nat, k: nat): seq<RunState> {
    if k == 0 then [start] else Reports(start, maxSteps, k - 1) + [StepReport(start, maxSteps, k)]
  }

  /** The state the run returns, which is also its last report. */
  function FinalState(start: RunState, maxSteps: nat, e: Ending): RunState {
    var total := if e.n == 0 && e.fate != Raise then start.totalSteps else TotalSteps(maxSteps);
    var timing := start.timing + NewTimings(e);
    match e.fate
    case Proceed => start.(status := Completed, currentStep := STEPS, totalSteps := total, timing := timing)
    case Cancel => start.(status := Cancelled, currentStep := e.n, totalSteps := total, timing := timing,
                          cancelRequested := true)
    case Raise => start.(status := Failed, currentStep := e.n + 1, totalSteps := total, timing := timing, error := true)
    case _ => start.(status := Failed, currentStep := e.n, totalSteps := total, timing := timing, error := true)
  }

  function Started(e: Ending): nat {
    if e.fate == Raise then e.n + 1 else e.n
  }

  datatype Result = Ok(state: RunState) | NotQueued

  class ControlledRunner {
    const env: Env
    const maxSteps: nat
    var audit: seq<Event>
    var reports: seq<RunState>
    ghost var invoked: seq<string>

    constructor (env: Env, maxSteps: nat)
      requires 1 <= maxSteps <= 8
      ensures this.env == env && this.maxSteps == maxSteps
      ensures audit == [] && reports == [] && invoked == []
    {
      this.env, this.maxSteps := env, maxSteps;
      audit, reports, invoked := [], [], [];
    }

    method Fail(state: RunState, timing: seq<Timing>, step: nat) returns (failed: RunState)
      modifies this`audit, this`reports
      ensures failed == state.(status := Failed, currentStep := step, error := true, timing := timing)
      ensures audit == old(audit) + [RunFailed(step)] && reports == old(reports) + [failed]
    {
      failed := state.(status := Failed, currentStep := step, error := true, timing := timing);
      audit := audit + [RunFailed(step)];
      reports := reports + [failed];
    }

    method CancelRun(state: RunState, timing: seq<Timing>, step: nat) returns (cancelled: RunState)
      modifies this`audit, this`reports
      ensures cancelled == state.(status := Cancelled, currentStep := step, timing := timing)
      ensures audit == old(audit) + [RunCancelled(step)] && reports == old(reports) + [cancelled]
    {
      cancelled := state.(status := Cancelled, currentStep := step, timing := timing);
      audit := audit + [RunCancelled(step)];
      reports := reports + [cancelled];
    }

    /** After `k` completed steps: what the local variables hold and what has been logged since `b`. */
    ghost predicate Progress(start: RunState, b: Logs, k: nat, state: RunState, timing: seq<Timing>)
      reads this
    {
      && k <= STEPS && Proceeds(env, maxSteps, start.cancelRequested, k)
      && state == (if k == 0 then start else StepReport(start, maxSteps, k))
      && timing == start.timing + Timings(k)
      && invoked == b.invoked + Tools(k)
      && audit == b.audit + ([RunStarted] + ToolRows(k))
      && reports == b.reports + Reports(start, maxSteps, k)
    }

    /** Step `step` has been announced and its tool is about to be called. */
    ghost predicate AtTool(start: RunState, b: Logs, step: nat, state: RunState, timing: seq<Timing>)
      reads this
    {
      && 1 <= step <= STEPS
      && FateOf(env, maxSteps, start.cancelRequested, step) in {Raise, Proceed}
      && Proceeds(env, maxSteps, start.cancelRequested, step - 1)
      && state == StepReport(start, maxSteps, step)
      && timing == start.timing + Timings(step - 1)
      && invoked == b.invoked + Tools(step - 1)
      && audit == b.audit + ([RunStarted] + ToolRows(step - 1)) + [ToolStarted(step, ToolOf(step))]
      && reports == b.reports + Reports(start, maxSteps, step)
    }

    /** The logs and the result are those of ending `e`. */
    ghost predicate EndedAs(e: Ending, start: RunState, b: Logs, final: RunState)
      reads this
    {
      Records(e, start, maxSteps, b, Logs(audit, reports, invoked), final)
    }

    /** The run has ended the way its environment determines. */
    ghost predicate Ended(start: RunState, b: Logs, final: RunState)
      reads this
    {
      EndedAs(EndingOf(env, maxSteps, start.cancelRequested), start, b, final)
    }

    /** The prologue: the start is logged and the initial state reported. */
    method Begin(start: RunState, ghost b: Logs)
      requires b == Logs(audit, reports, invoked)
      modifies this`audit, this`reports
      ensures Progress(start, b, 0, start, start.timing)
    {
      audit := audit + [RunStarted];
      reports := reports + [start];
    }

    /** The guards of the loop body: the step limit, the cancel check and the tool registry. */
    method HaltIfDue(start: RunState, ghost b: Logs, state: RunState, timing: seq<Timing>, step: nat)
        returns (next: RunState, halted: bool)
      requires 1 <= step <= STEPS && Progress(start, b, step - 1, state, timing)
      modifies this`audit, this`reports
      ensures halted <==> FateOf(env, maxSteps, start.cancelRequested, step) in {Limit, Cancel, Missing}
      ensures halted ==> EndedAs(Ending(step - 1, FateOf(env, maxSteps, start.cancelRequested, step)), start, b, next)
      ensures !halted ==> next == state && Progress(start, b, step - 1, state, timing)
    {
      ghost var fate := FateOf(env, maxSteps, start.cancelRequested, step);
      if fate in {Limit, Cancel, Missing} {
        HaltLog(b.audit, step - 1, fate);
        HaltFinal(start, maxSteps, step - 1, fate, state, timing);
      }
      if step > maxSteps {
        next := Fail(state, timing, step - 1);
        return next, true;
      }
      if state.cancelRequested || step in env.cancelled {
        next := state.(cancelRequested := true);
        next := CancelRun(next, timing, step - 1);
        return next, true;
      }
      if ToolOf(step) !in env.registered {
        next := Fail(state, timing, step - 1);
        return next, true;
      }
      return state, false;
    }

    /** The step is announced: state, audit row and report. */
    method Announce(start: RunState, ghost b: Logs, state: RunState, timing: seq<Timing>, step: nat)
        returns (next: RunState)
      requires 1 <= step <= STEPS && Progress(start, b, step - 1, state, timing)
      requires FateOf(env, maxSteps, start.cancelRequested, step) in {Raise, Proceed}
      modifies this`audit, this`reports
      ensures AtTool(start, b, step, next, timing)
    {
      next := state.(status := StatusOf(step), currentStep := step, totalSteps := TotalSteps(maxSteps), timing := timing);
      audit := audit + [ToolStarted(step, ToolOf(step))];
      reports := reports + [next];
      ReportsSnoc(b.reports, start, maxSteps, step);
    }

    /** The tool raised: its timing row is marked and the run fails at this step. */
    method ToolRaised(start: RunState, ghost b: Logs, state: RunState, timing: seq<Timing>, step: nat)
        returns (next: RunState)
      requires AtTool(start, b, step, state, timing) && step in env.raises
      modifies this
      ensures EndedAs(Ending(step - 1, Raise), start, b, next)
    {
      RaisedRecords(start, maxSteps, b, step - 1);
      invoked := invoked + [ToolOf(step)];
      var timing' := timing + [Timing(PhaseOf(step), true)];
      next := Fail(state, timing', step);
    }

    /** The tool call and its two outcomes, inside the step timer. */
    method CallTool(start: RunState, ghost b: Logs, state: RunState, timing: seq<Timing>, step: nat)
        returns (next: RunState, timing': seq<Timing>, halted: bool)
      requires AtTool(start, b, step, state, timing)
      modifies this
      ensures halted ==> step in env.raises && EndedAs(Ending(step - 1, Raise), start, b, next)
      ensures !halted ==> Progress(start, b, step, next, timing')
    {
      if step in env.raises {
        next := ToolRaised(start, b, state, timing, step);
        return next, timing, true;
      }
      timing' := ToolReturned(start, b, state, timing, step);
      return state, timing', false;
    }

    /** The loop body up to the tool call. */
    method BeginStep(start: RunState, ghost b: Logs, state: RunState, timing: seq<Timing>, step: nat)
        returns (next: RunState, halted: bool)
      requires 1 <= step <= STEPS && Progress(start, b, step - 1, state, timing)
      modifies this`audit, this`reports
      ensures halted <==> FateOf(env, maxSteps, start.cancelRequested, step) in {Limit, Cancel, Missing}
      ensures halted ==> EndedAs(Ending(step - 1, FateOf(env, maxSteps, start.cancelRequested, step)), start, b, next)
      ensures !halted ==> AtTool(start, b, step, next, timing)
    {
      next, halted := HaltIfDue(start, b, state, timing, step);
      if !halted {
        next := Announce(start, b, next, timing, step);
      }
    }

    /** The tool returned: its timing row and its completion row are added. */
    method ToolReturned(start: RunState, ghost b: Logs, state: RunState, timing: seq<Timing>, step: nat)
        returns (timing': seq<Timing>)
      requires AtTool(start, b, step, state, timing) && step !in env.raises
      modifies this
      ensures Progress(start, b, step, state, timing')
    {
      CompletedLog(b.audit, step);
      ToolsSnoc(b.invoked, step);
      TimingsSnoc(start.timing, step);
      invoked := invoked + [ToolOf(step)];
      timing' := timing + [Timing(PhaseOf(step), false)];
      audit := audit + [ToolCompleted(step, ToolOf(step))];
    }

    /** The end of the loop: all five steps have completed. */
    method Complete(start: RunState, ghost b: Logs, state: RunState, timing: seq<Timing>) returns (next: RunState)
      requires Progress(start, b, STEPS, state, timing)
      modifies this`audit, this`reports
      ensures EndedAs(Ending(STEPS, Proceed), start, b, next)
    {
      next := state.(status := Completed, currentStep := STEPS, timing := timing, totalSteps := TotalSteps(maxSteps));
      audit := audit + [RunCompleted(next.currentStep)];
      reports := reports + [next];
      assert b.audit + ExpectedLog(Ending(STEPS, Proceed)) == audit;
    }

    /** The loop body: the run ends here or the step is done. */
    method RunStep(start: RunState, ghost b: Logs, state: RunState, timing: seq<Timing>, step: nat)
        returns (next: RunState, timing': seq<Timing>, halted: bool, ghost e: Ending)
      requires 1 <= step <= STEPS && Progress(start, b, step - 1, state, timing)
      modifies this
      ensures halted ==> IsEnding(env, maxSteps, start.cancelRequested, e) && EndedAs(e, start, b, next)
      ensures !halted ==> Progress(start, b, step, next, timing')
    {
      e := Ending(step - 1, FateOf(env, maxSteps, start.cancelRequested, step));
      timing' := timing;
      next, halted := BeginStep(start, b, state, timing, step);
      if !halted {
        next, timing', halted := CallTool(start, b, next, timing, step);
      }
    }

    /** The loop over the pipeline, after the run has been admitted. */
    method RunPipeline(start: RunState, ghost b: Logs) returns (final: RunState, ghost e: Ending)
      requires b == Logs(audit, reports, invoked)
      modifies this
      ensures IsEnding(env, maxSteps, start.cancelRequested, e) && EndedAs(e, start, b, final)
    {
      var timing, step := start.timing, 1;
      final := start;
      Begin(start, b);
      while step <= STEPS
        invariant 1 <= step <= STEPS + 1 && Progress(start, b, step - 1, final, timing)
      {
        var halted;
        final, timing, halted, e := RunStep(start, b, final, timing, step);
        if halted {
          return;
        }
        step := step + 1;
      }
      e := Ending(STEPS, Proceed);
      final := Complete(start, b, final, timing);
    }

    /** For every registry, step limit, tool outcome and cancel oracle: the tools
        invoked, the audit rows, the reports and the result are those of the run's ending. */
    method Run(start: RunState) returns (r: Result)
      modifies this
      ensures r.NotQueued? <==> start.status != Queued
      ensures r.NotQueued? ==> audit == old(audit) && reports == old(reports) && invoked == old(invoked)
      ensures r.Ok? ==> Ended(start, old(Logs(audit, reports, invoked)), r.state)
    {
      if start.status != Queued {
        return NotQueued;
      }
      var final;
      ghost var e;
      final, e := RunPipeline(start, Logs(audit, reports, invoked));
      EndingIs(env, maxSteps, start.cancelRequested, e);
      return Ok(final);
    }
  }

  /** The append-only records of a runner. */
  datatype Logs = Logs(audit: seq<Event>, reports: seq<RunState>, invoked: seq<string>)

  /** What ending `e` has added to the records `b`, and the state it returns. */
  predicate Records(e: Ending, start: RunState, maxSteps: nat, b: Logs, after: Logs, final: RunState) {
    && after.invoked == b.invoked + Invoked(e)
    && after.audit == b.audit + ExpectedLog(e)
    && final == FinalState(start, maxSteps, e)
    && after.reports == b.reports + Reports(start, maxSteps, Started(e)) + [final]
  }

  /** The ending of a run: all steps before it proceed, and it does not unless all are done. */
  predicate IsEnding(env: Env, maxSteps: nat, cancelled: bool, e: Ending) {
    && e.n <= STEPS && Proceeds(env, maxSteps, cancelled, e.n)
    && (e.fate == Proceed <==> e.n == STEPS)
    && (e.n < STEPS ==> e.fate == FateOf(env, maxSteps, cancelled, e.n + 1))
  }

  lemma EndingIs(env: Env, maxSteps: nat, cancelled: bool, e: Ending)
    requires IsEnding(env, maxSteps, cancelled, e)
    ensures EndingOf(env, maxSteps, cancelled) == e
  {
    var c := Completes(env, maxSteps, cancelled, 0);
    assert c == e.n;
  }

  /** The state a halted step returns is the one its ending names. */
  lemma HaltFinal(start: RunState, maxSteps: nat, n: nat, fate: Fate, state: RunState, timing: seq<Timing>)
    requires fate in {Limit, Cancel, Missing} && timing == start.timing + Timings(n)
    requires state == if n == 0 then start else StepReport(start, maxSteps, n)
    ensures fate == Cancel ==>
              FinalState(start, maxSteps, Ending(n, fate))
              == state.(cancelRequested := true).(status := Cancelled, currentStep := n, timing := timing)
    ensures fate != Cancel ==>
              FinalState(start, maxSteps, Ending(n, fate)) == state.(status := Failed, currentStep := n, error := true, timing := timing)
  {
  }

  lemma HaltLog(before: seq<Event>, n: nat, fate: Fate)
    requires fate in {Limit, Cancel, Missing}
    ensures before + ([RunStarted] + ToolRows(n)) + LastRows(Ending(n, fate)) == before + ExpectedLog(Ending(n, fate))
  {
  }

  lemma ReportsSnoc(before: seq<RunState>, start: RunState, maxSteps: nat, step: nat)
    requires step >= 1
    ensures before + Reports(start, maxSteps, step - 1) + [StepReport(start, maxSteps, step)]
         == before + Reports(start, maxSteps, step)
  {
  }

  lemma ToolsSnoc(before: seq<string>, step: nat)
    requires step >= 1
    ensures before + Tools(step - 1) + [ToolOf(step)] == before + Tools(step)
  {
  }

  lemma TimingsSnoc(before: seq<Timing>, step: nat)
    requires step >= 1
    ensures before + Timings(step - 1) + [Timing(PhaseOf(step), false)] == before + Timings(step)
  {
  }

  lemma RaisedTimings(before: seq<Timing>, n: nat)
    ensures before + Timings(n) + [Timing(PhaseOf(n + 1), true)] == before + NewTimings(Ending(n, Raise))
  {
  }

  /** The state a raising tool leaves is the one its ending names. */
  lemma RaisedFinal(start: RunState, maxSteps: nat, n: nat)
    ensures FinalState(start, maxSteps, Ending(n, Raise))
         == StepReport(start, maxSteps, n + 1).(status := Failed, currentStep := n + 1, error := true,
                                                timing := start.timing + Timings(n) + [Timing(PhaseOf(n + 1), true)])
  {
    RaisedTimings(start.timing, n);
  }

  /** A tool that raises at step n + 1 leaves the records of its ending. */
  lemma RaisedRecords(start: RunState, maxSteps: nat, b: Logs, n: nat)
    ensures var final := StepReport(start, maxSteps, n + 1).(status := Failed, currentStep := n + 1, error := true,
                           timing := start.timing + Timings(n) + [Timing(PhaseOf(n + 1), true)]);
            var row := ToolStarted(n + 1, ToolOf(n + 1));
            Records(Ending(n, Raise), start, maxSteps, b,
                    Logs(b.audit + ([RunStarted] + ToolRows(n)) + [row] + [RunFailed(n + 1)],
                         b.reports + Reports(start, maxSteps, n + 1) + [final],
                         b.invoked + Tools(n) + [ToolOf(n + 1)]),
                    final)
  {
    RaisedLog(b.audit, n);
    ToolsSnoc(b.invoked, n + 1);
    RaisedFinal(start, maxSteps, n);
  }

  lemma RaisedLog(before: seq<Event>, n: nat)
    ensures before + ([RunStarted] + ToolRows(n)) + [ToolStarted(n + 1, ToolOf(n + 1))] + [RunFailed(n + 1)]
         == before + ExpectedLog(Ending(n, Raise))
  {
  }

  lemma CompletedLog(before: seq<Event>, step: nat)
    requires step >= 1
    ensures before + ([RunStarted] + ToolRows(step - 1)) + [ToolStarted(step, ToolOf(step))] + [ToolCompleted(step, ToolOf(step))]
         == before + ([RunStarted] + ToolRows(step))
  {
    assert ToolRows(step) == ToolRows(step - 1) + [ToolStarted(step, ToolOf(step)), ToolCompleted(step, ToolOf(step))];
  }

  // ---- What every ending promises ----

  lemma {:induction false} ToolsArePrefix(n: nat, m: nat)
    requires n <= m
    ensures |Tools(n)| == n && Tools(n) <= Tools(m)
    decreases m
  {
    if n < m {
      ToolsArePrefix(n, m - 1);
    } else if n > 0 {
      ToolsArePrefix(n - 1, n - 1);
    }
  }

  lemma {:induction false} ToolAt(n: nat, i: nat)
    requires i < n
    ensures |Tools(n)| == n && Tools(n)[i] == ToolOf(i + 1)
  {
    ToolsArePrefix(n - 1, n);
    if i < n - 1 {
      ToolAt(n - 1, i);
    }
  }

  lemma InvokedIsRegistered(env: Env, maxSteps: nat, cancelled: bool, i: nat)
    requires i < Started(EndingOf(env, maxSteps, cancelled))
    ensures ToolOf(i + 1) in env.registered
  {
    assert FateOf(env, maxSteps, cancelled, i + 1) in {Proceed, Raise};
  }

  /** The tools invoked are a prefix of the pipeline, in pipeline order, and each was registered. */
  lemma InvokedIsPipelinePrefix(env: Env, maxSteps: nat, cancelled: bool)
    ensures Invoked(EndingOf(env, maxSteps, cancelled)) <= Tools(STEPS)
    ensures forall tool <- Invoked(EndingOf(env, maxSteps, cancelled)) :: tool in env.registered
  {
    var e := EndingOf(env, maxSteps, cancelled);
    var m := Started(e);
    ToolsArePrefix(m, STEPS);
    forall tool | tool in Invoked(e)
      ensures tool in env.registered
    {
      var i :| 0 <= i < |Tools(m)| && Tools(m)[i] == tool;
      ToolAt(m, i);
      InvokedIsRegistered(env, maxSteps, cancelled, i);
    }
  }

  /** A run completes if and only if the limit admits all five steps, no cancel
      check fires, every tool is registered and none raises. */
  lemma CompletedIffAllSucceed(env: Env, maxSteps: nat, start: RunState)
    requires start.status == Queued
    ensures (FinalState(start, maxSteps, EndingOf(env, maxSteps, start.cancelRequested)).status == Completed) <==>
            (maxSteps >= STEPS && !start.cancelRequested &&
             forall s :: 1 <= s <= STEPS ==> s !in env.cancelled && ToolOf(s) in env.registered && s !in env.raises)
  {
    var e := EndingOf(env, maxSteps, start.cancelRequested);
    if e.n == STEPS {
      forall s | 1 <= s <= STEPS
        ensures maxSteps >= s && !start.cancelRequested
        ensures s !in env.cancelled && ToolOf(s) in env.registered && s !in env.raises
      {
        assert FateOf(env, maxSteps, start.cancelRequested, s) == Proceed;
      }
      assert maxSteps >= STEPS && !start.cancelRequested;
    } else {
      assert FateOf(env, maxSteps, start.cancelRequested, e.n + 1) != Proceed;
    }
  }

  predicate TerminalEvent(e: Event) {
    e.RunCompleted? || e.RunFailed? || e.RunCancelled?
  }

  lemma {:induction false} ToolRowsNotTerminal(n: nat)
    ensures |ToolRows(n)| == 2 * n
    ensures forall row <- ToolRows(n) :: !TerminalEvent(row)
  {
    if n > 0 {
      ToolRowsNotTerminal(n - 1);
    }
  }

  lemma LastRowNamesStatus(start: RunState, maxSteps: nat, e: Ending)
    requires e.n <= STEPS && (e.fate == Proceed <==> e.n == STEPS)
    ensures var last := LastRows(e)[|LastRows(e)| - 1];
            var s := FinalState(start, maxSteps, e);
            TerminalEvent(last) &&
            (match s.status
             case Completed => last == RunCompleted(s.currentStep)
             case Cancelled => last == RunCancelled(s.currentStep)
             case _ => s.status == Failed && last == RunFailed(s.currentStep))
  {
  }

  /** An audit log of a run has exactly one terminal row, the last one, and it names the final status. */
  lemma OneTerminalEventAndLast(start: RunState, maxSteps: nat, e: Ending)
    requires e.n <= STEPS && (e.fate == Proceed <==> e.n == STEPS)
    ensures forall i :: 0 <= i < |ExpectedLog(e)| ==> (TerminalEvent(ExpectedLog(e)[i]) <==> i == |ExpectedLog(e)| - 1)
    ensures var last := ExpectedLog(e)[|ExpectedLog(e)| - 1];
            var s := FinalState(start, maxSteps, e);
            (match s.status
             case Completed => last == RunCompleted(s.currentStep)
             case Cancelled => last == RunCancelled(s.currentStep)
             case _ => s.status == Failed && last == RunFailed(s.currentStep))
  {
    LastRowNamesStatus(start, maxSteps, e);
    ToolRowsNotTerminal(e.n);
    OneTerminalRow([RunStarted] + ToolRows(e.n), LastRows(e));
  }

  /** Rows that are not terminal, then at most a tool start and a terminal row. */
  lemma OneTerminalRow(head: seq<Event>, last: seq<Event>)
    requires forall row <- head :: !TerminalEvent(row)
    requires |last| > 0 && forall i :: 0 <= i < |last| ==> (TerminalEvent(last[i]) <==> i == |last| - 1)
    ensures forall i :: 0 <= i < |head + last| ==> (TerminalEvent((head + last)[i]) <==> i == |head + last| - 1)
  {
    forall i | 0 <= i < |head|
      ensures !TerminalEvent((head + last)[i])
    {
      assert (head + last)[i] == head[i] && head[i] in head;
    }
  }

  /** Tool starts minus tool completions in a log. */
  function OpenTools(log: seq<Event>): int {
    if |log| == 0 then 0
    else OpenTools(log[..|log| - 1]) + match log[|log| - 1] case ToolStarted(_, _) => 1 case ToolCompleted(_, _) => -1 case _ => 0
  }

  lemma OpenToolsAppend(log: seq<Event>, e: Event)
    ensures OpenTools(log + [e]) == OpenTools(log) + match e case ToolStarted(_, _) => 1 case ToolCompleted(_, _) => -1 case _ => 0
  {
    assert (log + [e])[..|log|] == log;
  }

  lemma {:induction false} OpenToolsOfRows(n: nat)
    ensures OpenTools([RunStarted] + ToolRows(n)) == 0
  {
    if n == 0 {
      OpenToolsAppend([], RunStarted);
      assert [RunStarted] + ToolRows(0) == [] + [RunStarted];
    } else {
      OpenToolsOfRows(n - 1);
      var before := [RunStarted] + ToolRows(n - 1);
      OpenToolsAppend(before, ToolStarted(n, ToolOf(n)));
      OpenToolsAppend(before + [ToolStarted(n, ToolOf(n))], ToolCompleted(n, ToolOf(n)));
      assert [RunStarted] + ToolRows(n) == before + [ToolStarted(n, ToolOf(n))] + [ToolCompleted(n, ToolOf(n))];
    }
  }

  /** A started tool is left without its completion row exactly when a tool raised. */
  lemma OpenToolIffRaised(e: Ending)
    ensures OpenTools(ExpectedLog(e)) == if e.fate == Raise then 1 else 0
  {
    OpenToolsOfRows(e.n);
    var before := [RunStarted] + ToolRows(e.n);
    if e.fate == Raise {
      OpenToolsAppend(before, ToolStarted(e.n + 1, ToolOf(e.n + 1)));
      OpenToolsAppend(before + [ToolStarted(e.n + 1, ToolOf(e.n + 1))], RunFailed(e.n + 1));
      assert ExpectedLog(e) == before + [ToolStarted(e.n + 1, ToolOf(e.n + 1))] + [RunFailed(e.n + 1)];
    } else {
      OpenToolsAppend(before, LastRows(e)[0]);
      assert ExpectedLog(e) == before + [LastRows(e)[0]];
    }
  }

  lemma {:induction false} TimingsLength(n: nat)
    ensures |Timings(n)| == n && forall i :: 0 <= i < n ==> Timings(n)[i] == Timing(PhaseOf(i + 1), false)
  {
    if n > 0 {
      TimingsLength(n - 1);
    }
  }

  /** One timing row for each tool invoked, booked under its phase; only a raising tool's row carries an error. */
  lemma TimingPerInvokedTool(e: Ending)
    ensures |NewTimings(e)| == |Invoked(e)|
    ensures forall i :: 0 <= i < |NewTimings(e)| ==>
              NewTimings(e)[i] == Timing(PhaseOf(i + 1), e.fate == Raise && i == |NewTimings(e)| - 1)
  {
    TimingsLength(e.n);
    ToolsArePrefix(Started(e), Started(e));
  }

  // ---- Reported progress ----

  /** Rounds n/d to the nearest integer, a tie to the even neighbour. */
  function RoundHalfEven(n: nat, d: nat): nat
    requires d > 0
  {
    var q, r := n / d, n % d;
    if 2 * r < d || (2 * r == d && q % 2 == 0) then q else q + 1
  }

  /** No integer is nearer to n/d, and of two equally near ones it is the even one. */
  lemma RoundsToNearest(n: nat, d: nat)
    requires d > 0
    ensures var off: int := 2 * n - 2 * (RoundHalfEven(n, d) * d);
            && -off <= d && off <= d
            && (off == d || -off == d ==> RoundHalfEven(n, d) % 2 == 0)
  {
    var q := n / d;
    assert n == q * d + n % d && (q + 1) * d == q * d + d;
  }

  function Percentage(s: RunState): nat {
    var total := if s.totalSteps == 0 then 8 else s.totalSteps;
    var p := RoundHalfEven(100 * s.currentStep, total);
    if p < 100 then p else 100
  }

  lemma {:induction false} MulGap(p: nat, q: nat, d: nat)
    requires p < q
    ensures p * d + d <= q * d
  {
    if p + 1 == q {
      assert q * d == p * d + d;
    } else {
      MulGap(p, q - 1, d);
      assert q * d == (q - 1) * d + d;
    }
  }

  lemma QuotientOrder(qa: nat, ra: nat, qb: nat, rb: nat, d: nat)
    requires ra < d && rb < d && qa * d + ra <= qb * d + rb
    ensures qa < qb || (qa == qb && ra <= rb)
  {
    if qb < qa {
      MulGap(qb, qa, d);
    }
  }

  lemma RoundMonotone(a: nat, b: nat, d: nat)
    requires d > 0 && a <= b
    ensures RoundHalfEven(a, d) <= RoundHalfEven(b, d)
  {
    QuotientOrder(a / d, a % d, b / d, b % d, d);
  }

  lemma PercentageMonotone(s: RunState, t: RunState)
    requires s.currentStep <= t.currentStep
    requires s.currentStep == 0 || s.totalSteps == t.totalSteps
    ensures Percentage(s) <= Percentage(t)
  {
    if s.currentStep == 0 {
      assert Percentage(s) == 0;
    } else {
      RoundMonotone(100 * s.currentStep, 100 * t.currentStep, if s.totalSteps == 0 then 8 else s.totalSteps);
    }
  }

  lemma {:induction false} ReportAt(start: RunState, maxSteps: nat, k: nat, i: nat)
    requires i <= k
    ensures |Reports(start, maxSteps, k)| == k + 1
    ensures Reports(start, maxSteps, k)[i] == if i == 0 then start else StepReport(start, maxSteps, i)
    decreases k
  {
    if k > 0 {
      ReportAt(start, maxSteps, k - 1, if i < k then i else 0);
    }
  }

  /** Every report a run sends, in order. */
  function AllReports(start: RunState, maxSteps: nat, e: Ending): seq<RunState> {
    Reports(start, maxSteps, Started(e)) + [FinalState(start, maxSteps, e)]
  }

  lemma ReportedAt(start: RunState, maxSteps: nat, e: Ending, i: nat)
    requires e.n <= STEPS && (e.fate == Proceed <==> e.n == STEPS) && start.currentStep == 0
    ensures |AllReports(start, maxSteps, e)| == Started(e) + 2
    ensures i <= Started(e) ==> AllReports(start, maxSteps, e)[i].currentStep == i
    ensures 0 < i <= Started(e) ==> AllReports(start, maxSteps, e)[i].totalSteps == TotalSteps(maxSteps)
    ensures var last := AllReports(start, maxSteps, e)[Started(e) + 1];
            last.currentStep == Started(e) && (last.currentStep > 0 ==> last.totalSteps == TotalSteps(maxSteps))
  {
    ReportAt(start, maxSteps, Started(e), if i <= Started(e) then i else 0);
  }

  /** The percentages reported over a run never decrease, and a completed run reports 100. */
  lemma ProgressNeverDecreases(start: RunState, maxSteps: nat, e: Ending, i: nat, j: nat)
    requires e.n <= STEPS && (e.fate == Proceed <==> e.n == STEPS) && start.currentStep == 0
    requires i <= j < |AllReports(start, maxSteps, e)|
    ensures Percentage(AllReports(start, maxSteps, e)[i]) <= Percentage(AllReports(start, maxSteps, e)[j])
    ensures e.fate == Proceed && maxSteps >= STEPS ==> Percentage(FinalState(start, maxSteps, e)) == 100
  {
    ReportedAt(start, maxSteps, e, i);
    ReportedAt(start, maxSteps, e, j);
    PercentageMonotone(AllReports(start, maxSteps, e)[i], AllReports(start, maxSteps, e)[j]);
  }

  // ---- The pipeline spelled out ----

  const COMPLETED := Ending(STEPS, Proceed)

  function Statuses(reports: seq<RunState>): seq<Status> {
    seq(|reports|, i requires 0 <= i < |reports| => reports[i].status)
  }

  function Percentages(reports: seq<RunState>): seq<nat> {
    seq(|reports|, i requires 0 <= i < |reports| => Percentage(reports[i]))
  }

  lemma ToolsSpelledOut()
    ensures Invoked(COMPLETED) == ["scan", "index", "retrieve", "evaluate", "draft"]
    ensures NewTimings(COMPLETED)
         == [Timing(Parse, false), Timing(Index, false), Timing(Retrieve, false),
             Timing(ModelGenerate, false), Timing(ModelGenerate, false)]
  {
    forall i | 0 <= i < STEPS
      ensures Tools(STEPS)[i] == ["scan", "index", "retrieve", "evaluate", "draft"][i]
    {
      ToolAt(STEPS, i);
    }
    ToolAt(STEPS, 0);
    TimingsLength(STEPS);
  }

  /** The share of the pipeline done when step `i` starts. */
  lemma StepPercentage(s: RunState, i: nat)
    requires i <= STEPS && s.currentStep == i && (i == 0 || s.totalSteps == STEPS)
    ensures Percentage(s) == 20 * i
  {
  }

  lemma ReportSpelledOut(start: RunState, maxSteps: nat, i: nat)
    requires maxSteps >= STEPS && start.status == Queued && start.currentStep == 0 && i <= STEPS + 1
    ensures |AllReports(start, maxSteps, COMPLETED)| == STEPS + 2
    ensures var r := AllReports(start, maxSteps, COMPLETED)[i];
            && r.status == [Queued, Scanning, Indexing, Retrieving, Evaluating, Drafting, Completed][i]
            && Percentage(r) == if i <= STEPS then 20 * i else 100
  {
    ReportAt(start, maxSteps, STEPS, if i <= STEPS then i else 0);
    ReportedAt(start, maxSteps, COMPLETED, i);
    StepPercentage(AllReports(start, maxSteps, COMPLETED)[i], if i <= STEPS then i else STEPS);
  }

  /** A run that completes, spelled out: the tools it invokes, the phases it
      times, and the statuses and percentages it reports one after the other. */
  lemma CompletedRunSpelledOut(start: RunState, maxSteps: nat)
    requires maxSteps >= STEPS && start.status == Queued && start.currentStep == 0
    ensures Invoked(COMPLETED) == ["scan", "index", "retrieve", "evaluate", "draft"]
    ensures NewTimings(COMPLETED)
         == [Timing(Parse, false), Timing(Index, false), Timing(Retrieve, false),
             Timing(ModelGenerate, false), Timing(ModelGenerate, false)]
    ensures Statuses(AllReports(start, maxSteps, COMPLETED))
         == [Queued, Scanning, Indexing, Retrieving, Evaluating, Drafting, Completed]
    ensures Percentages(AllReports(start, maxSteps, COMPLETED)) == [0, 20, 40, 60, 80, 100, 100]
  {
    ToolsSpelledOut();
    ReportSpelledOut(start, maxSteps, 0);
    var reports := AllReports(start, maxSteps, COMPLETED);
    forall i | 0 <= i <= STEPS + 1
      ensures Statuses(reports)[i] == [Queued, Scanning, Indexing, Retrieving, Evaluating, Drafting, Completed][i]
      ensures Percentages(reports)[i] == [0, 20, 40, 60, 80, 100, 100][i]
    {
      ReportSpelledOut(start, maxSteps, i);
    }
  }

  /** A smaller step limit is the whole of the reported progress: the report of
      the last step it admits, and of no earlier one, shows 100. */
  lemma LimitIsTheWhole(start: RunState, maxSteps: nat, s: nat)
    requires 1 <= s <= maxSteps && s <= STEPS
    ensures Percentage(StepReport(start, maxSteps, s)) == 100 <==> s == STEPS || s == maxSteps
  {
    assert 100 * s < 100 * TotalSteps(maxSteps) ==> 100 * s / TotalSteps(maxSteps) < 100;
  }
}
