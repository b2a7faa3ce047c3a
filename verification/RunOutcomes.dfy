/** How a run can end: when a cancelled run can still complete, and when the
    record of a finished run stays terminal. */
module RunOutcomes {
  import opened RunCancellation
  import opened RunModel
  import opened RunProtocol
  import opened RunRefinement
  import opened Wrappers
  import Runner

  // ---- Undisturbed runs ----

  /** A check that sees no flag announces its step. */
  lemma CheckPasses(cfg: Config, s: State, k: nat)
    requires 1 <= k <= STEPS && AllSucceed(cfg) && s.task.InThread?
    requires s.task.worker == Check(k) && !s.task.mem.cancel && !s.disk.cancel
    ensures var mem := s.task.mem.(status := StatusOf(k), step := k);
            Run(cfg, s, [WorkerCheck, WorkerRead]) == Some(Go(s, PersistWrite(mem, ToTool(k)), mem))
  {
    assert ToolOf(k) in cfg.registered;
    RunTwo(cfg, s, WorkerCheck, WorkerRead);
  }

  /** One undisturbed step of the pipeline whose tool succeeds. */
  lemma StepSucceeds(cfg: Config, s: State, k: nat)
    requires 1 <= k <= STEPS && AllSucceed(cfg) && s.task.InThread?
    requires s.task.worker == Check(k) && !s.task.mem.cancel && !s.disk.cancel
    ensures var r := Run(cfg, s, [WorkerCheck, WorkerRead] + [WorkerWrite, WorkerTool]);
            && r.Some? && !r.value.disk.cancel && r.value.loop == s.loop && r.value.task.InThread?
            && !r.value.task.mem.cancel && r.value.pending == s.pending
            && (if k < STEPS then r.value.task.worker == Check(k + 1)
                else r.value.task.worker == PersistRead(ToReturn) && r.value.task.mem.status == Completed)
  {
    var mem := s.task.mem.(status := StatusOf(k), step := k);
    CheckPasses(cfg, s, k);
    RunTwo(cfg, Go(s, PersistWrite(mem, ToTool(k)), mem), WorkerWrite, WorkerTool);
    RunAppend(cfg, s, [WorkerCheck, WorkerRead], [WorkerWrite, WorkerTool]);
  }

  /** A pipeline that sees no flag and whose tools all succeed completes. */
  lemma {:induction false} RunsToCompletion(cfg: Config, s: State, k: nat) returns (acts: seq<Action>)
    requires 1 <= k <= STEPS && AllSucceed(cfg) && s.task.InThread? && s.loop == Idle
    requires s.task.worker == Check(k) && !s.task.mem.cancel && !s.disk.cancel
    ensures Run(cfg, s, acts).Some? && Run(cfg, s, acts).value.disk.status == Completed
    ensures Over(Run(cfg, s, acts).value) && Run(cfg, s, acts).value.pending == s.pending
    decreases STEPS - k
  {
    var first := [WorkerCheck, WorkerRead] + [WorkerWrite, WorkerTool];
    StepSucceeds(cfg, s, k);
    var t := Run(cfg, s, first).value;
    var rest;
    if k < STEPS {
      rest := RunsToCompletion(cfg, t, k + 1);
    } else {
      rest := SavesResult(cfg, t);
    }
    RunAppend(cfg, s, first, rest);
    acts := first + rest;
  }

  lemma SavesResult(cfg: Config, s: State) returns (acts: seq<Action>)
    requires s.task.InThread? && s.loop == Idle && s.task.worker == PersistRead(ToReturn)
    ensures Run(cfg, s, acts).Some? && Run(cfg, s, acts).value.disk == s.task.mem
    ensures Over(Run(cfg, s, acts).value) && Run(cfg, s, acts).value.pending == s.pending
  {
    var s1 := Apply(cfg, s, WorkerRead).value;
    var s2 := Apply(cfg, s1, WorkerWrite).value;
    RunTwo(cfg, s, WorkerRead, WorkerWrite);
    RunTwo(cfg, s2, FinalSave, Cleanup);
    acts := [WorkerRead, WorkerWrite] + [FinalSave, Cleanup];
    RunAppend(cfg, s, [WorkerRead, WorkerWrite], [FinalSave, Cleanup]);
  }

  const ACKNOWLEDGED := Rec(Cancelled, true, 0)

  /** A dispatched run whose worker has loaded the queued record. */
  const LOADED := State(Rec(Queued, false, 0), Idle, true, InThread(PersistRead(ToCheck(1)), Rec(Queued, false, 0)), multiset{}, 1, [], {})

  /** A run that was dispatched, whose cancellation has been read as QUEUED but
      not yet written, and whose worker has just merged the flag for its first report. */
  const RACING := State(Rec(Queued, false, 0), Idle, true, InThread(PersistWrite(Rec(Queued, false, 0), ToCheck(1)), Rec(Queued, false, 0)),
                        multiset{ACKNOWLEDGED}, 1, [], {})

  lemma LoadedIsReachable(cfg: Config) returns (acts: seq<Action>)
    ensures Run(cfg, INIT, acts) == Some(LOADED)
  {
    var s1 := Apply(cfg, INIT, DispatchRead).value;
    var s2 := Apply(cfg, s1, DispatchDecide).value;
    RunTwo(cfg, INIT, DispatchRead, DispatchDecide);
    RunTwo(cfg, s2, BackgroundStart, WorkerBegin);
    acts := [DispatchRead, DispatchDecide] + [BackgroundStart, WorkerBegin];
    RunAppend(cfg, INIT, [DispatchRead, DispatchDecide], [BackgroundStart, WorkerBegin]);
  }

  lemma RacingIsReachable(cfg: Config) returns (acts: seq<Action>)
    ensures Run(cfg, INIT, acts) == Some(RACING)
  {
    var load := LoadedIsReachable(cfg);
    var t := Apply(cfg, LOADED, CancelRead).value;
    assert t.pending == multiset{ACKNOWLEDGED};
    RunTwo(cfg, LOADED, CancelRead, WorkerRead);
    RunAppend(cfg, INIT, load, [CancelRead, WorkerRead]);
    acts := load + [CancelRead, WorkerRead];
  }

  /** CANCELLED on disk is not stable: a cancellation acknowledged with that
      status can be overwritten by the runner's first report, and the run completes. */
  lemma AcknowledgedCancelCanBeLost(cfg: Config) returns (before: seq<Action>, after: seq<Action>)
    requires AllSucceed(cfg)
    ensures Run(cfg, INIT, before).Some? && Run(cfg, INIT, before).value.disk == ACKNOWLEDGED
    ensures Run(cfg, INIT, before + after).Some? && Run(cfg, INIT, before + after).value.disk.status == Completed
  {
    var reach := RacingIsReachable(cfg);
    var write := [CancelWrite(ACKNOWLEDGED)];
    var s1 := Apply(cfg, RACING, CancelWrite(ACKNOWLEDGED)).value;
    RunOne(cfg, RACING, CancelWrite(ACKNOWLEDGED));
    RunAppend(cfg, INIT, reach, write);
    before := reach + write;
    var s2 := Apply(cfg, s1, WorkerWrite).value;
    var rest := RunsToCompletion(cfg, s2, 1);
    after := [WorkerWrite] + rest;
    assert after[1..] == rest;
    RunAppend(cfg, INIT, before, after);
  }

  // ---- When a cancelled run can still complete ----

  /** Some continuation puts one of the given statuses on disk. */
  ghost predicate CanReach(cfg: Config, s: State, goals: set<Status>) {
    exists acts :: Run(cfg, s, acts).Some? && Run(cfg, s, acts).value.disk.status in goals
  }

  lemma ReachNow(cfg: Config, s: State, goals: set<Status>)
    requires s.disk.status in goals
    ensures CanReach(cfg, s, goals)
  {
    assert Run(cfg, s, []) == Some(s);
  }

  lemma ReachNext(cfg: Config, s: State, a: Action, goals: set<Status>)
    requires Apply(cfg, s, a).Some? && CanReach(cfg, Apply(cfg, s, a).value, goals)
    ensures CanReach(cfg, s, goals)
  {
    var t := Apply(cfg, s, a).value;
    var acts :| Run(cfg, t, acts).Some? && Run(cfg, t, acts).value.disk.status in goals;
    RunOne(cfg, s, a);
    RunAppend(cfg, s, [a], acts);
  }

  /** A pending decision of a second dispatch does not disturb the worker. */
  lemma ReachWhenIdle(cfg: Config, s: State, goals: set<Status>)
    requires Inv(s) && s.task.InThread? && CanReach(cfg, s.(loop := Idle), goals)
    ensures CanReach(cfg, s, goals)
  {
    if s.loop == Idle {
      assert s == s.(loop := Idle);
    } else {
      ReachNext(cfg, s, DispatchDecide, goals);
    }
  }

  const COMPLETION := {Completed}

  ghost predicate CanComplete(cfg: Config, s: State) {
    CanReach(cfg, s, COMPLETION)
  }

  lemma ReturnCompletes(cfg: Config, s: State)
    requires s.task.InThread? && s.task.worker == PersistRead(ToReturn) && s.task.mem.status == Completed
    ensures CanComplete(cfg, s)
  {
    var t := Apply(cfg, s, WorkerRead).value;
    ReachNow(cfg, Apply(cfg, t, WorkerWrite).value, COMPLETION);
    ReachNext(cfg, t, WorkerWrite, COMPLETION);
    ReachNext(cfg, s, WorkerRead, COMPLETION);
  }

  lemma CheckCompletes(cfg: Config, s: State, k: nat)
    requires Inv(s) && AllSucceed(cfg) && s.task.InThread? && s.task.worker == Check(k)
    requires !s.task.mem.cancel && !s.disk.cancel
    ensures CanComplete(cfg, s)
  {
    var acts := RunsToCompletion(cfg, s.(loop := Idle), k);
    ReachWhenIdle(cfg, s, COMPLETION);
  }

  /** A last tool already past its check completes the run, cancelled or not. */
  lemma LastToolCompletes(cfg: Config, s: State)
    requires AllSucceed(cfg) && s.task.InThread? && s.task.worker == Tool(STEPS)
    ensures CanComplete(cfg, s)
  {
    ReturnCompletes(cfg, Apply(cfg, s, WorkerTool).value);
    ReachNext(cfg, s, WorkerTool, COMPLETION);
  }

  /** A tool completes the run if it is the last one or no flag is left to be seen. */
  lemma ToolCompletes(cfg: Config, s: State, k: nat)
    requires Inv(s) && AllSucceed(cfg) && s.task.InThread? && s.task.worker == Tool(k)
    requires !s.task.mem.cancel && !s.disk.cancel
    ensures CanComplete(cfg, s)
  {
    if k == STEPS {
      LastToolCompletes(cfg, s);
    } else {
      StepKeepsInv(cfg, s, WorkerTool);
      CheckCompletes(cfg, Apply(cfg, s, WorkerTool).value, k + 1);
      ReachNext(cfg, s, WorkerTool, COMPLETION);
    }
  }

  /** What a record in memory can be at each point, beside the protocol's invariant. */
  ghost predicate MemOk(s: State) {
    && (s.task.NoTask? || s.task.Created? ==>
          s.disk.status in {Queued, Cancelled} && forall r <- s.pending :: r.status == Cancelled)
    && (s.task.InThread? ==>
          match s.task.worker
          case Begin => s.task.mem.status != Completed
          case Raised => s.task.mem.status != Completed
          case Check(_) => s.task.mem.status != Completed
          case PersistWrite(rec, _) =>
            rec == s.task.mem.(cancel := rec.cancel) && (s.task.mem.cancel ==> rec.cancel)
          case _ => true)
  }

  lemma {:induction false} WorkerKeepsMemOk(cfg: Config, s: State, a: Action)
    requires Inv(s) && MemOk(s) && s.task.InThread? && ApplyWorker(cfg, s, a).Some?
    ensures MemOk(ApplyWorker(cfg, s, a).value)
  {
    match a
    case WorkerCheck =>
    case WorkerTool =>
    case _ =>
  }

  lemma {:induction false} LoopKeepsMemOk(s: State, a: Action)
    requires Inv(s) && MemOk(s) && ApplyLoop(s, a).Some?
    ensures MemOk(ApplyLoop(s, a).value)
  {
  }

  lemma {:induction false} CancelKeepsMemOk(s: State, a: Action)
    requires Inv(s) && MemOk(s) && ApplyCancel(s, a).Some?
    ensures MemOk(ApplyCancel(s, a).value)
  {
    if a.CancelWrite? {
      assert a.rec in s.pending;
    }
  }

  lemma {:induction false} StepKeepsMemOk(cfg: Config, s: State, a: Action)
    requires Inv(s) && MemOk(s) && Apply(cfg, s, a).Some?
    ensures MemOk(Apply(cfg, s, a).value)
  {
    match a
    case CancelRead => CancelKeepsMemOk(s, a);
    case CancelWrite(_) => CancelKeepsMemOk(s, a);
    case DispatchRead => LoopKeepsMemOk(s, a);
    case DispatchDecide => LoopKeepsMemOk(s, a);
    case BackgroundStart => LoopKeepsMemOk(s, a);
    case FinalSave => LoopKeepsMemOk(s, a);
    case TaskFails => LoopKeepsMemOk(s, a);
    case Cleanup => LoopKeepsMemOk(s, a);
    case _ => WorkerKeepsMemOk(cfg, s, a);
  }

  lemma {:induction false} RunKeepsMemOk(cfg: Config, s: State, acts: seq<Action>)
    requires Inv(s) && MemOk(s) && Run(cfg, s, acts).Some?
    ensures MemOk(Run(cfg, s, acts).value)
    decreases |acts|
  {
    if |acts| > 0 {
      StepKeepsInv(cfg, s, acts[0]);
      StepKeepsMemOk(cfg, s, acts[0]);
      RunKeepsMemOk(cfg, Apply(cfg, s, acts[0]).value, acts[1..]);
    }
  }

  /** Without a flag, a pipeline that cannot fail returns COMPLETED. */
  lemma UnflaggedReturnIsCompleted(cfg: Config, s: State, rec: Rec)
    requires AllSucceed(cfg) && Agrees(cfg, s) && s.task.InThread? && s.task.worker == PersistWrite(rec, ToReturn)
    requires !s.task.mem.cancel
    ensures s.task.mem.status == Completed
  {
    var e := Runner.EndingOf(EnvOf(cfg, s.stopped), cfg.maxSteps, false);
    assert e.fate in {Runner.Proceed, Runner.Cancel};
  }

  /** The worker overwrites the flag and goes on as if there had been none. */
  lemma WindowCompletes(cfg: Config, t: State)
    requires Inv(t) && MemOk(t) && Agrees(cfg, t) && AllSucceed(cfg) && InPersistWindow(t)
    ensures CanComplete(cfg, t)
  {
    var next, u := t.task.worker.next, Apply(cfg, t, WorkerWrite).value;
    StepKeepsInv(cfg, t, WorkerWrite);
    match next {
      case ToCheck(k) => CheckCompletes(cfg, u, k);
      case ToTool(k) => ToolCompletes(cfg, u, k);
      case ToReturn =>
        UnflaggedReturnIsCompleted(cfg, t, t.task.worker.rec);
        ReachNow(cfg, u, COMPLETION);
    }
    ReachNext(cfg, t, WorkerWrite, COMPLETION);
  }

  /** Past the check of the last step, persisting and the last tool lead to COMPLETED. */
  lemma PastLastCheckCompletes(cfg: Config, t: State)
    requires Inv(t) && MemOk(t) && AllSucceed(cfg) && !BeforeLastCheck(t) && t.disk.status != Completed
    ensures CanComplete(cfg, t)
  {
    match t.task.worker {
      case PersistRead(next) =>
        if next.ToReturn? {
          ReturnCompletes(cfg, t);
        } else {
          var u := Apply(cfg, t, WorkerRead).value;
          LastToolCompletes(cfg, Apply(cfg, u, WorkerWrite).value);
          ReachNext(cfg, u, WorkerWrite, COMPLETION);
          ReachNext(cfg, t, WorkerRead, COMPLETION);
        }
      case PersistWrite(rec, next) =>
        var u := Apply(cfg, t, WorkerWrite).value;
        if next.ToReturn? {
          ReachNow(cfg, u, COMPLETION);
        } else {
          LastToolCompletes(cfg, u);
        }
        ReachNext(cfg, t, WorkerWrite, COMPLETION);
      case Tool(_) => LastToolCompletes(cfg, t);
      case Returned =>
        var v := t.(loop := Idle);
        ReachNow(cfg, Apply(cfg, v, FinalSave).value, COMPLETION);
        ReachNext(cfg, v, FinalSave, COMPLETION);
        ReachWhenIdle(cfg, t, COMPLETION);
    }
  }

  /** Exactly when a cancellation that has been written can still be lost: for
      tools that all succeed, a continuation completes the run if and only if
      the write fell between the read and the write of a persist that saw no
      flag, or came after the check before the last step. */
  lemma CancelledRunCanCompleteIff(cfg: Config, acts: seq<Action>, rec: Rec)
    requires AllSucceed(cfg) && Run(cfg, INIT, acts).Some? && rec in Run(cfg, INIT, acts).value.pending
    ensures var s := Run(cfg, INIT, acts).value;
            var t := Apply(cfg, s, CancelWrite(rec)).value;
            CanComplete(cfg, t) <==> InPersistWindow(s) || !BeforeLastCheck(t)
  {
    var s := Run(cfg, INIT, acts).value;
    var t := Apply(cfg, s, CancelWrite(rec)).value;
    RunKeepsInv(cfg, INIT, acts);
    RunKeepsMemOk(cfg, INIT, acts);
    RunAgrees(cfg, INIT, acts);
    StepKeepsInv(cfg, s, CancelWrite(rec));
    StepKeepsMemOk(cfg, s, CancelWrite(rec));
    StepAgrees(cfg, s, CancelWrite(rec));
    if InPersistWindow(s) {
      WindowCompletes(cfg, t);
    } else if !BeforeLastCheck(t) {
      PastLastCheckCompletes(cfg, t);
    } else {
      NeverCompletes(cfg, t);
    }
  }

  lemma NeverCompletes(cfg: Config, t: State)
    requires Inv(t) && Flagged(t) && BeforeLastCheck(t)
    ensures !CanComplete(cfg, t)
  {
    forall acts | Run(cfg, t, acts).Some?
      ensures Run(cfg, t, acts).value.disk.status != Completed
    {
      CancelTakesEffect(cfg, t, acts);
    }
  }

  // ---- When a finished run's record stays terminal ----

  ghost predicate AllTerminal(s: State) {
    Terminal(s.disk.status) && forall r <- s.pending :: Terminal(r.status)
  }

  lemma {:induction false} TerminalForGood(cfg: Config, s: State, acts: seq<Action>)
    requires Inv(s) && Over(s) && AllTerminal(s) && Run(cfg, s, acts).Some?
    ensures Terminal(Run(cfg, s, acts).value.disk.status)
    decreases |acts|
  {
    if |acts| > 0 {
      var t := Apply(cfg, s, acts[0]).value;
      StepKeepsInv(cfg, s, acts[0]);
      OverStep(cfg, s, acts[0]);
      OverPending(cfg, s, acts[0]);
      TerminalForGood(cfg, t, acts[1..]);
    }
  }

  /** After the end only a new cancel read adds a pending write, made from the record then on disk. */
  lemma OverPending(cfg: Config, s: State, a: Action)
    requires Inv(s) && Over(s) && Apply(cfg, s, a).Some?
    ensures forall r <- Apply(cfg, s, a).value.pending :: r in s.pending || CancelRecord(s.disk) == Some(r)
  {
    match a
    case CancelRead =>
    case CancelWrite(_) =>
    case _ =>
  }

  /** At the final save it is decided: the record is terminal in every
      continuation if and only if every cancel write then pending carries a
      terminal status, that is, its thread had read QUEUED. */
  lemma FinalRecordStaysTerminalIff(cfg: Config, s: State)
    requires Inv(s) && Apply(cfg, s, FinalSave).Some?
    ensures var u := Apply(cfg, s, FinalSave).value;
            (forall acts | Run(cfg, u, acts).Some? :: Terminal(Run(cfg, u, acts).value.disk.status))
            <==> (forall r <- s.pending :: Terminal(r.status))
  {
    var u := Apply(cfg, s, FinalSave).value;
    StepKeepsInv(cfg, s, FinalSave);
    if r :| r in s.pending && !Terminal(r.status) {
      RunOne(cfg, u, CancelWrite(r));
      assert !Terminal(Run(cfg, u, [CancelWrite(r)]).value.disk.status);
    } else {
      forall acts | Run(cfg, u, acts).Some?
        ensures Terminal(Run(cfg, u, acts).value.disk.status)
      {
        TerminalForGood(cfg, u, acts);
      }
    }
  }

  /** A cancel request read while the first step runs. */
  const LATE := Rec(Scanning, true, 1)

  /** The first tool is running and a cancelling thread has read the record. */
  const SCANNING := State(Rec(Scanning, false, 1), Idle, true, InThread(Tool(1), Rec(Scanning, false, 1)), multiset{LATE}, 1, [], {})

  /** The queued record has been reported and the first check is next. */
  const CHECKING := State(Rec(Queued, false, 0), Idle, true, InThread(Check(1), Rec(Queued, false, 0)), multiset{}, 1, [], {})

  lemma CheckingFromLoaded(cfg: Config)
    ensures Run(cfg, LOADED, [WorkerRead, WorkerWrite]) == Some(CHECKING)
  {
    RunTwo(cfg, LOADED, WorkerRead, WorkerWrite);
  }

  /** The first check has passed and its report has merged no flag. */
  const REPORTING := State(Rec(Queued, false, 0), Idle, true, InThread(PersistWrite(Rec(Scanning, false, 1), ToTool(1)), Rec(Scanning, false, 1)), multiset{}, 1, [], {})

  lemma ReportingFromChecking(cfg: Config)
    requires AllSucceed(cfg)
    ensures Run(cfg, CHECKING, [WorkerCheck, WorkerRead]) == Some(REPORTING)
  {
    assert ToolOf(1) in cfg.registered;
    RunTwo(cfg, CHECKING, WorkerCheck, WorkerRead);
  }

  lemma ScanningFromReporting(cfg: Config)
    ensures Run(cfg, REPORTING, [WorkerWrite, CancelRead]) == Some(SCANNING)
  {
    var t := Apply(cfg, REPORTING, WorkerWrite).value;
    assert t.disk == Rec(Scanning, false, 1) && CancelRecord(t.disk) == Some(LATE);
    assert t.pending + multiset{LATE} == multiset{LATE};
    RunTwo(cfg, REPORTING, WorkerWrite, CancelRead);
  }

  lemma ScanningIsReachable(cfg: Config) returns (acts: seq<Action>)
    requires AllSucceed(cfg)
    ensures Run(cfg, INIT, acts) == Some(SCANNING)
  {
    var load := LoadedIsReachable(cfg);
    var queued, check, scan := [WorkerRead, WorkerWrite], [WorkerCheck, WorkerRead], [WorkerWrite, CancelRead];
    CheckingFromLoaded(cfg);
    ReportingFromChecking(cfg);
    ScanningFromReporting(cfg);
    RunAppend(cfg, INIT, load, queued);
    RunAppend(cfg, INIT, load + queued, check);
    RunAppend(cfg, INIT, load + queued + check, scan);
    acts := load + queued + check + scan;
  }

  lemma ScanningCompletes(cfg: Config) returns (acts: seq<Action>)
    requires AllSucceed(cfg)
    ensures Run(cfg, SCANNING, acts).Some? && Over(Run(cfg, SCANNING, acts).value)
    ensures Run(cfg, SCANNING, acts).value.disk.status == Completed
    ensures Run(cfg, SCANNING, acts).value.pending == multiset{LATE}
  {
    var rest := RunsToCompletion(cfg, Apply(cfg, SCANNING, WorkerTool).value, 2);
    RunOne(cfg, SCANNING, WorkerTool);
    RunAppend(cfg, SCANNING, [WorkerTool], rest);
    acts := [WorkerTool] + rest;
  }

  /** A finished run can be stranded: a cancel request read at SCANNING and
      written after the run has completed puts SCANNING back, and no continuation
      ever changes the status again. */
  lemma LateCancelStrandsRun(cfg: Config) returns (acts: seq<Action>)
    requires AllSucceed(cfg)
    ensures Run(cfg, INIT, acts).Some? && Over(Run(cfg, INIT, acts).value)
    ensures Run(cfg, INIT, acts).value.disk == LATE
    ensures forall more | Run(cfg, Run(cfg, INIT, acts).value, more).Some? ::
              Run(cfg, Run(cfg, INIT, acts).value, more).value.disk.status == Scanning
  {
    var scan := ScanningIsReachable(cfg);
    var rest := ScanningCompletes(cfg);
    RunAppend(cfg, INIT, scan, rest);
    var done := scan + rest;
    RunOne(cfg, Run(cfg, INIT, done).value, CancelWrite(LATE));
    RunAppend(cfg, INIT, done, [CancelWrite(LATE)]);
    acts := done + [CancelWrite(LATE)];
    RunKeepsInv(cfg, INIT, acts);
    var v := Run(cfg, INIT, acts).value;
    assert v.pending == multiset{};
    forall more | Run(cfg, v, more).Some?
      ensures Run(cfg, v, more).value.disk.status == Scanning
    {
      Stranded(cfg, v, more);
    }
  }

  lemma {:induction false} Stranded(cfg: Config, s: State, acts: seq<Action>)
    requires Inv(s) && Over(s) && s.disk.status == Scanning && (forall r <- s.pending :: r.status == Scanning)
    requires Run(cfg, s, acts).Some?
    ensures Run(cfg, s, acts).value.disk.status == Scanning
    decreases |acts|
  {
    if |acts| > 0 {
      StepKeepsInv(cfg, s, acts[0]);
      OverStep(cfg, s, acts[0]);
      OverPending(cfg, s, acts[0]);
      Stranded(cfg, Apply(cfg, s, acts[0]).value, acts[1..]);
    }
  }
}
