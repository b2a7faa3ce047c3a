/** What a request does to a run: a cancel request takes effect, a dispatch starts
    the pipeline, and a started run can always be brought to its end. */
module RunRequests {
  import opened RunCancellation
  import opened RunModel
  import opened RunProtocol
  import opened Wrappers

  // ---- Every cancel request of an unfinished run is written ----

  /** The record a cancel request leaves: a run not yet started is CANCELLED at
      once, any other keeps its status and step and carries the flag. */
  predicate CancelledFrom(seen: Rec, t: Rec) {
    t.cancel && t.step == seen.step && t.status == if seen.status == Queued then Cancelled else seen.status
  }

  /** Reading an unfinished record leaves exactly one write to be done, and doing it leaves exactly that record. */
  lemma CancelIsWritten(cfg: Config, s: State) returns (rec: Rec)
    requires s.disk.status !in {Completed, Failed, Cancelled}
    ensures CancelledFrom(s.disk, rec)
    ensures Apply(cfg, s, CancelRead) == Some(s.(pending := s.pending + multiset{rec}))
    ensures Run(cfg, s, [CancelRead, CancelWrite(rec)]) == Some(s.(disk := rec))
  {
    rec := Rec(if s.disk.status == Queued then Cancelled else s.disk.status, true, s.disk.step);
    var t := Apply(cfg, s, CancelRead).value;
    RunTwo(cfg, s, CancelRead, CancelWrite(rec));
    assert s.pending + multiset{rec} - multiset{rec} == s.pending;
  }

  /** In every reachable state whose record is not terminal, a cancel request
      writes its record; outside the persist window and before the last check it
      keeps the run from ever ending COMPLETED. */
  lemma CancelRequestTakesEffect(cfg: Config, acts: seq<Action>) returns (rec: Rec)
    requires Run(cfg, INIT, acts).Some? && Run(cfg, INIT, acts).value.disk.status !in {Completed, Failed, Cancelled}
    ensures var s := Run(cfg, INIT, acts).value;
            var t := s.(disk := rec);
            && CancelledFrom(s.disk, rec)
            && Run(cfg, s, [CancelRead, CancelWrite(rec)]) == Some(t)
            && (!InPersistWindow(s) && BeforeLastCheck(t) ==>
                  forall more | Run(cfg, t, more).Some? :: Run(cfg, t, more).value.disk.status != Completed)
  {
    var s := Run(cfg, INIT, acts).value;
    rec := CancelIsWritten(cfg, s);
    var t := s.(disk := rec);
    RunKeepsInv(cfg, INIT, acts);
    RunKeepsInv(cfg, s, [CancelRead, CancelWrite(rec)]);
    if !InPersistWindow(s) && BeforeLastCheck(t) {
      forall more | Run(cfg, t, more).Some?
        ensures Run(cfg, t, more).value.disk.status != Completed
      {
        CancelTakesEffect(cfg, t, more);
      }
    }
  }

  /** A cancel request of a finished run is refused and changes nothing. */
  lemma CancelOfFinishedRunIsRefused(cfg: Config, s: State)
    ensures Apply(cfg, s, CancelRead) == Some(s) <==> s.disk.status in {Completed, Failed, Cancelled}
  {
    if s.disk.status !in {Completed, Failed, Cancelled} {
      var rec := CancelIsWritten(cfg, s);
      assert (s.pending + multiset{rec})[rec] == s.pending[rec] + 1;
    }
  }

  // ---- A queued run can be started, and a started run can be finished ----

  /** A dispatch starts the pipeline if the record is QUEUED and the run is not
      in the table of running tasks; otherwise it changes nothing. */
  lemma DispatchStartsIff(cfg: Config, s: State)
    requires s.loop == Idle
    ensures Run(cfg, s, [DispatchRead, DispatchDecide])
         == Some(if s.disk.status == Queued && !s.running then s.(running := true, task := Created, starts := s.starts + 1) else s)
  {
    RunTwo(cfg, s, DispatchRead, DispatchDecide);
  }

  /** An upper bound on the steps from a program point to the end of the worker. */
  function PointLeft(next: Next): int {
    match next
    case ToCheck(step) => 5 * (STEPS - step) + 9
    case ToTool(step) => 5 * (STEPS - step) + 5
    case ToReturn => 0
  }

  function WorkerLeft(w: Worker): int {
    match w
    case Begin => 5 * STEPS + 10
    case PersistRead(next) => PointLeft(next) + 2
    case PersistWrite(_, next) => PointLeft(next) + 1
    case Check(step) => PointLeft(ToCheck(step))
    case Tool(step) => PointLeft(ToTool(step))
    case Returned => 0
    case Raised => 0
  }

  function TaskLeft(task: Task): int {
    match task
    case NoTask => 0
    case Created => 5 * STEPS + 13
    case InThread(w, _) => WorkerLeft(w) + 2
    case Finished => 1
    case Cleaned => 0
  }

  /** The steps of the run's own task, neither a dispatch nor a cancel request. */
  predicate OwnStep(a: Action) {
    !a.DispatchRead? && !a.DispatchDecide? && !a.CancelRead? && !a.CancelWrite?
  }

  /** The step a task can take next. */
  function NextStep(task: Task): Action {
    match task
    case InThread(Begin, _) => WorkerBegin
    case InThread(PersistRead(_), _) => WorkerRead
    case InThread(PersistWrite(_, _), _) => WorkerWrite
    case InThread(Check(_), _) => WorkerCheck
    case InThread(Tool(_), _) => WorkerTool
    case InThread(Returned, _) => FinalSave
    case InThread(Raised, _) => TaskFails
    case Finished => Cleanup
    case _ => BackgroundStart
  }

  lemma CheckUsesUp(cfg: Config, s: State, step: nat)
    requires s.task.InThread? && 1 <= step <= STEPS
    ensures ApplyCheck(cfg, s, step).task.InThread? && ApplyCheck(cfg, s, step).loop == s.loop
    ensures 0 <= WorkerLeft(ApplyCheck(cfg, s, step).task.worker) < PointLeft(ToCheck(step))
  {
  }

  lemma ToolUsesUp(cfg: Config, s: State, step: nat)
    requires s.task.InThread? && 1 <= step <= STEPS
    ensures ApplyTool(cfg, s, step).task.InThread? && ApplyTool(cfg, s, step).loop == s.loop
    ensures 0 <= WorkerLeft(ApplyTool(cfg, s, step).task.worker) < PointLeft(ToTool(step))
  {
  }

  lemma WorkerStepIsPossible(cfg: Config, s: State)
    requires WorkerOk(s) && s.task.InThread? && !s.task.worker.Returned? && !s.task.worker.Raised?
    ensures var r := ApplyWorker(cfg, s, NextStep(s.task));
            && r.Some? && r.value.task.InThread? && r.value.loop == s.loop
            && 0 <= WorkerLeft(r.value.task.worker) < WorkerLeft(s.task.worker)
  {
    match s.task.worker
    case Check(step) => CheckUsesUp(cfg, s, step);
    case Tool(step) => ToolUsesUp(cfg, s, step);
    case _ =>
  }

  lemma LoopStepIsPossible(s: State)
    requires s.loop == Idle
    requires s.task.Created? || s.task.Finished? || (s.task.InThread? && (s.task.worker.Returned? || s.task.worker.Raised?))
    ensures var r := ApplyLoop(s, NextStep(s.task));
            r.Some? && r.value.loop == Idle && 0 <= TaskLeft(r.value.task) < TaskLeft(s.task)
  {
  }

  lemma NextStepIsPossible(cfg: Config, s: State)
    requires Inv(s) && s.running && s.loop == Idle
    ensures var a, r := NextStep(s.task), Apply(cfg, s, NextStep(s.task));
            OwnStep(a) && r.Some? && r.value.loop == Idle && 0 <= TaskLeft(r.value.task) < TaskLeft(s.task)
  {
    if s.task.InThread? && !s.task.worker.Returned? && !s.task.worker.Raised? {
      WorkerStepIsPossible(cfg, s);
    } else {
      LoopStepIsPossible(s);
    }
  }

  lemma {:induction false} Finishes(cfg: Config, s: State) returns (more: seq<Action>)
    requires Inv(s) && s.running && s.loop == Idle
    ensures (forall a <- more :: OwnStep(a)) && Run(cfg, s, more).Some?
    ensures var t := Run(cfg, s, more).value; t.task.Cleaned? && !t.running && t.disk.status != Queued
    decreases TaskLeft(s.task)
  {
    var a := NextStep(s.task);
    NextStepIsPossible(cfg, s);
    StepKeepsInv(cfg, s, a);
    var t := Apply(cfg, s, a).value;
    RunOne(cfg, s, a);
    more := [a];
    if t.running {
      var rest := Finishes(cfg, t);
      RunAppend(cfg, s, [a], rest);
      more := [a] + rest;
    }
  }

  /** Whatever has happened so far, a run in the table of running tasks can be
      brought to its end by its own steps alone: its task is cleaned up, the run
      leaves the table and its record is not QUEUED. */
  lemma StartedRunCanFinish(cfg: Config, acts: seq<Action>) returns (more: seq<Action>)
    requires Run(cfg, INIT, acts).Some?
    requires Run(cfg, INIT, acts).value.running && Run(cfg, INIT, acts).value.loop == Idle
    ensures (forall a <- more :: OwnStep(a)) && Run(cfg, INIT, acts + more).Some?
    ensures var t := Run(cfg, INIT, acts + more).value; t.task.Cleaned? && !t.running && t.disk.status != Queued
  {
    RunKeepsInv(cfg, INIT, acts);
    more := Finishes(cfg, Run(cfg, INIT, acts).value);
    RunAppend(cfg, INIT, acts, more);
  }
}
