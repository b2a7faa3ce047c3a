/** When a record that stands on disk as CANCELLED stays CANCELLED. */
module RunStability {
  import opened RunModel
  import opened RunOutcomes
  import opened RunProtocol
  import opened Wrappers

  const OTHERS := {Queued, Scanning, Indexing, Retrieving, Evaluating, Drafting, WaitingConfirmation, Completed, Failed}

  /** The worker, by its program counter, will write no other status over CANCELLED. */
  predicate WorkerLetsStay(cfg: Config, worker: Worker, mem: Rec) {
    match worker
    case Begin => mem.status != Queued
    case PersistRead(_) => mem.status == Cancelled
    case PersistWrite(_, _) => mem.status == Cancelled
    case Check(step) => step <= cfg.maxSteps
    case Tool(step) => step < STEPS && step < cfg.maxSteps && step !in cfg.raises
    case Returned => mem.status == Cancelled
    case Raised => true
  }

  /** Every pending write carries CANCELLED and so does whatever the worker still writes. */
  ghost predicate WillStay(cfg: Config, s: State) {
    && (forall r <- s.pending :: r.status == Cancelled)
    && (s.task.InThread? ==> WorkerLetsStay(cfg, s.task.worker, s.task.mem))
  }

  // ---- CANCELLED carries the flag ----

  predicate Flags(rec: Rec) {
    rec.status == Cancelled ==> rec.cancel
  }

  predicate CancelledIsFlagged(s: State) {
    && Flags(s.disk)
    && (s.task.InThread? ==> Flags(s.task.mem) && (s.task.worker.PersistWrite? ==> Flags(s.task.worker.rec)))
  }

  lemma {:induction false} StepKeepsFlags(cfg: Config, s: State, a: Action)
    requires Inv(s) && CancelledIsFlagged(s) && Apply(cfg, s, a).Some?
    ensures CancelledIsFlagged(Apply(cfg, s, a).value)
  {
    match a
    case CancelRead =>
    case CancelWrite(rec) => assert rec in s.pending;
    case WorkerCheck =>
    case WorkerTool =>
    case _ =>
  }

  lemma {:induction false} RunKeepsFlags(cfg: Config, s: State, acts: seq<Action>)
    requires Inv(s) && CancelledIsFlagged(s) && Run(cfg, s, acts).Some?
    ensures CancelledIsFlagged(Run(cfg, s, acts).value)
    decreases |acts|
  {
    if |acts| > 0 {
      StepKeepsInv(cfg, s, acts[0]);
      StepKeepsFlags(cfg, s, acts[0]);
      RunKeepsFlags(cfg, Apply(cfg, s, acts[0]).value, acts[1..]);
    }
  }

  // ---- It stays ----

  ghost predicate Staying(cfg: Config, s: State) {
    s.disk.status == Cancelled && WillStay(cfg, s)
  }

  lemma {:induction false} WorkerStays(cfg: Config, s: State, a: Action)
    requires Inv(s) && CancelledIsFlagged(s) && Staying(cfg, s) && s.task.InThread? && ApplyWorker(cfg, s, a).Some?
    ensures Staying(cfg, ApplyWorker(cfg, s, a).value)
  {
    match a
    case WorkerCheck =>
    case WorkerTool =>
    case _ =>
  }

  lemma {:induction false} LoopStays(cfg: Config, s: State, a: Action)
    requires Inv(s) && Staying(cfg, s) && ApplyLoop(s, a).Some?
    ensures Staying(cfg, ApplyLoop(s, a).value)
  {
  }

  lemma {:induction false} CancelStays(cfg: Config, s: State, a: Action)
    requires Staying(cfg, s) && ApplyCancel(s, a).Some?
    ensures Staying(cfg, ApplyCancel(s, a).value)
  {
    if a.CancelWrite? {
      assert a.rec in s.pending;
    }
  }

  lemma {:induction false} StepStays(cfg: Config, s: State, a: Action)
    requires Inv(s) && CancelledIsFlagged(s) && Staying(cfg, s) && Apply(cfg, s, a).Some?
    ensures Staying(cfg, Apply(cfg, s, a).value)
  {
    match a
    case CancelRead => CancelStays(cfg, s, a);
    case CancelWrite(_) => CancelStays(cfg, s, a);
    case DispatchRead => LoopStays(cfg, s, a);
    case DispatchDecide => LoopStays(cfg, s, a);
    case BackgroundStart => LoopStays(cfg, s, a);
    case FinalSave => LoopStays(cfg, s, a);
    case TaskFails => LoopStays(cfg, s, a);
    case Cleanup => LoopStays(cfg, s, a);
    case _ => WorkerStays(cfg, s, a);
  }

  lemma {:induction false} RunStays(cfg: Config, s: State, more: seq<Action>)
    requires Inv(s) && CancelledIsFlagged(s) && Staying(cfg, s) && Run(cfg, s, more).Some?
    ensures Run(cfg, s, more).value.disk.status == Cancelled
    decreases |more|
  {
    if |more| > 0 {
      StepKeepsInv(cfg, s, more[0]);
      StepKeepsFlags(cfg, s, more[0]);
      StepStays(cfg, s, more[0]);
      RunStays(cfg, Apply(cfg, s, more[0]).value, more[1..]);
    }
  }

  // ---- It can be overwritten ----

  /** A record about to be persisted reaches the disk. */
  lemma PersistReaches(cfg: Config, s: State)
    requires s.task.InThread? && s.task.worker.PersistRead? && s.task.mem.status in OTHERS
    ensures CanReach(cfg, s, OTHERS)
  {
    var t := Apply(cfg, s, WorkerRead).value;
    ReachNow(cfg, Apply(cfg, t, WorkerWrite).value, OTHERS);
    ReachNext(cfg, t, WorkerWrite, OTHERS);
    ReachNext(cfg, s, WorkerRead, OTHERS);
  }

  /** A check beyond the step limit fails the run, cancelled or not. */
  lemma LimitReaches(cfg: Config, s: State, k: nat)
    requires s.task.InThread? && s.task.worker == Check(k) && k >= 1 && k > cfg.maxSteps
    ensures CanReach(cfg, s, OTHERS)
  {
    PersistReaches(cfg, Apply(cfg, s, WorkerCheck).value);
    ReachNext(cfg, s, WorkerCheck, OTHERS);
  }

  /** So does a tool that raises, is the last one or is the last one the limit admits. */
  lemma ToolReaches(cfg: Config, s: State, k: nat)
    requires Inv(s) && s.task.InThread? && s.task.worker == Tool(k)
    requires k == STEPS || k >= cfg.maxSteps || k in cfg.raises
    ensures CanReach(cfg, s, OTHERS)
  {
    var t := Apply(cfg, s, WorkerTool).value;
    if k in cfg.raises || k == STEPS {
      PersistReaches(cfg, t);
    } else {
      LimitReaches(cfg, t, k + 1);
    }
    ReachNext(cfg, s, WorkerTool, OTHERS);
  }

  lemma BeginReaches(cfg: Config, s: State)
    requires s.task.InThread? && s.task.worker == Begin && s.task.mem.status == Queued
    ensures CanReach(cfg, s, OTHERS)
  {
    PersistReaches(cfg, Apply(cfg, s, WorkerBegin).value);
    ReachNext(cfg, s, WorkerBegin, OTHERS);
  }

  lemma ReturnedReaches(cfg: Config, s: State)
    requires Inv(s) && s.task.InThread? && s.task.worker == Returned && s.task.mem.status in OTHERS
    ensures CanReach(cfg, s, OTHERS)
  {
    var v := s.(loop := Idle);
    ReachNow(cfg, Apply(cfg, v, FinalSave).value, OTHERS);
    ReachNext(cfg, v, FinalSave, OTHERS);
    ReachWhenIdle(cfg, s, OTHERS);
  }

  lemma WorkerReaches(cfg: Config, s: State)
    requires Inv(s) && s.task.InThread? && !WorkerLetsStay(cfg, s.task.worker, s.task.mem)
    ensures CanReach(cfg, s, OTHERS)
  {
    match s.task.worker {
      case Begin => BeginReaches(cfg, s);
      case PersistRead(_) => PersistReaches(cfg, s);
      case PersistWrite(_, _) =>
        ReachNow(cfg, Apply(cfg, s, WorkerWrite).value, OTHERS);
        ReachNext(cfg, s, WorkerWrite, OTHERS);
      case Check(k) => LimitReaches(cfg, s, k);
      case Tool(k) => ToolReaches(cfg, s, k);
      case Returned => ReturnedReaches(cfg, s);
    }
  }

  lemma PendingReaches(cfg: Config, s: State, r: Rec)
    requires r in s.pending && r.status in OTHERS
    ensures CanReach(cfg, s, OTHERS)
  {
    ReachNow(cfg, Apply(cfg, s, CancelWrite(r)).value, OTHERS);
    ReachNext(cfg, s, CancelWrite(r), OTHERS);
  }

  lemma Overwritten(cfg: Config, s: State)
    requires Inv(s) && !WillStay(cfg, s)
    ensures CanReach(cfg, s, OTHERS)
  {
    if r :| r in s.pending && r.status != Cancelled {
      PendingReaches(cfg, s, r);
    } else {
      WorkerReaches(cfg, s);
    }
  }

  /** Every continuation leaves CANCELLED on disk. */
  ghost predicate StaysForGood(cfg: Config, s: State) {
    forall more | Run(cfg, s, more).Some? :: Run(cfg, s, more).value.disk.status == Cancelled
  }

  lemma ReachableBreaks(cfg: Config, s: State)
    requires CanReach(cfg, s, OTHERS)
    ensures !StaysForGood(cfg, s)
  {
    var more :| Run(cfg, s, more).Some? && Run(cfg, s, more).value.disk.status in OTHERS;
    assert Run(cfg, s, more).value.disk.status != Cancelled;
  }

  lemma Stays(cfg: Config, s: State)
    requires Inv(s) && CancelledIsFlagged(s) && Staying(cfg, s)
    ensures StaysForGood(cfg, s)
  {
    forall more | Run(cfg, s, more).Some?
      ensures Run(cfg, s, more).value.disk.status == Cancelled
    {
      RunStays(cfg, s, more);
    }
  }

  /** Exactly when CANCELLED is final. In every reachable state with CANCELLED on
      disk, for every step limit, registry and set of raising tools: every
      continuation leaves CANCELLED there if and only if every pending write
      carries CANCELLED and the worker, by where it stands, cannot write anything else. */
  lemma CancelledStaysIff(cfg: Config, acts: seq<Action>)
    requires Run(cfg, INIT, acts).Some? && Run(cfg, INIT, acts).value.disk.status == Cancelled
    ensures StaysForGood(cfg, Run(cfg, INIT, acts).value) <==> WillStay(cfg, Run(cfg, INIT, acts).value)
  {
    var s := Run(cfg, INIT, acts).value;
    RunKeepsInv(cfg, INIT, acts);
    RunKeepsFlags(cfg, INIT, acts);
    if WillStay(cfg, s) {
      Stays(cfg, s);
    } else {
      Overwritten(cfg, s);
      ReachableBreaks(cfg, s);
    }
  }
}
