/** What a written cancellation does to a run, and what the record of a finished run can still become. */
module RunCancellation {
  import opened RunModel
  import opened RunProtocol
  import opened Wrappers

  /** The worker has merged the flag for its next write before the cancel was written. */
  predicate InPersistWindow(s: State) {
    s.task.InThread? && s.task.worker.PersistWrite? && !s.task.worker.rec.cancel
  }

  /** The flag is on disk and the worker is not about to overwrite it. */
  predicate Flagged(s: State) {
    s.disk.cancel && !InPersistWindow(s)
  }

  predicate Over(s: State) {
    s.task.Finished? || s.task.Cleaned?
  }

  /** A tool whose cancel check has already passed. */
  function Committed(s: State): nat {
    if !s.task.InThread? then 0
    else match s.task.worker
      case PersistRead(ToTool(_)) => 1
      case PersistWrite(_, ToTool(_)) => 1
      case Tool(_) => 1
      case _ => 0
  }

  /** The cancel check before the last step is still to come, or the run has ended in another way. */
  predicate BeforeLastCheck(s: State) {
    && s.disk.status != Completed
    && (s.task.InThread? ==>
          s.task.mem.status != Completed &&
          match s.task.worker
          case PersistRead(ToTool(step)) => step < STEPS
          case PersistWrite(rec, ToTool(step)) => rec.status != Completed && step < STEPS
          case PersistWrite(rec, _) => rec.status != Completed
          case Tool(step) => step < STEPS
          case _ => true)
  }

  /** Once the flag is safe on disk, every step but the final save keeps it, a
      check ends the run, and a run not yet past its last check cannot complete. */
  lemma {:induction false} FlaggedStep(cfg: Config, s: State, a: Action)
    requires Inv(s) && Apply(cfg, s, a).Some?
    requires Flagged(s) || Over(s)
    ensures var t := Apply(cfg, s, a).value;
            FlagKept(s, t) && (Flagged(s) && a != FinalSave ==> Flagged(t))
  {
    match a
    case CancelRead => FlaggedCancelStep(s, a);
    case CancelWrite(_) => FlaggedCancelStep(s, a);
    case DispatchRead => FlaggedLoopStep(s, a);
    case DispatchDecide => FlaggedLoopStep(s, a);
    case BackgroundStart => FlaggedLoopStep(s, a);
    case FinalSave => FlaggedLoopStep(s, a);
    case TaskFails => FlaggedLoopStep(s, a);
    case Cleanup => FlaggedLoopStep(s, a);
    case _ => FlaggedWorkerStep(cfg, s, a);
  }

  /** What a step after a safe flag keeps. */
  ghost predicate FlagKept(s: State, t: State) {
    && (Flagged(t) || Over(t))
    && |t.tools| + Committed(t) <= |s.tools| + Committed(s)
    && (BeforeLastCheck(s) ==> BeforeLastCheck(t))
  }

  lemma {:induction false} FlaggedLoopStep(s: State, a: Action)
    requires Inv(s) && (Flagged(s) || Over(s)) && ApplyLoop(s, a).Some?
    ensures FlagKept(s, ApplyLoop(s, a).value)
    ensures Flagged(s) && a != FinalSave ==> Flagged(ApplyLoop(s, a).value)
  {
  }

  lemma {:induction false} FlaggedCancelStep(s: State, a: Action)
    requires Inv(s) && (Flagged(s) || Over(s)) && ApplyCancel(s, a).Some?
    ensures FlagKept(s, ApplyCancel(s, a).value)
    ensures Flagged(s) ==> Flagged(ApplyCancel(s, a).value)
  {
    if a.CancelWrite? {
      assert a.rec in s.pending;
    }
  }

  lemma {:induction false} FlaggedWorkerStep(cfg: Config, s: State, a: Action)
    requires Inv(s) && Flagged(s) && s.task.InThread? && ApplyWorker(cfg, s, a).Some?
    ensures var t := ApplyWorker(cfg, s, a).value;
            Flagged(t) && FlagKept(s, t)
  {
    match a
    case WorkerCheck =>
    case WorkerTool =>
    case _ =>
  }

  /** After a cancel write that the worker is not about to overwrite, for every
      continuation: the flag stays on disk until the final save, only a tool
      whose check had already passed is still invoked, and a run that had not
      passed the check before its last step never becomes COMPLETED. */
  lemma {:induction false} CancelTakesEffect(cfg: Config, s: State, acts: seq<Action>)
    requires Inv(s) && Run(cfg, s, acts).Some?
    requires Flagged(s) || Over(s)
    ensures var t := Run(cfg, s, acts).value;
            && (Flagged(s) && FinalSave !in acts ==> t.disk.cancel)
            && |t.tools| <= |s.tools| + Committed(s)
            && (BeforeLastCheck(s) ==> t.disk.status != Completed)
    decreases |acts|
  {
    if acts != [] {
      FlaggedStep(cfg, s, acts[0]);
      StepKeepsInv(cfg, s, acts[0]);
      CancelTakesEffect(cfg, Apply(cfg, s, acts[0]).value, acts[1..]);
      assert FinalSave !in acts ==> acts[0] != FinalSave && FinalSave !in acts[1..];
    }
  }

  /** A cancel write survives every continuation up to the final save if and only
      if it does not land between the read and the write of a persist that read no flag. */
  lemma {:induction false} FlagSurvivesIff(cfg: Config, s: State, rec: Rec)
    requires Inv(s) && rec in s.pending
    ensures var t := Apply(cfg, s, CancelWrite(rec)).value;
            (forall acts | FinalSave !in acts && Run(cfg, t, acts).Some? :: Run(cfg, t, acts).value.disk.cancel)
            <==> !InPersistWindow(s)
  {
    var t := Apply(cfg, s, CancelWrite(rec)).value;
    StepKeepsInv(cfg, s, CancelWrite(rec));
    assert t.disk.cancel;
    if InPersistWindow(s) {
      RunOne(cfg, t, WorkerWrite);
      assert FinalSave !in [WorkerWrite] && !Run(cfg, t, [WorkerWrite]).value.disk.cancel;
    } else {
      forall acts | FinalSave !in acts && Run(cfg, t, acts).Some?
        ensures Run(cfg, t, acts).value.disk.cancel
      {
        CancelTakesEffect(cfg, t, acts);
      }
    }
  }

  /** The only steps that take a flag off the disk: a persist whose read came
      before the flag, and the final save of a run that never saw it. */
  lemma {:induction false} FlagClearedIff(cfg: Config, s: State, a: Action)
    requires Inv(s) && Apply(cfg, s, a).Some? && s.disk.cancel
    ensures !Apply(cfg, s, a).value.disk.cancel <==>
            (a == WorkerWrite && InPersistWindow(s)) || (a == FinalSave && !s.task.mem.cancel)
  {
    match a
    case CancelRead =>
    case CancelWrite(rec) => assert rec in s.pending;
    case WorkerCheck =>
    case WorkerTool =>
    case _ =>
  }

  // ---- After the final save ----

  /** The record the last cancel write of a run leaves, if there is one. */
  function LastCancelWrite(acts: seq<Action>, default: Rec): Rec {
    if acts == [] then default
    else if acts[0].CancelWrite? then LastCancelWrite(acts[1..], acts[0].rec)
    else LastCancelWrite(acts[1..], default)
  }

  /** Once the task has ended, nothing but a late cancel write changes the
      record: it is what the final save wrote unless a cancelling thread that
      had read earlier overwrites it, and no tool runs again. */
  lemma {:induction false} OnlyLateCancelsAfterwards(cfg: Config, s: State, acts: seq<Action>)
    requires Inv(s) && Over(s) && Run(cfg, s, acts).Some?
    ensures var t := Run(cfg, s, acts).value;
            Over(t) && t.tools == s.tools && t.disk == LastCancelWrite(acts, s.disk)
    decreases |acts|
  {
    if acts != [] {
      StepKeepsInv(cfg, s, acts[0]);
      OverStep(cfg, s, acts[0]);
      OnlyLateCancelsAfterwards(cfg, Apply(cfg, s, acts[0]).value, acts[1..]);
    }
  }

  lemma {:induction false} OverStep(cfg: Config, s: State, a: Action)
    requires Inv(s) && Over(s) && Apply(cfg, s, a).Some?
    ensures var t := Apply(cfg, s, a).value;
            Over(t) && t.tools == s.tools && t.disk == if a.CancelWrite? then a.rec else s.disk
  {
    match a
    case CancelRead =>
    case CancelWrite(_) =>
    case _ =>
  }

  lemma {:induction false} NoCancelWrite(acts: seq<Action>, default: Rec)
    ensures (forall a <- acts :: !a.CancelWrite?) ==> LastCancelWrite(acts, default) == default
  {
    if |acts| > 0 && !acts[0].CancelWrite? {
      NoCancelWrite(acts[1..], default);
    }
  }

  /** Without late cancel writes the record stays the runner's own, which is terminal. */
  lemma {:induction false} OwnRecordStays(cfg: Config, s: State, acts: seq<Action>)
    requires Inv(s) && Apply(cfg, s, FinalSave).Some?
    requires Run(cfg, Apply(cfg, s, FinalSave).value, acts).Some? && forall a <- acts :: !a.CancelWrite?
    ensures Run(cfg, Apply(cfg, s, FinalSave).value, acts).value.disk == s.task.mem && Terminal(s.task.mem.status)
  {
    var u := Apply(cfg, s, FinalSave).value;
    StepKeepsInv(cfg, s, FinalSave);
    OnlyLateCancelsAfterwards(cfg, u, acts);
    NoCancelWrite(acts, u.disk);
  }
}
