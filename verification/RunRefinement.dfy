/** The interleaved worker refines the sequential runner. */
module RunRefinement {
  import opened RunModel
  import opened RunProtocol
  import opened Wrappers
  import Runner

  /** What the sequential runner is given: the cancel checks answer as they did here. */
  function EnvOf(cfg: Config, stopped: set<nat>): Runner.Env {
    Runner.Env(cfg.registered, cfg.raises, stopped)
  }

  /** The sequential runner's fate at a step. */
  function Fate(cfg: Config, stopped: set<nat>, step: nat): Runner.Fate {
    Runner.FateOf(EnvOf(cfg, stopped), cfg.maxSteps, false, step)
  }

  predicate Proceeds(cfg: Config, stopped: set<nat>, n: nat) {
    Runner.Proceeds(EnvOf(cfg, stopped), cfg.maxSteps, false, n)
  }

  const QUEUED_STATE := Runner.RunState(Queued, 0, 8, false, false, [])

  /** The record the sequential runner returns. */
  function RunnersRecord(cfg: Config, stopped: set<nat>): Rec {
    var final := Runner.FinalState(QUEUED_STATE, cfg.maxSteps, Runner.EndingOf(EnvOf(cfg, stopped), cfg.maxSteps, false));
    Rec(final.status, final.cancelRequested, final.currentStep)
  }

  predicate NextAgrees(cfg: Config, s: State, next: Next)
    requires s.task.InThread?
  {
    match next
    case ToCheck(_) => s.task.mem == Rec(Queued, false, 0) && s.stopped == {}
    case ToTool(step) =>
      && step >= 1 && s.stopped == {} && !s.task.mem.cancel && s.task.mem.step == step
      && Proceeds(cfg, s.stopped, step - 1) && Fate(cfg, s.stopped, step) in {Runner.Proceed, Runner.Raise}
    case ToReturn => s.task.mem == RunnersRecord(cfg, s.stopped)
  }

  /** The worker has done what the sequential runner does on the answers its checks got. */
  predicate Agrees(cfg: Config, s: State) {
    && (s.task.NoTask? || s.task.Created? ==> s.stopped == {} && (s.disk.status == Queued ==> s.disk == Rec(Queued, false, 0)))
    && (s.task.InThread? ==>
          match s.task.worker
          case Begin => s.stopped == {} && (s.task.mem.status == Queued ==> s.task.mem == Rec(Queued, false, 0))
          case PersistRead(next) => NextAgrees(cfg, s, next)
          case PersistWrite(_, next) => NextAgrees(cfg, s, next)
          case Check(step) =>
            step >= 1 && s.stopped == {} && !s.task.mem.cancel && Proceeds(cfg, s.stopped, step - 1)
          case Tool(step) => NextAgrees(cfg, s, ToTool(step))
          case Returned => NextAgrees(cfg, s, ToReturn)
          case Raised => true)
  }

  lemma EndsAt(cfg: Config, stopped: set<nat>, n: nat)
    requires n <= STEPS && Proceeds(cfg, stopped, n)
    requires n < STEPS ==> Fate(cfg, stopped, n + 1) != Runner.Proceed
    ensures Runner.EndingOf(EnvOf(cfg, stopped), cfg.maxSteps, false)
         == Runner.Ending(n, if n == STEPS then Runner.Proceed else Fate(cfg, stopped, n + 1))
  {
    Runner.EndingIs(EnvOf(cfg, stopped), cfg.maxSteps, false,
                    Runner.Ending(n, if n == STEPS then Runner.Proceed else Fate(cfg, stopped, n + 1)));
  }

  lemma {:induction false} CheckAgrees(cfg: Config, s: State)
    requires Inv(s) && Agrees(cfg, s) && s.task.InThread? && s.task.worker.Check?
    ensures Agrees(cfg, ApplyCheck(cfg, s, s.task.worker.step))
  {
    var step := s.task.worker.step;
    var t := ApplyCheck(cfg, s, step);
    StillProceeds(cfg, step);
    assert t.stopped == {} || t.stopped == {step};
    if t.task.worker == PersistRead(ToReturn) {
      EndsAt(cfg, t.stopped, step - 1);
    }
  }

  /** A yes at one check leaves the earlier steps as they were. */
  lemma StillProceeds(cfg: Config, step: nat)
    requires step >= 1 && Proceeds(cfg, {}, step - 1)
    ensures Proceeds(cfg, {step}, step - 1)
  {
    forall k | 1 <= k <= step - 1
      ensures Runner.FateOf(EnvOf(cfg, {step}), cfg.maxSteps, false, k) == Runner.Proceed
    {
      assert Runner.FateOf(EnvOf(cfg, {}), cfg.maxSteps, false, k) == Runner.Proceed;
    }
  }

  lemma {:induction false} ToolAgrees(cfg: Config, s: State)
    requires Inv(s) && Agrees(cfg, s) && s.task.InThread? && s.task.worker.Tool?
    ensures Agrees(cfg, ApplyTool(cfg, s, s.task.worker.step))
  {
    var step := s.task.worker.step;
    if step in cfg.raises {
      EndsAt(cfg, s.stopped, step - 1);
    } else if step == STEPS {
      EndsAt(cfg, s.stopped, step);
    }
  }

  lemma {:induction false} WorkerAgrees(cfg: Config, s: State, a: Action)
    requires Inv(s) && Agrees(cfg, s) && s.task.InThread? && ApplyWorker(cfg, s, a).Some?
    ensures Agrees(cfg, ApplyWorker(cfg, s, a).value)
  {
    match a
    case WorkerCheck => CheckAgrees(cfg, s);
    case WorkerTool => ToolAgrees(cfg, s);
    case _ =>
  }

  lemma {:induction false} LoopAgrees(cfg: Config, s: State, a: Action)
    requires Inv(s) && Agrees(cfg, s) && ApplyLoop(s, a).Some?
    ensures Agrees(cfg, ApplyLoop(s, a).value)
  {
  }

  lemma {:induction false} CancelAgrees(cfg: Config, s: State, a: Action)
    requires Inv(s) && Agrees(cfg, s) && ApplyCancel(s, a).Some?
    ensures Agrees(cfg, ApplyCancel(s, a).value)
  {
    if a.CancelWrite? {
      assert a.rec in s.pending;
    }
  }

  lemma {:induction false} StepAgrees(cfg: Config, s: State, a: Action)
    requires Inv(s) && Agrees(cfg, s) && Apply(cfg, s, a).Some?
    ensures Agrees(cfg, Apply(cfg, s, a).value)
  {
    match a
    case CancelRead => CancelAgrees(cfg, s, a);
    case CancelWrite(_) => CancelAgrees(cfg, s, a);
    case DispatchRead => LoopAgrees(cfg, s, a);
    case DispatchDecide => LoopAgrees(cfg, s, a);
    case BackgroundStart => LoopAgrees(cfg, s, a);
    case FinalSave => LoopAgrees(cfg, s, a);
    case TaskFails => LoopAgrees(cfg, s, a);
    case Cleanup => LoopAgrees(cfg, s, a);
    case _ => WorkerAgrees(cfg, s, a);
  }

  lemma {:induction false} RunAgrees(cfg: Config, s: State, acts: seq<Action>)
    requires Inv(s) && Agrees(cfg, s) && Run(cfg, s, acts).Some?
    ensures Agrees(cfg, Run(cfg, s, acts).value)
    decreases |acts|
  {
    if acts != [] {
      StepKeepsInv(cfg, s, acts[0]);
      StepAgrees(cfg, s, acts[0]);
      RunAgrees(cfg, Apply(cfg, s, acts[0]).value, acts[1..]);
    }
  }

  /** Under every interleaving, the record the final save writes is the one the
      sequential runner returns when its cancel checks get the same answers. */
  lemma {:induction false} FinalSaveRefinesRunner(cfg: Config, acts: seq<Action>)
    requires Run(cfg, INIT, acts).Some? && Apply(cfg, Run(cfg, INIT, acts).value, FinalSave).Some?
    ensures var s := Run(cfg, INIT, acts).value;
            Apply(cfg, s, FinalSave).value.disk == RunnersRecord(cfg, s.stopped)
  {
    RunAgrees(cfg, INIT, acts);
  }
}
