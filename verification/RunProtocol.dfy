/** The life of one run record shared by three kinds of actor: the event loop
    (dispatch, background start, final save, cleanup), the worker thread (the
    runner with its persisting callback) and any number of cancelling threads.
    Every file read and every file replacement is a step of its own. */
module RunProtocol {
  import opened RunModel
  import opened Wrappers

  /** The run's step limit, its tool registry and the steps whose tools raise. */
  datatype Config = Config(maxSteps: nat, registered: set<string>, raises: set<nat>)

  predicate AllSucceed(cfg: Config) {
    cfg.maxSteps >= STEPS && forall k :: 1 <= k <= STEPS ==> ToolOf(k) in cfg.registered && k !in cfg.raises
  }

  /** The part of the JSON record the protocol depends on. */
  datatype Rec = Rec(status: Status, cancel: bool, step: nat)

  /** Where the worker continues once its record is on disk. */
  datatype Next = ToCheck(step: nat) | ToTool(step: nat) | ToReturn

  /** The worker's program counter. Persisting is a read, a merge of the cancel flag and a write. */
  datatype Worker =
    | Begin
    | PersistRead(next: Next)
    | PersistWrite(rec: Rec, next: Next)
    | Check(step: nat)
    | Tool(step: nat)
    | Returned
    | Raised

  datatype Task = NoTask | Created | InThread(worker: Worker, mem: Rec) | Finished | Cleaned

  /** A dispatch reads the file and then decides, without yielding the event loop. */
  datatype Loop = Idle | Dispatching(seen: Status)

  /** `running` is membership in the table of running tasks; `pending` holds the
      writes of cancelling threads that have read but not yet written. `starts`
      counts created tasks, `tools` lists the steps whose tools were invoked and
      `stopped` holds the steps whose cancel check answered yes. */
  datatype State = State(disk: Rec, loop: Loop, running: bool, task: Task, pending: multiset<Rec>,
                         starts: nat, tools: seq<nat>, stopped: set<nat>)

  const INIT := State(Rec(Queued, false, 0), Idle, false, NoTask, multiset{}, 0, [], {})

  datatype Action =
    | DispatchRead | DispatchDecide | BackgroundStart | FinalSave | TaskFails | Cleanup
    | WorkerBegin | WorkerRead | WorkerWrite | WorkerCheck | WorkerTool
    | CancelRead | CancelWrite(rec: Rec)

  /** The event loop runs one action at a time: none but the decision may follow a dispatch's read. */
  function ApplyLoop(s: State, a: Action): Option<State> {
    match (a, s.loop)
    case (DispatchRead, Idle) => Some(s.(loop := Dispatching(s.disk.status)))
    case (DispatchDecide, Dispatching(seen)) =>
      if seen != Queued || s.running then Some(s.(loop := Idle))
      else Some(s.(loop := Idle, running := true, task := Created, starts := s.starts + 1))
    case (BackgroundStart, Idle) =>
      if s.task.Created? then Some(s.(task := InThread(Begin, s.disk))) else None
    case (FinalSave, Idle) =>
      if s.task.InThread? && s.task.worker.Returned? then Some(s.(disk := s.task.mem, task := Finished)) else None
    case (TaskFails, Idle) =>
      if s.task.InThread? && s.task.worker.Raised? then Some(s.(task := Finished)) else None
    case (Cleanup, Idle) =>
      if s.task.Finished? then Some(s.(task := Cleaned, running := false)) else None
    case _ => None
  }

  function Go(s: State, w: Worker, mem: Rec): State
    requires s.task.InThread?
  {
    s.(task := InThread(w, mem))
  }

  function Continue(next: Next): Worker {
    match next
    case ToCheck(step) => Check(step)
    case ToTool(step) => Tool(step)
    case ToReturn => Returned
  }

  /** The cancel check of a step reads the file unless the flag is already in memory. */
  function ApplyCheck(cfg: Config, s: State, step: nat): State
    requires s.task.InThread? && step >= 1
  {
    var mem := s.task.mem;
    if step > cfg.maxSteps then Go(s, PersistRead(ToReturn), mem.(status := Failed, step := step - 1))
    else if mem.cancel || s.disk.cancel then
      Go(s, PersistRead(ToReturn), mem.(status := Cancelled, cancel := true, step := step - 1)).(stopped := s.stopped + {step})
    else if ToolOf(step) !in cfg.registered then
      Go(s, PersistRead(ToReturn), mem.(status := Failed, step := step - 1))
    else Go(s, PersistRead(ToTool(step)), mem.(status := StatusOf(step), step := step))
  }

  function ApplyTool(cfg: Config, s: State, step: nat): State
    requires s.task.InThread?
  {
    var mem, called := s.task.mem, s.(tools := s.tools + [step]);
    if step in cfg.raises then Go(called, PersistRead(ToReturn), mem.(status := Failed))
    else if step < STEPS then Go(called, Check(step + 1), mem)
    else Go(called, PersistRead(ToReturn), mem.(status := Completed, step := STEPS))
  }

  function ApplyWorker(cfg: Config, s: State, a: Action): Option<State>
    requires s.task.InThread?
  {
    var mem := s.task.mem;
    match (a, s.task.worker)
    case (WorkerBegin, Begin) => Some(Go(s, if mem.status == Queued then PersistRead(ToCheck(1)) else Raised, mem))
    case (WorkerRead, PersistRead(next)) =>
      Some(Go(s, PersistWrite(mem.(cancel := mem.cancel || s.disk.cancel), next), mem))
    case (WorkerWrite, PersistWrite(rec, next)) => Some(Go(s, Continue(next), mem).(disk := rec))
    case (WorkerCheck, Check(step)) =>
      if step >= 1 then Some(ApplyCheck(cfg, s, step)) else None
    case (WorkerTool, Tool(step)) => Some(ApplyTool(cfg, s, step))
    case _ => None
  }

  /** What a cancelling thread will write, given what it read; none for a terminal record. */
  function CancelRecord(seen: Rec): Option<Rec> {
    if Terminal(seen.status) then None
    else if seen.status == Queued then Some(seen.(status := Cancelled, cancel := true))
    else Some(seen.(cancel := true))
  }

  function ApplyCancel(s: State, a: Action): Option<State> {
    match a
    case CancelRead =>
      var w := CancelRecord(s.disk);
      Some(if w.None? then s else s.(pending := s.pending + multiset{w.value}))
    case CancelWrite(rec) =>
      if rec in s.pending then Some(s.(disk := rec, pending := s.pending - multiset{rec})) else None
    case _ => None
  }

  function Apply(cfg: Config, s: State, a: Action): Option<State> {
    match a
    case CancelRead => ApplyCancel(s, a)
    case CancelWrite(_) => ApplyCancel(s, a)
    case DispatchRead => ApplyLoop(s, a)
    case DispatchDecide => ApplyLoop(s, a)
    case BackgroundStart => ApplyLoop(s, a)
    case FinalSave => ApplyLoop(s, a)
    case TaskFails => ApplyLoop(s, a)
    case Cleanup => ApplyLoop(s, a)
    case _ => if s.task.InThread? then ApplyWorker(cfg, s, a) else None
  }

  /** The state after a list of actions; none if one of them was not enabled. */
  function Run(cfg: Config, s: State, acts: seq<Action>): Option<State>
    decreases |acts|
  {
    if acts == [] then Some(s)
    else
      match Apply(cfg, s, acts[0])
      case None => None
      case Some(t) => Run(cfg, t, acts[1..])
  }

  // ---- The invariant ----

  function UpTo(n: nat): seq<nat> {
    seq(n, i => i + 1)
  }

  ghost predicate PendingOk(s: State) {
    forall r <- s.pending :: r.cancel && r.status !in {Queued, Completed, Failed}
  }

  predicate NextOk(next: Next, mem: Rec, tools: seq<nat>) {
    match next
    case ToCheck(step) => step == 1 && mem.status == Queued && tools == []
    case ToTool(step) => 1 <= step <= STEPS && mem.status == StatusOf(step) && tools == UpTo(step - 1)
    case ToReturn => Terminal(mem.status) && |tools| <= STEPS && tools == UpTo(|tools|)
  }

  /** What a worker at each point of its program knows. */
  predicate WorkerOk(s: State) {
    s.task.InThread? ==>
      var mem := s.task.mem;
      match s.task.worker
      case Begin => s.tools == [] && (mem.status != Queued ==> s.disk.status != Queued)
      case PersistRead(next) => NextOk(next, mem, s.tools)
      case PersistWrite(rec, next) => NextOk(next, mem, s.tools) && rec.status == mem.status
      case Check(step) => 1 <= step <= STEPS && s.tools == UpTo(step - 1)
      case Tool(step) => NextOk(ToTool(step), mem, s.tools)
      case Returned => NextOk(ToReturn, mem, s.tools)
      case Raised => s.tools == [] && s.disk.status != Queued
  }

  /** The run is being executed, or was never dispatched, or its record is no longer QUEUED. */
  ghost predicate Inv(s: State) {
    && (s.running <==> s.task.Created? || s.task.InThread? || s.task.Finished?)
    && s.starts == (if s.task.NoTask? then 0 else 1)
    && (s.loop == Dispatching(Queued) ==> s.running || s.starts == 0)
    && (s.task.Finished? || s.task.Cleaned? ==> s.disk.status != Queued)
    && (s.task.NoTask? || s.task.Created? ==> s.tools == [])
    && |s.tools| <= STEPS && s.tools == UpTo(|s.tools|)
    && PendingOk(s) && WorkerOk(s)
  }

  lemma {:induction false} LoopKeepsInv(s: State, a: Action)
    requires Inv(s) && ApplyLoop(s, a).Some?
    ensures Inv(ApplyLoop(s, a).value)
  {
  }

  lemma {:induction false} CheckKeepsInv(cfg: Config, s: State)
    requires Inv(s) && s.task.InThread? && s.task.worker.Check?
    ensures Inv(ApplyCheck(cfg, s, s.task.worker.step))
  {
  }

  lemma {:induction false} ToolKeepsInv(cfg: Config, s: State)
    requires Inv(s) && s.task.InThread? && s.task.worker.Tool?
    ensures Inv(ApplyTool(cfg, s, s.task.worker.step))
  {
    var step := s.task.worker.step;
    assert UpTo(step) == UpTo(step - 1) + [step];
  }

  lemma {:induction false} WorkerKeepsInv(cfg: Config, s: State, a: Action)
    requires Inv(s) && s.task.InThread? && ApplyWorker(cfg, s, a).Some?
    ensures Inv(ApplyWorker(cfg, s, a).value)
  {
    match a
    case WorkerCheck => CheckKeepsInv(cfg, s);
    case WorkerTool => ToolKeepsInv(cfg, s);
    case _ =>
  }

  lemma {:induction false} CancelKeepsInv(s: State, a: Action)
    requires Inv(s) && ApplyCancel(s, a).Some?
    ensures Inv(ApplyCancel(s, a).value)
  {
  }

  lemma {:induction false} StepKeepsInv(cfg: Config, s: State, a: Action)
    requires Inv(s) && Apply(cfg, s, a).Some?
    ensures Inv(Apply(cfg, s, a).value)
  {
    match a
    case CancelRead => CancelKeepsInv(s, a);
    case CancelWrite(_) => CancelKeepsInv(s, a);
    case DispatchRead => LoopKeepsInv(s, a);
    case DispatchDecide => LoopKeepsInv(s, a);
    case BackgroundStart => LoopKeepsInv(s, a);
    case FinalSave => LoopKeepsInv(s, a);
    case TaskFails => LoopKeepsInv(s, a);
    case Cleanup => LoopKeepsInv(s, a);
    case _ => WorkerKeepsInv(cfg, s, a);
  }

  lemma {:induction false} RunKeepsInv(cfg: Config, s: State, acts: seq<Action>)
    requires Inv(s) && Run(cfg, s, acts).Some?
    ensures Inv(Run(cfg, s, acts).value)
    decreases |acts|
  {
    if acts != [] {
      StepKeepsInv(cfg, s, acts[0]);
      RunKeepsInv(cfg, Apply(cfg, s, acts[0]).value, acts[1..]);
    }
  }

  /** Under every interleaving: the run is in the table of running tasks, or was
      never dispatched, or its record is not QUEUED, and no pending cancel write carries QUEUED. */
  lemma {:induction false} QueuedOnlyWhileRunningOrFresh(cfg: Config, acts: seq<Action>)
    requires Run(cfg, INIT, acts).Some?
    ensures var t := Run(cfg, INIT, acts).value;
            && (t.running || t.starts == 0 || t.disk.status != Queued)
            && (forall r <- t.pending :: r.cancel && r.status != Queued)
  {
    RunKeepsInv(cfg, INIT, acts);
  }

  /** Under every interleaving the pipeline is started at most once, and the
      tools invoked over the whole life of the run are the first steps of the
      pipeline, in order and each once. */
  lemma {:induction false} StartedAtMostOnce(cfg: Config, acts: seq<Action>)
    requires Run(cfg, INIT, acts).Some?
    ensures var t := Run(cfg, INIT, acts).value;
            t.starts <= 1 && |t.tools| <= STEPS && t.tools == UpTo(|t.tools|)
  {
    RunKeepsInv(cfg, INIT, acts);
  }

  lemma RunOne(cfg: Config, s: State, a: Action)
    ensures Run(cfg, s, [a]) == Apply(cfg, s, a)
  {
    assert [a][1..] == [];
    var t := Apply(cfg, s, a);
    assert t.Some? ==> Run(cfg, t.value, []) == t;
  }

  lemma {:induction false} RunAppend(cfg: Config, s: State, first: seq<Action>, rest: seq<Action>)
    requires Run(cfg, s, first).Some?
    ensures Run(cfg, s, first + rest) == Run(cfg, Run(cfg, s, first).value, rest)
    decreases |first|
  {
    if first == [] {
      assert first + rest == rest;
    } else {
      assert (first + rest)[1..] == first[1..] + rest;
      RunAppend(cfg, Apply(cfg, s, first[0]).value, first[1..], rest);
    }
  }

  lemma RunTwo(cfg: Config, s: State, a: Action, b: Action)
    requires Apply(cfg, s, a).Some?
    ensures Run(cfg, s, [a, b]) == Apply(cfg, Apply(cfg, s, a).value, b)
  {
    assert [a, b][1..] == [b];
    RunOne(cfg, Apply(cfg, s, a).value, b);
  }
}
