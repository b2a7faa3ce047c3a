/** The two-level semaphore queue. Any number of requests run concurrently; each
    semaphore operation and each section under the statistics lock is one step. */
module TaskQueue {
  import opened Wrappers

  datatype Kind = Llm | Embedding

  type Project = string

  datatype Outcome = TimedOut | CancelledQueued | CancelledActive | CancelledRunning | Completed | Failed

  /** Where a request stands. `GiveBack` and `CountAbort` are the exception paths
      of the two acquisitions; `CancelSeen` and `CancelRaised` lie between the two
      places that count a request cancelled after it had both permits. */
  datatype Pc =
    | Init
    | WaitProject
    | WaitGlobal
    | GiveBack(timedOut: bool)
    | CountAbort(timedOut: bool)
    | Acquired
    | CheckEvent
    | CancelSeen
    | CancelRaised
    | Executing
    | CountOutcome(outcome: Outcome)
    | Deactivate(outcome: Outcome)
    | ReleaseProject(outcome: Outcome)
    | ReleaseGlobal(outcome: Outcome)
    | Done(outcome: Outcome)

  datatype Client = Client(kind: Kind, project: Project, cancelSet: bool, pc: Pc)

  /** One number for each kind of call. */
  datatype PerKind = PerKind(llm: nat, embedding: nat) {
    function At(k: Kind): nat {
      if k == Llm then llm else embedding
    }

    function With(k: Kind, v: nat): PerKind {
      if k == Llm then PerKind(v, embedding) else PerKind(llm, v)
    }
  }

  datatype Config = Config(globalCap: PerKind, projectCap: PerKind)

  datatype Stats = Stats(active: PerKind, queued: int, completed: nat, cancelled: nat, timeouts: nat, errors: nat)

  /** Free permits of the global semaphores and of the project semaphores made so far. */
  datatype State = State(clients: seq<Client>, globalFree: PerKind, projectFree: map<(Kind, Project), nat>, stats: Stats)

  function Initial(cfg: Config): State {
    State([], cfg.globalCap, map[], Stats(PerKind(0, 0), 0, 0, 0, 0, 0))
  }

  datatype Action =
    | Submit(kind: Kind, project: Project)
    | SetCancel(i: nat)
    | Advance(i: nat)
    | GiveUp(i: nat, timedOut: bool)
    | Return(i: nat, result: Outcome)

  function Move(s: State, i: nat, pc: Pc): State
    requires i < |s.clients|
  {
    s.(clients := s.clients[i := s.clients[i].(pc := pc)])
  }

  /** A bounded semaphore raises when a release would exceed its bound; here the step is then not possible. */
  function Release(free: nat, bound: nat): Option<nat> {
    if free >= bound then None else Some(free + 1)
  }

  function ReleaseProjectPermit(cfg: Config, s: State, c: Client): Option<State> {
    var key := (c.kind, c.project);
    if key !in s.projectFree then None
    else
      match Release(s.projectFree[key], cfg.projectCap.At(c.kind))
      case None => None
      case Some(free) => Some(s.(projectFree := s.projectFree[key := free]))
  }

  function CountedOutcome(stats: Stats, outcome: Outcome): Stats {
    match outcome
    case Completed => stats.(completed := stats.completed + 1)
    case Failed => stats.(errors := stats.errors + 1)
    case TimedOut => stats.(timeouts := stats.timeouts + 1)
    case _ => stats.(cancelled := stats.cancelled + 1)
  }

  /** Registers a request: its project semaphore is made on first use. */
  function Register(cfg: Config, s: State, c: Client): State {
    var key := (c.kind, c.project);
    var free := if key in s.projectFree then s.projectFree[key] else cfg.projectCap.At(c.kind);
    s.(projectFree := s.projectFree[key := free], stats := s.stats.(queued := s.stats.queued + 1))
  }

  /** What a request's next ordinary step does to the shared state, and where it goes. */
  function StepOf(cfg: Config, s: State, c: Client): Option<(State, Pc)> {
    var k, key := c.kind, (c.kind, c.project);
    match c.pc
    case Init => Some((Register(cfg, s, c), WaitProject))
    case WaitProject =>
      if key in s.projectFree && s.projectFree[key] > 0
      then Some((s.(projectFree := s.projectFree[key := s.projectFree[key] - 1]), WaitGlobal)) else None
    case WaitGlobal =>
      if s.globalFree.At(k) > 0 then Some((s.(globalFree := s.globalFree.With(k, s.globalFree.At(k) - 1)), Acquired)) else None
    case GiveBack(timedOut) =>
      (match ReleaseProjectPermit(cfg, s, c)
       case None => None
       case Some(t) => Some((t, CountAbort(timedOut))))
    case CountAbort(timedOut) =>
      var outcome := if timedOut then TimedOut else CancelledQueued;
      Some((s.(stats := CountedOutcome(s.stats, outcome).(queued := s.stats.queued - 1)), Done(outcome)))
    case Acquired =>
      Some((s.(stats := s.stats.(active := s.stats.active.With(k, s.stats.active.At(k) + 1), queued := s.stats.queued - 1)),
            CheckEvent))
    case CheckEvent => Some((s, if c.cancelSet then CancelSeen else Executing))
    case CancelSeen => Some((s.(stats := s.stats.(cancelled := s.stats.cancelled + 1)), CancelRaised))
    case CancelRaised => Some((s.(stats := s.stats.(cancelled := s.stats.cancelled + 1)), Deactivate(CancelledActive)))
    case CountOutcome(outcome) => Some((s.(stats := CountedOutcome(s.stats, outcome)), Deactivate(outcome)))
    case Deactivate(outcome) =>
      var less := s.stats.active.At(k) - 1;
      Some((s.(stats := s.stats.(active := s.stats.active.With(k, if less < 0 then 0 else less))), ReleaseProject(outcome)))
    case ReleaseProject(outcome) =>
      (match ReleaseProjectPermit(cfg, s, c)
       case None => None
       case Some(t) => Some((t, ReleaseGlobal(outcome))))
    case ReleaseGlobal(outcome) =>
      (match Release(s.globalFree.At(k), cfg.globalCap.At(k))
       case None => None
       case Some(free) => Some((s.(globalFree := s.globalFree.With(k, free)), Done(outcome))))
    case Executing => None
    case Done(_) => None
  }

  /** Leaving a wait: on timeout, or on cancellation once the event is set. */
  function GiveUpOf(c: Client, timedOut: bool): Option<Pc> {
    if !timedOut && !c.cancelSet then None
    else
      match c.pc
      case WaitProject => Some(CountAbort(timedOut))
      case WaitGlobal => Some(GiveBack(timedOut))
      case _ => None
  }

  function Apply(cfg: Config, s: State, a: Action): Option<State> {
    match a
    case Submit(kind, project) => Some(s.(clients := s.clients + [Client(kind, project, false, Init)]))
    case SetCancel(i) =>
      if i >= |s.clients| then None else Some(s.(clients := s.clients[i := s.clients[i].(cancelSet := true)]))
    case Advance(i) =>
      if i >= |s.clients| then None
      else
        (match StepOf(cfg, s, s.clients[i])
         case None => None
         case Some(step) => Some(Move(step.0.(clients := s.clients), i, step.1)))
    case GiveUp(i, timedOut) =>
      if i >= |s.clients| then None
      else
        (match GiveUpOf(s.clients[i], timedOut)
         case None => None
         case Some(pc) => Some(Move(s, i, pc)))
    case Return(i, result) =>
      if i < |s.clients| && s.clients[i].pc.Executing? && result in {Completed, Failed, CancelledRunning}
      then Some(Move(s, i, CountOutcome(result))) else None
  }

  function Run(cfg: Config, s: State, acts: seq<Action>): Option<State>
    decreases |acts|
  {
    if |acts| == 0 then Some(s)
    else
      match Apply(cfg, s, acts[0])
      case None => None
      case Some(t) => Run(cfg, t, acts[1..])
  }

  // ---- Counting requests by what they hold and what has been booked for them ----

  datatype Measure =
    | Queued | Active(kind: Kind) | GlobalHeld(kind: Kind) | ProjectHeld(kind: Kind, project: Project)
    | CompletedCount | CancelledCount | TimeoutCount | ErrorCount

  /** The outcome that has been booked for a request. */
  function Booked(pc: Pc): Option<Outcome> {
    match pc
    case Deactivate(o) => Some(o)
    case ReleaseProject(o) => Some(o)
    case ReleaseGlobal(o) => Some(o)
    case Done(o) => Some(o)
    case _ => None
  }

  predicate InQueue(pc: Pc) {
    pc.WaitProject? || pc.WaitGlobal? || pc.GiveBack? || pc.CountAbort? || pc.Acquired?
  }

  predicate IsActive(pc: Pc) {
    pc.CheckEvent? || pc.CancelSeen? || pc.CancelRaised? || pc.Executing? || pc.CountOutcome? || pc.Deactivate?
  }

  predicate HoldsGlobal(pc: Pc) {
    pc.Acquired? || IsActive(pc) || pc.ReleaseProject? || pc.ReleaseGlobal?
  }

  predicate HoldsProject(pc: Pc) {
    pc.WaitGlobal? || pc.GiveBack? || pc.Acquired? || IsActive(pc) || pc.ReleaseProject?
  }

  function Bit(b: bool): nat {
    if b then 1 else 0
  }

  /** How often a request has been counted as cancelled. */
  function CancelBookings(pc: Pc): nat {
    if pc.CancelRaised? then 1
    else
      match Booked(pc)
      case Some(CancelledActive) => 2
      case Some(CancelledQueued) => 1
      case Some(CancelledRunning) => 1
      case _ => 0
  }

  /** A request's contribution to a measure, read off its program counter. */
  function Weight(m: Measure, c: Client): nat {
    match m
    case Queued => Bit(InQueue(c.pc))
    case Active(k) => Bit(c.kind == k && IsActive(c.pc))
    case GlobalHeld(k) => Bit(c.kind == k && HoldsGlobal(c.pc))
    case ProjectHeld(k, p) => Bit(c.kind == k && c.project == p && HoldsProject(c.pc))
    case CompletedCount => Bit(Booked(c.pc) == Some(Completed))
    case CancelledCount => CancelBookings(c.pc)
    case TimeoutCount => Bit(Booked(c.pc) == Some(TimedOut))
    case ErrorCount => Bit(Booked(c.pc) == Some(Failed))
  }

  function Sum(m: Measure, cs: seq<Client>): nat {
    if |cs| == 0 then 0 else Sum(m, cs[..|cs| - 1]) + Weight(m, cs[|cs| - 1])
  }

  /** What the shared state says about the same measure. */
  function Recorded(cfg: Config, m: Measure, s: State): int {
    match m
    case Queued => s.stats.queued
    case Active(k) => s.stats.active.At(k)
    case GlobalHeld(k) => cfg.globalCap.At(k) - s.globalFree.At(k)
    case ProjectHeld(k, p) => if (k, p) in s.projectFree then cfg.projectCap.At(k) - s.projectFree[(k, p)] else 0
    case CompletedCount => s.stats.completed
    case CancelledCount => s.stats.cancelled
    case TimeoutCount => s.stats.timeouts
    case ErrorCount => s.stats.errors
  }

  /** A request at a point where only certain outcomes are possible. */
  predicate PcOk(pc: Pc) {
    pc.CountOutcome? ==> pc.outcome in {Completed, Failed, CancelledRunning}
  }

  /** Every shared number is the sum of what the requests hold or have had
      booked, and every registered request has its project semaphore. */
  ghost predicate Inv(cfg: Config, s: State) {
    && (forall m :: Recorded(cfg, m, s) == Sum(m, s.clients))
    && (forall c <- s.clients :: ClientOk(s, c))
  }

  predicate ClientOk(s: State, c: Client) {
    PcOk(c.pc) && (c.pc != Init ==> (c.kind, c.project) in s.projectFree)
  }

  lemma {:induction false} SumUpdate(m: Measure, cs: seq<Client>, i: nat, c: Client)
    requires i < |cs|
    ensures Sum(m, cs[i := c]) == Sum(m, cs) - Weight(m, cs[i]) + Weight(m, c)
  {
    var n := |cs| - 1;
    if i == n {
      assert cs[i := c][..n] == cs[..n];
    } else {
      assert cs[i := c][..n] == cs[..n][i := c];
      SumUpdate(m, cs[..n], i, c);
    }
  }

  lemma {:induction false} SumAtLeast(m: Measure, cs: seq<Client>, i: nat)
    requires i < |cs|
    ensures Sum(m, cs) >= Weight(m, cs[i])
  {
    if i < |cs| - 1 {
      SumAtLeast(m, cs[..|cs| - 1], i);
    }
  }

  lemma {:induction false} SumZero(m: Measure, cs: seq<Client>)
    requires forall i :: 0 <= i < |cs| ==> Weight(m, cs[i]) == 0
    ensures Sum(m, cs) == 0
  {
    if |cs| > 0 {
      SumZero(m, cs[..|cs| - 1]);
    }
  }

  lemma SumAppend(m: Measure, cs: seq<Client>, c: Client)
    ensures Sum(m, cs + [c]) == Sum(m, cs) + Weight(m, c)
  {
    assert (cs + [c])[..|cs|] == cs;
  }

  /** Moving one request changes each recorded number by the change of its weight. */
  lemma MoveKeepsInv(cfg: Config, s: State, t: State, i: nat, c: Client)
    requires Inv(cfg, s) && i < |s.clients| && t.clients == s.clients[i := c]
    requires forall m :: Recorded(cfg, m, t) == Recorded(cfg, m, s) - Weight(m, s.clients[i]) + Weight(m, c)
    requires s.projectFree.Keys <= t.projectFree.Keys && PcOk(c.pc)
    requires c.pc != Init ==> (c.kind, c.project) in t.projectFree
    ensures Inv(cfg, t)
  {
    forall m
      ensures Recorded(cfg, m, t) == Sum(m, t.clients)
    {
      SumUpdate(m, s.clients, i, c);
      assert Recorded(cfg, m, s) == Sum(m, s.clients);
    }
    forall d | d in t.clients
      ensures ClientOk(t, d)
    {
      assert d == c || (d in s.clients && ClientOk(s, d));
    }
  }

  /** A step that may be taken balances: its effect on the shared state is the
      change of its own request's weight. */
  ghost predicate Balances(cfg: Config, s: State, c: Client, m: Measure)
    requires StepOf(cfg, s, c).Some?
  {
    var (t, pc) := StepOf(cfg, s, c).value;
    Recorded(cfg, m, t) == Recorded(cfg, m, s) - Weight(m, c) + Weight(m, c.(pc := pc))
  }

  lemma PermitsBalance(cfg: Config, s: State, c: Client, m: Measure)
    requires StepOf(cfg, s, c).Some? && ClientOk(s, c) && (m.GlobalHeld? || m.ProjectHeld?)
    ensures Balances(cfg, s, c, m)
  {
  }

  lemma GaugesBalance(cfg: Config, s: State, c: Client, m: Measure)
    requires StepOf(cfg, s, c).Some? && ClientOk(s, c) && (m.Queued? || m.Active?)
    requires c.pc.Deactivate? ==> s.stats.active.At(c.kind) >= 1
    ensures Balances(cfg, s, c, m)
  {
  }

  lemma TotalsBalance(cfg: Config, s: State, c: Client, m: Measure)
    requires StepOf(cfg, s, c).Some? && ClientOk(s, c)
    requires m in {CompletedCount, CancelledCount, TimeoutCount, ErrorCount}
    ensures Balances(cfg, s, c, m)
  {
  }

  lemma StepBalances(cfg: Config, s: State, c: Client, m: Measure)
    requires StepOf(cfg, s, c).Some? && ClientOk(s, c)
    requires c.pc.Deactivate? ==> s.stats.active.At(c.kind) >= 1
    ensures Balances(cfg, s, c, m)
  {
    if m.GlobalHeld? || m.ProjectHeld? {
      PermitsBalance(cfg, s, c, m);
    } else if m.Queued? || m.Active? {
      GaugesBalance(cfg, s, c, m);
    } else {
      TotalsBalance(cfg, s, c, m);
    }
  }

  lemma StepKeys(cfg: Config, s: State, c: Client)
    requires StepOf(cfg, s, c).Some?
    requires c.pc != Init ==> (c.kind, c.project) in s.projectFree
    ensures var (t, pc) := StepOf(cfg, s, c).value;
            s.projectFree.Keys <= t.projectFree.Keys && (c.kind, c.project) in t.projectFree && PcOk(pc) && pc != Init
  {
  }

  /** The clamp `max(0, active - 1)` never fires. */
  lemma ClampNeverFires(cfg: Config, s: State, i: nat)
    requires Inv(cfg, s) && i < |s.clients| && s.clients[i].pc.Deactivate?
    ensures s.stats.active.At(s.clients[i].kind) >= 1
  {
    SumAtLeast(Active(s.clients[i].kind), s.clients, i);
    assert Recorded(cfg, Active(s.clients[i].kind), s) >= 1;
  }

  lemma AdvanceKeepsInv(cfg: Config, s: State, i: nat)
    requires Inv(cfg, s) && Apply(cfg, s, Advance(i)).Some?
    ensures Inv(cfg, Apply(cfg, s, Advance(i)).value)
  {
    var c, t := s.clients[i], Apply(cfg, s, Advance(i)).value;
    var (u, pc) := StepOf(cfg, s, c).value;
    assert ClientOk(s, c);
    if c.pc.Deactivate? {
      ClampNeverFires(cfg, s, i);
    }
    StepKeys(cfg, s, c);
    forall m
      ensures Recorded(cfg, m, t) == Recorded(cfg, m, s) - Weight(m, c) + Weight(m, c.(pc := pc))
    {
      StepBalances(cfg, s, c, m);
      assert Recorded(cfg, m, t) == Recorded(cfg, m, u);
    }
    MoveKeepsInv(cfg, s, t, i, c.(pc := pc));
  }

  lemma RecordedSame(cfg: Config, m: Measure, s: State, t: State)
    requires t == s.(clients := t.clients)
    ensures Recorded(cfg, m, t) == Recorded(cfg, m, s)
  {
  }

  lemma SubmitKeepsInv(cfg: Config, s: State, c: Client)
    requires Inv(cfg, s) && c.pc == Init
    ensures Inv(cfg, s.(clients := s.clients + [c]))
  {
    var t := s.(clients := s.clients + [c]);
    forall m
      ensures Recorded(cfg, m, t) == Sum(m, t.clients)
    {
      SumAppend(m, s.clients, c);
      RecordedSame(cfg, m, s, t);
      assert Weight(m, c) == 0;
    }
    forall d | d in t.clients
      ensures ClientOk(t, d)
    {
      assert d in s.clients || d == c;
    }
  }

  /** Setting the event, leaving a wait and returning from the call change no recorded number and no weight. */
  lemma SilentKeepsInv(cfg: Config, s: State, i: nat, c: Client)
    requires Inv(cfg, s) && i < |s.clients| && c.kind == s.clients[i].kind && c.project == s.clients[i].project && PcOk(c.pc)
    requires (s.clients[i].pc == Init) == (c.pc == Init)
    requires forall m :: Weight(m, c) == Weight(m, s.clients[i])
    ensures Inv(cfg, s.(clients := s.clients[i := c]))
  {
    var t := s.(clients := s.clients[i := c]);
    forall m
      ensures Recorded(cfg, m, t) == Recorded(cfg, m, s) - Weight(m, s.clients[i]) + Weight(m, c)
    {
      RecordedSame(cfg, m, s, t);
      assert Weight(m, c) == Weight(m, s.clients[i]);
    }
    assert ClientOk(s, s.clients[i]);
    MoveKeepsInv(cfg, s, t, i, c);
  }

  lemma ApplyKeepsInv(cfg: Config, s: State, a: Action)
    requires Inv(cfg, s) && Apply(cfg, s, a).Some?
    ensures Inv(cfg, Apply(cfg, s, a).value)
  {
    match a
    case Submit(kind, project) => SubmitKeepsInv(cfg, s, Client(kind, project, false, Init));
    case Advance(i) => AdvanceKeepsInv(cfg, s, i);
    case SetCancel(i) =>
      assert ClientOk(s, s.clients[i]);
      SilentKeepsInv(cfg, s, i, s.clients[i].(cancelSet := true));
    case GiveUp(i, timedOut) =>
      SilentKeepsInv(cfg, s, i, s.clients[i].(pc := GiveUpOf(s.clients[i], timedOut).value));
    case Return(i, result) =>
      SilentKeepsInv(cfg, s, i, s.clients[i].(pc := CountOutcome(result)));
  }

  lemma {:induction false} RunKeepsInv(cfg: Config, s: State, acts: seq<Action>)
    requires Inv(cfg, s) && Run(cfg, s, acts).Some?
    ensures Inv(cfg, Run(cfg, s, acts).value)
    decreases |acts|
  {
    if |acts| > 0 {
      ApplyKeepsInv(cfg, s, acts[0]);
      RunKeepsInv(cfg, Apply(cfg, s, acts[0]).value, acts[1..]);
    }
  }

  // ---- What the invariant says about every reachable state ----

  ghost predicate Reachable(cfg: Config, s: State) {
    exists acts :: Run(cfg, Initial(cfg), acts) == Some(s)
  }

  lemma {:induction false} InitialInv(cfg: Config)
    ensures Inv(cfg, Initial(cfg))
  {
    forall m
      ensures Recorded(cfg, m, Initial(cfg)) == Sum(m, [])
    {
    }
  }

  lemma ReachableInv(cfg: Config, s: State)
    requires Reachable(cfg, s)
    ensures Inv(cfg, s)
  {
    var acts :| Run(cfg, Initial(cfg), acts) == Some(s);
    InitialInv(cfg);
    RunKeepsInv(cfg, Initial(cfg), acts);
  }

  /** Requests inside their call, by kind, and by kind and project. */
  function Calls(k: Kind, p: Option<Project>, cs: seq<Client>): nat {
    if |cs| == 0 then 0
    else
      var c := cs[|cs| - 1];
      Calls(k, p, cs[..|cs| - 1]) + Bit(c.kind == k && c.pc.Executing? && (p.Some? ==> c.project == p.value))
  }

  lemma {:induction false} CallsHoldPermits(k: Kind, p: Project, cs: seq<Client>)
    ensures Calls(k, None, cs) <= Sum(GlobalHeld(k), cs)
    ensures Calls(k, Some(p), cs) <= Sum(ProjectHeld(k, p), cs)
  {
    if |cs| > 0 {
      CallsHoldPermits(k, p, cs[..|cs| - 1]);
    }
  }

  /** In every reachable state: a semaphore's free permits and the permits held
      add up to its bound, none is negative, and the calls executing never
      exceed the global capacity of their kind nor the quota of their project. */
  lemma CapacitiesRespected(cfg: Config, s: State, k: Kind, p: Project)
    requires Reachable(cfg, s)
    ensures s.globalFree.At(k) + Sum(GlobalHeld(k), s.clients) == cfg.globalCap.At(k)
    ensures (k, p) in s.projectFree ==> s.projectFree[(k, p)] + Sum(ProjectHeld(k, p), s.clients) == cfg.projectCap.At(k)
    ensures Calls(k, None, s.clients) + s.globalFree.At(k) <= cfg.globalCap.At(k)
    ensures (k, p) in s.projectFree ==> Calls(k, Some(p), s.clients) + s.projectFree[(k, p)] <= cfg.projectCap.At(k)
    ensures Calls(k, Some(p), s.clients) <= cfg.projectCap.At(k)
  {
    ReachableInv(cfg, s);
    CallsHoldPermits(k, p, s.clients);
    assert Recorded(cfg, GlobalHeld(k), s) == Sum(GlobalHeld(k), s.clients);
    assert Recorded(cfg, ProjectHeld(k, p), s) == Sum(ProjectHeld(k, p), s.clients);
  }

  // ---- The outcome equation ----

  /** Requests whose outcome has been booked. */
  function Finished(cs: seq<Client>): nat {
    if |cs| == 0 then 0 else Finished(cs[..|cs| - 1]) + Bit(Booked(cs[|cs| - 1].pc).Some?)
  }

  /** Requests found cancelled between acquisition and execution, whose second count is due or done. */
  function CancelledAfterAcquiring(cs: seq<Client>): nat {
    if |cs| == 0 then 0 else CancelledAfterAcquiring(cs[..|cs| - 1]) + Bit(CountsTwice(cs[|cs| - 1].pc))
  }

  predicate CountsTwice(pc: Pc) {
    pc.CancelRaised? || Booked(pc) == Some(CancelledActive)
  }

  lemma {:induction false} TotalsOf(cs: seq<Client>)
    ensures Sum(CompletedCount, cs) + Sum(CancelledCount, cs) + Sum(TimeoutCount, cs) + Sum(ErrorCount, cs)
         == Finished(cs) + CancelledAfterAcquiring(cs)
  {
    if |cs| > 0 {
      TotalsOf(cs[..|cs| - 1]);
      TotalsOfOne(cs[|cs| - 1]);
    }
  }

  lemma TotalsOfOne(c: Client)
    ensures Weight(CompletedCount, c) + Weight(CancelledCount, c) + Weight(TimeoutCount, c) + Weight(ErrorCount, c)
         == Bit(Booked(c.pc).Some?) + Bit(CountsTwice(c.pc))
  {
  }

  /** In every reachable state the gauges equal the number of requests at those
      program points, and the four totals add up to the requests with a booked
      outcome plus those cancelled after acquisition, which count twice. */
  lemma StatisticsExact(cfg: Config, s: State, k: Kind)
    requires Reachable(cfg, s)
    ensures s.stats.queued == Sum(Queued, s.clients)
    ensures s.stats.active.At(k) == Sum(Active(k), s.clients)
    ensures s.stats.completed == Sum(CompletedCount, s.clients) && s.stats.cancelled == Sum(CancelledCount, s.clients)
    ensures s.stats.timeouts == Sum(TimeoutCount, s.clients) && s.stats.errors == Sum(ErrorCount, s.clients)
    ensures s.stats.completed + s.stats.cancelled + s.stats.timeouts + s.stats.errors
         == Finished(s.clients) + CancelledAfterAcquiring(s.clients)
  {
    ReachableInv(cfg, s);
    TotalsOf(s.clients);
    assert Recorded(cfg, Queued, s) == s.stats.queued && Recorded(cfg, Active(k), s) == s.stats.active.At(k);
    assert Recorded(cfg, CompletedCount, s) == s.stats.completed && Recorded(cfg, CancelledCount, s) == s.stats.cancelled;
    assert Recorded(cfg, TimeoutCount, s) == s.stats.timeouts && Recorded(cfg, ErrorCount, s) == s.stats.errors;
  }

  // ---- No release is too many, and no deadlock ----

  /** Every step after the waits is possible; in particular no release exceeds its bound. */
  lemma OnlyWaitsBlock(cfg: Config, s: State, i: nat)
    requires Inv(cfg, s) && i < |s.clients|
    requires !s.clients[i].pc.WaitProject? && !s.clients[i].pc.WaitGlobal?
    requires !s.clients[i].pc.Executing? && !s.clients[i].pc.Done?
    ensures Apply(cfg, s, Advance(i)).Some?
  {
    var c := s.clients[i];
    assert ClientOk(s, c);
    SumAtLeast(GlobalHeld(c.kind), s.clients, i);
    SumAtLeast(ProjectHeld(c.kind, c.project), s.clients, i);
    assert Recorded(cfg, GlobalHeld(c.kind), s) >= Weight(GlobalHeld(c.kind), c);
    assert Recorded(cfg, ProjectHeld(c.kind, c.project), s) >= Weight(ProjectHeld(c.kind, c.project), c);
  }

  /** The ordinary steps: neither a timeout nor a cancellation. */
  predicate Ordinary(a: Action) {
    a.Advance? || a.Return?
  }

  predicate Waiting(c: Client) {
    c.pc.WaitProject? || c.pc.WaitGlobal?
  }

  /** If all requests wait or are done, one that waits for the global permit gets it. */
  lemma GlobalWaitEnds(cfg: Config, s: State, i: nat)
    requires Inv(cfg, s) && i < |s.clients| && s.clients[i].pc == WaitGlobal && cfg.globalCap.At(s.clients[i].kind) >= 1
    requires forall j :: 0 <= j < |s.clients| ==> Waiting(s.clients[j]) || s.clients[j].pc.Done?
    ensures Apply(cfg, s, Advance(i)).Some?
  {
    var k := s.clients[i].kind;
    SumZero(GlobalHeld(k), s.clients);
    assert Recorded(cfg, GlobalHeld(k), s) == 0;
  }

  /** If all requests wait for a project permit or are done, any of them gets it. */
  lemma ProjectWaitEnds(cfg: Config, s: State, i: nat)
    requires Inv(cfg, s) && i < |s.clients| && s.clients[i].pc == WaitProject && cfg.projectCap.At(s.clients[i].kind) >= 1
    requires forall j :: 0 <= j < |s.clients| ==> s.clients[j].pc == WaitProject || s.clients[j].pc.Done?
    ensures Apply(cfg, s, Advance(i)).Some?
  {
    var c := s.clients[i];
    assert ClientOk(s, c);
    SumZero(ProjectHeld(c.kind, c.project), s.clients);
    assert Recorded(cfg, ProjectHeld(c.kind, c.project), s) == 0;
  }

  lemma SomeStepFrom(cfg: Config, s: State, i: nat) returns (a: Action)
    requires Inv(cfg, s) && i < |s.clients| && !s.clients[i].pc.Done?
    requires forall k :: cfg.globalCap.At(k) >= 1 && cfg.projectCap.At(k) >= 1
    ensures Ordinary(a) && Apply(cfg, s, a).Some?
  {
    if j: nat :| j < |s.clients| && !Waiting(s.clients[j]) && !s.clients[j].pc.Done? {
      if s.clients[j].pc.Executing? {
        a := Return(j, Completed);
      } else {
        OnlyWaitsBlock(cfg, s, j);
        a := Advance(j);
      }
    } else if j: nat :| j < |s.clients| && s.clients[j].pc == WaitGlobal {
      GlobalWaitEnds(cfg, s, j);
      a := Advance(j);
    } else {
      ProjectWaitEnds(cfg, s, i);
      a := Advance(i);
    }
  }

  /** With capacities of at least one, whenever a request is unfinished some
      request can take an ordinary step: the two-level acquisition never deadlocks. */
  lemma NeverDeadlocks(cfg: Config, s: State, i: nat) returns (a: Action)
    requires Reachable(cfg, s) && i < |s.clients| && !s.clients[i].pc.Done?
    requires forall k :: cfg.globalCap.At(k) >= 1 && cfg.projectCap.At(k) >= 1
    ensures Ordinary(a) && Apply(cfg, s, a).Some?
  {
    ReachableInv(cfg, s);
    a := SomeStepFrom(cfg, s, i);
  }

  // ---- Every request finishes ----

  /** An upper bound on the steps a request has left. */
  function Left(pc: Pc): nat {
    match pc
    case Init => 10
    case WaitProject => 9
    case WaitGlobal => 8
    case Acquired => 7
    case CheckEvent => 6
    case CancelSeen => 5
    case CancelRaised => 4
    case Executing => 5
    case CountOutcome(_) => 4
    case Deactivate(_) => 3
    case ReleaseProject(_) => 2
    case ReleaseGlobal(_) => 1
    case GiveBack(_) => 2
    case CountAbort(_) => 1
    case Done(_) => 0
  }

  function Work(cs: seq<Client>): nat {
    if |cs| == 0 then 0 else Work(cs[..|cs| - 1]) + Left(cs[|cs| - 1].pc)
  }

  lemma {:induction false} WorkUpdate(cs: seq<Client>, i: nat, c: Client)
    requires i < |cs|
    ensures Work(cs[i := c]) == Work(cs) - Left(cs[i].pc) + Left(c.pc)
  {
    var n := |cs| - 1;
    if i == n {
      assert cs[i := c][..n] == cs[..n];
    } else {
      assert cs[i := c][..n] == cs[..n][i := c];
      WorkUpdate(cs[..n], i, c);
    }
  }

  lemma StepUsesWork(cfg: Config, s: State, a: Action)
    requires Apply(cfg, s, a).Some? && !a.Submit? && !a.SetCancel?
    ensures Work(Apply(cfg, s, a).value.clients) < Work(s.clients)
    ensures |Apply(cfg, s, a).value.clients| == |s.clients|
  {
    var t := Apply(cfg, s, a).value;
    WorkUpdate(s.clients, a.i, t.clients[a.i]);
  }

  /** Once no more requests arrive, a run has no more steps than there is work left. */
  lemma {:induction false} RunsAreBounded(cfg: Config, s: State, acts: seq<Action>)
    requires Run(cfg, s, acts).Some? && (forall a <- acts :: !a.Submit? && !a.SetCancel?)
    ensures |acts| + Work(Run(cfg, s, acts).value.clients) <= Work(s.clients)
    ensures |Run(cfg, s, acts).value.clients| == |s.clients|
    decreases |acts|
  {
    if |acts| > 0 {
      StepUsesWork(cfg, s, acts[0]);
      RunsAreBounded(cfg, Apply(cfg, s, acts[0]).value, acts[1..]);
    }
  }

  /** No request can take an ordinary step. */
  ghost predicate AtRest(cfg: Config, s: State) {
    forall a :: Ordinary(a) ==> Apply(cfg, s, a).None?
  }

  lemma DoneIsAtRest(cfg: Config, s: State)
    requires forall c <- s.clients :: c.pc.Done?
    ensures AtRest(cfg, s)
  {
    forall a | Ordinary(a)
      ensures Apply(cfg, s, a).None?
    {
      assert a.i < |s.clients| ==> s.clients[a.i] in s.clients;
    }
  }

  /** Every request finishes: once no more requests arrive, a run, timeouts and
      cancellations included, is bounded by the work left, and one that no
      ordinary step can extend has every request done. */
  lemma EveryRequestFinishes(cfg: Config, s: State, acts: seq<Action>)
    requires Reachable(cfg, s) && Run(cfg, s, acts).Some? && (forall a <- acts :: !a.Submit? && !a.SetCancel?)
    requires forall k :: cfg.globalCap.At(k) >= 1 && cfg.projectCap.At(k) >= 1
    ensures var t := Run(cfg, s, acts).value;
            && |acts| <= Work(s.clients) && |t.clients| == |s.clients|
            && (AtRest(cfg, t) <==> forall c <- t.clients :: c.pc.Done?)
  {
    var t := Run(cfg, s, acts).value;
    ReachableInv(cfg, s);
    RunKeepsInv(cfg, s, acts);
    RunsAreBounded(cfg, s, acts);
    if i: nat :| i < |t.clients| && !t.clients[i].pc.Done? {
      var a := SomeStepFrom(cfg, t, i);
      assert t.clients[i] in t.clients;
    } else {
      DoneIsAtRest(cfg, t);
    }
  }

  /** When every request is done, every permit is back and both gauges are zero. */
  lemma QuiescentQueueIsFull(cfg: Config, s: State, k: Kind, p: Project)
    requires Reachable(cfg, s) && (forall c <- s.clients :: c.pc.Done?)
    ensures s.globalFree.At(k) == cfg.globalCap.At(k)
    ensures (k, p) in s.projectFree ==> s.projectFree[(k, p)] == cfg.projectCap.At(k)
    ensures s.stats.queued == 0 && s.stats.active.At(k) == 0
  {
    CapacitiesRespected(cfg, s, k, p);
    StatisticsExact(cfg, s, k);
    SumZero(GlobalHeld(k), s.clients);
    SumZero(ProjectHeld(k, p), s.clients);
    SumZero(Queued, s.clients);
    SumZero(Active(k), s.clients);
  }

  // ---- Waiting on an ideal clock ----

  datatype Wait = Got | Expired | Cancelled

  const SLICE := 0.1

  function Max(a: real, b: real): real {
    if a < b then b else a
  }

  function PollsLeft(remaining: real): nat {
    if remaining <= 0.0 then 0 else (remaining * 10.0).Floor + 1
  }

  lemma PollsDecrease(remaining: real)
    requires remaining > 0.0
    ensures PollsLeft(remaining - (if remaining < SLICE then remaining else SLICE)) < PollsLeft(remaining)
  {
  }

  /** Polls a semaphore that has a permit for this request from `grantAt` on,
      while the cancel event is set from `cancelAt` on; only waiting takes time.
      The wait never outlives its deadline, ends the moment the permit is
      granted, notices a cancellation within one slice, and times out exactly
      when neither comes in time. */
  method Acquire(start: real, timeout: real, grantAt: real, cancelAt: real) returns (r: Wait, end: real)
    ensures start <= end <= start + Max(timeout, 0.0)
    ensures r.Expired? <==> cancelAt > start + Max(timeout, 0.0) && (timeout <= 0.0 || grantAt > start + timeout)
    ensures r.Expired? ==> end == start + Max(timeout, 0.0)
    ensures r.Got? ==> end == Max(start, grantAt) && timeout > 0.0 && cancelAt > Max(start, end - SLICE)
    ensures r.Cancelled? ==> cancelAt <= end < Max(cancelAt, start) + SLICE && (end > start ==> grantAt > end)
    ensures cancelAt <= start ==> r.Cancelled? && end == start
    ensures timeout > 0.0 && grantAt <= start + timeout && cancelAt > Max(start, grantAt) ==> r.Got?
  {
    var deadline, now := start + timeout, start;
    while true
      invariant start <= now <= start + Max(timeout, 0.0)
      invariant now > start ==> grantAt > now && cancelAt > now - SLICE && timeout > 0.0
      invariant now > start ==> cancelAt > start
      decreases PollsLeft(deadline - now)
    {
      if cancelAt <= now {
        return Cancelled, now;
      }
      var remaining := deadline - now;
      if remaining <= 0.0 {
        return Expired, now;
      }
      var slice := if remaining < SLICE then remaining else SLICE;
      if grantAt <= now + slice {
        return Got, Max(now, grantAt);
      }
      PollsDecrease(remaining);
      now := now + slice;
    }
  }

  /** The two acquisitions of a request. Each has its own deadline, so a request
      leaves the queue within twice the configured timeout, and that bound is
      reached; a cancellation is still noticed within one slice. */
  method AcquireBoth(start: real, timeout: real, projectAt: real, globalAt: real, cancelAt: real)
      returns (r: Wait, end: real)
    requires timeout >= 0.0
    ensures start <= end <= start + 2.0 * timeout
    ensures r.Got? ==> end == Max(Max(start, projectAt), globalAt)
    ensures r.Cancelled? ==> cancelAt <= end < Max(cancelAt, start) + SLICE
    ensures cancelAt > start + 2.0 * timeout && projectAt > start + timeout > start ==> r.Expired? && end == start + timeout
    ensures cancelAt > start + 2.0 * timeout && start + timeout == projectAt > start && globalAt > projectAt + timeout ==>
              r.Expired? && end == start + 2.0 * timeout
  {
    r, end := Acquire(start, timeout, projectAt, cancelAt);
    if r.Got? {
      r, end := Acquire(end, timeout, globalAt, cancelAt);
    }
  }
}
