/** Why a queued request ends the way it does: every outcome has its cause in the run. */
module TaskOutcomes {
  import opened TaskQueue
  import opened Wrappers

  /** The outcome a request is bound for from this point on. */
  function BoundFor(pc: Pc): Option<Outcome> {
    match pc
    case GiveBack(timedOut) => Some(if timedOut then TimedOut else CancelledQueued)
    case CountAbort(timedOut) => Some(if timedOut then TimedOut else CancelledQueued)
    case CancelSeen => Some(CancelledActive)
    case CancelRaised => Some(CancelledActive)
    case CountOutcome(o) => Some(o)
    case Deactivate(o) => Some(o)
    case ReleaseProject(o) => Some(o)
    case ReleaseGlobal(o) => Some(o)
    case Done(o) => Some(o)
    case _ => None
  }

  /** The outcomes of a request whose call has been run. */
  predicate CallEnded(o: Outcome) {
    o == Completed || o == Failed || o == CancelledRunning
  }

  predicate HasRun(pc: Pc) {
    BoundFor(pc).Some? && CallEnded(BoundFor(pc).value)
  }

  /** How often the call of request `i` has returned. */
  function Returns(i: nat, past: seq<Action>): nat {
    if |past| == 0 then 0
    else Returns(i, past[..|past| - 1]) + Bit(past[|past| - 1].Return? && past[|past| - 1].i == i)
  }

  /** What must have happened for request `i` to be bound for `o`. */
  predicate Cause(i: nat, o: Outcome, past: seq<Action>) {
    match o
    case TimedOut => GiveUp(i, true) in past
    case CancelledQueued => GiveUp(i, false) in past && SetCancel(i) in past
    case CancelledActive => SetCancel(i) in past
    case _ => Return(i, o) in past
  }

  predicate Caused(i: nat, c: Client, past: seq<Action>) {
    && (c.cancelSet <==> SetCancel(i) in past)
    && Returns(i, past) == Bit(HasRun(c.pc))
    && (BoundFor(c.pc).Some? ==> Cause(i, BoundFor(c.pc).value, past))
  }

  predicate Untouched(i: nat, past: seq<Action>) {
    SetCancel(i) !in past && Returns(i, past) == 0
  }

  predicate Explained(s: State, i: nat, past: seq<Action>) {
    if i < |s.clients| then Caused(i, s.clients[i], past) else Untouched(i, past)
  }

  lemma ReturnsSnoc(i: nat, past: seq<Action>, a: Action)
    ensures Returns(i, past + [a]) == Returns(i, past) + Bit(a.Return? && a.i == i)
  {
    assert (past + [a])[..|past|] == past;
  }

  lemma CauseKept(i: nat, o: Outcome, past: seq<Action>, a: Action)
    requires Cause(i, o, past)
    ensures Cause(i, o, past + [a])
  {
  }

  /** Where a request is bound never changes; while it is bound for nothing yet,
      each outcome is entered through its own action only. */
  lemma OutcomeIsFinal(cfg: Config, s: State, a: Action, i: nat)
    requires Apply(cfg, s, a).Some? && i < |s.clients|
    ensures var t := Apply(cfg, s, a).value;
            && i < |t.clients|
            && (t.clients[i].cancelSet <==> s.clients[i].cancelSet || a == SetCancel(i))
            && (match BoundFor(s.clients[i].pc)
                case Some(o) => BoundFor(t.clients[i].pc) == Some(o) && !(a.Return? && a.i == i)
                case None =>
                  match BoundFor(t.clients[i].pc)
                  case None => !(a.Return? && a.i == i)
                  case Some(TimedOut) => a == GiveUp(i, true)
                  case Some(CancelledQueued) => a == GiveUp(i, false) && s.clients[i].cancelSet
                  case Some(CancelledActive) => a == Advance(i) && s.clients[i].cancelSet
                  case Some(o) => a == Return(i, o) && CallEnded(o))
  {
    match a
    case Submit(_, _) =>
    case Advance(j) =>
      if j == i {
        OwnStepKeepsBound(cfg, s, s.clients[i]);
      }
    case _ =>
  }

  lemma OwnStepKeepsBound(cfg: Config, s: State, c: Client)
    requires StepOf(cfg, s, c).Some?
    ensures var pc := StepOf(cfg, s, c).value.1;
            match BoundFor(c.pc)
            case Some(o) => BoundFor(pc) == Some(o)
            case None => BoundFor(pc).None? || (BoundFor(pc) == Some(CancelledActive) && c.cancelSet)
  {
  }

  lemma StepExplained(cfg: Config, s: State, a: Action, past: seq<Action>, i: nat)
    requires Apply(cfg, s, a).Some? && Explained(s, i, past)
    ensures Explained(Apply(cfg, s, a).value, i, past + [a])
  {
    ReturnsSnoc(i, past, a);
    if i < |s.clients| {
      OutcomeIsFinal(cfg, s, a, i);
      if BoundFor(s.clients[i].pc).Some? {
        CauseKept(i, BoundFor(s.clients[i].pc).value, past, a);
      }
    }
  }

  lemma {:induction false} RunExplained(cfg: Config, s: State, past: seq<Action>, acts: seq<Action>, i: nat)
    requires Run(cfg, s, acts).Some? && Explained(s, i, past)
    ensures Explained(Run(cfg, s, acts).value, i, past + acts)
    decreases |acts|
  {
    if |acts| == 0 {
      assert past + acts == past;
    } else {
      StepExplained(cfg, s, acts[0], past, i);
      RunExplained(cfg, Apply(cfg, s, acts[0]).value, past + [acts[0]], acts[1..], i);
      assert past + [acts[0]] + acts[1..] == past + acts;
    }
  }

  /** Every outcome has its cause. Over every run, for every request: its event is
      set if and only if it was cancelled; it is bound for a timeout only after it
      gave up a wait, for a cancellation without a call only with its event set,
      and for any other outcome only because its call returned with it; and the
      call has returned exactly once in that last case and never otherwise. */
  lemma EveryOutcomeHasItsCause(cfg: Config, acts: seq<Action>, i: nat)
    requires Run(cfg, Initial(cfg), acts).Some? && i < |Run(cfg, Initial(cfg), acts).value.clients|
    ensures var c := Run(cfg, Initial(cfg), acts).value.clients[i];
            && (c.cancelSet <==> SetCancel(i) in acts)
            && Returns(i, acts) == (if HasRun(c.pc) then 1 else 0)
            && (match BoundFor(c.pc)
                case None => true
                case Some(TimedOut) => GiveUp(i, true) in acts
                case Some(CancelledQueued) => c.cancelSet && GiveUp(i, false) in acts
                case Some(CancelledActive) => c.cancelSet
                case Some(o) => CallEnded(o) && Return(i, o) in acts)
  {
    var none: seq<Action> := [];
    RunExplained(cfg, Initial(cfg), none, acts, i);
    assert none + acts == acts;
    assert Explained(Run(cfg, Initial(cfg), acts).value, i, acts);
  }

  /** A request that is neither cancelled nor timed out ends only by running its call, once. */
  lemma UndisturbedCallIsRun(cfg: Config, acts: seq<Action>, i: nat)
    requires Run(cfg, Initial(cfg), acts).Some? && i < |Run(cfg, Initial(cfg), acts).value.clients|
    requires Run(cfg, Initial(cfg), acts).value.clients[i].pc.Done?
    requires SetCancel(i) !in acts && GiveUp(i, true) !in acts
    ensures var o := Run(cfg, Initial(cfg), acts).value.clients[i].pc.outcome;
            CallEnded(o) && Return(i, o) in acts && Returns(i, acts) == 1
  {
    EveryOutcomeHasItsCause(cfg, acts, i);
  }

  /** A call starts only from the check of the event, and only if the event is not set. */
  lemma StartsOnlyUncancelled(cfg: Config, s: State, a: Action, i: nat)
    requires Apply(cfg, s, a).Some? && i < |s.clients| && !s.clients[i].pc.Executing?
    requires Apply(cfg, s, a).value.clients[i].pc.Executing?
    ensures a == Advance(i) && s.clients[i].pc.CheckEvent? && !s.clients[i].cancelSet
  {
  }

  /** A request that has not started its call. */
  predicate NotStarted(c: Client) {
    !c.pc.Executing? && !HasRun(c.pc)
  }

  /** Once the event of a request that has not started is set, no continuation runs its call. */
  lemma {:induction false} CancelledCallNeverRuns(cfg: Config, s: State, acts: seq<Action>, i: nat)
    requires Run(cfg, s, acts).Some? && i < |s.clients| && NotStarted(s.clients[i]) && s.clients[i].cancelSet
    ensures i < |Run(cfg, s, acts).value.clients| && NotStarted(Run(cfg, s, acts).value.clients[i])
    ensures forall o :: Return(i, o) !in acts
    decreases |acts|
  {
    if |acts| > 0 {
      var t := Apply(cfg, s, acts[0]).value;
      OutcomeIsFinal(cfg, s, acts[0], i);
      if t.clients[i].pc.Executing? {
        StartsOnlyUncancelled(cfg, s, acts[0], i);
      }
      CancelledCallNeverRuns(cfg, t, acts[1..], i);
      assert forall o :: Return(i, o) in acts ==> acts[0] == Return(i, o) || Return(i, o) in acts[1..];
    }
  }

  // ---- Nothing stands in the way of an outcome ----

  /** The request ends with `o` by these steps, whatever the others do not do. */
  ghost predicate EndsBy(cfg: Config, s: State, i: nat, o: Outcome, acts: seq<Action>)
    requires i < |s.clients|
  {
    && Run(cfg, s, acts).Some?
    && Run(cfg, s, acts).value.clients == s.clients[i := s.clients[i].(pc := Done(o))]
  }

  ghost predicate CanEnd(cfg: Config, s: State, i: nat, o: Outcome)
    requires i < |s.clients|
  {
    exists acts :: EndsBy(cfg, s, i, o, acts)
  }

  lemma EndsNext(cfg: Config, s: State, a: Action, i: nat, o: Outcome)
    requires Apply(cfg, s, a).Some? && i < |s.clients|
    requires exists pc :: Apply(cfg, s, a).value.clients == s.clients[i := s.clients[i].(pc := pc)]
    requires CanEnd(cfg, Apply(cfg, s, a).value, i, o)
    ensures CanEnd(cfg, s, i, o)
  {
    var t := Apply(cfg, s, a).value;
    var acts :| EndsBy(cfg, t, i, o, acts);
    assert ([a] + acts)[1..] == acts;
    assert EndsBy(cfg, s, i, o, [a] + acts);
  }

  lemma EndedAlready(cfg: Config, s: State, i: nat)
    requires i < |s.clients| && s.clients[i].pc.Done?
    ensures CanEnd(cfg, s, i, s.clients[i].pc.outcome)
  {
    assert s.clients == s.clients[i := s.clients[i].(pc := Done(s.clients[i].pc.outcome))];
    var none: seq<Action> := [];
    assert EndsBy(cfg, s, i, s.clients[i].pc.outcome, none);
  }

  /** Its own steps take a request to the outcome it is bound for. */
  lemma {:induction false} EndsAsBound(cfg: Config, s: State, i: nat)
    requires Inv(cfg, s) && i < |s.clients| && BoundFor(s.clients[i].pc).Some?
    ensures CanEnd(cfg, s, i, BoundFor(s.clients[i].pc).value)
    decreases Left(s.clients[i].pc)
  {
    var c := s.clients[i];
    if c.pc.Done? {
      EndedAlready(cfg, s, i);
    } else {
      OnlyWaitsBlock(cfg, s, i);
      ApplyKeepsInv(cfg, s, Advance(i));
      OwnStepKeepsBound(cfg, s, c);
      var t := Apply(cfg, s, Advance(i)).value;
      assert t.clients == s.clients[i := c.(pc := t.clients[i].pc)];
      EndsAsBound(cfg, t, i);
      EndsNext(cfg, s, Advance(i), i, BoundFor(c.pc).value);
    }
  }

  lemma TurnsTo(cfg: Config, s: State, a: Action, i: nat, o: Outcome)
    requires Inv(cfg, s) && i < |s.clients| && Apply(cfg, s, a).Some?
    requires Apply(cfg, s, a).value.clients == s.clients[i := s.clients[i].(pc := Apply(cfg, s, a).value.clients[i].pc)]
    requires BoundFor(Apply(cfg, s, a).value.clients[i].pc) == Some(o)
    ensures CanEnd(cfg, s, i, o)
  {
    ApplyKeepsInv(cfg, s, a);
    EndsAsBound(cfg, Apply(cfg, s, a).value, i);
    EndsNext(cfg, s, a, i, o);
  }

  lemma WaitCanBeLeft(cfg: Config, s: State, i: nat, timedOut: bool)
    requires Inv(cfg, s) && i < |s.clients| && Waiting(s.clients[i]) && (timedOut || s.clients[i].cancelSet)
    ensures CanEnd(cfg, s, i, if timedOut then TimedOut else CancelledQueued)
  {
    TurnsTo(cfg, s, GiveUp(i, timedOut), i, if timedOut then TimedOut else CancelledQueued);
  }

  lemma CallCanEnd(cfg: Config, s: State, i: nat, o: Outcome)
    requires Inv(cfg, s) && i < |s.clients| && s.clients[i].pc.Executing? && o in {Completed, Failed, CancelledRunning}
    ensures CanEnd(cfg, s, i, o)
  {
    TurnsTo(cfg, s, Return(i, o), i, o);
  }

  /** In every reachable state, by its own steps and leaving every other request
      where it is: a waiting request can end as timed out, and as cancelled once
      its event is set; a request inside its call can end with any outcome of the call. */
  lemma EveryOutcomeIsOpen(cfg: Config, s: State, i: nat)
    requires Reachable(cfg, s) && i < |s.clients|
    ensures Waiting(s.clients[i]) ==> CanEnd(cfg, s, i, TimedOut)
    ensures Waiting(s.clients[i]) && s.clients[i].cancelSet ==> CanEnd(cfg, s, i, CancelledQueued)
    ensures s.clients[i].pc.Executing? ==>
              CanEnd(cfg, s, i, Completed) && CanEnd(cfg, s, i, Failed) && CanEnd(cfg, s, i, CancelledRunning)
  {
    ReachableInv(cfg, s);
    if Waiting(s.clients[i]) {
      WaitCanBeLeft(cfg, s, i, true);
      if s.clients[i].cancelSet {
        WaitCanBeLeft(cfg, s, i, false);
      }
    } else if s.clients[i].pc.Executing? {
      CallCanEnd(cfg, s, i, Completed);
      CallCanEnd(cfg, s, i, Failed);
      CallCanEnd(cfg, s, i, CancelledRunning);
    }
  }
}
