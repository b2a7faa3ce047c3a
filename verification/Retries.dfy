/** Retrying failed and cancelled runs: each retry is a new record that counts one more. */
module Retries {
  import opened RunModel

  datatype Record = Record(status: Status, retryCount: nat)

  datatype RetryError = NotFound | WrongStatus | LimitReached

  datatype Result = Ok(record: Record) | Err(error: RetryError)

  /** The run records by identifier; `retryOf` is the history of which run each retry was made for. */
  datatype State = State(runs: map<string, Record>, retryOf: map<string, string>)

  function RetryResult(s: State, maxRetries: nat, id: string): Result {
    if id !in s.runs then Err(NotFound)
    else if s.runs[id].status != Failed && s.runs[id].status != Cancelled then Err(WrongStatus)
    else if s.runs[id].retryCount >= maxRetries then Err(LimitReached)
    else Ok(Record(Queued, s.runs[id].retryCount + 1))
  }

  class RunRecords {
    var runs: map<string, Record>
    ghost var retryOf: map<string, string>

    ghost function View(): State
      reads this
    {
      State(runs, retryOf)
    }

    constructor ()
      ensures View() == State(map[], map[])
    {
      runs, retryOf := map[], map[];
    }

    /** `newId` is the fresh identifier drawn for the retry. */
    method RetryRun(id: string, newId: string, maxRetries: nat) returns (r: Result)
      requires newId !in runs
      modifies this
      ensures r == RetryResult(old(View()), maxRetries, id)
      ensures View() == if r.Ok? then State(old(runs)[newId := r.record], old(retryOf)[newId := id]) else old(View())
    {
      if id !in runs {
        return Err(NotFound);
      }
      var state := runs[id];
      if state.status !in {Failed, Cancelled} {
        return Err(WrongStatus);
      }
      if state.retryCount >= maxRetries {
        return Err(LimitReached);
      }
      var fresh' := Record(Queued, state.retryCount + 1);
      runs := runs[newId := fresh'];
      retryOf := retryOf[newId := id];
      return Ok(fresh');
    }
  }

  // ---- Runs of calls ----

  /** A run is created, its status is rewritten by the actors of its protocol, or it is retried. */
  datatype Op = Create(id: string) | SetStatus(id: string, status: Status) | Retry(id: string, newId: string)

  function Step(s: State, op: Op, maxRetries: nat): State {
    match op
    case Create(id) => if id in s.runs then s else s.(runs := s.runs[id := Record(Queued, 0)])
    case SetStatus(id, status) => if id in s.runs then s.(runs := s.runs[id := s.runs[id].(status := status)]) else s
    case Retry(id, newId) =>
      if newId in s.runs then s
      else
        match RetryResult(s, maxRetries, id)
        case Ok(record) => State(s.runs[newId := record], s.retryOf[newId := id])
        case Err(_) => s
  }

  function Run(ops: seq<Op>, maxRetries: nat): State {
    if |ops| == 0 then State(map[], map[]) else Step(Run(ops[..|ops| - 1], maxRetries), ops[|ops| - 1], maxRetries)
  }

  /** A retry counts one more than the run it was made for; any other run counts zero. */
  predicate Linked(s: State, id: string)
    requires id in s.runs
  {
    if id in s.retryOf then s.retryOf[id] in s.runs && s.runs[id].retryCount == s.runs[s.retryOf[id]].retryCount + 1
    else s.runs[id].retryCount == 0
  }

  ghost predicate Inv(s: State, maxRetries: nat) {
    && (forall id <- s.retryOf :: id in s.runs)
    && (forall id <- s.runs :: s.runs[id].retryCount <= maxRetries && Linked(s, id))
  }

  lemma RetryKeepsInv(s: State, maxRetries: nat, id: string, newId: string)
    requires Inv(s, maxRetries) && newId !in s.runs && RetryResult(s, maxRetries, id).Ok?
    ensures Inv(Step(s, Retry(id, newId), maxRetries), maxRetries)
  {
    var t := Step(s, Retry(id, newId), maxRetries);
    forall other | other in t.runs
      ensures t.runs[other].retryCount <= maxRetries && Linked(t, other)
    {
      assert other in s.runs ==> Linked(s, other);
    }
  }

  /** A record keeps its count; a record that is added without a retry counts zero. */
  lemma WriteKeepsInv(s: State, maxRetries: nat, id: string, r: Record)
    requires Inv(s, maxRetries) && r.retryCount == if id in s.runs then s.runs[id].retryCount else 0
    ensures Inv(s.(runs := s.runs[id := r]), maxRetries)
  {
    var t := s.(runs := s.runs[id := r]);
    forall other | other in t.runs
      ensures t.runs[other].retryCount <= maxRetries && Linked(t, other)
    {
      assert other in s.runs ==> Linked(s, other);
    }
  }

  lemma StepKeepsInv(s: State, op: Op, maxRetries: nat)
    requires Inv(s, maxRetries)
    ensures Inv(Step(s, op, maxRetries), maxRetries)
  {
    match op
    case Create(id) =>
      if id !in s.runs {
        WriteKeepsInv(s, maxRetries, id, Record(Queued, 0));
      }
    case SetStatus(id, status) =>
      if id in s.runs {
        WriteKeepsInv(s, maxRetries, id, s.runs[id].(status := status));
      }
    case Retry(id, newId) =>
      if newId !in s.runs && RetryResult(s, maxRetries, id).Ok? {
        RetryKeepsInv(s, maxRetries, id, newId);
      }
  }

  lemma {:induction false} RunKeepsInv(ops: seq<Op>, maxRetries: nat)
    ensures Inv(Run(ops, maxRetries), maxRetries)
  {
    if |ops| > 0 {
      RunKeepsInv(ops[..|ops| - 1], maxRetries);
      StepKeepsInv(Run(ops[..|ops| - 1], maxRetries), ops[|ops| - 1], maxRetries);
    }
  }

  /** The run reached by going back `n` times from a retry to what it retried. */
  function Origin(s: State, id: string, n: nat): string
    decreases n
  {
    if n == 0 || id !in s.retryOf then id else Origin(s, s.retryOf[id], n - 1)
  }

  lemma {:induction false} OriginCounts(s: State, maxRetries: nat, id: string, n: nat)
    requires Inv(s, maxRetries) && id in s.runs && n <= s.runs[id].retryCount
    ensures Origin(s, id, n) in s.runs && s.runs[Origin(s, id, n)].retryCount == s.runs[id].retryCount - n
    decreases n
  {
    assert Linked(s, id);
    if n > 0 {
      OriginCounts(s, maxRetries, s.retryOf[id], n - 1);
    }
  }

  /** Over any run of calls, a record's retry count is the length of its chain of
      retries: each run on the way back is a retry until, after as many steps as
      the count says, one that is none is reached. The count never exceeds the limit. */
  lemma RetryCountIsChainLength(ops: seq<Op>, maxRetries: nat, id: string)
    requires id in Run(ops, maxRetries).runs
    ensures var s := Run(ops, maxRetries);
            && s.runs[id].retryCount <= maxRetries
            && (forall n :: 0 <= n < s.runs[id].retryCount ==> Origin(s, id, n) in s.retryOf)
            && Origin(s, id, s.runs[id].retryCount) in s.runs
            && Origin(s, id, s.runs[id].retryCount) !in s.retryOf
  {
    var s := Run(ops, maxRetries);
    RunKeepsInv(ops, maxRetries);
    OriginCounts(s, maxRetries, id, s.runs[id].retryCount);
    assert Linked(s, Origin(s, id, s.runs[id].retryCount));
    forall n | 0 <= n < s.runs[id].retryCount
      ensures Origin(s, id, n) in s.retryOf
    {
      OriginCounts(s, maxRetries, id, n);
      assert Linked(s, Origin(s, id, n));
    }
  }

  function RetryAll(s: State, maxRetries: nat, id: string, newIds: seq<string>): State {
    if |newIds| == 0 then s
    else Step(RetryAll(s, maxRetries, id, newIds[..|newIds| - 1]), Retry(id, newIds[|newIds| - 1]), maxRetries)
  }

  /** Beside the runs of `s` there is one queued retry of run `id` for each new identifier, and nothing else. */
  ghost predicate AllRetried(t: State, s: State, id: string, newIds: seq<string>)
    requires id in s.runs
  {
    && t.runs.Keys == s.runs.Keys + (set x | x in newIds)
    && (forall other <- s.runs :: t.runs[other] == s.runs[other])
    && (forall i :: 0 <= i < |newIds| ==> t.runs[newIds[i]] == Record(Queued, s.runs[id].retryCount + 1))
  }

  predicate NewTo(s: State, newIds: seq<string>) {
    && (forall i :: 0 <= i < |newIds| ==> newIds[i] !in s.runs)
    && (forall i, j :: 0 <= i < j < |newIds| ==> newIds[i] != newIds[j])
  }

  lemma OneMoreRetry(t: State, s: State, maxRetries: nat, id: string, newIds: seq<string>)
    requires |newIds| > 0 && NewTo(s, newIds) && RetryResult(s, maxRetries, id).Ok?
    requires AllRetried(t, s, id, newIds[..|newIds| - 1])
    ensures AllRetried(Step(t, Retry(id, newIds[|newIds| - 1]), maxRetries), s, id, newIds)
  {
    var n := |newIds| - 1;
    assert newIds == newIds[..n] + [newIds[n]];
    assert newIds[n] !in newIds[..n];
  }

  /** The limit bounds the chain, not the number of retries: a retry leaves the
      run it was made for as it was, so the same run can be retried any number of times. */
  lemma {:induction false} SameRunRetriedAnyTimes(s: State, maxRetries: nat, id: string, newIds: seq<string>)
    requires RetryResult(s, maxRetries, id).Ok? && NewTo(s, newIds)
    ensures AllRetried(RetryAll(s, maxRetries, id, newIds), s, id, newIds)
  {
    if |newIds| > 0 {
      var before := newIds[..|newIds| - 1];
      SameRunRetriedAnyTimes(s, maxRetries, id, before);
      OneMoreRetry(RetryAll(s, maxRetries, id, before), s, maxRetries, id, newIds);
    }
  }

  // ---- How often a run can be retried in a row ----

  /** A run that is created and ends unsuccessfully; each of the next ones is made for
      the one before it, if that is granted, and ends unsuccessfully too. */
  function RetriedInARow(maxRetries: nat, ids: seq<string>, ends: seq<Status>): State
    requires 0 < |ids| == |ends|
  {
    var n := |ids| - 1;
    if n == 0 then Step(Step(State(map[], map[]), Create(ids[0]), maxRetries), SetStatus(ids[0], ends[0]), maxRetries)
    else Attempt(RetriedInARow(maxRetries, ids[..n], ends[..n]), maxRetries, ids[n - 1], ids[n], ends[n])
  }

  /** A run is retried and the retry ends. */
  function Attempt(s: State, maxRetries: nat, id: string, newId: string, end: Status): State {
    Step(Step(s, Retry(id, newId), maxRetries), SetStatus(newId, end), maxRetries)
  }

  ghost predicate GrantedUpTo(s: State, maxRetries: nat, ids: seq<string>, ends: seq<Status>)
    requires |ids| == |ends|
  {
    && (forall k :: 0 <= k < |ids| && k <= maxRetries ==> ids[k] in s.runs && s.runs[ids[k]] == Record(ends[k], k))
    && (forall id <- s.runs :: exists k :: 0 <= k < |ids| && k <= maxRetries && ids[k] == id)
  }

  predicate Unsuccessful(ends: seq<Status>) {
    forall k :: 0 <= k < |ends| ==> ends[k] == Failed || ends[k] == Cancelled
  }

  predicate Distinct(ids: seq<string>) {
    forall j, k :: 0 <= j < k < |ids| ==> ids[j] != ids[k]
  }

  /** Exactly `maxRetries` retries in a row are granted, after a failure as after
      a cancellation, and no more: the k-th run of the chain exists if and only if
      k is within the limit, and then it counts k. */
  lemma {:induction false} LimitRetriesInARow(maxRetries: nat, ids: seq<string>, ends: seq<Status>)
    requires 0 < |ids| == |ends| && Distinct(ids) && Unsuccessful(ends)
    ensures GrantedUpTo(RetriedInARow(maxRetries, ids, ends), maxRetries, ids, ends)
  {
    var n := |ids| - 1;
    if n > 0 {
      LimitRetriesInARow(maxRetries, ids[..n], ends[..n]);
      var s := RetriedInARow(maxRetries, ids[..n], ends[..n]);
      OneMoreInARow(s, maxRetries, ids, ends);
    }
  }

  lemma AttemptAdds(s: State, maxRetries: nat, id: string, newId: string, end: Status)
    requires newId !in s.runs
    requires id in s.runs ==> s.runs[id].status == Failed || s.runs[id].status == Cancelled
    ensures Attempt(s, maxRetries, id, newId, end).runs
         == if id in s.runs && s.runs[id].retryCount < maxRetries then s.runs[newId := Record(end, s.runs[id].retryCount + 1)]
            else s.runs
  {
  }

  lemma ChainPrefix(s: State, maxRetries: nat, ids: seq<string>, ends: seq<Status>)
    requires 0 < |ids| == |ends| && GrantedUpTo(s, maxRetries, ids[..|ids| - 1], ends[..|ids| - 1])
    ensures forall k :: 0 <= k < |ids| - 1 && k <= maxRetries ==> ids[k] in s.runs && s.runs[ids[k]] == Record(ends[k], k)
    ensures forall id <- s.runs :: exists k :: 0 <= k < |ids| - 1 && k <= maxRetries && ids[k] == id
  {
    var n := |ids| - 1;
    assert forall k :: 0 <= k < n ==> ids[..n][k] == ids[k] && ends[..n][k] == ends[k];
  }

  lemma OneMoreInARow(s: State, maxRetries: nat, ids: seq<string>, ends: seq<Status>)
    requires 1 < |ids| == |ends| && Distinct(ids) && Unsuccessful(ends)
    requires GrantedUpTo(s, maxRetries, ids[..|ids| - 1], ends[..|ids| - 1])
    ensures var n := |ids| - 1;
            GrantedUpTo(Attempt(s, maxRetries, ids[n - 1], ids[n], ends[n]), maxRetries, ids, ends)
  {
    var n := |ids| - 1;
    ChainPrefix(s, maxRetries, ids, ends);
    AttemptAdds(s, maxRetries, ids[n - 1], ids[n], ends[n]);
  }
}
