/** When each risk rule fires, and where every risk record comes from. */
module RiskRules {
  import opened RiskScan
  import opened Wrappers

  // ---- The deadline rules ----

  predicate Finished(task: Task) {
    task.status in {"completed", "cancelled"}
  }

  /** An open task with a due date: the deadline rule fires on the days from
      `daysBefore` days ahead up to the due date, the overdue rule on the days more
      than `graceDays` past it. With a grace period that is not negative no day
      has both, and from the first of these days on every day has one of the two
      if and only if there is no grace period. */
  lemma DeadlineIsWatched(task: Task, near: Rule, late: Rule, ctx: Context)
    requires near.enabled && near.kind == NearDeadline && late.enabled && late.kind == Overdue
    requires task.due.Some? && !Finished(task)
    ensures Fires(task, near, ctx) <==> task.due.value - near.config.daysBefore <= ctx.today <= task.due.value
    ensures Fires(task, late, ctx) <==> ctx.today > task.due.value + late.config.graceDays
    ensures late.config.graceDays >= 0 ==> !(Fires(task, near, ctx) && Fires(task, late, ctx))
    ensures late.config.graceDays >= 0 && near.config.daysBefore >= 0 ==>
              ((forall day :: day >= task.due.value - near.config.daysBefore ==>
                  Fires(task, near, ctx.(today := day)) || Fires(task, late, ctx.(today := day)))
               <==> late.config.graceDays == 0)
  {
    if late.config.graceDays > 0 {
      var day := task.due.value + 1;
      assert !Fires(task, near, ctx.(today := day)) && !Fires(task, late, ctx.(today := day));
    }
  }

  /** A finished task, and one without a due date, has no deadline. */
  lemma NoDeadlineNoRisk(task: Task, r: Rule, ctx: Context)
    requires r.kind == NearDeadline || r.kind == Overdue
    ensures Finished(task) || task.due.None? ==> !Fires(task, r, ctx)
  {
  }

  // ---- The other rules ----

  /** Of the tasks given for one identifier the last one counts. */
  predicate CountsFor(tasks: seq<Task>, k: nat, id: string)
    requires k < |tasks|
  {
    tasks[k].id == id && forall j :: k < j < |tasks| ==> tasks[j].id != id
  }

  lemma {:induction false} TableHolds(tasks: seq<Task>, k: nat)
    requires k < |tasks| && CountsFor(tasks, k, tasks[k].id)
    ensures tasks[k].id in TaskTable(tasks) && TaskTable(tasks)[tasks[k].id] == tasks[k]
  {
    var n := |tasks| - 1;
    if k < n {
      assert tasks[n].id != tasks[k].id;
      TableHolds(tasks[..n], k);
    }
  }

  lemma {:induction false} LastOfId(tasks: seq<Task>, id: string) returns (k: nat)
    requires id in TaskTable(tasks)
    ensures k < |tasks| && CountsFor(tasks, k, id)
  {
    var n := |tasks| - 1;
    if tasks[n].id == id {
      return n;
    }
    k := LastOfId(tasks[..n], id);
  }

  /** Task `k` is a dependency and stands at a blocking status. */
  predicate Blocks(task: Task, tasks: seq<Task>, k: nat, blocking: set<string>) {
    && k < |tasks| && tasks[k].id in task.dependencies
    && CountsFor(tasks, k, tasks[k].id) && tasks[k].status in blocking
  }

  /** Some dependency names a task of the project that stands at a blocking status. */
  ghost predicate DependsOnBlocking(task: Task, tasks: seq<Task>, blocking: set<string>) {
    exists k :: Blocks(task, tasks, k, blocking)
  }

  lemma BlockedIff(task: Task, tasks: seq<Task>, blocking: set<string>)
    ensures Blocked(task, TaskTable(tasks), blocking) <==> DependsOnBlocking(task, tasks, blocking)
  {
    if d :| d in task.dependencies && d in TaskTable(tasks) && TaskTable(tasks)[d].status in blocking {
      var k := LastOfId(tasks, d);
      TableHolds(tasks, k);
      assert Blocks(task, tasks, k, blocking);
    } else if k: nat :| Blocks(task, tasks, k, blocking) {
      TableHolds(tasks, k);
    }
  }

  /** Missing evidence and unverified acceptance criteria are risks at the statuses
      the rule checks; a dependency is one while it stands at a blocking status; a
      conflict is one when at least two materials disagree. A disabled or unknown
      rule never fires. */
  lemma FiresIff(task: Task, r: Rule, ctx: Context)
    requires r.kind != NearDeadline && r.kind != Overdue
    ensures Fires(task, r, ctx) <==>
            r.enabled &&
            match r.kind
            case NoEvidence => task.status in r.config.checkStatuses && task.evidence < r.config.minEvidence
            case AcceptanceGap => task.status in r.config.checkStatuses && |task.acceptance| > 0
            case DependencyBlock => DependsOnBlocking(task, ctx.tasks, r.config.blockingStatuses)
            case MaterialConflict => task.id in ctx.conflicts && |ctx.conflicts[task.id]| >= 2
            case _ => false
  {
    BlockedIff(task, ctx.tasks, r.config.blockingStatuses);
  }

  // ---- Where a record comes from ----

  /** Task `t` and rule `k` of a scan fire, and the record names them: the rule's
      own severity, and the digest of task, kind of rule and status. */
  predicate Explains(ctx: Context, t: nat, k: nat, h: Digest, f: Finding) {
    && t < |ctx.tasks| && k < |ctx.rules| && Fires(ctx.tasks[t], ctx.rules[k], ctx)
    && f.ruleId == ctx.rules[k].id && f.kind == ctx.rules[k].kind && f.severity == ctx.rules[k].severity
    && f.taskId == ctx.tasks[t].id
    && f.hash == h(DedupKey(ctx.tasks[t].id, ctx.rules[k].kind, ctx.tasks[t].status))
  }

  ghost predicate Explained(ctx: Context, h: Digest, f: Finding) {
    exists t, k :: Explains(ctx, t, k, h, f)
  }

  lemma {:induction false} TaskFindingExplained(ctx: Context, t: nat, n: nat, h: Digest, f: Finding)
    requires t < |ctx.tasks| && n <= |ctx.rules| && f in TaskFindings(ctx.tasks[t], ctx.rules[..n], ctx, h)
    ensures Explained(ctx, h, f)
  {
    assert ctx.rules[..n][..n - 1] == ctx.rules[..n - 1];
    if f in TaskFindings(ctx.tasks[t], ctx.rules[..n - 1], ctx, h) {
      TaskFindingExplained(ctx, t, n - 1, h, f);
    } else {
      assert Explains(ctx, t, n - 1, h, f);
    }
  }

  lemma {:induction false} FindingExplained(ctx: Context, n: nat, h: Digest, f: Finding)
    requires n <= |ctx.tasks| && f in Findings(ctx.tasks[..n], ctx, h)
    ensures Explained(ctx, h, f)
  {
    assert ctx.tasks[..n][..n - 1] == ctx.tasks[..n - 1];
    if f in Findings(ctx.tasks[..n - 1], ctx, h) {
      FindingExplained(ctx, n - 1, h, f);
    } else {
      assert ctx.rules[..|ctx.rules|] == ctx.rules;
      TaskFindingExplained(ctx, n - 1, |ctx.rules|, h, f);
    }
  }

  /** Position `i` holds the first finding of its hash, and the hash is new. */
  predicate FirstOfNewHash(found: seq<Finding>, existing: set<string>, i: nat) {
    i < |found| && found[i].hash !in existing && forall j :: 0 <= j < i ==> found[j].hash != found[i].hash
  }

  lemma EarlierFirst(found: seq<Finding>, existing: set<string>, i: nat)
    requires i < |found| - 1
    ensures FirstOfNewHash(found, existing, i) <==> FirstOfNewHash(found[..|found| - 1], existing, i)
  {
    assert forall j :: 0 <= j <= i ==> found[..|found| - 1][j] == found[j];
  }

  lemma LastFirst(found: seq<Finding>, existing: set<string>)
    requires |found| > 0
    ensures FirstOfNewHash(found, existing, |found| - 1)
       <==> found[|found| - 1].hash !in existing && found[|found| - 1].hash !in Hashes(found[..|found| - 1])
  {
    var init, hash := found[..|found| - 1], found[|found| - 1].hash;
    HashesMember(init, hash);
    assert forall j :: 0 <= j < |init| ==> init[j] in init && init[j] == found[j];
  }

  /** A kept finding is the first of its new hash. */
  lemma {:induction false} KeptIsFirst(found: seq<Finding>, existing: set<string>, f: Finding) returns (i: nat)
    requires f in Unique(found, existing)
    ensures FirstOfNewHash(found, existing, i) && found[i] == f
  {
    var n := |found| - 1;
    if f in Unique(found[..n], existing) {
      i := KeptIsFirst(found[..n], existing, f);
      EarlierFirst(found, existing, i);
    } else {
      LastFirst(found, existing);
      i := n;
    }
  }

  /** The first finding of a new hash is kept. */
  lemma {:induction false} FirstIsKept(found: seq<Finding>, existing: set<string>, i: nat)
    requires FirstOfNewHash(found, existing, i)
    ensures found[i] in Unique(found, existing)
  {
    if i < |found| - 1 {
      EarlierFirst(found, existing, i);
      FirstIsKept(found[..|found| - 1], existing, i);
    } else {
      LastFirst(found, existing);
    }
  }

  /** Of the findings of one new hash the first is kept, and nothing else is. */
  lemma FirstsAreKept(found: seq<Finding>, existing: set<string>, f: Finding)
    ensures f in Unique(found, existing) <==> exists i: nat :: FirstOfNewHash(found, existing, i) && found[i] == f
  {
    if f in Unique(found, existing) {
      var i := KeptIsFirst(found, existing, f);
    } else if i: nat :| FirstOfNewHash(found, existing, i) && found[i] == f {
      FirstIsKept(found, existing, i);
    }
  }

  /** The event is a scan of the record's project that found it. */
  ghost predicate Finds(e: Event, h: Digest, r: Record) {
    e.Scanned? && e.ctx.project == r.project && Explained(e.ctx, h, r.finding)
  }

  /** Some scan of the record's project found it. */
  ghost predicate Sourced(events: seq<Event>, h: Digest, r: Record) {
    exists e :: 0 <= e < |events| && Finds(events[e], h, r)
  }

  lemma SourcedKept(events: seq<Event>, e: Event, h: Digest, r: Record)
    requires Sourced(events, h, r)
    ensures Sourced(events + [e], h, r)
  {
    var i :| 0 <= i < |events| && Finds(events[i], h, r);
    assert (events + [e])[i] == events[i];
  }

  lemma ScannedIsSourced(before: seq<Event>, ctx: Context, h: Digest, i: nat)
    requires i < |NewFindings(Run(before, h), ctx, h)|
    ensures Sourced(before + [Scanned(ctx)], h, Record(ctx.project, NewFindings(Run(before, h), ctx, h)[i], Active))
  {
    var found := Findings(ctx.tasks, ctx, h);
    var f := NewFindings(Run(before, h), ctx, h)[i];
    FirstsAreKept(found, ActiveHashes(Run(before, h), ctx.project), f);
    assert ctx.tasks[..|ctx.tasks|] == ctx.tasks;
    FindingExplained(ctx, |ctx.tasks|, h, f);
    assert (before + [Scanned(ctx)])[|before|] == Scanned(ctx);
  }

  /** Over every history of scans, acknowledgements and resolutions, every record
      comes from a scan of its project in which its task and its rule fired. */
  lemma {:induction false} EveryRecordIsSourced(events: seq<Event>, h: Digest, i: nat)
    requires i < |Run(events, h)|
    ensures Sourced(events, h, Run(events, h)[i])
  {
    var n := |events| - 1;
    var before := events[..n];
    var records := Run(before, h);
    assert events == before + [events[n]];
    if i < |records| {
      EveryRecordIsSourced(before, h, i);
      SourcedKept(before, events[n], h, records[i]);
      KeepsFinding(records, events[n], h, i);
    } else {
      RowsLength(NewFindings(records, events[n].ctx, h), events[n].ctx.project);
      ScannedIsSourced(before, events[n].ctx, h, i - |records|);
    }
  }

  /** No event changes what an existing record says; only its own acknowledgement
      or resolution changes its lifecycle. */
  lemma KeepsFinding(records: seq<Record>, e: Event, h: Digest, i: nat)
    requires i < |records|
    ensures i < |Step(records, e, h)|
    ensures var r := Step(records, e, h)[i];
            && r.project == records[i].project && r.finding == records[i].finding
            && r.lifecycle == (if e == Acked(i) then Acknowledged
                               else if e == ResolvedBy(i) then Resolved
                               else records[i].lifecycle)
  {
  }
}
