/** The risk rules, the deduplication of their findings, and the record table across repeated scans. */
module RiskScan {
  import opened Wrappers

  datatype Severity = Low | Medium | High | Critical

  datatype Lifecycle = Active | Acknowledged | Resolved

  datatype RuleType =
    NearDeadline | Overdue | NoEvidence | AcceptanceGap | DependencyBlock | MaterialConflict | Custom

  /** A rule's configuration with its defaults filled in. */
  datatype Config = Config(daysBefore: int, graceDays: int, checkStatuses: set<string>, minEvidence: int,
                           blockingStatuses: set<string>)

  datatype Rule = Rule(id: string, kind: RuleType, severity: Severity, config: Config, enabled: bool)

  /** Dates are day numbers. */
  datatype Task = Task(id: string, due: Option<int>, status: string, acceptance: string,
                       dependencies: seq<string>, evidence: nat)

  /** The fields the deduplication digest is taken of. */
  datatype DedupKey = DedupKey(taskId: string, kind: RuleType, status: string)

  /** A hexadecimal digest; nothing is assumed of it but that it is never empty. */
  type Digest = h: DedupKey -> string | forall k :: h(k) != "" witness (k: DedupKey) => "0"

  datatype Finding = Finding(ruleId: string, kind: RuleType, taskId: string, severity: Severity, hash: string)

  /** A row of the record table; its record id is its position. */
  datatype Record = Record(project: string, finding: Finding, lifecycle: Lifecycle)

  /** What a scan reads besides the record table. */
  datatype Context = Context(project: string, tasks: seq<Task>, rules: seq<Rule>,
                             conflicts: map<string, seq<string>>, today: int)

  // ---------------------------------------------------------------- rules

  function TaskTable(tasks: seq<Task>): map<string, Task> {
    if |tasks| == 0 then map[]
    else TaskTable(tasks[..|tasks| - 1])[tasks[|tasks| - 1].id := tasks[|tasks| - 1]]
  }

  predicate Closed(status: string) {
    status == "completed" || status == "cancelled"
  }

  predicate Blocked(task: Task, all: map<string, Task>, blocking: set<string>) {
    exists d :: d in task.dependencies && d in all && all[d].status in blocking
  }

  /** The rule checks: whether rule `r` fires on a task, and with what computed severity. */
  function Check(task: Task, r: Rule, ctx: Context): Option<Severity> {
    match r.kind
    case NearDeadline =>
      if task.due.None? || Closed(task.status) then None
      else
        var diff := task.due.value - ctx.today;
        if diff < 0 || diff > r.config.daysBefore then None
        else Some(if diff > 1 then Medium else High)
    case Overdue =>
      if task.due.None? || Closed(task.status) then None
      else
        var diff := ctx.today - task.due.value;
        if diff <= r.config.graceDays then None
        else Some(if diff <= 7 then High else Critical)
    case NoEvidence =>
      if task.status !in r.config.checkStatuses || task.evidence >= r.config.minEvidence then None else Some(High)
    case AcceptanceGap =>
      if task.status !in r.config.checkStatuses || task.acceptance == "" then None else Some(Medium)
    case DependencyBlock =>
      if Blocked(task, TaskTable(ctx.tasks), r.config.blockingStatuses) then Some(High) else None
    case MaterialConflict =>
      if task.id in ctx.conflicts && |ctx.conflicts[task.id]| >= 2 then Some(High) else None
    case Custom => None
  }

  predicate Fires(task: Task, r: Rule, ctx: Context) {
    r.enabled && Check(task, r, ctx).Some?
  }

  /** The severity configured on the rule replaces the computed one. */
  function Build(task: Task, r: Rule, h: Digest): Finding {
    Finding(r.id, r.kind, task.id, r.severity, h(DedupKey(task.id, r.kind, task.status)))
  }

  function TaskFindings(task: Task, rules: seq<Rule>, ctx: Context, h: Digest): seq<Finding> {
    if |rules| == 0 then []
    else
      var rest, r := TaskFindings(task, rules[..|rules| - 1], ctx, h), rules[|rules| - 1];
      if Fires(task, r, ctx) then rest + [Build(task, r, h)] else rest
  }

  function Findings(tasks: seq<Task>, ctx: Context, h: Digest): seq<Finding> {
    if |tasks| == 0 then []
    else Findings(tasks[..|tasks| - 1], ctx, h) + TaskFindings(tasks[|tasks| - 1], ctx.rules, ctx, h)
  }

  method EvaluateRules(ctx: Context, h: Digest) returns (records: seq<Finding>)
    ensures records == Findings(ctx.tasks, ctx, h)
  {
    records := [];
    for i := 0 to |ctx.tasks|
      invariant records == Findings(ctx.tasks[..i], ctx, h)
    {
      var task := ctx.tasks[i];
      ghost var before := records;
      for j := 0 to |ctx.rules|
        invariant records == before + TaskFindings(task, ctx.rules[..j], ctx, h)
      {
        var r := ctx.rules[j];
        assert ctx.rules[..j + 1][..j] == ctx.rules[..j];
        if r.enabled && Check(task, r, ctx).Some? {
          records := records + [Build(task, r, h)];
        }
      }
      assert ctx.rules[..|ctx.rules|] == ctx.rules;
      assert ctx.tasks[..i + 1][..i] == ctx.tasks[..i];
    }
    assert ctx.tasks[..|ctx.tasks|] == ctx.tasks;
  }

  lemma {:induction false} TaskFindingsChar(task: Task, rules: seq<Rule>, ctx: Context, h: Digest, r: Rule)
    requires r in rules && Fires(task, r, ctx)
    ensures Build(task, r, h) in TaskFindings(task, rules, ctx, h)
  {
    if rules[|rules| - 1] != r {
      TaskFindingsChar(task, rules[..|rules| - 1], ctx, h, r);
    }
  }

  lemma {:induction false} FiringIsFound(tasks: seq<Task>, ctx: Context, h: Digest, task: Task, r: Rule)
    requires task in tasks && r in ctx.rules && Fires(task, r, ctx)
    ensures Build(task, r, h) in Findings(tasks, ctx, h)
  {
    if tasks[|tasks| - 1] == task {
      TaskFindingsChar(task, ctx.rules, ctx, h, r);
    } else {
      FiringIsFound(tasks[..|tasks| - 1], ctx, h, task, r);
    }
  }

  // ---------------------------------------------------------------- deduplication

  function Hashes(found: seq<Finding>): set<string> {
    if |found| == 0 then {} else Hashes(found[..|found| - 1]) + {found[|found| - 1].hash}
  }

  predicate DistinctHashes(found: seq<Finding>) {
    |found| > 0 ==>
      && DistinctHashes(found[..|found| - 1])
      && found[|found| - 1].hash !in Hashes(found[..|found| - 1])
  }

  /** The findings kept: the first of each hash that is not among the existing ones. */
  function Unique(found: seq<Finding>, existing: set<string>): seq<Finding> {
    if |found| == 0 then []
    else
      var init, last := found[..|found| - 1], found[|found| - 1];
      if last.hash in existing || last.hash in Hashes(init) then Unique(init, existing)
      else Unique(init, existing) + [last]
  }

  method Deduplicate(found: seq<Finding>, existing: set<string>) returns (unique: seq<Finding>, dupes: nat)
    ensures unique == Unique(found, existing)
    ensures |unique| + dupes == |found|
  {
    unique, dupes := [], 0;
    var seen: set<string> := {};
    for i := 0 to |found|
      invariant unique == Unique(found[..i], existing) && |unique| + dupes == i
      invariant seen == Hashes(found[..i]) - existing
    {
      var r := found[i];
      assert found[..i + 1][..i] == found[..i];
      if r.hash in existing || r.hash in seen {
        dupes := dupes + 1;
      } else {
        seen := seen + {r.hash};
        unique := unique + [r];
      }
    }
    assert found[..|found|] == found;
  }

  lemma {:induction false} HashesMember(found: seq<Finding>, hash: string)
    ensures hash in Hashes(found) <==> exists f :: f in found && f.hash == hash
  {
    if |found| > 0 {
      var init, last := found[..|found| - 1], found[|found| - 1];
      HashesMember(init, hash);
      assert found == init + [last];
    }
  }

  /** Deduplication keeps every new hash exactly once and nothing else. */
  lemma {:induction false} UniqueChar(found: seq<Finding>, existing: set<string>)
    ensures Hashes(Unique(found, existing)) == Hashes(found) - existing
    ensures DistinctHashes(Unique(found, existing))
  {
    if |found| > 0 {
      var init, last := found[..|found| - 1], found[|found| - 1];
      UniqueChar(init, existing);
      var u := Unique(init, existing);
      assert (u + [last])[..|u|] == u;
    }
  }

  // ---------------------------------------------------------------- the record table

  function ActiveHashes(records: seq<Record>, project: string): set<string> {
    if |records| == 0 then {}
    else
      var rest, r := ActiveHashes(records[..|records| - 1], project), records[|records| - 1];
      if r.project == project && r.lifecycle == Active && r.finding.hash != "" then rest + {r.finding.hash} else rest
  }

  function Rows(found: seq<Finding>, project: string): seq<Record> {
    if |found| == 0 then []
    else Rows(found[..|found| - 1], project) + [Record(project, found[|found| - 1], Active)]
  }

  function NewFindings(records: seq<Record>, ctx: Context, h: Digest): seq<Finding> {
    Unique(Findings(ctx.tasks, ctx, h), ActiveHashes(records, ctx.project))
  }

  /** A scan appends the new findings as active records and retires none. */
  function AfterScan(records: seq<Record>, ctx: Context, h: Digest): seq<Record> {
    records + Rows(NewFindings(records, ctx, h), ctx.project)
  }

  function WithLifecycle(records: seq<Record>, id: int, l: Lifecycle): seq<Record> {
    if 0 <= id < |records| then records[id := records[id].(lifecycle := l)] else records
  }

  datatype ScanResult = ScanResult(totalRisks: nat, newRisks: nat, dupes: nat)

  class RiskStore {
    const h: Digest
    var records: seq<Record>

    constructor (h: Digest)
      ensures this.h == h && records == []
    {
      this.h := h;
      records := [];
    }

    /** The query for the hashes of a project's active records. */
    method LoadExistingHashes(project: string) returns (existing: set<string>)
      ensures existing == ActiveHashes(records, project)
    {
      existing := {};
      for i := 0 to |records|
        invariant existing == ActiveHashes(records[..i], project)
      {
        assert records[..i + 1][..i] == records[..i];
        var r := records[i];
        if r.project == project && r.lifecycle == Active && r.finding.hash != "" {
          existing := existing + {r.finding.hash};
        }
      }
      assert records[..|records|] == records;
    }

    method PersistRisks(risks: seq<Finding>, project: string) returns (count: nat)
      modifies this`records
      ensures records == old(records) + Rows(risks, project) && count == |risks|
    {
      count := 0;
      for i := 0 to |risks|
        invariant records == old(records) + Rows(risks[..i], project) && count == i
      {
        assert risks[..i + 1][..i] == risks[..i];
        records := records + [Record(project, risks[i], Active)];
        count := count + 1;
      }
      assert risks[..|risks|] == risks;
    }

    method Scan(ctx: Context) returns (result: ScanResult)
      modifies this`records
      ensures records == AfterScan(old(records), ctx, h)
      ensures result.newRisks == |records| - |old(records)|
      ensures result.newRisks + result.dupes == result.totalRisks == |Findings(ctx.tasks, ctx, h)|
    {
      var existing := LoadExistingHashes(ctx.project);
      var found := EvaluateRules(ctx, h);
      var unique, dupes := Deduplicate(found, existing);
      var count := PersistRisks(unique, ctx.project);
      RowsLength(unique, ctx.project);
      result := ScanResult(|found|, count, dupes);
    }

    method AckRisk(id: int) returns (updated: bool)
      modifies this`records
      ensures records == WithLifecycle(old(records), id, Acknowledged)
      ensures updated <==> 0 <= id < |records|
    {
      updated := 0 <= id < |records|;
      records := WithLifecycle(records, id, Acknowledged);
    }

    method ResolveRisk(id: int) returns (updated: bool)
      modifies this`records
      ensures records == WithLifecycle(old(records), id, Resolved)
      ensures updated <==> 0 <= id < |records|
    {
      updated := 0 <= id < |records|;
      records := WithLifecycle(records, id, Resolved);
    }
  }

  lemma {:induction false} RowsLength(found: seq<Finding>, project: string)
    ensures |Rows(found, project)| == |found|
    ensures forall i :: 0 <= i < |found| ==> Rows(found, project)[i] == Record(project, found[i], Active)
  {
    if |found| > 0 {
      RowsLength(found[..|found| - 1], project);
    }
  }

  // ---------------------------------------------------------------- every sequence of operations

  datatype Event = Scanned(ctx: Context) | Acked(id: int) | ResolvedBy(id: int)

  function Step(records: seq<Record>, e: Event, h: Digest): seq<Record> {
    match e
    case Scanned(ctx) => AfterScan(records, ctx, h)
    case Acked(id) => WithLifecycle(records, id, Acknowledged)
    case ResolvedBy(id) => WithLifecycle(records, id, Resolved)
  }

  /** The table after a history; tasks, rules and dates may differ from scan to scan. */
  function Run(events: seq<Event>, h: Digest): seq<Record> {
    if |events| == 0 then [] else Step(Run(events[..|events| - 1], h), events[|events| - 1], h)
  }

  predicate IsActive(r: Record, project: string, hash: string) {
    r.project == project && r.lifecycle == Active && r.finding.hash == hash
  }

  /** At most one active record per project and hash, and no empty hash. */
  predicate AtMostOneActive(records: seq<Record>) {
    && (forall i :: 0 <= i < |records| ==> records[i].finding.hash != "")
    && (forall i, j :: 0 <= i < j < |records| && records[i].lifecycle == Active ==>
          !IsActive(records[j], records[i].project, records[i].finding.hash))
  }

  lemma {:induction false} ActiveHashesChar(records: seq<Record>, project: string, hash: string)
    ensures hash in ActiveHashes(records, project)
       <==> hash != "" && exists i :: 0 <= i < |records| && IsActive(records[i], project, hash)
  {
    if |records| > 0 {
      var init := records[..|records| - 1];
      ActiveHashesChar(init, project, hash);
      assert forall i :: 0 <= i < |init| ==> init[i] == records[i];
    }
  }

  lemma {:induction false} FindingHashNonEmpty(tasks: seq<Task>, ctx: Context, h: Digest)
    ensures "" !in Hashes(Findings(tasks, ctx, h))
  {
    if |tasks| > 0 {
      FindingHashNonEmpty(tasks[..|tasks| - 1], ctx, h);
      TaskHashNonEmpty(tasks[|tasks| - 1], ctx.rules, ctx, h);
      HashesUnion(Findings(tasks[..|tasks| - 1], ctx, h), TaskFindings(tasks[|tasks| - 1], ctx.rules, ctx, h));
    }
  }

  lemma {:induction false} TaskHashNonEmpty(task: Task, rules: seq<Rule>, ctx: Context, h: Digest)
    ensures "" !in Hashes(TaskFindings(task, rules, ctx, h))
  {
    if |rules| > 0 {
      TaskHashNonEmpty(task, rules[..|rules| - 1], ctx, h);
      HashesUnion(TaskFindings(task, rules[..|rules| - 1], ctx, h), [Build(task, rules[|rules| - 1], h)]);
      assert [Build(task, rules[|rules| - 1], h)][..0] == [];
    }
  }

  lemma {:induction false} HashesUnion(a: seq<Finding>, b: seq<Finding>)
    ensures Hashes(a + b) == Hashes(a) + Hashes(b)
  {
    if |b| == 0 {
      assert a + b == a;
    } else {
      assert (a + b)[..|a| + |b| - 1] == a + b[..|b| - 1];
      HashesUnion(a, b[..|b| - 1]);
    }
  }

  lemma {:induction false} DistinctByIndex(found: seq<Finding>)
    requires DistinctHashes(found)
    ensures forall i, j :: 0 <= i < j < |found| ==> found[i].hash != found[j].hash
  {
    if |found| > 0 {
      var init, last := found[..|found| - 1], found[|found| - 1];
      DistinctByIndex(init);
      HashesMember(init, last.hash);
      assert forall i :: 0 <= i < |init| ==> init[i] in init;
    }
  }

  /** A scan keeps the table free of duplicate active records. */
  lemma ScanKeepsInvariant(records: seq<Record>, ctx: Context, h: Digest)
    requires AtMostOneActive(records)
    ensures AtMostOneActive(AfterScan(records, ctx, h))
  {
    var found, existing := Findings(ctx.tasks, ctx, h), ActiveHashes(records, ctx.project);
    var added := Unique(found, existing);
    UniqueChar(found, existing);
    DistinctByIndex(added);
    RowsLength(added, ctx.project);
    FindingHashNonEmpty(ctx.tasks, ctx, h);
    forall i | 0 <= i < |added|
      ensures added[i].hash != "" && added[i].hash !in existing
    {
      assert added[i] in added;
      HashesMember(added, added[i].hash);
    }
    var after := AfterScan(records, ctx, h);
    forall i, j | 0 <= i < j < |after| && after[i].lifecycle == Active
      ensures !IsActive(after[j], after[i].project, after[i].finding.hash)
    {
      if i < |records| <= j {
        ActiveHashesChar(records, ctx.project, after[j].finding.hash);
        assert IsActive(after[i], after[i].project, after[i].finding.hash);
      }
    }
  }

  /** Over every history a project has at most one active record per hash. */
  lemma {:induction false} RunKeepsInvariant(events: seq<Event>, h: Digest)
    ensures AtMostOneActive(Run(events, h))
  {
    if |events| > 0 {
      var before := events[..|events| - 1];
      RunKeepsInvariant(before, h);
      match events[|events| - 1]
      case Scanned(ctx) => ScanKeepsInvariant(Run(before, h), ctx, h);
      case Acked(_) =>
      case ResolvedBy(_) =>
    }
  }

  /** After a scan the active hashes of its project are the old ones and those of all its findings. */
  lemma ScanActivates(records: seq<Record>, ctx: Context, h: Digest)
    ensures ActiveHashes(AfterScan(records, ctx, h), ctx.project)
         == ActiveHashes(records, ctx.project) + Hashes(Findings(ctx.tasks, ctx, h))
  {
    var found, existing := Findings(ctx.tasks, ctx, h), ActiveHashes(records, ctx.project);
    UniqueChar(found, existing);
    FindingHashNonEmpty(ctx.tasks, ctx, h);
    AppendedActive(records, Unique(found, existing), ctx.project);
  }

  lemma {:induction false} AppendedActive(records: seq<Record>, added: seq<Finding>, project: string)
    requires "" !in Hashes(added)
    ensures ActiveHashes(records + Rows(added, project), project) == ActiveHashes(records, project) + Hashes(added)
  {
    if |added| == 0 {
      assert records + [] == records;
    } else {
      var init := added[..|added| - 1];
      AppendedActive(records, init, project);
      var all := records + Rows(added, project);
      assert all[..|all| - 1] == records + Rows(init, project);
    }
  }

  /** Every firing (task, rule) has an active record with its hash once the scan is done. */
  lemma FiringHasActiveRecord(records: seq<Record>, ctx: Context, h: Digest, task: Task, r: Rule)
    requires task in ctx.tasks && r in ctx.rules && Fires(task, r, ctx)
    ensures exists i :: 0 <= i < |AfterScan(records, ctx, h)|
              && IsActive(AfterScan(records, ctx, h)[i], ctx.project, Build(task, r, h).hash)
  {
    var hash := Build(task, r, h).hash;
    FiringIsFound(ctx.tasks, ctx, h, task, r);
    HashesMember(Findings(ctx.tasks, ctx, h), hash);
    ScanActivates(records, ctx, h);
    ActiveHashesChar(AfterScan(records, ctx, h), ctx.project, hash);
  }

  lemma {:induction false} AllKnown(found: seq<Finding>, existing: set<string>)
    ensures Unique(found, existing) == [] <==> Hashes(found) <= existing
  {
    if |found| > 0 {
      AllKnown(found[..|found| - 1], existing);
    }
  }

  /** Rescanning unchanged data on the same date inserts nothing, whatever table the first scan started from. */
  lemma RescanInsertsNothing(records: seq<Record>, ctx: Context, h: Digest)
    ensures AfterScan(AfterScan(records, ctx, h), ctx, h) == AfterScan(records, ctx, h)
  {
    ScanActivates(records, ctx, h);
    AllKnown(Findings(ctx.tasks, ctx, h), ActiveHashes(AfterScan(records, ctx, h), ctx.project));
  }

  /** A risk that still fires comes back after it was acknowledged or resolved: the
      next scan inserts a record exactly when the closed record's hash is found again. */
  lemma ClosedRiskReturns(records: seq<Record>, ctx: Context, h: Digest, id: nat, l: Lifecycle)
    requires AtMostOneActive(records) && AfterScan(records, ctx, h) == records
    requires id < |records| && records[id].project == ctx.project && records[id].lifecycle == Active && l != Active
    ensures AfterScan(WithLifecycle(records, id, l), ctx, h) != WithLifecycle(records, id, l)
       <==> records[id].finding.hash in Hashes(Findings(ctx.tasks, ctx, h))
  {
    var found, closed := Findings(ctx.tasks, ctx, h), WithLifecycle(records, id, l);
    var hash := records[id].finding.hash;
    var before, after := ActiveHashes(records, ctx.project), ActiveHashes(closed, ctx.project);
    RowsLength(NewFindings(records, ctx, h), ctx.project);
    AllKnown(found, before);
    forall s
      ensures s in after <==> s in before && s != hash
    {
      ActiveHashesChar(records, ctx.project, s);
      ActiveHashesChar(closed, ctx.project, s);
      ClosedChangesOne(records, ctx.project, id, l, s);
    }
    AllKnown(found, after);
    RowsLength(NewFindings(closed, ctx, h), ctx.project);
  }

  lemma ClosedChangesOne(records: seq<Record>, project: string, id: nat, l: Lifecycle, s: string)
    requires AtMostOneActive(records) && id < |records| && records[id].lifecycle == Active && l != Active
    requires records[id].project == project
    ensures var closed := WithLifecycle(records, id, l);
            ((exists i :: 0 <= i < |closed| && IsActive(closed[i], project, s))
             <==> (s != records[id].finding.hash && exists i :: 0 <= i < |records| && IsActive(records[i], project, s)))
  {
    var closed := WithLifecycle(records, id, l);
    forall i | 0 <= i < |records|
      ensures IsActive(closed[i], project, s) <==> IsActive(records[i], project, s) && s != records[id].finding.hash
    {
      if i < id {
        assert records[i].lifecycle == Active ==> !IsActive(records[id], records[i].project, records[i].finding.hash);
      } else if id < i {
        assert !IsActive(records[i], records[id].project, records[id].finding.hash);
      }
    }
  }
}
