/** The task store: status graph, event log, confirmation queue and file import. */
module TaskLifecycle {
  import opened Wrappers

  datatype Status = PendingConfirmation | NotStarted | InProgress | MostlyCompleted | Completed | Delayed | Cancelled

  /** The allowed transitions, from -> to. */
  function Allowed(s: Status): set<Status> {
    match s
    case PendingConfirmation => {NotStarted, Cancelled}
    case NotStarted => {InProgress, Cancelled, Delayed}
    case InProgress => {MostlyCompleted, Completed, Delayed, Cancelled}
    case MostlyCompleted => {Completed, InProgress, Delayed}
    case Completed => {}
    case Delayed => {InProgress, Completed, Cancelled}
    case Cancelled => {}
  }

  predicate IsValidTransition(from: Status, to: Status) {
    to in Allowed(from)
  }

  predicate Terminal(s: Status) {
    s == Completed || s == Cancelled
  }

  /** Owner, due date, priority and acceptance criteria, kept as one opaque text here. */
  type Fields = string

  datatype Task = Task(project: string, title: string, fields: Fields, status: Status)

  /** A row of the event log; `from` is missing on the initial row. */
  datatype Change = Change(task: nat, from: Option<Status>, to: Status)

  datatype ConfStatus = Pending | Accepted | Ignored

  /** The tables. A task's id is its position; a confirmation is filed under its task. */
  datatype Db = Db(tasks: seq<Task>, changes: seq<Change>, confirmations: map<nat, ConfStatus>,
                   prints: map<(string, string), nat>)

  const EMPTY := Db([], [], map[], map[])

  datatype Error = NotFound | InvalidTransition | AlreadyProcessed

  datatype Outcome = Done | Failed(error: Error)

  predicate Exists(db: Db, project: string, id: nat) {
    id < |db.tasks| && db.tasks[id].project == project
  }

  /** Insert a task, its initial log row and, when it awaits confirmation, a queue entry. */
  function AfterCreate(db: Db, project: string, title: string, fields: Fields, status: Status): Db {
    var id := |db.tasks|;
    Db(db.tasks + [Task(project, title, fields, status)],
       db.changes + [Change(id, None, status)],
       if status == PendingConfirmation then db.confirmations[id := Pending] else db.confirmations,
       db.prints)
  }

  function SetStatus(db: Db, id: nat, from: Status, to: Status): Db
    requires id < |db.tasks|
  {
    db.(tasks := db.tasks[id := db.tasks[id].(status := to)], changes := db.changes + [Change(id, Some(from), to)])
  }

  function TransitionOutcome(db: Db, project: string, id: nat, to: Status): Outcome {
    if !Exists(db, project, id) then Failed(NotFound)
    else if !IsValidTransition(db.tasks[id].status, to) then Failed(InvalidTransition)
    else Done
  }

  function AfterTransition(db: Db, project: string, id: nat, to: Status): Db {
    if TransitionOutcome(db, project, id, to) == Done then SetStatus(db, id, db.tasks[id].status, to) else db
  }

  datatype Action = Accept | Ignore | Modify(title: Option<string>, fields: Option<Fields>)

  function Target(a: Action): Status {
    if a.Ignore? then Cancelled else NotStarted
  }

  function ConfirmOutcome(db: Db, project: string, id: nat): Outcome {
    if id !in db.confirmations || !Exists(db, project, id) then Failed(NotFound)
    else if db.confirmations[id] != Pending then Failed(AlreadyProcessed)
    else Done
  }

  function Edited(t: Task, title: Option<string>, fields: Option<Fields>): Task {
    t.(title := if title.Some? then title.value else t.title, fields := if fields.Some? then fields.value else t.fields)
  }

  /** The confirmation is settled and the task moved, whatever its status is by now; the log row
      always names the pending status as the origin. */
  function AfterConfirm(db: Db, project: string, id: nat, a: Action): Db {
    if ConfirmOutcome(db, project, id) != Done then db
    else
      var edited := if a.Modify? then db.(tasks := db.tasks[id := Edited(db.tasks[id], a.title, a.fields)]) else db;
      var settled := edited.(confirmations := db.confirmations[id := if a.Ignore? then Ignored else Accepted]);
      SetStatus(settled, id, PendingConfirmation, Target(a))
  }

  function AfterUpdate(db: Db, project: string, id: nat, title: Option<string>, fields: Option<Fields>): Db {
    if Exists(db, project, id) then db.(tasks := db.tasks[id := Edited(db.tasks[id], title, fields)]) else db
  }

  function AfterSubmit(db: Db, project: string, candidates: seq<(string, Fields)>): Db {
    if |candidates| == 0 then db
    else
      var c := candidates[|candidates| - 1];
      AfterCreate(AfterSubmit(db, project, candidates[..|candidates| - 1]), project, c.0, c.1, PendingConfirmation)
  }

  // ---------------------------------------------------------------- import

  /** A parsed file row: its stripped title, its other fields, its fingerprint, and whether the
      request models accept it (`valid` on import, `previewable` on preview). */
  datatype Row = Row(title: string, fields: Fields, fingerprint: string, valid: bool, previewable: bool)

  /** Case folding: the database's `LOWER` and the host language's `lower`. */
  datatype Folding = Folding(sql: string -> string, py: string -> string)

  datatype Options = Options(skipDuplicates: bool, overwriteConflicts: bool)

  datatype RowOutcome = Imported | Skipped | Errored

  /** The first task of the project whose folded title matches. */
  function FindTitle(tasks: seq<Task>, project: string, title: string, fold: Folding): (r: Option<nat>)
    ensures r.Some? ==> r.value < |tasks|
  {
    if |tasks| == 0 then None
    else
      var init := FindTitle(tasks[..|tasks| - 1], project, title, fold);
      var t := tasks[|tasks| - 1];
      if init.Some? then init
      else if t.project == project && fold.sql(t.title) == fold.py(title) then Some(|tasks| - 1)
      else None
  }

  function ImportRow(db: Db, project: string, row: Row, o: Options, fold: Folding): (Db, RowOutcome) {
    if row.title == "" then (db, Skipped)
    else if o.skipDuplicates && (project, row.fingerprint) in db.prints then (db, Skipped)
    else
      var existing := FindTitle(db.tasks, project, row.title, fold);
      if o.overwriteConflicts && existing.Some? then
        var t := db.tasks[existing.value];
        (db.(tasks := db.tasks[existing.value := t.(fields := row.fields)]), Imported)
      else if !row.valid then (db, Errored)
      else
        var created := AfterCreate(db, project, row.title, row.fields, NotStarted);
        (if (project, row.fingerprint) in db.prints then created
         else created.(prints := db.prints[(project, row.fingerprint) := |db.tasks|]), Imported)
  }

  function AfterImport(db: Db, project: string, rows: seq<Row>, o: Options, fold: Folding): Db {
    if |rows| == 0 then db
    else ImportRow(AfterImport(db, project, rows[..|rows| - 1], o, fold), project, rows[|rows| - 1], o, fold).0
  }

  /** How many rows of an import end with the given outcome. */
  function Tally(db: Db, project: string, rows: seq<Row>, o: Options, fold: Folding, which: RowOutcome): nat {
    if |rows| == 0 then 0
    else
      var init := rows[..|rows| - 1];
      var last := ImportRow(AfterImport(db, project, init, o, fold), project, rows[|rows| - 1], o, fold).1;
      Tally(db, project, init, o, fold, which) + if last == which then 1 else 0
  }

  datatype RowKind = Duplicate | Conflict | Fresh | Rejected

  function PreviewRow(db: Db, project: string, row: Row, fold: Folding): RowKind {
    if (project, row.fingerprint) in db.prints then Duplicate
    else if exists i :: 0 <= i < |db.tasks| && db.tasks[i].project == project
                     && fold.py(fold.sql(db.tasks[i].title)) == fold.py(row.title) then Conflict
    else if row.title == "" || !row.previewable then Rejected
    else Fresh
  }

  function Kinds(db: Db, project: string, rows: seq<Row>, fold: Folding, which: RowKind): nat {
    if |rows| == 0 then 0
    else
      Kinds(db, project, rows[..|rows| - 1], fold, which)
      + if PreviewRow(db, project, rows[|rows| - 1], fold) == which then 1 else 0
  }

  // ---------------------------------------------------------------- the service

  datatype ImportResult = ImportResult(imported: nat, skipped: nat, errors: nat)

  datatype Preview = Preview(newRows: nat, duplicateRows: nat, conflictRows: nat)

  /** No row is rejected, and the counts are those of the other kinds. */
  predicate Previewed(db: Db, project: string, rows: seq<Row>, fold: Folding, p: Preview) {
    && Kinds(db, project, rows, fold, Rejected) == 0
    && p.newRows == Kinds(db, project, rows, fold, Fresh)
    && p.duplicateRows == Kinds(db, project, rows, fold, Duplicate)
    && p.conflictRows == Kinds(db, project, rows, fold, Conflict)
    && p.newRows + p.duplicateRows + p.conflictRows == |rows|
  }

  class TaskLifecycleService {
    const fold: Folding
    var db: Db

    constructor (fold: Folding)
      ensures this.fold == fold && db == EMPTY
    {
      this.fold, db := fold, EMPTY;
    }

    method CreateTask(project: string, title: string, fields: Fields, status: Status) returns (id: nat)
      modifies this`db
      ensures db == AfterCreate(old(db), project, title, fields, status) && id == |old(db).tasks|
    {
      id := |db.tasks|;
      db := db.(tasks := db.tasks + [Task(project, title, fields, status)]);
      db := db.(changes := db.changes + [Change(id, None, status)]);
      if status == PendingConfirmation {
        db := db.(confirmations := db.confirmations[id := Pending]);
      }
    }

    method TransitionStatus(project: string, id: nat, to: Status) returns (r: Outcome)
      modifies this`db
      ensures r == TransitionOutcome(old(db), project, id, to)
      ensures db == AfterTransition(old(db), project, id, to)
    {
      if !Exists(db, project, id) {
        return Failed(NotFound);
      }
      var from := db.tasks[id].status;
      if !IsValidTransition(from, to) {
        return Failed(InvalidTransition);
      }
      db := db.(tasks := db.tasks[id := db.tasks[id].(status := to)]);
      db := db.(changes := db.changes + [Change(id, Some(from), to)]);
      return Done;
    }

    method SubmitCandidates(project: string, candidates: seq<(string, Fields)>)
      modifies this`db
      ensures db == AfterSubmit(old(db), project, candidates)
    {
      for i := 0 to |candidates|
        invariant db == AfterSubmit(old(db), project, candidates[..i])
      {
        assert candidates[..i + 1][..i] == candidates[..i];
        var _ := CreateTask(project, candidates[i].0, candidates[i].1, PendingConfirmation);
      }
      assert candidates[..|candidates|] == candidates;
    }

    method ProcessConfirmation(project: string, id: nat, a: Action) returns (r: Outcome)
      modifies this`db
      ensures r == ConfirmOutcome(old(db), project, id)
      ensures db == AfterConfirm(old(db), project, id, a)
    {
      if id !in db.confirmations || !Exists(db, project, id) {
        return Failed(NotFound);
      }
      if db.confirmations[id] != Pending {
        return Failed(AlreadyProcessed);
      }
      if a.Modify? {
        db := db.(tasks := db.tasks[id := Edited(db.tasks[id], a.title, a.fields)]);
      }
      db := db.(confirmations := db.confirmations[id := if a.Ignore? then Ignored else Accepted]);
      var to := if a.Ignore? then Cancelled else NotStarted;
      db := db.(tasks := db.tasks[id := db.tasks[id].(status := to)]);
      db := db.(changes := db.changes + [Change(id, Some(PendingConfirmation), to)]);
      return Done;
    }

    method PreviewImport(project: string, rows: seq<Row>) returns (r: Option<Preview>)
      ensures r.Some? <==> Kinds(db, project, rows, fold, Rejected) == 0
      ensures r.Some? ==> r.value == Preview(Kinds(db, project, rows, fold, Fresh),
                                             Kinds(db, project, rows, fold, Duplicate),
                                             Kinds(db, project, rows, fold, Conflict))
      ensures r.Some? ==> r.value.newRows + r.value.duplicateRows + r.value.conflictRows == |rows|
    {
      var p := Preview(0, 0, 0);
      for i := 0 to |rows|
        invariant Previewed(db, project, rows[..i], fold, p)
      {
        assert rows[..i + 1][..i] == rows[..i];
        match PreviewRow(db, project, rows[i], fold) {
          case Duplicate => p := p.(duplicateRows := p.duplicateRows + 1);
          case Conflict => p := p.(conflictRows := p.conflictRows + 1);
          case Fresh => p := p.(newRows := p.newRows + 1);
          case Rejected =>
            RejectedStays(db, project, rows, fold, i);
            return None;
        }
      }
      assert rows[..|rows|] == rows;
      r := Some(p);
    }

    method ConfirmImport(project: string, rows: seq<Row>, o: Options) returns (r: ImportResult)
      modifies this`db
      ensures db == AfterImport(old(db), project, rows, o, fold)
      ensures r == ImportResult(Tally(old(db), project, rows, o, fold, Imported),
                                Tally(old(db), project, rows, o, fold, Skipped),
                                Tally(old(db), project, rows, o, fold, Errored))
      ensures r.imported + r.skipped + r.errors == |rows|
    {
      r := ImportResult(0, 0, 0);
      for i := 0 to |rows|
        invariant db == AfterImport(old(db), project, rows[..i], o, fold)
        invariant r == ImportResult(Tally(old(db), project, rows[..i], o, fold, Imported),
                                    Tally(old(db), project, rows[..i], o, fold, Skipped),
                                    Tally(old(db), project, rows[..i], o, fold, Errored))
        invariant r.imported + r.skipped + r.errors == i
      {
        assert rows[..i + 1][..i] == rows[..i];
        var outcome := ImportOne(project, rows[i], o);
        match outcome {
          case Imported => r := r.(imported := r.imported + 1);
          case Skipped => r := r.(skipped := r.skipped + 1);
          case Errored => r := r.(errors := r.errors + 1);
        }
      }
      assert rows[..|rows|] == rows;
    }

    /** The body of the import loop. */
    method ImportOne(project: string, row: Row, o: Options) returns (outcome: RowOutcome)
      modifies this`db
      ensures (db, outcome) == ImportRow(old(db), project, row, o, fold)
    {
      if row.title == "" {
        return Skipped;
      }
      if o.skipDuplicates && (project, row.fingerprint) in db.prints {
        return Skipped;
      }
      if o.overwriteConflicts {
        var existing := FindTitle(db.tasks, project, row.title, fold);
        if existing.Some? {
          var t := db.tasks[existing.value];
          db := db.(tasks := db.tasks[existing.value := t.(fields := row.fields)]);
          return Imported;
        }
      }
      if !row.valid {
        return Errored;
      }
      var id := CreateTask(project, row.title, row.fields, NotStarted);
      if (project, row.fingerprint) !in db.prints {
        db := db.(prints := db.prints[(project, row.fingerprint) := id]);
      }
      return Imported;
    }
  }

  lemma {:induction false} RejectedStays(db: Db, project: string, rows: seq<Row>, fold: Folding, i: nat)
    requires i < |rows| && PreviewRow(db, project, rows[i], fold) == Rejected
    ensures Kinds(db, project, rows, fold, Rejected) > 0
  {
    if i < |rows| - 1 {
      RejectedStays(db, project, rows[..|rows| - 1], fold, i);
    }
  }

  // ---------------------------------------------------------------- every run

  datatype Op =
    | Create(project: string, title: string, fields: Fields, status: Status)
    | Submit(project: string, candidates: seq<(string, Fields)>)
    | Transition(project: string, id: nat, to: Status)
    | Confirm(project: string, id: nat, action: Action)
    | Update(project: string, id: nat, newTitle: Option<string>, newFields: Option<Fields>)
    | Import(project: string, rows: seq<Row>, options: Options)

  function Step(db: Db, op: Op, fold: Folding): Db {
    match op
    case Create(project, title, fields, status) => AfterCreate(db, project, title, fields, status)
    case Submit(project, candidates) => AfterSubmit(db, project, candidates)
    case Transition(project, id, to) => AfterTransition(db, project, id, to)
    case Confirm(project, id, a) => AfterConfirm(db, project, id, a)
    case Update(project, id, title, fields) => AfterUpdate(db, project, id, title, fields)
    case Import(project, rows, o) => AfterImport(db, project, rows, o, fold)
  }

  function Run(ops: seq<Op>, fold: Folding): Db {
    if |ops| == 0 then EMPTY else Step(Run(ops[..|ops| - 1], fold), ops[|ops| - 1], fold)
  }

  /** The log rows of one task, oldest first. */
  function History(changes: seq<Change>, id: nat): seq<Change> {
    if |changes| == 0 then []
    else
      var rest, c := History(changes[..|changes| - 1], id), changes[|changes| - 1];
      if c.task == id then rest + [c] else rest
  }

  /** One initial row, then edges of the status graph, ending at the task's status. */
  predicate Logged(h: seq<Change>, status: Status) {
    && |h| > 0 && h[0].from == None && h[|h| - 1].to == status
    && forall k :: 0 < k < |h| ==> h[k].from.Some? && IsValidTransition(h[k].from.value, h[k].to)
  }

  /** Every row starts where the one before it ended. */
  predicate Connected(h: seq<Change>) {
    forall k :: 0 < k < |h| ==> h[k].from == Some(h[k - 1].to)
  }

  ghost predicate Consistent(db: Db) {
    && (forall id: nat :: id < |db.tasks| ==> Logged(History(db.changes, id), db.tasks[id].status))
    && (forall id: nat :: id >= |db.tasks| ==> History(db.changes, id) == [] && id !in db.confirmations)
  }

  /** The old tasks keep their status, log and confirmation; new ones have their initial row only. */
  ghost predicate OnlyAdds(db: Db, db': Db) {
    && |db.tasks| <= |db'.tasks|
    && (forall id: nat :: id < |db.tasks| ==>
          && db'.tasks[id].status == db.tasks[id].status && db'.tasks[id].project == db.tasks[id].project
          && History(db'.changes, id) == History(db.changes, id)
          && (id in db'.confirmations <==> id in db.confirmations)
          && (id in db.confirmations ==> db'.confirmations[id] == db.confirmations[id]))
    && (forall id: nat :: |db.tasks| <= id < |db'.tasks| ==>
          && History(db'.changes, id) == [Change(id, None, db'.tasks[id].status)]
          && (id in db'.confirmations ==> db'.confirmations[id] == Pending))
  }

  lemma HistoryPush(changes: seq<Change>, c: Change, id: nat)
    ensures History(changes + [c], id) == if c.task == id then History(changes, id) + [c] else History(changes, id)
  {
    assert (changes + [c])[..|changes|] == changes;
  }

  lemma CreateHistories(db: Db, project: string, title: string, fields: Fields, status: Status)
    requires Consistent(db)
    ensures forall id: nat :: History(AfterCreate(db, project, title, fields, status).changes, id)
              == if id == |db.tasks| then [Change(id, None, status)] else History(db.changes, id)
  {
    forall id: nat {
      HistoryPush(db.changes, Change(|db.tasks|, None, status), id);
    }
  }

  lemma CreateKeepsConsistent(db: Db, project: string, title: string, fields: Fields, status: Status)
    requires Consistent(db)
    ensures Consistent(AfterCreate(db, project, title, fields, status))
  {
    CreateHistories(db, project, title, fields, status);
  }

  lemma CreateOnlyAdds(db: Db, project: string, title: string, fields: Fields, status: Status)
    requires Consistent(db)
    ensures Consistent(AfterCreate(db, project, title, fields, status))
    ensures OnlyAdds(db, AfterCreate(db, project, title, fields, status))
  {
    CreateKeepsConsistent(db, project, title, fields, status);
    CreateHistories(db, project, title, fields, status);
  }

  /** A later addition does not disturb what an earlier one left alone. */
  lemma OnlyAddsTrans(a: Db, b: Db, c: Db)
    requires OnlyAdds(a, b) && OnlyAdds(b, c)
    ensures OnlyAdds(a, c)
  {
  }

  lemma {:induction false} SubmitOnlyAdds(db: Db, project: string, candidates: seq<(string, Fields)>)
    requires Consistent(db)
    ensures Consistent(AfterSubmit(db, project, candidates)) && OnlyAdds(db, AfterSubmit(db, project, candidates))
  {
    if |candidates| > 0 {
      var before, c := AfterSubmit(db, project, candidates[..|candidates| - 1]), candidates[|candidates| - 1];
      SubmitOnlyAdds(db, project, candidates[..|candidates| - 1]);
      CreateOnlyAdds(before, project, c.0, c.1, PendingConfirmation);
      OnlyAddsTrans(db, before, AfterSubmit(db, project, candidates));
    }
  }

  lemma RowOnlyAdds(db: Db, project: string, row: Row, o: Options, fold: Folding)
    requires Consistent(db)
    ensures Consistent(ImportRow(db, project, row, o, fold).0) && OnlyAdds(db, ImportRow(db, project, row, o, fold).0)
  {
    CreateOnlyAdds(db, project, row.title, row.fields, NotStarted);
  }

  lemma {:induction false} ImportOnlyAdds(db: Db, project: string, rows: seq<Row>, o: Options, fold: Folding)
    requires Consistent(db)
    ensures Consistent(AfterImport(db, project, rows, o, fold)) && OnlyAdds(db, AfterImport(db, project, rows, o, fold))
  {
    if |rows| > 0 {
      var before := AfterImport(db, project, rows[..|rows| - 1], o, fold);
      ImportOnlyAdds(db, project, rows[..|rows| - 1], o, fold);
      RowOnlyAdds(before, project, rows[|rows| - 1], o, fold);
      OnlyAddsTrans(db, before, AfterImport(db, project, rows, o, fold));
    }
  }

  /** Moving one task along an edge of the graph logs exactly that edge. */
  lemma MoveKeepsConsistent(db: Db, id: nat, from: Status, to: Status)
    requires Consistent(db) && id < |db.tasks| && IsValidTransition(from, to)
    ensures Consistent(SetStatus(db, id, from, to))
    ensures forall other: nat :: History(SetStatus(db, id, from, to).changes, other)
              == if other == id then History(db.changes, id) + [Change(id, Some(from), to)] else History(db.changes, other)
  {
    forall other: nat {
      HistoryPush(db.changes, Change(id, Some(from), to), other);
    }
  }

  /** The part of a confirmation before the task is moved. */
  lemma SettleKeepsConsistent(db: Db, id: nat, t: Task, c: ConfStatus)
    requires Consistent(db) && id < |db.tasks| && t.status == db.tasks[id].status
    ensures Consistent(db.(tasks := db.tasks[id := t], confirmations := db.confirmations[id := c]))
  {
  }

  lemma ConfirmKeepsConsistent(db: Db, project: string, id: nat, a: Action)
    requires Consistent(db) && ConfirmOutcome(db, project, id) == Done
    ensures Consistent(AfterConfirm(db, project, id, a))
    ensures forall other: nat :: History(AfterConfirm(db, project, id, a).changes, other)
              == if other == id then History(db.changes, id) + [Change(id, Some(PendingConfirmation), Target(a))]
                 else History(db.changes, other)
  {
    var t := if a.Modify? then Edited(db.tasks[id], a.title, a.fields) else db.tasks[id];
    var c := if a.Ignore? then Ignored else Accepted;
    var settled := db.(tasks := db.tasks[id := t], confirmations := db.confirmations[id := c]);
    SettleKeepsConsistent(db, id, t, c);
    assert AfterConfirm(db, project, id, a) == SetStatus(settled, id, PendingConfirmation, Target(a));
    MoveKeepsConsistent(settled, id, PendingConfirmation, Target(a));
  }

  lemma StepKeepsConsistent(db: Db, op: Op, fold: Folding)
    requires Consistent(db)
    ensures Consistent(Step(db, op, fold))
    ensures !op.Transition? && !op.Confirm? ==> OnlyAdds(db, Step(db, op, fold))
  {
    match op
    case Create(project, title, fields, status) => CreateOnlyAdds(db, project, title, fields, status);
    case Submit(project, candidates) => SubmitOnlyAdds(db, project, candidates);
    case Transition(project, id, to) =>
      if TransitionOutcome(db, project, id, to) == Done {
        MoveKeepsConsistent(db, id, db.tasks[id].status, to);
      }
    case Confirm(project, id, a) =>
      if ConfirmOutcome(db, project, id) == Done {
        ConfirmKeepsConsistent(db, project, id, a);
      }
    case Update(project, id, title, fields) =>
    case Import(project, rows, o) => ImportOnlyAdds(db, project, rows, o, fold);
  }

  /** Unconditionally, over every run: each task's log starts with its one initial row, every other
      row is an edge of the graph, and the last row shows the current status. */
  lemma {:induction false} RunConsistent(ops: seq<Op>, fold: Folding)
    ensures Consistent(Run(ops, fold))
  {
    if |ops| > 0 {
      RunConsistent(ops[..|ops| - 1], fold);
      StepKeepsConsistent(Run(ops[..|ops| - 1], fold), ops[|ops| - 1], fold);
    }
  }

  // ---------------------------------------------------------------- late confirmations

  /** Some confirmation of the task succeeded when the task was no longer pending. */
  predicate ConfirmedLate(ops: seq<Op>, fold: Folding, id: nat) {
    |ops| > 0 &&
    (var before, op := ops[..|ops| - 1], ops[|ops| - 1];
     var db := Run(before, fold);
     || ConfirmedLate(before, fold, id)
     || (op.Confirm? && op.id == id && ConfirmOutcome(db, op.project, id) == Done
         && db.tasks[id].status != PendingConfirmation))
  }

  lemma ConnectedPush(h: seq<Change>, c: Change)
    requires |h| > 0
    ensures Connected(h + [c]) <==> Connected(h) && c.from == Some(h[|h| - 1].to)
  {
    var g := h + [c];
    assert g[|h|] == c && g[|h| - 1] == h[|h| - 1];
    if Connected(g) {
      forall k | 0 < k < |h|
        ensures h[k].from == Some(h[k - 1].to)
      {
        assert g[k] == h[k] && g[k - 1] == h[k - 1];
      }
    }
  }

  lemma StepConnects(db: Db, op: Op, fold: Folding, id: nat)
    requires Consistent(db) && id < |db.tasks|
    ensures id < |Step(db, op, fold).tasks|
    ensures Connected(History(Step(db, op, fold).changes, id))
       <==> (Connected(History(db.changes, id))
             && !(op.Confirm? && op.id == id && ConfirmOutcome(db, op.project, id) == Done
                  && db.tasks[id].status != PendingConfirmation))
  {
    StepKeepsConsistent(db, op, fold);
    var h := History(db.changes, id);
    match op
    case Transition(project, t, to) =>
      if TransitionOutcome(db, project, t, to) == Done {
        MoveKeepsConsistent(db, t, db.tasks[t].status, to);
        ConnectedPush(h, Change(id, Some(db.tasks[id].status), to));
      }
    case Confirm(project, t, a) =>
      if ConfirmOutcome(db, project, t) == Done {
        ConfirmKeepsConsistent(db, project, t, a);
        ConnectedPush(h, Change(id, Some(PendingConfirmation), Target(a)));
      }
    case _ =>
  }

  /** A task's log is a connected path through the status graph exactly when the task was never
      confirmed after it had left the pending status. */
  lemma {:induction false} ConnectedIffConfirmedInTime(ops: seq<Op>, fold: Folding, id: nat)
    requires id < |Run(ops, fold).tasks|
    ensures Connected(History(Run(ops, fold).changes, id)) <==> !ConfirmedLate(ops, fold, id)
  {
    var before, op := ops[..|ops| - 1], ops[|ops| - 1];
    var db := Run(before, fold);
    RunConsistent(before, fold);
    if id < |db.tasks| {
      ConnectedIffConfirmedInTime(before, fold, id);
      StepConnects(db, op, fold, id);
    } else {
      StepKeepsConsistent(db, op, fold);
      NotLateBeforeCreation(before, fold, id);
    }
  }

  lemma {:induction false} NotLateBeforeCreation(ops: seq<Op>, fold: Folding, id: nat)
    requires id >= |Run(ops, fold).tasks|
    ensures !ConfirmedLate(ops, fold, id)
  {
    if |ops| > 0 {
      var before := ops[..|ops| - 1];
      RunConsistent(before, fold);
      StepKeepsConsistent(Run(before, fold), ops[|ops| - 1], fold);
      NotLateBeforeCreation(before, fold, id);
    }
  }

  /** Some step took the task out of `completed` or `cancelled`. */
  predicate LeftTerminal(ops: seq<Op>, fold: Folding, id: nat) {
    |ops| > 0 &&
    (var before := ops[..|ops| - 1];
     var db, db' := Run(before, fold), Run(ops, fold);
     || LeftTerminal(before, fold, id)
     || (id < |db.tasks| && id < |db'.tasks| && Terminal(db.tasks[id].status)
         && db'.tasks[id].status != db.tasks[id].status))
  }

  /** Some confirmation of the task succeeded while it stood at a different terminal status than the
      one the confirmation gives. */
  predicate Reopened(ops: seq<Op>, fold: Folding, id: nat) {
    |ops| > 0 &&
    (var before, op := ops[..|ops| - 1], ops[|ops| - 1];
     var db := Run(before, fold);
     || Reopened(before, fold, id)
     || (op.Confirm? && op.id == id && ConfirmOutcome(db, op.project, id) == Done
         && Terminal(db.tasks[id].status) && db.tasks[id].status != Target(op.action)))
  }

  /** The operation is a successful confirmation of the task that gives it another status. */
  predicate Reopens(db: Db, op: Op, id: nat) {
    && op.Confirm? && op.id == id && ConfirmOutcome(db, op.project, id) == Done
    && db.tasks[id].status != Target(op.action)
  }

  /** A task at a terminal status is moved by such a confirmation and by nothing else. */
  lemma TerminalMovedIff(db: Db, op: Op, fold: Folding, id: nat)
    requires Consistent(db) && id < |db.tasks| && Terminal(db.tasks[id].status)
    ensures id < |Step(db, op, fold).tasks|
    ensures Step(db, op, fold).tasks[id].status != db.tasks[id].status <==> Reopens(db, op, id)
  {
    match op
    case Transition(_, _, _) =>
    case Confirm(_, _, _) =>
    case Update(_, _, _, _) =>
    case _ => StepKeepsConsistent(db, op, fold);
  }

  /** Terminal statuses are left exactly by such confirmations, and a run that confirms in
      time never leaves them. */
  lemma {:induction false} TerminalIffNotReopened(ops: seq<Op>, fold: Folding, id: nat)
    ensures LeftTerminal(ops, fold, id) <==> Reopened(ops, fold, id)
    ensures !ConfirmedLate(ops, fold, id) ==> !LeftTerminal(ops, fold, id)
  {
    if |ops| > 0 {
      var before, op := ops[..|ops| - 1], ops[|ops| - 1];
      var db := Run(before, fold);
      TerminalIffNotReopened(before, fold, id);
      RunConsistent(before, fold);
      if id < |db.tasks| && Terminal(db.tasks[id].status) {
        TerminalMovedIff(db, op, fold, id);
      }
    }
  }

  /** The guarantee is not unconditional: a pending task that is cancelled and then accepted from the
      queue leaves `cancelled`, and its log no longer fits together. */
  lemma LateConfirmationReopens(fold: Folding)
    ensures exists ops: seq<Op> ::
              && |Run(ops, fold).tasks| == 1 && Run(ops, fold).tasks[0].status == NotStarted
              && LeftTerminal(ops, fold, 0) && !Connected(History(Run(ops, fold).changes, 0))
  {
    var op1, op2, op3 := Create("p", "t", "", PendingConfirmation), Transition("p", 0, Cancelled), Confirm("p", 0, Accept);
    var ops1, ops2, ops3 := [op1], [op1, op2], [op1, op2, op3];
    assert ops1[..0] == [] && ops2[..1] == ops1 && ops3[..2] == ops2;
    assert Run(ops1, fold) == AfterCreate(EMPTY, "p", "t", "", PendingConfirmation);
    assert Run(ops2, fold).tasks == [Task("p", "t", "", Cancelled)];
    assert ConfirmOutcome(Run(ops2, fold), "p", 0) == Done;
    assert Run(ops3, fold).tasks == [Task("p", "t", "", NotStarted)];
    assert ConfirmedLate(ops3, fold, 0);
    ConnectedIffConfirmedInTime(ops3, fold, 0);
    assert LeftTerminal(ops3, fold, 0);
  }

  /** How many confirmations of the task succeeded. */
  function Confirmations(ops: seq<Op>, fold: Folding, id: nat): nat {
    if |ops| == 0 then 0
    else
      var before, op := ops[..|ops| - 1], ops[|ops| - 1];
      Confirmations(before, fold, id)
      + if op.Confirm? && op.id == id && ConfirmOutcome(Run(before, fold), op.project, id) == Done then 1 else 0
  }

  /** A confirmation leaves `pending` at most once, and a settled one was processed exactly once. */
  lemma {:induction false} ConfirmedAtMostOnce(ops: seq<Op>, fold: Folding, id: nat)
    ensures Confirmations(ops, fold, id)
         == if id in Run(ops, fold).confirmations && Run(ops, fold).confirmations[id] != Pending then 1 else 0
  {
    if |ops| > 0 {
      var before, op := ops[..|ops| - 1], ops[|ops| - 1];
      ConfirmedAtMostOnce(before, fold, id);
      RunConsistent(before, fold);
      RunConsistent(ops, fold);
      StepKeepsConsistent(Run(before, fold), op, fold);
    }
  }

  // ---------------------------------------------------------------- importing twice

  /** The rows that an import without overwriting turns into tasks carry a recorded fingerprint. */
  predicate Recorded(db: Db, project: string, rows: seq<Row>) {
    forall r :: r in rows && r.title != "" && r.valid ==> (project, r.fingerprint) in db.prints
  }

  lemma {:induction false} ImportRecords(db: Db, project: string, rows: seq<Row>, o: Options, fold: Folding)
    requires !o.overwriteConflicts
    ensures Recorded(AfterImport(db, project, rows, o, fold), project, rows)
  {
    if |rows| > 0 {
      var init, last := rows[..|rows| - 1], rows[|rows| - 1];
      ImportRecords(db, project, init, o, fold);
      assert rows == init + [last];
    }
  }

  lemma {:induction false} RecordedRowsAreSkipped(db: Db, project: string, rows: seq<Row>, o: Options, fold: Folding)
    requires Recorded(db, project, rows) && o.skipDuplicates && !o.overwriteConflicts
    ensures AfterImport(db, project, rows, o, fold) == db
    ensures Tally(db, project, rows, o, fold, Imported) == 0
  {
    if |rows| > 0 {
      var init, last := rows[..|rows| - 1], rows[|rows| - 1];
      assert rows == init + [last];
      RecordedRowsAreSkipped(db, project, init, o, fold);
    }
  }

  /** With duplicates skipped and overwriting off, importing the same rows again imports nothing and
      changes nothing, whatever the first import found in the store. */
  lemma SecondImportIsEmpty(db: Db, project: string, rows: seq<Row>, o1: Options, o2: Options, fold: Folding)
    requires !o1.overwriteConflicts && o2 == Options(true, false)
    ensures var db1 := AfterImport(db, project, rows, o1, fold);
            AfterImport(db1, project, rows, o2, fold) == db1 && Tally(db1, project, rows, o2, fold, Imported) == 0
  {
    ImportRecords(db, project, rows, o1, fold);
    RecordedRowsAreSkipped(AfterImport(db, project, rows, o1, fold), project, rows, o2, fold);
  }

  lemma {:induction false} EmptySecondImportMeansRecorded(db: Db, project: string, rows: seq<Row>, o: Options, fold: Folding)
    requires o == Options(true, false) && Tally(db, project, rows, o, fold, Imported) == 0
    ensures Recorded(db, project, rows)
  {
    if |rows| > 0 {
      var init, last := rows[..|rows| - 1], rows[|rows| - 1];
      EmptySecondImportMeansRecorded(db, project, init, o, fold);
      RecordedRowsAreSkipped(db, project, init, o, fold);
      assert rows == init + [last];
    }
  }

  /** Exactly when importing the same rows again imports nothing, whatever the
      options of the first import: when every titled, valid row has left a fingerprint. */
  lemma SecondImportEmptyIff(db: Db, project: string, rows: seq<Row>, o1: Options, fold: Folding)
    ensures var db1 := AfterImport(db, project, rows, o1, fold);
            Tally(db1, project, rows, Options(true, false), fold, Imported) == 0 <==> Recorded(db1, project, rows)
  {
    var db1, o2 := AfterImport(db, project, rows, o1, fold), Options(true, false);
    if Tally(db1, project, rows, o2, fold, Imported) == 0 {
      EmptySecondImportMeansRecorded(db1, project, rows, o2, fold);
    } else if Recorded(db1, project, rows) {
      RecordedRowsAreSkipped(db1, project, rows, o2, fold);
    }
  }

  lemma {:induction false} RecordedRowsPreviewAsDuplicates(db: Db, project: string, rows: seq<Row>, fold: Folding)
    requires Recorded(db, project, rows) && forall r :: r in rows ==> r.title != "" && r.valid
    ensures Kinds(db, project, rows, fold, Duplicate) == |rows|
    ensures Kinds(db, project, rows, fold, Rejected) == 0
  {
    if |rows| > 0 {
      var init, last := rows[..|rows| - 1], rows[|rows| - 1];
      assert rows == init + [last];
      RecordedRowsPreviewAsDuplicates(db, project, init, fold);
    }
  }

  /** When all rows are titled and valid, a preview after the import calls every row a duplicate. */
  lemma PreviewAfterImport(db: Db, project: string, rows: seq<Row>, o: Options, fold: Folding)
    requires !o.overwriteConflicts && forall r :: r in rows ==> r.title != "" && r.valid
    ensures Kinds(AfterImport(db, project, rows, o, fold), project, rows, fold, Duplicate) == |rows|
  {
    ImportRecords(db, project, rows, o, fold);
    RecordedRowsPreviewAsDuplicates(AfterImport(db, project, rows, o, fold), project, rows, fold);
  }

  /** Overwriting leaves no fingerprint: a row that overwrote a task is imported again next time. */
  lemma OverwrittenRowReturns(db: Db, project: string, row: Row, o: Options, fold: Folding)
    requires o.overwriteConflicts && row.title != "" && (project, row.fingerprint) !in db.prints
    requires FindTitle(db.tasks, project, row.title, fold).Some?
    ensures ImportRow(db, project, row, o, fold).1 == Imported
    ensures ImportRow(ImportRow(db, project, row, o, fold).0, project, row, o, fold).1 == Imported
  {
    var i := FindTitle(db.tasks, project, row.title, fold).value;
    SameTitlesFound(db.tasks, db.tasks[i := db.tasks[i].(fields := row.fields)], project, row.title, fold);
  }

  lemma {:induction false} SameTitlesFound(a: seq<Task>, b: seq<Task>, project: string, title: string, fold: Folding)
    requires |a| == |b| && forall i :: 0 <= i < |a| ==> a[i].title == b[i].title && a[i].project == b[i].project
    ensures FindTitle(a, project, title, fold) == FindTitle(b, project, title, fold)
  {
    if |a| > 0 {
      SameTitlesFound(a[..|a| - 1], b[..|b| - 1], project, title, fold);
      assert a[|a| - 1].title == b[|b| - 1].title;
    }
  }
}
