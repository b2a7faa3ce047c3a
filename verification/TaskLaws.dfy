/** What single operations of the task store mean: the status graph, edits,
    confirmations, and what a preview says about the import that follows. */
module TaskLaws {
  import opened TaskLifecycle
  import opened Wrappers

  // ---- The status graph ----

  const EDGES := {
    (PendingConfirmation, NotStarted), (PendingConfirmation, Cancelled),
    (NotStarted, InProgress), (NotStarted, Cancelled), (NotStarted, Delayed),
    (InProgress, MostlyCompleted), (InProgress, Completed), (InProgress, Delayed), (InProgress, Cancelled),
    (MostlyCompleted, Completed), (MostlyCompleted, InProgress), (MostlyCompleted, Delayed),
    (Delayed, InProgress), (Delayed, Completed), (Delayed, Cancelled)
  }

  /** A transition is granted exactly for a task of the project along one of these
      edges; it then moves that task, logs the edge, and touches nothing else. */
  lemma TransitionFollowsEdge(db: Db, project: string, id: nat, to: Status)
    ensures TransitionOutcome(db, project, id, to) == Done <==>
            id < |db.tasks| && db.tasks[id].project == project && (db.tasks[id].status, to) in EDGES
    ensures TransitionOutcome(db, project, id, to) == Done ==>
              var t := db.tasks[id];
              AfterTransition(db, project, id, to)
              == Db(db.tasks[id := Task(t.project, t.title, t.fields, to)], db.changes + [Change(id, Some(t.status), to)],
                    db.confirmations, db.prints)
    ensures TransitionOutcome(db, project, id, to) != Done ==> AfterTransition(db, project, id, to) == db
  {
  }

  /** Over every run no task comes back to the pending status: it is only ever a task's first one. */
  lemma PendingOnlyAtFirst(ops: seq<Op>, fold: Folding, id: nat, k: nat)
    requires 0 < k < |History(Run(ops, fold).changes, id)|
    ensures History(Run(ops, fold).changes, id)[k].to != PendingConfirmation
  {
    RunConsistent(ops, fold);
    var db := Run(ops, fold);
    assert Logged(History(db.changes, id), db.tasks[id].status);
  }

  // ---- Edits and confirmations ----

  /** The new value if one is given, the old one otherwise. */
  predicate Replaced(was: string, given: Option<string>, now: string) {
    if given.None? then now == was else now == given.value
  }

  /** An update replaces exactly the given fields of one task of the project and
      never its status, log, confirmation or project. */
  lemma UpdateReplacesGivenFields(db: Db, project: string, id: nat, title: Option<string>, fields: Option<Fields>)
    requires id < |db.tasks| && db.tasks[id].project == project
    ensures var after := AfterUpdate(db, project, id, title, fields);
            && after.changes == db.changes && after.confirmations == db.confirmations && after.prints == db.prints
            && |after.tasks| == |db.tasks|
            && Replaced(db.tasks[id].title, title, after.tasks[id].title)
            && Replaced(db.tasks[id].fields, fields, after.tasks[id].fields)
            && after.tasks[id].status == db.tasks[id].status && after.tasks[id].project == project
            && forall i :: 0 <= i < |db.tasks| && i != id ==> after.tasks[i] == db.tasks[i]
  {
  }

  /** Settling a pending confirmation: ignoring cancels the task, accepting starts
      it, and modifying replaces the given fields and starts it. */
  lemma ConfirmationSettles(db: Db, project: string, id: nat, a: Action)
    requires id in db.confirmations && db.confirmations[id] == Pending
    requires id < |db.tasks| && db.tasks[id].project == project
    ensures ConfirmOutcome(db, project, id) == Done
    ensures var after := AfterConfirm(db, project, id, a);
            var t := after.tasks[id];
            && t.status == (if a == Ignore then Cancelled else NotStarted)
            && after.confirmations == db.confirmations[id := if a == Ignore then Ignored else Accepted]
            && after.changes == db.changes + [Change(id, Some(PendingConfirmation), t.status)]
            && Replaced(db.tasks[id].title, if a.Modify? then a.title else None, t.title)
            && Replaced(db.tasks[id].fields, if a.Modify? then a.fields else None, t.fields)
            && t.project == project && after.prints == db.prints && |after.tasks| == |db.tasks|
            && forall i :: 0 <= i < |db.tasks| && i != id ==> after.tasks[i] == db.tasks[i]
  {
  }

  // ---- Importing one row ----

  /** The task has the row's title, as the import's query compares titles. */
  predicate SameTitle(t: Task, project: string, title: string, fold: Folding) {
    t.project == project && fold.sql(t.title) == fold.py(title)
  }

  predicate FirstWithTitle(tasks: seq<Task>, project: string, title: string, fold: Folding, i: nat) {
    && i < |tasks| && SameTitle(tasks[i], project, title, fold)
    && forall j :: 0 <= j < i ==> !SameTitle(tasks[j], project, title, fold)
  }

  predicate NoneWithTitle(tasks: seq<Task>, project: string, title: string, fold: Folding) {
    forall j :: 0 <= j < |tasks| ==> !SameTitle(tasks[j], project, title, fold)
  }

  lemma {:induction false} FindTitleIsFirst(tasks: seq<Task>, project: string, title: string, fold: Folding)
    ensures match FindTitle(tasks, project, title, fold)
            case Some(i) => FirstWithTitle(tasks, project, title, fold, i)
            case None => NoneWithTitle(tasks, project, title, fold)
  {
    if |tasks| > 0 {
      FindTitleIsFirst(tasks[..|tasks| - 1], project, title, fold);
    }
  }

  predicate Skips(db: Db, project: string, row: Row, o: Options) {
    |row.title| == 0 || (o.skipDuplicates && (project, row.fingerprint) in db.prints)
  }

  /** An overwriting row replaces the fields of the first task of its title. The
      task keeps its title, status, log and confirmation, and no fingerprint is left. */
  lemma OverwriteReplacesFields(db: Db, project: string, row: Row, o: Options, fold: Folding, i: nat)
    requires !Skips(db, project, row, o) && o.overwriteConflicts && FirstWithTitle(db.tasks, project, row.title, fold, i)
    ensures var (after, outcome) := ImportRow(db, project, row, o, fold);
            && outcome == Imported && after.changes == db.changes && after.prints == db.prints
            && after.confirmations == db.confirmations
            && after.tasks == db.tasks[i := Task(project, db.tasks[i].title, row.fields, db.tasks[i].status)]
  {
    FindTitleIsFirst(db.tasks, project, row.title, fold);
  }

  /** A valid row that neither is skipped nor overwrites becomes one new task,
      not started and without confirmation, and leaves its fingerprint. */
  lemma NewRowBecomesTask(db: Db, project: string, row: Row, o: Options, fold: Folding)
    requires !Skips(db, project, row, o) && row.valid
    requires o.overwriteConflicts ==> NoneWithTitle(db.tasks, project, row.title, fold)
    ensures var (after, outcome) := ImportRow(db, project, row, o, fold);
            && outcome == Imported && after.confirmations == db.confirmations
            && after.tasks == db.tasks + [Task(project, row.title, row.fields, NotStarted)]
            && after.changes == db.changes + [Change(|db.tasks|, None, NotStarted)]
            && (project, row.fingerprint) in after.prints
            && forall key <- db.prints :: key in after.prints && after.prints[key] == db.prints[key]
  {
    FindTitleIsFirst(db.tasks, project, row.title, fold);
  }

  /** The other rows change nothing: skipped ones, and invalid ones that do not overwrite. */
  lemma OtherRowsChangeNothing(db: Db, project: string, row: Row, o: Options, fold: Folding)
    requires Skips(db, project, row, o)
          || (!row.valid && (o.overwriteConflicts ==> NoneWithTitle(db.tasks, project, row.title, fold)))
    ensures ImportRow(db, project, row, o, fold)
         == (db, if Skips(db, project, row, o) then Skipped else Errored)
  {
    FindTitleIsFirst(db.tasks, project, row.title, fold);
  }

  // ---- What a preview says about the import ----

  /** Folding a stored title in the database and again in the program gives the
      database's folding; true of titles without upper-case letters beyond ASCII. */
  ghost predicate FoldsAlike(db: Db, project: string, fold: Folding) {
    forall i :: 0 <= i < |db.tasks| && db.tasks[i].project == project ==>
      fold.py(fold.sql(db.tasks[i].title)) == fold.sql(db.tasks[i].title)
  }

  lemma ConflictIsSameTitle(db: Db, project: string, row: Row, fold: Folding)
    requires FoldsAlike(db, project, fold) && (project, row.fingerprint) !in db.prints
    ensures PreviewRow(db, project, row, fold) == Conflict <==> !NoneWithTitle(db.tasks, project, row.title, fold)
  {
    assert forall i :: 0 <= i < |db.tasks| && db.tasks[i].project == project ==>
             (fold.py(fold.sql(db.tasks[i].title)) == fold.py(row.title) <==> SameTitle(db.tasks[i], project, row.title, fold));
  }

  /** For a titled row that both request models accept, a preview foretells the
      import that skips duplicates and overwrites conflicts: a duplicate is
      skipped, a conflict changes the fields of a present task and adds none, and
      a new row adds one task. No such row is rejected. */
  lemma PreviewForetellsImport(db: Db, project: string, row: Row, fold: Folding)
    requires FoldsAlike(db, project, fold) && |row.title| > 0 && row.valid && row.previewable
    ensures var kind, (after, outcome) := PreviewRow(db, project, row, fold), ImportRow(db, project, row, Options(true, true), fold);
            && (kind == Duplicate <==> outcome == Skipped)
            && (kind == Conflict <==> outcome == Imported && |after.tasks| == |db.tasks|)
            && (kind == Fresh <==> outcome == Imported && |after.tasks| == |db.tasks| + 1)
            && kind != Rejected
  {
    var o := Options(true, true);
    FindTitleIsFirst(db.tasks, project, row.title, fold);
    if !Skips(db, project, row, o) {
      ConflictIsSameTitle(db, project, row, fold);
      if i :| 0 <= i < |db.tasks| && FirstWithTitle(db.tasks, project, row.title, fold, i) {
        OverwriteReplacesFields(db, project, row, o, fold, i);
      } else {
        NewRowBecomesTask(db, project, row, o, fold);
      }
    }
  }

  /** A preview rejects exactly the rows without a title or with values its request
      model refuses, unless they count as duplicate or conflicting first. */
  lemma RejectedIff(db: Db, project: string, row: Row, fold: Folding)
    ensures PreviewRow(db, project, row, fold) == Rejected <==>
            && (project, row.fingerprint) !in db.prints && (|row.title| == 0 || !row.previewable)
            && forall i :: 0 <= i < |db.tasks| && db.tasks[i].project == project ==>
                 fold.py(fold.sql(db.tasks[i].title)) != fold.py(row.title)
  {
  }

  /** Where the two foldings differ the preview misleads: a title that the database
      does not fold as the program does is announced as a conflict, and importing
      it with overwriting adds a second task of the same title. */
  lemma FoldingMismatchDuplicates(project: string, title: string, fields: Fields, fingerprint: string, fold: Folding)
    requires |title| > 0 && fold.py(fold.sql(title)) == fold.py(title) && fold.sql(title) != fold.py(title)
    ensures var db := AfterCreate(EMPTY, project, title, fields, NotStarted);
            var row := Row(title, fields, fingerprint, true, true);
            && PreviewRow(db, project, row, fold) == Conflict
            && ImportRow(db, project, row, Options(true, true), fold).0.tasks == db.tasks + db.tasks
  {
    var db := AfterCreate(EMPTY, project, title, fields, NotStarted);
    var row := Row(title, fields, fingerprint, true, true);
    assert db.tasks == [Task(project, title, fields, NotStarted)];
    NewRowBecomesTask(db, project, row, Options(true, true), fold);
  }
}
