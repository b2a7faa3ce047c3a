/** File versions of a project: detection against a snapshot, version chains and the change log. */
module DocVersions {
  import opened Wrappers

  /** A row of the version table; its id is its position. */
  datatype Version = Version(project: string, path: string, sha: string, parse: nat, index: nat,
                             replaced: bool, current: bool)

  datatype ChangeType = Modified | Deleted

  datatype LogRow = LogRow(project: string, path: string, change: ChangeType, oldSha: string, newSha: string,
                           oldParse: nat, newParse: nat, oldIndex: nat, newIndex: nat)

  datatype Db = Db(versions: seq<Version>, log: seq<LogRow>)

  predicate IsCurrent(v: Version, project: string, path: string) {
    v.project == project && v.path == path && v.current
  }

  /** The position of the first current row of a file. */
  function FindCurrent(versions: seq<Version>, project: string, path: string): (r: Option<nat>)
    ensures r.Some? ==> r.value < |versions| && IsCurrent(versions[r.value], project, path)
    ensures r.None? ==> forall i :: 0 <= i < |versions| ==> !IsCurrent(versions[i], project, path)
  {
    if |versions| == 0 then None
    else
      var init := FindCurrent(versions[..|versions| - 1], project, path);
      if init.Some? then init
      else if IsCurrent(versions[|versions| - 1], project, path) then Some(|versions| - 1)
      else None
  }

  function AfterRecord(db: Db, project: string, path: string, sha: string): Db {
    match FindCurrent(db.versions, project, path)
    case None => db.(versions := db.versions + [Version(project, path, sha, 1, 1, false, true)])
    case Some(i) =>
      var old' := db.versions[i];
      if old'.sha == sha then db
      else Db(db.versions[i := old'.(current := false, replaced := true)]
              + [Version(project, path, sha, old'.parse + 1, old'.index + 1, false, true)],
              db.log + [LogRow(project, path, Modified, old'.sha, sha, old'.parse, old'.parse + 1,
                               old'.index, old'.index + 1)])
  }

  /** `UPDATE ... SET is_current = 0` on every current row of the file. */
  function Retired(versions: seq<Version>, project: string, path: string): (r: seq<Version>)
    ensures |r| == |versions|
    ensures forall i :: 0 <= i < |r| ==>
              r[i] == if IsCurrent(versions[i], project, path) then versions[i].(current := false) else versions[i]
  {
    if |versions| == 0 then []
    else
      var v := versions[|versions| - 1];
      Retired(versions[..|versions| - 1], project, path)
      + [if IsCurrent(v, project, path) then v.(current := false) else v]
  }

  function AfterDelete(db: Db, project: string, path: string): Db {
    Db(Retired(db.versions, project, path),
       db.log + [LogRow(project, path, Deleted, "", "", 0, 0, 0, 0)])
  }

  /** The stored version a detection sees: the last current row of the path wins. */
  function Stored(versions: seq<Version>, project: string, path: string): Option<Version> {
    if |versions| == 0 then None
    else if IsCurrent(versions[|versions| - 1], project, path) then Some(versions[|versions| - 1])
    else Stored(versions[..|versions| - 1], project, path)
  }

  /** The files that exist, with their hashes ("" for an unreadable one). */
  type Snapshot = map<string, string>

  datatype Bucket = New | Changed | Gone | Unchanged | Unknown

  function Classify(versions: seq<Version>, project: string, snap: Snapshot, path: string): Bucket {
    match Stored(versions, project, path)
    case None => if path in snap then New else Unknown
    case Some(v) =>
      if path !in snap then Gone
      else if snap[path] != v.sha then Changed
      else Unchanged
  }

  datatype Diff = Diff(newFiles: seq<string>, modified: seq<string>, deleted: seq<string>, same: seq<string>)

  /** The paths of one bucket, in the order they were listed. */
  function InBucket(versions: seq<Version>, project: string, snap: Snapshot, paths: seq<string>, b: Bucket): seq<string> {
    if |paths| == 0 then []
    else
      var rest := InBucket(versions, project, snap, paths[..|paths| - 1], b);
      if Classify(versions, project, snap, paths[|paths| - 1]) == b then rest + [paths[|paths| - 1]] else rest
  }

  class VersionStore {
    var versions: seq<Version>
    var log: seq<LogRow>

    function Contents(): Db
      reads this
    {
      Db(versions, log)
    }

    constructor ()
      ensures Contents() == Db([], [])
    {
      versions, log := [], [];
    }

    /** Insert or bump the version of a file; returns its current version number. */
    method RecordFileVersion(project: string, path: string, sha: string) returns (version: nat)
      modifies this
      ensures Contents() == AfterRecord(old(Contents()), project, path, sha)
      ensures exists i :: 0 <= i < |versions| && IsCurrent(versions[i], project, path)
                && versions[i].sha == sha && versions[i].parse == version
    {
      var row := FindCurrent(versions, project, path);
      if row.None? {
        versions := versions + [Version(project, path, sha, 1, 1, false, true)];
        assert IsCurrent(versions[|versions| - 1], project, path);
        return 1;
      }
      var existing := versions[row.value];
      if existing.sha == sha {
        return existing.parse;
      }
      var newParse, newIndex := existing.parse + 1, existing.index + 1;
      versions := versions[row.value := existing.(current := false, replaced := true)];
      versions := versions + [Version(project, path, sha, newParse, newIndex, false, true)];
      log := log + [LogRow(project, path, Modified, existing.sha, sha, existing.parse, newParse,
                           existing.index, newIndex)];
      assert IsCurrent(versions[|versions| - 1], project, path);
      return newParse;
    }

    method MarkFileDeleted(project: string, path: string)
      modifies this
      ensures Contents() == AfterDelete(old(Contents()), project, path)
    {
      for i := 0 to |versions|
        invariant |versions| == |old(versions)| && log == old(log)
        invariant forall m :: 0 <= m < i ==> versions[m] == Retired(old(versions), project, path)[m]
        invariant forall m :: i <= m < |versions| ==> versions[m] == old(versions)[m]
      {
        if IsCurrent(versions[i], project, path) {
          versions := versions[i := versions[i].(current := false)];
        }
      }
      assert versions == Retired(old(versions), project, path);
      log := log + [LogRow(project, path, Deleted, "", "", 0, 0, 0, 0)];
    }

    method DetectFileChanges(project: string, snap: Snapshot, paths: seq<string>) returns (diff: Diff)
      ensures diff.newFiles == InBucket(versions, project, snap, paths, New)
      ensures diff.modified == InBucket(versions, project, snap, paths, Changed)
      ensures diff.deleted == InBucket(versions, project, snap, paths, Gone)
      ensures diff.same == InBucket(versions, project, snap, paths, Unchanged)
    {
      diff := Diff([], [], [], []);
      for i := 0 to |paths|
        invariant diff.newFiles == InBucket(versions, project, snap, paths[..i], New)
        invariant diff.modified == InBucket(versions, project, snap, paths[..i], Changed)
        invariant diff.deleted == InBucket(versions, project, snap, paths[..i], Gone)
        invariant diff.same == InBucket(versions, project, snap, paths[..i], Unchanged)
      {
        var path := paths[i];
        assert paths[..i + 1][..i] == paths[..i];
        var stored := Stored(versions, project, path);
        if path !in snap && stored.Some? {
          diff := diff.(deleted := diff.deleted + [path]);
        } else if path in snap && stored.None? {
          diff := diff.(newFiles := diff.newFiles + [path]);
        } else if path in snap && snap[path] != stored.value.sha {
          diff := diff.(modified := diff.modified + [path]);
        } else if path in snap {
          diff := diff.(same := diff.same + [path]);
        }
      }
      assert paths[..|paths|] == paths;
    }

    /** First-run initialisation: record every listed file that exists. */
    method InitialiseProjectVersions(project: string, snap: Snapshot, paths: seq<string>)
      modifies this
      ensures Contents() == AfterInitialise(old(Contents()), project, snap, paths)
    {
      for i := 0 to |paths|
        invariant Contents() == AfterInitialise(old(Contents()), project, snap, paths[..i])
      {
        assert paths[..i + 1][..i] == paths[..i];
        if paths[i] in snap {
          var _ := RecordFileVersion(project, paths[i], snap[paths[i]]);
        }
      }
      assert paths[..|paths|] == paths;
    }
  }

  function AfterInitialise(db: Db, project: string, snap: Snapshot, paths: seq<string>): Db {
    if |paths| == 0 then db
    else
      var before, path := AfterInitialise(db, project, snap, paths[..|paths| - 1]), paths[|paths| - 1];
      if path in snap then AfterRecord(before, project, path, snap[path]) else before
  }

  // ---------------------------------------------------------------- version chains

  predicate OfFile(v: Version, project: string, path: string) {
    v.project == project && v.path == path
  }

  /** The position of the last row of a file. */
  function Last(versions: seq<Version>, project: string, path: string): (r: Option<nat>)
    ensures r.Some? ==> r.value < |versions| && OfFile(versions[r.value], project, path)
    ensures forall k :: 0 <= k < |versions| && OfFile(versions[k], project, path) ==> r.Some? && k <= r.value
  {
    if |versions| == 0 then None
    else if OfFile(versions[|versions| - 1], project, path) then Some(|versions| - 1)
    else Last(versions[..|versions| - 1], project, path)
  }

  /** The row of the same file that row `j` follows. */
  function Prev(versions: seq<Version>, j: nat): (r: Option<nat>)
    requires j < |versions|
    ensures r.Some? ==> r.value < j && OfFile(versions[r.value], versions[j].project, versions[j].path)
  {
    Last(versions[..j], versions[j].project, versions[j].path)
  }

  /** Only the last row of a file may be current, and it has not been replaced. */
  ghost predicate FileOk(versions: seq<Version>, project: string, path: string) {
    match Last(versions, project, path)
    case None => true
    case Some(i) =>
      && !versions[i].replaced
      && forall k :: 0 <= k < |versions| && IsCurrent(versions[k], project, path) ==> k == i
  }

  /** Numbering: a replaced row is followed by its successor number and different content, a
      file's first row and one that follows a deletion have number 1. */
  ghost predicate StepOk(versions: seq<Version>, j: nat)
    requires j < |versions|
  {
    && versions[j].index == versions[j].parse
    && match Prev(versions, j)
       case None => versions[j].parse == 1
       case Some(i) =>
         if versions[i].replaced then versions[j].parse == versions[i].parse + 1 && versions[j].sha != versions[i].sha
         else versions[j].parse == 1
  }

  /** A modification row spells out a replaced version and its successor. */
  predicate Links(v: Version, w: Version, row: LogRow) {
    && v.replaced && v.project == row.project && v.path == row.path
    && v.sha == row.oldSha && w.sha == row.newSha && row.oldSha != row.newSha
    && v.parse == row.oldParse && w.parse == row.newParse == row.oldParse + 1
    && v.index == row.oldIndex && w.index == row.newIndex == row.oldIndex + 1
  }

  ghost predicate LinksAdjacent(versions: seq<Version>, row: LogRow) {
    exists j :: 0 <= j < |versions| && Prev(versions, j).Some?
             && Links(versions[Prev(versions, j).value], versions[j], row)
  }

  ghost predicate WellFormed(db: Db) {
    && (forall project, path :: FileOk(db.versions, project, path))
    && (forall j :: 0 <= j < |db.versions| ==> StepOk(db.versions, j))
    && (forall l :: 0 <= l < |db.log| && db.log[l].change == Modified ==> LinksAdjacent(db.versions, db.log[l]))
  }

  /** The same rows up to their `current` and `replaced` flags; replacements are not taken back. */
  ghost predicate Reflagged(v: seq<Version>, w: seq<Version>) {
    && |v| == |w|
    && (forall i :: 0 <= i < |v| ==> w[i].(current := v[i].current, replaced := v[i].replaced) == v[i])
    && (forall i :: 0 <= i < |v| && v[i].replaced ==> w[i].replaced)
  }

  lemma {:induction false} LastReflagged(v: seq<Version>, w: seq<Version>, project: string, path: string)
    requires Reflagged(v, w)
    ensures Last(w, project, path) == Last(v, project, path)
  {
    if |v| > 0 {
      assert v[|v| - 1].path == w[|w| - 1].path && v[|v| - 1].project == w[|w| - 1].project;
      LastReflagged(v[..|v| - 1], w[..|w| - 1], project, path);
    }
  }

  lemma PrevReflagged(v: seq<Version>, w: seq<Version>, j: nat)
    requires Reflagged(v, w) && j < |v|
    ensures Prev(w, j) == Prev(v, j)
    ensures v[j].project == w[j].project && v[j].path == w[j].path
  {
    LastReflagged(v[..j], w[..j], v[j].project, v[j].path);
  }

  lemma PrevPrefix(v: seq<Version>, row: Version, j: nat)
    requires j < |v|
    ensures Prev(v + [row], j) == Prev(v, j)
  {
    assert (v + [row])[..j] == v[..j];
  }

  lemma LinksSurvive(v: seq<Version>, w: seq<Version>, row: LogRow)
    requires LinksAdjacent(v, row) && Reflagged(v, w)
    ensures LinksAdjacent(w, row)
  {
    var j :| 0 <= j < |v| && Prev(v, j).Some? && Links(v[Prev(v, j).value], v[j], row);
    PrevReflagged(v, w, j);
    assert Links(w[Prev(w, j).value], w[j], row);
  }

  lemma LinksPrefix(v: seq<Version>, added: Version, row: LogRow)
    requires LinksAdjacent(v, row)
    ensures LinksAdjacent(v + [added], row)
  {
    var j :| 0 <= j < |v| && Prev(v, j).Some? && Links(v[Prev(v, j).value], v[j], row);
    PrevPrefix(v, added, j);
    assert Prev(v + [added], j).Some?;
  }

  lemma DeleteKeepsWellFormed(db: Db, project: string, path: string)
    requires WellFormed(db)
    ensures WellFormed(AfterDelete(db, project, path))
  {
    var v, after := db.versions, AfterDelete(db, project, path);
    var w := after.versions;
    forall p, f
      ensures FileOk(w, p, f)
    {
      LastReflagged(v, w, p, f);
      assert FileOk(v, p, f);
    }
    forall j | 0 <= j < |w|
      ensures StepOk(w, j)
    {
      PrevReflagged(v, w, j);
      assert StepOk(v, j);
    }
    forall l | 0 <= l < |after.log| && after.log[l].change == Modified
      ensures LinksAdjacent(w, after.log[l])
    {
      LinksSurvive(v, w, db.log[l]);
    }
  }

  /** Appending a row with the right number keeps the files and the numbering. */
  lemma AppendRow(v: seq<Version>, row: Version)
    requires forall p, f :: FileOk(v, p, f) || OfFile(row, p, f)
    requires forall j :: 0 <= j < |v| ==> StepOk(v, j)
    requires !row.replaced && StepOk(v + [row], |v|)
    requires forall k :: 0 <= k < |v| ==> !IsCurrent(v[k], row.project, row.path)
    ensures forall p, f :: FileOk(v + [row], p, f)
    ensures forall j :: 0 <= j <= |v| ==> StepOk(v + [row], j)
  {
    var w := v + [row];
    assert w[..|w| - 1] == v;
    forall p, f
      ensures FileOk(w, p, f)
    {
      if !OfFile(row, p, f) {
        assert FileOk(v, p, f);
      }
    }
    forall j | 0 <= j <= |v|
      ensures StepOk(w, j)
    {
      if j < |v| {
        assert StepOk(v, j);
        PrevPrefix(v, row, j);
      }
    }
  }

  /** The first version of a file, or its first one after a deletion. */
  lemma InsertKeepsWellFormed(db: Db, project: string, path: string, sha: string)
    requires WellFormed(db) && FindCurrent(db.versions, project, path).None?
    ensures WellFormed(AfterRecord(db, project, path, sha))
  {
    var v, row := db.versions, Version(project, path, sha, 1, 1, false, true);
    assert (v + [row])[..|v|] == v;
    assert FileOk(v, project, path);
    AppendRow(v, row);
    forall l | 0 <= l < |db.log| && db.log[l].change == Modified
      ensures LinksAdjacent(v + [row], db.log[l])
    {
      LinksPrefix(v, row, db.log[l]);
    }
  }

  /** Marking a file's current row as replaced spoils only that file's last row. */
  lemma ReplaceRow(v: seq<Version>, c: nat, project: string, path: string)
    requires c < |v| && IsCurrent(v[c], project, path)
    requires forall p, f :: FileOk(v, p, f)
    requires forall j :: 0 <= j < |v| ==> StepOk(v, j)
    ensures var u := v[c := v[c].(current := false, replaced := true)];
            && Reflagged(v, u)
            && (forall p, f :: FileOk(u, p, f) || OfFile(v[c], p, f))
            && (forall j :: 0 <= j < |u| ==> StepOk(u, j))
            && (forall k :: 0 <= k < |u| ==> !IsCurrent(u[k], project, path))
            && Last(u, project, path) == Some(c)
  {
    var u := v[c := v[c].(current := false, replaced := true)];
    assert Reflagged(v, u);
    assert FileOk(v, project, path);
    LastReflagged(v, u, project, path);
    forall p, f
      ensures FileOk(u, p, f) || OfFile(v[c], p, f)
    {
      LastReflagged(v, u, p, f);
      assert FileOk(v, p, f);
    }
    forall j | 0 <= j < |u|
      ensures StepOk(u, j)
    {
      PrevReflagged(v, u, j);
      assert StepOk(v, j);
      assert Prev(v, j) != Some(c);
    }
  }

  /** Replacing the current version by one with different content. */
  lemma BumpKeepsWellFormed(db: Db, project: string, path: string, sha: string)
    requires WellFormed(db) && FindCurrent(db.versions, project, path).Some?
    requires db.versions[FindCurrent(db.versions, project, path).value].sha != sha
    ensures WellFormed(AfterRecord(db, project, path, sha))
  {
    var v, c := db.versions, FindCurrent(db.versions, project, path).value;
    var u := v[c := v[c].(current := false, replaced := true)];
    var row := Version(project, path, sha, v[c].parse + 1, v[c].index + 1, false, true);
    var after := AfterRecord(db, project, path, sha);
    assert StepOk(v, c);
    ReplaceRow(v, c, project, path);
    assert (u + [row])[..|u|] == u;
    assert Prev(u + [row], |u|) == Some(c);
    AppendRow(u, row);
    forall l | 0 <= l < |after.log| && after.log[l].change == Modified
      ensures LinksAdjacent(u + [row], after.log[l])
    {
      if l < |db.log| {
        LinksSurvive(v, u, db.log[l]);
        LinksPrefix(u, row, db.log[l]);
      } else {
        assert Links(u[c], row, after.log[l]);
      }
    }
  }

  datatype Op = Record(project: string, path: string, sha: string) | Delete(project: string, path: string)

  function Step(db: Db, op: Op): Db {
    match op
    case Record(project, path, sha) => AfterRecord(db, project, path, sha)
    case Delete(project, path) => AfterDelete(db, project, path)
  }

  function Run(ops: seq<Op>): Db {
    if |ops| == 0 then Db([], []) else Step(Run(ops[..|ops| - 1]), ops[|ops| - 1])
  }

  lemma RecordKeepsWellFormed(db: Db, project: string, path: string, sha: string)
    requires WellFormed(db)
    ensures WellFormed(AfterRecord(db, project, path, sha))
  {
    var c := FindCurrent(db.versions, project, path);
    if c.None? {
      InsertKeepsWellFormed(db, project, path, sha);
    } else if db.versions[c.value].sha != sha {
      BumpKeepsWellFormed(db, project, path, sha);
    }
  }

  /** Every reachable table is well formed: one current row per file at most, numbered
      chains, and a change log that links adjacent versions. */
  lemma {:induction false} RunWellFormed(ops: seq<Op>)
    ensures WellFormed(Run(ops))
  {
    if |ops| > 0 {
      RunWellFormed(ops[..|ops| - 1]);
      match ops[|ops| - 1]
      case Record(project, path, sha) => RecordKeepsWellFormed(Run(ops[..|ops| - 1]), project, path, sha);
      case Delete(project, path) => DeleteKeepsWellFormed(Run(ops[..|ops| - 1]), project, path);
    }
  }

  // ---------------------------------------------------------------- what the current row means

  /** The current row of a file, its position forgotten. */
  function Current(db: Db, project: string, path: string): Option<Version> {
    match FindCurrent(db.versions, project, path)
    case None => None
    case Some(i) => Some(db.versions[i])
  }

  /** The hashes recorded for a file since it was last deleted. */
  function Recorded(ops: seq<Op>, project: string, path: string): seq<string> {
    if |ops| == 0 then []
    else
      var before, op := Recorded(ops[..|ops| - 1], project, path), ops[|ops| - 1];
      if op.project != project || op.path != path then before
      else if op.Record? then before + [op.sha]
      else []
  }

  /** How many times the content changed along a list of hashes, the first one included. */
  function Changes(shas: seq<string>): nat {
    if |shas| == 0 then 0
    else if |shas| == 1 then 1
    else Changes(shas[..|shas| - 1]) + if shas[|shas| - 1] != shas[|shas| - 2] then 1 else 0
  }

  lemma {:induction false} FindCurrentAt(versions: seq<Version>, project: string, path: string, i: nat)
    requires i < |versions| && IsCurrent(versions[i], project, path)
    requires forall k :: 0 <= k < |versions| && IsCurrent(versions[k], project, path) ==> k == i
    ensures FindCurrent(versions, project, path) == Some(i)
  {
  }

  lemma OwnCurrentAfterRecord(db: Db, project: string, path: string, sha: string)
    requires WellFormed(db)
    ensures var before, after := Current(db, project, path), Current(AfterRecord(db, project, path, sha), project, path);
            && after.Some? && after.value.sha == sha
            && after.value.parse == (if before.None? then 1
                                     else if before.value.sha == sha then before.value.parse
                                     else before.value.parse + 1)
  {
    var v, w := db.versions, AfterRecord(db, project, path, sha).versions;
    var c := FindCurrent(v, project, path);
    if c.None? || v[c.value].sha != sha {
      assert FileOk(v, project, path);
      assert forall k :: 0 <= k < |v| ==> !IsCurrent(w[k], project, path);
      FindCurrentAt(w, project, path, |v|);
    }
  }

  /** A new row of another file does not change what is current. */
  lemma CurrentBeyondRow(v: seq<Version>, row: Version, q: string, g: string)
    requires !IsCurrent(row, q, g)
    ensures FindCurrent(v + [row], q, g) == FindCurrent(v, q, g)
  {
    assert (v + [row])[..|v|] == v;
  }

  /** Nor does retiring a row of another file. */
  lemma {:induction false} CurrentBesideRow(v: seq<Version>, c: nat, row: Version, q: string, g: string)
    requires c < |v| && !IsCurrent(v[c], q, g) && !IsCurrent(row, q, g)
    ensures FindCurrent(v[c := row], q, g) == FindCurrent(v, q, g)
  {
    var n := |v| - 1;
    if c < n {
      CurrentBesideRow(v[..n], c, row, q, g);
      assert v[c := row][..n] == v[..n][c := row];
    } else {
      assert v[c := row][..n] == v[..n];
    }
  }

  lemma OtherCurrentAfterInsert(db: Db, project: string, path: string, sha: string, q: string, g: string)
    requires (q != project || g != path) && FindCurrent(db.versions, project, path).None?
    ensures Current(AfterRecord(db, project, path, sha), q, g) == Current(db, q, g)
  {
    CurrentBeyondRow(db.versions, Version(project, path, sha, 1, 1, false, true), q, g);
  }

  lemma OtherCurrentAfterBump(db: Db, project: string, path: string, sha: string, q: string, g: string)
    requires (q != project || g != path) && FindCurrent(db.versions, project, path).Some?
    requires db.versions[FindCurrent(db.versions, project, path).value].sha != sha
    ensures Current(AfterRecord(db, project, path, sha), q, g) == Current(db, q, g)
  {
    var v, c := db.versions, FindCurrent(db.versions, project, path).value;
    var retired := v[c].(current := false, replaced := true);
    CurrentBesideRow(v, c, retired, q, g);
    CurrentBeyondRow(v[c := retired], Version(project, path, sha, v[c].parse + 1, v[c].index + 1, false, true), q, g);
  }

  lemma OtherCurrentAfterRecord(db: Db, project: string, path: string, sha: string, q: string, g: string)
    requires q != project || g != path
    ensures Current(AfterRecord(db, project, path, sha), q, g) == Current(db, q, g)
  {
    var c := FindCurrent(db.versions, project, path);
    if c.None? {
      OtherCurrentAfterInsert(db, project, path, sha, q, g);
    } else if db.versions[c.value].sha != sha {
      OtherCurrentAfterBump(db, project, path, sha, q, g);
    }
  }

  /** Recording changes the current row of its own file only. */
  lemma CurrentAfterRecord(db: Db, project: string, path: string, sha: string, q: string, g: string)
    requires WellFormed(db)
    ensures var before, after := Current(db, q, g), Current(AfterRecord(db, project, path, sha), q, g);
            if q != project || g != path then after == before
            else
              && after.Some? && after.value.sha == sha
              && after.value.parse == (if before.None? then 1
                                       else if before.value.sha == sha then before.value.parse
                                       else before.value.parse + 1)
  {
    if q == project && g == path {
      OwnCurrentAfterRecord(db, project, path, sha);
    } else {
      OtherCurrentAfterRecord(db, project, path, sha, q, g);
    }
  }

  lemma CurrentAfterDelete(db: Db, project: string, path: string, q: string, g: string)
    requires WellFormed(db)
    ensures Current(AfterDelete(db, project, path), q, g)
         == if q == project && g == path then None else Current(db, q, g)
  {
    var v, w := db.versions, AfterDelete(db, project, path).versions;
    assert FileOk(v, q, g);
    var c := FindCurrent(v, q, g);
    if (q != project || g != path) && c.Some? {
      FindCurrentAt(w, q, g, c.value);
    } else {
      assert forall k :: 0 <= k < |w| ==> !IsCurrent(w[k], q, g);
    }
  }

  lemma ChangesPush(shas: seq<string>, sha: string)
    ensures Changes(shas + [sha])
         == if |shas| == 0 then 1 else if shas[|shas| - 1] == sha then Changes(shas) else Changes(shas) + 1
  {
    assert (shas + [sha])[..|shas|] == shas;
  }

  lemma CurrentNumbersAgree(db: Db, project: string, path: string)
    requires WellFormed(db)
    ensures var c := Current(db, project, path); c.Some? ==> c.value.index == c.value.parse
  {
    var c := FindCurrent(db.versions, project, path);
    if c.Some? {
      assert StepOk(db.versions, c.value);
    }
  }

  /** A file has a current row exactly if something was recorded; the row holds the last hash and
      its version number counts the content changes. */
  predicate Counts(current: Option<Version>, shas: seq<string>) {
    && (current.Some? <==> |shas| > 0)
    && (current.Some? ==> current.value.sha == shas[|shas| - 1] && current.value.parse == Changes(shas))
  }

  lemma RecordCounts(db: Db, project: string, path: string, sha: string, shas: seq<string>)
    requires WellFormed(db) && Counts(Current(db, project, path), shas)
    ensures Counts(Current(AfterRecord(db, project, path, sha), project, path), shas + [sha])
  {
    OwnCurrentAfterRecord(db, project, path, sha);
    ChangesPush(shas, sha);
  }

  /** After any history, the current row of a file tells what was recorded since its last deletion:
      the last hash, and in both version numbers the number of content changes. */
  lemma {:induction false} CurrentVersionCountsChanges(ops: seq<Op>, project: string, path: string)
    ensures Counts(Current(Run(ops), project, path), Recorded(ops, project, path))
    ensures var c := Current(Run(ops), project, path); c.Some? ==> c.value.index == c.value.parse
  {
    RunWellFormed(ops);
    CurrentNumbersAgree(Run(ops), project, path);
    if |ops| > 0 {
      var before, op := ops[..|ops| - 1], ops[|ops| - 1];
      CurrentVersionCountsChanges(before, project, path);
      RunWellFormed(before);
      if op.Delete? {
        CurrentAfterDelete(Run(before), op.project, op.path, project, path);
      } else if op.project == project && op.path == path {
        RecordCounts(Run(before), project, path, op.sha, Recorded(before, project, path));
      } else {
        OtherCurrentAfterRecord(Run(before), op.project, op.path, op.sha, project, path);
      }
    }
  }

  // ---------------------------------------------------------------- detection is a fixpoint

  /** With at most one current row per file, detection sees the current row. */
  lemma {:induction false} StoredAt(versions: seq<Version>, project: string, path: string)
    ensures Stored(versions, project, path).Some? <==> exists i :: 0 <= i < |versions| && IsCurrent(versions[i], project, path)
    ensures Stored(versions, project, path).Some? ==>
              exists i :: 0 <= i < |versions| && IsCurrent(versions[i], project, path)
                       && versions[i] == Stored(versions, project, path).value
  {
    if |versions| > 0 {
      StoredAt(versions[..|versions| - 1], project, path);
    }
  }

  lemma StoredIsCurrent(db: Db, project: string, path: string)
    requires WellFormed(db)
    ensures Stored(db.versions, project, path) == Current(db, project, path)
  {
    StoredAt(db.versions, project, path);
    assert FileOk(db.versions, project, path);
  }

  function DeleteAll(db: Db, project: string, paths: seq<string>): Db {
    if |paths| == 0 then db
    else AfterDelete(DeleteAll(db, project, paths[..|paths| - 1]), project, paths[|paths| - 1])
  }

  /** Act on a detection: record what is new or modified, mark what is gone as deleted. */
  function ApplyDiff(db: Db, project: string, snap: Snapshot, paths: seq<string>): Db {
    var added := InBucket(db.versions, project, snap, paths, New);
    var modified := InBucket(db.versions, project, snap, paths, Changed);
    var deleted := InBucket(db.versions, project, snap, paths, Gone);
    DeleteAll(AfterInitialise(AfterInitialise(db, project, snap, added), project, snap, modified), project, deleted)
  }

  function Sha(v: Option<Version>): Option<string> {
    match v
    case None => None
    case Some(w) => Some(w.sha)
  }

  /** Recording a list of files makes each listed one that exists current with its snapshot hash. */
  lemma {:induction false} InitialiseSetsHashes(db: Db, project: string, snap: Snapshot, paths: seq<string>, g: string)
    requires WellFormed(db)
    ensures WellFormed(AfterInitialise(db, project, snap, paths))
    ensures Sha(Current(AfterInitialise(db, project, snap, paths), project, g))
         == if g in paths && g in snap then Some(snap[g]) else Sha(Current(db, project, g))
  {
    if |paths| > 0 {
      var init, path := paths[..|paths| - 1], paths[|paths| - 1];
      assert paths == init + [path];
      var before := AfterInitialise(db, project, snap, init);
      InitialiseSetsHashes(db, project, snap, init, g);
      if path in snap {
        RecordKeepsWellFormed(before, project, path, snap[path]);
        CurrentAfterRecord(before, project, path, snap[path], project, g);
      }
    }
  }

  lemma {:induction false} DeleteAllClears(db: Db, project: string, paths: seq<string>, g: string)
    requires WellFormed(db)
    ensures WellFormed(DeleteAll(db, project, paths))
    ensures Current(DeleteAll(db, project, paths), project, g) == if g in paths then None else Current(db, project, g)
  {
    if |paths| > 0 {
      var init, path := paths[..|paths| - 1], paths[|paths| - 1];
      assert paths == init + [path];
      DeleteAllClears(db, project, init, g);
      DeleteKeepsWellFormed(DeleteAll(db, project, init), project, path);
      CurrentAfterDelete(DeleteAll(db, project, init), project, path, project, g);
    }
  }

  lemma {:induction false} InBucketChar(versions: seq<Version>, project: string, snap: Snapshot, paths: seq<string>,
                                        b: Bucket, g: string)
    ensures g in InBucket(versions, project, snap, paths, b) <==> g in paths && Classify(versions, project, snap, g) == b
  {
    if |paths| > 0 {
      InBucketChar(versions, project, snap, paths[..|paths| - 1], b, g);
      assert paths == paths[..|paths| - 1] + [paths[|paths| - 1]];
    }
  }

  /** After acting on a detection, the same snapshot shows every listed file as unchanged, or as
      neither stored nor existing. */
  lemma DetectionSettles(db: Db, project: string, snap: Snapshot, paths: seq<string>, g: string)
    requires WellFormed(db) && g in paths
    ensures WellFormed(ApplyDiff(db, project, snap, paths))
    ensures Classify(ApplyDiff(db, project, snap, paths).versions, project, snap, g)
         == if g in snap then Unchanged else Unknown
  {
    var v := db.versions;
    var added, modified := InBucket(v, project, snap, paths, New), InBucket(v, project, snap, paths, Changed);
    var deleted := InBucket(v, project, snap, paths, Gone);
    var db1 := AfterInitialise(db, project, snap, added);
    var db2 := AfterInitialise(db1, project, snap, modified);
    InitialiseSetsHashes(db, project, snap, added, g);
    InitialiseSetsHashes(db1, project, snap, modified, g);
    DeleteAllClears(db2, project, deleted, g);
    StoredIsCurrent(db, project, g);
    StoredIsCurrent(DeleteAll(db2, project, deleted), project, g);
    InBucketChar(v, project, snap, paths, New, g);
    InBucketChar(v, project, snap, paths, Changed, g);
    InBucketChar(v, project, snap, paths, Gone, g);
  }

  /** First-run initialisation leaves nothing new or modified among the listed files. */
  lemma InitialisedIsUnchanged(db: Db, project: string, snap: Snapshot, paths: seq<string>, g: string)
    requires WellFormed(db) && g in paths && g in snap
    ensures Classify(AfterInitialise(db, project, snap, paths).versions, project, snap, g) == Unchanged
  {
    InitialiseSetsHashes(db, project, snap, paths, g);
    StoredIsCurrent(AfterInitialise(db, project, snap, paths), project, g);
  }

  // ---------------------------------------------------------------- detection compares with history

  /** What detection says of a file, over every history: `New` if it exists and
      nothing was recorded since its last deletion, `Gone` if something was and it
      does not exist, and otherwise `Unchanged` or `Changed` as the snapshot's hash
      is the last one recorded or not. */
  lemma DetectionComparesHistory(ops: seq<Op>, project: string, snap: Snapshot, path: string)
    ensures var shas, found := Recorded(ops, project, path), Classify(Run(ops).versions, project, snap, path);
            && (found == New <==> path in snap && |shas| == 0)
            && (found == Gone <==> path !in snap && |shas| > 0)
            && (found == Unchanged <==> path in snap && |shas| > 0 && shas[|shas| - 1] == snap[path])
            && (found == Changed <==> path in snap && |shas| > 0 && shas[|shas| - 1] != snap[path])
  {
    RunWellFormed(ops);
    StoredIsCurrent(Run(ops), project, path);
    CurrentVersionCountsChanges(ops, project, path);
  }

  // ---------------------------------------------------------------- the change log counts the history

  /** The rows of one kind that the log holds for a file. */
  function LogRows(log: seq<LogRow>, project: string, path: string, change: ChangeType): nat {
    if |log| == 0 then 0
    else
      var row := log[|log| - 1];
      LogRows(log[..|log| - 1], project, path, change)
      + if row.project == project && row.path == path && row.change == change then 1 else 0
  }

  /** How often a recording gave the file another hash than the one recorded before it. */
  function Replacements(ops: seq<Op>, project: string, path: string): nat {
    if |ops| == 0 then 0
    else
      var before, op := ops[..|ops| - 1], ops[|ops| - 1];
      var shas := Recorded(before, project, path);
      Replacements(before, project, path)
      + if op.Record? && op.project == project && op.path == path && |shas| > 0 && shas[|shas| - 1] != op.sha then 1 else 0
  }

  function Deletions(ops: seq<Op>, project: string, path: string): nat {
    if |ops| == 0 then 0
    else
      var op := ops[|ops| - 1];
      Deletions(ops[..|ops| - 1], project, path) + if op.Delete? && op.project == project && op.path == path then 1 else 0
  }

  lemma LogRowsPush(log: seq<LogRow>, row: LogRow, project: string, path: string, change: ChangeType)
    ensures LogRows(log + [row], project, path, change)
         == LogRows(log, project, path, change)
          + if row.project == project && row.path == path && row.change == change then 1 else 0
  {
    assert (log + [row])[..|log|] == log;
  }

  /** A recording logs a modification exactly if it replaces a current row of another hash. */
  lemma RecordLogs(db: Db, project: string, path: string, sha: string, q: string, g: string, change: ChangeType)
    ensures var c := Current(db, project, path);
            LogRows(AfterRecord(db, project, path, sha).log, q, g, change)
            == LogRows(db.log, q, g, change)
             + if c.Some? && c.value.sha != sha && q == project && g == path && change == Modified then 1 else 0
  {
    var c := FindCurrent(db.versions, project, path);
    if c.Some? && db.versions[c.value].sha != sha {
      var v := db.versions[c.value];
      LogRowsPush(db.log, LogRow(project, path, Modified, v.sha, sha, v.parse, v.parse + 1, v.index, v.index + 1), q, g, change);
    }
  }

  /** Over every history the log holds one modification row for each replacement
      of a file's content and one deletion row for each deletion. */
  lemma {:induction false} LogCountsHistory(ops: seq<Op>, project: string, path: string)
    ensures LogRows(Run(ops).log, project, path, Modified) == Replacements(ops, project, path)
    ensures LogRows(Run(ops).log, project, path, Deleted) == Deletions(ops, project, path)
  {
    if |ops| > 0 {
      var before, op := ops[..|ops| - 1], ops[|ops| - 1];
      LogCountsHistory(before, project, path);
      match op
      case Record(p, f, sha) =>
        CurrentVersionCountsChanges(before, project, path);
        RecordLogs(Run(before), p, f, sha, project, path, Modified);
        RecordLogs(Run(before), p, f, sha, project, path, Deleted);
      case Delete(p, f) =>
        LogRowsPush(Run(before).log, LogRow(p, f, Deleted, "", "", 0, 0, 0, 0), project, path, Modified);
        LogRowsPush(Run(before).log, LogRow(p, f, Deleted, "", "", 0, 0, 0, 0), project, path, Deleted);
    }
  }
}
