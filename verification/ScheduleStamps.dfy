/**
 The scheduled-task audit in the order its table records. A row's created_at is now(), the start of the
 transaction that wrote it, and ids are random, so the order of commits is not in the table: of two
 transactions that overlap, the one that began first may commit last.
 */
module ScheduleStamps {
  import opened Common
  import opened ScheduleAudit
  import opened ScheduleRaces

  /** An audit row with its created_at. */
  datatype Stamped = Stamped(start: Instant, row: AuditRow)

  /** The actions, and the audit table as ORDER BY created_at gives it. */
  datatype Timed = Timed(race: Race, table: seq<Stamped>)

  /** Every step that writes an audit row does so in a transaction begun at `start`, whenever that was. */
  datatype TimedStep = TimedStep(step: RaceStep, start: Instant)

  function Rows(table: seq<Stamped>): (rows: seq<AuditRow>)
    ensures |rows| == |table|
  {
    seq(|table|, i requires 0 <= i < |table| => table[i].row)
  }

  /** Where a row stamped `t` goes: behind those begun no later. */
  function Position(table: seq<Stamped>, t: Instant): (k: nat)
    ensures k <= |table|
    decreases |table|
  {
    if table == [] || table[|table| - 1].start <= t then |table| else Position(table[..|table| - 1], t)
  }

  /** The rows begun after `t`. */
  function LaterRows(table: seq<Stamped>, t: Instant): seq<Stamped> {
    table[Position(table, t)..]
  }

  function Insert(table: seq<Stamped>, e: Stamped): seq<Stamped> {
    var k := Position(table, e.start);
    table[..k] + [e] + table[k..]
  }

  /** The audit row the step commits, if it does. */
  function Appended(r: Race, step: RaceStep): Option<AuditRow> {
    var audit := ApplyRace(r, step).db.audit;
    if |audit| > |r.db.audit| then Some(audit[|audit| - 1]) else None
  }

  function ApplyTimed(x: Timed, s: TimedStep): Timed {
    var row := Appended(x.race, s.step);
    Timed(ApplyRace(x.race, s.step), if row.Some? then Insert(x.table, Stamped(s.start, row.value)) else x.table)
  }

  function ExecTimed(steps: seq<TimedStep>): Timed
    decreases |steps|
  {
    if steps == [] then Timed(Race(INIT, map[]), [])
    else ApplyTimed(ExecTimed(steps[..|steps| - 1]), steps[|steps| - 1])
  }

  ghost predicate AgreesByStart(x: Timed) {
    Agrees(Replay(Rows(x.table)), x.race.db)
  }

  // ---------------------------------------------------------------- which columns a row sets

  datatype Column = Text(field: Field) | NextFireAt | PausedFlag | DepartmentAndMode

  const ALL: set<Column> := {Text(Name), Text(RoleSlug), Text(ScheduleExpr), Text(Objective), Text(Acceptance),
                             NextFireAt, PausedFlag, DepartmentAndMode}

  function Sets(row: AuditRow): set<Column> {
    match row
    case Created(_, _) => ALL
    case Edited(_, _, after) =>
      (set f | f in after.fields :: Text(f)) + if after.nextFireAt.Some? then {NextFireAt} else {}
    case PausedRow(_, _) => {PausedFlag}
    case ResumedRow(_, _, _) => {PausedFlag, NextFireAt}
    case Deleted(_, _) => {}
  }

  function SetsOf(table: seq<Stamped>, id: TaskId): set<Column>
    decreases |table|
  {
    if table == [] then {}
    else
      var last := table[|table| - 1].row;
      SetsOf(table[..|table| - 1], id) + if last.id == id then Sets(last) else {}
  }

  predicate CreatedIn(table: seq<Stamped>, id: TaskId) {
    exists i :: 0 <= i < |table| && table[i].row.Created? && table[i].row.id == id
  }

  predicate Differ(a: Task, b: Task, c: Column) {
    match c
    case Text(f) => a.Get(f) != b.Get(f)
    case NextFireAt => a.nextFireAt != b.nextFireAt
    case PausedFlag => a.paused != b.paused
    case DepartmentAndMode => a.department != b.department || a.mode != b.mode
  }

  /** What the row does to a task that is there. */
  function Stepped(t: Task, row: AuditRow): Task {
    match row
    case Created(_, task) => task
    case Edited(_, _, after) => Overlay(t, after)
    case PausedRow(_, _) => t.(paused := true)
    case ResumedRow(_, _, next) => t.(paused := false, nextFireAt := next)
    case Deleted(_, _) => t
  }

  /**
   A row is overtaken: it is committed on a live task, but rows that began later are already there, and
   they set a column it sets to something else (or, for a deletion, the very row).
   */
  ghost predicate Overtaken(x: Timed, s: TimedStep) {
    var row, replayed := Appended(x.race, s.step), Replay(Rows(x.table));
    row.Some? && Live(x.race.db, row.value.id) &&
    var id, later := row.value.id, LaterRows(x.table, s.start);
    if row.value.Deleted? then CreatedIn(later, id)
    else id in replayed && exists c :: c in SetsOf(later, id) && Differ(replayed[id], Stepped(replayed[id], row.value), c)
  }

  // ---------------------------------------------------------------- one task's row, folded

  function Enter(entry: Option<Task>, row: AuditRow, id: TaskId): Option<Task> {
    if row.id != id then entry
    else
      match row
      case Created(_, task) => Some(task)
      case Deleted(_, _) => None
      case _ => if entry.Some? then Some(Stepped(entry.value, row)) else None
  }

  function Fold(entry: Option<Task>, table: seq<Stamped>, id: TaskId): Option<Task>
    decreases |table|
  {
    if table == [] then entry
    else Enter(Fold(entry, table[..|table| - 1], id), table[|table| - 1].row, id)
  }

  lemma {:induction false} ReplayIsFold(table: seq<Stamped>, id: TaskId)
    ensures Lookup(Replay(Rows(table)), id) == Fold(None, table, id)
    decreases |table|
  {
    if table != [] {
      var front, last := table[..|table| - 1], table[|table| - 1].row;
      ReplayIsFold(front, id);
      assert Rows(table) == Rows(front) + [last];
      ReplaySnoc(Rows(front), last);
      hide Replay, Fold, Overlay;
      assert Lookup(ReplayRow(Replay(Rows(front)), last), id) == Enter(Lookup(Replay(Rows(front)), id), last, id);
      FoldSnoc(None, front, table[|table| - 1], id);
      assert table == front + [table[|table| - 1]];
    }
  }

  lemma FoldSnoc(entry: Option<Task>, table: seq<Stamped>, e: Stamped, id: TaskId)
    ensures Fold(entry, table + [e], id) == Enter(Fold(entry, table, id), e.row, id)
  {
    assert (table + [e])[..|table|] == table;
  }

  lemma {:induction false} FoldAppend(entry: Option<Task>, a: seq<Stamped>, b: seq<Stamped>, id: TaskId)
    ensures Fold(entry, a + b, id) == Fold(Fold(entry, a, id), b, id)
    decreases |b|
  {
    hide Fold, Enter;
    if b == [] {
      assert a + b == a;
      FoldNone(Fold(entry, a, id), id);
    } else {
      var front, e := b[..|b| - 1], b[|b| - 1];
      FoldAppend(entry, a, front, id);
      FoldSnoc(entry, a + front, e, id);
      FoldSnoc(Fold(entry, a, id), front, e, id);
      assert a + b == (a + front) + [e] && b == front + [e];
    }
  }

  lemma FoldNone(entry: Option<Task>, id: TaskId)
    ensures Fold(entry, [], id) == entry
  {
  }

  predicate NoDeletion(table: seq<Stamped>, id: TaskId) {
    forall i :: 0 <= i < |table| && table[i].row.id == id ==> !table[i].row.Deleted?
  }

  /** The columns of `a`, but the given ones of `b`. */
  function Mix(a: Task, b: Task, cols: set<Column>): Task {
    a.(department := if DepartmentAndMode in cols then b.department else a.department,
       mode := if DepartmentAndMode in cols then b.mode else a.mode,
       name := if Text(Name) in cols then b.name else a.name,
       roleSlug := if Text(RoleSlug) in cols then b.roleSlug else a.roleSlug,
       scheduleExpr := if Text(ScheduleExpr) in cols then b.scheduleExpr else a.scheduleExpr,
       objective := if Text(Objective) in cols then b.objective else a.objective,
       acceptance := if Text(Acceptance) in cols then b.acceptance else a.acceptance,
       nextFireAt := if NextFireAt in cols then b.nextFireAt else a.nextFireAt,
       paused := if PausedFlag in cols then b.paused else a.paused)
  }

  /** The last to set a column decides it: folds from two tasks differ only in the columns that no row sets. */
  lemma {:induction false} LastSetsDecide(x: Task, y: Task, table: seq<Stamped>, id: TaskId)
    requires NoDeletion(table, id)
    ensures var fx, fy, cols := Fold(Some(x), table, id), Fold(Some(y), table, id), SetsOf(table, id);
            fx.Some? && fx.value == Mix(x, fx.value, cols) && fy == Some(Mix(y, fx.value, cols))
    decreases |table|
  {
    if table != [] {
      var front, row := table[..|table| - 1], table[|table| - 1].row;
      LastSetsDecide(x, y, front, id);
      var fx, fy := Fold(Some(x), front, id).value, Fold(Some(y), front, id).value;
      if row.id == id {
        MixStep(x, y, fx, SetsOf(front, id), row);
      }
    }
  }

  lemma MixStep(x: Task, y: Task, f: Task, cols: set<Column>, row: AuditRow)
    requires f == Mix(x, f, cols)
    ensures var f', cols' := Stepped(f, row), cols + Sets(row);
            f' == Mix(x, f', cols') && Stepped(Mix(y, f, cols), row) == Mix(y, f', cols')
  {
    match row {
      case Created(_, task) => MixAll(x, task, cols + ALL); MixAll(y, task, cols + ALL);
      case Edited(_, _, after) =>
        MixOverlay(x, f, after, cols, cols + Sets(row));
        MixOverlay(y, f, after, cols, cols + Sets(row));
        hide Mix, Overlay, Sets;
      case _ =>
    }
  }

  lemma MixOverlay(y: Task, f: Task, d: Diff, cols: set<Column>, cols': set<Column>)
    requires forall g :: Text(g) in cols' <==> Text(g) in cols || g in d.fields
    requires NextFireAt in cols' <==> NextFireAt in cols || d.nextFireAt.Some?
    requires (PausedFlag in cols' <==> PausedFlag in cols) && (DepartmentAndMode in cols' <==> DepartmentAndMode in cols)
    ensures Mix(y, Overlay(f, d), cols') == Overlay(Mix(y, f, cols), d)
  {
    assert forall g :: g in {Name, RoleSlug, ScheduleExpr, Objective, Acceptance} ==>
             (Text(g) in cols' <==> Text(g) in cols || g in d.fields);
  }

  /** A task that is there at the end though not at the beginning was created, every column with it. */
  lemma {:induction false} BornInside(table: seq<Stamped>, id: TaskId)
    ensures Fold(None, table, id).Some? ==> CreatedIn(table, id) && ALL <= SetsOf(table, id)
    ensures NoDeletion(table, id) && CreatedIn(table, id) ==> Fold(None, table, id).Some?
    decreases |table|
  {
    if table != [] {
      BornInside(table[..|table| - 1], id);
    }
  }

  /** A task that a fold loses is lost from any beginning. */
  lemma {:induction false} LostAnyway(x: Task, entry: Option<Task>, table: seq<Stamped>, id: TaskId)
    ensures Fold(Some(x), table, id) == None ==> Fold(entry, table, id) == None
    decreases |table|
  {
    if table != [] {
      LostAnyway(x, entry, table[..|table| - 1], id);
    }
  }

  lemma {:induction false} FoldElsewhere(entry: Option<Task>, table: seq<Stamped>, id: TaskId)
    requires forall i :: 0 <= i < |table| ==> table[i].row.id != id
    ensures Fold(entry, table, id) == entry
    decreases |table|
  {
    if table != [] {
      FoldElsewhere(entry, table[..|table| - 1], id);
    }
  }

  // ---------------------------------------------------------------- a row put in its place

  lemma FoldInsert(table: seq<Stamped>, e: Stamped, id: TaskId)
    ensures var o, later := Fold(None, table[..Position(table, e.start)], id), LaterRows(table, e.start);
            && Fold(None, table, id) == Fold(o, later, id)
            && Fold(None, Insert(table, e), id) == Fold(Enter(o, e.row, id), later, id)
  {
    hide Fold, Position, Enter;
    var k := Position(table, e.start);
    assert table == table[..k] + table[k..];
    FoldAppend(None, table[..k], table[k..], id);
    FoldAppend(None, table[..k] + [e], table[k..], id);
    FoldSnoc(None, table[..k], e, id);
  }

  /** On a task that is there: the row's own columns, but those that later rows set stay as they were. */
  lemma InsertAlive(table: seq<Stamped>, e: Stamped, id: TaskId)
    requires e.row.id == id && !e.row.Created? && !e.row.Deleted?
    requires NoDeletion(table, id) && Fold(None, table, id).Some?
    ensures var f := Fold(None, table, id).value;
            Fold(None, Insert(table, e), id) == Some(Mix(Stepped(f, e.row), f, SetsOf(LaterRows(table, e.start), id)))
  {
    hide Fold, Insert, Position, Mix, Stepped, SetsOf;
    var f, o, later := Fold(None, table, id).value, Fold(None, table[..Position(table, e.start)], id), LaterRows(table, e.start);
    FoldInsert(table, e, id);
    if o.Some? {
      LastSetsDecide(o.value, Stepped(o.value, e.row), later, id);
      SteppedMix(o.value, f, SetsOf(later, id), e.row);
    } else {
      BornInside(later, id);
      MixAll(Stepped(f, e.row), f, SetsOf(later, id));
    }
  }

  lemma SteppedMix(x: Task, f: Task, cols: set<Column>, row: AuditRow)
    requires f == Mix(x, f, cols)
    ensures Mix(Stepped(x, row), f, cols) == Mix(Stepped(f, row), f, cols)
  {
    if row.Edited? {
      OverlayMix(x, f, cols, row.after);
    }
  }

  lemma OverlayMix(x: Task, f: Task, cols: set<Column>, d: Diff)
    requires f == Mix(x, f, cols)
    ensures Mix(Overlay(x, d), f, cols) == Mix(Overlay(f, d), f, cols)
  {
  }

  lemma MixAll(a: Task, b: Task, cols: set<Column>)
    requires ALL <= cols
    ensures Mix(a, b, cols) == b
  {
    assert forall c :: c in ALL ==> c in cols;
  }

  lemma InsertDeleted(table: seq<Stamped>, e: Stamped, id: TaskId)
    requires e.row.Deleted? && e.row.id == id && NoDeletion(table, id)
    ensures Fold(None, Insert(table, e), id).Some? <==> CreatedIn(LaterRows(table, e.start), id)
  {
    hide Fold, Insert, Position;
    FoldInsert(table, e, id);
    BornInside(LaterRows(table, e.start), id);
  }

  lemma InsertDead(table: seq<Stamped>, e: Stamped, id: TaskId)
    requires !e.row.Created? && Fold(None, table, id) == None
    ensures Fold(None, Insert(table, e), id) == None
  {
    hide Fold, Insert, Position;
    FoldInsert(table, e, id);
    var o := Fold(None, table[..Position(table, e.start)], id);
    if o.Some? {
      LostAnyway(o.value, Enter(o, e.row, id), LaterRows(table, e.start), id);
    }
  }

  lemma InsertCreated(table: seq<Stamped>, e: Stamped, id: TaskId)
    requires e.row.Created? && e.row.id == id && forall i :: 0 <= i < |table| ==> table[i].row.id != id
    ensures Fold(None, Insert(table, e), id) == Some(e.row.task)
  {
    hide Fold, Insert, Position;
    FoldInsert(table, e, id);
    FoldElsewhere(Enter(Fold(None, table[..Position(table, e.start)], id), e.row, id), LaterRows(table, e.start), id);
  }

  lemma InsertElsewhere(table: seq<Stamped>, e: Stamped, id: TaskId)
    requires e.row.id != id
    ensures Fold(None, Insert(table, e), id) == Fold(None, table, id)
  {
    hide Fold, Insert, Position;
    FoldInsert(table, e, id);
  }

  // ---------------------------------------------------------------- one step

  ghost predicate AgreesAt(entry: Option<Task>, s: State, id: TaskId) {
    && (entry.Some? <==> Live(s, id))
    && (Live(s, id) ==> Same(entry.value, s.rows[id].task, id in s.ticked))
  }

  ghost predicate AgreesOn(x: Timed, id: TaskId) {
    AgreesAt(Fold(None, x.table, id), x.race.db, id)
  }

  lemma AgreesEverywhere(x: Timed)
    ensures AgreesByStart(x) <==> forall id :: AgreesOn(x, id)
  {
    hide Replay, Fold, AgreesAt, Agrees;
    var table := Replay(Rows(x.table));
    AgreesEntries(table, x.race.db);
    if AgreesByStart(x) {
      forall id
        ensures AgreesOn(x, id)
      {
        ReplayIsFold(x.table, id);
        assert AgreesAt(Lookup(table, id), x.race.db, id);
      }
    }
    if forall id :: AgreesOn(x, id) {
      forall id
        ensures AgreesAt(Lookup(table, id), x.race.db, id)
      {
        ReplayIsFold(x.table, id);
        assert AgreesOn(x, id);
      }
    }
  }

  lemma AgreesEntries(table: map<TaskId, Task>, s: State)
    ensures Agrees(table, s) <==> forall id :: AgreesAt(Lookup(table, id), s, id)
  {
    hide Same;
    if Agrees(table, s) {
      forall id
        ensures AgreesAt(Lookup(table, id), s, id)
      {
      }
    }
    if forall id :: AgreesAt(Lookup(table, id), s, id) {
      forall id
        ensures (id in table <==> Live(s, id)) && (Live(s, id) ==> Same(table[id], s.rows[id].task, id in s.ticked))
      {
        assert AgreesAt(Lookup(table, id), s, id);
      }
    }
  }

  /** The audit speaks of tasks that exist, and of no deletion of a live one; so do the actions under way. */
  predicate Tracked(x: Timed) {
    && (forall i :: 0 <= i < |x.table| ==> Known(x.race.db, x.table[i].row))
    && (forall op :: op in x.race.pending ==> x.race.pending[op].id in x.race.db.rows)
  }

  predicate Known(s: State, row: AuditRow) {
    row.id in s.rows && (row.Deleted? ==> !Live(s, row.id))
  }

  /** Where the columns that later rows set are the ones that differ, the table is missed by just those. */
  lemma MixSameIff(f: Task, stepped: Task, live: Task, ticked: bool, cols: set<Column>)
    requires Same(stepped, live, ticked) && (ticked ==> f.nextFireAt == stepped.nextFireAt)
    ensures Same(Mix(stepped, f, cols), live, ticked) <==> !exists c :: c in cols && Differ(f, stepped, c)
  {
    if c :| c in cols && Differ(f, stepped, c) {
      DifferenceShows(f, stepped, live, ticked, cols, c);
    } else {
      NoDifference(f, stepped, cols);
    }
  }

  lemma DifferenceShows(f: Task, stepped: Task, live: Task, ticked: bool, cols: set<Column>, c: Column)
    requires Same(stepped, live, ticked) && (ticked ==> f.nextFireAt == stepped.nextFireAt)
    requires c in cols && Differ(f, stepped, c)
    ensures !Same(Mix(stepped, f, cols), live, ticked)
  {
    match c {
      case Text(g) => assert g == Name || g == RoleSlug || g == ScheduleExpr || g == Objective || g == Acceptance;
      case _ =>
    }
  }

  lemma NoDifference(f: Task, stepped: Task, cols: set<Column>)
    requires forall c :: c in cols ==> !Differ(f, stepped, c)
    ensures Mix(stepped, f, cols) == stepped
  {
    forall c | c in cols
      ensures !Differ(f, stepped, c)
    {
    }
    assert Text(Name) in cols ==> !Differ(f, stepped, Text(Name));
    assert Text(RoleSlug) in cols ==> !Differ(f, stepped, Text(RoleSlug));
    assert Text(ScheduleExpr) in cols ==> !Differ(f, stepped, Text(ScheduleExpr));
    assert Text(Objective) in cols ==> !Differ(f, stepped, Text(Objective));
    assert Text(Acceptance) in cols ==> !Differ(f, stepped, Text(Acceptance));
    assert NextFireAt in cols ==> !Differ(f, stepped, NextFireAt);
    assert PausedFlag in cols ==> !Differ(f, stepped, PausedFlag);
    assert DepartmentAndMode in cols ==> !Differ(f, stepped, DepartmentAndMode);
  }

  lemma EditMixIff(f: Task, current: Task, ticked: bool, prior: Task, patch: Patch, next: Option<Instant>, cols: set<Column>)
    requires Same(f, current, ticked)
    ensures var after := After(patch, prior, next); var stepped := Overlay(f, after);
            Same(Mix(stepped, f, cols), Patched(current, patch, prior, next), ticked && after.nextFireAt.None?)
            <==> !Reverts(current, prior, patch) && !exists c :: c in cols && Differ(f, stepped, c)
  {
    hide Patched, Overlay, Mix, Same, After, Task.Get, Differ;
    var after := After(patch, prior, next);
    var stepped, live := Overlay(f, after), Patched(current, patch, prior, next);
    EditSameIff(f, current, ticked, prior, patch, next);
    OverlayTime(f, after);
    if Reverts(current, prior, patch) {
      var g :| g in patch && patch[g] == prior.Get(g) && current.Get(g) != prior.Get(g);
      RevertedField(f, current, ticked, prior, patch, next, cols, g);
    } else {
      MixSameIff(f, stepped, live, ticked && after.nextFireAt.None?, cols);
    }
  }

  lemma OverlayTime(f: Task, after: Diff)
    ensures after.nextFireAt.None? ==> Overlay(f, after).nextFireAt == f.nextFireAt
  {
  }

  lemma RevertedField(f: Task, current: Task, ticked: bool, prior: Task, patch: Patch, next: Option<Instant>,
                      cols: set<Column>, g: Field)
    requires Same(f, current, ticked) && g in patch && patch[g] == prior.Get(g) && current.Get(g) != prior.Get(g)
    ensures var after := After(patch, prior, next);
            !Same(Mix(Overlay(f, after), f, cols), Patched(current, patch, prior, next), ticked && after.nextFireAt.None?)
  {
    hide Changed;
    assert g !in Changed(patch, prior) by {
      ChangedIs(patch, prior, g);
    }
  }

  lemma ChangedIs(patch: Patch, prior: Task, g: Field)
    ensures g in Changed(patch, prior) <==> g in patch && patch[g] != prior.Get(g)
  {
  }

  /** Another task's row in the audit changes nothing for this one. */
  lemma OthersKept(x: Timed, s: TimedStep, id: TaskId)
    requires AgreesOn(x, id) && (Appended(x.race, s.step).Some? ==> Appended(x.race, s.step).value.id != id)
    requires var db, db' := x.race.db, ApplyRace(x.race, s.step).db;
             (id in db'.rows <==> id in db.rows) && (id in db.rows ==> db'.rows[id] == db.rows[id])
             && (id in db'.ticked <==> id in db.ticked)
    ensures AgreesOn(ApplyTimed(x, s), id)
  {
    hide Fold, ApplyRace, Insert, Appended, Same;
    var row := Appended(x.race, s.step);
    if row.Some? {
      InsertElsewhere(x.table, Stamped(s.start, row.value), id);
    }
  }

  /** The step names one task; the others' rows and marks stay. */
  lemma StepFrame(r: Race, step: RaceStep, id: TaskId)
    requires Subject(r, step) != Some(id)
    ensures var db, db' := r.db, ApplyRace(r, step).db;
            (id in db'.rows <==> id in db.rows) && (id in db.rows ==> db'.rows[id] == db.rows[id])
            && (id in db'.ticked <==> id in db.ticked)
  {
    hide NameTaken, Patched, Before, After, Changed, EditPatch, Trim;
  }

  /** The task a step is about. */
  function Subject(r: Race, step: RaceStep): Option<TaskId> {
    match step
    case CreateTask(id, _, _) => Some(id)
    case TickTask(id, _) => Some(id)
    case ReadForEdit(_, id, _, _) => Some(id)
    case ReadForPause(_, id) => Some(id)
    case CheckForResume(_, id, _) => Some(id)
    case ReadForDelete(_, id) => Some(id)
    case ReadForResume(op) => if op in r.pending then Some(r.pending[op].id) else None
    case Write(op) => if op in r.pending then Some(r.pending[op].id) else None
    case Abandon(_) => None
  }

  /** A step adds at most the one row, and it is the subject's. */
  lemma OneRow(r: Race, step: RaceStep)
    ensures var audit, audit', row := r.db.audit, ApplyRace(r, step).db.audit, Appended(r, step);
            && audit' == (if row.Some? then audit + [row.value] else audit)
            && (row.Some? ==> Subject(r, step) == Some(row.value.id) && (step.CreateTask? || step.Write?))
  {
    hide NameTaken, Patched, Before, After, Changed, EditPatch, Trim;
  }

  lemma NoDeletionOfLive(x: Timed, id: TaskId)
    requires Tracked(x) && Live(x.race.db, id)
    ensures NoDeletion(x.table, id)
  {
  }

  /** An edit on a live task, by the order of starts. */
  lemma EditByStart(x: Timed, s: TimedStep, p: Pending)
    requires Tracked(x) && s.step.Write? && s.step.op in x.race.pending && p == x.race.pending[s.step.op]
    requires p.EditRead? && Live(x.race.db, p.id) && !(Name in p.patch && NameTaken(x.race.db, p.id, p.patch[Name]))
    requires AgreesOn(x, p.id)
    ensures AgreesOn(ApplyTimed(x, s), p.id) <==> !Breaks(x.race, s.step) && !Overtaken(x, s)
  {
    hide Fold, Insert, Position, SetsOf, Mix, Same, Patched, Overlay, Before, After, Changed, NameTaken, Reverts, Differ, Replay;
    var EditRead(id, prior, patch, next) := p;
    var db, after := x.race.db, After(patch, prior, next);
    var e := Stamped(s.start, Edited(id, Before(patch, prior, next), after));
    var f, later := Fold(None, x.table, id).value, SetsOf(LaterRows(x.table, s.start), id);
    ReplayIsFold(x.table, id);
    NoDeletionOfLive(x, id);
    InsertAlive(x.table, e, id);
    EditMixIff(f, db.rows[id].task, id in db.ticked, prior, patch, next, later);
    AfterTime(patch, prior, next);
    assert Appended(x.race, s.step) == Some(e.row);
  }

  lemma AfterTime(patch: Patch, prior: Task, next: Option<Instant>)
    ensures After(patch, prior, next).nextFireAt.Some? <==> next.Some? && ScheduleExpr in Changed(patch, prior)
  {
  }

  /** A pause or resume on a live task. */
  lemma FlagByStart(x: Timed, s: TimedStep, p: Pending)
    requires Tracked(x) && s.step.Write? && s.step.op in x.race.pending && p == x.race.pending[s.step.op]
    requires (p.PauseRead? || p.ResumeRead?) && Live(x.race.db, p.id) && AgreesOn(x, p.id)
    ensures AgreesOn(ApplyTimed(x, s), p.id) <==> !Overtaken(x, s)
  {
    hide Fold, Insert, Position, SetsOf, Mix, Differ, Replay, Live;
    var id, db := p.id, x.race.db;
    var row := if p.PauseRead? then PausedRow(id, p.name) else ResumedRow(id, p.name, p.next);
    var f, later := Fold(None, x.table, id).value, SetsOf(LaterRows(x.table, s.start), id);
    ReplayIsFold(x.table, id);
    NoDeletionOfLive(x, id);
    InsertAlive(x.table, Stamped(s.start, row), id);
    assert Appended(x.race, s.step) == Some(row);
    var after := ApplyRace(x.race, s.step).db;
    MixSameIff(f, Stepped(f, row), after.rows[id].task, id in after.ticked, later);
    LiveStill(db, after, id);
  }

  lemma LiveStill(s: State, s': State, id: TaskId)
    requires id in s.rows && id in s'.rows && s'.rows[id].deleted == s.rows[id].deleted
    ensures Live(s', id) <==> Live(s, id)
  {
  }

  /** A deletion of a live task. */
  lemma DeleteByStart(x: Timed, s: TimedStep, p: Pending)
    requires Tracked(x) && s.step.Write? && s.step.op in x.race.pending && p == x.race.pending[s.step.op]
    requires p.DeleteRead? && Live(x.race.db, p.id) && AgreesOn(x, p.id)
    ensures AgreesOn(ApplyTimed(x, s), p.id) <==> !Overtaken(x, s)
  {
    hide Fold, Insert, Position, SetsOf, Same, Replay;
    NoDeletionOfLive(x, p.id);
    InsertDeleted(x.table, Stamped(s.start, Deleted(p.id, p.prior)), p.id);
    assert Appended(x.race, s.step) == Some(Deleted(p.id, p.prior));
  }

  /** Any action on a task deleted since it read it, or an edit that collides. */
  lemma NothingByStart(x: Timed, s: TimedStep, p: Pending)
    requires Tracked(x) && s.step.Write? && s.step.op in x.race.pending && p == x.race.pending[s.step.op]
    requires !Live(x.race.db, p.id) || (p.EditRead? && Name in p.patch && NameTaken(x.race.db, p.id, p.patch[Name]))
    requires AgreesOn(x, p.id)
    ensures AgreesOn(ApplyTimed(x, s), p.id) && !Overtaken(x, s)
  {
    hide Fold, Insert, Position, SetsOf, Same, Replay, NameTaken, Before, After, Patched;
    var row := Appended(x.race, s.step);
    OneRow(x.race, s.step);
    if row.Some? {
      InsertDead(x.table, Stamped(s.start, row.value), p.id);
    }
  }

  lemma CreateByStart(x: Timed, s: TimedStep)
    requires Tracked(x) && s.step.CreateTask? && AgreesOn(x, s.step.id)
    ensures AgreesOn(ApplyTimed(x, s), s.step.id) && !Overtaken(x, s)
  {
    hide Fold, Insert, Position, SetsOf, NameTaken, Trim, Replay;
    var row, id := Appended(x.race, s.step), s.step.id;
    OneRow(x.race, s.step);
    if row.Some? {
      assert forall i :: 0 <= i < |x.table| ==> Known(x.race.db, x.table[i].row);
      InsertCreated(x.table, Stamped(s.start, row.value), id);
    }
  }

  lemma QuietByStart(x: Timed, s: TimedStep, id: TaskId)
    requires !s.step.CreateTask? && !s.step.Write? && AgreesOn(x, id)
    ensures AgreesOn(ApplyTimed(x, s), id) && !Overtaken(x, s)
  {
    hide Fold, EditPatch;
    OneRow(x.race, s.step);
  }

  lemma SubjectIff(x: Timed, s: TimedStep, id: TaskId)
    requires Tracked(x) && AgreesOn(x, id) && Subject(x.race, s.step) == Some(id)
    ensures AgreesOn(ApplyTimed(x, s), id) <==> !Breaks(x.race, s.step) && !Overtaken(x, s)
  {
    hide Tracked, AgreesOn, Overtaken, ApplyTimed, Reverts, NameTaken;
    if s.step.CreateTask? {
      CreateByStart(x, s);
    } else if !s.step.Write? {
      QuietByStart(x, s, id);
    } else {
      var p := x.race.pending[s.step.op];
      if p.ResumeChecked? {
        NoWrite(x, s);
      } else if !Live(x.race.db, id) || (p.EditRead? && Name in p.patch && NameTaken(x.race.db, id, p.patch[Name])) {
        NothingByStart(x, s, p);
      } else {
        match p {
          case EditRead(_, _, _, _) => EditByStart(x, s, p);
          case DeleteRead(_, _) => DeleteByStart(x, s, p);
          case _ => FlagByStart(x, s, p);
        }
      }
    }
  }

  lemma NoWrite(x: Timed, s: TimedStep)
    requires s.step.Write? && s.step.op in x.race.pending && x.race.pending[s.step.op].ResumeChecked?
    ensures ApplyTimed(x, s) == x && !Overtaken(x, s)
  {
  }

  /** One step: where the fold in the order of starts gave the table, it still does iff no edit reverts and no row is overtaken. */
  lemma StepByStartIff(x: Timed, s: TimedStep)
    requires Tracked(x) && AgreesByStart(x)
    ensures AgreesByStart(ApplyTimed(x, s)) <==> !Breaks(x.race, s.step) && !Overtaken(x, s)
  {
    hide Tracked, AgreesOn, AgreesByStart, ApplyTimed, Breaks, Subject, Appended, ApplyRace;
    var x', subject := ApplyTimed(x, s), Subject(x.race, s.step);
    AgreesEverywhere(x);
    AgreesEverywhere(x');
    OneRow(x.race, s.step);
    forall id: TaskId | subject != Some(id)
      ensures AgreesOn(x', id)
    {
      StepFrame(x.race, s.step, id);
      OthersKept(x, s, id);
    }
    if subject.Some? {
      SubjectIff(x, s, subject.value);
    } else {
      NoSubject(x, s);
    }
  }

  lemma NoSubject(x: Timed, s: TimedStep)
    requires Subject(x.race, s.step) == None
    ensures !Breaks(x.race, s.step) && !Overtaken(x, s)
  {
    OneRow(x.race, s.step);
  }

  // ---------------------------------------------------------------- whole runs

  lemma TrackedStep(x: Timed, s: TimedStep)
    requires Tracked(x)
    ensures Tracked(ApplyTimed(x, s))
  {
    hide Position, NameTaken, Patched, Before, After, Changed, EditPatch, Trim;
    var x', row := ApplyTimed(x, s), Appended(x.race, s.step);
    OneRow(x.race, s.step);
    KnownStays(x.race, s.step);
    forall i | 0 <= i < |x'.table|
      ensures Known(x'.race.db, x'.table[i].row)
    {
      var k := Position(x.table, s.start);
      if row.Some? && i == k {
      } else {
        var j := if row.Some? && i > k then i - 1 else i;
        assert Known(x.race.db, x.table[j].row);
      }
    }
  }

  /** Rows stay, deleted ones stay deleted, and the row a step appends is of the table. */
  lemma KnownStays(r: Race, step: RaceStep)
    requires forall op :: op in r.pending ==> r.pending[op].id in r.db.rows
    ensures var r', row := ApplyRace(r, step), Appended(r, step);
            && (forall a :: Known(r.db, a) ==> Known(r'.db, a))
            && (forall op :: op in r'.pending ==> r'.pending[op].id in r'.db.rows)
            && (row.Some? ==> Known(r'.db, row.value))
  {
    hide NameTaken, Patched, Before, After, Changed, EditPatch, Trim;
  }

  lemma {:induction false} AlwaysTracked(steps: seq<TimedStep>)
    ensures Tracked(ExecTimed(steps))
    decreases |steps|
  {
    hide Tracked, ApplyTimed;
    if steps != [] {
      AlwaysTracked(steps[..|steps| - 1]);
      TrackedStep(ExecTimed(steps[..|steps| - 1]), steps[|steps| - 1]);
    } else {
      NothingTracked();
    }
  }

  lemma NothingTracked()
    ensures Tracked(Timed(Race(INIT, map[]), [])) && AgreesByStart(Timed(Race(INIT, map[]), []))
  {
    assert Rows([]) == [];
  }

  /** The steps without their times. */
  function Untimed(steps: seq<TimedStep>): (plain: seq<RaceStep>)
    ensures |plain| == |steps|
  {
    seq(|steps|, i requires 0 <= i < |steps| => steps[i].step)
  }

  lemma {:induction false} SameRace(steps: seq<TimedStep>)
    ensures ExecTimed(steps).race == ExecRace(Untimed(steps))
    decreases |steps|
  {
    hide ApplyRace;
    if steps != [] {
      SameRace(steps[..|steps| - 1]);
      assert Untimed(steps)[..|steps| - 1] == Untimed(steps[..|steps| - 1]);
    }
  }

  predicate SortedByStart(table: seq<Stamped>) {
    forall i, j :: 0 <= i < j < |table| ==> table[i].start <= table[j].start
  }

  lemma {:induction false} PositionSplits(table: seq<Stamped>, t: Instant)
    requires SortedByStart(table)
    ensures forall i :: 0 <= i < |table| ==> (table[i].start <= t <==> i < Position(table, t))
    decreases |table|
  {
    if table != [] && table[|table| - 1].start > t {
      PositionSplits(table[..|table| - 1], t);
    }
  }

  /** The table of stamped rows is the audit, row for row, sorted by created_at. */
  lemma {:induction false} TableIsAudit(steps: seq<TimedStep>)
    ensures var x := ExecTimed(steps);
            SortedByStart(x.table) && multiset(Rows(x.table)) == multiset(x.race.db.audit)
    decreases |steps|
  {
    if steps != [] {
      var x, s := ExecTimed(steps[..|steps| - 1]), steps[|steps| - 1];
      TableIsAudit(steps[..|steps| - 1]);
      hide ApplyRace, ExecTimed, Appended, Insert, SortedByStart, Rows;
      var row := Appended(x.race, s.step);
      OneRow(x.race, s.step);
      if row.Some? {
        InsertSorted(x.table, Stamped(s.start, row.value));
        RowsInsert(x.table, Stamped(s.start, row.value));
      }
    }
  }

  lemma InsertSorted(table: seq<Stamped>, e: Stamped)
    requires SortedByStart(table)
    ensures SortedByStart(Insert(table, e))
  {
    hide Position;
    PositionSplits(table, e.start);
  }

  lemma RowsInsert(table: seq<Stamped>, e: Stamped)
    ensures multiset(Rows(Insert(table, e))) == multiset(Rows(table) + [e.row])
  {
    var k := Position(table, e.start);
    assert Rows(table) == Rows(table)[..k] + Rows(table)[k..];
    assert Rows(Insert(table, e)) == Rows(table)[..k] + [e.row] + Rows(table)[k..];
  }

  ghost predicate NeverOvertaken(steps: seq<TimedStep>)
    decreases |steps|
  {
    steps == []
    || (NeverOvertaken(steps[..|steps| - 1]) && !Overtaken(ExecTimed(steps[..|steps| - 1]), steps[|steps| - 1]))
  }

  ghost predicate AlwaysAgreedByStart(steps: seq<TimedStep>) {
    forall k :: 0 <= k <= |steps| ==> AgreesByStart(ExecTimed(steps[..k]))
  }

  /**
   Over every interleaving and every choice of start times: the audit, read in the order of created_at,
   replays to the live table at every moment of the run exactly if no edit put back, unrecorded, a column
   another one had changed, and no row was committed behind a later-begun one that sets the same column
   to something else.
   */
  lemma {:induction false} ReplayByStartIff(steps: seq<TimedStep>)
    ensures AlwaysAgreedByStart(steps) <==> NeverBroke(Untimed(steps)) && NeverOvertaken(steps)
    decreases |steps|
  {
    hide Breaks, Overtaken, AgreesByStart, ApplyTimed, Tracked;
    if steps == [] {
      NothingTracked();
      assert steps[..0] == [];
    } else {
      var front := steps[..|steps| - 1];
      ReplayByStartIff(front);
      AlwaysTracked(front);
      SameRace(front);
      assert Untimed(steps)[..|steps| - 1] == Untimed(front);
      AgreedFront(steps);
      if AlwaysAgreedByStart(front) {
        assert front[..|front|] == front;
        StepByStartIff(ExecTimed(front), steps[|steps| - 1]);
      }
    }
  }

  lemma AgreedFront(steps: seq<TimedStep>)
    requires steps != []
    ensures AlwaysAgreedByStart(steps) <==> AlwaysAgreedByStart(steps[..|steps| - 1]) && AgreesByStart(ExecTimed(steps))
  {
    hide AgreesByStart, ExecTimed;
    var front := steps[..|steps| - 1];
    assert steps[..|steps|] == steps;
    assert forall k :: 0 <= k <= |front| ==> steps[..k] == front[..k];
    if AlwaysAgreedByStart(steps) {
      forall k | 0 <= k <= |front|
        ensures AgreesByStart(ExecTimed(front[..k]))
      {
        assert steps[..k] == front[..k];
      }
    }
  }

  /** The row a step commits began no earlier than those already committed on its task. */
  predicate InStartOrder(x: Timed, s: TimedStep) {
    var row := Appended(x.race, s.step);
    row.Some? ==> forall i :: 0 <= i < |x.table| && x.table[i].row.id == row.value.id ==> x.table[i].start <= s.start
  }

  ghost predicate AlwaysInStartOrder(steps: seq<TimedStep>)
    decreases |steps|
  {
    steps == []
    || (AlwaysInStartOrder(steps[..|steps| - 1]) && InStartOrder(ExecTimed(steps[..|steps| - 1]), steps[|steps| - 1]))
  }

  /** In particular where no two transactions on one task overlap. */
  lemma {:induction false} InOrderNeverOvertaken(steps: seq<TimedStep>)
    requires AlwaysInStartOrder(steps)
    ensures NeverOvertaken(steps)
    decreases |steps|
  {
    hide Overtaken, InStartOrder, ApplyTimed;
    if steps != [] {
      var front := steps[..|steps| - 1];
      InOrderNeverOvertaken(front);
      TableIsAudit(front);
      InOrderStep(ExecTimed(front), steps[|steps| - 1]);
    }
  }

  lemma InOrderStep(x: Timed, s: TimedStep)
    requires SortedByStart(x.table) && InStartOrder(x, s)
    ensures !Overtaken(x, s)
  {
    hide Position, Replay, Appended;
    var row := Appended(x.race, s.step);
    if row.Some? {
      PositionSplits(x.table, s.start);
      SetsElsewhere(LaterRows(x.table, s.start), row.value.id);
    }
  }

  lemma {:induction false} SetsElsewhere(table: seq<Stamped>, id: TaskId)
    requires forall i :: 0 <= i < |table| ==> table[i].row.id != id
    ensures SetsOf(table, id) == {} && !CreatedIn(table, id)
    decreases |table|
  {
    if table != [] {
      SetsElsewhere(table[..|table| - 1], id);
    }
  }

  // ---------------------------------------------------------------- the overlap

  function RoleSet(role: string): Diff {
    Diff(map[RoleSlug := role], None)
  }

  lemma RoleEdit(current: Task, prior: Task, role: string)
    requires prior.roleSlug != role
    ensures var patch: Patch := map[RoleSlug := role];
            && After(patch, prior, None) == RoleSet(role) && !Reverts(current, prior, patch)
            && Patched(current, patch, prior, None) == current.(roleSlug := role)
  {
    var patch: Patch := map[RoleSlug := role];
    assert Changed(patch, prior) == {RoleSlug};
    assert After(patch, prior, None).fields == map[RoleSlug := role];
  }

  /** What a role edit writes, with the row's stamp. */
  lemma RoleWritten(x: Timed, op: OperatorId, id: TaskId, prior: Task, role: string, start: Instant)
    requires Live(x.race.db, id) && prior.roleSlug != role
    requires op in x.race.pending && x.race.pending[op] == EditRead(id, prior, map[RoleSlug := role], None)
    ensures var s, db := TimedStep(Write(op), start), x.race.db; var x' := ApplyTimed(x, s);
            var row := Edited(id, Before(map[RoleSlug := role], prior, None), RoleSet(role));
            && Appended(x.race, s.step) == Some(row) && x'.table == Insert(x.table, Stamped(start, row))
            && x'.race == Race(State(db.rows[id := db.rows[id].(task := db.rows[id].task.(roleSlug := role))],
                                     db.audit + [row], db.ticked), x.race.pending - {op})
            && !Breaks(x.race, s.step)
  {
    RoleEdit(x.race.db.rows[id].task, prior, role);
    hide Before, After, Patched, Reverts, NameTaken, Insert;
  }

  /** With the audit agreeing, a role edit committed behind a later-begun one is overtaken, and the later role stays. */
  lemma RoleOvertaken(x: Timed, op: OperatorId, id: TaskId, prior: Task, role: string, start: Instant)
    requires AgreesByStart(x) && Tracked(x) && Live(x.race.db, id) && x.race.db.rows[id].task.roleSlug != role
    requires prior.roleSlug != role
    requires op in x.race.pending && x.race.pending[op] == EditRead(id, prior, map[RoleSlug := role], None)
    requires Text(RoleSlug) in SetsOf(LaterRows(x.table, start), id)
    ensures var s := TimedStep(Write(op), start); var x' := ApplyTimed(x, s);
            && Overtaken(x, s) && !AgreesByStart(x')
            && id in Replay(Rows(x'.table)) && Replay(Rows(x'.table))[id].roleSlug == x.race.db.rows[id].task.roleSlug
  {
    hide Replay, Fold, Insert, Position, Rows, SetsOf, Breaks, Tracked, NoDeletion, AgreesByStart, ApplyTimed, Appended, Before, NameTaken;
    var s := TimedStep(Write(op), start);
    var e := Stamped(start, Edited(id, Before(map[RoleSlug := role], prior, None), RoleSet(role)));
    RoleWritten(x, op, id, prior, role, start);
    AgreesEverywhere(x);
    assert AgreesOn(x, id);
    ReplayIsFold(x.table, id);
    assert Differ(Replay(Rows(x.table))[id], Stepped(Replay(Rows(x.table))[id], e.row), Text(RoleSlug));
    StepByStartIff(x, s);
    NoDeletionOfLive(x, id);
    InsertAlive(x.table, e, id);
    ReplayIsFold(Insert(x.table, e), id);
  }

  lemma LastIsLater(table: seq<Stamped>, e: Stamped, t: Instant)
    requires SortedByStart(table) && (forall i :: 0 <= i < |table| ==> table[i].start <= e.start) && t < e.start
    ensures Insert(table, e) == table + [e]
    ensures Sets(e.row) <= SetsOf(LaterRows(Insert(table, e), t), e.row.id)
  {
    PositionSplits(table, e.start);
    var later := LaterRows(table + [e], t);
    assert Position(table, e.start) == |table|;
    assert Position(table + [e], t) <= |table| by {
      assert (table + [e])[..|table|] == table;
    }
    assert later[|later| - 1] == e;
  }

  /**
   Two operators have read one row; `a` began first and commits last, and both set the role. No edit
   reverts and the commit order replays to the table, but by created_at the audit ends with `b`'s role.
   */
  lemma FirstBegunLastCommitted(x: Timed, a: OperatorId, b: OperatorId, id: TaskId, roleA: string, roleB: string,
                                startA: Instant, startB: Instant)
    requires AgreesByStart(x) && Tracked(x) && SortedByStart(x.table) && Live(x.race.db, id) && a != b
    requires var prior := x.race.db.rows[id].task;
             && a in x.race.pending && x.race.pending[a] == EditRead(id, prior, map[RoleSlug := roleA], None)
             && b in x.race.pending && x.race.pending[b] == EditRead(id, prior, map[RoleSlug := roleB], None)
             && roleA != prior.roleSlug && roleB != prior.roleSlug && roleA != roleB
    requires startA < startB && forall i :: 0 <= i < |x.table| ==> x.table[i].start <= startB
    ensures var first, second := TimedStep(Write(b), startB), TimedStep(Write(a), startA);
            var x1 := ApplyTimed(x, first); var x2 := ApplyTimed(x1, second);
            && !Breaks(x.race, first.step) && !Breaks(x1.race, second.step)
            && AgreesByStart(x1) && Overtaken(x1, second) && !AgreesByStart(x2)
            && Live(x2.race.db, id) && x2.race.db.rows[id].task.roleSlug == roleA
            && id in Replay(Rows(x2.table)) && Replay(Rows(x2.table))[id].roleSlug == roleB
  {
    hide AgreesByStart, Tracked, ApplyTimed, Breaks, Overtaken, Insert, SetsOf, Position, Replay, Before, Appended, Live;
    LiveIs(x.race.db, id);
    var prior, first := x.race.db.rows[id].task, TimedStep(Write(b), startB);
    var x1 := ApplyTimed(x, first);
    RoleWritten(x, b, id, prior, roleB, startB);
    InOrderStep(x, first);
    StepByStartIff(x, first);
    TrackedStep(x, first);
    LiveIs(x1.race.db, id);
    LastIsLater(x.table, Stamped(startB, Edited(id, Before(map[RoleSlug := roleB], prior, None), RoleSet(roleB))), startA);
    RoleWritten(x1, a, id, prior, roleA, startA);
    RoleOvertaken(x1, a, id, prior, roleA, startA);
    LiveIs(ApplyTimed(x1, TimedStep(Write(a), startA)).race.db, id);
  }

  lemma LiveIs(s: State, id: TaskId)
    ensures Live(s, id) <==> id in s.rows && !s.rows[id].deleted
  {
  }
}
