/**
 The scheduled-task actions with their reads and writes apart (dashboard/lib/actions/scheduledTasks.ts).
 A transaction's SELECT takes no lock, and resume checks the paused flag before its transaction even
 begins, so any other transaction may commit in between. The UPDATE and the audit row commit together.
 */
module ScheduleRaces {
  import opened Common
  import opened ScheduleAudit

  type OperatorId = nat

  /** What an action has read and not yet written. */
  datatype Pending =
    | EditRead(id: TaskId, prior: Task, patch: Patch, nextFireAt: Option<Instant>)
    | PauseRead(id: TaskId, name: string)
    | ResumeChecked(id: TaskId, next: Instant)
    | ResumeRead(id: TaskId, name: string, next: Instant)
    | DeleteRead(id: TaskId, prior: Task)

  datatype Race = Race(db: State, pending: map<OperatorId, Pending>)

  datatype RaceStep =
    | CreateTask(id: TaskId, input: Task, validated: Validated)
    | TickTask(id: TaskId, next: Instant)
    | ReadForEdit(op: OperatorId, id: TaskId, patch: Patch, validated: Validated)
    | ReadForPause(op: OperatorId, id: TaskId)
    | CheckForResume(op: OperatorId, id: TaskId, validated: Validated)
    | ReadForResume(op: OperatorId)
    | ReadForDelete(op: OperatorId, id: TaskId)
    | Write(op: OperatorId)
    | Abandon(op: OperatorId)

  function Begin(r: Race, op: OperatorId, p: Pending): Race {
    if op in r.pending then r else r.(pending := r.pending[op := p])
  }

  /** UPDATE ... WHERE deleted_at IS NULL, which may match nothing; then the audit row all the same. */
  function Written(s: State, p: Pending): State {
    match p
    case EditRead(id, prior, patch, next) => EditTx(s, id, prior, patch, next).0
    case PauseRead(id, name) =>
      if Live(s, id) then WithTask(s, id, s.rows[id].task.(paused := true), PausedRow(id, name))
      else s.(audit := s.audit + [PausedRow(id, name)])
    case ResumeChecked(_, _) => s
    case ResumeRead(id, name, next) =>
      if Live(s, id)
      then WithTask(s, id, s.rows[id].task.(paused := false, nextFireAt := next), ResumedRow(id, name, next))
             .(ticked := s.ticked - {id})
      else s.(audit := s.audit + [ResumedRow(id, name, next)])
    case DeleteRead(id, prior) =>
      if Live(s, id) then s.(rows := s.rows[id := s.rows[id].(deleted := true)], audit := s.audit + [Deleted(id, prior)])
      else s.(audit := s.audit + [Deleted(id, prior)])
  }

  function ApplyRace(r: Race, step: RaceStep): Race {
    match step
    case CreateTask(id, input, validated) => r.(db := Create(r.db, id, input, validated).0)
    case TickTask(id, next) => r.(db := Tick(r.db, id, next))
    case ReadForEdit(op, id, input, validated) =>
      if Live(r.db, id) && EditPatch(input).Some? && validated.Accepted?
      then Begin(r, op, EditRead(id, r.db.rows[id].task, EditPatch(input).value,
                                 if ScheduleExpr in input then Some(validated.nextFireAt) else None))
      else r
    case ReadForPause(op, id) =>
      if Live(r.db, id) && !r.db.rows[id].task.paused then Begin(r, op, PauseRead(id, r.db.rows[id].task.name)) else r
    case CheckForResume(op, id, validated) =>
      if Live(r.db, id) && r.db.rows[id].task.paused && validated.Accepted?
      then Begin(r, op, ResumeChecked(id, validated.nextFireAt)) else r
    case ReadForResume(op) =>
      if op in r.pending && r.pending[op].ResumeChecked? && Live(r.db, r.pending[op].id)
      then
        var ResumeChecked(id, next) := r.pending[op];
        r.(pending := r.pending[op := ResumeRead(id, r.db.rows[id].task.name, next)])
      else r
    case ReadForDelete(op, id) =>
      if Live(r.db, id) then Begin(r, op, DeleteRead(id, r.db.rows[id].task)) else r
    case Write(op) =>
      if op in r.pending && !r.pending[op].ResumeChecked?
      then Race(Written(r.db, r.pending[op]), r.pending - {op}) else r
    case Abandon(op) => r.(pending := r.pending - {op})
  }

  function ExecRace(steps: seq<RaceStep>): Race
    decreases |steps|
  {
    if steps == [] then Race(INIT, map[]) else ApplyRace(ExecRace(steps[..|steps| - 1]), steps[|steps| - 1])
  }

  // ---------------------------------------------------------------- with nothing in between

  /** What was read is forgotten once it is written. */
  lemma BegunAndWritten(r: Race, op: OperatorId, p: Pending)
    requires op !in r.pending
    ensures ApplyRace(Begin(r, op, p), Write(op)) == if p.ResumeChecked? then Begin(r, op, p) else r.(db := Written(r.db, p))
  {
    hide Written;
    assert r.pending[op := p] - {op} == r.pending;
  }

  /** Undisturbed between its read and its write, each action is the one transaction it looks like. */
  lemma UndisturbedEdit(r: Race, op: OperatorId, id: TaskId, input: Patch, validated: Validated)
    requires op !in r.pending
    ensures ApplyRace(ApplyRace(r, ReadForEdit(op, id, input, validated)), Write(op)) == r.(db := Edit(r.db, id, input, validated).0)
  {
    hide EditTx, EditPatch, Written;
    if Live(r.db, id) && EditPatch(input).Some? && validated.Accepted? {
      var p := EditRead(id, r.db.rows[id].task, EditPatch(input).value,
                        if ScheduleExpr in input then Some(validated.nextFireAt) else None);
      BegunAndWritten(r, op, p);
      WrittenIs(r.db, p);
    }
  }

  lemma UndisturbedPauseOrDelete(r: Race, op: OperatorId, id: TaskId)
    requires op !in r.pending
    ensures ApplyRace(ApplyRace(r, ReadForPause(op, id)), Write(op)) == r.(db := Pause(r.db, id).0)
    ensures ApplyRace(ApplyRace(r, ReadForDelete(op, id)), Write(op)) == r.(db := Delete(r.db, id).0)
  {
    if Live(r.db, id) {
      BegunAndWritten(r, op, PauseRead(id, r.db.rows[id].task.name));
      BegunAndWritten(r, op, DeleteRead(id, r.db.rows[id].task));
    }
  }

  lemma UndisturbedResume(r: Race, op: OperatorId, id: TaskId, validated: Validated)
    requires op !in r.pending
    ensures ApplyRace(ApplyRace(ApplyRace(r, CheckForResume(op, id, validated)), ReadForResume(op)), Write(op))
         == r.(db := Resume(r.db, id, validated).0)
  {
    if Live(r.db, id) && r.db.rows[id].task.paused && validated.Accepted? {
      var checked, read := ResumeChecked(id, validated.nextFireAt), ResumeRead(id, r.db.rows[id].task.name, validated.nextFireAt);
      BegunAndWritten(r, op, read);
      assert r.pending[op := checked][op := read] == r.pending[op := read];
    }
  }

  /** An operator's action is one at a time; given up, it leaves no trace. */
  lemma AbandonedLeavesNoTrace(r: Race, op: OperatorId, id: TaskId, input: Patch, validated: Validated)
    requires op in r.pending
    ensures ApplyRace(r, ReadForEdit(op, id, input, validated)) == ApplyRace(r, ReadForPause(op, id))
         == ApplyRace(r, CheckForResume(op, id, validated)) == ApplyRace(r, ReadForDelete(op, id)) == r
    ensures ApplyRace(r, Abandon(op)) == Race(r.db, r.pending - {op})
  {
    hide EditPatch;
  }

  /** A write that comes too late for its row, deleted since the read, changes no row and is audited all the same. */
  lemma LateWriteOnlyAudits(r: Race, op: OperatorId)
    requires op in r.pending && !r.pending[op].ResumeChecked? && !Live(r.db, r.pending[op].id)
    ensures var p, db' := r.pending[op], ApplyRace(r, Write(op)).db;
            && db'.rows == r.db.rows && |db'.audit| == |r.db.audit| + 1 && db'.audit[..|r.db.audit|] == r.db.audit
            && var row := db'.audit[|r.db.audit|];
               match p
               case EditRead(id, prior, patch, _) => row.Edited? && row.id == id && row.after.fields.Keys == Changed(patch, prior)
               case PauseRead(id, name) => row == PausedRow(id, name)
               case ResumeRead(id, name, next) => row == ResumedRow(id, name, next)
               case DeleteRead(id, prior) => row == Deleted(id, prior)
  {
  }

  // ---------------------------------------------------------------- when replay goes wrong

  ghost predicate ReplayAgrees(s: State) {
    Agrees(Replay(s.audit), s)
  }

  /** The patch sets a column the row read already had to that very value, and the column has since changed. */
  predicate Reverts(current: Task, prior: Task, patch: Patch) {
    exists f :: f in patch && patch[f] == prior.Get(f) && current.Get(f) != prior.Get(f)
  }

  /** An edit that commits on such a row: it puts the column back, and its diff does not say so. */
  predicate Breaks(r: Race, step: RaceStep) {
    && step.Write? && step.op in r.pending && r.pending[step.op].EditRead?
    && var EditRead(id, prior, patch, _) := r.pending[step.op];
       && Live(r.db, id) && !(Name in patch && NameTaken(r.db, id, patch[Name]))
       && Reverts(r.db.rows[id].task, prior, patch)
  }

  lemma EditSameIff(replayed: Task, current: Task, ticked: bool, prior: Task, patch: Patch, next: Option<Instant>)
    requires Same(replayed, current, ticked)
    ensures var after := After(patch, prior, next);
            && (after.nextFireAt.Some? <==> next.Some? && ScheduleExpr in Changed(patch, prior))
            && (Same(Overlay(replayed, after), Patched(current, patch, prior, next), ticked && after.nextFireAt.None?)
                <==> !Reverts(current, prior, patch))
  {
    StaleReplayIff(current, prior, patch, next);
    var after := After(patch, prior, next);
    OverlaySame(replayed, current, ticked, after);
    StaleField(current, prior, patch, next, Name);
    assert after.nextFireAt.Some? <==> next.Some? && ScheduleExpr in Changed(patch, prior);
    hide Overlay, After, Patched, Changed, Task.Get;
  }

  lemma EditWriteIff(s: State, id: TaskId, prior: Task, patch: Patch, next: Option<Instant>)
    requires ReplayAgrees(s) && Live(s, id) && !(Name in patch && NameTaken(s, id, patch[Name]))
    ensures ReplayAgrees(EditTx(s, id, prior, patch, next).0) <==> !Reverts(s.rows[id].task, prior, patch)
  {
    hide Replay, Overlay, Same, Patched, Before, After, Changed, NameTaken, Reverts;
    var current, table, after := s.rows[id].task, Replay(s.audit), After(patch, prior, next);
    ReplaySnoc(s.audit, Edited(id, Before(patch, prior, next), after));
    EditSameIff(table[id], current, id in s.ticked, prior, patch, next);
    var s' := EditTx(s, id, prior, patch, next).0;
    assert s'.rows == s.rows[id := Row(Patched(current, patch, prior, next), false)];
    assert Replay(s'.audit) == table[id := Overlay(table[id], after)];
    assert Live(s', id) && (id in s'.ticked <==> id in s.ticked && after.nextFireAt.None?);
  }

  /** An edit of a row deleted since its read, or one that collides, leaves table and replay alike. */
  lemma EditElsewhereKeeps(s: State, id: TaskId, prior: Task, patch: Patch, next: Option<Instant>)
    requires ReplayAgrees(s) && (!Live(s, id) || (Name in patch && NameTaken(s, id, patch[Name])))
    ensures ReplayAgrees(EditTx(s, id, prior, patch, next).0)
  {
    hide Replay, Overlay, Same, Patched, Before, After, Changed, NameTaken;
    ReplaySnoc(s.audit, Edited(id, Before(patch, prior, next), After(patch, prior, next)));
  }

  lemma OtherWriteKeeps(s: State, p: Pending)
    requires ReplayAgrees(s) && !p.EditRead?
    ensures ReplayAgrees(Written(s, p))
  {
    hide Replay;
    match p {
      case PauseRead(id, name) => ReplaySnoc(s.audit, PausedRow(id, name));
      case ResumeChecked(_, _) =>
      case ResumeRead(id, name, next) => ReplaySnoc(s.audit, ResumedRow(id, name, next));
      case DeleteRead(id, prior) => ReplaySnoc(s.audit, Deleted(id, prior));
    }
  }

  /** One step: where replay gave the table, it still does exactly unless the step breaks it. */
  lemma StepIff(r: Race, step: RaceStep)
    requires ReplayAgrees(r.db)
    ensures ReplayAgrees(ApplyRace(r, step).db) <==> !Breaks(r, step)
  {
    hide ReplayAgrees, Create, Tick, Written, EditPatch, NameTaken, Reverts, EditTx;
    match step {
      case CreateTask(id, input, validated) =>
        AgreesIs(r.db);
        CreateKeeps(r.db, id, input, validated);
        AgreesIs(ApplyRace(r, step).db);
      case TickTask(id, next) =>
        AgreesIs(r.db);
        TickKeeps(r.db, id, next);
        AgreesIs(ApplyRace(r, step).db);
      case Write(op) =>
        if op in r.pending && !r.pending[op].ResumeChecked? {
          WrittenIs(r.db, r.pending[op]);
          if r.pending[op].EditRead? {
            var EditRead(id, prior, patch, next) := r.pending[op];
            if Live(r.db, id) && !(Name in patch && NameTaken(r.db, id, patch[Name])) {
              EditWriteIff(r.db, id, prior, patch, next);
            } else {
              EditElsewhereKeeps(r.db, id, prior, patch, next);
            }
          } else {
            OtherWriteKeeps(r.db, r.pending[op]);
          }
        }
      case _ =>
    }
  }

  lemma AgreesIs(s: State)
    ensures ReplayAgrees(s) <==> Agrees(Replay(s.audit), s)
  {
  }

  lemma TickKeeps(s: State, id: TaskId, next: Instant)
    requires Agrees(Replay(s.audit), s)
    ensures Agrees(Replay(Tick(s, id, next).audit), Tick(s, id, next))
  {
    hide Replay;
  }

  lemma WrittenIs(s: State, p: Pending)
    ensures p.EditRead? ==> Written(s, p) == EditTx(s, p.id, p.prior, p.patch, p.nextFireAt).0
  {
  }

  ghost predicate NeverBroke(steps: seq<RaceStep>)
    decreases |steps|
  {
    steps == [] || (NeverBroke(steps[..|steps| - 1]) && !Breaks(ExecRace(steps[..|steps| - 1]), steps[|steps| - 1]))
  }

  ghost predicate AlwaysAgreed(steps: seq<RaceStep>) {
    forall k :: 0 <= k <= |steps| ==> ReplayAgrees(ExecRace(steps[..k]).db)
  }

  /**
   Over every interleaving of actions and ticks: the audit replays to the live table at every moment of
   the run, exactly if no edit committed that put back, unrecorded, a column another one had changed since
   it read the row. Pauses, resumes and deletes never break it, however stale.
   */
  lemma {:induction false} ReplayIsTableIff(steps: seq<RaceStep>)
    ensures AlwaysAgreed(steps) <==> NeverBroke(steps)
    decreases |steps|
  {
    hide Breaks, ReplayAgrees, ApplyRace;
    if steps == [] {
      EmptyAgrees();
      assert steps[..0] == [];
    } else {
      var front := steps[..|steps| - 1];
      ReplayIsTableIff(front);
      assert forall k :: 0 <= k <= |front| ==> steps[..k] == front[..k];
      assert steps[..|steps|] == steps && front[..|front|] == front;
      if AlwaysAgreed(front) {
        StepIff(ExecRace(front), steps[|steps| - 1]);
      }
      assert AlwaysAgreed(steps) ==> AlwaysAgreed(front) by {
        if AlwaysAgreed(steps) {
          forall k | 0 <= k <= |front|
            ensures ReplayAgrees(ExecRace(front[..k]).db)
          {
            assert steps[..k] == front[..k];
          }
        }
      }
    }
  }

  lemma EmptyAgrees()
    ensures ReplayAgrees(ExecRace([]).db)
  {
  }

  // ---------------------------------------------------------------- names

  lemma WriteNames(s: State, p: Pending)
    requires NamesUnique(s)
    ensures NamesUnique(Written(s, p))
  {
    hide Before, After, Changed;
    var s' := Written(s, p);
    forall a, b | Live(s', a) && Live(s', b) && s'.rows[a].task.name == s'.rows[b].task.name
      ensures a == b
    {
    }
  }

  /** Live names stay unique in every interleaving: the index is checked when the write commits. */
  lemma {:induction false} NamesStayUniqueInRaces(steps: seq<RaceStep>)
    ensures NamesUnique(ExecRace(steps).db)
    decreases |steps|
  {
    if steps != [] {
      var r, step := ExecRace(steps[..|steps| - 1]), steps[|steps| - 1];
      NamesStayUniqueInRaces(steps[..|steps| - 1]);
      hide NamesUnique, Create, Tick, Written, EditPatch, Live;
      match step {
        case CreateTask(id, input, validated) => NamesStep(r.db, CreateStep(id, input, validated));
        case TickTask(id, next) => NamesStep(r.db, TickStep(id, next));
        case Write(op) => if op in r.pending { WriteNames(r.db, r.pending[op]); }
        case _ =>
      }
    }
  }

  // ---------------------------------------------------------------- the race

  /**
   The smallest one: while one operator's edit is between its read and its write, another changes the
   role. The first then writes the old role back with an empty diff; replay keeps the new one.
   */
  lemma SilentRevert(s: State, id: TaskId, role: string)
    requires ReplayAgrees(s) && Live(s, id) && role != s.rows[id].task.roleSlug
    ensures var prior := s.rows[id].task;
            var s1 := EditTx(s, id, prior, map[RoleSlug := role], None).0;
            var s2 := EditTx(s1, id, prior, map[RoleSlug := prior.roleSlug], None).0;
            && ReplayAgrees(s1) && Live(s2, id) && id in Replay(s2.audit)
            && s2.rows[id].task == prior && Replay(s2.audit)[id].roleSlug == role
            && s2.audit == s1.audit + [Edited(id, Diff(map[], None), Diff(map[], None))]
  {
    hide Replay, NameTaken, ReplayAgrees, Patched, Before, After, Reverts, Changed;
    var prior := s.rows[id].task;
    RoleSet(prior, role);
    var s1 := EditTx(s, id, prior, map[RoleSlug := role], None).0;
    EditWriteIff(s, id, prior, map[RoleSlug := role], None);
    RolePutBack(prior, role);
    var s2 := EditTx(s1, id, prior, map[RoleSlug := prior.roleSlug], None).0;
    ReplaySnoc(s1.audit, Edited(id, Diff(map[], None), Diff(map[], None)));
    AgreesAt(s1, id);
  }

  lemma RoleSet(t: Task, role: string)
    ensures Patched(t, map[RoleSlug := role], t, None) == t.(roleSlug := role)
    ensures !Reverts(t, t, map[RoleSlug := role])
  {
  }

  lemma RolePutBack(t: Task, role: string)
    ensures var patch: Patch := map[RoleSlug := t.roleSlug];
            && Patched(t.(roleSlug := role), patch, t, None) == t
            && Before(patch, t, None) == Diff(map[], None) && After(patch, t, None) == Diff(map[], None)
  {
    var patch: Patch := map[RoleSlug := t.roleSlug];
    assert Changed(patch, t) == {};
  }

  lemma AgreesAt(s: State, id: TaskId)
    requires ReplayAgrees(s) && Live(s, id)
    ensures id in Replay(s.audit) && Replay(s.audit)[id].roleSlug == s.rows[id].task.roleSlug
  {
    assert Same(Replay(s.audit)[id], s.rows[id].task, id in s.ticked);
  }
}
