/**
 The scheduled-task actions (dashboard/lib/actions/scheduledTasks.ts) against the audit rows they
 write in the same transaction, with the supervisor's tick (migrations/queries/m9_schedule.sql)
 moving next_fire_at unaudited in between.
 */
module ScheduleAudit {
  import opened Common

  type TaskId = nat
  type Instant = int

  datatype Field = Name | RoleSlug | ScheduleExpr | Objective | Acceptance

  datatype Task = Task(name: string, roleSlug: string, scheduleExpr: string, objective: string, acceptance: string,
                       department: nat, mode: string, nextFireAt: Instant, paused: bool) {
    function Get(f: Field): string {
      match f
      case Name => name
      case RoleSlug => roleSlug
      case ScheduleExpr => scheduleExpr
      case Objective => objective
      case Acceptance => acceptance
    }
  }

  /** One side of an edit's diff: the changed fields, and next_fire_at when the expression changed. */
  datatype Diff = Diff(fields: map<Field, string>, nextFireAt: Option<Instant>)

  datatype AuditRow =
    | Created(id: TaskId, task: Task)
    | Edited(id: TaskId, before: Diff, after: Diff)
    | PausedRow(id: TaskId, name: string)
    | ResumedRow(id: TaskId, name: string, nextFireAt: Instant)
    | Deleted(id: TaskId, preState: Task)

  datatype Row = Row(task: Task, deleted: bool)

  /** `ticked` holds the rows whose next_fire_at the supervisor moved since an action last set it. */
  datatype State = State(rows: map<TaskId, Row>, audit: seq<AuditRow>, ticked: set<TaskId>)

  datatype ErrorKind = ValidationFailed | NotFound | InternalError

  datatype Outcome = Done | Failure(kind: ErrorKind)

  /** What POST /schedule/validate answered. */
  datatype Validated = Accepted(nextFireAt: Instant) | Refused(kind: ErrorKind)

  const INIT: State := State(map[], [], {})

  // ---------------------------------------------------------------- the actions

  predicate Live(s: State, id: TaskId) {
    id in s.rows && !s.rows[id].deleted
  }

  /** idx_scheduled_tasks_name_live would be violated by giving this row that name. */
  predicate NameTaken(s: State, id: TaskId, name: string) {
    exists other :: other in s.rows && Live(s, other) && other != id && s.rows[other].task.name == name
  }

  /** WhiteSpace and LineTerminator of ECMA-262, sections 12.2 and 12.3. */
  predicate IsSpace(c: char) {
    c in {' ', '\t', '\n', '\r', '\U{B}', '\U{C}', '\U{A0}', '\U{1680}', '\U{2028}', '\U{2029}', '\U{202F}', '\U{205F}',
          '\U{3000}', '\U{FEFF}'}
    || '\U{2000}' <= c <= '\U{200A}'
  }

  function TrimLeft(s: string): string {
    if s != [] && IsSpace(s[0]) then TrimLeft(s[1..]) else s
  }

  function TrimRight(s: string): string {
    if s != [] && IsSpace(s[|s| - 1]) then TrimRight(s[..|s| - 1]) else s
  }

  function Trim(s: string): string {
    TrimRight(TrimLeft(s))
  }

  function CreateTx(s: State, id: TaskId, task: Task): (State, Outcome) {
    if NameTaken(s, id, task.name) then (s, Failure(ValidationFailed))
    else (State(s.rows[id := Row(task, false)], s.audit + [Created(id, task)], s.ticked - {id}), Done)
  }

  /** createScheduledTask; `id` is the fresh uuid the insert generates. */
  function Create(s: State, id: TaskId, input: Task, validated: Validated): (State, Outcome) {
    var name, role, mode, expr := Trim(input.name), Trim(input.roleSlug), Trim(input.mode), Trim(input.scheduleExpr);
    if name == "" || role == "" || mode !in {"ticket", "oneshot"} || Trim(input.objective) == "" || Trim(input.acceptance) == ""
    then (s, Failure(ValidationFailed))
    else if validated.Refused? then (s, Failure(validated.kind))
    else if id in s.rows then (s, Failure(InternalError))
    else CreateTx(s, id, Task(name, role, expr, input.objective, input.acceptance, input.department, mode,
                              validated.nextFireAt, false))
  }

  type Patch = map<Field, string>

  /** buildEditPatch: names and roles are trimmed and must not be empty, nor may the templates be blank. */
  function EditPatch(input: Patch): Option<Patch> {
    if (Name in input && Trim(input[Name]) == "") || (RoleSlug in input && Trim(input[RoleSlug]) == "")
       || (Objective in input && Trim(input[Objective]) == "") || (Acceptance in input && Trim(input[Acceptance]) == "")
       || input == map[]
    then None
    else Some(map f | f in input :: if f == Objective || f == Acceptance then input[f] else Trim(input[f]))
  }

  function Changed(patch: Patch, prior: Task): set<Field> {
    set f | f in patch && patch[f] != prior.Get(f)
  }

  function Before(patch: Patch, prior: Task, next: Option<Instant>): Diff {
    Diff(map f | f in Changed(patch, prior) :: prior.Get(f),
         if next.Some? && ScheduleExpr in Changed(patch, prior) then Some(prior.nextFireAt) else None)
  }

  function After(patch: Patch, prior: Task, next: Option<Instant>): Diff {
    Diff(map f | f in patch && f in Changed(patch, prior) :: patch[f],
         if ScheduleExpr in Changed(patch, prior) then next else None)
  }

  function Overlay(t: Task, d: Diff): Task {
    t.(name := if Name in d.fields then d.fields[Name] else t.name,
       roleSlug := if RoleSlug in d.fields then d.fields[RoleSlug] else t.roleSlug,
       scheduleExpr := if ScheduleExpr in d.fields then d.fields[ScheduleExpr] else t.scheduleExpr,
       objective := if Objective in d.fields then d.fields[Objective] else t.objective,
       acceptance := if Acceptance in d.fields then d.fields[Acceptance] else t.acceptance,
       nextFireAt := if d.nextFireAt.Some? then d.nextFireAt.value else t.nextFireAt)
  }

  /** The UPDATE: every patched column, and next_fire_at if the expression differs from the row read before. */
  function Patched(current: Task, patch: Patch, prior: Task, next: Option<Instant>): Task {
    Overlay(current, Diff(patch, if ScheduleExpr in Changed(patch, prior) then next else None))
  }

  /** runEditTransaction, with the row its unlocked SELECT returned. */
  function EditTx(s: State, id: TaskId, prior: Task, patch: Patch, next: Option<Instant>): (State, Outcome) {
    var row := Edited(id, Before(patch, prior, next), After(patch, prior, next));
    if !Live(s, id) then (s.(audit := s.audit + [row]), Done)
    else if Name in patch && NameTaken(s, id, patch[Name]) then (s, Failure(ValidationFailed))
    else
      (State(s.rows[id := s.rows[id].(task := Patched(s.rows[id].task, patch, prior, next))], s.audit + [row],
             if next.Some? && ScheduleExpr in Changed(patch, prior) then s.ticked - {id} else s.ticked), Done)
  }

  /** editScheduledTask as one transaction. */
  function Edit(s: State, id: TaskId, input: Patch, validated: Validated): (State, Outcome) {
    var patch := EditPatch(input);
    if patch.None? then (s, Failure(ValidationFailed))
    else if !Live(s, id) then (s, Failure(NotFound))
    else if validated.Refused? then (s, Failure(validated.kind))
    else EditTx(s, id, s.rows[id].task, patch.value, if ScheduleExpr in input then Some(validated.nextFireAt) else None)
  }

  function WithTask(s: State, id: TaskId, task: Task, row: AuditRow): State
    requires id in s.rows
  {
    s.(rows := s.rows[id := s.rows[id].(task := task)], audit := s.audit + [row])
  }

  function Pause(s: State, id: TaskId): (State, Outcome) {
    if !Live(s, id) then (s, Failure(NotFound))
    else if s.rows[id].task.paused then (s, Failure(ValidationFailed))
    else (WithTask(s, id, s.rows[id].task.(paused := true), PausedRow(id, s.rows[id].task.name)), Done)
  }

  /** The resume's transaction: it reads the live row for its name only and does not look at the flag again. */
  function ResumeTx(s: State, id: TaskId, next: Instant): (State, Outcome) {
    if !Live(s, id) then (s, Failure(NotFound))
    else
      (WithTask(s, id, s.rows[id].task.(paused := false, nextFireAt := next), ResumedRow(id, s.rows[id].task.name, next))
         .(ticked := s.ticked - {id}), Done)
  }

  /** resumeScheduledTask undisturbed: the check, the validation, the transaction. */
  function Resume(s: State, id: TaskId, validated: Validated): (State, Outcome) {
    if !Live(s, id) then (s, Failure(NotFound))
    else if !s.rows[id].task.paused then (s, Failure(ValidationFailed))
    else if validated.Refused? then (s, Failure(validated.kind))
    else ResumeTx(s, id, validated.nextFireAt)
  }

  function Delete(s: State, id: TaskId): (State, Outcome) {
    if !Live(s, id) then (s, Failure(NotFound))
    else (s.(rows := s.rows[id := s.rows[id].(deleted := true)], audit := s.audit + [Deleted(id, s.rows[id].task)]), Done)
  }

  /** AdvanceScheduledTask, for a row the tick's claim found. */
  function Tick(s: State, id: TaskId, next: Instant): State {
    if Live(s, id) && !s.rows[id].task.paused
    then s.(rows := s.rows[id := s.rows[id].(task := s.rows[id].task.(nextFireAt := next))], ticked := s.ticked + {id})
    else s
  }

  datatype Step =
    | CreateStep(id: TaskId, input: Task, validated: Validated)
    | EditStep(id: TaskId, patch: Patch, validated: Validated)
    | PauseStep(id: TaskId)
    | ResumeStep(id: TaskId, next: Instant)
    | DeleteStep(id: TaskId)
    | TickStep(id: TaskId, next: Instant)

  function Apply(s: State, step: Step): State {
    match step
    case CreateStep(id, input, validated) => Create(s, id, input, validated).0
    case EditStep(id, patch, validated) => Edit(s, id, patch, validated).0
    case PauseStep(id) => Pause(s, id).0
    case ResumeStep(id, next) => ResumeTx(s, id, next).0
    case DeleteStep(id) => Delete(s, id).0
    case TickStep(id, next) => Tick(s, id, next)
  }

  function Exec(steps: seq<Step>): State
    decreases |steps|
  {
    if steps == [] then INIT else Apply(Exec(steps[..|steps| - 1]), steps[|steps| - 1])
  }

  // ---------------------------------------------------------------- replaying the audit

  function ReplayRow(table: map<TaskId, Task>, row: AuditRow): map<TaskId, Task> {
    match row
    case Created(id, task) => table[id := task]
    case Edited(id, _, after) => if id in table then table[id := Overlay(table[id], after)] else table
    case PausedRow(id, _) => if id in table then table[id := table[id].(paused := true)] else table
    case ResumedRow(id, _, next) => if id in table then table[id := table[id].(paused := false, nextFireAt := next)] else table
    case Deleted(id, _) => table - {id}
  }

  function Replay(audit: seq<AuditRow>): map<TaskId, Task>
    decreases |audit|
  {
    if audit == [] then map[] else ReplayRow(Replay(audit[..|audit| - 1]), audit[|audit| - 1])
  }

  /** Equal, except that a ticked row's next_fire_at has moved on. */
  predicate Same(replayed: Task, live: Task, ticked: bool) {
    replayed.(nextFireAt := if ticked then live.nextFireAt else replayed.nextFireAt) == live
  }

  ghost predicate Agrees(table: map<TaskId, Task>, s: State) {
    forall id :: (id in table <==> Live(s, id)) && (Live(s, id) ==> Same(table[id], s.rows[id].task, id in s.ticked))
  }

  ghost predicate NamesUnique(s: State) {
    forall a, b :: Live(s, a) && Live(s, b) && s.rows[a].task.name == s.rows[b].task.name ==> a == b
  }

  lemma ReplaySnoc(audit: seq<AuditRow>, row: AuditRow)
    ensures Replay(audit + [row]) == ReplayRow(Replay(audit), row)
  {
    assert (audit + [row])[..|audit|] == audit;
  }

  /** The patched columns are exactly the audit row's `after` laid over the row it was computed from. */
  lemma AfterIsPatch(t: Task, patch: Patch, next: Option<Instant>)
    ensures Overlay(t, After(patch, t, next)) == Patched(t, patch, t, next)
    ensures After(patch, t, next).nextFireAt.Some? <==> next.Some? && ScheduleExpr in Changed(patch, t)
  {
  }

  lemma OverlaySame(r: Task, t: Task, ticked: bool, d: Diff)
    requires Same(r, t, ticked)
    ensures Same(Overlay(r, d), Overlay(t, d), ticked && d.nextFireAt.None?)
  {
  }

  lemma EditKeeps(s: State, id: TaskId, patch: Patch, next: Option<Instant>)
    requires Agrees(Replay(s.audit), s) && Live(s, id)
    ensures var s' := EditTx(s, id, s.rows[id].task, patch, next).0; Agrees(Replay(s'.audit), s')
  {
    hide Replay, Overlay, Same, Patched, Before, After, Changed, NameTaken;
    var prior, table, after := s.rows[id].task, Replay(s.audit), After(patch, s.rows[id].task, next);
    ReplaySnoc(s.audit, Edited(id, Before(patch, prior, next), after));
    AfterIsPatch(prior, patch, next);
    assert Same(table[id], prior, id in s.ticked);
    OverlaySame(table[id], prior, id in s.ticked, after);
    var s' := EditTx(s, id, prior, patch, next).0;
    if s' != s {
      assert s'.rows == s.rows[id := Row(Overlay(prior, after), false)];
      assert Replay(s'.audit) == table[id := Overlay(table[id], after)];
    }
  }

  lemma CreateKeeps(s: State, id: TaskId, input: Task, validated: Validated)
    requires Agrees(Replay(s.audit), s)
    ensures var s' := Create(s, id, input, validated).0; Agrees(Replay(s'.audit), s')
  {
    hide Trim, NameTaken, Replay;
    forall task {
      ReplaySnoc(s.audit, Created(id, task));
    }
  }

  lemma OtherKeeps(s: State, step: Step)
    requires Agrees(Replay(s.audit), s) && !step.CreateStep? && !step.EditStep?
    ensures var s' := Apply(s, step); Agrees(Replay(s'.audit), s')
  {
    hide Trim, NameTaken, Replay, Create, Edit;
    if step.id in s.rows {
      var task := s.rows[step.id].task;
      ReplaySnoc(s.audit, PausedRow(step.id, task.name));
      ReplaySnoc(s.audit, Deleted(step.id, task));
      if step.ResumeStep? {
        ReplaySnoc(s.audit, ResumedRow(step.id, task.name, step.next));
      }
    }
  }

  /**
   For every sequence of actions and ticks, folding the audit rows over the empty table gives the
   live table: the same ids, every column the same, next_fire_at excepted on rows ticked since.
   */
  lemma {:induction false} ReplayIsTable(steps: seq<Step>)
    ensures var s := Exec(steps); Agrees(Replay(s.audit), s)
    decreases |steps|
  {
    if steps != [] {
      var s, step := Exec(steps[..|steps| - 1]), steps[|steps| - 1];
      ReplayIsTable(steps[..|steps| - 1]);
      hide Agrees, Replay, Create, EditTx, Pause, ResumeTx, Delete, Tick, EditPatch;
      match step {
        case CreateStep(id, input, validated) => CreateKeeps(s, id, input, validated);
        case EditStep(id, input, validated) =>
          if EditPatch(input).Some? && Live(s, id) && validated.Accepted? {
            EditKeeps(s, id, EditPatch(input).value, if ScheduleExpr in input then Some(validated.nextFireAt) else None);
          }
        case _ => OtherKeeps(s, step);
      }
    }
  }

  lemma NamesStep(s: State, step: Step)
    requires NamesUnique(s)
    ensures NamesUnique(Apply(s, step))
  {
    hide Trim, Before, After, Changed, EditPatch;
    var s' := Apply(s, step);
    forall a, b | Live(s', a) && Live(s', b) && s'.rows[a].task.name == s'.rows[b].task.name
      ensures a == b
    {
    }
  }

  /** Live names stay unique, over every run. */
  lemma {:induction false} NamesStayUnique(steps: seq<Step>)
    ensures NamesUnique(Exec(steps))
    decreases |steps|
  {
    if steps != [] {
      NamesStayUnique(steps[..|steps| - 1]);
      NamesStep(Exec(steps[..|steps| - 1]), steps[|steps| - 1]);
    }
  }

  // ---------------------------------------------------------------- single rows

  /** Laying an edit row's `before` over the edited row gives the old row back, next_fire_at included. */
  lemma EditUndone(s: State, id: TaskId, input: Patch, validated: Validated)
    requires Live(s, id) && Edit(s, id, input, validated).1 == Done
    ensures var s' := Edit(s, id, input, validated).0; var row := s'.audit[|s'.audit| - 1];
            && row.Edited? && row.id == id && s'.audit == s.audit + [row]
            && Overlay(s'.rows[id].task, row.before) == s.rows[id].task
            && row.before.fields.Keys == row.after.fields.Keys
            && (forall f :: f in row.before.fields <==>
                  s'.rows[id].task.Get(f) != s.rows[id].task.Get(f))
  {
    hide Trim, NameTaken;
    var prior, patch := s.rows[id].task, EditPatch(input).value;
    var next := if ScheduleExpr in input then Some(validated.nextFireAt) else None;
    assert ScheduleExpr in patch ==> next.Some?;
    hide EditPatch;
    BeforeUndoes(prior, patch, next);
    PatchedAt(prior, patch, next);
    hide Patched, Overlay;
  }

  lemma BeforeUndoes(prior: Task, patch: Patch, next: Option<Instant>)
    requires ScheduleExpr in patch ==> next.Some?
    ensures Overlay(Patched(prior, patch, prior, next), Before(patch, prior, next)) == prior
    ensures Before(patch, prior, next).fields.Keys == After(patch, prior, next).fields.Keys
  {
  }

  lemma PatchedAt(prior: Task, patch: Patch, next: Option<Instant>)
    ensures forall f :: Patched(prior, patch, prior, next).Get(f) == if f in patch then patch[f] else prior.Get(f)
  {
  }

  /** A delete row's pre_state is the row deleted, and what the audit before it replays to. */
  lemma {:induction false} DeleteSnapshots(steps: seq<Step>, id: TaskId)
    requires Live(Exec(steps), id)
    ensures var s := Exec(steps); var s' := Delete(s, id).0; var row := s'.audit[|s'.audit| - 1];
            && row == Deleted(id, s.rows[id].task)
            && id in Replay(s.audit) && Same(Replay(s.audit)[id], row.preState, id in s.ticked)
            && id !in Replay(s'.audit) && !Live(s', id)
  {
    ReplayIsTable(steps);
    ReplaySnoc(Exec(steps).audit, Deleted(id, Exec(steps).rows[id].task));
    hide Exec, Replay, Same;
  }

  // ---------------------------------------------------------------- each action, in the row's own terms

  /** By code point: the controls from tab to carriage return, the space separators, the line separators, the byte order mark. */
  lemma SpacesAre(c: char)
    ensures var n := c as int;
            IsSpace(c) <==> 9 <= n <= 13 || n == 0x20 || n == 0xA0 || n == 0x1680 || 0x2000 <= n <= 0x200A
                            || n == 0x2028 || n == 0x2029 || n == 0x202F || n == 0x205F || n == 0x3000 || n == 0xFEFF
  {
  }

  predicate Blank(s: string) {
    forall i :: 0 <= i < |s| ==> IsSpace(s[i])
  }

  /** Trimming takes blanks off both ends and nothing else, and all of them. */
  lemma TrimMeans(s: string) returns (front: string, back: string)
    ensures s == front + Trim(s) + back && Blank(front) && Blank(back)
    ensures Trim(s) != "" ==> !IsSpace(Trim(s)[0]) && !IsSpace(Trim(s)[|Trim(s)| - 1])
    ensures Trim(s) == "" <==> Blank(s)
  {
    hide IsSpace;
    front := TrimLeftMeans(s);
    back := TrimRightMeans(TrimLeft(s));
    var t := Trim(s);
    assert s == front + (t + back) == front + t + back;
    if t == "" {
      assert s == front + back;
    } else {
      assert TrimLeft(s)[0] == t[0];
      assert s[|front|] == t[0];
    }
  }

  lemma {:induction false} TrimLeftMeans(s: string) returns (front: string)
    ensures s == front + TrimLeft(s) && Blank(front)
    ensures TrimLeft(s) != "" ==> !IsSpace(TrimLeft(s)[0])
    decreases |s|
  {
    hide IsSpace;
    if s != [] && IsSpace(s[0]) {
      front := TrimLeftMeans(s[1..]);
      assert s == [s[0]] + (front + TrimLeft(s)) == [s[0]] + front + TrimLeft(s);
      front := [s[0]] + front;
    } else {
      front := "";
    }
  }

  lemma {:induction false} TrimRightMeans(s: string) returns (back: string)
    ensures s == TrimRight(s) + back && Blank(back)
    ensures TrimRight(s) != "" ==> !IsSpace(TrimRight(s)[|TrimRight(s)| - 1])
    decreases |s|
  {
    hide IsSpace;
    if s != [] && IsSpace(s[|s| - 1]) {
      back := TrimRightMeans(s[..|s| - 1]);
      assert s == TrimRight(s) + back + [s[|s| - 1]] == TrimRight(s) + (back + [s[|s| - 1]]);
      back := back + [s[|s| - 1]];
    } else {
      back := "";
    }
  }

  /** An edit is turned down if it is empty or blanks a name, role or template; names, roles and expressions are trimmed. */
  lemma EditPatchMeans(input: Patch)
    ensures EditPatch(input).Some? <==>
              && input != map[]
              && forall f :: f in input && f != ScheduleExpr ==> Trim(input[f]) != ""
    ensures EditPatch(input).Some? ==>
              var patch := EditPatch(input).value;
              && patch.Keys == input.Keys
              && forall f :: f in input ==> patch[f] == if f in {Objective, Acceptance} then input[f] else Trim(input[f])
  {
    hide Trim;
    forall f | f in input
      ensures f == Name || f == RoleSlug || f == ScheduleExpr || f == Objective || f == Acceptance
    {
    }
  }

  /** A live row of another id has this name. */
  predicate Rivalled(s: State, id: TaskId, name: string) {
    exists other :: other in s.rows && !s.rows[other].deleted && other != id && s.rows[other].task.name == name
  }

  lemma RivalledIs(s: State, id: TaskId, name: string)
    ensures NameTaken(s, id, name) <==> Rivalled(s, id, name)
  {
    if other :| other in s.rows && !s.rows[other].deleted && other != id && s.rows[other].task.name == name {
      assert Live(s, other);
    }
  }

  /** A task is created exactly if its fields are given, its schedule validates and its name is free; all of it is audited. */
  lemma CreateMeans(s: State, id: TaskId, input: Task, validated: Validated)
    requires id !in s.rows
    ensures var (s', outcome) := Create(s, id, input, validated);
            var name, role, mode := Trim(input.name), Trim(input.roleSlug), Trim(input.mode);
            && (outcome == Done <==>
                  && name != "" && role != "" && (mode == "ticket" || mode == "oneshot")
                  && Trim(input.objective) != "" && Trim(input.acceptance) != ""
                  && validated.Accepted? && !Rivalled(s, id, name))
            && (outcome != Done ==> s' == s)
            && (outcome == Done ==>
                  var task := Task(name, role, Trim(input.scheduleExpr), input.objective, input.acceptance,
                                   input.department, mode, validated.nextFireAt, false);
                  s'.rows == s.rows[id := Row(task, false)] && s'.audit == s.audit + [Created(id, task)])
  {
    hide Trim, NameTaken, Rivalled;
    RivalledIs(s, id, Trim(input.name));
  }

  /** An edit sets the patched columns of a live row, moves next_fire_at only with a new expression, and leaves the rest. */
  lemma EditMeans(s: State, id: TaskId, input: Patch, validated: Validated)
    ensures var (s', outcome) := Edit(s, id, input, validated); var patch := EditPatch(input);
            && (outcome == Done <==>
                  && patch.Some? && id in s.rows && !s.rows[id].deleted && validated.Accepted?
                  && !(Name in patch.value && Rivalled(s, id, patch.value[Name])))
            && (outcome != Done ==> s' == s)
            && (outcome == Done ==>
                  && id in s'.rows && s'.rows == s.rows[id := s'.rows[id]] && !s'.rows[id].deleted
                  && var before, after := s.rows[id].task, s'.rows[id].task;
                     && (forall f :: after.Get(f) == if f in patch.value then patch.value[f] else before.Get(f))
                     && after.department == before.department && after.mode == before.mode && after.paused == before.paused
                     && after.nextFireAt == if after.scheduleExpr != before.scheduleExpr then validated.nextFireAt else before.nextFireAt)
  {
    if EditPatch(input).Some? {
      var patch := EditPatch(input).value;
      EditPatchMeans(input);
      if Name in patch {
        RivalledIs(s, id, patch[Name]);
      }
      if id in s.rows && validated.Accepted? {
        PatchedAt(s.rows[id].task, patch, if ScheduleExpr in input then Some(validated.nextFireAt) else None);
        PatchedRest(s.rows[id].task, patch, if ScheduleExpr in input then Some(validated.nextFireAt) else None);
      }
    }
    hide EditPatch, NameTaken, Rivalled, Patched, Before, After, Changed;
  }

  lemma PatchedRest(prior: Task, patch: Patch, next: Option<Instant>)
    ensures var t := Patched(prior, patch, prior, next);
            && t.department == prior.department && t.mode == prior.mode && t.paused == prior.paused
            && t.nextFireAt == (if next.Some? && ScheduleExpr in patch && patch[ScheduleExpr] != prior.scheduleExpr then next.value else prior.nextFireAt)
            && t.scheduleExpr == (if ScheduleExpr in patch then patch[ScheduleExpr] else prior.scheduleExpr)
  {
  }

  /** Pausing, resuming, deleting and ticking: when they take effect, and what they change. */
  lemma FlagsMean(s: State, id: TaskId, validated: Validated, next: Instant)
    requires id in s.rows
    ensures var (s', outcome) := Pause(s, id); var row := s.rows[id];
            if row.deleted then outcome == Failure(NotFound) && s' == s
            else if row.task.paused then outcome == Failure(ValidationFailed) && s' == s
            else outcome == Done && s' == s.(rows := s.rows[id := row.(task := row.task.(paused := true))],
                                             audit := s.audit + [PausedRow(id, row.task.name)])
    ensures var (s', outcome) := Resume(s, id, validated); var row := s.rows[id];
            if row.deleted then outcome == Failure(NotFound) && s' == s
            else if !row.task.paused then outcome == Failure(ValidationFailed) && s' == s
            else if validated.Refused? then outcome == Failure(validated.kind) && s' == s
            else && outcome == Done
                 && s'.rows == s.rows[id := row.(task := row.task.(paused := false, nextFireAt := validated.nextFireAt))]
                 && s'.audit == s.audit + [ResumedRow(id, row.task.name, validated.nextFireAt)]
    ensures var (s', outcome) := Delete(s, id); var row := s.rows[id];
            if row.deleted then outcome == Failure(NotFound) && s' == s
            else outcome == Done && s' == s.(rows := s.rows[id := row.(deleted := true)], audit := s.audit + [Deleted(id, row.task)])
    ensures var s', row := Tick(s, id, next), s.rows[id];
            && s'.audit == s.audit
            && s'.rows == if row.deleted || row.task.paused then s.rows else s.rows[id := row.(task := row.task.(nextFireAt := next))]
  {
    assert forall t: Task :: s.rows[id].(task := t) == Row(t, s.rows[id].deleted);
  }

  // ---------------------------------------------------------------- a stale prior row

  /**
   The edit's SELECT takes no lock, so another edit can commit between it and the UPDATE. Replay still
   gives the live row exactly when each patched column that equalled the row read still equals it.
   */
  lemma StaleReplayIff(current: Task, prior: Task, patch: Patch, next: Option<Instant>)
    ensures Overlay(current, After(patch, prior, next)) == Patched(current, patch, prior, next)
       <==> forall f :: f in patch && patch[f] == prior.Get(f) ==> current.Get(f) == prior.Get(f)
  {
    var replayed, live := Overlay(current, After(patch, prior, next)), Patched(current, patch, prior, next);
    hide Overlay, Patched, After, Task.Get, Changed;
    StaleField(current, prior, patch, next, Name);
    SameFields(replayed, live);
    forall f
      ensures replayed.Get(f) == live.Get(f) <==> (f in patch && patch[f] == prior.Get(f) ==> current.Get(f) == prior.Get(f))
    {
      StaleField(current, prior, patch, next, f);
      ChangedIs(patch, prior, f);
    }
  }

  lemma ChangedIs(patch: Patch, prior: Task, f: Field)
    ensures f in Changed(patch, prior) <==> f in patch && patch[f] != prior.Get(f)
  {
  }

  /** What replay and the UPDATE each leave in one field, and that they differ in nothing else. */
  lemma StaleField(current: Task, prior: Task, patch: Patch, next: Option<Instant>, f: Field)
    ensures var replayed, live := Overlay(current, After(patch, prior, next)), Patched(current, patch, prior, next);
            && live.Get(f) == (if f in patch then patch[f] else current.Get(f))
            && replayed.Get(f) == (if f in Changed(patch, prior) then patch[f] else current.Get(f))
            && replayed.nextFireAt == live.nextFireAt && replayed.paused == live.paused
            && replayed.department == live.department && replayed.mode == live.mode
  {
    var after := After(patch, prior, next);
    assert f in after.fields <==> f in Changed(patch, prior);
    hide Changed, After;
    match f {
      case Name =>
      case RoleSlug =>
      case ScheduleExpr =>
      case Objective =>
      case Acceptance =>
    }
  }

  lemma SameFields(a: Task, b: Task)
    requires a.(name := b.name, roleSlug := b.roleSlug, scheduleExpr := b.scheduleExpr, objective := b.objective,
                acceptance := b.acceptance) == b
    ensures a == b <==> forall f :: a.Get(f) == b.Get(f)
  {
    assert a.Get(Name) == a.name && a.Get(RoleSlug) == a.roleSlug && a.Get(ScheduleExpr) == a.scheduleExpr;
    assert a.Get(Objective) == a.objective && a.Get(Acceptance) == a.acceptance;
    assert b.Get(Name) == b.name && b.Get(RoleSlug) == b.roleSlug && b.Get(ScheduleExpr) == b.scheduleExpr;
    assert b.Get(Objective) == b.objective && b.Get(Acceptance) == b.acceptance;
  }

  /** And `before` still undoes the edit exactly when every patched column was as read, next_fire_at too if it moved. */
  lemma StaleUndoIff(current: Task, prior: Task, patch: Patch, next: Option<Instant>)
    requires ScheduleExpr in patch <==> next.Some?
    ensures Overlay(Patched(current, patch, prior, next), Before(patch, prior, next)) == current
       <==> (forall f :: f in patch ==> current.Get(f) == prior.Get(f))
            && (ScheduleExpr in Changed(patch, prior) ==> current.nextFireAt == prior.nextFireAt)
  {
    var undone := Overlay(Patched(current, patch, prior, next), Before(patch, prior, next));
    assert forall f :: undone.Get(f) == if f in patch then prior.Get(f) else current.Get(f);
    assert undone.nextFireAt == if ScheduleExpr in Changed(patch, prior) then prior.nextFireAt else current.nextFireAt;
    SameFields(undone.(nextFireAt := current.nextFireAt), current);
    hide Overlay, Patched, Before, Changed;
  }

  // ---------------------------------------------------------------- the actions, as the code runs them

  /** buildEditAuditDiff: one pass over the patch's entries, then next_fire_at. */
  method BuildEditAuditDiff(patch: Patch, prior: Task, nextFireAt: Option<Instant>) returns (before: Diff, after: Diff)
    requires nextFireAt.Some? ==> ScheduleExpr in patch
    ensures before == Before(patch, prior, nextFireAt) && after == After(patch, prior, nextFireAt)
  {
    var oldValues, newValues: map<Field, string> := map[], map[];
    var todo := patch.Keys;
    while todo != {}
      invariant todo <= patch.Keys
      invariant oldValues.Keys == newValues.Keys == Changed(patch, prior) - todo
      invariant forall f :: f in oldValues ==> oldValues[f] == prior.Get(f) && newValues[f] == patch[f]
      decreases todo
    {
      var field :| field in todo;
      todo := todo - {field};
      if prior.Get(field) != patch[field] {
        oldValues, newValues := oldValues[field := prior.Get(field)], newValues[field := patch[field]];
      }
    }
    if nextFireAt.Some? && patch[ScheduleExpr] != prior.scheduleExpr {
      before, after := Diff(oldValues, Some(prior.nextFireAt)), Diff(newValues, nextFireAt);
    } else {
      before, after := Diff(oldValues, None), Diff(newValues, None);
    }
  }

  class ScheduledTasks {
    var rows: map<TaskId, Row>
    var audit: seq<AuditRow>
    ghost var ticked: set<TaskId>

    ghost function Abs(): State
      reads this
    {
      State(rows, audit, ticked)
    }

    constructor ()
      ensures Abs() == INIT
    {
      rows, audit, ticked := map[], [], {};
    }

    /** The unique index, as the insert or update meets it. */
    method CollidesWithLiveName(id: TaskId, name: string) returns (taken: bool)
      ensures taken == NameTaken(Abs(), id, name)
    {
      taken := exists other :: other in rows && !rows[other].deleted && other != id && rows[other].task.name == name;
      assert forall other :: other in rows ==> (Live(Abs(), other) <==> !rows[other].deleted);
    }

    method CreateScheduledTask(id: TaskId, input: Task, validated: Validated) returns (outcome: Outcome)
      modifies this
      ensures (Abs(), outcome) == Create(old(Abs()), id, input, validated)
    {
      hide Trim, NameTaken;
      var name, role, mode, expr := Trim(input.name), Trim(input.roleSlug), Trim(input.mode), Trim(input.scheduleExpr);
      if name == "" || role == "" || mode !in {"ticket", "oneshot"} {
        return Failure(ValidationFailed);
      }
      if Trim(input.objective) == "" || Trim(input.acceptance) == "" {
        return Failure(ValidationFailed);
      }
      if validated.Refused? {
        return Failure(validated.kind);
      }
      if id in rows {
        return Failure(InternalError);
      }
      var taken := CollidesWithLiveName(id, name);
      if taken {
        return Failure(ValidationFailed);
      }
      var task := Task(name, role, expr, input.objective, input.acceptance, input.department, mode, validated.nextFireAt, false);
      rows := rows[id := Row(task, false)];
      audit := audit + [Created(id, task)];
      ticked := ticked - {id};
      outcome := Done;
    }

    method RunEditTransaction(id: TaskId, patch: Patch, nextFireAt: Option<Instant>) returns (outcome: Outcome)
      requires nextFireAt.Some? ==> ScheduleExpr in patch
      modifies this
      ensures if Live(old(Abs()), id) then (Abs(), outcome) == EditTx(old(Abs()), id, old(rows)[id].task, patch, nextFireAt)
              else Abs() == old(Abs()) && outcome == Failure(NotFound)
    {
      hide NameTaken, Overlay, Before, After;
      if id !in rows || rows[id].deleted {
        return Failure(NotFound);
      }
      var prior := rows[id].task;
      var before, after := BuildEditAuditDiff(patch, prior, nextFireAt);
      if Name in patch {
        var taken := CollidesWithLiveName(id, patch[Name]);
        if taken {
          return Failure(ValidationFailed);
        }
      }
      var moves := nextFireAt.Some? && patch[ScheduleExpr] != prior.scheduleExpr;
      rows := rows[id := rows[id].(task := Overlay(prior, Diff(patch, if moves then nextFireAt else None)))];
      audit := audit + [Edited(id, before, after)];
      if moves {
        ticked := ticked - {id};
      }
      outcome := Done;
    }

    method EditScheduledTask(id: TaskId, input: Patch, validated: Validated) returns (outcome: Outcome)
      modifies this
      ensures (Abs(), outcome) == Edit(old(Abs()), id, input, validated)
    {
      hide EditTx;
      var patch := EditPatch(input);
      if patch.None? {
        return Failure(ValidationFailed);
      }
      if id !in rows || rows[id].deleted {
        return Failure(NotFound);
      }
      if validated.Refused? {
        return Failure(validated.kind);
      }
      outcome := RunEditTransaction(id, patch.value, if ScheduleExpr in input then Some(validated.nextFireAt) else None);
    }

    method PauseScheduledTask(id: TaskId) returns (outcome: Outcome)
      modifies this
      ensures (Abs(), outcome) == Pause(old(Abs()), id)
    {
      if id !in rows || rows[id].deleted {
        return Failure(NotFound);
      }
      if rows[id].task.paused {
        return Failure(ValidationFailed);
      }
      audit := audit + [PausedRow(id, rows[id].task.name)];
      rows := rows[id := rows[id].(task := rows[id].task.(paused := true))];
      outcome := Done;
    }

    /** The transaction of a resume, which any other transaction may precede after the check. */
    method RunResumeTransaction(id: TaskId, next: Instant) returns (outcome: Outcome)
      modifies this
      ensures (Abs(), outcome) == ResumeTx(old(Abs()), id, next)
    {
      if id !in rows || rows[id].deleted {
        return Failure(NotFound);
      }
      var prior := rows[id].task;
      rows := rows[id := rows[id].(task := prior.(paused := false, nextFireAt := next))];
      audit := audit + [ResumedRow(id, prior.name, next)];
      ticked := ticked - {id};
      outcome := Done;
    }

    method ResumeScheduledTask(id: TaskId, validated: Validated) returns (outcome: Outcome)
      modifies this
      ensures (Abs(), outcome) == Resume(old(Abs()), id, validated)
    {
      if id !in rows || rows[id].deleted {
        return Failure(NotFound);
      }
      if !rows[id].task.paused {
        return Failure(ValidationFailed);
      }
      if validated.Refused? {
        return Failure(validated.kind);
      }
      outcome := RunResumeTransaction(id, validated.nextFireAt);
    }

    method DeleteScheduledTask(id: TaskId) returns (outcome: Outcome)
      modifies this
      ensures (Abs(), outcome) == Delete(old(Abs()), id)
    {
      if id !in rows || rows[id].deleted {
        return Failure(NotFound);
      }
      audit := audit + [Deleted(id, rows[id].task)];
      rows := rows[id := rows[id].(deleted := true)];
      outcome := Done;
    }
  }
}
