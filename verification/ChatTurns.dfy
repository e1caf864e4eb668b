/**
 The life of chat turns (supervisor/internal/chat/worker.go, listener.go, persistence.go,
 migrations/queries/chat.sql and dashboard/lib/actions/chat.ts). Operator sends, turn workers,
 the orphan sweep, session endings and deletions interleave; nothing but the uniqueness of
 (session, turn index) and the in-process per-session mutex stands between them.

 Each step is one statement or transaction of one of them; a step its actor is not ready for, or
 that a held mutex blocks, changes nothing.
 */
module ChatTurns {

  type SessionId = nat
  type ActorId = nat

  datatype Role = Operator | Assistant

  datatype Status = Active | Ended | Aborted

  /**
   `rows` is keyed by turn index. `total` is total_cost_usd; `rolled` lists the costs rolled up into
   it, and `last` is the part rolled up by the most recently spawned turn.
   */
  datatype Session = Session(status: Status, rows: map<nat, Role>, total: int, last: int, rolled: seq<int>)

  /** Where a sendChatMessage call is: it retries once. */
  datatype Sending = Checked(session: SessionId, attempt: nat) | NextRead(session: SessionId, attempt: nat, next: nat)

  /** Where a HandleMessageInSession call that holds the session's mutex is; `turn` is the operator row's index. */
  datatype Work =
    | Locked(session: SessionId, turn: nat)
    | Cleared(session: SessionId, turn: nat)   // active and below the cap
    | Refused(session: SessionId, turn: nat)   // a failed row will be written instead
    | Running(session: SessionId, turn: nat)

  datatype Orphan = Orphan(session: SessionId, turn: nat)

  datatype State = State(
    sessions: map<SessionId, Session>,
    used: set<SessionId>,
    senders: map<ActorId, Sending>,
    workers: map<ActorId, Work>,
    mutexes: map<SessionId, ActorId>,
    sweepers: map<ActorId, Orphan>)

  datatype Step =
    | StartSession(session: SessionId)
    | CreateEmptySession(session: SessionId)
    | CloseSession(session: SessionId, status: Status)
    | DeleteSession(session: SessionId)
    | SendCheck(op: ActorId, session: SessionId)
    | SendRead(op: ActorId, next: nat)
    | SendInsert(op: ActorId)
    | Lock(w: ActorId, session: SessionId, turn: nat)
    | Check(w: ActorId)
    | Insert(w: ActorId)
    | Result(w: ActorId, cost: int, committed: bool)
    | Release(w: ActorId)
    | FindOrphan(w: ActorId, session: SessionId, turn: nat)
    | WriteOrphan(w: ActorId, committed: bool)

  const INIT: State := State(map[], {}, map[], map[], map[], map[])

  // ---------------------------------------------------------------- the steps

  /** COALESCE(MAX(turn_index), -1) + 1. */
  predicate IsNext(rows: map<nat, Role>, next: nat) {
    (forall i :: i in rows ==> i < next) && (next > 0 ==> next - 1 in rows)
  }

  /** The insert the foreign key and the unique constraint let through. */
  predicate Insertable(s: State, session: SessionId, turn: nat) {
    session in s.sessions && turn !in s.sessions[session].rows
  }

  function WithRow(s: State, session: SessionId, turn: nat, role: Role): State
    requires session in s.sessions
  {
    var sess := s.sessions[session];
    s.(sessions := s.sessions[session := sess.(rows := sess.rows[turn := role])])
  }

  function NewSession(s: State, session: SessionId, rows: map<nat, Role>): State {
    if session in s.used then s
    else s.(sessions := s.sessions[session := Session(Active, rows, 0, 0, [])], used := s.used + {session})
  }

  function Close(s: State, session: SessionId, status: Status): State {
    if session in s.sessions && s.sessions[session].status == Active
    then s.(sessions := s.sessions[session := s.sessions[session].(status := status)])
    else s
  }

  function SendCheckStep(s: State, op: ActorId, session: SessionId): State {
    if op !in s.senders && session in s.sessions && s.sessions[session].status == Active
    then s.(senders := s.senders[op := Checked(session, 0)])
    else s
  }

  function SendReadStep(s: State, op: ActorId, next: nat): State {
    if op in s.senders && s.senders[op].Checked? then
      var Checked(session, attempt) := s.senders[op];
      if (if session in s.sessions then IsNext(s.sessions[session].rows, next) else next == 0)
      then s.(senders := s.senders[op := NextRead(session, attempt, next)])
      else s
    else s
  }

  /** A collision is retried once; any other failure, and a second collision, ends the call. */
  function SendInsertStep(s: State, op: ActorId): State {
    if op in s.senders && s.senders[op].NextRead? then
      var NextRead(session, attempt, next) := s.senders[op];
      if Insertable(s, session, next) then WithRow(s, session, next, Operator).(senders := s.senders - {op})
      else if session in s.sessions && attempt == 0 then s.(senders := s.senders[op := Checked(session, 1)])
      else s.(senders := s.senders - {op})
    else s
  }

  predicate IsOperatorRow(s: State, session: SessionId, turn: nat) {
    && session in s.sessions && turn in s.sessions[session].rows
    && s.sessions[session].rows[turn] == Operator
  }

  function LockStep(s: State, w: ActorId, session: SessionId, turn: nat): State {
    if w !in s.workers && session !in s.mutexes && IsOperatorRow(s, session, turn)
    then s.(workers := s.workers[w := Locked(session, turn)], mutexes := s.mutexes[session := w])
    else s
  }

  /** EnsureActiveSession and EnsureCostCapNotExceeded; a cap that is not positive disables the check. */
  predicate MaySpawn(cap: int, sess: Session) {
    sess.status == Active && (cap <= 0 || sess.total < cap)
  }

  function CheckStep(cap: int, s: State, w: ActorId): State {
    if w in s.workers && s.workers[w].Locked? then
      var Locked(session, turn) := s.workers[w];
      s.(workers := s.workers[w := if session in s.sessions && MaySpawn(cap, s.sessions[session])
                                   then Cleared(session, turn) else Refused(session, turn)])
    else s
  }

  function Released(s: State, w: ActorId): State
    requires w in s.workers
  {
    s.(workers := s.workers - {w}, mutexes := s.mutexes - {s.workers[w].session})
  }

  function InsertStep(s: State, w: ActorId): State {
    if w in s.workers && (s.workers[w].Cleared? || s.workers[w].Refused?) then
      var (session, turn) := (s.workers[w].session, s.workers[w].turn);
      if !Insertable(s, session, turn + 1) then Released(s, w)
      else
        var s' := WithRow(s, session, turn + 1, Assistant);
        if s.workers[w].Refused? then Released(s', w)
        else s'.(workers := s.workers[w := Running(session, turn)],
                 sessions := s'.sessions[session := s'.sessions[session].(last := 0)])
    else s
  }

  /** commitAssistantTerminal: the roll-up happens in the transaction that writes the answer. */
  function ResultStep(s: State, w: ActorId, cost: int, committed: bool): State {
    if w in s.workers && s.workers[w].Running? && committed && s.workers[w].session in s.sessions then
      var session := s.workers[w].session;
      var sess := s.sessions[session];
      s.(sessions := s.sessions[session := sess.(total := sess.total + cost, last := sess.last + cost,
                                                 rolled := sess.rolled + [cost])])
    else s
  }

  function FindOrphanStep(s: State, w: ActorId, session: SessionId, turn: nat): State {
    if w !in s.sweepers && IsOperatorRow(s, session, turn) && IsNext(s.sessions[session].rows, turn + 1)
       && s.sessions[session].status == Active
    then s.(sweepers := s.sweepers[w := Orphan(session, turn)])
    else s
  }

  function WriteOrphanStep(s: State, w: ActorId, committed: bool): State {
    if w in s.sweepers then
      var Orphan(session, turn) := s.sweepers[w];
      var rest := s.(sweepers := s.sweepers - {w});
      if committed && Insertable(s, session, turn + 1)
      then Close(WithRow(rest, session, turn + 1, Assistant), session, Aborted)
      else rest
    else s
  }

  function Apply(cap: int, s: State, step: Step): State {
    match step
    case StartSession(session) => NewSession(s, session, map[0 := Operator])
    case CreateEmptySession(session) => NewSession(s, session, map[])
    case CloseSession(session, status) => Close(s, session, status)
    case DeleteSession(session) => s.(sessions := s.sessions - {session})
    case SendCheck(op, session) => SendCheckStep(s, op, session)
    case SendRead(op, next) => SendReadStep(s, op, next)
    case SendInsert(op) => SendInsertStep(s, op)
    case Lock(w, session, turn) => LockStep(s, w, session, turn)
    case Check(w) => CheckStep(cap, s, w)
    case Insert(w) => InsertStep(s, w)
    case Result(w, cost, committed) => ResultStep(s, w, cost, committed)
    case Release(w) => if w in s.workers then Released(s, w) else s
    case FindOrphan(w, session, turn) => FindOrphanStep(s, w, session, turn)
    case WriteOrphan(w, committed) => WriteOrphanStep(s, w, committed)
  }

  function Exec(cap: int, s: State, steps: seq<Step>): State
    decreases |steps|
  {
    if steps == [] then s else Exec(cap, Apply(cap, s, steps[0]), steps[1..])
  }

  // ---------------------------------------------------------------- the invariant

  function Sum(costs: seq<int>): int {
    if costs == [] then 0 else Sum(costs[..|costs| - 1]) + costs[|costs| - 1]
  }

  /** The indices are exactly 0 .. n - 1, and an assistant row directly follows an operator row. */
  ghost predicate TurnsSound(rows: map<nat, Role>) {
    && (forall i: nat :: i in rows <==> i < |rows|)
    && (forall i :: i in rows && rows[i] == Assistant ==> i > 0 && i - 1 in rows && rows[i - 1] == Operator)
  }

  predicate CostSound(cap: int, sess: Session) {
    && sess.total == Sum(sess.rolled)
    && (cap > 0 ==> sess.total < cap + sess.last)
  }

  ghost predicate SessionsSound(cap: int, s: State) {
    forall id :: id in s.sessions ==> id in s.used && TurnsSound(s.sessions[id].rows) && CostSound(cap, s.sessions[id])
  }

  ghost predicate MutexesMatch(s: State) {
    && (forall w :: w in s.workers ==> s.workers[w].session in s.mutexes && s.mutexes[s.workers[w].session] == w)
    && (forall id :: id in s.mutexes ==> s.mutexes[id] in s.workers && s.workers[s.mutexes[id]].session == id)
  }

  /** What survives, of what an actor once read, for as long as the session does. */
  predicate StillOperatorRow(s: State, session: SessionId, turn: nat) {
    session in s.used && (session in s.sessions ==> IsOperatorRow(s, session, turn))
  }

  predicate WorkKnows(cap: int, s: State, p: Work) {
    && StillOperatorRow(s, p.session, p.turn)
    && (p.Cleared? && cap > 0 && p.session in s.sessions ==> s.sessions[p.session].total < cap)
  }

  predicate SendKnows(s: State, p: Sending) {
    p.session in s.used && (p.NextRead? && p.session in s.sessions ==> p.next <= |s.sessions[p.session].rows|)
  }

  ghost predicate ActorsKnow(cap: int, s: State) {
    && (forall w :: w in s.workers ==> WorkKnows(cap, s, s.workers[w]))
    && (forall op :: op in s.senders ==> SendKnows(s, s.senders[op]))
    && (forall w :: w in s.sweepers ==> StillOperatorRow(s, s.sweepers[w].session, s.sweepers[w].turn))
  }

  ghost predicate Inv(cap: int, s: State) {
    SessionsSound(cap, s) && MutexesMatch(s) && ActorsKnow(cap, s)
  }

  // ---------------------------------------------------------------- every step keeps it

  lemma SessionFacts(cap: int, s: State, id: SessionId)
    requires Inv(cap, s) && id in s.sessions
    ensures id in s.used && TurnsSound(s.sessions[id].rows) && CostSound(cap, s.sessions[id])
  {
    hide TurnsSound, CostSound, MutexesMatch, ActorsKnow;
  }

  lemma WorkerFacts(cap: int, s: State, w: ActorId)
    requires Inv(cap, s) && w in s.workers
    ensures WorkKnows(cap, s, s.workers[w])
    ensures s.workers[w].session in s.mutexes && s.mutexes[s.workers[w].session] == w
  {
    hide SessionsSound, WorkKnows, SendKnows, StillOperatorRow;
  }

  lemma SenderFacts(cap: int, s: State, op: ActorId)
    requires Inv(cap, s) && op in s.senders
    ensures SendKnows(s, s.senders[op])
  {
    hide SessionsSound, MutexesMatch, WorkKnows, SendKnows, StillOperatorRow;
  }

  lemma SweeperFacts(cap: int, s: State, w: ActorId)
    requires Inv(cap, s) && w in s.sweepers
    ensures StillOperatorRow(s, s.sweepers[w].session, s.sweepers[w].turn)
  {
    hide SessionsSound, MutexesMatch, WorkKnows, SendKnows, StillOperatorRow;
  }

  /** `b` is `a` with more rows, perhaps. */
  predicate Grows(a: Session, b: Session) {
    |a.rows| <= |b.rows| && forall i :: i in a.rows ==> i in b.rows && b.rows[i] == a.rows[i]
  }

  /** Nobody is cleared to spawn on this session. */
  ghost predicate NoneCleared(s: State, id: SessionId) {
    forall w :: w in s.workers && s.workers[w].session == id ==> !s.workers[w].Cleared?
  }

  lemma GrownActorsKnow(cap: int, s: State, s': State, id: SessionId, sess: Session)
    requires ActorsKnow(cap, s) && id in s.sessions && Grows(s.sessions[id], sess)
    requires s' == s.(sessions := s.sessions[id := sess])
    requires sess.total == s.sessions[id].total || NoneCleared(s, id)
    ensures ActorsKnow(cap, s')
  {
    forall i, turn: nat | StillOperatorRow(s, i, turn)
      ensures StillOperatorRow(s', i, turn)
    {
    }
    hide StillOperatorRow, Grows;
    forall w | w in s'.workers
      ensures WorkKnows(cap, s', s'.workers[w])
    {
      assert WorkKnows(cap, s, s.workers[w]);
    }
    forall op | op in s'.senders
      ensures SendKnows(s', s'.senders[op])
    {
      assert SendKnows(s, s.senders[op]);
      assert |s.sessions[id].rows| <= |sess.rows| by { GrowsLonger(s.sessions[id], sess); }
    }
    hide WorkKnows, SendKnows;
  }

  lemma GrowsLonger(a: Session, b: Session)
    requires Grows(a, b)
    ensures |a.rows| <= |b.rows|
  {
  }

  /** One session changes, and only by growing; its total only if nobody is cleared to spawn on it. */
  lemma SessionReplaced(cap: int, s: State, s': State, id: SessionId, sess: Session)
    requires Inv(cap, s) && id in s.sessions && Grows(s.sessions[id], sess)
    requires s' == s.(sessions := s.sessions[id := sess])
    requires TurnsSound(sess.rows) && CostSound(cap, sess)
    requires sess.total == s.sessions[id].total || NoneCleared(s, id)
    ensures Inv(cap, s')
  {
    hide TurnsSound, CostSound, Grows, WorkKnows, SendKnows, NoneCleared, StillOperatorRow;
    GrownActorsKnow(cap, s, s', id, sess);
    hide ActorsKnow;
    assert MutexesMatch(s');
    hide MutexesMatch;
  }

  lemma RowAdded(rows: map<nat, Role>, turn: nat, role: Role)
    requires TurnsSound(rows) && turn !in rows && turn <= |rows|
    requires role == Assistant ==> turn > 0 && turn - 1 in rows && rows[turn - 1] == Operator
    ensures turn == |rows| && TurnsSound(rows[turn := role]) && |rows[turn := role]| == |rows| + 1
    ensures IsNext(rows, turn)
  {
    assert turn == |rows|;
    var rows' := rows[turn := role];
    assert |rows'| == |rows| + 1;
    forall i: nat
      ensures i in rows' <==> i < |rows'|
    {
      assert i in rows <==> i < |rows|;
    }
  }

  lemma InsertKeeps(cap: int, s: State, id: SessionId, turn: nat, role: Role)
    requires Inv(cap, s) && Insertable(s, id, turn) && turn <= |s.sessions[id].rows|
    requires role == Assistant ==> turn > 0 && IsOperatorRow(s, id, turn - 1)
    ensures Inv(cap, WithRow(s, id, turn, role))
  {
    SessionFacts(cap, s, id);
    RowAdded(s.sessions[id].rows, turn, role);
    hide TurnsSound, Inv;
    var sess := s.sessions[id].(rows := s.sessions[id].rows[turn := role]);
    assert CostSound(cap, sess) && Grows(s.sessions[id], sess);
    hide CostSound, Grows;
    SessionReplaced(cap, s, WithRow(s, id, turn, role), id, sess);
  }

  lemma CloseKeeps(cap: int, s: State, id: SessionId, status: Status)
    requires Inv(cap, s)
    ensures Inv(cap, Close(s, id, status))
  {
    hide TurnsSound, Inv;
    if id in s.sessions && s.sessions[id].status == Active {
      SessionFacts(cap, s, id);
      SessionReplaced(cap, s, Close(s, id, status), id, s.sessions[id].(status := status));
    }
  }

  /** Actors only know things about ids in use and, while they exist, the sessions they name. */
  lemma UnrelatedSession(cap: int, s: State, s': State)
    requires ActorsKnow(cap, s) && s.used <= s'.used
    requires s' == s.(sessions := s'.sessions, used := s'.used)
    requires forall id :: id in s.used && id in s'.sessions ==> id in s.sessions && s'.sessions[id] == s.sessions[id]
    ensures ActorsKnow(cap, s')
  {
    forall i, turn: nat | StillOperatorRow(s, i, turn)
      ensures StillOperatorRow(s', i, turn)
    {
    }
    forall w | w in s'.workers
      ensures WorkKnows(cap, s', s'.workers[w])
    {
      assert WorkKnows(cap, s, s.workers[w]);
    }
    forall op | op in s'.senders
      ensures SendKnows(s', s'.senders[op])
    {
      assert SendKnows(s, s.senders[op]);
    }
    hide StillOperatorRow, WorkKnows, SendKnows;
  }

  lemma FirstRows(rows: map<nat, Role>)
    requires rows == map[] || rows == map[0 := Operator]
    ensures TurnsSound(rows)
  {
  }

  lemma SameMutexes(s: State, s': State)
    requires MutexesMatch(s) && s'.workers == s.workers && s'.mutexes == s.mutexes
    ensures MutexesMatch(s')
  {
  }

  lemma NewSessionKeeps(cap: int, s: State, id: SessionId, rows: map<nat, Role>)
    requires Inv(cap, s) && (rows == map[] || rows == map[0 := Operator])
    ensures Inv(cap, NewSession(s, id, rows))
  {
    FirstRows(rows);
    assert CostSound(cap, Session(Active, rows, 0, 0, []));
    hide TurnsSound, CostSound, ActorsKnow, MutexesMatch;
    if id !in s.used {
      assert id !in s.sessions;
      var s' := NewSession(s, id, rows);
      UnrelatedSession(cap, s, s');
      SameMutexes(s, s');
      assert SessionsSound(cap, s');
    }
  }

  lemma DeleteKeeps(cap: int, s: State, id: SessionId)
    requires Inv(cap, s)
    ensures Inv(cap, s.(sessions := s.sessions - {id}))
  {
    hide TurnsSound, CostSound, ActorsKnow;
    UnrelatedSession(cap, s, s.(sessions := s.sessions - {id}));
  }

  lemma SenderMoves(cap: int, s: State, op: ActorId, p: Sending)
    requires Inv(cap, s) && SendKnows(s, p)
    ensures Inv(cap, s.(senders := s.senders[op := p]))
  {
    hide TurnsSound, CostSound, StillOperatorRow, IsOperatorRow;
    OthersKnow(cap, s, s.(senders := s.senders[op := p]));
  }

  lemma SenderLeaves(cap: int, s: State, op: ActorId)
    requires Inv(cap, s)
    ensures Inv(cap, s.(senders := s.senders - {op}))
  {
    hide TurnsSound, CostSound, StillOperatorRow, IsOperatorRow;
    OthersKnow(cap, s, s.(senders := s.senders - {op}));
  }

  /** With the same sessions, the same things are known. */
  lemma OthersKnow(cap: int, s: State, s': State)
    requires s'.sessions == s.sessions && s'.used == s.used
    ensures forall p :: WorkKnows(cap, s, p) <==> WorkKnows(cap, s', p)
    ensures forall p :: SendKnows(s, p) <==> SendKnows(s', p)
    ensures forall id, turn: nat :: StillOperatorRow(s, id, turn) <==> StillOperatorRow(s', id, turn)
  {
  }

  lemma NextIsCount(rows: map<nat, Role>, next: nat)
    requires TurnsSound(rows) && IsNext(rows, next)
    ensures next == |rows|
  {
    assert next in rows <==> next < |rows|;
    assert next > 0 ==> (next - 1 in rows <==> next - 1 < |rows|);
  }

  lemma SendReadKeeps(cap: int, s: State, op: ActorId, next: nat)
    requires Inv(cap, s)
    ensures Inv(cap, SendReadStep(s, op, next))
  {
    hide Inv, IsNext, TurnsSound;
    if op in s.senders && s.senders[op].Checked? && SendReadStep(s, op, next) != s {
      var Checked(id, attempt) := s.senders[op];
      SenderFacts(cap, s, op);
      if id in s.sessions {
        SessionFacts(cap, s, id);
        NextIsCount(s.sessions[id].rows, next);
      }
      SenderMoves(cap, s, op, NextRead(id, attempt, next));
    }
  }

  lemma SendInsertKeeps(cap: int, s: State, op: ActorId)
    requires Inv(cap, s)
    ensures Inv(cap, SendInsertStep(s, op))
  {
    hide Inv;
    if op in s.senders && s.senders[op].NextRead? {
      var NextRead(id, attempt, next) := s.senders[op];
      SenderFacts(cap, s, op);
      SenderLeaves(cap, s, op);
      var rest := s.(senders := s.senders - {op});
      if Insertable(s, id, next) {
        InsertKeeps(cap, rest, id, next, Operator);
        assert SendInsertStep(s, op) == WithRow(rest, id, next, Operator);
      } else if id in s.sessions && attempt == 0 {
        SenderMoves(cap, s, op, Checked(id, 1));
      }
    }
  }

  lemma SendCheckKeeps(cap: int, s: State, op: ActorId, id: SessionId)
    requires Inv(cap, s)
    ensures Inv(cap, SendCheckStep(s, op, id))
  {
    hide Inv;
    if id in s.sessions {
      SessionFacts(cap, s, id);
      SenderMoves(cap, s, op, Checked(id, 0));
    }
  }

  lemma WorkerMoves(cap: int, s: State, w: ActorId, p: Work)
    requires Inv(cap, s) && w in s.workers && p.session == s.workers[w].session && WorkKnows(cap, s, p)
    ensures Inv(cap, s.(workers := s.workers[w := p]))
  {
    hide TurnsSound, CostSound, WorkKnows, SendKnows, StillOperatorRow;
    var s' := s.(workers := s.workers[w := p]);
    OthersKnow(cap, s, s');
    assert MutexesMatch(s');
    hide MutexesMatch;
  }

  lemma WorkerLocks(cap: int, s: State, w: ActorId, p: Work)
    requires Inv(cap, s) && w !in s.workers && p.session !in s.mutexes && WorkKnows(cap, s, p)
    ensures Inv(cap, s.(workers := s.workers[w := p], mutexes := s.mutexes[p.session := w]))
  {
    hide TurnsSound, CostSound, WorkKnows, SendKnows, StillOperatorRow;
    var s' := s.(workers := s.workers[w := p], mutexes := s.mutexes[p.session := w]);
    OthersKnow(cap, s, s');
    assert MutexesMatch(s');
    hide MutexesMatch;
  }

  lemma ReleaseKeeps(cap: int, s: State, w: ActorId)
    requires Inv(cap, s) && w in s.workers
    ensures Inv(cap, Released(s, w))
  {
    hide TurnsSound, CostSound, WorkKnows, SendKnows, StillOperatorRow;
    var s' := Released(s, w);
    OthersKnow(cap, s, s');
    assert MutexesMatch(s');
    hide MutexesMatch;
  }

  lemma LockKeeps(cap: int, s: State, w: ActorId, id: SessionId, turn: nat)
    requires Inv(cap, s)
    ensures Inv(cap, LockStep(s, w, id, turn))
  {
    hide Inv;
    if w !in s.workers && id !in s.mutexes && IsOperatorRow(s, id, turn) {
      SessionFacts(cap, s, id);
      WorkerLocks(cap, s, w, Locked(id, turn));
    }
  }

  lemma CheckKeeps(cap: int, s: State, w: ActorId)
    requires Inv(cap, s)
    ensures Inv(cap, CheckStep(cap, s, w))
  {
    hide Inv;
    if w in s.workers && s.workers[w].Locked? {
      var Locked(id, turn) := s.workers[w];
      WorkerFacts(cap, s, w);
      WorkerMoves(cap, s, w, if id in s.sessions && MaySpawn(cap, s.sessions[id]) then Cleared(id, turn) else Refused(id, turn));
    }
  }

  lemma SpawnKeeps(cap: int, s: State, w: ActorId)
    requires Inv(cap, s) && w in s.workers && s.workers[w].Cleared?
    requires Insertable(s, s.workers[w].session, s.workers[w].turn + 1)
    ensures Inv(cap, InsertStep(s, w))
  {
    hide Inv, TurnsSound;
    var Cleared(id, turn) := s.workers[w];
    WorkerFacts(cap, s, w);
    SessionFacts(cap, s, id);
    TurnExists(cap, s, id, turn);
    RowAdded(s.sessions[id].rows, turn + 1, Assistant);
    var sess := s.sessions[id].(rows := s.sessions[id].rows[turn + 1 := Assistant], last := 0);
    assert CostSound(cap, sess) && Grows(s.sessions[id], sess);
    hide CostSound, Grows, WorkKnows;
    var s1 := s.(sessions := s.sessions[id := sess]);
    SessionReplaced(cap, s, s1, id, sess);
    SpawnedKnows(cap, s, w, s1);
    WorkerMoves(cap, s1, w, Running(id, turn));
    assert InsertStep(s, w).sessions == s1.sessions;
  }

  lemma SpawnedKnows(cap: int, s: State, w: ActorId, s1: State)
    requires Inv(cap, s1) && w in s.workers && s1.workers == s.workers && s.workers[w].Cleared?
    ensures WorkKnows(cap, s1, Running(s.workers[w].session, s.workers[w].turn))
  {
    WorkerFacts(cap, s1, w);
    hide Inv;
  }

  lemma TurnExists(cap: int, s: State, id: SessionId, turn: nat)
    requires Inv(cap, s) && IsOperatorRow(s, id, turn)
    ensures turn + 1 <= |s.sessions[id].rows|
  {
    SessionFacts(cap, s, id);
    hide Inv;
    assert turn in s.sessions[id].rows;
  }

  lemma InsertStepKeeps(cap: int, s: State, w: ActorId)
    requires Inv(cap, s)
    ensures Inv(cap, InsertStep(s, w))
  {
    hide Inv, TurnsSound;
    if w in s.workers && (s.workers[w].Cleared? || s.workers[w].Refused?) {
      var id, turn := s.workers[w].session, s.workers[w].turn;
      WorkerFacts(cap, s, w);
      if !Insertable(s, id, turn + 1) {
        ReleaseKeeps(cap, s, w);
      } else if s.workers[w].Cleared? {
        SpawnKeeps(cap, s, w);
      } else {
        TurnExists(cap, s, id, turn);
        InsertKeeps(cap, s, id, turn + 1, Assistant);
        ReleaseKeeps(cap, WithRow(s, id, turn + 1, Assistant), w);
      }
    }
  }

  lemma ResultKeeps(cap: int, s: State, w: ActorId, cost: int, committed: bool)
    requires Inv(cap, s)
    ensures Inv(cap, ResultStep(s, w, cost, committed))
  {
    hide Inv, TurnsSound;
    if w in s.workers && s.workers[w].Running? && committed && s.workers[w].session in s.sessions {
      var id := s.workers[w].session;
      var before := s.sessions[id];
      var sess := before.(total := before.total + cost, last := before.last + cost, rolled := before.rolled + [cost]);
      assert sess.rolled[..|before.rolled|] == before.rolled;
      SessionFacts(cap, s, id);
      forall v | v in s.workers && s.workers[v].session == id
        ensures !s.workers[v].Cleared?
      {
        WorkerFacts(cap, s, v);
        WorkerFacts(cap, s, w);
      }
      SessionReplaced(cap, s, ResultStep(s, w, cost, committed), id, sess);
    }
  }

  lemma SweeperMoves(cap: int, s: State, w: ActorId, p: Orphan)
    requires Inv(cap, s) && StillOperatorRow(s, p.session, p.turn)
    ensures Inv(cap, s.(sweepers := s.sweepers[w := p]))
  {
    hide TurnsSound, CostSound, StillOperatorRow, WorkKnows, SendKnows;
    OthersKnow(cap, s, s.(sweepers := s.sweepers[w := p]));
  }

  lemma SweeperLeaves(cap: int, s: State, w: ActorId)
    requires Inv(cap, s)
    ensures Inv(cap, s.(sweepers := s.sweepers - {w}))
  {
    hide TurnsSound, CostSound, StillOperatorRow, WorkKnows, SendKnows;
    OthersKnow(cap, s, s.(sweepers := s.sweepers - {w}));
  }

  lemma FindOrphanKeeps(cap: int, s: State, w: ActorId, id: SessionId, turn: nat)
    requires Inv(cap, s)
    ensures Inv(cap, FindOrphanStep(s, w, id, turn))
  {
    hide Inv, IsNext;
    if IsOperatorRow(s, id, turn) {
      SessionFacts(cap, s, id);
      SweeperMoves(cap, s, w, Orphan(id, turn));
    }
  }

  lemma WriteOrphanKeeps(cap: int, s: State, w: ActorId, committed: bool)
    requires Inv(cap, s)
    ensures Inv(cap, WriteOrphanStep(s, w, committed))
  {
    hide Inv, TurnsSound, Close;
    if w in s.sweepers {
      var Orphan(id, turn) := s.sweepers[w];
      var rest := s.(sweepers := s.sweepers - {w});
      SweeperFacts(cap, s, w);
      SweeperLeaves(cap, s, w);
      if committed && Insertable(s, id, turn + 1) {
        TurnExists(cap, s, id, turn);
        InsertKeeps(cap, rest, id, turn + 1, Assistant);
        CloseKeeps(cap, WithRow(rest, id, turn + 1, Assistant), id, Aborted);
      }
    }
  }

  lemma StepKeeps(cap: int, s: State, step: Step)
    requires Inv(cap, s)
    ensures Inv(cap, Apply(cap, s, step))
  {
    hide Inv, NewSession, Close, InsertStep, ResultStep, Released, SendCheckStep, SendReadStep, SendInsertStep,
         LockStep, CheckStep, FindOrphanStep, WriteOrphanStep;
    match step {
      case StartSession(session) => NewSessionKeeps(cap, s, session, map[0 := Operator]);
      case CreateEmptySession(session) => NewSessionKeeps(cap, s, session, map[]);
      case CloseSession(session, status) => CloseKeeps(cap, s, session, status);
      case DeleteSession(session) => DeleteKeeps(cap, s, session);
      case SendCheck(op, session) => SendCheckKeeps(cap, s, op, session);
      case SendRead(op, next) => SendReadKeeps(cap, s, op, next);
      case SendInsert(op) => SendInsertKeeps(cap, s, op);
      case Lock(w, session, turn) => LockKeeps(cap, s, w, session, turn);
      case Check(w) => CheckKeeps(cap, s, w);
      case Insert(w) => InsertStepKeeps(cap, s, w);
      case Result(w, cost, committed) => ResultKeeps(cap, s, w, cost, committed);
      case Release(w) => if w in s.workers { ReleaseKeeps(cap, s, w); }
      case FindOrphan(w, session, turn) => FindOrphanKeeps(cap, s, w, session, turn);
      case WriteOrphan(w, committed) => WriteOrphanKeeps(cap, s, w, committed);
    }
  }

  lemma {:induction false} RunKeeps(cap: int, s: State, steps: seq<Step>)
    requires Inv(cap, s)
    ensures Inv(cap, Exec(cap, s, steps))
    decreases |steps|
  {
    hide Inv, Apply;
    if steps != [] {
      StepKeeps(cap, s, steps[0]);
      RunKeeps(cap, Apply(cap, s, steps[0]), steps[1..]);
    }
  }

  lemma Reachable(cap: int, steps: seq<Step>)
    ensures Inv(cap, Exec(cap, INIT, steps))
  {
    assert Inv(cap, INIT);
    hide Inv;
    RunKeeps(cap, INIT, steps);
  }
}
