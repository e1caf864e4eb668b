/** What every run of the chat turn protocol guarantees, and what it lets slip. */
module ChatTurnsSafety {
  import opened ChatTurns

  /**
   In every reachable state a session's turn indices are exactly 0 .. n - 1, and every assistant row
   directly follows an operator row, so an operator row has at most the one answer right after it.
   */
  lemma TurnsContiguous(cap: int, steps: seq<Step>, id: SessionId)
    requires id in Exec(cap, INIT, steps).sessions
    ensures var rows := Exec(cap, INIT, steps).sessions[id].rows;
            && (forall i: nat :: i in rows <==> i < |rows|)
            && (forall i :: i in rows && rows[i] == Assistant ==> i > 0 && i - 1 in rows && rows[i - 1] == Operator)
  {
    Reachable(cap, steps);
    SessionFacts(cap, Exec(cap, INIT, steps), id);
    hide Inv, Exec;
  }

  lemma InsertableIffNewest(cap: int, s: State, id: SessionId, turn: nat)
    requires Inv(cap, s) && IsOperatorRow(s, id, turn)
    ensures Insertable(s, id, turn + 1) <==> IsNext(s.sessions[id].rows, turn + 1)
  {
    SessionFacts(cap, s, id);
    TurnExists(cap, s, id, turn);
    hide Inv;
    if turn + 1 !in s.sessions[id].rows {
      RowAdded(s.sessions[id].rows, turn + 1, Assistant);
    }
  }

  /** A worker's answer row goes in exactly when its operator row is still the session's newest. */
  lemma AnsweredIffNewest(cap: int, s: State, w: ActorId)
    requires Inv(cap, s) && w in s.workers && (s.workers[w].Cleared? || s.workers[w].Refused?)
    requires s.workers[w].session in s.sessions
    ensures var id, turn := s.workers[w].session, s.workers[w].turn; var s' := InsertStep(s, w);
            && id in s'.sessions
            && s'.sessions[id].rows == (if IsNext(s.sessions[id].rows, turn + 1)
                                        then s.sessions[id].rows[turn + 1 := Assistant] else s.sessions[id].rows)
            && (w in s'.workers <==> IsNext(s.sessions[id].rows, turn + 1) && s.workers[w].Cleared?)
  {
    hide Inv, IsNext, InsertStep, Insertable;
    WorkerFacts(cap, s, w);
    InsertableIffNewest(cap, s, s.workers[w].session, s.workers[w].turn);
    InsertEffect(s, w);
  }

  lemma InsertEffect(s: State, w: ActorId)
    requires w in s.workers && (s.workers[w].Cleared? || s.workers[w].Refused?) && s.workers[w].session in s.sessions
    ensures var id, turn := s.workers[w].session, s.workers[w].turn; var s' := InsertStep(s, w);
            && id in s'.sessions
            && s'.sessions[id].rows == (if Insertable(s, id, turn + 1)
                                        then s.sessions[id].rows[turn + 1 := Assistant] else s.sessions[id].rows)
            && (w in s'.workers <==> Insertable(s, id, turn + 1) && s.workers[w].Cleared?)
  {
  }

  /** The same for the orphan sweep: however late it writes, it only ever answers the newest row. */
  lemma SweptIffNewest(cap: int, s: State, w: ActorId)
    requires Inv(cap, s) && w in s.sweepers && s.sweepers[w].session in s.sessions
    ensures var Orphan(id, turn) := s.sweepers[w]; var s' := WriteOrphanStep(s, w, true);
            && id in s'.sessions
            && s'.sessions[id].rows == (if IsNext(s.sessions[id].rows, turn + 1)
                                        then s.sessions[id].rows[turn + 1 := Assistant] else s.sessions[id].rows)
            && s'.sessions[id].status == (if IsNext(s.sessions[id].rows, turn + 1) && s.sessions[id].status == Active
                                          then Aborted else s.sessions[id].status)
  {
    hide Inv, IsNext, WriteOrphanStep, Insertable;
    SweeperFacts(cap, s, w);
    InsertableIffNewest(cap, s, s.sweepers[w].session, s.sweepers[w].turn);
    SweepEffect(s, w);
  }

  lemma SweepEffect(s: State, w: ActorId)
    requires w in s.sweepers && s.sweepers[w].session in s.sessions
    ensures var Orphan(id, turn) := s.sweepers[w]; var s' := WriteOrphanStep(s, w, true);
            && id in s'.sessions
            && s'.sessions[id].rows == (if Insertable(s, id, turn + 1)
                                        then s.sessions[id].rows[turn + 1 := Assistant] else s.sessions[id].rows)
            && s'.sessions[id].status == (if Insertable(s, id, turn + 1) && s.sessions[id].status == Active
                                          then Aborted else s.sessions[id].status)
  {
  }

  // ---------------------------------------------------------------- a session's beginning and end

  /** A session begins active and free of cost, with the operator's first row if it was started by one. */
  lemma SessionBegins(cap: int, s: State, id: SessionId)
    requires id !in s.used
    ensures var started, empty := Apply(cap, s, StartSession(id)), Apply(cap, s, CreateEmptySession(id));
            && started.sessions == s.sessions[id := Session(Active, map[0 := Operator], 0, 0, [])]
            && empty.sessions == s.sessions[id := Session(Active, map[], 0, 0, [])]
  {
  }

  /** A deleted session is gone at once, and no run ever brings its id back. */
  lemma {:induction false} DeletedForever(cap: int, s: State, steps: seq<Step>, id: SessionId)
    requires id in s.used
    ensures id !in Exec(cap, s, [DeleteSession(id)] + steps).sessions
  {
    hide Exec;
    var deleted := Apply(cap, s, DeleteSession(id));
    GoneForever(cap, deleted, steps, id);
    ExecFirst(cap, s, DeleteSession(id), steps);
  }

  lemma ExecFirst(cap: int, s: State, step: Step, steps: seq<Step>)
    ensures Exec(cap, s, [step] + steps) == Exec(cap, Apply(cap, s, step), steps)
  {
    assert ([step] + steps)[1..] == steps;
  }

  // ---------------------------------------------------------------- unanswered turns

  /** While the session exists the row is there, with its role; once gone its id is never used again. */
  predicate RowKept(s: State, s': State, id: SessionId, turn: nat) {
    && id in s.sessions && turn in s.sessions[id].rows && id in s'.used
    && (id in s'.sessions ==> turn in s'.sessions[id].rows && s'.sessions[id].rows[turn] == s.sessions[id].rows[turn])
  }

  lemma InsertKeepsRow(s: State, at: SessionId, index: nat, role: Role, id: SessionId, turn: nat)
    requires Insertable(s, at, index) && RowKept(s, s, id, turn)
    ensures RowKept(s, WithRow(s, at, index, role), id, turn)
  {
  }

  lemma SessionsOnly(s: State, s': State, t: State, id: SessionId, turn: nat)
    requires RowKept(s, s', id, turn) && t.used == s'.used
    requires t.sessions.Keys == s'.sessions.Keys
    requires forall i :: i in t.sessions ==> t.sessions[i].rows == s'.sessions[i].rows
    ensures RowKept(s, t, id, turn)
  {
  }

  lemma WorkerInsertKeepsRow(s: State, w: ActorId, id: SessionId, turn: nat)
    requires RowKept(s, s, id, turn)
    ensures RowKept(s, InsertStep(s, w), id, turn)
  {
    if w in s.workers && (s.workers[w].Cleared? || s.workers[w].Refused?) {
      var at, index := s.workers[w].session, s.workers[w].turn + 1;
      if Insertable(s, at, index) {
        InsertKeepsRow(s, at, index, Assistant, id, turn);
        hide RowKept;
        SessionsOnly(s, WithRow(s, at, index, Assistant), InsertStep(s, w), id, turn);
      }
    }
  }

  lemma SweepKeepsRow(s: State, w: ActorId, committed: bool, id: SessionId, turn: nat)
    requires RowKept(s, s, id, turn)
    ensures RowKept(s, WriteOrphanStep(s, w, committed), id, turn)
  {
    if w in s.sweepers && committed && Insertable(s, s.sweepers[w].session, s.sweepers[w].turn + 1) {
      var at, index := s.sweepers[w].session, s.sweepers[w].turn + 1;
      InsertKeepsRow(s, at, index, Assistant, id, turn);
      hide RowKept;
      SessionsOnly(s, WithRow(s, at, index, Assistant), WriteOrphanStep(s, w, committed), id, turn);
    }
  }

  lemma SendKeepsRow(s: State, op: ActorId, id: SessionId, turn: nat)
    requires RowKept(s, s, id, turn)
    ensures RowKept(s, SendInsertStep(s, op), id, turn)
  {
    if op in s.senders && s.senders[op].NextRead? && Insertable(s, s.senders[op].session, s.senders[op].next) {
      InsertKeepsRow(s, s.senders[op].session, s.senders[op].next, Operator, id, turn);
    }
  }

  lemma RowStays(cap: int, s: State, step: Step, id: SessionId, turn: nat)
    requires RowKept(s, s, id, turn)
    ensures RowKept(s, Apply(cap, s, step), id, turn)
  {
    hide InsertStep, WriteOrphanStep, SendInsertStep, MaySpawn, IsNext, IsOperatorRow;
    match step {
      case SendInsert(op) => SendKeepsRow(s, op, id, turn);
      case Insert(w) => WorkerInsertKeepsRow(s, w, id, turn);
      case WriteOrphan(w, committed) => SweepKeepsRow(s, w, committed, id, turn);
      case _ =>
    }
  }

  lemma GoneStays(cap: int, s: State, step: Step, id: SessionId)
    requires id in s.used && id !in s.sessions
    ensures id in Apply(cap, s, step).used && id !in Apply(cap, s, step).sessions
  {
    hide IsNext, MaySpawn;
  }

  /** Over any run: what a row is, it stays. */
  lemma {:induction false} RowForever(cap: int, s: State, steps: seq<Step>, id: SessionId, turn: nat)
    requires id in s.sessions && id in s.used && turn in s.sessions[id].rows
    ensures var s' := Exec(cap, s, steps);
            id in s'.sessions ==> turn in s'.sessions[id].rows && s'.sessions[id].rows[turn] == s.sessions[id].rows[turn]
    decreases |steps|
  {
    hide Apply;
    if steps != [] {
      RowStays(cap, s, steps[0], id, turn);
      if id in Apply(cap, s, steps[0]).sessions {
        RowForever(cap, Apply(cap, s, steps[0]), steps[1..], id, turn);
      } else {
        GoneForever(cap, Apply(cap, s, steps[0]), steps[1..], id);
      }
    }
  }

  lemma {:induction false} GoneForever(cap: int, s: State, steps: seq<Step>, id: SessionId)
    requires id in s.used && id !in s.sessions
    ensures id !in Exec(cap, s, steps).sessions
    decreases |steps|
  {
    hide Apply;
    if steps != [] {
      GoneStays(cap, s, steps[0], id);
      GoneForever(cap, Apply(cap, s, steps[0]), steps[1..], id);
    }
  }

  /**
   The price of the turn index: an operator row directly followed by another operator row is never
   answered, by any later worker or sweep, in any run.
   */
  lemma {:induction false} FollowedRowNeverAnswered(cap: int, s: State, steps: seq<Step>, id: SessionId, turn: nat)
    requires Inv(cap, s) && IsOperatorRow(s, id, turn) && IsOperatorRow(s, id, turn + 1)
    ensures var s' := Exec(cap, s, steps);
            id in s'.sessions ==> turn + 1 in s'.sessions[id].rows && s'.sessions[id].rows[turn + 1] == Operator
  {
    SessionFacts(cap, s, id);
    hide Inv, Exec;
    RowForever(cap, s, steps, id, turn + 1);
  }

  /** And two sends in a row before a worker locks are all it takes. */
  lemma TwoSendsInARow(cap: int, s: State, id: SessionId, op: ActorId)
    requires Inv(cap, s) && id in s.sessions && s.sessions[id].status == Active && op !in s.senders
    ensures var n := |s.sessions[id].rows|;
            var once := [SendCheck(op, id), SendRead(op, n), SendInsert(op)];
            var twice := [SendCheck(op, id), SendRead(op, n + 1), SendInsert(op)];
            var s' := Exec(cap, Exec(cap, s, once), twice);
            IsOperatorRow(s', id, n) && IsOperatorRow(s', id, n + 1) && s'.workers == s.workers
  {
    hide Inv, Exec, TurnsSound;
    var n := |s.sessions[id].rows|;
    SendRun(cap, s, id, op);
    SessionFacts(cap, s, id);
    RowAdded(s.sessions[id].rows, n, Operator) by { CountIsNext(s.sessions[id].rows); }
    InsertKeeps(cap, s, id, n, Operator) by { CountIsNext(s.sessions[id].rows); }
    SendRun(cap, WithRow(s, id, n, Operator), id, op);
  }

  lemma SendRun(cap: int, s: State, id: SessionId, op: ActorId)
    requires Inv(cap, s) && id in s.sessions && s.sessions[id].status == Active && op !in s.senders
    ensures var n := |s.sessions[id].rows|;
            Exec(cap, s, [SendCheck(op, id), SendRead(op, n), SendInsert(op)]) == WithRow(s, id, n, Operator)
  {
    SessionFacts(cap, s, id);
    hide Inv;
    var rows, n := s.sessions[id].rows, |s.sessions[id].rows|;
    CountIsNext(rows);
    hide TurnsSound;
    SendSteps(s, id, op, n);
    hide SendCheckStep, SendReadStep, SendInsertStep, WithRow;
    Exec3(cap, s, SendCheck(op, id), SendRead(op, n), SendInsert(op));
  }

  lemma SendSteps(s: State, id: SessionId, op: ActorId, n: nat)
    requires id in s.sessions && s.sessions[id].status == Active && op !in s.senders
    requires IsNext(s.sessions[id].rows, n) && n !in s.sessions[id].rows
    ensures SendInsertStep(SendReadStep(SendCheckStep(s, op, id), op, n), op) == WithRow(s, id, n, Operator)
  {
    hide IsNext;
    var s1 := SendCheckStep(s, op, id);
    assert s1 == s.(senders := s.senders[op := Checked(id, 0)]);
    var s2 := SendReadStep(s1, op, n);
    assert s2 == s.(senders := s.senders[op := NextRead(id, 0, n)]) by {
      assert s1.senders[op := NextRead(id, 0, n)] == s.senders[op := NextRead(id, 0, n)];
    }
    hide SendCheckStep, SendReadStep;
    assert s2.senders - {op} == s.senders;
  }

  lemma Exec3(cap: int, s: State, a: Step, b: Step, c: Step)
    ensures Exec(cap, s, [a, b, c]) == Apply(cap, Apply(cap, Apply(cap, s, a), b), c)
  {
    hide Apply;
    var s1 := Apply(cap, s, a);
    var s2 := Apply(cap, s1, b);
    assert [a, b, c][1..] == [b, c] && [b, c][1..] == [c] && [c][1..] == [];
    assert Exec(cap, s2, [c]) == Exec(cap, Apply(cap, s2, c), []);
    assert Exec(cap, s1, [b, c]) == Exec(cap, s2, [c]);
  }

  lemma CountIsNext(rows: map<nat, Role>)
    requires TurnsSound(rows)
    ensures IsNext(rows, |rows|) && |rows| !in rows
  {
    assert |rows| > 0 ==> (|rows| - 1 in rows <==> |rows| - 1 < |rows|);
  }

  // ---------------------------------------------------------------- the cost cap

  /** No two workers are ever inside the same session. */
  lemma OneWorkerPerSession(cap: int, steps: seq<Step>, v: ActorId, w: ActorId)
    requires var s := Exec(cap, INIT, steps); v in s.workers && w in s.workers && v != w
    ensures var s := Exec(cap, INIT, steps); s.workers[v].session != s.workers[w].session
  {
    Reachable(cap, steps);
    WorkerFacts(cap, Exec(cap, INIT, steps), v);
    WorkerFacts(cap, Exec(cap, INIT, steps), w);
    hide Inv, Exec;
  }

  /**
   The reactive cap as a bound: with it enabled, a session's total stays below the cap plus what its
   most recently spawned turn alone rolled up. The total is always the sum of everything rolled up.
   */
  lemma CostBounded(cap: int, steps: seq<Step>, id: SessionId)
    requires id in Exec(cap, INIT, steps).sessions
    ensures var sess := Exec(cap, INIT, steps).sessions[id];
            && sess.total == Sum(sess.rolled)
            && (cap > 0 ==> sess.total < cap + sess.last)
  {
    Reachable(cap, steps);
    SessionFacts(cap, Exec(cap, INIT, steps), id);
    hide Inv, Exec, TurnsSound;
  }

  /** A worker is cleared to spawn exactly when its session is there and active, and the cap is off or not reached. */
  lemma ClearedIff(cap: int, s: State, w: ActorId)
    requires w in s.workers && s.workers[w].Locked?
    ensures var Locked(id, turn) := s.workers[w]; var s' := Apply(cap, s, Check(w));
            && w in s'.workers && s'.sessions == s.sessions
            && s'.workers[w] == if id in s.sessions && s.sessions[id].status == Active && (cap <= 0 || s.sessions[id].total < cap)
                                then Cleared(id, turn) else Refused(id, turn)
  {
  }

  /** No worker inside this session has passed its check. */
  ghost predicate NoneSpawning(s: State, id: SessionId) {
    forall w :: w in s.workers && s.workers[w].session == id ==> s.workers[w].Locked? || s.workers[w].Refused?
  }

  /** The session is gone, or as it was but for its rows; and still no worker in it has passed its check. */
  ghost predicate StillClosed(s: State, s': State, id: SessionId)
    requires id in s.sessions
  {
    && NoneSpawning(s', id) && id in s'.used
    && (id in s'.sessions ==> s'.sessions[id] == s.sessions[id].(rows := s'.sessions[id].rows))
  }

  lemma ClosedInsert(s: State, w: ActorId, id: SessionId)
    requires id in s.sessions && id in s.used && s.sessions[id].status != Active && NoneSpawning(s, id)
    ensures StillClosed(s, InsertStep(s, w), id)
  {
  }

  lemma ClosedCheck(cap: int, s: State, w: ActorId, id: SessionId)
    requires id in s.sessions && id in s.used && s.sessions[id].status != Active && NoneSpawning(s, id)
    ensures StillClosed(s, CheckStep(cap, s, w), id)
  {
  }

  lemma ClosedResult(s: State, w: ActorId, cost: int, committed: bool, id: SessionId)
    requires id in s.sessions && id in s.used && s.sessions[id].status != Active && NoneSpawning(s, id)
    ensures StillClosed(s, ResultStep(s, w, cost, committed), id)
  {
  }

  lemma ClosedSweep(s: State, w: ActorId, committed: bool, id: SessionId)
    requires id in s.sessions && id in s.used && s.sessions[id].status != Active && NoneSpawning(s, id)
    ensures StillClosed(s, WriteOrphanStep(s, w, committed), id)
  {
  }

  lemma ClosedSend(s: State, op: ActorId, id: SessionId)
    requires id in s.sessions && id in s.used && s.sessions[id].status != Active && NoneSpawning(s, id)
    ensures StillClosed(s, SendInsertStep(s, op), id)
  {
  }

  lemma ClosedStep(cap: int, s: State, step: Step, id: SessionId)
    requires id in s.sessions && id in s.used && s.sessions[id].status != Active && NoneSpawning(s, id)
    ensures StillClosed(s, Apply(cap, s, step), id)
  {
    hide IsNext, MaySpawn, InsertStep, CheckStep, ResultStep, WriteOrphanStep, SendInsertStep;
    match step {
      case Insert(w) => ClosedInsert(s, w, id);
      case Check(w) => ClosedCheck(cap, s, w, id);
      case Result(w, cost, committed) => ClosedResult(s, w, cost, committed, id);
      case WriteOrphan(w, committed) => ClosedSweep(s, w, committed, id);
      case SendInsert(op) => ClosedSend(s, op, id);
      case _ =>
    }
  }

  /**
   A closed session stays as it was closed, and what turns checked after it closed cost is never rolled up
   into it: its total and everything in it stand still in every run, whatever rows are still added.
   */
  lemma {:induction false} ClosedGainsNothing(cap: int, s: State, steps: seq<Step>, id: SessionId)
    requires id in s.sessions && id in s.used && s.sessions[id].status != Active && NoneSpawning(s, id)
    ensures var s' := Exec(cap, s, steps);
            id in s'.sessions ==> && s'.sessions[id].status == s.sessions[id].status
                                  && s'.sessions[id].total == s.sessions[id].total
                                  && s'.sessions[id].rolled == s.sessions[id].rolled
    decreases |steps|
  {
    hide Apply, NoneSpawning;
    if steps != [] {
      ClosedStep(cap, s, steps[0], id);
      if id in Apply(cap, s, steps[0]).sessions {
        ClosedGainsNothing(cap, Apply(cap, s, steps[0]), steps[1..], id);
      } else {
        GoneForever(cap, Apply(cap, s, steps[0]), steps[1..], id);
      }
    }
  }

  /** A result whose transaction does not commit leaves no trace; one that does adds its cost, once. */
  lemma ResultMeans(cap: int, s: State, w: ActorId, cost: int)
    requires w in s.workers && s.workers[w].Running? && s.workers[w].session in s.sessions
    ensures Apply(cap, s, Result(w, cost, false)) == s
    ensures var id, s' := s.workers[w].session, Apply(cap, s, Result(w, cost, true));
            && s' == s.(sessions := s.sessions[id := s'.sessions[id]])
            && s'.sessions[id].total == s.sessions[id].total + cost
            && s'.sessions[id].rolled == s.sessions[id].rolled + [cost]
  {
  }

  // ---------------------------------------------------------------- sendChatMessage's steps

  /** A send starts on an active session only. */
  lemma SendStartsIff(cap: int, s: State, op: ActorId, id: SessionId)
    requires op !in s.senders
    ensures var s' := Apply(cap, s, SendCheck(op, id));
            if id in s.sessions && s.sessions[id].status == Active then op in s'.senders && s'.senders[op] == Checked(id, 0)
            else s' == s
  {
  }

  /** Its insert goes in where the index is still free; a collision sends it back to read once, and never twice. */
  lemma SendInsertMeans(cap: int, s: State, op: ActorId)
    requires op in s.senders && s.senders[op].NextRead?
    ensures var NextRead(id, attempt, next) := s.senders[op]; var s' := Apply(cap, s, SendInsert(op));
            && (id in s.sessions && next !in s.sessions[id].rows ==>
                  && id in s'.sessions && s'.sessions[id].rows == s.sessions[id].rows[next := Operator] && op !in s'.senders)
            && (id in s.sessions && next in s.sessions[id].rows ==>
                  && s'.sessions == s.sessions
                  && (if attempt == 0 then op in s'.senders && s'.senders[op] == Checked(id, 1) else op !in s'.senders))
            && (id !in s.sessions ==> s'.sessions == s.sessions && op !in s'.senders)
  {
  }

  /** The sweep's query finds an operator row exactly when it is the newest of an active session. */
  lemma OrphanFoundIff(cap: int, s: State, w: ActorId, id: SessionId, turn: nat)
    requires Inv(cap, s) && w !in s.sweepers
    ensures w in Apply(cap, s, FindOrphan(w, id, turn)).sweepers
       <==> id in s.sessions && s.sessions[id].status == Active && |s.sessions[id].rows| == turn + 1
            && turn in s.sessions[id].rows && s.sessions[id].rows[turn] == Operator
  {
    if id in s.sessions {
      SessionFacts(cap, s, id);
      hide Inv, TurnsSound;
      if IsNext(s.sessions[id].rows, turn + 1) {
        NextIsCount(s.sessions[id].rows, turn + 1) by { SessionFacts(cap, s, id); }
      }
      CountIsNext(s.sessions[id].rows);
    }
  }

  // ---------------------------------------------------------------- sendChatMessage's retry

  datatype Attempt = Sent | Collides | Breaks

  datatype SendOutcome = Delivered | AttemptError(a: Attempt) | TurnIndexCollision

  /**
   The retry loop. A send gets through exactly when its first attempt does, or collides and the second
   does; a second collision surfaces as the database's own error, never as TurnIndexCollision.
   */
  method SendWithRetry(attempts: nat -> Attempt) returns (r: SendOutcome)
    ensures r == Delivered <==> attempts(0) == Sent || (attempts(0) == Collides && attempts(1) == Sent)
    ensures r == AttemptError(Collides) <==> attempts(0) == Collides && attempts(1) == Collides
    ensures r != TurnIndexCollision
  {
    var attempt := 0;
    while attempt < 2
      invariant attempt <= 2
      invariant attempt >= 1 ==> attempts(0) == Collides
      invariant attempt < 2
    {
      if attempts(attempt) == Sent {
        return Delivered;
      }
      if attempt == 0 && attempts(attempt) == Collides {
        attempt := attempt + 1;
        continue;
      }
      return AttemptError(attempts(attempt));
    }
    return TurnIndexCollision;
  }
}
