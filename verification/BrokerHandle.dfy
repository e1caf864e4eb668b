/**
 `Handle` and `RunLoop` as the imperative code they are (supervisor/internal/actionbroker/dispatcher.go):
 one claim-gate-fetch-post-commit pass over a store it changes in place. A pass is proved to be a path
 of the protocol's steps, and what it does to the rows is stated outright; from that follows how the
 claim's `ORDER BY created_at LIMIT 1` behaves when the oldest row is not ready.
 */
module BrokerHandle {
  import opened Common
  import opened ActionPolicy
  import opened Broker

  /** How each call of one pass turns out. */
  datatype Calls = Calls(claim: bool, secret: bool, target: bool, post: bool,
                         statement: nat -> bool, commit: bool)

  /** The rows the claim query may return: dispatchable, unlocked, and none of those older. */
  ghost predicate Oldest(s: State, id: RowId) {
    && Claimable(s, id)
    && forall other :: Claimable(s, other) ==> s.rows[id].createdAt <= s.rows[other].createdAt
  }

  predicate AllSucceed(n: nat, statement: nat -> bool) {
    forall i :: 0 <= i < n ==> statement(i)
  }

  function PlanFor(row: Row, calls: Calls): Plan {
    if calls.secret && calls.target && calls.post then ExecutedPlan(row) else FailedPlan()
  }

  /** What a pass that claimed this row leaves in its place. */
  function Handled(row: Row, calls: Calls): Row {
    if GateOpens(row) && AllSucceed(Statements(PlanFor(row, calls)), calls.statement) && calls.commit
    then Written(row, PlanFor(row, calls))
    else row
  }

  /** What the outside world sees of that pass. */
  function Observed(id: RowId, row: Row, calls: Calls): seq<Event> {
    var plan := PlanFor(row, calls);
    var settled := AllSucceed(Statements(plan), calls.statement) && calls.commit;
    if !GateOpens(row) then []
    else if calls.secret && calls.target then [Post(id, calls.post), if settled then Broker.Settle(id, true) else Lose(id)]
    else if settled then [Broker.Settle(id, false)]
    else []
  }

  /** Every row a pass could claim next is one the gate turns away. */
  ghost predicate Stalled(s: State) {
    forall id :: Oldest(s, id) ==> !GateOpens(s.rows[id])
  }

  function AtStatement(p: Phase, i: nat): Phase
    requires p.Writing?
  {
    Writing(p.id, p.row, p.plan, i, p.posted)
  }

  /** How a transaction that starts writing ends, given what its calls return. */
  function Ended(s: State, w: WorkerId, calls: Calls): State
    requires w in s.workers && s.workers[w].Writing?
  {
    if AllSucceed(Statements(s.workers[w].plan), calls.statement) && calls.commit
    then Committed(s, w) else RolledBack(s, w)
  }

  lemma EndedIs(s: State, w: WorkerId, calls: Calls)
    requires w in s.workers && s.workers[w].Writing?
    ensures (exists i :: 0 <= i < Statements(s.workers[w].plan) && !calls.statement(i)) || !calls.commit
            ==> Ended(s, w, calls) == RolledBack(s, w)
    ensures (forall i :: 0 <= i < Statements(s.workers[w].plan) ==> calls.statement(i)) && calls.commit
            ==> Ended(s, w, calls) == Committed(s, w)
  {
    hide RolledBack, Committed, Statements;
  }

  lemma EnterSame(s: State, w: WorkerId)
    requires w in s.workers && s.workers[w].Writing? && s.workers[w].next == 0
    ensures Enter(s, w, AtStatement(s.workers[w], 0)) == s
  {
    assert s.workers[w := s.workers[w]] == s.workers;
  }

  /** What the transaction's next call does, after `i` statements. */
  lemma WritingSteps(s: State, w: WorkerId, i: nat)
    requires w in s.workers && s.workers[w].Writing? && i <= Statements(s.workers[w].plan)
    ensures var p := s.workers[w]; var t := Enter(s, w, AtStatement(p, i));
            && RolledBack(t, w) == RolledBack(s, w) && Committed(t, w) == Committed(s, w)
            && (i < Statements(p.plan) ==>
                  && Apply(t, Statement(w, true)) == Enter(s, w, AtStatement(p, i + 1))
                  && Apply(t, Statement(w, false)) == RolledBack(s, w))
            && (i == Statements(p.plan) ==>
                  && Apply(t, Commit(w, true)) == Committed(s, w)
                  && Apply(t, Commit(w, false)) == RolledBack(s, w))
            && Enter(t, w, AtStatement(p, i + 1)) == Enter(s, w, AtStatement(p, i + 1))
            && w in t.workers && t.workers[w] == AtStatement(p, i) && t.rows == s.rows && t.locks == s.locks && t.log == s.log
            && AtStatement(p, i) == Writing(p.id, p.row, p.plan, i, p.posted)
  {
    var p := s.workers[w];
    var t := Enter(s, w, AtStatement(p, i));
    assert t.workers - {w} == s.workers - {w};
    assert t.workers[w := AtStatement(p, i + 1)] == s.workers[w := AtStatement(p, i + 1)];
  }

  lemma CommittedParts(s: State, w: WorkerId)
    requires w in s.workers && s.workers[w].Writing?
    ensures var p := s.workers[w];
            Committed(s, w) == State(s.rows[p.id := Written(p.row, p.plan)], s.locks - {p.id},
                                     s.workers - {w}, s.seen, s.log + [Broker.Settle(p.id, p.posted)])
  {
  }

  /** The store while `w` holds row `p.id` at phase `p`, having found it as in `s`. */
  function Holding(s: State, w: WorkerId, p: Phase): State {
    State(s.rows, s.locks[p.id := w], s.workers[w := p], s.seen, s.log)
  }

  /** The store after a pass that claimed row `id`. */
  function After(s: State, id: RowId, calls: Calls): State
    requires id in s.rows
  {
    s.(rows := s.rows[id := Handled(s.rows[id], calls)], log := s.log + Observed(id, s.rows[id], calls))
  }

  lemma ClaimHeld(s: State, w: WorkerId, id: RowId)
    requires w !in s.workers && Claimable(s, id)
    ensures var p := AtGate(id, s.rows[id]);
            && Apply(s, Claim(w, id)) == Holding(s, w, p)
            && Apply(Holding(s, w, p), Gate(w)) ==
               (if GateOpens(p.row) then Enter(Holding(s, w, p), w, AtVault(id, p.row)) else RolledBack(Holding(s, w, p), w))
            && Enter(Holding(s, w, p), w, AtVault(id, p.row)) == Holding(s, w, AtVault(id, p.row))
  {
    assert Holding(s, w, AtGate(id, s.rows[id])).workers[w := AtVault(id, s.rows[id])]
        == s.workers[w := AtVault(id, s.rows[id])];
  }

  lemma HoldingEnter(s: State, w: WorkerId, p: Phase, q: Phase)
    requires p.id == q.id
    ensures Enter(Holding(s, w, p), w, q) == Holding(s, w, q)
  {
    assert s.workers[w := p][w := q] == s.workers[w := q];
  }

  /** What the calls before the writing phase do. */
  lemma HeldSteps(s: State, w: WorkerId, id: RowId, row: Row, calls: Calls)
    ensures var failed := Writing(id, row, FailedPlan(), 0, false);
            var h := Holding(s, w, AtVault(id, row));
            Apply(h, FetchSecret(w, calls.secret)) ==
            Enter(h, w, if calls.secret then AtTarget(id, row) else failed)
            == Holding(s, w, if calls.secret then AtTarget(id, row) else failed)
    ensures var failed := Writing(id, row, FailedPlan(), 0, false);
            var h := Holding(s, w, AtTarget(id, row));
            Apply(h, DecodeTarget(w, calls.target)) ==
            Enter(h, w, if calls.target then AtPost(id, row) else failed)
            == Holding(s, w, if calls.target then AtPost(id, row) else failed)
    ensures var posted := Writing(id, row, if calls.post then ExecutedPlan(row) else FailedPlan(), 0, true);
            var h := Holding(s, w, AtPost(id, row));
            Apply(h, PostComment(w, calls.post)) == Enter(h.(log := h.log + [Post(id, calls.post)]), w, posted)
            == Holding(s.(log := s.log + [Post(id, calls.post)]), w, posted)
  {
    var failed := Writing(id, row, FailedPlan(), 0, false);
    var posted := Writing(id, row, if calls.post then ExecutedPlan(row) else FailedPlan(), 0, true);
    HoldingEnter(s, w, AtVault(id, row), if calls.secret then AtTarget(id, row) else failed);
    HoldingEnter(s, w, AtTarget(id, row), if calls.target then AtPost(id, row) else failed);
    HoldingEnter(s.(log := s.log + [Post(id, calls.post)]), w, AtPost(id, row), posted);
    hide ExecutedPlan;
  }

  /** Letting go of the row leaves the store as the pass found it, but for what it wrote and logged. */
  lemma LetGo(s: State, w: WorkerId, p: Phase)
    requires w !in s.workers && p.id !in s.locks
    ensures var h := Holding(s, w, p);
            && RolledBack(h, w) == s.(log := if p.Writing? && p.posted then s.log + [Lose(p.id)] else s.log)
            && (p.Writing? ==> Committed(h, w) == s.(rows := s.rows[p.id := Written(p.row, p.plan)],
                                                     log := s.log + [Broker.Settle(p.id, p.posted)]))
  {
    assert s.workers[w := p] - {w} == s.workers;
    assert s.locks[p.id := w] - {p.id} == s.locks;
  }

  lemma EndsUnready(s: State, w: WorkerId, id: RowId, calls: Calls)
    requires w !in s.workers && Claimable(s, id) && !GateOpens(s.rows[id])
    ensures RolledBack(Holding(s, w, AtGate(id, s.rows[id])), w) == After(s, id, calls)
  {
    LetGo(s, w, AtGate(id, s.rows[id]));
    assert s.rows[id := s.rows[id]] == s.rows && s.log + [] == s.log;
  }

  lemma EndsFailed(s: State, w: WorkerId, id: RowId, calls: Calls)
    requires w !in s.workers && Claimable(s, id) && GateOpens(s.rows[id]) && !(calls.secret && calls.target)
    ensures Ended(Holding(s, w, Writing(id, s.rows[id], FailedPlan(), 0, false)), w, calls) == After(s, id, calls)
  {
    hide RolledBack, Committed, GateOpens, Written, FailedPlan, Statements;
    LetGo(s, w, Writing(id, s.rows[id], FailedPlan(), 0, false));
    assert s.rows[id := s.rows[id]] == s.rows && s.log + [] == s.log;
  }

  lemma EndsPosted(s: State, w: WorkerId, id: RowId, calls: Calls)
    requires w !in s.workers && Claimable(s, id) && GateOpens(s.rows[id]) && calls.secret && calls.target
    ensures var plan := if calls.post then ExecutedPlan(s.rows[id]) else FailedPlan();
            var h := Holding(s.(log := s.log + [Post(id, calls.post)]), w, Writing(id, s.rows[id], plan, 0, true));
            Ended(h, w, calls) == After(s, id, calls)
  {
    hide RolledBack, Committed, GateOpens, Written, FailedPlan, ExecutedPlan, Statements;
    var plan := if calls.post then ExecutedPlan(s.rows[id]) else FailedPlan();
    LetGo(s.(log := s.log + [Post(id, calls.post)]), w, Writing(id, s.rows[id], plan, 0, true));
    assert s.rows[id := s.rows[id]] == s.rows;
    assert forall e :: s.log + [Post(id, calls.post)] + [e] == s.log + [Post(id, calls.post), e];
  }

  ghost function TakeStep(s0: State, done: seq<Step>, step: Step): (trace: seq<Step>)
    ensures Exec(s0, trace) == Apply(Exec(s0, done), step)
  {
    ExecSnoc(s0, done, step);
    done + [step]
  }

  lemma ExecSnoc(s: State, steps: seq<Step>, step: Step)
    ensures Exec(s, steps + [step]) == Apply(Exec(s, steps), step)
  {
    ExecAppend(s, steps, [step]);
    var t := Exec(s, steps);
    assert Exec(t, [step]) == Exec(Apply(t, step), [step][1..]);
  }

  class Dispatcher {
    // The store, shared with every other dispatcher and the dashboard.
    var rows: map<RowId, Row>
    var locks: map<RowId, WorkerId>
    var workers: map<WorkerId, Phase>
    var seen: map<OperatorId, PendingRead>
    var log: seq<Event>

    ghost function Abs(): State
      reads this
    {
      State(rows, locks, workers, seen, log)
    }

    constructor ()
      ensures Abs() == INIT
    {
      rows, locks, workers, seen, log := map[], map[], map[], map[], [];
    }

    /** The deferred `tx.Rollback`: releases the lock and drops every uncommitted write. */
    method Rollback(w: WorkerId)
      requires w in workers
      modifies this`locks, this`workers, this`log
      ensures Abs() == RolledBack(old(Abs()), w)
    {
      var p := workers[w];
      if p.Writing? && p.posted {
        log := log + [Lose(p.id)];
      }
      locks := locks - {p.id};
      workers := workers - {w};
    }

    method SetPhase(w: WorkerId, p: Phase)
      modifies this`workers
      ensures Abs() == Enter(old(Abs()), w, p) && w in workers && workers[w] == p
    {
      workers := workers[w := p];
    }

    /** markExecuted / failRow: the plan's statements one by one, then the commit. */
    method Settle(w: WorkerId, calls: Calls, ghost origin: State, ghost done: seq<Step>)
      returns (ghost trace: seq<Step>)
      requires w in workers && workers[w].Writing? && workers[w].next == 0
      requires Abs() == Exec(origin, done)
      modifies this
      ensures Abs() == Exec(origin, trace)
      ensures Abs() == Ended(old(Abs()), w, calls)
    {
      hide Apply, Exec, Enter, RolledBack, Committed, Statements, Ended, AtStatement, Written;
      var p := workers[w];
      ghost var s := Abs();
      trace := done;
      var i := 0;
      EnterSame(s, w);
      EndedIs(s, w, calls);
      while i < Statements(p.plan)
        invariant 0 <= i <= Statements(p.plan)
        invariant forall j :: 0 <= j < i ==> calls.statement(j)
        invariant Abs() == Exec(origin, trace)
        invariant Abs() == Enter(s, w, AtStatement(p, i))
      {
        WritingSteps(s, w, i);
        trace := TakeStep(origin, trace, Statement(w, calls.statement(i)));
        if !calls.statement(i) {
          Rollback(w);
          return;
        }
        i := i + 1;
        SetPhase(w, AtStatement(p, i));
      }
      WritingSteps(s, w, i);
      trace := TakeStep(origin, trace, Commit(w, calls.commit));
      if calls.commit {
        CommittedParts(Abs(), w);
        rows := rows[p.id := Written(p.row, p.plan)];
        log := log + [Broker.Settle(p.id, p.posted)];
        locks := locks - {p.id};
        workers := workers - {w};
      } else {
        Rollback(w);
      }
    }

    /** ClaimDispatchablePendingAction: ORDER BY created_at LIMIT 1, skipping locked rows. */
    method FindOldest() returns (found: Option<RowId>)
      ensures found.None? ==> forall id :: !Claimable(Abs(), id)
      ensures found.Some? ==> Oldest(Abs(), found.value)
    {
      found := None;
      var todo := rows.Keys;
      while todo != {}
        invariant todo <= rows.Keys
        invariant found.Some? ==> Claimable(Abs(), found.value)
        invariant forall id :: Claimable(Abs(), id) && id !in todo ==>
                    found.Some? && rows[found.value].createdAt <= rows[id].createdAt
        decreases todo
      {
        var id :| id in todo;
        todo := todo - {id};
        if id !in locks && Dispatchable(rows[id])
           && (found.None? || rows[id].createdAt < rows[found.value].createdAt) {
          found := Some(id);
        }
      }
    }

    /** Past the gate: fetch the secret, decode the target, post; then settle one way or the other. */
    method FetchAndPost(w: WorkerId, id: RowId, row: Row, calls: Calls, ghost s0: State, ghost done: seq<Step>)
      returns (ghost trace: seq<Step>)
      requires w !in s0.workers && Claimable(s0, id) && s0.rows[id] == row && GateOpens(row)
      requires Abs() == Holding(s0, w, AtVault(id, row)) == Exec(s0, done)
      modifies this
      ensures Abs() == Exec(s0, trace)
      ensures Abs() == After(s0, id, calls)
    {
      hide Apply, Exec, Holding, Claimable, GateOpens, After, Ended, Enter, FailedPlan, ExecutedPlan;
      HeldSteps(s0, w, id, row, calls);
      trace := TakeStep(s0, done, FetchSecret(w, calls.secret));
      if !calls.secret {
        SetPhase(w, Writing(id, row, FailedPlan(), 0, false));
        EndsFailed(s0, w, id, calls);
        trace := Settle(w, calls, s0, trace);
        return;
      }
      SetPhase(w, AtTarget(id, row));
      trace := TakeStep(s0, trace, DecodeTarget(w, calls.target));
      if !calls.target {
        SetPhase(w, Writing(id, row, FailedPlan(), 0, false));
        EndsFailed(s0, w, id, calls);
        trace := Settle(w, calls, s0, trace);
        return;
      }
      SetPhase(w, AtPost(id, row));
      trace := TakeStep(s0, trace, PostComment(w, calls.post));
      log := log + [Post(id, calls.post)];
      SetPhase(w, Writing(id, row, if calls.post then ExecutedPlan(row) else FailedPlan(), 0, true));
      EndsPosted(s0, w, id, calls);
      trace := Settle(w, calls, s0, trace);
    }

    /** One pass of the dispatcher. */
    method Handle(w: WorkerId, calls: Calls) returns (claimed: Option<RowId>, ghost trace: seq<Step>)
      requires w !in workers
      modifies this
      ensures Abs() == Exec(old(Abs()), trace)
      ensures claimed.None? <==> !calls.claim || forall id :: id in old(rows) && id !in old(locks) ==>
                (old(rows)[id].status != Pending && old(rows)[id].status != Approved) || old(rows)[id].tier == HumanOnly
      ensures claimed.None? ==> Abs() == old(Abs())
      ensures claimed.Some? ==>
                && Oldest(old(Abs()), claimed.value)
                && Abs() == After(old(Abs()), claimed.value, calls)
    {
      hide Apply, GateOpens, After, Enter, RolledBack;
      ghost var s0 := Abs();
      trace := [];
      claimed := None;
      if !calls.claim {
        return;
      }
      claimed := FindOldest();
      if claimed.None? {
        forall id | id in rows && id !in locks
          ensures (rows[id].status != Pending && rows[id].status != Approved) || rows[id].tier == HumanOnly
        {
          assert !Claimable(Abs(), id);
        }
        return;
      }
      var id := claimed.value;
      var row := rows[id];
      ClaimHeld(s0, w, id);
      trace := TakeStep(s0, trace, Claim(w, id));
      locks := locks[id := w];
      workers := workers[w := AtGate(id, row)];
      trace := TakeStep(s0, trace, Gate(w));
      if !GateOpens(row) {
        Rollback(w);
        EndsUnready(s0, w, id, calls);
        return;
      }
      SetPhase(w, AtVault(id, row));
      hide Exec, Holding, Oldest;
      trace := FetchAndPost(w, id, row, calls, s0, trace);
    }

    /** The poll loop: one pass per tick, whatever each pass returns; together a path of the protocol's steps. */
    method RunLoop(w: WorkerId, ticks: nat, calls: nat -> Calls) returns (ghost trace: seq<Step>)
      requires w !in workers
      modifies this
      ensures Abs() == Exec(old(Abs()), trace)
      ensures workers == old(workers) && locks == old(locks)
      ensures Stalled(old(Abs())) ==> Abs() == old(Abs())
    {
      hide Exec, Apply;
      trace := [];
      ExecNone(Abs());
      for i := 0 to ticks
        invariant Abs() == Exec(old(Abs()), trace)
        invariant workers == old(workers) && locks == old(locks)
        invariant Stalled(old(Abs())) ==> Abs() == old(Abs())
      {
        var _, pass := Handle(w, calls(i));
        ExecAppend(old(Abs()), trace, pass);
        trace := trace + pass;
      }
    }
  }

  lemma ExecNone(s: State)
    ensures Exec(s, []) == s
  {
  }

  /**
   What a pass does to the row it claimed, in the row's own terms: nothing, if it still waits for approval;
   executed, and notified on the notify tier, if the secret, the target and the post are fine; failed if
   one of them is not; and nothing once more, but for the post itself, if a write or the commit fails.
   */
  lemma PassMeans(s: State, id: RowId, calls: Calls)
    requires Claimable(s, id)
    ensures var row, s' := s.rows[id], After(s, id, calls);
            var waits := row.tier == Tier.Approve && row.status == Pending;
            var fine, written := calls.secret && calls.target && calls.post, calls.commit && forall i :: calls.statement(i);
            && (row.status == Pending || row.status == Approved) && row.tier != HumanOnly
            && (waits ==> s' == s)
            && (!waits && fine && written ==>
                  && s'.rows == s.rows[id := row.(status := Executed,
                       history := row.history + if row.tier == Notify then [WasExecuted, Notified] else [WasExecuted])]
                  && s'.log == s.log + [Post(id, true), Broker.Settle(id, true)])
            && (!waits && !fine && written ==>
                  && s'.rows == s.rows[id := row.(status := Failed, history := row.history + [HasFailed])]
                  && s'.log == s.log + if calls.secret && calls.target then [Post(id, false), Broker.Settle(id, true)]
                                       else [Broker.Settle(id, false)])
            && (!waits && !(calls.statement(0) && calls.statement(1) && calls.commit) ==>
                  && s'.rows == s.rows
                  && s'.log == s.log + if calls.secret && calls.target then [Post(id, calls.post), Lose(id)] else [])
  {
    assert s.rows[id := s.rows[id]] == s.rows && s.log + [] == s.log;
  }

  // ---------------------------------------------------------------- head of line

  /** Exactly when a pass that claimed row `id` leaves no trace at all. */
  lemma NoTraceIff(s: State, id: RowId, calls: Calls)
    requires id in s.rows
    ensures After(s, id, calls) == s
       <==> !GateOpens(s.rows[id])
            || (!(calls.secret && calls.target)
                && !(AllSucceed(Statements(FailedPlan()), calls.statement) && calls.commit))
  {
    assert s.rows[id := s.rows[id]] == s.rows && s.log + [] == s.log;
    assert |After(s, id, calls).log| == |s.log| + |Observed(id, s.rows[id], calls)|;
  }

  /**
   An unapproved approve-tier row older than every other claimable one shuts a lone dispatcher out of
   all of them, whatever its calls return: the claim always returns that row and the gate turns it away.
   */
  lemma HeadOfLineBlocks(s: State, head: RowId, behind: RowId, calls: Calls)
    requires Claimable(s, head) && s.rows[head].tier == Tier.Approve && s.rows[head].status == Pending
    requires Claimable(s, behind) && GateOpens(s.rows[behind])
    requires forall other :: Claimable(s, other) && other != head ==> s.rows[head].createdAt < s.rows[other].createdAt
    ensures Stalled(s) && !Oldest(s, behind)
    ensures forall id :: Oldest(s, id) ==> After(s, id, calls) == s
  {
    assert Claimable(s, behind) && behind != head;
    forall id | Oldest(s, id)
      ensures id == head && After(s, id, calls) == s
    {
      assert Claimable(s, head);
      NoTraceIff(s, id, calls);
    }
  }

  /** With distinct ages, once the head is approved, gone or let through by its tier, the pass acts on it. */
  lemma StalledIff(s: State, head: RowId)
    requires Oldest(s, head)
    requires forall a, b :: Claimable(s, a) && Claimable(s, b) && a != b ==> s.rows[a].createdAt != s.rows[b].createdAt
    ensures Stalled(s) <==> s.rows[head].tier == Tier.Approve && s.rows[head].status == Pending
  {
    forall id | Oldest(s, id)
      ensures id == head
    {
      assert Claimable(s, id) && Claimable(s, head);
    }
  }
}
