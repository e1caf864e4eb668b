/**
 The action broker as a protocol (supervisor/internal/actionbroker/dispatcher.go, the claim query
 in migrations/queries/m11_action_broker.sql and the operator's Outbox actions in
 dashboard/app/[locale]/(app)/admin/outbox/actions.ts).

 Any number of `Handle` runs (the LISTEN handler, the poll loop) and operator transactions
 interleave. Each `Step` is one of their database or network calls together with its outcome, so a
 run of the system is any sequence of steps at all; a step that its actor is not ready for, or that
 a row lock blocks, changes nothing.
 */
module Broker {
  import opened Common
  import opened ActionPolicy

  type RowId = nat
  type WorkerId = nat
  type OperatorId = nat

  datatype Status = Pending | Approved | Rejected | Executed | Failed | Done

  datatype Outcome =
    | Requested | OperatorApproved | OperatorRejected | MarkedDone
    | WasExecuted | HasFailed | Notified | SkippedHumanOnly

  datatype Row = Row(actionType: string, tier: Tier, status: Status, createdAt: int, history: seq<Outcome>)

  /** The statements a `Handle` transaction still has to make: a status update, then outcome inserts. */
  datatype Plan = Plan(status: Option<Status>, outcomes: seq<Outcome>)

  /** Where a `Handle` run that holds a row is; `row` is the copy the claim query returned. */
  datatype Phase =
    | AtGate(id: RowId, row: Row)
    | AtVault(id: RowId, row: Row)
    | AtTarget(id: RowId, row: Row)
    | AtPost(id: RowId, row: Row)
    | Writing(id: RowId, row: Row, plan: Plan, next: nat, posted: bool)

  datatype Verb = Approve | Reject | MarkDone

  datatype PendingRead = PendingRead(id: RowId, verb: Verb)

  /** What the outside world and the audit can observe, in order. */
  datatype Event =
    | Approval(id: RowId)                 // an operator's approve took effect
    | Post(id: RowId, ok: bool)           // the provider was called, with this answer
    | Settle(id: RowId, posted: bool)     // a Handle run committed
    | Lose(id: RowId)                     // a Handle run posted and then did not commit

  datatype State = State(
    rows: map<RowId, Row>,
    locks: map<RowId, WorkerId>,
    workers: map<WorkerId, Phase>,
    seen: map<OperatorId, PendingRead>,
    log: seq<Event>)

  datatype Step =
    | Request(id: RowId, actionType: string, policy: Policy, createdAt: int)
    | Claim(w: WorkerId, id: RowId)
    | Gate(w: WorkerId)
    | FetchSecret(w: WorkerId, ok: bool)
    | DecodeTarget(w: WorkerId, ok: bool)
    | PostComment(w: WorkerId, ok: bool)
    | Statement(w: WorkerId, ok: bool)
    | Commit(w: WorkerId, ok: bool)
    | Crash(w: WorkerId)
    | OperatorRead(op: OperatorId, id: RowId, verb: Verb)
    | OperatorWrite(op: OperatorId, ok: bool)

  const INIT: State := State(map[], map[], map[], map[], [])

  // ---------------------------------------------------------------- the steps

  predicate Dispatchable(row: Row) {
    row.status in {Pending, Approved} && row.tier != HumanOnly
  }

  /** Which rows applyTierGate lets through. */
  predicate GateOpens(row: Row) {
    match row.tier
    case HumanOnly => false
    case Approve => row.status == Approved
    case Auto | Notify => true
  }

  function ExecutedPlan(row: Row): Plan {
    Plan(Some(Executed), if row.tier == Notify then [WasExecuted, Notified] else [WasExecuted])
  }

  function FailedPlan(): Plan {
    Plan(Some(Failed), [HasFailed])
  }

  function SkippedPlan(): Plan {
    Plan(None, [SkippedHumanOnly])
  }

  function Statements(plan: Plan): nat {
    |plan.outcomes| + if plan.status.Some? then 1 else 0
  }

  /** The row once every statement of the plan has been made. */
  function Written(row: Row, plan: Plan): Row {
    row.(status := if plan.status.Some? then plan.status.value else row.status,
         history := row.history + plan.outcomes)
  }

  /** Ends a transaction without committing it: the lock goes, and so does every write. */
  function RolledBack(s: State, w: WorkerId): State
    requires w in s.workers
  {
    var p := s.workers[w];
    s.(locks := s.locks - {p.id}, workers := s.workers - {w},
       log := if p.Writing? && p.posted then s.log + [Lose(p.id)] else s.log)
  }

  function Committed(s: State, w: WorkerId): State
    requires w in s.workers && s.workers[w].Writing?
  {
    var p := s.workers[w];
    s.(rows := s.rows[p.id := Written(p.row, p.plan)], locks := s.locks - {p.id},
       workers := s.workers - {w}, log := s.log + [Settle(p.id, p.posted)])
  }

  function Enter(s: State, w: WorkerId, p: Phase): State {
    s.(workers := s.workers[w := p])
  }

  function StartWriting(p: Phase, plan: Plan, posted: bool): Phase {
    Writing(p.id, p.row, plan, 0, posted)
  }

  function VerbStatus(verb: Verb): Status {
    match verb
    case Approve => Approved
    case Reject => Rejected
    case MarkDone => Done
  }

  function VerbOutcome(verb: Verb): Outcome {
    match verb
    case Approve => OperatorApproved
    case Reject => OperatorRejected
    case MarkDone => MarkedDone
  }

  /**
   The operator transaction's UPDATE ... WHERE status = 'pending' and its outcome insert. The UPDATE
   may match no row by then; the outcome is inserted either way.
   */
  function OperatorWritten(row: Row, verb: Verb): Row {
    Row(row.actionType, row.tier, if row.status == Pending then VerbStatus(verb) else row.status,
        row.createdAt, row.history + [VerbOutcome(verb)])
  }

  function RequestStep(s: State, id: RowId, actionType: string, policy: Policy, createdAt: int): State {
    if id in s.rows then s
    else s.(rows := s.rows[id := Row(actionType, Classify(policy, actionType).0, Pending, createdAt, [Requested])])
  }

  predicate Claimable(s: State, id: RowId) {
    id in s.rows && id !in s.locks && Dispatchable(s.rows[id])
  }

  function ClaimStep(s: State, w: WorkerId, id: RowId): State {
    if w !in s.workers && Claimable(s, id)
    then Enter(s, w, AtGate(id, s.rows[id])).(locks := s.locks[id := w])
    else s
  }

  function GateStep(s: State, w: WorkerId): State
    requires w in s.workers
  {
    var p := s.workers[w];
    if !p.AtGate? then s
    else if p.row.tier == HumanOnly then Enter(s, w, StartWriting(p, SkippedPlan(), false))
    else if GateOpens(p.row) then Enter(s, w, AtVault(p.id, p.row))
    else RolledBack(s, w)
  }

  function SecretStep(s: State, w: WorkerId, ok: bool): State
    requires w in s.workers
  {
    var p := s.workers[w];
    if !p.AtVault? then s
    else Enter(s, w, if ok then AtTarget(p.id, p.row) else StartWriting(p, FailedPlan(), false))
  }

  function TargetStep(s: State, w: WorkerId, ok: bool): State
    requires w in s.workers
  {
    var p := s.workers[w];
    if !p.AtTarget? then s
    else Enter(s, w, if ok then AtPost(p.id, p.row) else StartWriting(p, FailedPlan(), false))
  }

  function PostStep(s: State, w: WorkerId, ok: bool): State
    requires w in s.workers
  {
    var p := s.workers[w];
    if !p.AtPost? then s
    else Enter(s, w, StartWriting(p, if ok then ExecutedPlan(p.row) else FailedPlan(), true))
           .(log := s.log + [Post(p.id, ok)])
  }

  function StatementStep(s: State, w: WorkerId, ok: bool): State
    requires w in s.workers
  {
    var p := s.workers[w];
    if !p.Writing? || p.next >= Statements(p.plan) then s
    else if ok then Enter(s, w, Writing(p.id, p.row, p.plan, p.next + 1, p.posted))
    else RolledBack(s, w)
  }

  function CommitStep(s: State, w: WorkerId, ok: bool): State
    requires w in s.workers
  {
    var p := s.workers[w];
    if !p.Writing? || p.next != Statements(p.plan) then s
    else if ok then Committed(s, w)
    else RolledBack(s, w)
  }

  function OperatorReadStep(s: State, op: OperatorId, id: RowId, verb: Verb): State {
    if op !in s.seen && id in s.rows && s.rows[id].status == Pending
    then s.(seen := s.seen[op := PendingRead(id, verb)])
    else s
  }

  /** Blocks while a Handle run holds the row's lock. */
  function OperatorWriteStep(s: State, op: OperatorId, ok: bool): State {
    if op in s.seen && s.seen[op].id in s.rows && s.seen[op].id !in s.locks then
      var (id, verb) := (s.seen[op].id, s.seen[op].verb);
      if ok then
        s.(rows := s.rows[id := OperatorWritten(s.rows[id], verb)], seen := s.seen - {op},
           log := if verb == Verb.Approve && s.rows[id].status == Pending then s.log + [Approval(id)] else s.log)
      else
        s.(seen := s.seen - {op})
    else s
  }

  function Apply(s: State, step: Step): State {
    match step
    case Request(id, actionType, policy, createdAt) => RequestStep(s, id, actionType, policy, createdAt)
    case Claim(w, id) => ClaimStep(s, w, id)
    case Gate(w) => if w in s.workers then GateStep(s, w) else s
    case FetchSecret(w, ok) => if w in s.workers then SecretStep(s, w, ok) else s
    case DecodeTarget(w, ok) => if w in s.workers then TargetStep(s, w, ok) else s
    case PostComment(w, ok) => if w in s.workers then PostStep(s, w, ok) else s
    case Statement(w, ok) => if w in s.workers then StatementStep(s, w, ok) else s
    case Commit(w, ok) => if w in s.workers then CommitStep(s, w, ok) else s
    case Crash(w) => if w in s.workers then RolledBack(s, w) else s
    case OperatorRead(op, id, verb) => OperatorReadStep(s, op, id, verb)
    case OperatorWrite(op, ok) => OperatorWriteStep(s, op, ok)
  }

  function Exec(s: State, steps: seq<Step>): State
    decreases |steps|
  {
    if steps == [] then s else Exec(Apply(s, steps[0]), steps[1..])
  }

  lemma {:induction false} ExecAppend(s: State, a: seq<Step>, b: seq<Step>)
    ensures Exec(s, a + b) == Exec(Exec(s, a), b)
    decreases |a|
  {
    if a == [] {
      assert a + b == b;
    } else {
      assert (a + b)[0] == a[0] && (a + b)[1..] == a[1..] + b;
      ExecAppend(Apply(s, a[0]), a[1..], b);
    }
  }

  // ---------------------------------------------------------------- the invariant

  function Count(log: seq<Event>, e: Event): nat {
    multiset(log)[e]
  }

  function PostCount(log: seq<Event>, id: RowId): nat {
    Count(log, Post(id, true)) + Count(log, Post(id, false))
  }

  function Posts(s: State, id: RowId): nat { PostCount(s.log, id) }

  function Lost(s: State, id: RowId): nat { Count(s.log, Lose(id)) }

  function SettledPosts(s: State, id: RowId): nat { Count(s.log, Settle(id, true)) }

  /** 1 while some run has posted for this row and is still deciding, else 0. */
  function InFlight(s: State, id: RowId): nat {
    if id in s.locks && s.locks[id] in s.workers && s.workers[s.locks[id]].Writing?
       && s.workers[s.locks[id]].posted
    then 1 else 0
  }

  predicate Terminal(status: Status) {
    status != Pending && status != Approved
  }

  predicate IsDispatcherOutcome(o: Outcome) {
    o in {WasExecuted, HasFailed, Notified, SkippedHumanOnly}
  }

  /** The part of a row's history written by dispatchers. */
  function DispatcherHistory(history: seq<Outcome>): seq<Outcome>
    decreases |history|
  {
    if history == [] then []
    else
      var rest := DispatcherHistory(history[..|history| - 1]);
      if IsDispatcherOutcome(history[|history| - 1]) then rest + [history[|history| - 1]] else rest
  }

  /** The dispatcher outcomes a row with this tier and status must show, in this order. */
  function ExpectedHistory(tier: Tier, status: Status): seq<Outcome> {
    match status
    case Executed => if tier == Notify then [WasExecuted, Notified] else [WasExecuted]
    case Failed => [HasFailed]
    case _ => []
  }

  ghost predicate LocksMatch(s: State) {
    && (forall w :: w in s.workers ==> s.workers[w].id in s.locks && s.locks[s.workers[w].id] == w)
    && (forall id :: id in s.locks ==> s.locks[id] in s.workers && s.workers[s.locks[id]].id == id)
  }

  /** What a run knows about the row it holds, at each phase. */
  predicate PhaseKnows(rows: map<RowId, Row>, p: Phase) {
    && p.id in rows && rows[p.id] == p.row && Dispatchable(p.row)
    && (!p.AtGate? ==> GateOpens(p.row))
    && (p.Writing? ==> p.plan == FailedPlan() || (p.posted && p.plan == ExecutedPlan(p.row)))
  }

  predicate RowSound(row: Row) {
    && DispatcherHistory(row.history) == ExpectedHistory(row.tier, row.status)
    && (row.actionType in FLOOR ==> row.tier == Tier.Approve)
  }

  /** Each post found a row, its tier allows it, and an approve-tier one was approved before it. */
  ghost predicate PostsAllowed(log: seq<Event>, id: RowId, row: Option<Row>) {
    forall k :: 0 <= k < |log| && log[k].Post? && log[k].id == id ==>
      && row.Some? && row.value.tier != HumanOnly
      && (row.value.tier == Tier.Approve ==> Approval(id) in log[..k])
  }

  /** The log's view of one row. */
  ghost predicate LogSound(log: seq<Event>, id: RowId, row: Option<Row>, inFlight: nat) {
    && (row.Some? && row.value.status == Approved ==> Approval(id) in log)
    && PostsAllowed(log, id, row)
    && (Settle(id, true) in log || Settle(id, false) in log ==> row.Some? && Terminal(row.value.status))
    && PostCount(log, id) == Count(log, Settle(id, true)) + Count(log, Lose(id)) + inFlight
    && Count(log, Settle(id, true)) <= 1
  }

  ghost predicate Inv(s: State) {
    && LocksMatch(s)
    && (forall w :: w in s.workers ==> PhaseKnows(s.rows, s.workers[w]))
    && (forall id :: id in s.rows ==> RowSound(s.rows[id]))
    && (forall id :: LogSound(s.log, id, Lookup(s.rows, id), InFlight(s, id)))
  }

  // ---------------------------------------------------------------- one row, one event

  lemma DispatcherHistoryAppend(history: seq<Outcome>, o: Outcome)
    ensures DispatcherHistory(history + [o])
         == DispatcherHistory(history) + if IsDispatcherOutcome(o) then [o] else []
  {
    assert (history + [o])[..|history|] == history;
  }

  lemma WrittenSound(row: Row, plan: Plan)
    requires RowSound(row) && Dispatchable(row)
    requires plan == ExecutedPlan(row) || plan == FailedPlan()
    ensures RowSound(Written(row, plan)) && Terminal(Written(row, plan).status)
  {
    DispatcherHistoryAppend(row.history, plan.outcomes[0]);
    if |plan.outcomes| == 2 {
      DispatcherHistoryAppend(row.history + [WasExecuted], Notified);
      assert row.history + plan.outcomes == row.history + [WasExecuted] + [Notified];
    }
  }

  lemma OperatorWrittenSound(row: Row, verb: Verb)
    requires RowSound(row)
    ensures RowSound(OperatorWritten(row, verb))
  {
    DispatcherHistoryAppend(row.history, VerbOutcome(verb));
    hide DispatcherHistory;
  }

  lemma PostsAllowedAppend(log: seq<Event>, id: RowId, row: Option<Row>, row': Option<Row>, e: Event)
    requires PostsAllowed(log, id, row)
    requires row.Some? ==> row'.Some? && row'.value.tier == row.value.tier
    requires e.Post? && e.id == id ==>
               && row'.Some? && row'.value.tier != HumanOnly
               && (row'.value.tier == Tier.Approve ==> Approval(id) in log)
    ensures PostsAllowed(log + [e], id, row')
  {
    forall k | 0 <= k < |log + [e]| && (log + [e])[k].Post? && (log + [e])[k].id == id
      ensures row'.Some? && row'.value.tier != HumanOnly
           && (row'.value.tier == Tier.Approve ==> Approval(id) in (log + [e])[..k])
    {
      if k < |log| {
        assert (log + [e])[..k] == log[..k];
      } else {
        assert (log + [e])[..k] == log;
      }
    }
  }

  /** How one more event changes the log's view of the row it is about. */
  lemma LogSoundAppend(log: seq<Event>, id: RowId, row: Option<Row>, inFlight: nat,
                       e: Event, row': Option<Row>, inFlight': nat)
    requires LogSound(log, id, row, inFlight) && e.id == id
    requires row.Some? && row'.Some? && row'.value.tier == row.value.tier
    requires row'.value.status == Approved ==> row.value.status == Approved || e == Approval(id)
    requires Terminal(row.value.status) ==> Terminal(row'.value.status)
    requires match e
             case Approval(_) => inFlight' == inFlight
             case Post(_, _) => inFlight' == inFlight + 1 && GateOpens(row'.value) && row' == row
             case Settle(_, posted) =>
               && inFlight == (if posted then 1 else 0) && inFlight' == 0
               && !Terminal(row.value.status) && Terminal(row'.value.status)
             case Lose(_) => inFlight == inFlight' + 1
    ensures LogSound(log + [e], id, row', inFlight')
  {
    PostsAllowedAppend(log, id, row, row', e);
  }

  /** An event about another row leaves the view of this one alone. */
  lemma LogSoundOther(log: seq<Event>, id: RowId, row: Option<Row>, inFlight: nat, e: Event)
    requires LogSound(log, id, row, inFlight) && e.id != id
    ensures LogSound(log + [e], id, row, inFlight)
  {
    PostsAllowedAppend(log, id, row, row, e);
  }

  // ---------------------------------------------------------------- every step keeps the invariant

  /** Only row `id` may change, and only event `e` about it is logged. */
  lemma LoggedKeeps(s: State, s': State, id: RowId, e: Event)
    requires Inv(s) && id in s.rows && id in s'.rows && e.id == id && s'.log == s.log + [e]
    requires s'.rows == s.rows[id := s'.rows[id]] && RowSound(s'.rows[id]) && LocksMatch(s')
    requires forall w :: w in s'.workers ==> PhaseKnows(s'.rows, s'.workers[w])
    requires forall i :: i != id ==> InFlight(s', i) == InFlight(s, i)
    requires LogSound(s'.log, id, Some(s'.rows[id]), InFlight(s', id))
    ensures Inv(s')
  {
    hide LogSound, LocksMatch, PhaseKnows, RowSound, InFlight;
    forall i
      ensures LogSound(s'.log, i, Lookup(s'.rows, i), InFlight(s', i))
    {
      if i != id {
        LogSoundOther(s.log, i, Lookup(s.rows, i), InFlight(s, i), e);
        assert Lookup(s'.rows, i) == Lookup(s.rows, i);
      }
    }
  }

  lemma InFlightElsewhere(s: State, s': State, w: WorkerId)
    requires LocksMatch(s) && LocksMatch(s') && w in s.workers
    requires s'.locks == s.locks - {s.workers[w].id} && s'.workers == s.workers - {w}
    ensures forall i :: InFlight(s', i) == if i == s.workers[w].id then 0 else InFlight(s, i)
  {
  }

  lemma ReleaseMatches(s: State, s': State, w: WorkerId)
    requires LocksMatch(s) && w in s.workers
    requires s'.locks == s.locks - {s.workers[w].id} && s'.workers == s.workers - {w}
    ensures LocksMatch(s')
  {
  }

  lemma RollbackKeeps(s: State, w: WorkerId)
    requires Inv(s) && w in s.workers
    ensures Inv(RolledBack(s, w))
  {
    var p, s' := s.workers[w], RolledBack(s, w);
    assert PhaseKnows(s.rows, p);
    var row := s.rows[p.id];
    ReleaseMatches(s, s', w);
    InFlightElsewhere(s, s', w);
    if p.Writing? && p.posted {
      assert InFlight(s, p.id) == 1;
      LogSoundAppend(s.log, p.id, Some(row), 1, Lose(p.id), Some(row), 0);
      hide LogSound, RowSound, LocksMatch, PhaseKnows, InFlight;
      assert s'.rows == s.rows[p.id := s'.rows[p.id]];
      LoggedKeeps(s, s', p.id, Lose(p.id));
    } else {
      hide LogSound, RowSound, LocksMatch, PhaseKnows;
    }
  }

  lemma CommitKeeps(s: State, w: WorkerId)
    requires Inv(s) && w in s.workers && s.workers[w].Writing?
    ensures Inv(Committed(s, w))
  {
    var p, s' := s.workers[w], Committed(s, w);
    var posted := if p.posted then 1 else 0;
    assert PhaseKnows(s.rows, p) && InFlight(s, p.id) == posted;
    WrittenSound(p.row, p.plan);
    ReleaseMatches(s, s', w);
    InFlightElsewhere(s, s', w);
    LogSoundAppend(s.log, p.id, Some(p.row), posted, Settle(p.id, p.posted), Some(s'.rows[p.id]), 0);
    OthersKnow(s, s', w);
    hide LogSound, RowSound, LocksMatch, PhaseKnows, InFlight;
    LoggedKeeps(s, s', p.id, Settle(p.id, p.posted));
  }

  /** A row only its holder changed is still what the other runs took it for. */
  lemma OthersKnow(s: State, s': State, w: WorkerId)
    requires LocksMatch(s) && w in s.workers && s'.workers == s.workers - {w}
    requires forall v :: v in s.workers ==> PhaseKnows(s.rows, s.workers[v])
    requires s.workers[w].id in s'.rows && s'.rows == s.rows[s.workers[w].id := s'.rows[s.workers[w].id]]
    ensures forall v :: v in s'.workers ==> PhaseKnows(s'.rows, s'.workers[v])
  {
    forall v | v in s'.workers
      ensures PhaseKnows(s'.rows, s'.workers[v])
    {
      assert PhaseKnows(s.rows, s.workers[v]);
      assert s.workers[v].id != s.workers[w].id;
    }
  }

  lemma PostKeeps(s: State, w: WorkerId, ok: bool)
    requires Inv(s) && w in s.workers && s.workers[w].AtPost?
    ensures Inv(PostStep(s, w, ok))
  {
    hide RowSound;
    var p, s' := s.workers[w], PostStep(s, w, ok);
    assert PhaseKnows(s.rows, p) && PhaseKnows(s'.rows, s'.workers[w]);
    assert InFlight(s, p.id) == 0 && InFlight(s', p.id) == 1;
    assert forall i :: i != p.id ==> InFlight(s', i) == InFlight(s, i);
    LogSoundAppend(s.log, p.id, Some(p.row), 0, Post(p.id, ok), Some(p.row), 1);
    assert LocksMatch(s');
    hide LogSound, RowSound, LocksMatch, PhaseKnows, InFlight;
    assert s'.rows == s.rows[p.id := s'.rows[p.id]];
    LoggedKeeps(s, s', p.id, Post(p.id, ok));
  }

  /** The row changes with nothing logged: neither approved by it nor taken out of a terminal status. */
  lemma LogSoundUnlogged(log: seq<Event>, id: RowId, row: Row, row': Row, inFlight: nat)
    requires LogSound(log, id, Some(row), inFlight) && row'.tier == row.tier
    requires row'.status == Approved ==> row.status == Approved
    requires Terminal(row.status) ==> Terminal(row'.status)
    ensures LogSound(log, id, Some(row'), inFlight)
  {
    hide PostCount, Count;
  }

  lemma SameInFlight(s: State, s': State)
    requires s'.locks == s.locks && s'.workers == s.workers
    ensures forall i :: InFlight(s', i) == InFlight(s, i)
  {
  }

  /** A row nobody holds is not what any run took it for. */
  lemma UnheldKnows(s: State, id: RowId, row': Row)
    requires LocksMatch(s) && id !in s.locks
    requires forall v :: v in s.workers ==> PhaseKnows(s.rows, s.workers[v])
    ensures forall v :: v in s.workers ==> PhaseKnows(s.rows[id := row'], s.workers[v])
  {
    forall v | v in s.workers
      ensures PhaseKnows(s.rows[id := row'], s.workers[v])
    {
      assert PhaseKnows(s.rows, s.workers[v]) && s.workers[v].id in s.locks;
    }
  }

  lemma OperatorKeeps(s: State, op: OperatorId)
    requires Inv(s) && op in s.seen && s.seen[op].id in s.rows && s.seen[op].id !in s.locks
    ensures Inv(OperatorWriteStep(s, op, true))
  {
    hide LogSound, RowSound, PhaseKnows, InFlight;
    var id, verb := s.seen[op].id, s.seen[op].verb;
    var row, s' := s.rows[id], OperatorWriteStep(s, op, true);
    OperatorWrittenSound(row, verb);
    UnheldKnows(s, id, s'.rows[id]);
    SameInFlight(s, s');
    assert LocksMatch(s');
    assert LogSound(s.log, id, Lookup(s.rows, id), InFlight(s, id));
    hide LocksMatch;
    if verb == Verb.Approve && row.status == Pending {
      LogSoundAppend(s.log, id, Some(row), InFlight(s, id), Approval(id), Some(s'.rows[id]), InFlight(s, id));
      LoggedKeeps(s, s', id, Approval(id));
    } else {
      LogSoundUnlogged(s.log, id, row, s'.rows[id], InFlight(s, id));
      UnloggedKeeps(s, s', id);
    }
  }

  /** Row `id` appears or changes with nothing logged. */
  lemma UnloggedKeeps(s: State, s': State, id: RowId)
    requires Inv(s) && id in s'.rows && s'.log == s.log
    requires s'.rows == s.rows[id := s'.rows[id]] && RowSound(s'.rows[id]) && LocksMatch(s')
    requires forall w :: w in s'.workers ==> PhaseKnows(s'.rows, s'.workers[w])
    requires forall i :: InFlight(s', i) == InFlight(s, i)
    requires LogSound(s'.log, id, Some(s'.rows[id]), InFlight(s', id))
    ensures Inv(s')
  {
    hide LogSound, RowSound, LocksMatch, PhaseKnows, InFlight;
    forall i
      ensures LogSound(s'.log, i, Lookup(s'.rows, i), InFlight(s', i))
    {
      if i != id {
        assert Lookup(s'.rows, i) == Lookup(s.rows, i);
      }
    }
  }

  lemma RequestKeeps(s: State, id: RowId, actionType: string, policy: Policy, createdAt: int)
    requires Inv(s) && id !in s.rows
    ensures Inv(RequestStep(s, id, actionType, policy, createdAt))
  {
    var s' := RequestStep(s, id, actionType, policy, createdAt);
    DispatcherHistoryAppend([], Requested);
    assert [] + [Requested] == [Requested];
    assert RowSound(s'.rows[id]);
    assert forall i :: InFlight(s', i) == InFlight(s, i);
    assert LogSound(s.log, id, None, InFlight(s, id)) by {
      assert Lookup(s.rows, id) == None;
    }
    assert LocksMatch(s');
    forall v | v in s.workers
      ensures PhaseKnows(s'.rows, s.workers[v])
    {
      assert PhaseKnows(s.rows, s.workers[v]);
    }
    UnloggedKeeps(s, s', id);
  }

  lemma ClaimKeeps(s: State, w: WorkerId, id: RowId)
    requires Inv(s) && w !in s.workers && Claimable(s, id)
    ensures Inv(ClaimStep(s, w, id))
  {
    hide LogSound, RowSound;
    var s' := ClaimStep(s, w, id);
    assert LocksMatch(s') && PhaseKnows(s'.rows, s'.workers[w]);
    assert forall i :: InFlight(s', i) == InFlight(s, i);
    hide LogSound, RowSound, LocksMatch, PhaseKnows, InFlight;
  }

  /** A run moving on without posting, committing or letting go of its row. */
  lemma AdvanceKeeps(s: State, w: WorkerId, p: Phase)
    requires Inv(s) && w in s.workers && p.id == s.workers[w].id && PhaseKnows(s.rows, p)
    requires (p.Writing? && p.posted) == (s.workers[w].Writing? && s.workers[w].posted)
    ensures Inv(Enter(s, w, p))
  {
    hide LogSound, RowSound, PhaseKnows;
    var s' := Enter(s, w, p);
    assert LocksMatch(s');
    assert forall i :: InFlight(s', i) == InFlight(s, i);
    hide LogSound, RowSound, LocksMatch, PhaseKnows, InFlight;
  }

  lemma SeenDoesNotMatter(s: State, s': State)
    requires Inv(s) && s' == s.(seen := s'.seen)
    ensures Inv(s')
  {
    hide LogSound, RowSound, PhaseKnows;
    assert LocksMatch(s');
    assert forall i :: InFlight(s', i) == InFlight(s, i);
    hide LogSound, RowSound, LocksMatch, PhaseKnows, InFlight;
  }

  /** The phases a run may move on to still fit what it knows. */
  lemma PhaseAdvances(rows: map<RowId, Row>, p: Phase)
    requires PhaseKnows(rows, p)
    ensures p.row.tier != HumanOnly
    ensures p.AtGate? && GateOpens(p.row) ==> PhaseKnows(rows, AtVault(p.id, p.row))
    ensures p.AtVault? ==> PhaseKnows(rows, AtTarget(p.id, p.row))
    ensures p.AtTarget? ==> PhaseKnows(rows, AtPost(p.id, p.row))
    ensures p.AtVault? || p.AtTarget? ==> PhaseKnows(rows, StartWriting(p, FailedPlan(), false))
  {
  }

  lemma GateKeeps(s: State, w: WorkerId)
    requires Inv(s) && w in s.workers
    ensures Inv(GateStep(s, w))
  {
    var p := s.workers[w];
    PhaseAdvances(s.rows, p);
    hide Inv, PhaseKnows, RolledBack, Enter;
    if p.AtGate? && GateOpens(p.row) {
      AdvanceKeeps(s, w, AtVault(p.id, p.row));
    } else if p.AtGate? {
      RollbackKeeps(s, w);
    }
  }

  lemma FetchAndDecodeKeep(s: State, w: WorkerId, ok: bool)
    requires Inv(s) && w in s.workers
    ensures Inv(SecretStep(s, w, ok)) && Inv(TargetStep(s, w, ok))
  {
    var p := s.workers[w];
    PhaseAdvances(s.rows, p);
    hide Inv, PhaseKnows, Enter;
    if p.AtVault? {
      AdvanceKeeps(s, w, if ok then AtTarget(p.id, p.row) else StartWriting(p, FailedPlan(), false));
    } else if p.AtTarget? {
      AdvanceKeeps(s, w, if ok then AtPost(p.id, p.row) else StartWriting(p, FailedPlan(), false));
    }
  }

  lemma StatementKeeps(s: State, w: WorkerId, ok: bool)
    requires Inv(s) && w in s.workers && s.workers[w].Writing?
    ensures Inv(StatementStep(s, w, ok))
  {
    hide FailedPlan, ExecutedPlan, RowSound, LogSound, LocksMatch, Dispatchable, GateOpens;
    var p := s.workers[w];
    var p' := Writing(p.id, p.row, p.plan, p.next + 1, p.posted);
    assert PhaseKnows(s.rows, p) && PhaseKnows(s.rows, p');
    hide Inv, PhaseKnows, Enter, RolledBack, Statements;
    if ok {
      AdvanceKeeps(s, w, p');
    } else {
      RollbackKeeps(s, w);
    }
  }

  lemma CommitStepKeeps(s: State, w: WorkerId, ok: bool)
    requires Inv(s) && w in s.workers && s.workers[w].Writing?
    ensures Inv(CommitStep(s, w, ok))
  {
    hide Inv, RolledBack, Committed, Statements;
    if ok {
      CommitKeeps(s, w);
    } else {
      RollbackKeeps(s, w);
    }
  }

  lemma StepKeeps(s: State, step: Step)
    requires Inv(s)
    ensures Inv(Apply(s, step))
  {
    hide Inv, GateStep, SecretStep, TargetStep, RolledBack, Committed, Enter, Statements;
    match step {
      case Request(id, t, policy, at) => if id !in s.rows { RequestKeeps(s, id, t, policy, at); }
      case Claim(w, id) => if w !in s.workers && Claimable(s, id) { ClaimKeeps(s, w, id); }
      case Gate(w) => if w in s.workers { GateKeeps(s, w); }
      case FetchSecret(w, ok) => if w in s.workers { FetchAndDecodeKeep(s, w, ok); }
      case DecodeTarget(w, ok) => if w in s.workers { FetchAndDecodeKeep(s, w, ok); }
      case PostComment(w, ok) => if w in s.workers && s.workers[w].AtPost? { PostKeeps(s, w, ok); }
      case Statement(w, ok) => if w in s.workers && s.workers[w].Writing? { StatementKeeps(s, w, ok); }
      case Commit(w, ok) => if w in s.workers && s.workers[w].Writing? { CommitStepKeeps(s, w, ok); }
      case Crash(w) => if w in s.workers { RollbackKeeps(s, w); }
      case OperatorRead(op, id, verb) => SeenDoesNotMatter(s, OperatorReadStep(s, op, id, verb));
      case OperatorWrite(op, ok) =>
        if op in s.seen && s.seen[op].id in s.rows && s.seen[op].id !in s.locks && ok {
          OperatorKeeps(s, op);
        } else {
          SeenDoesNotMatter(s, OperatorWriteStep(s, op, ok));
        }
    }
  }

  lemma {:induction false} RunKeeps(s: State, steps: seq<Step>)
    requires Inv(s)
    ensures Inv(Exec(s, steps))
    decreases |steps|
  {
    hide Inv, Apply;
    if steps != [] {
      StepKeeps(s, steps[0]);
      RunKeeps(Apply(s, steps[0]), steps[1..]);
    }
  }

  lemma Reachable(steps: seq<Step>)
    ensures Inv(Exec(INIT, steps))
  {
    assert Inv(INIT);
    hide Inv;
    RunKeeps(INIT, steps);
  }
}
