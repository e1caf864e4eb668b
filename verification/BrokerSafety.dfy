/** What every run of the action broker guarantees, and the one thing it does not. */
module BrokerSafety {
  import opened Common
  import opened ActionPolicy
  import opened Broker

  // ---------------------------------------------------------------- at most once

  /** No two dispatchers ever hold the same row. */
  lemma OneHolder(steps: seq<Step>, v: WorkerId, w: WorkerId)
    requires var s := Exec(INIT, steps); v in s.workers && w in s.workers && v != w
    ensures var s := Exec(INIT, steps); s.workers[v].id != s.workers[w].id
  {
    Reachable(steps);
  }

  /**
   At-most-once, exactly: a row's external posts are its settled post (at most one ever), the posts
   of runs that then failed to commit, and the one still in flight. So one post beyond the first
   costs one lost commit.
   */
  lemma {:induction false} PostsAccounted(steps: seq<Step>, id: RowId)
    ensures var s := Exec(INIT, steps);
            && Posts(s, id) == SettledPosts(s, id) + Lost(s, id) + InFlight(s, id)
            && SettledPosts(s, id) + InFlight(s, id) <= 1
            && Posts(s, id) <= 1 + Lost(s, id)
  {
    Reachable(steps);
    var s := Exec(INIT, steps);
    assert LogSound(s.log, id, Lookup(s.rows, id), InFlight(s, id));
    if InFlight(s, id) == 1 {
      assert PhaseKnows(s.rows, s.workers[s.locks[id]]);
      assert Settle(id, true) !in s.log;
    }
  }

  /** The bound is met: from any unlocked row the gate lets through, one lost commit allows a second post. */
  lemma LostCommitAllowsSecondPost(s: State, w: WorkerId, id: RowId)
    requires w !in s.workers && Claimable(s, id) && GateOpens(s.rows[id])
    ensures var s' := Exec(s, PostingSteps(w, id) + [Crash(w)] + PostingSteps(w, id));
            Posts(s', id) == Posts(s, id) + 2 && Lost(s', id) == Lost(s, id) + 1
  {
    hide GateOpens, ExecutedPlan, PostingSteps, Exec, Posts, Lost, Apply;
    var row, steps := s.rows[id], PostingSteps(w, id);
    PostingRun(s, w, id, row);
    var s1 := Exec(s, steps);
    CrashAfterPost(s, s1, w, id, row);
    var s2 := Apply(s1, Crash(w));
    PostingRun(s2, w, id, row);
    ExecAppend(s, steps, [Crash(w)]);
    ExecOne(s1, Crash(w));
    ExecAppend(s, steps + [Crash(w)], steps);
    PostsTwice(s, Exec(s2, steps), id);
  }

  lemma CrashAfterPost(s: State, s1: State, w: WorkerId, id: RowId, row: Row)
    requires w !in s.workers && id !in s.locks
    requires s1 == s.(locks := s.locks[id := w], log := s.log + [Post(id, true)],
                      workers := s.workers[w := Writing(id, row, ExecutedPlan(row), 0, true)])
    ensures Apply(s1, Crash(w)) == s.(log := s.log + [Post(id, true)] + [Lose(id)])
  {
    assert s1.workers - {w} == s.workers;
    assert s1.locks - {id} == s.locks;
  }

  lemma ExecOne(s: State, step: Step)
    ensures Exec(s, [step]) == Apply(s, step)
  {
    assert Exec(s, [step]) == Exec(Apply(s, step), [step][1..]);
  }

  lemma PostsTwice(s: State, s': State, id: RowId)
    requires s'.log == s.log + [Post(id, true)] + [Lose(id)] + [Post(id, true)]
    ensures Posts(s', id) == Posts(s, id) + 2 && Lost(s', id) == Lost(s, id) + 1
  {
  }

  function PostingSteps(w: WorkerId, id: RowId): seq<Step> {
    [Claim(w, id), Gate(w), FetchSecret(w, true), DecodeTarget(w, true), PostComment(w, true)]
  }

  /** A `Handle` run from an unlocked row up to and including its post. */
  lemma PostingRun(s: State, w: WorkerId, id: RowId, row: Row)
    requires w !in s.workers && Claimable(s, id) && s.rows[id] == row && GateOpens(row)
    ensures Exec(s, PostingSteps(w, id)) == s.(locks := s.locks[id := w], log := s.log + [Post(id, true)],
               workers := s.workers[w := Writing(id, row, ExecutedPlan(row), 0, true)])
  {
    var steps := PostingSteps(w, id);
    var s1 := Apply(s, steps[0]);
    assert s1 == s.(locks := s.locks[id := w], workers := s.workers[w := AtGate(id, row)]);
    var s2 := Apply(s1, steps[1]);
    assert s2.workers == s.workers[w := AtVault(id, row)];
    var s3 := Apply(s2, steps[2]);
    assert s3.workers == s.workers[w := AtTarget(id, row)];
    var s4 := Apply(s3, steps[3]);
    assert s4.workers == s.workers[w := AtPost(id, row)];
    var s5 := Apply(s4, steps[4]);
    assert s5.workers == s.workers[w := Writing(id, row, ExecutedPlan(row), 0, true)];
    hide Apply;
    assert steps[1..][0] == steps[1] && steps[1..][1..] == steps[2..];
    assert steps[2..][0] == steps[2] && steps[2..][1..] == steps[3..];
    assert steps[3..][0] == steps[3] && steps[3..][1..] == steps[4..];
    assert steps[4..][0] == steps[4] && steps[4..][1..] == [];
    assert Exec(s4, steps[4..]) == s5;
    assert Exec(s3, steps[3..]) == s5;
    assert Exec(s2, steps[2..]) == s5;
    assert Exec(s1, steps[1..]) == s5;
  }

  // ---------------------------------------------------------------- terminal rows

  /** Does this step call the provider for row `id`? */
  predicate PostsRow(s: State, step: Step, id: RowId) {
    step.PostComment? && step.w in s.workers && s.workers[step.w].AtPost? && s.workers[step.w].id == id
  }

  lemma PostsStep(s: State, step: Step, id: RowId)
    ensures Posts(Apply(s, step), id) == Posts(s, id) + if PostsRow(s, step, id) then 1 else 0
  {
    hide PostCount, GateOpens, Claimable, Written, ExecutedPlan, FailedPlan, SkippedPlan, Statements, Classify;
    match step {
      case PostComment(w, ok) => if w in s.workers && s.workers[w].AtPost? { PostCountMore(s.log, Post(s.workers[w].id, ok), id); }
      case Commit(w, _) =>
        if w in s.workers && s.workers[w].Writing? {
          PostCountMore(s.log, Settle(s.workers[w].id, s.workers[w].posted), id);
          PostCountMore(s.log, Lose(s.workers[w].id), id);
        }
      case Gate(w) => if w in s.workers { PostCountMore(s.log, Lose(s.workers[w].id), id); }
      case Statement(w, _) => if w in s.workers { PostCountMore(s.log, Lose(s.workers[w].id), id); }
      case Crash(w) => if w in s.workers { PostCountMore(s.log, Lose(s.workers[w].id), id); }
      case OperatorWrite(op, _) => if op in s.seen { PostCountMore(s.log, Approval(s.seen[op].id), id); }
      case _ =>
    }
  }

  lemma PostCountMore(log: seq<Event>, e: Event, id: RowId)
    ensures PostCount(log + [e], id) == PostCount(log, id) + if e.Post? && e.id == id then 1 else 0
  {
  }

  lemma TerminalStep(s: State, step: Step, id: RowId)
    requires Inv(s) && id in s.rows && Terminal(s.rows[id].status)
    ensures var s' := Apply(s, step);
            && id in s'.rows && s'.rows[id].status == s.rows[id].status && id !in s'.locks
            && Posts(s', id) == Posts(s, id)
  {
    hide RowSound, LogSound, Written, ExecutedPlan, FailedPlan, Posts, GateOpens;
    PostsStep(s, step, id);
    assert forall w :: w in s.workers ==> PhaseKnows(s.rows, s.workers[w]) && s.workers[w].id != id;
    assert id !in s.locks;
    hide PhaseKnows, LocksMatch;
  }

  /** A row that is executed, failed, rejected or done stays so, and is never claimed or posted again. */
  lemma {:induction false} TerminalForever(s: State, steps: seq<Step>, id: RowId)
    requires Inv(s) && id in s.rows && Terminal(s.rows[id].status)
    ensures var s' := Exec(s, steps);
            && id in s'.rows && s'.rows[id].status == s.rows[id].status
            && (steps != [] ==> id !in s'.locks)
            && Posts(s', id) == Posts(s, id)
    decreases |steps|
  {
    hide Inv, Apply, Posts;
    if steps != [] {
      TerminalStep(s, steps[0], id);
      StepKeeps(s, steps[0]);
      TerminalForever(Apply(s, steps[0]), steps[1..], id);
      if steps[1..] == [] {
        assert Exec(s, steps) == Apply(s, steps[0]);
      }
    }
  }

  // ---------------------------------------------------------------- who may be posted

  /**
   Every post, in every run and under every policy table, is of a row that is not human_only; and
   if its action type is on the floor, or its tier is approve, an operator's approval of that very
   row took effect earlier in the run.
   */
  lemma {:induction false} PostNeedsApproval(steps: seq<Step>, k: nat)
    requires k < |Exec(INIT, steps).log| && Exec(INIT, steps).log[k].Post?
    ensures var s := Exec(INIT, steps); var id := s.log[k].id;
            && id in s.rows && s.rows[id].tier != HumanOnly
            && (s.rows[id].actionType == "github_issue_comment" || s.rows[id].tier == Tier.Approve ==>
                  exists j :: 0 <= j < k && s.log[j] == Approval(id))
  {
    Reachable(steps);
    var s := Exec(INIT, steps);
    var id := s.log[k].id;
    assert LogSound(s.log, id, Lookup(s.rows, id), InFlight(s, id));
    assert s.log[k].Post?;
    assert RowSound(s.rows[id]);
    if s.rows[id].tier == Tier.Approve {
      assert Approval(id) in s.log[..k];
    }
  }

  /** Does `w` stay inside the same transaction, writing, for all of `steps`? */
  ghost predicate StaysWriting(s: State, w: WorkerId, steps: seq<Step>)
    decreases |steps|
  {
    && w in s.workers && s.workers[w].Writing?
    && (steps != [] ==> StaysWriting(Apply(s, steps[0]), w, steps[1..]))
  }

  /**
   A run whose vault fetch failed only ever writes 'failed' or gives up: as long as it holds the row
   nobody posts it, and if it then commits the row is failed for good.
   */
  lemma {:induction false} VaultFailureNeverPosts(s: State, w: WorkerId, steps: seq<Step>)
    requires Inv(s) && w in s.workers && s.workers[w].AtVault?
    requires StaysWriting(Apply(s, FetchSecret(w, false)), w, steps)
    ensures var s' := Exec(Apply(s, FetchSecret(w, false)), steps);
            && Posts(s', s.workers[w].id) == Posts(s, s.workers[w].id)
            && w in s'.workers && s'.workers[w].Writing? && s'.workers[w].id == s.workers[w].id
            && s'.workers[w].plan == FailedPlan()
            && Committed(s', w).rows[s.workers[w].id].status == Failed
  {
    var s1 := Apply(s, FetchSecret(w, false));
    StepKeeps(s, FetchSecret(w, false));
    assert s1.workers[w] == StartWriting(s.workers[w], FailedPlan(), false);
    HeldUnposted(s1, w, steps);
  }

  lemma {:induction false} HeldUnposted(s: State, w: WorkerId, steps: seq<Step>)
    requires Inv(s) && StaysWriting(s, w, steps) && s.workers[w].plan == FailedPlan()
    ensures var s' := Exec(s, steps);
            && w in s'.workers && s'.workers[w].Writing? && s'.workers[w].id == s.workers[w].id
            && s'.workers[w].plan == FailedPlan()
            && Posts(s', s.workers[w].id) == Posts(s, s.workers[w].id)
    decreases |steps|
  {
    if steps != [] {
      StepKeeps(s, steps[0]);
      HeldStep(s, w, steps[0]);
      hide Inv, Apply, Posts;
      HeldUnposted(Apply(s, steps[0]), w, steps[1..]);
    }
  }

  lemma HeldStep(s: State, w: WorkerId, step: Step)
    requires Inv(s) && w in s.workers && s.workers[w].Writing?
    requires w in Apply(s, step).workers && Apply(s, step).workers[w].Writing?
    ensures var s' := Apply(s, step);
            && s'.workers[w].id == s.workers[w].id && s'.workers[w].plan == s.workers[w].plan
            && Posts(s', s.workers[w].id) == Posts(s, s.workers[w].id)
  {
    hide RowSound, LogSound, Written, ExecutedPlan, FailedPlan, PhaseKnows, Posts;
    PostsStep(s, step, s.workers[w].id);
    assert forall v :: v in s.workers && v != w ==> s.workers[v].id != s.workers[w].id;
  }

  // ---------------------------------------------------------------- history and status

  lemma {:induction false} DispatcherCounts(history: seq<Outcome>, o: Outcome)
    requires IsDispatcherOutcome(o)
    ensures multiset(history)[o] == multiset(DispatcherHistory(history))[o]
    decreases |history|
  {
    if history != [] {
      var front := history[..|history| - 1];
      DispatcherCounts(front, o);
      assert history == front + [history[|history| - 1]];
    }
  }

  /**
   In every reachable state a row's outcome history and status agree: executed exactly when it has
   its one executed outcome, then followed by one notified outcome exactly on the notify tier;
   failed exactly when it has its one failed outcome; never both.
   */
  lemma {:induction false} OutcomesMatchStatus(steps: seq<Step>, id: RowId)
    requires id in Exec(INIT, steps).rows
    ensures var row := Exec(INIT, steps).rows[id]; var outcomes := multiset(row.history);
            && (row.status == Executed <==> outcomes[WasExecuted] == 1) && outcomes[WasExecuted] <= 1
            && (row.status == Failed <==> outcomes[HasFailed] == 1) && outcomes[HasFailed] <= 1
            && outcomes[Notified] == (if row.status == Executed && row.tier == Notify then 1 else 0)
            && (row.status == Executed && row.tier == Notify ==>
                  DispatcherHistory(row.history) == [WasExecuted, Notified])
  {
    Reachable(steps);
    var row := Exec(INIT, steps).rows[id];
    assert RowSound(row);
    DispatcherCounts(row.history, WasExecuted);
    DispatcherCounts(row.history, HasFailed);
    DispatcherCounts(row.history, Notified);
  }

  // ---------------------------------------------------------------- requests and decisions

  /** A request's row: below the approve tier only if the deploy table says so and the type is not on the floor. */
  lemma RequestedTier(s: State, id: RowId, actionType: string, policy: Policy, createdAt: int)
    requires id !in s.rows
    ensures var s' := Apply(s, Request(id, actionType, policy, createdAt));
            && id in s'.rows && s'.rows == s.rows[id := s'.rows[id]]
            && var row := s'.rows[id];
               && row.actionType == actionType && row.createdAt == createdAt
               && row.status == Pending && row.history == [Requested]
               && (row.tier != Tier.Approve <==> actionType != "github_issue_comment" && actionType in policy
                                                 && policy[actionType] != Tier.Approve)
               && (row.tier != Tier.Approve ==> row.tier == policy[actionType])
  {
  }

  /** An operator's undisturbed decision on a pending row, verb by verb; on any other row the action does not even start. */
  lemma OperatorDecides(s: State, op: OperatorId, id: RowId, verb: Verb, ok: bool)
    requires id in s.rows && op !in s.seen
    ensures s.rows[id].status != Pending ==> Apply(s, OperatorRead(op, id, verb)) == s
    ensures s.rows[id].status == Pending && id !in s.locks ==>
              var row, s' := s.rows[id], Exec(s, [OperatorRead(op, id, verb), OperatorWrite(op, ok)]);
              && (!ok ==> s' == s)
              && (ok && verb == Verb.Approve ==>
                    && s'.rows == s.rows[id := row.(status := Approved, history := row.history + [OperatorApproved])]
                    && s'.log == s.log + [Approval(id)])
              && (ok && verb == Reject ==>
                    s' == s.(rows := s.rows[id := row.(status := Rejected, history := row.history + [OperatorRejected])]))
              && (ok && verb == MarkDone ==>
                    s' == s.(rows := s.rows[id := row.(status := Done, history := row.history + [MarkedDone])]))
  {
    var read, write := OperatorRead(op, id, verb), OperatorWrite(op, ok);
    if s.rows[id].status == Pending && id !in s.locks {
      var s1 := Apply(s, read);
      assert s1.seen - {op} == s.seen;
      assert [read, write][1..] == [write];
      ExecOne(s1, write);
    }
  }

  // ---------------------------------------------------------------- status and answer

  /** The provider's answer to the latest post of this row. */
  function LastAnswer(log: seq<Event>, id: RowId): Option<bool>
    decreases |log|
  {
    if log == [] then None
    else if log[|log| - 1].Post? && log[|log| - 1].id == id then Some(log[|log| - 1].ok)
    else LastAnswer(log[..|log| - 1], id)
  }

  /** How this row was settled: by a run that posted it and was answered well, or by any other. */
  function Verdict(log: seq<Event>, id: RowId): Option<bool>
    decreases |log|
  {
    if log == [] then None
    else
      var front, e := log[..|log| - 1], log[|log| - 1];
      if e.Settle? && e.id == id then Some(e.posted && LastAnswer(front, id) == Some(true)) else Verdict(front, id)
  }

  lemma OneEventMore(log: seq<Event>, e: Event, id: RowId)
    ensures LastAnswer(log + [e], id) == if e.Post? && e.id == id then Some(e.ok) else LastAnswer(log, id)
    ensures Verdict(log + [e], id) ==
            if e.Settle? && e.id == id then Some(e.posted && LastAnswer(log, id) == Some(true)) else Verdict(log, id)
  {
    assert (log + [e])[..|log|] == log;
  }

  /** What a status says of the verdict. */
  function Verdicted(status: Status): Option<bool> {
    match status
    case Executed => Some(true)
    case Failed => Some(false)
    case _ => None
  }

  /** A run that posted writes what it was answered; one that did not writes 'failed'. */
  predicate WritesAnswer(log: seq<Event>, p: Phase) {
    p.Writing? ==> if p.posted then LastAnswer(log, p.id) == Some(p.plan.status == Some(Executed)) else p.plan.status == Some(Failed)
  }

  ghost predicate Told(s: State, id: RowId) {
    && Verdict(s.log, id) == (if id in s.rows then Verdicted(s.rows[id].status) else None)
    && (id in s.locks && s.locks[id] in s.workers ==> WritesAnswer(s.log, s.workers[s.locks[id]]))
  }

  /** Events of other rows, and those that are neither a post nor a settlement, tell nothing new. */
  lemma Untold(log: seq<Event>, e: Event, id: RowId)
    requires e.id != id || e.Approval? || e.Lose?
    ensures LastAnswer(log + [e], id) == LastAnswer(log, id) && Verdict(log + [e], id) == Verdict(log, id)
  {
    OneEventMore(log, e, id);
  }

  /** Nothing that matters to this row: its holder, if it still has one, is where it was. */
  lemma ToldFrame(s: State, s': State, id: RowId, events: seq<Event>)
    requires Told(s, id) && s'.log == s.log + events && |events| <= 1
    requires events != [] ==> events[0].id != id || events[0].Approval? || events[0].Lose?
    requires if id in s.rows then id in s'.rows && Verdicted(s'.rows[id].status) == Verdicted(s.rows[id].status)
             else id in s'.rows ==> Verdicted(s'.rows[id].status) == None
    requires id in s'.locks && s'.locks[id] in s'.workers ==>
               var p := s'.workers[s'.locks[id]];
               !p.Writing? || (id in s.locks && s.locks[id] in s.workers && p.id == id && SameWriting(s.workers[s.locks[id]], p))
    ensures Told(s', id)
  {
    if events == [] {
      assert s'.log == s.log;
    } else {
      assert s'.log == s.log + [events[0]];
      Untold(s.log, events[0], id);
    }
    hide LastAnswer, Verdict;
  }

  /** The same transaction, perhaps some statements later, or one that begins writing 'failed' unposted. */
  predicate SameWriting(p: Phase, q: Phase) {
    && q.Writing? && q.id == p.id
    && (if p.Writing? then q.plan == p.plan && q.posted == p.posted else q.plan.status == Some(Failed) && !q.posted)
  }

  lemma ToldPost(s: State, w: WorkerId, ok: bool, id: RowId)
    requires Inv(s) && Told(s, id) && w in s.workers && s.workers[w].AtPost?
    ensures Told(PostStep(s, w, ok), id)
  {
    var p, s' := s.workers[w], PostStep(s, w, ok);
    assert s.locks[p.id] == w;
    hide Inv;
    if p.id == id {
      OneEventMore(s.log, Post(id, ok), id);
    } else {
      ToldFrame(s, s', id, [Post(p.id, ok)]);
    }
  }

  lemma ToldCommit(s: State, w: WorkerId, id: RowId)
    requires Inv(s) && Told(s, id) && w in s.workers && s.workers[w].Writing?
    ensures Told(Committed(s, w), id)
  {
    var p, s' := s.workers[w], Committed(s, w);
    assert s.locks[p.id] == w && PhaseKnows(s.rows, p);
    if p.id == id {
      OneEventMore(s.log, Settle(id, p.posted), id);
      hide LastAnswer, Verdict, LogSound, RowSound;
    } else {
      assert s'.rows == s.rows[p.id := s'.rows[p.id]];
      hide Inv;
      ToldFrame(s, s', id, [Settle(p.id, p.posted)]);
    }
  }

  lemma ToldRollback(s: State, w: WorkerId, id: RowId)
    requires Inv(s) && Told(s, id) && w in s.workers
    ensures Told(RolledBack(s, w), id)
  {
    var p, s' := s.workers[w], RolledBack(s, w);
    assert s.locks[p.id] == w;
    assert id in s'.locks ==> s'.locks[id] != w by {
      assert id in s'.locks ==> s.workers[s.locks[id]].id == id;
    }
    assert id in s'.locks && s'.locks[id] in s'.workers ==> s.workers[s.locks[id]].id == id;
    hide Inv;
    ToldFrame(s, s', id, if p.Writing? && p.posted then [Lose(p.id)] else []);
  }

  /** A run moves on without posting or letting go. */
  lemma ToldEnter(s: State, w: WorkerId, q: Phase, id: RowId)
    requires Inv(s) && Told(s, id) && w in s.workers && q.id == s.workers[w].id
    requires !q.Writing? || SameWriting(s.workers[w], q)
    ensures Told(Enter(s, w, q), id)
  {
    assert s.locks[q.id] == w;
    assert id in s.locks && s.locks[id] in s.workers ==> s.workers[s.locks[id]].id == id;
    hide Inv;
    var s' := Enter(s, w, q);
    assert s'.log == s.log + [];
    if id in s'.locks && s'.locks[id] in s'.workers && s'.locks[id] != w && s'.workers[s'.locks[id]].Writing? {
      assert SameWriting(s.workers[s.locks[id]], s'.workers[s'.locks[id]]);
    }
    ToldFrame(s, s', id, []);
  }

  lemma ToldOperator(s: State, op: OperatorId, ok: bool, id: RowId)
    requires Inv(s) && Told(s, id)
    ensures Told(OperatorWriteStep(s, op, ok), id)
  {
    var s' := OperatorWriteStep(s, op, ok);
    HolderWrites(s, s', id);
    hide Inv;
    if s' == s {
    } else {
      var i := s.seen[op].id;
      ToldFrame(s, s', id, if s'.log == s.log then [] else [Approval(i)]);
    }
  }

  lemma HolderWrites(s: State, s': State, id: RowId)
    requires Inv(s) && s'.locks == s.locks && s'.workers == s.workers
    ensures id in s'.locks && s'.locks[id] in s'.workers ==>
              var p := s'.workers[s'.locks[id]]; p.id == id && (p.Writing? ==> SameWriting(s.workers[s.locks[id]], p))
  {
  }

  lemma ToldClaim(s: State, w: WorkerId, i: RowId, id: RowId)
    requires Inv(s) && Told(s, id) && w !in s.workers && Claimable(s, i)
    ensures Told(ClaimStep(s, w, i), id)
  {
    var s' := ClaimStep(s, w, i);
    HolderWrites(s, s, id);
    assert s'.log == s.log + [];
    hide Inv;
    ToldFrame(s, s', id, []);
  }

  lemma ToldQuiet(s: State, s': State, id: RowId)
    requires Inv(s) && Told(s, id) && s'.locks == s.locks && s'.workers == s.workers && s'.log == s.log
    requires if id in s.rows then id in s'.rows && s'.rows[id] == s.rows[id] else id in s'.rows ==> s'.rows[id].status == Pending
    ensures Told(s', id)
  {
    HolderWrites(s, s', id);
    assert s'.log == s.log + [];
    hide Inv;
    ToldFrame(s, s', id, []);
  }

  lemma ToldStep(s: State, step: Step, id: RowId)
    requires Inv(s) && Told(s, id)
    ensures Told(Apply(s, step), id)
  {
    hide Inv, Told, Enter, RolledBack, Committed, GateOpens, Statements;
    match step {
      case Request(_, _, _, _) => ToldQuiet(s, Apply(s, step), id);
      case Claim(w, i) => if w !in s.workers && Claimable(s, i) { ToldClaim(s, w, i, id); }
      case Gate(w) =>
        if w in s.workers && s.workers[w].AtGate? {
          var p := s.workers[w];
          NotHumanOnly(s, w);
          if GateOpens(p.row) {
            ToldEnter(s, w, AtVault(p.id, p.row), id);
          } else {
            ToldRollback(s, w, id);
          }
        }
      case FetchSecret(w, ok) =>
        if w in s.workers && s.workers[w].AtVault? {
          var p := s.workers[w];
          ToldEnter(s, w, if ok then AtTarget(p.id, p.row) else StartWriting(p, FailedPlan(), false), id);
        }
      case DecodeTarget(w, ok) =>
        if w in s.workers && s.workers[w].AtTarget? {
          var p := s.workers[w];
          ToldEnter(s, w, if ok then AtPost(p.id, p.row) else StartWriting(p, FailedPlan(), false), id);
        }
      case PostComment(w, ok) => if w in s.workers && s.workers[w].AtPost? { ToldPost(s, w, ok, id); }
      case Statement(w, ok) =>
        if w in s.workers && s.workers[w].Writing? {
          var p := s.workers[w];
          ToldEnter(s, w, Writing(p.id, p.row, p.plan, p.next + 1, p.posted), id);
          ToldRollback(s, w, id);
        }
      case Commit(w, ok) =>
        if w in s.workers && s.workers[w].Writing? {
          ToldCommit(s, w, id);
          ToldRollback(s, w, id);
        }
      case Crash(w) => if w in s.workers { ToldRollback(s, w, id); }
      case OperatorRead(_, _, _) => ToldQuiet(s, Apply(s, step), id);
      case OperatorWrite(op, ok) => ToldOperator(s, op, ok, id);
    }
  }

  lemma NotHumanOnly(s: State, w: WorkerId)
    requires Inv(s) && w in s.workers
    ensures s.workers[w].row.tier != HumanOnly
  {
    assert PhaseKnows(s.rows, s.workers[w]);
  }

  lemma {:induction false} ToldForever(s: State, steps: seq<Step>, id: RowId)
    requires Inv(s) && Told(s, id)
    ensures Told(Exec(s, steps), id)
    decreases |steps|
  {
    hide Inv, Told, Apply;
    if steps != [] {
      ToldStep(s, steps[0], id);
      StepKeeps(s, steps[0]);
      ToldForever(Apply(s, steps[0]), steps[1..], id);
    }
  }

  /**
   Over every run: a row is executed exactly when the run that settled it had posted it and was answered
   well, and failed exactly when it was settled by a run that had not, or was not.
   */
  lemma {:induction false} ExecutedIffAnswered(steps: seq<Step>, id: RowId)
    requires id in Exec(INIT, steps).rows
    ensures var s := Exec(INIT, steps);
            && (s.rows[id].status == Executed <==> Verdict(s.log, id) == Some(true))
            && (s.rows[id].status == Failed <==> Verdict(s.log, id) == Some(false))
  {
    assert Inv(INIT) && Told(INIT, id);
    hide Inv, Exec;
    ToldForever(INIT, steps, id);
  }

  // ---------------------------------------------------------------- stale operator writes

  /** The operator outcomes a row's history may show in front of the dispatcher's. */
  predicate OperatorPart(row: Row, part: seq<Outcome>) {
    match row.status
    case Pending => part == []
    case Approved => part == [OperatorApproved]
    case Rejected => part == [OperatorRejected]
    case Done => part == [MarkedDone]
    case Executed | Failed => part == [OperatorApproved] || (part == [] && row.tier != Tier.Approve)
  }

  /** Requested, then what the operator decided, then what the dispatcher did: nothing else. */
  ghost predicate Clean(row: Row) {
    exists part :: OperatorPart(row, part)
                && row.history == [Requested] + part + ExpectedHistory(row.tier, row.status)
  }

  /** An operator transaction that read 'pending' and commits when the row no longer is. */
  predicate StaleWrite(s: State, step: Step, id: RowId) {
    && step.OperatorWrite? && step.ok && step.op in s.seen && s.seen[step.op].id == id
    && id in s.rows && id !in s.locks && s.rows[id].status != Pending
  }

  ghost predicate HasStaleWrite(s: State, steps: seq<Step>, id: RowId)
    decreases |steps|
  {
    steps != [] && (StaleWrite(s, steps[0], id) || HasStaleWrite(Apply(s, steps[0]), steps[1..], id))
  }

  /** What the status says about how the history begins. */
  predicate BeginsRight(row: Row) {
    match row.status
    case Pending => row.history == [Requested]
    case Approved => |row.history| >= 2 && row.history[..2] == [Requested, OperatorApproved]
    case _ => |row.history| >= 2
  }

  lemma CleanAfterWrite(row: Row, plan: Plan)
    requires BeginsRight(row) && Dispatchable(row) && GateOpens(row)
    requires plan == ExecutedPlan(row) || plan == FailedPlan()
    ensures Clean(Written(row, plan)) <==> Clean(row)
  {
    var row' := Written(row, plan);
    var tail := ExpectedHistory(row'.tier, row'.status);
    assert plan.outcomes == tail;
    if Clean(row) {
      var part :| OperatorPart(row, part) && row.history == [Requested] + part + [];
      assert row'.history == [Requested] + part + tail;
      assert OperatorPart(row', part);
    }
    if Clean(row') {
      var part :| OperatorPart(row', part) && row'.history == [Requested] + part + tail;
      assert row.history == row'.history[..|row.history|] == [Requested] + part;
      if row.status == Approved {
        assert part == [OperatorApproved];
      }
      assert OperatorPart(row, part) && row.history == [Requested] + part + [];
    }
  }

  lemma CleanAfterOperator(row: Row, verb: Verb)
    requires BeginsRight(row)
    ensures Clean(OperatorWritten(row, verb)) <==> Clean(row) && row.status == Pending
  {
    var row', o := OperatorWritten(row, verb), VerbOutcome(verb);
    if row.status == Pending {
      assert row.history == [Requested] + [] + [];
      assert OperatorPart(row, []);
      assert row'.history == [Requested] + [o] + [];
      assert OperatorPart(row', [o]);
    } else {
      forall part | OperatorPart(row', part)
        ensures row'.history != [Requested] + part + ExpectedHistory(row'.tier, row'.status)
      {
        var expected := [Requested] + part + ExpectedHistory(row'.tier, row'.status);
        assert row'.history[|row'.history| - 1] == o && |row'.history| >= 3;
        if row.status == Executed || row.status == Failed {
          assert expected[|expected| - 1] != o;
        } else {
          assert |expected| == 2;
        }
      }
    }
  }

  ghost predicate HistoriesBegin(s: State) {
    forall id :: id in s.rows ==> BeginsRight(s.rows[id])
  }

  /** One step: histories keep beginning right, and a row stops being clean exactly by a stale write. */
  lemma CleanStep(s: State, step: Step, id: RowId)
    requires Inv(s) && HistoriesBegin(s)
    ensures HistoriesBegin(Apply(s, step))
    ensures id in s.rows ==> id in Apply(s, step).rows
    ensures id in s.rows ==> (Clean(Apply(s, step).rows[id]) <==> Clean(s.rows[id]) && !StaleWrite(s, step, id))
    ensures id !in s.rows && id in Apply(s, step).rows ==> Clean(Apply(s, step).rows[id])
  {
    hide RowSound, LogSound, LocksMatch, Clean;
    if step.Commit? && step.w in s.workers && s.workers[step.w].Writing? {
      var p := s.workers[step.w];
      assert PhaseKnows(s.rows, p);
      CleanAfterWrite(p.row, p.plan);
      assert BeginsRight(Written(p.row, p.plan));
    } else if step.OperatorWrite? && step.op in s.seen && s.seen[step.op].id in s.rows {
      CleanAfterOperator(s.rows[s.seen[step.op].id], s.seen[step.op].verb);
    } else if step.Request? {
      FreshRowClean(step.actionType, Classify(step.policy, step.actionType).0, step.createdAt);
    }
  }

  lemma FreshRowClean(actionType: string, tier: Tier, createdAt: int)
    ensures var row := Row(actionType, tier, Pending, createdAt, [Requested]); Clean(row) && BeginsRight(row)
  {
    var row := Row(actionType, tier, Pending, createdAt, [Requested]);
    assert OperatorPart(row, []) && row.history == [Requested] + [] + [];
  }

  /**
   When the outcome history tells one consistent story. The Outbox's claim is that a replayed or
   racing operator action is a no-op; its UPDATE is, but the outcome row is inserted all the same.
   So a row's history is requested / decided / dispatched, and nothing else, exactly in the runs in
   which no operator transaction committed on it after its status had left 'pending'.
   */
  lemma {:induction false} CleanIffNoStaleWrite(s: State, steps: seq<Step>, id: RowId)
    requires Inv(s) && HistoriesBegin(s) && (id in s.rows ==> Clean(s.rows[id]))
    requires id in Exec(s, steps).rows
    ensures Clean(Exec(s, steps).rows[id]) <==> !HasStaleWrite(s, steps, id)
    decreases |steps|
  {
    if steps != [] {
      var s' := Apply(s, steps[0]);
      CleanStep(s, steps[0], id);
      StepKeeps(s, steps[0]);
      hide Inv, Apply, HistoriesBegin, StaleWrite;
      if id in s'.rows && !Clean(s'.rows[id]) {
        UncleanForever(s', steps[1..], id);
      } else {
        CleanIffNoStaleWrite(s', steps[1..], id);
      }
    }
  }

  lemma HistoryCleanIff(steps: seq<Step>, id: RowId)
    requires id in Exec(INIT, steps).rows
    ensures Clean(Exec(INIT, steps).rows[id]) <==> !HasStaleWrite(INIT, steps, id)
  {
    assert Inv(INIT);
    hide Inv, Clean, HasStaleWrite;
    CleanIffNoStaleWrite(INIT, steps, id);
  }

  lemma {:induction false} UncleanForever(s: State, steps: seq<Step>, id: RowId)
    requires Inv(s) && HistoriesBegin(s) && id in s.rows && !Clean(s.rows[id])
    ensures id in Exec(s, steps).rows && !Clean(Exec(s, steps).rows[id])
    decreases |steps|
  {
    if steps != [] {
      CleanStep(s, steps[0], id);
      StepKeeps(s, steps[0]);
      hide Inv, Apply, HistoriesBegin, StaleWrite, Clean;
      UncleanForever(Apply(s, steps[0]), steps[1..], id);
    }
  }

  function RaceSteps(id: RowId, a: OperatorId, b: OperatorId): seq<Step> {
    [OperatorRead(a, id, Verb.Approve), OperatorRead(b, id, Verb.Reject), OperatorWrite(a, true), OperatorWrite(b, true)]
  }

  lemma RaceRun(s: State, id: RowId, a: OperatorId, b: OperatorId)
    requires id in s.rows && s.rows[id].status == Pending
    requires id !in s.locks && a != b && a !in s.seen && b !in s.seen
    ensures var s' := Exec(s, RaceSteps(id, a, b)); var row := s.rows[id];
            && s'.rows == s.rows[id := row.(status := Approved, history := row.history + [OperatorApproved, OperatorRejected])]
            && s'.log == s.log + [Approval(id)] && s'.locks == s.locks && s'.workers == s.workers
  {
    var race, row := RaceSteps(id, a, b), s.rows[id];
    var s1 := Apply(s, race[0]);
    var s2 := Apply(s1, race[1]);
    var s3 := Apply(s2, race[2]);
    assert s3.rows[id] == row.(status := Approved, history := row.history + [OperatorApproved]);
    var s4 := Apply(s3, race[3]);
    assert row.history + [OperatorApproved] + [OperatorRejected] == row.history + [OperatorApproved, OperatorRejected];
    assert s4.rows == s.rows[id := row.(status := Approved, history := row.history + [OperatorApproved, OperatorRejected])];
    hide Apply, RaceSteps;
    assert race[1..][0] == race[1] && race[1..][1..] == race[2..];
    assert race[2..][0] == race[2] && race[2..][1..] == race[3..];
    assert race[3..][0] == race[3] && race[3..][1..] == [];
    assert Exec(s3, race[3..]) == s4;
    assert Exec(s2, race[2..]) == s4;
    assert Exec(s1, race[1..]) == s4;
  }

  /** The race itself: two operators read the same pending row; the approval wins, the rejection is recorded too. */
  lemma RejectedYetPosted(s: State, id: RowId, w: WorkerId, a: OperatorId, b: OperatorId)
    requires id in s.rows && s.rows[id].tier == Tier.Approve && s.rows[id].status == Pending
    requires id !in s.locks && w !in s.workers && a != b && a !in s.seen && b !in s.seen
    ensures var s' := Exec(s, RaceSteps(id, a, b) + PostingSteps(w, id));
            && Posts(s', id) == Posts(s, id) + 1
            && id in s'.rows
            && s'.rows[id].history == s.rows[id].history + [OperatorApproved, OperatorRejected]
  {
    RaceRun(s, id, a, b);
    var s1 := Exec(s, RaceSteps(id, a, b));
    hide RaceSteps, PostingSteps, Apply;
    PostingRun(s1, w, id, s1.rows[id]);
    ExecAppend(s, RaceSteps(id, a, b), PostingSteps(w, id));
  }
}
