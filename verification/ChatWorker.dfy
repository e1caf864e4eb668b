/**
 The turn worker as the imperative code it is (supervisor/internal/chat/worker.go) and the mutex
 registry it leans on (sessionmutex.go). A worker's run is proved to be a path of the protocol's
 steps, and what it leaves in the store is stated outright.
 */
module ChatWorker {
  import opened ChatTurns

  // ---------------------------------------------------------------- sessionmutex.go

  type Bytes = nat

  datatype Uuid = Uuid(bytes: Bytes, valid: bool)

  const ZERO_BYTES: Bytes := 0

  function KeyFor(id: Uuid): Bytes {
    if id.valid then id.bytes else ZERO_BYTES
  }

  class Mutex {
    constructor () {}
  }

  class SessionMutexRegistry {
    var per: map<Bytes, Mutex>

    ghost predicate Valid()
      reads this
    {
      forall a, b :: a in per && b in per && per[a] == per[b] ==> a == b
    }

    constructor ()
      ensures Valid() && per == map[]
    {
      per := map[];
    }

    method GetOrCreateLocked(key: Bytes) returns (m: Mutex)
      requires Valid()
      modifies this
      ensures Valid() && key in per && per[key] == m
      ensures per == old(per)[key := m]
      ensures if key in old(per) then m == old(per[key]) else fresh(m)
    {
      if key in per {
        assert per[key := per[key]] == per;
        return per[key];
      }
      m := new Mutex();
      per := per[key := m];
    }

    method AcquireForSession(id: Uuid) returns (m: Mutex)
      requires Valid()
      modifies this
      ensures Valid() && KeyFor(id) in per && per[KeyFor(id)] == m
      ensures per == old(per)[KeyFor(id) := m]
      ensures if KeyFor(id) in old(per) then m == old(per[KeyFor(id)]) else fresh(m)
    {
      if !id.valid {
        m := GetOrCreateLocked(ZERO_BYTES);
      } else {
        m := GetOrCreateLocked(id.bytes);
      }
    }
  }

  /**
   Over any sequence of callers, two get the same mutex exactly when they name the same session;
   callers with an invalid id all share the one of the all-zero id.
   */
  method AcquireAll(ids: seq<Uuid>) returns (mutexes: seq<Mutex>)
    ensures |mutexes| == |ids|
    ensures forall i, j :: 0 <= i < |ids| && 0 <= j < |ids| ==>
              (mutexes[i] == mutexes[j] <==>
               (if ids[i].valid then ids[i].bytes else 0) == (if ids[j].valid then ids[j].bytes else 0))
  {
    var registry := new SessionMutexRegistry();
    mutexes := [];
    for i := 0 to |ids|
      invariant |mutexes| == i && registry.Valid() && fresh(registry)
      invariant forall j :: 0 <= j < i ==> KeyFor(ids[j]) in registry.per && registry.per[KeyFor(ids[j])] == mutexes[j]
    {
      var m := registry.AcquireForSession(ids[i]);
      mutexes := mutexes + [m];
    }
  }

  // ---------------------------------------------------------------- worker.go

  /** How the calls of one HandleMessageInSession go: the session read, the transcript, each result's commit. */
  datatype Calls = Calls(readOk: bool, transcriptOk: bool, results: seq<(int, bool)>)

  function CommittedCosts(results: seq<(int, bool)>): seq<int> {
    if results == [] then []
    else
      var last := results[|results| - 1];
      CommittedCosts(results[..|results| - 1]) + if last.1 then [last.0] else []
  }

  function WithCosts(sess: Session, costs: seq<int>): Session {
    sess.(total := sess.total + Sum(costs), last := sess.last + Sum(costs), rolled := sess.rolled + costs)
  }

  /** What one undisturbed turn makes of its session. */
  function Turned(cap: int, sess: Session, turn: nat, calls: Calls): Session {
    if !calls.readOk || turn + 1 in sess.rows then sess
    else
      var answered := sess.(rows := sess.rows[turn + 1 := Assistant]);
      if !MaySpawn(cap, sess) then answered
      else WithCosts(answered.(last := 0), if calls.transcriptOk then CommittedCosts(calls.results) else [])
  }

  /** The costs kept are those of the committed results, in order. */
  lemma {:induction false} CommittedCostsMean(results: seq<(int, bool)>, more: seq<(int, bool)>, cost: int)
    ensures CommittedCosts(results + more) == CommittedCosts(results) + CommittedCosts(more)
    ensures CommittedCosts([(cost, true)]) == [cost] && CommittedCosts([(cost, false)]) == []
    decreases |more|
  {
    assert [(cost, true)][..0] == [] && [(cost, false)][..0] == [];
    if more == [] {
      assert results + more == results && CommittedCosts(results) + [] == CommittedCosts(results);
    } else {
      assert (results + more)[..|results + more| - 1] == results + more[..|more| - 1];
      CommittedCostsMean(results, more[..|more| - 1], cost);
    }
  }

  /**
   What a turn makes of its session: nothing if the session cannot be read or the row is already followed;
   a failed answer and no cost if it is not active or at its cap; else an answer, and the total and the
   list of costs grown by what the turn's committed results cost.
   */
  lemma TurnMeans(cap: int, sess: Session, turn: nat, calls: Calls)
    ensures var after := Turned(cap, sess, turn, calls); var answered := sess.rows[turn + 1 := Assistant];
            && (!calls.readOk || turn + 1 in sess.rows ==> after == sess)
            && (calls.readOk && turn + 1 !in sess.rows ==>
                  && after.rows == answered && after.status == sess.status
                  && if sess.status == Active && (cap <= 0 || sess.total < cap) && calls.transcriptOk
                     then && after.rolled == sess.rolled + CommittedCosts(calls.results)
                          && after.total == sess.total + Sum(CommittedCosts(calls.results))
                          && after.last == Sum(CommittedCosts(calls.results))
                     else after.rolled == sess.rolled && after.total == sess.total)
  {
    assert sess.rolled + [] == sess.rolled;
  }

  // ---------------------------------------------------------------- the path taken by the sweep

  /** A row FindOrphanedOperatorSessions returns: the newest of an active session, and an operator's. */
  predicate IsOrphan(sess: Session, turn: nat) {
    turn in sess.rows && sess.rows[turn] == Operator && IsNext(sess.rows, turn + 1) && sess.status == Active
  }

  function SweptSession(sess: Session, turn: nat): Session {
    sess.(rows := sess.rows[turn + 1 := Assistant], status := Aborted)
  }

  lemma SweepPair(cap: int, s: State, w: ActorId, o: Orphan, committed: bool)
    requires w !in s.sweepers && o.session in s.sessions && IsOrphan(s.sessions[o.session], o.turn)
    ensures var found := Apply(cap, s, FindOrphan(w, o.session, o.turn));
            && found == s.(sweepers := s.sweepers[w := o])
            && Apply(cap, found, WriteOrphan(w, committed)) ==
               if committed then s.(sessions := s.sessions[o.session := SweptSession(s.sessions[o.session], o.turn)]) else s
  {
    var found := Apply(cap, s, FindOrphan(w, o.session, o.turn));
    assert found.sweepers - {w} == s.sweepers;
    assert o.turn + 1 !in s.sessions[o.session].rows;
    hide IsNext;
    var sess := s.sessions[o.session];
    var rowed := s.sessions[o.session := sess.(rows := sess.rows[o.turn + 1 := Assistant])];
    assert rowed[o.session := SweptSession(sess, o.turn)] == s.sessions[o.session := SweptSession(sess, o.turn)];
  }

  // ---------------------------------------------------------------- the path taken by a turn

  /** The store while `w` is inside session `p.session`, which has become `sess`. */
  function Holding(s: State, w: ActorId, p: Work, sess: Session): State {
    s.(sessions := s.sessions[p.session := sess], workers := s.workers[w := p], mutexes := s.mutexes[p.session := w])
  }

  lemma HoldingIs(s: State, w: ActorId, p: Work, sess: Session)
    requires p.session in s.sessions && s.sessions[p.session] == sess
    ensures Holding(s, w, p, sess) == s.(workers := s.workers[w := p], mutexes := s.mutexes[p.session := w])
  {
    assert s.sessions[p.session := sess] == s.sessions;
  }

  /** Moving on, and changing the session, while holding it. */
  lemma HoldingHas(s: State, w: ActorId, p: Work, sess: Session)
    ensures var h := Holding(s, w, p, sess);
            && w in h.workers && h.workers[w] == p && p.session in h.sessions && h.sessions[p.session] == sess
            && (forall q: Work :: q.session == p.session ==> h.(workers := h.workers[w := q]) == Holding(s, w, q, sess))
            && (forall next :: h.(sessions := h.sessions[p.session := next]) == Holding(s, w, p, next))
  {
    var h := Holding(s, w, p, sess);
    forall q: Work | q.session == p.session
      ensures h.(workers := h.workers[w := q]) == Holding(s, w, q, sess)
    {
      assert h.workers[w := q] == s.workers[w := q];
    }
    forall next
      ensures h.(sessions := h.sessions[p.session := next]) == Holding(s, w, p, next)
    {
      assert h.sessions[p.session := next] == s.sessions[p.session := next];
    }
  }

  lemma LockHeld(cap: int, s: State, w: ActorId, id: SessionId, turn: nat)
    requires w !in s.workers && id !in s.mutexes && IsOperatorRow(s, id, turn)
    ensures Apply(cap, s, Lock(w, id, turn)) == Holding(s, w, Locked(id, turn), s.sessions[id])
  {
    HoldingIs(s, w, Locked(id, turn), s.sessions[id]);
    hide Holding;
  }

  lemma CheckHeld(cap: int, s: State, w: ActorId, id: SessionId, turn: nat, sess: Session, cleared: bool)
    requires cleared == MaySpawn(cap, sess)
    ensures var h := Holding(s, w, Locked(id, turn), sess); var p := if cleared then Cleared(id, turn) else Refused(id, turn);
            Apply(cap, h, Check(w)) == h.(workers := h.workers[w := p]) == Holding(s, w, p, sess)
  {
    HoldingHas(s, w, Locked(id, turn), sess);
    hide Holding, MaySpawn;
  }

  lemma InsertHeld(cap: int, s: State, w: ActorId, sess: Session, p: Work)
    requires p.Cleared? || p.Refused?
    ensures var h := Holding(s, w, p, sess); var answered := sess.(rows := sess.rows[p.turn + 1 := Assistant]);
            && h.sessions == s.sessions[p.session := sess]
            && (p.turn + 1 in sess.rows ==> Apply(cap, h, Insert(w)) == Released(h, w))
            && (p.turn + 1 !in sess.rows && p.Refused? ==>
                  && h.(sessions := h.sessions[p.session := answered]) == Holding(s, w, p, answered)
                  && Apply(cap, h, Insert(w)) == Released(Holding(s, w, p, answered), w))
            && (p.turn + 1 !in sess.rows && p.Cleared? ==>
                  var spawned := answered.(last := 0);
                  && h.(sessions := h.sessions[p.session := spawned]) == Holding(s, w, p, spawned)
                  && Holding(s, w, p, spawned).(workers := Holding(s, w, p, spawned).workers[w := Running(p.session, p.turn)])
                     == Holding(s, w, Running(p.session, p.turn), spawned)
                  && Apply(cap, h, Insert(w)) == Holding(s, w, Running(p.session, p.turn), spawned))
  {
    var h, answered := Holding(s, w, p, sess), sess.(rows := sess.rows[p.turn + 1 := Assistant]);
    var spawned := answered.(last := 0);
    HoldingHas(s, w, p, sess);
    HoldingHas(s, w, p, answered);
    HoldingHas(s, w, p, spawned);
    assert h.sessions == s.sessions[p.session := sess];
    hide Holding, Released;
    if p.turn + 1 !in sess.rows {
      var r := WithRow(h, p.session, p.turn + 1, Assistant);
      assert r == Holding(s, w, p, answered);
      assert r.(sessions := r.sessions[p.session := spawned]) == Holding(s, w, p, spawned);
    }
  }

  /** Letting go leaves the store as the worker found it, but for the session. */
  lemma LetGo(cap: int, s: State, w: ActorId, p: Work, sess: Session)
    requires w !in s.workers && p.session !in s.mutexes
    ensures var h := Holding(s, w, p, sess);
            && w in h.workers
            && Apply(cap, h, Release(w)) == Released(h, w) == s.(sessions := s.sessions[p.session := sess])
            && (p.session in s.sessions && s.sessions[p.session] == sess ==> s.(sessions := s.sessions[p.session := sess]) == s)
  {
    var h := Holding(s, w, p, sess);
    assert h.workers - {w} == s.workers;
    assert h.mutexes - {p.session} == s.mutexes;
    if p.session in s.sessions && s.sessions[p.session] == sess {
      assert s.sessions[p.session := sess] == s.sessions;
    }
  }

  lemma TurnedUnread(cap: int, sess: Session, turn: nat, calls: Calls)
    requires !calls.readOk
    ensures Turned(cap, sess, turn, calls) == sess
  {
  }

  lemma TurnedTaken(cap: int, sess: Session, turn: nat, calls: Calls)
    requires turn + 1 in sess.rows
    ensures Turned(cap, sess, turn, calls) == sess
  {
  }

  lemma TurnedRefused(cap: int, sess: Session, turn: nat, calls: Calls)
    requires calls.readOk && turn + 1 !in sess.rows && !MaySpawn(cap, sess)
    ensures Turned(cap, sess, turn, calls) == sess.(rows := sess.rows[turn + 1 := Assistant])
  {
  }

  lemma TurnedCleared(cap: int, sess: Session, turn: nat, calls: Calls)
    requires calls.readOk && turn + 1 !in sess.rows && MaySpawn(cap, sess)
    ensures var spawned := sess.(rows := sess.rows[turn + 1 := Assistant], last := 0);
            Turned(cap, sess, turn, calls) ==
            if calls.transcriptOk then WithCosts(spawned, CommittedCosts(calls.results)) else spawned
  {
    NoCosts(sess.(rows := sess.rows[turn + 1 := Assistant], last := 0));
  }

  lemma NoCosts(sess: Session)
    ensures WithCosts(sess, []) == sess && CommittedCosts([]) == []
  {
    assert sess.rolled + [] == sess.rolled;
  }

  lemma ResultApplied(cap: int, s: State, w: ActorId, cost: int, committed: bool)
    requires w in s.workers && s.workers[w].Running? && s.workers[w].session in s.sessions
    ensures var id := s.workers[w].session;
            Apply(cap, s, Result(w, cost, committed)) ==
            if committed then s.(sessions := s.sessions[id := WithCosts(s.sessions[id], [cost])]) else s
  {
    assert Sum([cost]) == cost;
  }

  lemma OneMoreCost(s: State, id: SessionId, sess: Session, results: seq<(int, bool)>, i: nat)
    requires i < |results|
    ensures var before := WithCosts(sess, CommittedCosts(results[..i]));
            var after := WithCosts(sess, CommittedCosts(results[..i + 1]));
            && after == (if results[i].1 then WithCosts(before, [results[i].0]) else before)
            && s.(sessions := s.sessions[id := before]).(sessions := s.sessions[id := before][id := after])
               == s.(sessions := s.sessions[id := after])
  {
    var costs, cost := CommittedCosts(results[..i]), results[i].0;
    assert results[..i + 1][..i] == results[..i];
    assert (costs + [cost])[..|costs|] == costs && Sum([cost]) == cost;
    assert sess.rolled + (costs + [cost]) == sess.rolled + costs + [cost];
    assert costs + [] == costs;
    var before := WithCosts(sess, costs);
    var after := WithCosts(sess, CommittedCosts(results[..i + 1]));
    assert s.sessions[id := before][id := after] == s.sessions[id := after];
  }

  ghost function TakeStep(cap: int, s: State, done: seq<Step>, step: Step): (trace: seq<Step>)
    ensures Exec(cap, s, trace) == Apply(cap, Exec(cap, s, done), step)
  {
    ExecSnoc(cap, s, done, step);
    done + [step]
  }

  lemma ExecNone(cap: int, s: State)
    ensures Exec(cap, s, []) == s
  {
  }

  lemma {:induction false} ExecSnoc(cap: int, s: State, steps: seq<Step>, step: Step)
    ensures Exec(cap, s, steps + [step]) == Apply(cap, Exec(cap, s, steps), step)
    decreases |steps|
  {
    hide Apply;
    if steps == [] {
      assert [step][1..] == [] && steps + [step] == [step];
      assert Exec(cap, s, [step]) == Exec(cap, Apply(cap, s, step), []);
    } else {
      assert (steps + [step])[0] == steps[0] && (steps + [step])[1..] == steps[1..] + [step];
      ExecSnoc(cap, Apply(cap, s, steps[0]), steps[1..], step);
    }
  }

  class ChatStore {
    var sessions: map<SessionId, Session>
    var used: set<SessionId>
    var senders: map<ActorId, Sending>
    var workers: map<ActorId, Work>
    var mutexes: map<SessionId, ActorId>
    var sweepers: map<ActorId, Orphan>

    ghost function Abs(): State
      reads this
    {
      State(sessions, used, senders, workers, mutexes, sweepers)
    }

    constructor ()
      ensures Abs() == INIT
    {
      sessions, used, senders, workers, mutexes, sweepers := map[], {}, map[], map[], map[], map[];
    }

    method Unlock(w: ActorId)
      requires w in workers
      modifies this`workers, this`mutexes
      ensures Abs() == Released(old(Abs()), w)
    {
      mutexes := mutexes - {workers[w].session};
      workers := workers - {w};
    }

    method Enter(w: ActorId, p: Work)
      modifies this`workers
      ensures Abs() == old(Abs()).(workers := old(workers)[w := p])
      ensures w in workers && workers[w] == p
    {
      workers := workers[w := p];
    }

    method PutSession(id: SessionId, sess: Session)
      modifies this`sessions
      ensures Abs() == old(Abs()).(sessions := old(sessions)[id := sess])
      ensures id in sessions && sessions[id] == sess
    {
      sessions := sessions[id := sess];
    }

    /** The results the spawned turn reports, one roll-up transaction each. */
    method SpawnTurn(cap: int, w: ActorId, id: SessionId, turn: nat, results: seq<(int, bool)>,
                     ghost s0: State, ghost done: seq<Step>)
      returns (ghost trace: seq<Step>)
      requires id in sessions && w in workers && workers[w] == Running(id, turn)
      requires Abs() == Exec(cap, s0, done)
      modifies this
      ensures Abs() == Exec(cap, s0, trace)
      ensures Abs() == old(Abs()).(sessions := old(sessions)[id := WithCosts(old(sessions)[id], CommittedCosts(results))])
      ensures w in workers && workers[w] == Running(id, turn)
    {
      hide Apply, Exec, WithCosts;
      ghost var start, sess := Abs(), sessions[id];
      trace := done;
      NoCosts(sess);
      assert sessions[id := sess] == sessions && results[..0] == [];
      for i := 0 to |results|
        invariant id in sessions && w in workers && workers[w] == Running(id, turn)
        invariant Abs() == Exec(cap, s0, trace)
        invariant Abs() == start.(sessions := start.sessions[id := WithCosts(sess, CommittedCosts(results[..i]))])
      {
        var (cost, committed) := results[i];
        ghost var before := Abs();
        ResultApplied(cap, before, w, cost, committed);
        trace := TakeStep(cap, s0, trace, Result(w, cost, committed));
        if committed {
          PutSession(id, WithCosts(sessions[id], [cost]));
        }
        OneMoreCost(start, id, sess, results, i);
      }
      assert results[..|results|] == results;
    }

    /** One turn, from the mutex to its release. */
    method HandleMessageInSession(cap: int, w: ActorId, id: SessionId, turn: nat, calls: Calls)
      returns (ghost trace: seq<Step>)
      requires w !in workers && id !in mutexes
      modifies this
      ensures Abs() == Exec(cap, old(Abs()), trace)
      ensures if IsOperatorRow(old(Abs()), id, turn)
              then Abs() == old(Abs()).(sessions := old(sessions)[id := Turned(cap, old(sessions)[id], turn, calls)])
              else Abs() == old(Abs())
    {
      hide Apply, Exec, Holding, Turned, Released, MaySpawn, WithCosts;
      ghost var s0 := Abs();
      trace := [];
      ExecNone(cap, s0);
      if id !in sessions || turn !in sessions[id].rows || sessions[id].rows[turn] != Operator {
        return;
      }
      var sess := sessions[id];
      LockHeld(cap, s0, w, id, turn);
      trace := TakeStep(cap, s0, trace, Lock(w, id, turn));
      workers, mutexes := workers[w := Locked(id, turn)], mutexes[id := w];
      assert Abs() == Holding(s0, w, Locked(id, turn), sess) by { HoldingIs(s0, w, Locked(id, turn), sess); }
      LetGo(cap, s0, w, Locked(id, turn), sess);
      if !calls.readOk {
        TurnedUnread(cap, sess, turn, calls);
        trace := TakeStep(cap, s0, trace, Release(w));
        Unlock(w);
        return;
      }
      var cleared := MaySpawn(cap, sess);
      CheckHeld(cap, s0, w, id, turn, sess, cleared);
      trace := TakeStep(cap, s0, trace, Check(w));
      var next := if cleared then Cleared(id, turn) else Refused(id, turn);
      Enter(w, next);
      InsertHeld(cap, s0, w, sess, next);
      LetGo(cap, s0, w, next, sess);
      trace := TakeStep(cap, s0, trace, Insert(w));
      if turn + 1 in sess.rows {
        TurnedTaken(cap, sess, turn, calls);
        Unlock(w);
        return;
      }
      var answered := sess.(rows := sess.rows[turn + 1 := Assistant]);
      if !cleared {
        TurnedRefused(cap, sess, turn, calls);
        PutSession(id, answered);
        LetGo(cap, s0, w, next, answered);
        Unlock(w);
        return;
      }
      var spawned := answered.(last := 0);
      PutSession(id, spawned);
      Enter(w, Running(id, turn));
      TurnedCleared(cap, sess, turn, calls);
      HoldingHas(s0, w, Running(id, turn), spawned);
      if calls.transcriptOk {
        trace := SpawnTurn(cap, w, id, turn, calls.results, s0, trace);
      }
      LetGo(cap, s0, w, Running(id, turn), Turned(cap, sess, turn, calls));
      trace := TakeStep(cap, s0, trace, Release(w));
      Unlock(w);
    }

    /** writeOrphanSyntheticTerminal: the synthetic row and the aborted session in one transaction. */
    method WriteOrphanSyntheticTerminal(o: Orphan, committed: bool)
      requires o.session in sessions && IsOrphan(sessions[o.session], o.turn)
      modifies this`sessions
      ensures sessions == if committed then old(sessions)[o.session := SweptSession(old(sessions)[o.session], o.turn)]
                          else old(sessions)
    {
      var sess := sessions[o.session];
      if committed && o.turn + 1 !in sess.rows {
        sess := sess.(rows := sess.rows[o.turn + 1 := Assistant]);
        if sess.status == Active {
          sess := sess.(status := Aborted);
        }
        sessions := sessions[o.session := sess];
      }
    }

    /**
     runOrphanOperatorSweep over what its query returned: each orphan whose transaction commits gets its
     aborted answer and an aborted session, whatever happened to the others; nothing else changes.
     */
    method RunOrphanOperatorSweep(cap: int, w: ActorId, orphans: seq<Orphan>, commits: nat -> bool)
      returns (ghost trace: seq<Step>)
      requires w !in sweepers
      requires forall i :: 0 <= i < |orphans| ==> orphans[i].session in sessions && IsOrphan(sessions[orphans[i].session], orphans[i].turn)
      requires forall i, j :: 0 <= i < j < |orphans| ==> orphans[i].session != orphans[j].session
      modifies this`sessions
      ensures Abs() == Exec(cap, old(Abs()), trace)
      ensures sessions.Keys == old(sessions).Keys
      ensures forall i :: 0 <= i < |orphans| ==>
                var o := orphans[i];
                sessions[o.session] == if commits(i) then SweptSession(old(sessions)[o.session], o.turn) else old(sessions)[o.session]
      ensures forall id :: id in sessions && (forall i :: 0 <= i < |orphans| ==> orphans[i].session != id) ==>
                sessions[id] == old(sessions)[id]
    {
      hide Exec, Apply, IsOrphan, SweptSession;
      ghost var s := Abs();
      trace := [];
      ExecNone(cap, s);
      for i := 0 to |orphans|
        invariant Abs() == Exec(cap, s, trace) && Abs() == s.(sessions := sessions)
        invariant sessions.Keys == s.sessions.Keys
        invariant forall j :: 0 <= j < i ==>
                    var o := orphans[j];
                    sessions[o.session] == if commits(j) then SweptSession(s.sessions[o.session], o.turn) else s.sessions[o.session]
        invariant forall id :: id in sessions && (forall j :: 0 <= j < i ==> orphans[j].session != id) ==> sessions[id] == s.sessions[id]
      {
        SweepPair(cap, Abs(), w, orphans[i], commits(i));
        trace := TakeStep(cap, s, trace, FindOrphan(w, orphans[i].session, orphans[i].turn));
        trace := TakeStep(cap, s, trace, WriteOrphan(w, commits(i)));
        WriteOrphanSyntheticTerminal(orphans[i], commits(i));
      }
    }
  }
}
