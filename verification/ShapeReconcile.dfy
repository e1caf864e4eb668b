/**
 The boot-time walk that converges every agent container to its desired create shape
 (supervisor/internal/agentcontainer/shape.go), over an engine any of whose calls may fail.
 */
module ShapeReconcile {
  import opened Common
  import opened Docker

  /** `shape` is the hash label buildCreateBody computes; absent when it rejects the spec. */
  datatype Spec = Spec(agentId: string, shape: Option<Hash>)

  datatype Outcome = Created | Recreated | Restarted | Unchanged | Failed

  function WithoutDashes(s: string): string {
    if s == [] then []
    else if s[0] == '-' then WithoutDashes(s[1..])
    else [s[0]] + WithoutDashes(s[1..])
  }

  function ContainerName(agentId: string): string {
    var stripped := WithoutDashes(agentId);
    "garrison-agent-" + if |stripped| > 8 then stripped[..8] else stripped
  }

  // ---------------------------------------------------------------- one spec, as a function

  function CreateAndStart(w: World, f: nat -> Fault, name: string, hash: Hash): (World, bool) {
    var (w', ok) := Do(w, f, Create(name, hash));
    if ok then Do(w', f, Start(w.nextId)) else (w', false)
  }

  /** Stop is best effort: only the forced remove decides whether the walk goes on. */
  function Replace(w: World, f: nat -> Fault, id: Id, name: string, hash: Hash): (World, bool) {
    var (stopped, _) := Do(w, f, Stop(id));
    var (gone, ok) := Do(stopped, f, Remove(id));
    if ok then CreateAndStart(gone, f, name, hash) else (gone, false)
  }

  function Reported(done: (World, bool), success: Outcome): (World, Outcome) {
    (done.0, if done.1 then success else Failed)
  }

  function One(w: World, f: nat -> Fault, spec: Spec): (World, Outcome)
    requires Sound(w)
  {
    if spec.shape.None? then (w, Failed)
    else
      var name, hash := ContainerName(spec.agentId), spec.shape.value;
      var looked := Looked(w);
      match Inspect(w, f, name)
      case Absent => Reported(CreateAndStart(looked, f, name, hash), Created)
      case Failure => (looked, Failed)
      case Present(id, c) =>
        if c.hash != Some(hash) then Reported(Replace(looked, f, id, name, hash), Recreated)
        else if !c.running then Reported(Do(looked, f, Start(id)), Restarted)
        else (looked, Unchanged)
  }

  // ---------------------------------------------------------------- what one spec's turn does

  /** The container of that name, if any. */
  function View(w: World, name: string): Option<Container>
    requires Sound(w)
  {
    match Find(w, name)
    case None => None
    case Some(id) => Some(w.containers[id])
  }

  /** How far the container of that name is from the desired shape. */
  function Rank(w: World, name: string, hash: Hash): nat
    requires Sound(w)
  {
    match View(w, name)
    case None => 2
    case Some(c) => if c.hash != Some(hash) then 3 else if c.running then 0 else 1
  }

  /** The mutating calls a turn makes when none fails: 4 = stop, remove, create, start. */
  function Cost(rank: nat): nat {
    match rank
    case 3 => 4
    case 2 => 2
    case 1 => 1
    case _ => 0
  }

  function Success(rank: nat): Outcome {
    match rank
    case 3 => Recreated
    case 2 => Created
    case 1 => Restarted
    case _ => Unchanged
  }

  /** Containers of every other name are as they were, and no other name appears. */
  ghost predicate OnlyNamed(w: World, w': World, name: string) {
    forall id: Id, c: Container :: c.name != name ==> (HasContainer(w, id, c) <==> HasContainer(w', id, c))
  }

  predicate HasContainer(w: World, id: Id, c: Container) {
    id in w.containers && w.containers[id] == c
  }

  lemma ViewIs(w: World, id: Id)
    requires Sound(w) && id in w.containers
    ensures Find(w, w.containers[id].name) == Some(id)
    ensures View(w, w.containers[id].name) == Some(w.containers[id])
  {
    assert IsNamed(w, id, w.containers[id].name);
  }

  lemma ElsewhereSame(w: World, w': World, name: string, other: string)
    requires Sound(w) && Sound(w') && OnlyNamed(w, w', name) && other != name
    ensures View(w', other) == View(w, other)
  {
    forall id
      ensures IsNamed(w, id, other) ==> IsNamed(w', id, other) && w'.containers[id] == w.containers[id]
      ensures IsNamed(w', id, other) ==> IsNamed(w, id, other)
    {
      if IsNamed(w, id, other) {
        assert HasContainer(w, id, w.containers[id]);
      }
      if IsNamed(w', id, other) {
        assert HasContainer(w', id, w'.containers[id]);
      }
    }
    if Find(w, other).Some? {
      ViewIs(w', Find(w, other).value);
    }
  }

  /** A request about the container of that name touches no other. */
  lemma DoOnly(w: World, f: nat -> Fault, r: Request, name: string)
    requires Sound(w)
    requires if r.Create? then r.name == name else r.id in w.containers && w.containers[r.id].name == name
    ensures var w' := Do(w, f, r).0; Sound(w') && OnlyNamed(w, w', name)
  {
  }

  lemma {:induction false} CreateAndStartTurn(w: World, f: nat -> Fault, name: string, hash: Hash)
    requires Sound(w) && Find(w, name).None?
    ensures var (w', ok) := CreateAndStart(w, f, name, hash);
            && Sound(w') && OnlyNamed(w, w', name)
            && Rank(w', name, hash) <= 2 && (ok ==> Rank(w', name, hash) == 0)
            && (NoFaults(f) ==> ok && w'.mutations == w.mutations + 2)
  {
    var w1 := Do(w, f, Create(name, hash)).0;
    DoOnly(w, f, Create(name, hash), name);
    assert forall id :: !IsNamed(w, id, name);
    if w.nextId in w1.containers {
      ViewIs(w1, w.nextId);
      DoOnly(w1, f, Start(w.nextId), name);
      ViewIs(Do(w1, f, Start(w.nextId)).0, w.nextId);
    } else {
      assert w1.containers == w.containers;
      assert forall id :: !IsNamed(w1, id, name);
    }
  }

  lemma {:induction false} ReplaceTurn(w: World, f: nat -> Fault, id: Id, name: string, hash: Hash)
    requires Sound(w) && id in w.containers && w.containers[id].name == name
    ensures var (w', ok) := Replace(w, f, id, name, hash);
            && Sound(w') && OnlyNamed(w, w', name)
            && Rank(w', name, hash) <= 3 && (ok ==> Rank(w', name, hash) == 0)
            && (NoFaults(f) ==> ok && w'.mutations == w.mutations + 4)
  {
    DoOnly(w, f, Stop(id), name);
    var w1 := Do(w, f, Stop(id)).0;
    DoOnly(w1, f, Remove(id), name);
    var (w2, ok) := Do(w1, f, Remove(id));
    if ok {
      assert w2.containers == w1.containers - {id};
      assert forall i :: !IsNamed(w2, i, name);
      CreateAndStartTurn(w2, f, name, hash);
    }
  }

  /**
   One spec's turn, whatever fails: it touches only the container of its name, never leaves it
   further from the desired shape, and reports success, in the bucket of the state it found, only
   when the container then runs with that shape. With no failures it does succeed.
   */
  lemma {:induction false} TurnKeeps(w: World, f: nat -> Fault, spec: Spec)
    requires Sound(w)
    ensures var (w', outcome) := One(w, f, spec); var name := ContainerName(spec.agentId);
            && Sound(w') && OnlyNamed(w, w', name)
            && (spec.shape.None? ==> w' == w && outcome == Failed)
            && (spec.shape.Some? ==>
                  var before, after := Rank(w, name, spec.shape.value), Rank(w', name, spec.shape.value);
                  && after <= before
                  && (outcome != Failed ==> after == 0 && outcome == Success(before))
                  && (outcome == Unchanged ==> w' == Looked(w))
                  && (NoFaults(f) ==> outcome != Failed && w'.mutations == w.mutations + Cost(before)))
  {
    if spec.shape.Some? {
      var name, hash := ContainerName(spec.agentId), spec.shape.value;
      var looked := Looked(w);
      assert Find(looked, name) == Find(w, name) by {
        if Find(w, name).Some? {
          ViewIs(looked, Find(w, name).value);
        } else {
          assert forall id :: IsNamed(looked, id, name) ==> IsNamed(w, id, name);
        }
      }
      match Inspect(w, f, name) {
        case Absent => CreateAndStartTurn(looked, f, name, hash);
        case Failure =>
        case Present(id, c) =>
          ViewIs(w, id);
          if c.hash != Some(hash) {
            ReplaceTurn(looked, f, id, name, hash);
          } else if !c.running {
            DoOnly(looked, f, Start(id), name);
            ViewIs(Do(looked, f, Start(id)).0, id);
          }
      }
    }
  }

  /** Does call number `i` from now get through and report back? */
  predicate Fine(w: World, f: nat -> Fault, i: nat) {
    f(w.calls + i) == Fault.Fine
  }

  /**
   Exactly when a turn succeeds: its inspection and every call it needs must be fine; all but the stop of a
   container to be replaced, which is best effort and may be refused or lose its reply.
   */
  lemma {:induction false} TurnSucceedsIff(w: World, f: nat -> Fault, spec: Spec)
    requires Sound(w)
    ensures One(w, f, spec).1 != Failed <==>
            && spec.shape.Some? && Fine(w, f, 0)
            && var rank := Rank(w, ContainerName(spec.agentId), spec.shape.value);
               && (rank == 1 ==> Fine(w, f, 1))
               && (rank == 2 ==> Fine(w, f, 1) && Fine(w, f, 2))
               && (rank == 3 ==> Fine(w, f, 2) && Fine(w, f, 3) && Fine(w, f, 4))
  {
  }

  // ---------------------------------------------------------------- the walk

  function Walk(w: World, f: nat -> Fault, specs: seq<Spec>): (World, seq<Outcome>)
    requires Sound(w)
    decreases |specs|
  {
    if specs == [] then (w, [])
    else
      TurnKeeps(w, f, specs[0]);
      var (w1, outcome) := One(w, f, specs[0]);
      var (w2, rest) := Walk(w1, f, specs[1..]);
      (w2, [outcome] + rest)
  }

  /** The agent ids that ended up in one bucket of the report (Failed: in the joined error), in order. */
  function InBucket(specs: seq<Spec>, outcomes: seq<Outcome>, bucket: Outcome): seq<string>
    requires |specs| == |outcomes|
  {
    if specs == [] then []
    else (if outcomes[0] == bucket then [specs[0].agentId] else []) + InBucket(specs[1..], outcomes[1..], bucket)
  }

  predicate Names(spec: Spec, name: string) {
    spec.shape.Some? && ContainerName(spec.agentId) == name
  }

  /** No spec of the list wants another shape for this one's container. */
  predicate Agrees(specs: seq<Spec>, spec: Spec) {
    forall s :: s in specs && Names(s, ContainerName(spec.agentId)) ==> s.shape == spec.shape
  }

  predicate Compatible(specs: seq<Spec>) {
    forall s :: s in specs && s.shape.Some? ==> Agrees(specs, s)
  }

  function RankOf(w: World, spec: Spec): nat
    requires Sound(w) && spec.shape.Some?
  {
    Rank(w, ContainerName(spec.agentId), spec.shape.value)
  }

  lemma TurnKeepsRank(w: World, f: nat -> Fault, spec: Spec, other: Spec)
    requires Sound(w) && other.shape.Some? && Agrees([spec], other)
    ensures var (w', outcome) := One(w, f, spec); Sound(w') && RankOf(w', other) <= RankOf(w, other)
  {
    hide One;
    TurnKeeps(w, f, spec);
    assert spec in [spec];
    if ContainerName(spec.agentId) != ContainerName(other.agentId) {
      ElsewhereSame(w, One(w, f, spec).0, ContainerName(spec.agentId), ContainerName(other.agentId));
    }
  }

  /**
   Whatever fails, a walk never takes an agent's container further from its shape, and it reports
   success for an agent only if that container ends up running with that shape.
   */
  lemma {:induction false} RankNeverRises(w: World, f: nat -> Fault, specs: seq<Spec>, spec: Spec)
    requires Sound(w) && spec.shape.Some? && Agrees(specs, spec)
    ensures var (w', outcomes) := Walk(w, f, specs);
            && Sound(w') && |outcomes| == |specs|
            && RankOf(w', spec) <= RankOf(w, spec)
            && forall i :: 0 <= i < |specs| && specs[i] == spec && outcomes[i] != Failed ==> RankOf(w', spec) == 0
    decreases |specs|
  {
    hide One, Rank;
    if specs != [] {
      assert Agrees([specs[0]], spec) && Agrees(specs[1..], spec);
      TurnKeeps(w, f, specs[0]);
      TurnKeepsRank(w, f, specs[0], spec);
      var (w1, outcome) := One(w, f, specs[0]);
      RankNeverRises(w1, f, specs[1..], spec);
      var (w2, rest) := Walk(w1, f, specs[1..]);
      forall i | 0 <= i < |specs| && specs[i] == spec && Walk(w, f, specs).1[i] != Failed
        ensures RankOf(w2, spec) == 0
      {
        if i > 0 {
          assert specs[1..][i - 1] == spec && rest[i - 1] == Walk(w, f, specs).1[i];
        }
      }
    }
  }

  /** Containers no valid spec addresses keep their id, name, label and run state; none of them appears. */
  lemma {:induction false} UnaddressedUntouched(w: World, f: nat -> Fault, specs: seq<Spec>, id: Id, c: Container)
    requires Sound(w) && forall s :: s in specs ==> !Names(s, c.name)
    ensures HasContainer(w, id, c) <==> HasContainer(Walk(w, f, specs).0, id, c)
    decreases |specs|
  {
    hide One;
    if specs != [] {
      assert !Names(specs[0], c.name);
      TurnKeeps(w, f, specs[0]);
      UnaddressedUntouched(One(w, f, specs[0]).0, f, specs[1..], id, c);
    }
  }

  /** A failure-free walk succeeds for every valid spec, and each valid spec is then in shape if none contradicts it. */
  lemma {:induction false} FailureFreeConverges(w: World, f: nat -> Fault, specs: seq<Spec>)
    requires Sound(w) && NoFaults(f)
    ensures var (w', outcomes) := Walk(w, f, specs);
            && Sound(w') && |outcomes| == |specs|
            && (forall i :: 0 <= i < |specs| ==> (outcomes[i] == Failed <==> specs[i].shape.None?))
            && (forall s :: s in specs && s.shape.Some? && Agrees(specs, s) ==> RankOf(w', s) == 0)
  {
    hide One, Rank;
    SuccessesOf(w, f, specs);
    forall s | s in specs && s.shape.Some? && Agrees(specs, s)
      ensures RankOf(Walk(w, f, specs).0, s) == 0
    {
      var i :| 0 <= i < |specs| && specs[i] == s;
      RankNeverRises(w, f, specs, s);
    }
  }

  lemma {:induction false} SuccessesOf(w: World, f: nat -> Fault, specs: seq<Spec>)
    requires Sound(w) && NoFaults(f)
    ensures var (w', outcomes) := Walk(w, f, specs);
            && Sound(w') && |outcomes| == |specs|
            && (forall i :: 0 <= i < |specs| ==> (outcomes[i] == Failed <==> specs[i].shape.None?))
    decreases |specs|
  {
    hide One, Rank;
    if specs != [] {
      TurnKeeps(w, f, specs[0]);
      SuccessesOf(One(w, f, specs[0]).0, f, specs[1..]);
    }
  }

  /** A failure-free walk makes no mutating call exactly when every valid spec was already in shape. */
  lemma {:induction false} QuietIff(w: World, f: nat -> Fault, specs: seq<Spec>)
    requires Sound(w) && NoFaults(f)
    ensures var (w', outcomes) := Walk(w, f, specs);
            && |outcomes| == |specs| && w'.mutations >= w.mutations
            && (w'.mutations == w.mutations <==> forall s :: s in specs && s.shape.Some? ==> RankOf(w, s) == 0)
            && (w'.mutations == w.mutations ==>
                  && w'.containers == w.containers
                  && forall i :: 0 <= i < |specs| && specs[i].shape.Some? ==> outcomes[i] == Unchanged)
    decreases |specs|
  {
    hide One, Rank;
    if specs != [] {
      TurnKeeps(w, f, specs[0]);
      var (w1, outcome) := One(w, f, specs[0]);
      QuietIff(w1, f, specs[1..]);
      if specs[0].shape.Some? && RankOf(w, specs[0]) != 0 {
        assert RankOf(w, specs[0]) in {1, 2, 3} by { RankRange(w, specs[0]); }
      } else {
        forall s: Spec | s.shape.Some?
          ensures RankOf(w1, s) == RankOf(w, s)
        {
          RankIgnoresCounters(w, w1, s);
        }
        assert forall s :: s in specs <==> s == specs[0] || s in specs[1..];
      }
    }
  }

  lemma RankRange(w: World, spec: Spec)
    requires Sound(w) && spec.shape.Some?
    ensures RankOf(w, spec) <= 3
  {
  }

  lemma RankIgnoresCounters(w: World, w': World, spec: Spec)
    requires Sound(w) && Sound(w') && spec.shape.Some? && w'.containers == w.containers
    ensures RankOf(w', spec) == RankOf(w, spec)
  {
    var name := ContainerName(spec.agentId);
    if Find(w, name).Some? {
      ViewIs(w', Find(w, name).value);
    } else {
      assert forall id :: IsNamed(w', id, name) ==> IsNamed(w, id, name);
    }
  }

  /**
   The second of two failure-free boots does nothing at all, exactly when no two specs claim one
   container name with different shapes. Names keep only eight hex digits of the agent id, so two
   agents can collide; then every boot recreates their container.
   */
  lemma {:induction false} SecondWalkQuietIff(w: World, f: nat -> Fault, specs: seq<Spec>)
    requires Sound(w) && NoFaults(f)
    ensures var w1 := Walk(w, f, specs).0; Sound(w1) && var (w2, outcomes) := Walk(w1, f, specs);
            && (w2.mutations == w1.mutations <==> Compatible(specs))
            && (Compatible(specs) ==>
                  && w2.containers == w1.containers && |outcomes| == |specs|
                  && forall i :: 0 <= i < |specs| && specs[i].shape.Some? ==> outcomes[i] == Unchanged)
  {
    hide One, Rank, Walk;
    FailureFreeConverges(w, f, specs);
    var w1 := Walk(w, f, specs).0;
    QuietIff(w1, f, specs);
    if Walk(w1, f, specs).0.mutations == w1.mutations {
      forall s, t | s in specs && t in specs && s.shape.Some? && Names(t, ContainerName(s.agentId))
        ensures t.shape == s.shape
      {
        InShapeMeans(w1, s);
        InShapeMeans(w1, t);
      }
    }
  }

  /** Ids name one container exactly when their first eight digits, dashes left out, are the same. */
  lemma NamesCollide(a: string, b: string)
    requires |WithoutDashes(a)| >= 8 && |WithoutDashes(b)| >= 8
    ensures ContainerName(a) == ContainerName(b) <==> WithoutDashes(a)[..8] == WithoutDashes(b)[..8]
  {
    hide WithoutDashes;
    var prefix := "garrison-agent-";
    var x, y := WithoutDashes(a)[..8], WithoutDashes(b)[..8];
    assert |WithoutDashes(a)| == 8 ==> WithoutDashes(a) == x;
    assert |WithoutDashes(b)| == 8 ==> WithoutDashes(b) == y;
    assert ContainerName(a) == prefix + x && ContainerName(b) == prefix + y;
    assert (prefix + x)[|prefix|..] == x && (prefix + y)[|prefix|..] == y;
  }

  /** Two such agents with different shapes, from any Docker state: a boot after a failure-free one still recreates. */
  lemma CollidingAgentsNeverQuiet(w: World, f: nat -> Fault, specs: seq<Spec>, a: Spec, b: Spec)
    requires Sound(w) && NoFaults(f) && a in specs && b in specs
    requires a.shape.Some? && b.shape.Some? && a.shape != b.shape
    requires |WithoutDashes(a.agentId)| >= 8 && |WithoutDashes(b.agentId)| >= 8
    requires WithoutDashes(a.agentId)[..8] == WithoutDashes(b.agentId)[..8]
    ensures var w1 := Walk(w, f, specs).0;
            Sound(w1) && Walk(w1, f, specs).0.mutations > w1.mutations
  {
    hide Walk, ContainerName, Rank, WithoutDashes;
    NamesCollide(a.agentId, b.agentId);
    SecondWalkQuietIff(w, f, specs);
    QuietIff(Walk(w, f, specs).0, f, specs);
    assert Names(b, ContainerName(a.agentId));
    assert !Agrees(specs, a);
  }

  lemma WithoutDashesCons(c: char, s: string)
    ensures WithoutDashes([c] + s) == (if c == '-' then "" else [c]) + WithoutDashes(s)
  {
    assert ([c] + s)[1..] == s;
  }

  lemma {:induction false} DashesOfRest(s: string, rest: string)
    requires '-' !in s
    ensures WithoutDashes(s + rest) == s + WithoutDashes(rest)
    decreases |s|
  {
    hide WithoutDashes;
    if s == [] {
      assert s + rest == rest;
    } else {
      DashesOfRest(s[1..], rest);
      WithoutDashesCons(s[0], s[1..] + rest);
      assert s == [s[0]] + s[1..] && s + rest == [s[0]] + (s[1..] + rest);
      AppendAppend([s[0]], s[1..], WithoutDashes(rest));
    }
  }

  /** Dashes, wherever they stand, and nothing else is left out. */
  lemma {:induction false} DashesDropped(s: string, t: string)
    ensures WithoutDashes(s + "-" + t) == WithoutDashes(s) + WithoutDashes(t)
    ensures '-' !in s ==> WithoutDashes(s) == s
    decreases |s|
  {
    if s == [] {
      assert s + "-" + t == ['-'] + t;
      WithoutDashesCons('-', t);
    } else {
      DashesDropped(s[1..], t);
      hide WithoutDashes;
      WithoutDashesCons(s[0], s[1..]);
      WithoutDashesCons(s[0], s[1..] + "-" + t);
      assert s == [s[0]] + s[1..] && s + "-" + t == [s[0]] + (s[1..] + "-" + t);
      AppendAppend(if s[0] == '-' then "" else [s[0]], WithoutDashes(s[1..]), WithoutDashes(t));
    }
  }

  lemma AppendAppend(a: string, b: string, c: string)
    ensures a + (b + c) == a + b + c
  {
  }

  lemma FirstGroup(id: string, group: string)
    requires group <= id && '-' !in group && |group| == 8
    ensures |WithoutDashes(id)| >= 8 && WithoutDashes(id)[..8] == group
    ensures ContainerName(id) == "garrison-agent-" + group
  {
    assert id == group + id[8..];
    DashesOfRest(group, id[8..]);
  }

  /** And there are such ids: two UUIDs of one first group. */
  lemma UuidsCollide(w: World, f: nat -> Fault)
    requires Sound(w) && NoFaults(f)
    ensures var specs := [Spec("0badcafe-0000-4000-8000-000000000001", Some(1)),
                          Spec("0badcafe-0000-4000-8000-000000000002", Some(2))];
            var w1 := Walk(w, f, specs).0;
            Sound(w1) && Walk(w1, f, specs).0.mutations > w1.mutations
  {
    hide WithoutDashes, Walk, Sound, NoFaults;
    var a, b := Spec("0badcafe-0000-4000-8000-000000000001", Some(1)), Spec("0badcafe-0000-4000-8000-000000000002", Some(2));
    FirstGroup(a.agentId, "0badcafe");
    FirstGroup(b.agentId, "0badcafe");
    CollidingAgentsNeverQuiet(w, f, [a, b], a, b);
  }

  /** What rank 0 means to anyone looking: the container is there, runs, and carries the shape. */
  lemma InShapeMeans(w: World, spec: Spec)
    requires Sound(w) && spec.shape.Some?
    ensures RankOf(w, spec) == 0 <==> View(w, ContainerName(spec.agentId)) == Some(Container(ContainerName(spec.agentId), spec.shape, true))
  {
  }

  function AgentIds(specs: seq<Spec>): seq<string> {
    seq(|specs|, i requires 0 <= i < |specs| => specs[i].agentId)
  }

  /** Every agent lands in exactly one bucket of the report or in the joined error. */
  lemma {:induction false} BucketsPartition(specs: seq<Spec>, outcomes: seq<Outcome>)
    requires |specs| == |outcomes|
    ensures multiset(InBucket(specs, outcomes, Created)) + multiset(InBucket(specs, outcomes, Recreated))
          + multiset(InBucket(specs, outcomes, Restarted)) + multiset(InBucket(specs, outcomes, Unchanged))
          + multiset(InBucket(specs, outcomes, Failed))
         == multiset(AgentIds(specs))
  {
    hide InBucket, AgentIds;
    forall id {
      BucketsCount(specs, outcomes, id);
    }
  }

  lemma {:induction false} BucketsCount(specs: seq<Spec>, outcomes: seq<Outcome>, id: string)
    requires |specs| == |outcomes|
    ensures multiset(InBucket(specs, outcomes, Created))[id] + multiset(InBucket(specs, outcomes, Recreated))[id]
          + multiset(InBucket(specs, outcomes, Restarted))[id] + multiset(InBucket(specs, outcomes, Unchanged))[id]
          + multiset(InBucket(specs, outcomes, Failed))[id]
         == multiset(AgentIds(specs))[id]
    decreases |specs|
  {
    hide InBucket, AgentIds;
    if specs == [] {
      NothingFiled();
      assert specs == [] && outcomes == [];
    } else {
      BucketCountHead(specs, outcomes, Created, id);
      BucketCountHead(specs, outcomes, Recreated, id);
      BucketCountHead(specs, outcomes, Restarted, id);
      BucketCountHead(specs, outcomes, Unchanged, id);
      BucketCountHead(specs, outcomes, Failed, id);
      BucketsCount(specs[1..], outcomes[1..], id);
      AgentIdsHead(specs);
      CountCons(specs[0].agentId, AgentIds(specs[1..]), id);
      hide *;
    }
  }

  lemma AgentIdsHead(specs: seq<Spec>)
    requires specs != []
    ensures AgentIds(specs) == [specs[0].agentId] + AgentIds(specs[1..])
  {
  }

  lemma CountCons(x: string, rest: seq<string>, id: string)
    ensures multiset([x] + rest)[id] == multiset(rest)[id] + if x == id then 1 else 0
  {
  }

  lemma BucketCountHead(specs: seq<Spec>, outcomes: seq<Outcome>, bucket: Outcome, id: string)
    requires |specs| == |outcomes| > 0
    ensures multiset(InBucket(specs, outcomes, bucket))[id]
         == multiset(InBucket(specs[1..], outcomes[1..], bucket))[id]
            + if outcomes[0] == bucket && specs[0].agentId == id then 1 else 0
  {
    var rest := InBucket(specs[1..], outcomes[1..], bucket);
    CountCons(specs[0].agentId, rest, id);
    assert [] + rest == rest;
  }

  lemma NothingFiled()
    ensures AgentIds([]) == [] && forall o :: InBucket([], [], o) == []
  {
  }

  lemma InBucketsSnoc(specs: seq<Spec>, outcomes: seq<Outcome>, spec: Spec, outcome: Outcome)
    requires |specs| == |outcomes|
    ensures forall o :: InBucket(specs + [spec], outcomes + [outcome], o)
                     == if o == outcome then InBucket(specs, outcomes, o) + [spec.agentId] else InBucket(specs, outcomes, o)
  {
    hide InBucket;
    forall o
      ensures InBucket(specs + [spec], outcomes + [outcome], o)
           == if o == outcome then InBucket(specs, outcomes, o) + [spec.agentId] else InBucket(specs, outcomes, o)
    {
      InBucketSnoc(specs, outcomes, spec, outcome, o);
    }
  }

  lemma WalkStep(w: World, f: nat -> Fault, specs: seq<Spec>, i: nat)
    requires Sound(w) && i < |specs|
    ensures var (w1, outcome) := One(w, f, specs[i]);
            && Sound(w1)
            && Walk(w, f, specs[i..]) == (Walk(w1, f, specs[i + 1..]).0, [outcome] + Walk(w1, f, specs[i + 1..]).1)
  {
    hide One;
    TurnKeeps(w, f, specs[i]);
    assert specs[i..][0] == specs[i] && specs[i..][1..] == specs[i + 1..];
  }

  lemma WalkNone(w: World, f: nat -> Fault)
    requires Sound(w)
    ensures Walk(w, f, []) == (w, [])
  {
  }

  lemma {:induction false} InBucketSnoc(specs: seq<Spec>, outcomes: seq<Outcome>, spec: Spec, outcome: Outcome, bucket: Outcome)
    requires |specs| == |outcomes|
    ensures InBucket(specs + [spec], outcomes + [outcome], bucket)
         == InBucket(specs, outcomes, bucket) + if bucket == outcome then [spec.agentId] else []
    decreases |specs|
  {
    if specs != [] {
      assert (specs + [spec])[1..] == specs[1..] + [spec];
      assert (outcomes + [outcome])[1..] == outcomes[1..] + [outcome];
      InBucketSnoc(specs[1..], outcomes[1..], spec, outcome, bucket);
    }
  }

  // ---------------------------------------------------------------- the walk, as the code runs it

  class ShapeReport {
    var created: seq<string>
    var recreated: seq<string>
    var restarted: seq<string>
    var leftAlone: seq<string>

    constructor ()
      ensures forall o :: Entries(o) == []
    {
      created, recreated, restarted, leftAlone := [], [], [], [];
    }

    function Entries(o: Outcome): seq<string>
      reads this
    {
      match o
      case Created => created
      case Recreated => recreated
      case Restarted => restarted
      case Unchanged => leftAlone
      case Failed => []
    }
  }

  method CreateAndStartIt(engine: Engine, name: string, hash: Hash) returns (ok: bool)
    modifies engine
    ensures (engine.Abs(), ok) == CreateAndStart(old(engine.Abs()), engine.faults, name, hash)
  {
    var id := engine.nextId;
    ok := engine.Perform(Create(name, hash));
    if ok {
      ok := engine.Perform(Start(id));
    }
  }

  /** reconcileShapeOne: appends to the report when it succeeds; the caller collects the error. */
  method ReconcileShapeOne(engine: Engine, spec: Spec, report: ShapeReport) returns (ghost outcome: Outcome, ok: bool)
    requires Sound(engine.Abs())
    modifies engine, report
    ensures (engine.Abs(), outcome) == One(old(engine.Abs()), engine.faults, spec)
    ensures ok <==> outcome != Failed
    ensures forall o :: o != Failed ==>
              report.Entries(o) == if o == outcome then old(report.Entries(o)) + [spec.agentId] else old(report.Entries(o))
  {
    hide Do, ContainerName;
    outcome, ok := Failed, false;
    if spec.shape.None? {
      return;
    }
    var name := ContainerName(spec.agentId);
    var found := engine.ContainerInspect(name);
    match found {
      case Absent =>
        ok := CreateAndStartIt(engine, name, spec.shape.value);
        if ok {
          report.created, outcome := report.created + [spec.agentId], Created;
        }
      case Failure =>
      case Present(id, c) =>
        if c.hash != spec.shape {
          var _ := engine.Perform(Stop(id));
          ok := engine.Perform(Remove(id));
          if ok {
            ok := CreateAndStartIt(engine, name, spec.shape.value);
          }
          if ok {
            report.recreated, outcome := report.recreated + [spec.agentId], Recreated;
          }
        } else if !c.running {
          ok := engine.Perform(Start(id));
          if ok {
            report.restarted, outcome := report.restarted + [spec.agentId], Restarted;
          }
        } else {
          ok := true;
          report.leftAlone, outcome := report.leftAlone + [spec.agentId], Unchanged;
        }
    }
  }

  method ReconcileShape(engine: Engine, specs: seq<Spec>) returns (report: ShapeReport, errs: seq<string>)
    requires Sound(engine.Abs())
    modifies engine
    ensures fresh(report)
    ensures engine.Abs() == Walk(old(engine.Abs()), engine.faults, specs).0
    ensures var outcomes := Walk(old(engine.Abs()), engine.faults, specs).1;
            && |outcomes| == |specs|
            && errs == InBucket(specs, outcomes, Failed)
            && forall o :: o != Failed ==> report.Entries(o) == InBucket(specs, outcomes, o)
  {
    hide *;
    report := new ShapeReport();
    errs := [];
    ghost var f, start := engine.faults, engine.Abs();
    ghost var outcomes: seq<Outcome> := [];
    assert specs[..0] == [] && specs[0..] == specs && outcomes + Walk(start, f, specs).1 == Walk(start, f, specs).1;
    NothingFiled();
    for i := 0 to |specs|
      invariant Sound(engine.Abs()) && |outcomes| == i
      invariant fresh(report)
      invariant Walk(start, f, specs) == (Walk(engine.Abs(), f, specs[i..]).0, outcomes + Walk(engine.Abs(), f, specs[i..]).1)
      invariant errs == InBucket(specs[..i], outcomes, Failed)
      invariant forall o :: o != Failed ==> report.Entries(o) == InBucket(specs[..i], outcomes, o)
    {
      WalkStep(engine.Abs(), f, specs, i);
      assert specs[..i + 1] == specs[..i] + [specs[i]];
      var outcome, ok := ReconcileShapeOne(engine, specs[i], report);
      if !ok {
        errs := errs + [specs[i].agentId];
      }
      InBucketsSnoc(specs[..i], outcomes, specs[i], outcome);
      ghost var rest := Walk(engine.Abs(), f, specs[i + 1..]).1;
      assert outcomes + ([outcome] + rest) == outcomes + [outcome] + rest;
      outcomes := outcomes + [outcome];
    }
    WalkNone(engine.Abs(), f);
    assert specs[..|specs|] == specs && specs[|specs|..] == [] && outcomes + [] == outcomes;
  }
}
