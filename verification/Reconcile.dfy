/**
 The startup walk that compares the containers the supervisor expects with the managed ones Docker
 has (supervisor/internal/agentcontainer/reconcile.go), over an engine any of whose calls may fail.
 */
module Reconcile {
  import opened Common
  import opened Docker

  datatype Wanted = ShouldRun | ShouldStop | ShouldBeRemoved

  datatype Expected = Expected(agentId: string, id: Id, wanted: Wanted)

  /** One row of the container list: the id and whether it runs. */
  datatype Listed = Listed(id: Id, running: bool)

  /** One line of the report. */
  datatype Entry =
    | Adopted(agentId: string)
    | Restarted(agentId: string)
    | Collected(id: Id)
    | CallFailed(agent: Option<string>, id: Id)
    | Missing(agentId: string, id: Id)

  /** `expectedByID[e.ContainerID] = e` in order: the last row for an id wins. */
  function ById(expected: seq<Expected>): map<Id, Expected> {
    if expected == [] then map[]
    else
      var last := expected[|expected| - 1];
      ById(expected[..|expected| - 1])[last.id := last]
  }

  /** The call a listed container needs, if any. */
  function Needed(a: Listed, exp: Option<Expected>): Option<Request> {
    match exp
    case None => Some(Remove(a.id))
    case Some(e) =>
      match e.wanted
      case ShouldRun => if a.running then None else Some(Start(a.id))
      case ShouldStop => if a.running then Some(Stop(a.id)) else None
      case ShouldBeRemoved => Some(Remove(a.id))
  }

  function Success(a: Listed, exp: Option<Expected>): seq<Entry> {
    match exp
    case None => [Collected(a.id)]
    case Some(e) =>
      match e.wanted
      case ShouldRun => if a.running then [Adopted(e.agentId)] else [Restarted(e.agentId)]
      case ShouldStop => []
      case ShouldBeRemoved => [Collected(a.id)]
  }

  function Failure(a: Listed, exp: Option<Expected>): Entry {
    CallFailed(if exp.Some? then Some(exp.value.agentId) else None, a.id)
  }

  function Turn(w: World, f: nat -> Fault, a: Listed, exp: Option<Expected>): (World, seq<Entry>) {
    match Needed(a, exp)
    case None => (w, Success(a, exp))
    case Some(r) =>
      var (w', ok) := Do(w, f, r);
      (w', if ok then Success(a, exp) else [Failure(a, exp)])
  }

  function Walk(w: World, f: nat -> Fault, actual: seq<Listed>, exp: map<Id, Expected>): (World, seq<Entry>)
    decreases |actual|
  {
    if actual == [] then (w, [])
    else
      var (w1, entries) := Turn(w, f, actual[0], Lookup(exp, actual[0].id));
      var (w2, rest) := Walk(w1, f, actual[1..], exp);
      (w2, entries + rest)
  }

  function MissingFrom(ids: set<Id>, expected: seq<Expected>): seq<Entry>
    decreases |expected|
  {
    if expected == [] then []
    else (if expected[0].id in ids then [] else [Missing(expected[0].agentId, expected[0].id)])
         + MissingFrom(ids, expected[1..])
  }

  function ListedIds(actual: seq<Listed>): set<Id> {
    set a | a in actual :: a.id
  }

  /** The whole of Reconcile after the list call answered `actual`. */
  function After(w: World, f: nat -> Fault, actual: seq<Listed>, expected: seq<Expected>): (World, seq<Entry>) {
    var (w', entries) := Walk(w, f, actual, ById(expected));
    (w', entries + MissingFrom(ListedIds(actual), expected))
  }

  // ---------------------------------------------------------------- what the walk reaches

  /** The list holds exactly the managed containers, each once, with its run state. */
  ghost predicate Lists(w: World, managed: set<Id>, actual: seq<Listed>) {
    && (forall i, j :: 0 <= i < j < |actual| ==> actual[i].id != actual[j].id)
    && (forall a :: a in actual ==> a.id in managed && a.id in w.containers && w.containers[a.id].running == a.running)
    && (forall id :: id in w.containers && id in managed ==> Listed(id, w.containers[id].running) in actual)
  }

  /** What a managed container should become: gone when unexpected or to be removed. */
  function Desired(c: Option<Container>, exp: Option<Expected>): Option<Container> {
    if c.None? || exp.None? || exp.value.wanted == ShouldBeRemoved then None
    else Some(c.value.(running := exp.value.wanted == ShouldRun))
  }

  function Target(w: World, managed: set<Id>, exp: map<Id, Expected>, id: Id): Option<Container> {
    if id in managed then Desired(Lookup(w.containers, id), Lookup(exp, id)) else Lookup(w.containers, id)
  }

  predicate RemovalWanted(exp: map<Id, Expected>, id: Id) {
    id in exp && exp[id].wanted == ShouldBeRemoved
  }

  /** The turn of one container, by what it does to any container. */
  lemma TurnAt(w: World, f: nat -> Fault, a: Listed, exp: Option<Expected>, id: Id)
    requires a.id in w.containers && w.containers[a.id].running == a.running
    ensures var (w', entries) := Turn(w, f, a, exp); var before, after := Lookup(w.containers, id), Lookup(w'.containers, id);
            && (id != a.id ==> after == before)
            && (id == a.id ==> after == before || after == Desired(before, exp))
            && (id == a.id && Failure(a, exp) !in entries ==> after == Desired(before, exp))
            && (NoFaults(f) ==> Failure(a, exp) !in entries)
  {
  }

  predicate ToRun(exp: map<Id, Expected>, id: Id, agentId: string) {
    id in exp && exp[id].agentId == agentId && exp[id].wanted == ShouldRun
  }

  /** What a report line says of its container, before (`w`) and after (`w'`) the whole pass. */
  ghost predicate Tells(w: World, w': World, managed: set<Id>, actual: seq<Listed>, exp: map<Id, Expected>, e: Entry) {
    match e
    case Adopted(agentId) =>
      exists a :: a in actual && a.running && ToRun(exp, a.id, agentId) && Lookup(w'.containers, a.id) == Lookup(w.containers, a.id)
    case Restarted(agentId) =>
      exists a :: a in actual && !a.running && ToRun(exp, a.id, agentId) && a.id in w'.containers && w'.containers[a.id].running
    case Collected(id) =>
      id in managed && id in w.containers && id !in w'.containers && (id in exp ==> exp[id].wanted == ShouldBeRemoved)
    case CallFailed(_, id) => id in managed && id in w.containers && Target(w, managed, exp, id) != Some(w.containers[id])
    case Missing(_, id) => !(id in managed && id in w.containers)
  }

  lemma TurnTells(w: World, f: nat -> Fault, managed: set<Id>, a: Listed, exp: map<Id, Expected>, e: Entry)
    requires a.id in managed && a.id in w.containers && w.containers[a.id].running == a.running
    requires e in Turn(w, f, a, Lookup(exp, a.id)).1
    ensures Tells(w, Turn(w, f, a, Lookup(exp, a.id)).0, managed, [a], exp, e) && !e.Missing?
  {
    assert a in [a];
  }

  /** The rest of the walk leaves the first container to itself. */
  lemma FirstKept(w: World, f: nat -> Fault, managed: set<Id>, actual: seq<Listed>, exp: map<Id, Expected>)
    requires Lists(w, managed, actual) && actual != []
    ensures var w1 := Turn(w, f, actual[0], Lookup(exp, actual[0].id)).0;
            Lookup(Walk(w1, f, actual[1..], exp).0.containers, actual[0].id) == Lookup(w1.containers, actual[0].id)
  {
    hide Turn, Walk, Lists;
    var w1 := Turn(w, f, actual[0], Lookup(exp, actual[0].id)).0;
    RestLists(w, f, managed, actual, Lookup(exp, actual[0].id));
    EachAsBeforeOrDesired(w1, f, managed - {actual[0].id}, actual[1..], exp, actual[0].id);
  }

  lemma FirstTells(w: World, w1: World, w2: World, managed: set<Id>, actual: seq<Listed>, exp: map<Id, Expected>, e: Entry)
    requires actual != [] && Tells(w, w1, managed, [actual[0]], exp, e) && !e.Missing?
    requires Lookup(w2.containers, actual[0].id) == Lookup(w1.containers, actual[0].id)
    requires e.Collected? ==> e.id == actual[0].id
    ensures Tells(w, w2, managed, actual, exp, e)
  {
    assert actual[0] in actual && forall a :: a in [actual[0]] ==> a == actual[0];
  }

  lemma TurnAbout(w: World, f: nat -> Fault, a: Listed, exp: Option<Expected>, e: Entry)
    requires e in Turn(w, f, a, exp).1
    ensures e.Collected? || e.CallFailed? ==> e.id == a.id
  {
  }

  lemma RestTells(w: World, f: nat -> Fault, w2: World, managed: set<Id>, actual: seq<Listed>, exp: map<Id, Expected>, e: Entry)
    requires Lists(w, managed, actual) && actual != []
    requires Tells(Turn(w, f, actual[0], Lookup(exp, actual[0].id)).0, w2, managed - {actual[0].id}, actual[1..], exp, e) && !e.Missing?
    ensures Tells(w, w2, managed, actual, exp, e)
  {
    var w1 := Turn(w, f, actual[0], Lookup(exp, actual[0].id)).0;
    assert actual[0] in actual;
    forall id | id != actual[0].id
      ensures Lookup(w1.containers, id) == Lookup(w.containers, id)
    {
      TurnAt(w, f, actual[0], Lookup(exp, actual[0].id), id);
    }
    hide Turn;
    assert forall a :: a in actual[1..] ==> a in actual && a.id != actual[0].id by {
      forall a | a in actual[1..]
        ensures a in actual && a.id != actual[0].id
      {
        var i :| 0 <= i < |actual[1..]| && actual[1..][i] == a;
        assert actual[i + 1] == a;
      }
    }
    assert forall id :: id != actual[0].id ==> (id in w1.containers <==> Lookup(w1.containers, id).Some?);
    assert forall id :: id in w.containers <==> Lookup(w.containers, id).Some?;
  }

  /**
   Every line of the report is true of the world the caller is left with, whatever failed on the way:
   adopted containers are as they were and were meant to run, restarted ones run and did not, collected
   ones were unexpected or unwanted and are gone, failed calls were needed, and missing ones were missing.
   */
  lemma {:induction false} EntryMeans(w: World, f: nat -> Fault, managed: set<Id>, actual: seq<Listed>, expected: seq<Expected>, e: Entry)
    requires Lists(w, managed, actual) && e in After(w, f, actual, expected).1
    ensures Tells(w, After(w, f, actual, expected).0, managed, actual, ById(expected), e)
  {
    var (w', entries) := Walk(w, f, actual, ById(expected));
    if e in entries {
      WalkTells(w, f, managed, actual, ById(expected), e);
    } else {
      MissingOnly(ListedIds(actual), expected);
    }
  }

  lemma {:induction false} WalkTells(w: World, f: nat -> Fault, managed: set<Id>, actual: seq<Listed>, exp: map<Id, Expected>, e: Entry)
    requires Lists(w, managed, actual) && e in Walk(w, f, actual, exp).1
    ensures Tells(w, Walk(w, f, actual, exp).0, managed, actual, exp, e) && !e.Missing?
    decreases |actual|
  {
    if actual != [] {
      var a, x := actual[0], Lookup(exp, actual[0].id);
      var (w1, entries) := Turn(w, f, a, x);
      var (w2, rest) := Walk(w1, f, actual[1..], exp);
      assert a in actual;
      assert e in entries || e in rest;
      RestLists(w, f, managed, actual, x);
      hide Turn, Walk, Tells;
      if e in entries {
        TurnTells(w, f, managed, a, exp, e);
        TurnAbout(w, f, a, x, e);
        FirstKept(w, f, managed, actual, exp);
        FirstTells(w, w1, w2, managed, actual, exp, e);
      } else {
        hide Lists;
        WalkTells(w1, f, managed - {a.id}, actual[1..], exp, e);
        RestTells(w, f, w2, managed, actual, exp, e);
      }
    }
  }

  // ---------------------------------------------------------------- what the report holds of each

  /** The lines of one listed container, from what it is, what is expected of it and whether its call got a good answer. */
  function LinesOf(a: Listed, exp: Option<Expected>, fine: bool): seq<Entry> {
    if exp.None? then [if fine then Collected(a.id) else CallFailed(None, a.id)]
    else
      var agent, wanted := exp.value.agentId, exp.value.wanted;
      var failed := CallFailed(Some(agent), a.id);
      if wanted == ShouldRun && a.running then [Adopted(agent)]
      else if wanted == ShouldRun then [if fine then Restarted(agent) else failed]
      else if wanted == ShouldBeRemoved then [if fine then Collected(a.id) else failed]
      else if a.running && !fine then [failed]
      else []
  }

  lemma TurnReports(w: World, f: nat -> Fault, a: Listed, exp: Option<Expected>)
    requires a.id in w.containers
    ensures Turn(w, f, a, exp).1 == LinesOf(a, exp, f(w.calls) == Fine)
  {
  }

  lemma {:induction false} WalkAppend(w: World, f: nat -> Fault, some: seq<Listed>, more: seq<Listed>, exp: map<Id, Expected>)
    ensures var (w1, first) := Walk(w, f, some, exp); var (w2, rest) := Walk(w1, f, more, exp);
            Walk(w, f, some + more, exp) == (w2, first + rest)
    decreases |some|
  {
    hide Turn;
    if some == [] {
      assert some + more == more;
      var rest := Walk(w, f, more, exp).1;
      assert [] + rest == rest;
    } else {
      assert (some + more)[1..] == some[1..] + more;
      var (w1, entries) := Turn(w, f, some[0], Lookup(exp, some[0].id));
      WalkAppend(w1, f, some[1..], more, exp);
      var (w2, first) := Walk(w1, f, some[1..], exp);
      var rest := Walk(w2, f, more, exp).1;
      assert entries + first + rest == entries + (first + rest);
    }
  }

  /** The walk reaches each listed container as the list showed it. */
  lemma {:induction false} ReachedAsListed(w: World, f: nat -> Fault, managed: set<Id>, actual: seq<Listed>, exp: map<Id, Expected>, i: nat)
    requires Lists(w, managed, actual) && i < |actual|
    ensures actual[i].id in Walk(w, f, actual[..i], exp).0.containers
    decreases i
  {
    assert actual[i] in actual;
    if i > 0 {
      var w1 := Turn(w, f, actual[0], Lookup(exp, actual[0].id)).0;
      RestLists(w, f, managed, actual, Lookup(exp, actual[0].id));
      ReachedAsListed(w1, f, managed - {actual[0].id}, actual[1..], exp, i - 1);
      assert actual[..i][0] == actual[0] && actual[..i][1..] == actual[1..][..i - 1];
      hide Turn;
    }
  }

  /**
   The report is complete: whatever failed before, behind the lines of the containers listed earlier stand
   exactly the lines of this one. So every listed container has one line, but for one that should be stopped
   and already is or stops when told to.
   */
  lemma {:induction false} ReportHolds(w: World, f: nat -> Fault, managed: set<Id>, actual: seq<Listed>, expected: seq<Expected>, i: nat)
    requires Lists(w, managed, actual) && i < |actual|
    ensures var exp := ById(expected); var a := actual[i]; var (reached, before) := Walk(w, f, actual[..i], exp);
            var lines := LinesOf(a, Lookup(exp, a.id), f(reached.calls) == Fine);
            && before + lines <= After(w, f, actual, expected).1
            && |lines| == if a.id in exp && exp[a.id].wanted == ShouldStop && !(a.running && f(reached.calls) != Fine) then 0 else 1
  {
    var exp, a := ById(expected), actual[i];
    ReachedAsListed(w, f, managed, actual, exp, i);
    hide Turn, Walk, ById, Lists;
    var (reached, before) := Walk(w, f, actual[..i], exp);
    TurnReports(reached, f, a, Lookup(exp, a.id));
    WalkAppend(w, f, actual[..i], actual[i..], exp);
    assert actual == actual[..i] + actual[i..];
    WalkStep(reached, f, actual, i, exp, before);
  }

  /** And, behind all of those, one line for each expected row whose container was not listed, in order. */
  lemma {:induction false} MissingHolds(ids: set<Id>, expected: seq<Expected>, i: nat)
    requires i < |expected|
    ensures MissingFrom(ids, expected[..i]) + (if expected[i].id in ids then [] else [Missing(expected[i].agentId, expected[i].id)])
         <= MissingFrom(ids, expected)
    decreases i
  {
    if i > 0 {
      MissingHolds(ids, expected[1..], i - 1);
      assert expected[..i][1..] == expected[1..][..i - 1];
    } else {
      assert expected[..0] == [];
    }
  }

  /** Of several rows for one container the last one counts. */
  lemma {:induction false} LastRowCounts(expected: seq<Expected>, i: nat)
    requires i < |expected| && forall j :: i < j < |expected| ==> expected[j].id != expected[i].id
    ensures expected[i].id in ById(expected) && ById(expected)[expected[i].id] == expected[i]
    decreases |expected|
  {
    if i < |expected| - 1 {
      LastRowCounts(expected[..|expected| - 1], i);
    }
  }

  /** Whatever fails, each managed container ends either as it was or as it should be. */
  lemma {:induction false} EachAsBeforeOrDesired(w: World, f: nat -> Fault, managed: set<Id>, actual: seq<Listed>,
                                                 exp: map<Id, Expected>, id: Id)
    requires Lists(w, managed, actual)
    ensures var (w', entries) := Walk(w, f, actual, exp); var before, after := Lookup(w.containers, id), Lookup(w'.containers, id);
            && (after == before || after == Target(w, managed, exp, id))
            && ((forall e :: e in entries && e.CallFailed? ==> e.id != id) ==> after == Target(w, managed, exp, id))
            && (NoFaults(f) ==> after == Target(w, managed, exp, id) && forall e :: e in entries ==> !e.CallFailed?)
    decreases |actual|
  {
    if actual != [] {
      var a, e := actual[0], Lookup(exp, actual[0].id);
      var (w1, entries) := Turn(w, f, a, e);
      assert a in actual;
      TurnAt(w, f, a, e, id);
      RestLists(w, f, managed, actual, e);
      EachAsBeforeOrDesired(w1, f, managed - {a.id}, actual[1..], exp, id);
      var (w2, rest) := Walk(w1, f, actual[1..], exp);
      assert Walk(w, f, actual, exp).1 == entries + rest;
      assert forall x :: x in entries + rest <==> x in entries || x in rest;
      hide Turn, Walk, Desired;
      if NoFaults(f) {
        TurnFine(w, f, a, e);
      }
    }
  }

  lemma TurnFine(w: World, f: nat -> Fault, a: Listed, exp: Option<Expected>)
    requires a.id in w.containers && NoFaults(f)
    ensures forall e :: e in Turn(w, f, a, exp).1 ==> !e.CallFailed?
  {
  }

  lemma RestLists(w: World, f: nat -> Fault, managed: set<Id>, actual: seq<Listed>, exp: Option<Expected>)
    requires Lists(w, managed, actual) && actual != []
    ensures Lists(Turn(w, f, actual[0], exp).0, managed - {actual[0].id}, actual[1..])
  {
    var w1, a := Turn(w, f, actual[0], exp).0, actual[0];
    assert a in actual;
    forall b | b in actual[1..]
      ensures b.id in managed - {a.id} && b.id in w1.containers && w1.containers[b.id].running == b.running
    {
      var i :| 0 <= i < |actual[1..]| && actual[1..][i] == b;
      assert actual[i + 1] == b && b in actual;
    }
    forall id | id in w1.containers && id in managed - {a.id}
      ensures Listed(id, w1.containers[id].running) in actual[1..]
    {
      var l := Listed(id, w.containers[id].running);
      assert l in actual && l != a;
      assert l in actual[1..];
    }
  }

  /**
   After one failure-free Reconcile: expected containers run or do not as expected, orphans and
   containers to be removed are gone, no call failed, and containers outside the managed label are
   untouched. The whole set of containers is stated.
   */
  lemma {:induction false} FailureFreeReaches(w: World, f: nat -> Fault, managed: set<Id>, actual: seq<Listed>, expected: seq<Expected>)
    requires Lists(w, managed, actual) && NoFaults(f)
    ensures var (w', entries) := After(w, f, actual, expected);
            && (forall id :: Lookup(w'.containers, id) == Target(w, managed, ById(expected), id))
            && (forall e :: e in entries ==> !e.CallFailed?)
  {
    var (w', entries) := Walk(w, f, actual, ById(expected));
    forall id
      ensures Lookup(w'.containers, id) == Target(w, managed, ById(expected), id)
    {
      EachAsBeforeOrDesired(w, f, managed, actual, ById(expected), id);
    }
    EachAsBeforeOrDesired(w, f, managed, actual, ById(expected), 0);
    MissingOnly(ListedIds(actual), expected);
  }

  lemma {:induction false} MissingOnly(ids: set<Id>, expected: seq<Expected>)
    ensures forall e :: e in MissingFrom(ids, expected) ==> e.Missing? && e.id !in ids
    decreases |expected|
  {
    if expected != [] {
      MissingOnly(ids, expected[1..]);
    }
  }

  /** Every managed container already is as it should be. */
  predicate Settled(w: World, managed: set<Id>, exp: map<Id, Expected>) {
    forall id :: id in w.containers && id in managed ==> Target(w, managed, exp, id) == Some(w.containers[id])
  }

  /** A settled world costs no call: its containers are at most adopted. */
  lemma {:induction false} SettledIsQuiet(w: World, f: nat -> Fault, managed: set<Id>, actual: seq<Listed>, exp: map<Id, Expected>)
    requires forall a :: a in actual ==> a.id in managed && a.id in w.containers && w.containers[a.id].running == a.running
    requires Settled(w, managed, exp)
    ensures var (w', entries) := Walk(w, f, actual, exp); w' == w && forall e :: e in entries ==> e.Adopted?
    decreases |actual|
  {
    if actual != [] {
      assert actual[0] in actual;
      assert Needed(actual[0], Lookup(exp, actual[0].id)) == None;
      SettledIsQuiet(w, f, managed, actual[1..], exp);
    }
  }

  /**
   A second Reconcile after a failure-free one makes no mutating call, whatever fails; it adopts what
   runs and reports as missing exactly the expected rows whose container was missing before or was
   the one the first pass removed.
   */
  lemma {:induction false} SecondPassOnlyReports(w: World, f: nat -> Fault, g: nat -> Fault, managed: set<Id>,
                                                 first: seq<Listed>, second: seq<Listed>, expected: seq<Expected>)
    requires Lists(w, managed, first) && NoFaults(f)
    requires Lists(After(w, f, first, expected).0, managed, second)
    ensures var w1 := After(w, f, first, expected).0; var (w2, entries) := After(w1, g, second, expected);
            && w2 == w1
            && (forall e :: e in entries ==> e.Adopted? || e.Missing?)
            && (forall e :: e in expected ==>
                  (Missing(e.agentId, e.id) in entries <==>
                   !(e.id in managed && e.id in w.containers) || RemovalWanted(ById(expected), e.id)))
  {
    hide Walk;
    var exp, w1 := ById(expected), After(w, f, first, expected).0;
    FailureFreeReaches(w, f, managed, first, expected);
    assert forall id :: Lookup(w1.containers, id) == Target(w, managed, exp, id);
    assert Settled(w1, managed, exp);
    SettledIsQuiet(w1, g, managed, second, exp);
    MissingOnly(ListedIds(second), expected);
    var entries := Walk(w1, g, second, exp).1;
    forall e | e in expected
      ensures Missing(e.agentId, e.id) in entries + MissingFrom(ListedIds(second), expected) <==>
              !(e.id in managed && e.id in w.containers) || RemovalWanted(ById(expected), e.id)
    {
      MissingIff(ListedIds(second), expected, e);
      ByIdHas(expected, e);
      assert e.id in ListedIds(second) <==> e.id in managed && e.id in w1.containers by {
        if e.id in managed && e.id in w1.containers {
          assert Listed(e.id, w1.containers[e.id].running) in second;
        }
      }
      assert Lookup(w1.containers, e.id) == Target(w, managed, exp, e.id);
    }
  }

  lemma {:induction false} MissingIff(ids: set<Id>, expected: seq<Expected>, e: Expected)
    requires e in expected
    ensures Missing(e.agentId, e.id) in MissingFrom(ids, expected) <==> e.id !in ids
    decreases |expected|
  {
    MissingOnly(ids, expected);
    if e != expected[0] {
      MissingIff(ids, expected[1..], e);
    }
  }

  lemma {:induction false} ByIdHas(expected: seq<Expected>, e: Expected)
    requires e in expected
    ensures e.id in ById(expected) && ById(expected)[e.id].id == e.id
    decreases |expected|
  {
    var n := |expected| - 1;
    if e != expected[n] {
      assert e in expected[..n];
      ByIdHas(expected[..n], e);
    }
  }

  lemma WalkStep(w: World, f: nat -> Fault, actual: seq<Listed>, i: nat, exp: map<Id, Expected>, done: seq<Entry>)
    requires i < |actual|
    ensures var (w1, entries) := Turn(w, f, actual[i], Lookup(exp, actual[i].id));
            var (w2, rest) := Walk(w1, f, actual[i + 1..], exp);
            && Walk(w, f, actual[i..], exp).0 == w2
            && done + Walk(w, f, actual[i..], exp).1 == done + entries + rest
  {
    hide Turn;
    assert actual[i..][0] == actual[i] && actual[i..][1..] == actual[i + 1..];
    var (w1, entries) := Turn(w, f, actual[i], Lookup(exp, actual[i].id));
    var rest := Walk(w1, f, actual[i + 1..], exp).1;
    assert done + (entries + rest) == done + entries + rest;
  }

  lemma WalkNone(w: World, f: nat -> Fault, exp: map<Id, Expected>)
    ensures Walk(w, f, [], exp) == (w, [])
  {
  }

  // ---------------------------------------------------------------- the walk, as the code runs it

  class ReconcileReport {
    var entries: seq<Entry>

    constructor ()
      ensures entries == []
    {
      entries := [];
    }

    method Add(e: Entry)
      modifies this
      ensures entries == old(entries) + [e]
    {
      entries := entries + [e];
    }
  }

  method GcOrphan(engine: Engine, a: Listed, report: ReconcileReport)
    modifies engine, report
    ensures (engine.Abs(), report.entries) ==
            var (w', entries) := Turn(old(engine.Abs()), engine.faults, a, None); (w', old(report.entries) + entries)
  {
    var ok := engine.Perform(Remove(a.id));
    report.Add(if ok then Collected(a.id) else CallFailed(None, a.id));
  }

  method ReconcileExpected(engine: Engine, a: Listed, exp: Expected, report: ReconcileReport)
    modifies engine, report
    ensures (engine.Abs(), report.entries) ==
            var (w', entries) := Turn(old(engine.Abs()), engine.faults, a, Some(exp)); (w', old(report.entries) + entries)
  {
    hide Do;
    var ok;
    assert report.entries + [] == report.entries;
    match exp.wanted {
      case ShouldRun =>
        if a.running {
          report.Add(Adopted(exp.agentId));
        } else {
          ok := engine.Perform(Start(a.id));
          report.Add(if ok then Restarted(exp.agentId) else CallFailed(Some(exp.agentId), a.id));
        }
      case ShouldStop =>
        if a.running {
          ok := engine.Perform(Stop(a.id));
          if !ok {
            report.Add(CallFailed(Some(exp.agentId), a.id));
          }
        }
      case ShouldBeRemoved =>
        ok := engine.Perform(Remove(a.id));
        report.Add(if ok then Collected(a.id) else CallFailed(Some(exp.agentId), a.id));
    }
  }

  method IndexById(expected: seq<Expected>) returns (expectedById: map<Id, Expected>)
    ensures expectedById == ById(expected)
  {
    expectedById := map[];
    for i := 0 to |expected|
      invariant expectedById == ById(expected[..i])
    {
      assert expected[..i + 1][..i] == expected[..i];
      expectedById := expectedById[expected[i].id := expected[i]];
    }
    assert expected[..|expected|] == expected;
  }

  method WalkActual(engine: Engine, actual: seq<Listed>, expectedById: map<Id, Expected>, report: ReconcileReport)
    returns (seenIds: set<Id>)
    modifies engine, report
    ensures seenIds == ListedIds(actual)
    ensures (engine.Abs(), report.entries) ==
            var (w', entries) := Walk(old(engine.Abs()), engine.faults, actual, expectedById); (w', old(report.entries) + entries)
  {
    hide Turn, Walk;
    ghost var start, f, before := engine.Abs(), engine.faults, report.entries;
    ghost var entries: seq<Entry> := [];
    seenIds := {};
    assert actual[0..] == actual && before + entries == before;
    assert entries + Walk(start, f, actual, expectedById).1 == Walk(start, f, actual, expectedById).1;
    for i := 0 to |actual|
      invariant seenIds == ListedIds(actual[..i])
      invariant report.entries == before + entries
      invariant Walk(start, f, actual, expectedById) ==
                var (w', rest) := Walk(engine.Abs(), f, actual[i..], expectedById); (w', entries + rest)
    {
      var a := actual[i];
      WalkStep(engine.Abs(), f, actual, i, expectedById, entries);
      assert actual[..i + 1] == actual[..i] + [a];
      seenIds := seenIds + {a.id};
      entries := entries + Turn(engine.Abs(), f, a, Lookup(expectedById, a.id)).1;
      if a.id !in expectedById {
        GcOrphan(engine, a, report);
      } else {
        ReconcileExpected(engine, a, expectedById[a.id], report);
      }
    }
    WalkNone(engine.Abs(), f, expectedById);
    assert actual[..|actual|] == actual && actual[|actual|..] == [] && entries + [] == entries;
    assert Walk(start, f, actual, expectedById) == (engine.Abs(), entries);
  }

  method ReportMissing(seenIds: set<Id>, expected: seq<Expected>, report: ReconcileReport)
    modifies report
    ensures report.entries == old(report.entries) + MissingFrom(seenIds, expected)
  {
    ghost var before := report.entries;
    assert expected[0..] == expected;
    for i := 0 to |expected|
      invariant before + MissingFrom(seenIds, expected) == report.entries + MissingFrom(seenIds, expected[i..])
    {
      assert expected[i..][0] == expected[i] && expected[i..][1..] == expected[i + 1..];
      if expected[i].id !in seenIds {
        report.Add(Missing(expected[i].agentId, expected[i].id));
      }
    }
  }

  /** Reconcile once the list call answered; a failing list call ends it before this. */
  method ReconcileAll(engine: Engine, actual: seq<Listed>, expected: seq<Expected>) returns (report: ReconcileReport)
    modifies engine
    ensures fresh(report)
    ensures (engine.Abs(), report.entries) == After(old(engine.Abs()), engine.faults, actual, expected)
  {
    report := new ReconcileReport();
    var expectedById := IndexById(expected);
    ghost var entries := Walk(engine.Abs(), engine.faults, actual, expectedById).1;
    assert [] + entries == entries;
    var seenIds := WalkActual(engine, actual, expectedById, report);
    ReportMissing(seenIds, expected, report);
  }
}
