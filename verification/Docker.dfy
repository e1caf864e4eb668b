/**
 The part of the Docker Engine that the container controller drives
 (supervisor/internal/agentcontainer/socketproxy.go): containers by id, each with a name, the value
 of its shape-hash label and whether it runs. Every call may be refused, or take effect and then
 lose its reply.
 */
module Docker {
  import opened Common

  type Id = nat
  type Hash = nat

  datatype Container = Container(name: string, hash: Option<Hash>, running: bool)

  datatype Fault = Fine | Refused | LostReply

  datatype Request =
    | Create(name: string, hash: Hash)
    | Start(id: Id)
    | Stop(id: Id)
    | Remove(id: Id)

  datatype World = World(containers: map<Id, Container>, nextId: Id, calls: nat, mutations: nat)

  /** What the engine itself guarantees: names are unique and ids are not reused. */
  ghost predicate Sound(w: World) {
    && (forall a, b :: a in w.containers && b in w.containers && w.containers[a].name == w.containers[b].name ==> a == b)
    && (forall id :: id in w.containers ==> id < w.nextId)
  }

  /** 409 for a taken name, 404 for an id that is not there. */
  predicate Possible(w: World, r: Request) {
    match r
    case Create(name, _) => forall id :: id in w.containers ==> w.containers[id].name != name
    case Start(id) => id in w.containers
    case Stop(id) => id in w.containers
    case Remove(id) => id in w.containers
  }

  /** Starting a running container and stopping a stopped one are answered 304 and change nothing. */
  function Effect(w: World, r: Request): map<Id, Container>
    requires Possible(w, r)
  {
    match r
    case Create(name, hash) => w.containers[w.nextId := Container(name, Some(hash), false)]
    case Start(id) => w.containers[id := w.containers[id].(running := true)]
    case Stop(id) => w.containers[id := w.containers[id].(running := false)]
    case Remove(id) => w.containers - {id}
  }

  /** A mutating call: the world afterwards, and whether the caller is told it worked. */
  function Do(w: World, faults: nat -> Fault, r: Request): (World, bool) {
    var fault := faults(w.calls);
    if fault == Refused || !Possible(w, r)
    then (w.(calls := w.calls + 1, mutations := w.mutations + 1), false)
    else (World(Effect(w, r), if r.Create? then w.nextId + 1 else w.nextId, w.calls + 1, w.mutations + 1), fault == Fine)
  }

  /**
   What a mutating call comes to: it works for certain on a container that is there, or a name that is free,
   and is then reported unless its reply was lost; refused, or impossible, it changes no container.
   */
  lemma DoMeans(w: World, faults: nat -> Fault, r: Request)
    ensures var (w', ok) := Do(w, faults, r); var fault := faults(w.calls);
            var possible := if r.Create? then forall id :: id in w.containers ==> w.containers[id].name != r.name else r.id in w.containers;
            && w'.calls == w.calls + 1 && w'.mutations == w.mutations + 1
            && (ok <==> possible && fault == Fine)
            && (!possible || fault == Refused ==> w'.containers == w.containers && w'.nextId == w.nextId)
            && (possible && fault != Refused ==>
                  match r
                  case Create(name, hash) =>
                    w'.containers == w.containers[w.nextId := Container(name, Some(hash), false)] && w'.nextId == w.nextId + 1
                  case Start(id) => w'.containers == w.containers[id := w.containers[id].(running := true)] && w'.nextId == w.nextId
                  case Stop(id) => w'.containers == w.containers[id := w.containers[id].(running := false)] && w'.nextId == w.nextId
                  case Remove(id) => w'.containers == w.containers - {id} && w'.nextId == w.nextId)
  {
  }

  /** A call that only reads; any fault makes it fail. */
  function Looked(w: World): World {
    w.(calls := w.calls + 1)
  }

  predicate IsNamed(w: World, id: Id, name: string) {
    id in w.containers && w.containers[id].name == name
  }

  function Find(w: World, name: string): (found: Option<Id>)
    requires Sound(w)
    ensures found.Some? ==> IsNamed(w, found.value, name)
    ensures found.None? ==> forall id :: !IsNamed(w, id, name)
  {
    if exists id :: id in w.containers && IsNamed(w, id, name) then
      var id :| id in w.containers && IsNamed(w, id, name);
      Some(id)
    else
      None
  }

  datatype Inspection = Absent | Failure | Present(id: Id, container: Container)

  function Inspect(w: World, faults: nat -> Fault, name: string): Inspection
    requires Sound(w)
  {
    if faults(w.calls) != Fine then Failure
    else match Find(w, name)
         case None => Absent
         case Some(id) => Present(id, w.containers[id])
  }

  ghost predicate NoFaults(f: nat -> Fault) {
    forall i :: f(i) == Fine
  }

  class Engine {
    var containers: map<Id, Container>
    var nextId: Id
    var calls: nat
    var mutations: nat
    const faults: nat -> Fault

    constructor (start: World, faults: nat -> Fault)
      ensures Abs() == start && this.faults == faults
    {
      containers, nextId, calls, mutations := start.containers, start.nextId, start.calls, start.mutations;
      this.faults := faults;
    }

    function Abs(): World
      reads this
    {
      World(containers, nextId, calls, mutations)
    }

    method Perform(r: Request) returns (ok: bool)
      modifies this
      ensures (Abs(), ok) == Do(old(Abs()), faults, r)
    {
      var fault := faults(calls);
      calls, mutations := calls + 1, mutations + 1;
      ok := false;
      if fault != Refused {
        match r {
          case Create(name, hash) =>
            if forall id :: id in containers ==> containers[id].name != name {
              containers, nextId := containers[nextId := Container(name, Some(hash), false)], nextId + 1;
              ok := fault == Fine;
            }
          case Start(id) =>
            if id in containers {
              containers := containers[id := containers[id].(running := true)];
              ok := fault == Fine;
            }
          case Stop(id) =>
            if id in containers {
              containers := containers[id := containers[id].(running := false)];
              ok := fault == Fine;
            }
          case Remove(id) =>
            if id in containers {
              containers := containers - {id};
              ok := fault == Fine;
            }
        }
      }
    }

    /** GET by name: the one container of that name, if the call gets through. */
    method ContainerInspect(name: string) returns (found: Inspection)
      requires Sound(Abs())
      modifies this`calls
      ensures found == Inspect(old(Abs()), faults, name) && Abs() == Looked(old(Abs()))
    {
      ghost var w := Abs();
      var fault := faults(calls);
      calls := calls + 1;
      if fault != Fine {
        return Failure;
      }
      var todo := containers.Keys;
      while todo != {}
        invariant todo <= containers.Keys
        invariant forall id :: id in containers && id !in todo ==> containers[id].name != name
        decreases todo
      {
        var id :| id in todo;
        if containers[id].name == name {
          assert IsNamed(w, id, name);
          return Present(id, containers[id]);
        }
        todo := todo - {id};
      }
      assert forall id :: !IsNamed(w, id, name);
      found := Absent;
    }
  }
}
