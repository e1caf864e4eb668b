/** The throttle feed's bounded dedupe window (dashboard/lib/sse/throttleStream.ts, `pushEvent`). */
module Throttle {

  const BUFFER_CAP: nat := 100

  datatype ThrottleEvent = ThrottleEvent(eventId: string, companyId: string, kind: string, firedAt: string)

  datatype Arrival = Unparsable | Parsed(event: ThrottleEvent)

  /** The last 100 of the accepted events, newest first. */
  function Window(accepted: seq<ThrottleEvent>): seq<ThrottleEvent> {
    Newest(accepted, BUFFER_CAP)
  }

  function Newest(accepted: seq<ThrottleEvent>, n: nat): seq<ThrottleEvent> {
    if accepted == [] || n == 0 then []
    else [accepted[|accepted| - 1]] + Newest(accepted[..|accepted| - 1], n - 1)
  }

  predicate HasId(events: seq<ThrottleEvent>, id: string) {
    exists i :: 0 <= i < |events| && events[i].eventId == id
  }

  /** Arrivals that parse, carry an id, and whose id is not in the window at that moment. */
  function Accepted(arrivals: seq<Arrival>): seq<ThrottleEvent> {
    if arrivals == [] then []
    else
      var before, a := Accepted(arrivals[..|arrivals| - 1]), arrivals[|arrivals| - 1];
      if a.Unparsable? || a.event.eventId == "" || HasId(Window(before), a.event.eventId) then before
      else before + [a.event]
  }

  predicate DistinctIds(events: seq<ThrottleEvent>) {
    forall i, j :: 0 <= i < j < |events| ==> events[i].eventId != events[j].eventId
  }

  lemma {:induction false} NewestPrefix(accepted: seq<ThrottleEvent>, n: nat)
    ensures |Newest(accepted, n)| == if |accepted| < n then |accepted| else n
    ensures forall i :: 0 <= i < |Newest(accepted, n)| ==> Newest(accepted, n)[i] == accepted[|accepted| - 1 - i]
    decreases n
  {
    if accepted != [] && n > 0 {
      var rest := Newest(accepted[..|accepted| - 1], n - 1);
      NewestPrefix(accepted[..|accepted| - 1], n - 1);
      assert Newest(accepted, n) == [accepted[|accepted| - 1]] + rest;
      hide Newest;
    }
  }

  lemma DistinctCons(e: ThrottleEvent, events: seq<ThrottleEvent>)
    requires DistinctIds(events) && !HasId(events, e.eventId)
    ensures DistinctIds([e] + events)
  {
  }

  lemma IdsOfSplit(a: seq<ThrottleEvent>, b: seq<ThrottleEvent>)
    ensures forall id :: HasId(a + b, id) <==> HasId(a, id) || HasId(b, id)
    ensures DistinctIds(a + b) ==> DistinctIds(a)
  {
    forall id
      ensures HasId(a + b, id) <==> HasId(a, id) || HasId(b, id)
    {
      if HasId(a, id) {
        var i :| 0 <= i < |a| && a[i].eventId == id;
        assert (a + b)[i].eventId == id;
      }
      if HasId(b, id) {
        var i :| 0 <= i < |b| && b[i].eventId == id;
        assert (a + b)[|a| + i].eventId == id;
      }
    }
    if DistinctIds(a + b) {
      assert forall i :: 0 <= i < |a| ==> a[i] == (a + b)[i];
    }
  }

  lemma IdsOfCons(e: ThrottleEvent, events: seq<ThrottleEvent>)
    ensures forall id :: HasId([e] + events, id) <==> id == e.eventId || HasId(events, id)
  {
    var next := [e] + events;
    forall id
      ensures HasId(next, id) <==> id == e.eventId || HasId(events, id)
    {
      if HasId(events, id) {
        var i :| 0 <= i < |events| && events[i].eventId == id;
        assert next[i + 1].eventId == id;
      }
      assert next[0].eventId == e.eventId;
    }
  }

  lemma WindowGrows(accepted: seq<ThrottleEvent>, e: ThrottleEvent)
    ensures var next := [e] + Window(accepted);
            Window(accepted + [e]) == if |next| > BUFFER_CAP then next[..BUFFER_CAP] else next
  {
    NewestPrefix(accepted, BUFFER_CAP);
    NewestPrefix(accepted + [e], BUFFER_CAP);
    NewestPrefix(accepted, BUFFER_CAP - 1);
    assert (accepted + [e])[..|accepted|] == accepted;
  }

  /** Dropping one id forgets exactly the event it belongs to. */
  lemma DroppedId(kept: seq<ThrottleEvent>, dropped: seq<ThrottleEvent>, i: nat)
    requires DistinctIds(kept + dropped) && i < |dropped|
    ensures !HasId(kept, dropped[i].eventId) && !HasId(dropped[i + 1..], dropped[i].eventId)
    ensures forall id :: HasId(dropped[i..], id) <==> id == dropped[i].eventId || HasId(dropped[i + 1..], id)
  {
    var all := kept + dropped;
    assert forall k :: 0 <= k < |kept| ==> kept[k] == all[k];
    assert forall k :: 0 <= k < |dropped| ==> dropped[k] == all[|kept| + k];
    assert dropped[i..] == [dropped[i]] + dropped[i + 1..];
    IdsOfCons(dropped[i], dropped[i + 1..]);
  }

  lemma WindowHas(accepted: seq<ThrottleEvent>, i: nat)
    requires i < |accepted| && |accepted| - i <= BUFFER_CAP
    ensures HasId(Window(accepted), accepted[i].eventId)
  {
    NewestPrefix(accepted, BUFFER_CAP);
    assert Window(accepted)[|accepted| - 1 - i] == accepted[i];
  }

  lemma {:induction false} AcceptedStep(arrivals: seq<Arrival>, a: Arrival)
    ensures Accepted(arrivals + [a]) ==
            if a.Parsed? && a.event.eventId != "" && !HasId(Window(Accepted(arrivals)), a.event.eventId)
            then Accepted(arrivals) + [a.event] else Accepted(arrivals)
  {
    assert (arrivals + [a])[..|arrivals|] == arrivals;
  }

  class ThrottleStreamStore {
    var events: seq<ThrottleEvent>
    var seenIds: set<string>
    var lastError: string
    // Everything that ever arrived.
    ghost var arrivals: seq<Arrival>

    /** The window is the newest of the accepted, its ids distinct, and seenIds exactly its index. */
    ghost predicate Valid()
      reads this
    {
      && events == Window(Accepted(arrivals))
      && |events| <= BUFFER_CAP && DistinctIds(events)
      && (forall id :: id in seenIds <==> HasId(events, id))
    }

    constructor ()
      ensures Valid() && arrivals == []
    {
      events, seenIds, lastError, arrivals := [], {}, "", [];
    }

    /** Forget the ids of the events that fall off the end. */
    method DeleteIds(dropped: seq<ThrottleEvent>, ghost kept: seq<ThrottleEvent>)
      requires DistinctIds(kept + dropped) && forall id :: id in seenIds <==> HasId(kept, id) || HasId(dropped, id)
      modifies this`seenIds
      ensures forall id :: id in seenIds <==> HasId(kept, id)
    {
      assert dropped[0..] == dropped;
      for i := 0 to |dropped|
        invariant forall id :: id in seenIds <==> HasId(kept, id) || HasId(dropped[i..], id)
      {
        DroppedId(kept, dropped, i);
        seenIds := seenIds - {dropped[i].eventId};
      }
    }

    method PushEvent(a: Arrival)
      requires Valid()
      modifies this
      ensures Valid() && arrivals == old(arrivals) + [a]
      ensures if a.Parsed? && a.event.eventId != "" && a.event.eventId !in old(seenIds)
              then events == if |old(events)| < 100 then [a.event] + old(events) else [a.event] + old(events)[..99]
              else events == old(events) && seenIds == old(seenIds)
    {
      hide Accepted, Window, DistinctIds, HasId;
      ghost var before, shown := Accepted(arrivals), events;
      AcceptedStep(arrivals, a);
      arrivals := arrivals + [a];
      if a.Unparsable? || a.event.eventId == "" || a.event.eventId in seenIds {
        return;
      }
      WindowGrows(before, a.event);
      IdsOfCons(a.event, shown);
      DistinctCons(a.event, shown);
      seenIds := seenIds + {a.event.eventId};
      var next := [a.event] + events;
      if |next| > BUFFER_CAP {
        var dropped := next[BUFFER_CAP..];
        assert next == next[..BUFFER_CAP] + dropped;
        IdsOfSplit(next[..BUFFER_CAP], dropped);
        DeleteIds(dropped, next[..BUFFER_CAP]);
        events := next[..BUFFER_CAP];
      } else {
        events := next;
      }
      lastError := "";
    }
  }

  /** Nothing is dropped for good: an id has been accepted exactly if an event with it ever arrived. */
  lemma {:induction false} AcceptedIffArrived(arrivals: seq<Arrival>, id: string)
    requires id != ""
    ensures HasId(Accepted(arrivals), id) <==> exists k :: 0 <= k < |arrivals| && arrivals[k].Parsed? && arrivals[k].event.eventId == id
    decreases |arrivals|
  {
    if arrivals != [] {
      var front, a := arrivals[..|arrivals| - 1], arrivals[|arrivals| - 1];
      assert arrivals == front + [a];
      AcceptedStep(front, a);
      AcceptedIffArrived(front, id);
      IdsOfSplit(Accepted(front), if a.Parsed? then [a.event] else []);
      if a.Parsed? && a.event.eventId == id {
        assert [a.event][0].eventId == id;
        WindowIsOld(Accepted(front), id);
      }
      hide Accepted, HasId;
      assert forall k :: 0 <= k < |front| ==> front[k] == arrivals[k];
    }
  }

  lemma WindowIsOld(accepted: seq<ThrottleEvent>, id: string)
    ensures HasId(Window(accepted), id) ==> HasId(accepted, id)
  {
    NewestPrefix(accepted, BUFFER_CAP);
    if HasId(Window(accepted), id) {
      var i :| 0 <= i < |Window(accepted)| && Window(accepted)[i].eventId == id;
      assert accepted[|accepted| - 1 - i].eventId == id;
    }
  }

  /**
   For every arrival sequence: the window's ids are distinct; and an id is accepted a second time only
   once a hundred other events were accepted since, so duplicates within any hundred are dropped.
   */
  lemma {:induction false} DuplicatesFarApart(arrivals: seq<Arrival>, i: nat, j: nat)
    requires i < j < |Accepted(arrivals)| && Accepted(arrivals)[i].eventId == Accepted(arrivals)[j].eventId
    ensures j - i >= 100
    decreases |arrivals|
  {
    var front, a := arrivals[..|arrivals| - 1], arrivals[|arrivals| - 1];
    var before := Accepted(front);
    assert arrivals == front + [a];
    AcceptedStep(front, a);
    if j < |before| {
      DuplicatesFarApart(front, i, j);
    } else if j - i < BUFFER_CAP {
      WindowHas(before, i);
    }
  }
}
