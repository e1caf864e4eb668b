/**
 Tool-call chips, live and rebuilt: the list the dashboard grows from tool_use and tool_result frames
 (dashboard/lib/sse/chatStream.ts) against the one it reconstructs from the stored envelope of the
 same turn (dashboard/lib/sse/replay.ts, supervisor/internal/chat/policy.go).
 */
module ToolChips {
  import opened Common
  import opened ChatPolicy

  datatype Frame = Use(id: string, name: string) | Result(id: string, isError: bool)

  datatype Chip = Chip(id: string, name: string, result: Option<bool>)

  // ---------------------------------------------------------------- the supervisor's frames

  function ResultFrames(results: seq<(string, bool)>, lost: set<nat>): seq<Frame> {
    if results == [] then []
    else
      var n := |results| - 1;
      ResultFrames(results[..n], lost) + if n in lost then [] else [Result(results[n].0, results[n].1)]
  }

  function FramesOf(e: StreamEvent): seq<Frame> {
    match e
    case ToolUseStart(id, name, _, _, _, sent) => if id == "" || !sent then [] else [Use(id, name)]
    case UserMessage(results, lost) => ResultFrames(results, lost)
    case _ => []
  }

  function Frames(log: seq<StreamEvent>): seq<Frame> {
    if log == [] then [] else Frames(log[..|log| - 1]) + FramesOf(log[|log| - 1])
  }

  function Addressed(message: MessageId, f: Frame): ToolFrame {
    match f
    case Use(id, name) => UseFrame(message, id, name)
    case Result(id, isError) => ResultFrame(message, id, isError)
  }

  /** These frames, in this order, each for this message. */
  predicate AreFor(sent: seq<ToolFrame>, message: MessageId, frames: seq<Frame>) {
    |sent| == |frames| && forall i :: 0 <= i < |frames| ==> sent[i] == Addressed(message, frames[i])
  }

  lemma {:induction false} ResultsAreSent(message: MessageId, results: seq<(string, bool)>, lost: set<nat>)
    ensures AreFor(Results(message, results, lost), message, ResultFrames(results, lost))
    decreases |results|
  {
    if results != [] {
      ResultsAreSent(message, results[..|results| - 1], lost);
    }
  }

  /** They are what the policy sends, over every turn: for each event, its frames and no others. */
  lemma {:induction false} FramesAreSent(message: MessageId, log: seq<StreamEvent>)
    ensures AreFor(StreamAfter(message, log).tools, message, Frames(log))
    decreases |log|
  {
    if log != [] {
      var e := log[|log| - 1];
      FramesAreSent(message, log[..|log| - 1]);
      if e.UserMessage? {
        ResultsAreSent(message, e.results, e.lost);
      }
    }
  }

  // ---------------------------------------------------------------- the live list

  /** The list after frames that arrive once each, in order. */
  function Live(frames: seq<Frame>): seq<Chip> {
    if frames == [] then [] else Shown(Live(frames[..|frames| - 1]), frames[|frames| - 1])
  }

  predicate Has(chips: seq<Chip>, id: string) {
    exists i :: 0 <= i < |chips| && chips[i].id == id
  }

  function WithResult(chips: seq<Chip>, id: string, isError: bool): seq<Chip> {
    seq(|chips|, i requires 0 <= i < |chips| => if chips[i].id == id then chips[i].(result := Some(isError)) else chips[i])
  }

  /** What one frame that passes the guards does to the list. */
  function Shown(chips: seq<Chip>, f: Frame): seq<Chip> {
    match f
    case Use(id, name) => if id == "" || Has(chips, id) then chips else chips + [Chip(id, name, None)]
    case Result(id, isError) => WithResult(chips, id, isError)
  }

  datatype Store = Store(seenToolUseIds: set<(MessageId, string)>, toolCalls: map<MessageId, seq<Chip>>)

  function ChipsOf(s: Store, message: MessageId): seq<Chip> {
    if message in s.toolCalls then s.toolCalls[message] else []
  }

  function Deliver(s: Store, message: MessageId, f: Frame): Store {
    match f
    case Use(id, name) =>
      if id == "" || (message, id) in s.seenToolUseIds then s
      else Store(s.seenToolUseIds + {(message, id)},
                 s.toolCalls[message := ChipsOf(s, message) + [Chip(id, name, None)]])
    case Result(id, isError) =>
      if id == "" || message !in s.toolCalls then s
      else s.(toolCalls := s.toolCalls[message := WithResult(s.toolCalls[message], id, isError)])
  }

  class ToolStore {
    var seenToolUseIds: set<(MessageId, string)>
    var toolCalls: map<MessageId, seq<Chip>>

    ghost function Abs(): Store
      reads this
    {
      Store(seenToolUseIds, toolCalls)
    }

    constructor ()
      ensures Abs() == Store({}, map[])
    {
      seenToolUseIds, toolCalls := {}, map[];
    }

    method ToolUse(message: MessageId, id: string, name: string)
      modifies this
      ensures Abs() == Deliver(old(Abs()), message, Use(id, name))
    {
      if id == "" || (message, id) in seenToolUseIds {
        return;
      }
      seenToolUseIds := seenToolUseIds + {(message, id)};
      var existing := if message in toolCalls then toolCalls[message] else [];
      toolCalls := toolCalls[message := existing + [Chip(id, name, None)]];
    }

    method ToolResult(message: MessageId, id: string, isError: bool)
      modifies this
      ensures Abs() == Deliver(old(Abs()), message, Result(id, isError))
    {
      if id == "" || message !in toolCalls {
        return;
      }
      var list, updated := toolCalls[message], [];
      for i := 0 to |list|
        invariant updated == WithResult(list, id, isError)[..i]
      {
        updated := updated + [if list[i].id == id then list[i].(result := Some(isError)) else list[i]];
      }
      assert WithResult(list, id, isError)[..|list|] == WithResult(list, id, isError);
      toolCalls := toolCalls[message := updated];
    }
  }

  // ---------------------------------------------------------------- the rebuilt list

  /** `calls.set(id, ...)` on an insertion-ordered map: a known id keeps its place and starts over. */
  function Put(chips: seq<Chip>, id: string, name: string): seq<Chip> {
    if Has(chips, id)
    then seq(|chips|, i requires 0 <= i < |chips| => if chips[i].id == id then Chip(id, name, None) else chips[i])
    else chips + [Chip(id, name, None)]
  }

  function AssistantUses(log: seq<StreamEvent>): seq<(string, string)> {
    if log == [] then []
    else AssistantUses(log[..|log| - 1]) + if log[|log| - 1].AssistantMessage? then log[|log| - 1].uses else []
  }

  function UserResults(log: seq<StreamEvent>): seq<(string, bool)> {
    if log == [] then []
    else UserResults(log[..|log| - 1]) + if log[|log| - 1].UserMessage? then log[|log| - 1].results else []
  }

  function Collect(uses: seq<(string, string)>): seq<Chip> {
    if uses == [] then []
    else Put(Collect(uses[..|uses| - 1]), uses[|uses| - 1].0, uses[|uses| - 1].1)
  }

  function Attach(chips: seq<Chip>, results: seq<(string, bool)>): seq<Chip> {
    if results == [] then chips
    else WithResult(Attach(chips, results[..|results| - 1]), results[|results| - 1].0, results[|results| - 1].1)
  }

  function Rebuilt(log: seq<StreamEvent>): seq<Chip> {
    Attach(Collect(AssistantUses(log)), UserResults(log))
  }

  /** Whatever ids the envelope repeats: one chip each, in the place of the first use, with the name of the last. */
  lemma {:induction false} CollectMeans(uses: seq<(string, string)>)
    ensures var chips := Collect(uses);
            && (forall i, j :: 0 <= i < j < |chips| ==> chips[i].id != chips[j].id)
            && (forall j :: 0 <= j < |uses| ==> Has(chips, uses[j].0))
            && (forall i :: 0 <= i < |chips| ==> chips[i].result == None && Names(uses, chips[i]))
    decreases |uses|
  {
    hide Put, Names, Has;
    if uses != [] {
      var front, u := uses[..|uses| - 1], uses[|uses| - 1];
      var before, chips := Collect(front), Collect(uses);
      assert chips == Put(before, u.0, u.1) && uses == front + [u];
      hide Collect;
      CollectMeans(front);
      PutMeans(before, u.0, u.1);
      forall i | 0 <= i < |chips|
        ensures chips[i].result == None && Names(uses, chips[i])
      {
        if chips[i].id == u.0 {
          NamedLast(front, u, chips[i]);
        } else {
          NamedBefore(front, u, before[i]);
        }
      }
      if !Has(before, u.0) {
        forall i | 0 <= i < |before|
          ensures before[i].id != u.0
        {
          HasAt(before, i);
        }
      }
    }
  }

  lemma HasAt(chips: seq<Chip>, i: nat)
    requires i < |chips|
    ensures Has(chips, chips[i].id)
  {
  }

  lemma NamedLast(front: seq<(string, string)>, u: (string, string), chip: Chip)
    requires chip.id == u.0 && chip.name == u.1
    ensures Names(front + [u], chip)
  {
    assert (front + [u])[|front|] == u;
  }

  lemma NamedBefore(front: seq<(string, string)>, u: (string, string), chip: Chip)
    requires Names(front, chip) && chip.id != u.0
    ensures Names(front + [u], chip)
  {
    var k :| 0 <= k < |front| && front[k] == (chip.id, chip.name) && forall j :: k < j < |front| ==> front[j].0 != chip.id;
    assert (front + [u])[k] == front[k];
  }

  /** The last use of the chip's id gives its name. */
  predicate Names(uses: seq<(string, string)>, chip: Chip) {
    exists k :: 0 <= k < |uses| && uses[k] == (chip.id, chip.name) && forall j :: k < j < |uses| ==> uses[j].0 != chip.id
  }

  lemma PutMeans(chips: seq<Chip>, id: string, name: string)
    ensures var after := Put(chips, id, name);
            && |after| == |chips| + (if Has(chips, id) then 0 else 1)
            && (forall i :: 0 <= i < |chips| ==> after[i] == if chips[i].id == id then Chip(id, name, None) else chips[i])
            && (!Has(chips, id) ==> after[|chips|] == Chip(id, name, None))
            && (forall other :: Has(chips, other) ==> Has(after, other)) && Has(after, id)
  {
    var after := Put(chips, id, name);
    if !Has(chips, id) {
      assert after[|chips|].id == id;
    } else {
      var i :| 0 <= i < |chips| && chips[i].id == id;
      assert after[i].id == id;
    }
    forall other | Has(chips, other)
      ensures Has(after, other)
    {
      var i :| 0 <= i < |chips| && chips[i].id == other;
      assert after[i].id == other;
    }
  }

  /** A later use moves no chip. */
  lemma {:induction false} CollectKeepsPlaces(uses: seq<(string, string)>, k: nat)
    requires k <= |uses|
    ensures var before, after := Collect(uses[..k]), Collect(uses);
            |before| <= |after| && forall i :: 0 <= i < |before| ==> after[i].id == before[i].id
    decreases |uses|
  {
    if k == |uses| {
      assert uses[..k] == uses;
    } else {
      var front := uses[..|uses| - 1];
      assert front[..k] == uses[..k];
      CollectKeepsPlaces(front, k);
      PutMeans(Collect(front), uses[|front|].0, uses[|front|].1);
      hide Put;
    }
  }

  /** The two passes over the envelope, events outside and blocks inside. */
  method ReconstructToolCalls(log: seq<StreamEvent>) returns (calls: seq<Chip>)
    ensures calls == Rebuilt(log)
  {
    calls := [];
    for i := 0 to |log|
      invariant calls == Collect(AssistantUses(log[..i]))
    {
      assert log[..i + 1][..i] == log[..i];
      if log[i].AssistantMessage? {
        calls := CollectBlocks(calls, AssistantUses(log[..i]), log[i].uses);
      } else {
        assert AssistantUses(log[..i]) + [] == AssistantUses(log[..i]);
      }
    }
    assert log[..|log|] == log;
    ghost var collected := calls;
    for i := 0 to |log|
      invariant calls == Attach(collected, UserResults(log[..i]))
    {
      assert log[..i + 1][..i] == log[..i];
      if log[i].UserMessage? {
        calls := AttachBlocks(calls, collected, UserResults(log[..i]), log[i].results);
      } else {
        assert UserResults(log[..i]) + [] == UserResults(log[..i]);
      }
    }
  }

  method CollectBlocks(calls: seq<Chip>, ghost before: seq<(string, string)>, uses: seq<(string, string)>) returns (out: seq<Chip>)
    requires calls == Collect(before)
    ensures out == Collect(before + uses)
  {
    out := calls;
    assert before + uses[..0] == before;
    for i := 0 to |uses|
      invariant out == Collect(before + uses[..i])
    {
      assert (before + uses[..i + 1])[..|before| + i] == before + uses[..i];
      out := Put(out, uses[i].0, uses[i].1);
    }
    assert uses[..|uses|] == uses;
  }

  method AttachBlocks(calls: seq<Chip>, ghost start: seq<Chip>, ghost before: seq<(string, bool)>, results: seq<(string, bool)>)
    returns (out: seq<Chip>)
    requires calls == Attach(start, before)
    ensures out == Attach(start, before + results)
  {
    out := calls;
    assert before + results[..0] == before;
    for i := 0 to |results|
      invariant out == Attach(start, before + results[..i])
    {
      assert (before + results[..i + 1])[..|before| + i] == before + results[..i];
      out := WithResult(out, results[i].0, results[i].1);
    }
    assert results[..|results|] == results;
  }

  // ---------------------------------------------------------------- when the two lists agree

  function UsesIn(frames: seq<Frame>): seq<(string, string)> {
    if frames == [] then []
    else
      var f := frames[|frames| - 1];
      UsesIn(frames[..|frames| - 1]) + if f.Use? then [(f.id, f.name)] else []
  }

  function ResultsIn(frames: seq<Frame>): seq<(string, bool)> {
    if frames == [] then []
    else
      var f := frames[|frames| - 1];
      ResultsIn(frames[..|frames| - 1]) + if f.Result? then [(f.id, f.isError)] else []
  }

  predicate Uses(uses: seq<(string, string)>, id: string) {
    exists i :: 0 <= i < |uses| && uses[i].0 == id
  }

  predicate DistinctIds(uses: seq<(string, string)>) {
    && (forall i, j :: 0 <= i < j < |uses| ==> uses[i].0 != uses[j].0)
    && (forall i :: 0 <= i < |uses| ==> uses[i].0 != "")
  }

  /** The last result of this id in the turn. */
  function Last(results: seq<(string, bool)>, id: string): Option<bool> {
    if results == [] then None
    else if results[|results| - 1].0 == id then Some(results[|results| - 1].1)
    else Last(results[..|results| - 1], id)
  }

  /** The last result of this id that came after its use. */
  function LastAfterUse(frames: seq<Frame>, id: string): Option<bool> {
    if frames == [] then None
    else
      var front, f := frames[..|frames| - 1], frames[|frames| - 1];
      if f.Result? && f.id == id && Uses(UsesIn(front), id) then Some(f.isError) else LastAfterUse(front, id)
  }

  /** A chip list, by position: these uses, each with the result given for its id. */
  ghost predicate Lists(chips: seq<Chip>, uses: seq<(string, string)>, result: string -> Option<bool>) {
    |chips| == |uses| && forall i :: 0 <= i < |uses| ==> chips[i] == Chip(uses[i].0, uses[i].1, result(uses[i].0))
  }

  lemma {:induction false} LiveLists(frames: seq<Frame>)
    requires DistinctIds(UsesIn(frames))
    ensures Lists(Live(frames), UsesIn(frames), id => LastAfterUse(frames, id))
    decreases |frames|
  {
    if frames != [] {
      var front, f := frames[..|frames| - 1], frames[|frames| - 1];
      var uses := UsesIn(front);
      assert f.Use? ==> UsesIn(frames) == uses + [(f.id, f.name)];
      assert f.Result? ==> UsesIn(frames) == uses;
      assert forall i :: 0 <= i < |uses| ==> UsesIn(frames)[i] == uses[i];
      assert DistinctIds(uses);
      LiveLists(front);
      assert forall i :: 0 <= i < |uses| ==> Live(front)[i].id == uses[i].0;
      if f.Use? {
        assert UsesIn(frames)[|uses|] == (f.id, f.name);
        assert !Uses(uses, f.id) && !Has(Live(front), f.id);
        NoUseNoResult(front, f.id);
      } else {
        assert forall i :: 0 <= i < |uses| ==> Uses(uses, uses[i].0);
      }
    }
  }

  lemma UsesKept(a: seq<(string, string)>, b: seq<(string, string)>, id: string)
    ensures Uses(a, id) ==> Uses(a + b, id)
  {
    if Uses(a, id) {
      var i :| 0 <= i < |a| && a[i].0 == id;
      assert (a + b)[i].0 == id;
    }
  }

  lemma {:induction false} NoUseNoResult(frames: seq<Frame>, id: string)
    requires !Uses(UsesIn(frames), id)
    ensures LastAfterUse(frames, id) == None
    decreases |frames|
  {
    if frames != [] {
      var front, f := frames[..|frames| - 1], frames[|frames| - 1];
      UsesKept(UsesIn(front), if f.Use? then [(f.id, f.name)] else [], id);
      NoUseNoResult(front, id);
    }
  }

  lemma {:induction false} CollectLists(uses: seq<(string, string)>)
    requires DistinctIds(uses)
    ensures Lists(Collect(uses), uses, id => None)
    decreases |uses|
  {
    if uses != [] {
      var front := uses[..|uses| - 1];
      assert forall i :: 0 <= i < |front| ==> front[i] == uses[i];
      CollectLists(front);
    }
  }

  lemma {:induction false} AttachLists(chips: seq<Chip>, uses: seq<(string, string)>, results: seq<(string, bool)>)
    requires Lists(chips, uses, id => None)
    ensures Lists(Attach(chips, results), uses, id => Last(results, id))
    decreases |results|
  {
    if results != [] {
      AttachLists(chips, uses, results[..|results| - 1]);
    }
  }

  /** The uses of the stream events, and those whose frame went out. */
  function StreamUses(log: seq<StreamEvent>): seq<(string, string)> {
    if log == [] then []
    else
      var e := log[|log| - 1];
      StreamUses(log[..|log| - 1]) + if e.ToolUseStart? then [(e.id, e.name)] else []
  }

  function SentUses(log: seq<StreamEvent>): seq<(string, string)> {
    if log == [] then []
    else
      var e := log[|log| - 1];
      SentUses(log[..|log| - 1]) + if e.ToolUseStart? && e.useSent && e.id != "" then [(e.id, e.name)] else []
  }

  predicate UseSent(e: StreamEvent) {
    e.ToolUseStart? ==> e.useSent
  }

  predicate ResultsSent(e: StreamEvent) {
    e.UserMessage? ==> forall i :: 0 <= i < |e.results| ==> i !in e.lost
  }

  predicate AllUsesSent(log: seq<StreamEvent>) {
    forall i :: 0 <= i < |log| ==> UseSent(log[i])
  }

  predicate AllResultsSent(log: seq<StreamEvent>) {
    forall i :: 0 <= i < |log| ==> ResultsSent(log[i])
  }

  lemma {:induction false} UsesAppend(a: seq<Frame>, b: seq<Frame>)
    ensures UsesIn(a + b) == UsesIn(a) + UsesIn(b)
    decreases |b|
  {
    if b == [] {
      assert a + b == a;
    } else {
      assert (a + b)[..|a + b| - 1] == a + b[..|b| - 1];
      UsesAppend(a, b[..|b| - 1]);
    }
  }

  lemma {:induction false} NoUsesInResults(results: seq<(string, bool)>, lost: set<nat>)
    ensures UsesIn(ResultFrames(results, lost)) == []
    decreases |results|
  {
    if results != [] {
      var n := |results| - 1;
      NoUsesInResults(results[..n], lost);
      UsesAppend(ResultFrames(results[..n], lost), if n in lost then [] else [Result(results[n].0, results[n].1)]);
    }
  }

  lemma UsesOfEvent(e: StreamEvent)
    ensures UsesIn(FramesOf(e)) == if e.ToolUseStart? && e.useSent && e.id != "" then [(e.id, e.name)] else []
  {
    if e.UserMessage? {
      NoUsesInResults(e.results, e.lost);
    } else if e.ToolUseStart? {
      assert [Use(e.id, e.name)][..0] == [];
    }
  }

  lemma {:induction false} UsesInFrames(log: seq<StreamEvent>)
    ensures UsesIn(Frames(log)) == SentUses(log)
    decreases |log|
  {
    hide FramesOf, UsesIn;
    if log != [] {
      var front, e := log[..|log| - 1], log[|log| - 1];
      UsesInFrames(front);
      UsesAppend(Frames(front), FramesOf(e));
      UsesOfEvent(e);
    } else {
      NoFramesNoUses();
    }
  }

  lemma NoFramesNoUses()
    ensures UsesIn([]) == []
  {
  }

  lemma {:induction false} SentUsesIn(log: seq<StreamEvent>, u: (string, string))
    ensures u in SentUses(log) ==> u in StreamUses(log)
    ensures |SentUses(log)| <= |StreamUses(log)|
    decreases |log|
  {
    if log != [] {
      SentUsesIn(log[..|log| - 1], u);
    }
  }

  /** Distinct ids stay distinct; the two lists are as long exactly when every use went out, and then equal. */
  lemma {:induction false} SentUsesDistinct(log: seq<StreamEvent>)
    requires DistinctIds(StreamUses(log))
    ensures DistinctIds(SentUses(log))
    ensures |SentUses(log)| == |StreamUses(log)| <==> AllUsesSent(log)
    ensures AllUsesSent(log) ==> SentUses(log) == StreamUses(log)
    decreases |log|
  {
    if log != [] {
      var front, e := log[..|log| - 1], log[|log| - 1];
      assert StreamUses(front) <= StreamUses(log);
      DistinctPrefix(StreamUses(front), StreamUses(log));
      SentUsesDistinct(front);
      SentUsesIn(front, ("", ""));
      AllSentSnoc(log);
      hide AllUsesSent, UseSent;
      if e.ToolUseStart? {
        NewUse(log);
      }
    }
  }

  lemma AllSentSnoc(log: seq<StreamEvent>)
    requires log != []
    ensures AllUsesSent(log) <==> AllUsesSent(log[..|log| - 1]) && UseSent(log[|log| - 1])
  {
    assert forall i :: 0 <= i < |log| - 1 ==> log[..|log| - 1][i] == log[i];
  }

  /** A turn's latest use is of an id not used before, so none of that id was sent before. */
  lemma NewUse(log: seq<StreamEvent>)
    requires log != [] && log[|log| - 1].ToolUseStart? && DistinctIds(StreamUses(log))
    ensures var id := log[|log| - 1].id;
            && UseSent(log[|log| - 1]) == log[|log| - 1].useSent && id != ""
            && !Uses(SentUses(log[..|log| - 1]), id)
  {
    var front, e := log[..|log| - 1], log[|log| - 1];
    var uses, sent := StreamUses(front), SentUses(front);
    assert StreamUses(log)[|uses|] == (e.id, e.name);
    forall i | 0 <= i < |sent|
      ensures sent[i].0 != e.id
    {
      SentUsesIn(front, sent[i]);
      var j :| 0 <= j < |uses| && uses[j] == sent[i];
      assert StreamUses(log)[j] == uses[j];
    }
  }

  lemma DistinctPrefix(a: seq<(string, string)>, b: seq<(string, string)>)
    requires DistinctIds(b) && a <= b
    ensures DistinctIds(a)
  {
    assert forall i :: 0 <= i < |a| ==> a[i] == b[i];
  }

  /** What is stored is what was sent, results and all, when every result went out. */
  lemma {:induction false} SentResultsStored(log: seq<StreamEvent>)
    requires AllResultsSent(log)
    ensures ResultsIn(Frames(log)) == UserResults(log)
    decreases |log|
  {
    if log != [] {
      var front, e := log[..|log| - 1], log[|log| - 1];
      assert forall i :: 0 <= i < |front| ==> front[i] == log[i];
      assert ResultsSent(e);
      SentResultsStored(front);
      ResultsAppend(Frames(front), FramesOf(e));
      if e.UserMessage? {
        ResultsOfResults(e.results, e.lost);
      } else if e.ToolUseStart? {
        assert ResultsIn(FramesOf(e)) == [];
      }
    }
  }

  lemma {:induction false} ResultsAppend(a: seq<Frame>, b: seq<Frame>)
    ensures ResultsIn(a + b) == ResultsIn(a) + ResultsIn(b)
    decreases |b|
  {
    if b == [] {
      assert a + b == a;
    } else {
      assert (a + b)[..|a + b| - 1] == a + b[..|b| - 1];
      ResultsAppend(a, b[..|b| - 1]);
    }
  }

  lemma {:induction false} ResultsOfResults(results: seq<(string, bool)>, lost: set<nat>)
    requires forall i :: 0 <= i < |results| ==> i !in lost
    ensures ResultsIn(ResultFrames(results, lost)) == results
    decreases |results|
  {
    if results != [] {
      var n := |results| - 1;
      ResultsOfResults(results[..n], lost);
      ResultsAppend(ResultFrames(results[..n], lost), [Result(results[n].0, results[n].1)]);
      assert ResultsIn([Result(results[n].0, results[n].1)]) == [results[n]] by {
        assert [Result(results[n].0, results[n].1)][..0] == [];
      }
      assert results[..n] + [results[n]] == results;
    }
  }

  /** Do the stream and the assistant events tell of the same uses, in the same order, with distinct ids? */
  predicate SameUses(log: seq<StreamEvent>) {
    StreamUses(log) == AssistantUses(log) && DistinctIds(AssistantUses(log))
  }

  /** The last result of this id sent after its use says what the last one stored says. */
  predicate ResultArrives(log: seq<StreamEvent>, id: string) {
    LastAfterUse(Frames(log), id) == Last(UserResults(log), id)
  }

  /** Every use went out, and so did for each what its result came to. */
  predicate NothingMissed(log: seq<StreamEvent>) {
    AllUsesSent(log) && ResultsArrive(log, AssistantUses(log))
  }

  predicate ResultsArrive(log: seq<StreamEvent>, uses: seq<(string, string)>) {
    forall i :: 0 <= i < |uses| ==> ResultArrives(log, uses[i].0)
  }

  /** Are all this id's results, if any, from before its use? */
  predicate OnlyEarlyResults(log: seq<StreamEvent>, id: string) {
    Last(UserResults(log), id).Some? && LastAfterUse(Frames(log), id).None?
  }

  predicate NoneEarly(log: seq<StreamEvent>, uses: seq<(string, string)>) {
    forall i :: 0 <= i < |uses| ==> !OnlyEarlyResults(log, uses[i].0)
  }

  /** Under any losses: the live chips are the rebuilt ones exactly when the frames that went out missed nothing. */
  lemma {:induction false} LiveEqualsRebuiltIff(log: seq<StreamEvent>)
    requires SameUses(log)
    ensures Live(Frames(log)) == Rebuilt(log) <==> NothingMissed(log)
    ensures AllUsesSent(log) ==>
              && |Live(Frames(log))| == |Rebuilt(log)|
              && forall i :: 0 <= i < |Rebuilt(log)| ==>
                   Live(Frames(log))[i].id == Rebuilt(log)[i].id && Live(Frames(log))[i].name == Rebuilt(log)[i].name
  {
    var frames, uses := Frames(log), AssistantUses(log);
    UsesInFrames(log);
    SentUsesDistinct(log);
    LiveLists(frames);
    CollectLists(uses);
    AttachLists(Collect(uses), uses, UserResults(log));
    RebuiltIs(log);
    assert |Live(frames)| == |SentUses(log)| && |Rebuilt(log)| == |uses|;
    hide Live, Rebuilt, Frames, SentUses, StreamUses, AssistantUses, UserResults, Attach, Collect, AllUsesSent, Lists,
         LastAfterUse, Last, UsesIn, DistinctIds;
    if AllUsesSent(log) {
      ListsEqualIff(Live(frames), Rebuilt(log), uses, id => LastAfterUse(frames, id), id => Last(UserResults(log), id));
    }
  }

  /**
   Without losses that is: no used id has results only from before its use. The live list drops those, the
   rebuild applies them.
   */
  lemma {:induction false} NothingMissedIff(log: seq<StreamEvent>)
    requires AllUsesSent(log) && AllResultsSent(log)
    ensures NothingMissed(log) <==> NoneEarly(log, AssistantUses(log))
  {
    hide ResultArrives, OnlyEarlyResults;
    forall id
      ensures ResultArrives(log, id) <==> !OnlyEarlyResults(log, id)
    {
      ArrivesIff(log, id);
    }
  }

  lemma ArrivesIff(log: seq<StreamEvent>, id: string)
    requires AllResultsSent(log)
    ensures ResultArrives(log, id) <==> !OnlyEarlyResults(log, id)
  {
    SentResultsStored(log);
    AfterUseIsLast(Frames(log), id);
  }

  lemma RebuiltIs(log: seq<StreamEvent>)
    ensures Rebuilt(log) == Attach(Collect(AssistantUses(log)), UserResults(log))
  {
  }

  lemma ListsEqualIff(a: seq<Chip>, b: seq<Chip>, uses: seq<(string, string)>,
                      f: string -> Option<bool>, g: string -> Option<bool>)
    requires Lists(a, uses, f) && Lists(b, uses, g)
    ensures |a| == |b| == |uses|
    ensures forall i :: 0 <= i < |uses| ==> a[i].id == b[i].id && a[i].name == b[i].name
    ensures a == b <==> forall i :: 0 <= i < |uses| ==> f(uses[i].0) == g(uses[i].0)
  {
  }

  /** Once a result came after the use, the last one overall did. */
  lemma {:induction false} AfterUseIsLast(frames: seq<Frame>, id: string)
    ensures LastAfterUse(frames, id).Some? ==> LastAfterUse(frames, id) == Last(ResultsIn(frames), id)
    decreases |frames|
  {
    if frames != [] {
      var front, f := frames[..|frames| - 1], frames[|frames| - 1];
      AfterUseIsLast(front, id);
      assert f.Result? ==> ResultsIn(frames)[..|ResultsIn(front)|] == ResultsIn(front);
      assert f.Use? ==> ResultsIn(frames) == ResultsIn(front);
      if f.Result? && f.id == id && !Uses(UsesIn(front), id) {
        NoUseNoResult(front, id);
      }
    }
  }

  // ---------------------------------------------------------------- re-deliveries

  /** One arrival: the message's next frame, one it already got, or a frame of another message. */
  datatype Arrival = NextFrame | Again(k: nat) | Other(message: MessageId, f: Frame)

  function Receive(s: Store, frames: seq<Frame>, message: MessageId, arrivals: seq<Arrival>): (r: (Store, nat))
    ensures r.1 <= |frames|
    decreases |arrivals|
  {
    if arrivals == [] then (s, 0)
    else
      var (t, d) := Receive(s, frames, message, arrivals[..|arrivals| - 1]);
      match arrivals[|arrivals| - 1]
      case NextFrame => if d < |frames| then (Deliver(t, message, frames[d]), d + 1) else (t, d)
      case Again(k) => if k < d then (Deliver(t, message, frames[k]), d) else (t, d)
      case Other(m, f) => if m != message then (Deliver(t, m, f), d) else (t, d)
  }

  predicate UsedBefore(frames: seq<Frame>, k: nat, id: string)
    requires k <= |frames|
  {
    exists j :: 0 <= j < k && frames[j].Use? && frames[j].id == id
  }

  /** No result precedes the use of its id, and all results of one id say the same. */
  predicate ResultsFollowUses(frames: seq<Frame>) {
    && (forall k :: 0 <= k < |frames| ==> frames[k].id != "")
    && (forall k :: 0 <= k < |frames| && frames[k].Result? && UsedBefore(frames, |frames|, frames[k].id) ==> UsedBefore(frames, k, frames[k].id))
    && (forall j, k :: 0 <= j < |frames| && 0 <= k < |frames| && frames[j].Result? && frames[k].Result? && frames[j].id == frames[k].id ==>
          frames[j].isError == frames[k].isError)
  }

  ghost predicate InStep(s: Store, frames: seq<Frame>, message: MessageId) {
    && ChipsOf(s, message) == Live(frames)
    && (message in s.toolCalls <==> Live(frames) != [])
    && (forall id :: (message, id) in s.seenToolUseIds <==> Has(Live(frames), id))
  }

  /** Every result received so far is in its chip. */
  ghost predicate Recorded(frames: seq<Frame>) {
    forall k, i :: 0 <= k < |frames| && frames[k].Result? && 0 <= i < |Live(frames)| && Live(frames)[i].id == frames[k].id ==>
      Live(frames)[i].result == Some(frames[k].isError)
  }

  lemma LiveGrows(chips: seq<Chip>, f: Frame)
    ensures |chips| <= |Shown(chips, f)| && forall i :: 0 <= i < |chips| ==> Shown(chips, f)[i].id == chips[i].id
    ensures f.Use? && f.id != "" ==> Has(Shown(chips, f), f.id)
  {
    if f.Use? && f.id != "" && !Has(chips, f.id) {
      assert Shown(chips, f)[|chips|].id == f.id;
    }
  }

  /** The chips are of the ids used so far. */
  lemma {:induction false} LiveHas(frames: seq<Frame>, id: string)
    requires ResultsFollowUses(frames)
    ensures Has(Live(frames), id) <==> UsedBefore(frames, |frames|, id)
    decreases |frames|
  {
    if frames != [] {
      var front, f := frames[..|frames| - 1], frames[|frames| - 1];
      PrefixFollows(frames, |front|);
      LiveHas(front, id);
      ShownHas(Live(front), f, id);
      assert UsedBefore(frames, |frames|, id) <==> UsedBefore(front, |front|, id) || (f.Use? && f.id == id) by {
        assert forall j :: 0 <= j < |front| ==> front[j] == frames[j];
      }
      hide Has, UsedBefore, Shown;
    }
  }

  lemma ShownHas(chips: seq<Chip>, f: Frame, id: string)
    requires f.id != ""
    ensures Has(Shown(chips, f), id) <==> Has(chips, id) || (f.Use? && f.id == id)
  {
    LiveGrows(chips, f);
    if Has(chips, id) {
      HasKept(chips, Shown(chips, f), id);
    }
  }

  lemma {:induction false} LiveFacts(frames: seq<Frame>)
    requires ResultsFollowUses(frames)
    ensures Recorded(frames)
    decreases |frames|
  {
    if frames != [] {
      var front, f := frames[..|frames| - 1], frames[|frames| - 1];
      PrefixFollows(frames, |front|);
      LiveFacts(front);
      LiveGrows(Live(front), f);
      forall k, i | 0 <= k < |frames| && frames[k].Result? && 0 <= i < |Live(frames)| && Live(frames)[i].id == frames[k].id
        ensures Live(frames)[i].result == Some(frames[k].isError)
      {
        if k < |front| {
          ChipUsedBefore(frames, k, i);
          LiveHas(front, frames[k].id);
          SameIdSameResult(frames, k);
          assert f.Use? && |Live(front)| < |Live(frames)| ==> !Has(Live(front), f.id);
        }
      }
    }
  }

  /** A chip's result never came before its use. */
  lemma ChipUsedBefore(frames: seq<Frame>, k: nat, i: nat)
    requires ResultsFollowUses(frames) && k < |frames| - 1 && frames[k].Result?
    requires i < |Live(frames)| && Live(frames)[i].id == frames[k].id
    ensures UsedBefore(frames[..|frames| - 1], |frames| - 1, frames[k].id)
  {
    assert Has(Live(frames), frames[k].id);
    LiveHas(frames, frames[k].id);
    var j :| 0 <= j < k && frames[j].Use? && frames[j].id == frames[k].id;
    assert frames[..|frames| - 1][j] == frames[j];
  }

  lemma SameIdSameResult(frames: seq<Frame>, k: nat)
    requires ResultsFollowUses(frames) && k < |frames| && frames[k].Result?
    ensures var f := frames[|frames| - 1]; f.Result? && f.id == frames[k].id ==> f.isError == frames[k].isError
  {
  }

  lemma HasKept(before: seq<Chip>, after: seq<Chip>, id: string)
    requires |before| <= |after| && forall i :: 0 <= i < |before| ==> after[i].id == before[i].id
    requires Has(before, id)
    ensures Has(after, id)
  {
    var i :| 0 <= i < |before| && before[i].id == id;
    assert after[i].id == id;
  }

  lemma NextStep(s: Store, frames: seq<Frame>, message: MessageId, d: nat)
    requires d < |frames| && frames[d].id != "" && InStep(s, frames[..d], message)
    ensures InStep(Deliver(s, message, frames[d]), frames[..d + 1], message)
  {
    var f, chips := frames[d], Live(frames[..d]);
    assert frames[..d + 1][..d] == frames[..d];
    var after := Live(frames[..d + 1]);
    assert after == Shown(chips, f);
    if f.Result? {
      assert forall i :: 0 <= i < |chips| ==> after[i].id == chips[i].id;
      assert forall id :: Has(after, id) <==> Has(chips, id);
      assert chips == [] ==> after == [];
    } else if Has(chips, f.id) {
      assert after == chips;
    } else {
      assert after == chips + [Chip(f.id, f.name, None)];
      forall id
        ensures Has(after, id) <==> Has(chips, id) || id == f.id
      {
        assert after[|chips|].id == f.id;
        if Has(chips, id) {
          HasKept(chips, after, id);
        }
      }
    }
  }

  lemma AgainStep(s: Store, frames: seq<Frame>, message: MessageId, k: nat)
    requires ResultsFollowUses(frames) && k < |frames| && InStep(s, frames, message)
    ensures InStep(Deliver(s, message, frames[k]), frames, message)
  {
    LiveFacts(frames);
    var f := frames[k];
    LiveHas(frames, f.id);
    if f.Use? {
      assert UsedBefore(frames, |frames|, f.id);
    } else if message in s.toolCalls {
      assert WithResult(Live(frames), f.id, f.isError) == Live(frames);
    }
  }

  lemma OtherStep(s: Store, frames: seq<Frame>, message: MessageId, other: MessageId, f: Frame)
    requires InStep(s, frames, message) && other != message
    ensures InStep(Deliver(s, other, f), frames, message)
  {
  }

  lemma PrefixFollows(frames: seq<Frame>, d: nat)
    requires ResultsFollowUses(frames) && d <= |frames|
    ensures ResultsFollowUses(frames[..d])
  {
    var front := frames[..d];
    forall k | 0 <= k < |front| && front[k].Result? && UsedBefore(front, |front|, front[k].id)
      ensures UsedBefore(front, k, front[k].id)
    {
      var i :| 0 <= i < |front| && front[i].Use? && front[i].id == front[k].id;
      assert frames[i].Use? && UsedBefore(frames, |frames|, frames[k].id);
      var j :| 0 <= j < k && frames[j].Use? && frames[j].id == frames[k].id;
      assert front[j].Use?;
    }
  }

  lemma {:induction false} RedeliveryHarmless(s: Store, frames: seq<Frame>, message: MessageId, arrivals: seq<Arrival>)
    requires ResultsFollowUses(frames) && InStep(s, [], message)
    ensures var (t, d) := Receive(s, frames, message, arrivals); InStep(t, frames[..d], message)
    decreases |arrivals|
  {
    if arrivals == [] {
      assert frames[..0] == [];
    } else {
      RedeliveryHarmless(s, frames, message, arrivals[..|arrivals| - 1]);
      var (t, d) := Receive(s, frames, message, arrivals[..|arrivals| - 1]);
      hide InStep, Deliver, ResultsFollowUses;
      match arrivals[|arrivals| - 1] {
        case NextFrame =>
          if d < |frames| {
            assert frames[d].id != "" by { IdGiven(frames, d); }
            NextStep(t, frames, message, d);
          }
        case Again(k) =>
          if k < d {
            PrefixFollows(frames, d);
            AgainStep(t, frames[..d], message, k);
          }
        case Other(m, f) => if m != message { OtherStep(t, frames[..d], message, m, f); }
      }
    }
  }

  lemma IdGiven(frames: seq<Frame>, k: nat)
    requires ResultsFollowUses(frames) && k < |frames|
    ensures frames[k].id != ""
  {
  }

  /**
   For a well-formed turn, delivered in order with any re-deliveries among frames of other messages: once
   every frame that went out arrived, the chips on screen are the chips a reload rebuilds from the envelope
   exactly when those frames missed nothing.
   */
  lemma {:induction false} ReloadShowsTheSame(s: Store, log: seq<StreamEvent>, message: MessageId, arrivals: seq<Arrival>)
    requires SameUses(log) && ResultsFollowUses(Frames(log)) && InStep(s, [], message)
    requires Receive(s, Frames(log), message, arrivals).1 == |Frames(log)|
    ensures ChipsOf(Receive(s, Frames(log), message, arrivals).0, message) == Rebuilt(log) <==> NothingMissed(log)
  {
    var frames := Frames(log);
    RedeliveryHarmless(s, frames, message, arrivals);
    assert frames[..|frames|] == frames;
    LiveEqualsRebuiltIff(log);
  }

  /** In particular when no frame was lost. */
  lemma {:induction false} NoLossNothingMissed(log: seq<StreamEvent>)
    requires SameUses(log) && ResultsFollowUses(Frames(log)) && AllUsesSent(log) && AllResultsSent(log)
    ensures NothingMissed(log)
  {
    var frames, uses := Frames(log), AssistantUses(log);
    UsesInFrames(log);
    SentUsesDistinct(log);
    SentResultsStored(log);
    NothingMissedIff(log);
    hide Frames, AssistantUses, UserResults, SentUses, StreamUses, NothingMissed, Last, LastAfterUse;
    forall i | 0 <= i < |uses|
      ensures !OnlyEarlyResults(log, uses[i].0)
    {
      assert Uses(UsesIn(frames), uses[i].0);
      UseFound(frames, uses[i].0);
      if Last(UserResults(log), uses[i].0).Some? {
        LastFollows(frames, uses[i].0);
      }
    }
  }

  lemma {:induction false} UseFound(frames: seq<Frame>, id: string)
    requires Uses(UsesIn(frames), id)
    ensures UsedBefore(frames, |frames|, id)
    decreases |frames|
  {
    if frames != [] {
      var front, f := frames[..|frames| - 1], frames[|frames| - 1];
      if f.Use? && f.id == id {
        assert frames[|front|].Use?;
      } else {
        var i :| 0 <= i < |UsesIn(frames)| && UsesIn(frames)[i].0 == id;
        assert i < |UsesIn(front)| && UsesIn(front)[i].0 == id;
        UseFound(front, id);
        var j :| 0 <= j < |front| && front[j].Use? && front[j].id == id;
        assert frames[j].Use?;
      }
    }
  }

  lemma {:induction false} LastFollows(frames: seq<Frame>, id: string)
    requires ResultsFollowUses(frames) && Last(ResultsIn(frames), id).Some? && UsedBefore(frames, |frames|, id)
    ensures LastAfterUse(frames, id).Some?
    decreases |frames|
  {
    if frames != [] {
      var front, f := frames[..|frames| - 1], frames[|frames| - 1];
      PrefixFollows(frames, |frames| - 1);
      if f.Result? && f.id == id {
        var j :| 0 <= j < |frames| - 1 && frames[j].Use? && frames[j].id == id;
        UseListed(front, j);
      } else {
        if f.Result? {
          assert ResultsIn(frames)[..|ResultsIn(front)|] == ResultsIn(front);
        } else {
          assert ResultsIn(frames) == ResultsIn(front);
        }
        ResultUsed(frames, id);
        LastFollows(front, id);
      }
    }
  }

  /** An id with a result among all but the last frame was used before the last frame. */
  lemma ResultUsed(frames: seq<Frame>, id: string)
    requires ResultsFollowUses(frames) && frames != [] && UsedBefore(frames, |frames|, id)
    requires Last(ResultsIn(frames[..|frames| - 1]), id).Some?
    ensures UsedBefore(frames[..|frames| - 1], |frames| - 1, id)
  {
    var front := frames[..|frames| - 1];
    ResultFound(front, id);
    var k :| 0 <= k < |front| && front[k].Result? && front[k].id == id;
    assert frames[k].Result? && UsedBefore(frames, k, id);
    var j :| 0 <= j < k && frames[j].Use? && frames[j].id == id;
    assert front[j].Use?;
  }

  lemma {:induction false} ResultFound(frames: seq<Frame>, id: string)
    requires Last(ResultsIn(frames), id).Some?
    ensures exists k :: 0 <= k < |frames| && frames[k].Result? && frames[k].id == id
    decreases |frames|
  {
    if frames != [] {
      var front, f := frames[..|frames| - 1], frames[|frames| - 1];
      if f.Result? && f.id == id {
        assert frames[|front|].Result?;
      } else {
        assert f.Result? ==> ResultsIn(frames)[..|ResultsIn(front)|] == ResultsIn(front);
        assert f.Use? ==> ResultsIn(frames) == ResultsIn(front);
        ResultFound(front, id);
        var k :| 0 <= k < |front| && front[k].Result? && front[k].id == id;
        assert frames[k].Result?;
      }
    }
  }

  lemma {:induction false} UseListed(frames: seq<Frame>, j: nat)
    requires j < |frames| && frames[j].Use?
    ensures Uses(UsesIn(frames), frames[j].id)
    decreases |frames|
  {
    var front := frames[..|frames| - 1];
    if j == |front| {
      assert UsesIn(frames)[|UsesIn(front)|].0 == frames[j].id;
    } else {
      UseListed(front, j);
      var i :| 0 <= i < |UsesIn(front)| && UsesIn(front)[i].0 == frames[j].id;
      assert UsesIn(frames)[i].0 == frames[j].id;
    }
  }
}
