/**
 The supervisor's side of a live chat turn (supervisor/internal/chat/policy.go): what each stream
 event does to the answer buffer, to the frames mirrored on the notify channels and to the three
 per-turn ceilings.
 */
module ChatPolicy {
  import opened Common

  type MessageId = nat

  /** One payload of the assistant-delta channel (transport.go). */
  datatype DeltaFrame = DeltaFrame(message: MessageId, block: nat, seqNo: nat, text: string, scrub: bool)

  datatype ToolFrame =
    | UseFrame(message: MessageId, id: string, name: string)
    | ResultFrame(message: MessageId, id: string, isError: bool)

  datatype Ceiling = ToolCallCeiling | TicketCeiling | ScheduledTaskCeiling

  /**
   One raw event of a turn, with whether the frames it mirrors get out: an oversized delta is dropped, and
   any notify can fail. `ticket` and `scheduled` are the two substring tests on the raw event. All of them
   are kept for the stored envelope.
   */
  datatype StreamEvent =
    | MessageStart
    | TextDelta(text: string, sent: bool)
    | ToolUseStart(id: string, name: string, ticket: bool, scheduled: bool, scrubSent: bool, useSent: bool)
    | AssistantMessage(uses: seq<(string, string)>)               // its tool_use blocks: id, name
    | UserMessage(results: seq<(string, bool)>, lost: set<nat>)   // its tool_result blocks: id, is_error
    | Observed

  /** One value per ceiling: its limit, its count, or whether it has fired. */
  datatype Tally<T> = Tally(toolCalls: T, tickets: T, scheduledTasks: T) {
    function At(kind: Ceiling): T {
      match kind
      case ToolCallCeiling => toolCalls
      case TicketCeiling => tickets
      case ScheduledTaskCeiling => scheduledTasks
    }

    function Put(kind: Ceiling, value: T): Tally<T> {
      match kind
      case ToolCallCeiling => this.(toolCalls := value)
      case TicketCeiling => this.(tickets := value)
      case ScheduledTaskCeiling => this.(scheduledTasks := value)
    }
  }

  datatype Stream = Stream(contentBuf: string, messageBlock: nat, deltaSeq: nat,
                           deltas: seq<DeltaFrame>, tools: seq<ToolFrame>)

  datatype Meters = Meters(counts: Tally<nat>, fired: Tally<bool>, bail: Option<Ceiling>, errors: seq<Ceiling>)

  const FRESH_STREAM := Stream("", 0, 0, [], [])

  const FRESH_METERS := Meters(Tally(0, 0, 0), Tally(false, false, false), None, [])

  /** NewChatPolicy's defaults for ceilings that are not set. */
  function LimitsFor(toolCalls: int, tickets: int, scheduledTasks: int): Tally<nat> {
    Tally(if toolCalls <= 0 then 50 else toolCalls, if tickets <= 0 then 10 else tickets,
          if scheduledTasks <= 0 then 3 else scheduledTasks)
  }

  function EmitDelta(s: Stream, message: MessageId, text: string, scrub: bool, sent: bool): Stream {
    s.(deltaSeq := s.deltaSeq + 1,
       deltas := if sent then s.deltas + [DeltaFrame(message, s.messageBlock, s.deltaSeq, text, scrub)] else s.deltas)
  }

  /** OnUser's frames, one per tool_result block that gets out. */
  function Results(message: MessageId, results: seq<(string, bool)>, lost: set<nat>): seq<ToolFrame> {
    if results == [] then []
    else
      var n := |results| - 1;
      Results(message, results[..n], lost) + if n in lost then [] else [ResultFrame(message, results[n].0, results[n].1)]
  }

  function NextStream(s: Stream, message: MessageId, e: StreamEvent): Stream {
    match e
    case MessageStart => s.(contentBuf := "", messageBlock := s.messageBlock + 1)
    case TextDelta(text, sent) => EmitDelta(s.(contentBuf := s.contentBuf + text), message, text, false, sent)
    case ToolUseStart(id, name, _, _, sent, useSent) =>
      EmitDelta(s, message, "", true, sent)
        .(contentBuf := "", tools := if id == "" || !useSent then s.tools else s.tools + [UseFrame(message, id, name)])
    case UserMessage(results, lost) => s.(tools := s.tools + Results(message, results, lost))
    case _ => s
  }

  /** A ceiling fires once, when its count first exceeds its limit. */
  function Fire(m: Meters, limits: Tally<nat>, kind: Ceiling): Meters {
    if m.counts.At(kind) <= limits.At(kind) || m.fired.At(kind) then m
    else m.(fired := m.fired.Put(kind, true), errors := m.errors + [kind],
            bail := if kind == ToolCallCeiling || m.bail.None? then Some(kind) else m.bail)
  }

  function Charge(m: Meters, limits: Tally<nat>, kind: Ceiling): Meters {
    Fire(m.(counts := m.counts.Put(kind, m.counts.At(kind) + 1)), limits, kind)
  }

  function NextMeters(m: Meters, limits: Tally<nat>, e: StreamEvent): Meters {
    if !e.ToolUseStart? then m
    else
      var called := Charge(m, limits, ToolCallCeiling);
      var ticketed := if e.ticket then Charge(called, limits, TicketCeiling) else called;
      if e.scheduled then Charge(ticketed, limits, ScheduledTaskCeiling) else ticketed
  }

  function StreamAfter(message: MessageId, events: seq<StreamEvent>): Stream
    decreases |events|
  {
    if events == [] then FRESH_STREAM
    else NextStream(StreamAfter(message, events[..|events| - 1]), message, events[|events| - 1])
  }

  function MetersAfter(limits: Tally<nat>, events: seq<StreamEvent>): Meters
    decreases |events|
  {
    if events == [] then FRESH_METERS
    else NextMeters(MetersAfter(limits, events[..|events| - 1]), limits, events[|events| - 1])
  }

  // ---------------------------------------------------------------- the policy, as the code runs it

  class ChatPolicy {
    const message: MessageId
    const toolCallCeiling: nat
    const maxTicketsPerTurn: nat
    const maxScheduledTasksPerTurn: nat
    var contentBuf: string
    var messageBlock: nat
    var deltaSeq: nat
    var toolCallCount: nat
    var ceilingFired: bool
    var ticketCreationCount: nat
    var ticketCreationCeilingFired: bool
    var scheduledTaskCreationCount: nat
    var scheduledTaskCeilingFired: bool
    var bailReason: Option<Ceiling>
    // The notify channels this turn writes to.
    var deltas: seq<DeltaFrame>
    var tools: seq<ToolFrame>
    var errors: seq<Ceiling>
    // What the terminal commit stores.
    var rawEvents: seq<StreamEvent>

    ghost function Limits(): Tally<nat> {
      Tally(toolCallCeiling, maxTicketsPerTurn, maxScheduledTasksPerTurn)
    }

    ghost function StreamPart(): Stream
      reads this
    {
      Stream(contentBuf, messageBlock, deltaSeq, deltas, tools)
    }

    ghost function MeterPart(): Meters
      reads this
    {
      Meters(Tally(toolCallCount, ticketCreationCount, scheduledTaskCreationCount),
             Tally(ceilingFired, ticketCreationCeilingFired, scheduledTaskCeilingFired), bailReason, errors)
    }

    constructor (message: MessageId, toolCalls: int, tickets: int, scheduledTasks: int)
      ensures this.message == message && Limits() == LimitsFor(toolCalls, tickets, scheduledTasks)
      ensures StreamPart() == FRESH_STREAM && MeterPart() == FRESH_METERS && rawEvents == []
    {
      this.message := message;
      toolCallCeiling := if toolCalls <= 0 then 50 else toolCalls;
      maxTicketsPerTurn := if tickets <= 0 then 10 else tickets;
      maxScheduledTasksPerTurn := if scheduledTasks <= 0 then 3 else scheduledTasks;
      contentBuf, messageBlock, deltaSeq := "", 0, 0;
      toolCallCount, ceilingFired := 0, false;
      ticketCreationCount, ticketCreationCeilingFired := 0, false;
      scheduledTaskCreationCount, scheduledTaskCeilingFired := 0, false;
      bailReason := None;
      deltas, tools, errors, rawEvents := [], [], [], [];
    }

    method MaybeFireToolCallCeiling()
      modifies this`ceilingFired, this`bailReason, this`errors
      ensures MeterPart() == Fire(old(MeterPart()), Limits(), ToolCallCeiling)
    {
      if toolCallCount <= toolCallCeiling || ceilingFired {
        return;
      }
      ceilingFired := true;
      bailReason := Some(ToolCallCeiling);
      errors := errors + [ToolCallCeiling];
    }

    method MaybeFireTicketCreationCeiling()
      modifies this`ticketCreationCeilingFired, this`bailReason, this`errors
      ensures MeterPart() == Fire(old(MeterPart()), Limits(), TicketCeiling)
    {
      if ticketCreationCount <= maxTicketsPerTurn || ticketCreationCeilingFired {
        return;
      }
      ticketCreationCeilingFired := true;
      if bailReason.None? {
        bailReason := Some(TicketCeiling);
      }
      errors := errors + [TicketCeiling];
    }

    method MaybeFireScheduledTaskCeiling()
      modifies this`scheduledTaskCeilingFired, this`bailReason, this`errors
      ensures MeterPart() == Fire(old(MeterPart()), Limits(), ScheduledTaskCeiling)
    {
      if scheduledTaskCreationCount <= maxScheduledTasksPerTurn || scheduledTaskCeilingFired {
        return;
      }
      scheduledTaskCeilingFired := true;
      if bailReason.None? {
        bailReason := Some(ScheduledTaskCeiling);
      }
      errors := errors + [ScheduledTaskCeiling];
    }

    /** The scrub directive, the dropped preamble and the live chip's frame. */
    method EmitScrubAndUse(e: StreamEvent)
      requires e.ToolUseStart?
      modifies this`contentBuf, this`deltaSeq, this`deltas, this`tools
      ensures StreamPart() == NextStream(old(StreamPart()), message, e)
    {
      var seqNo := deltaSeq;
      deltaSeq := deltaSeq + 1;
      if e.scrubSent {
        deltas := deltas + [DeltaFrame(message, messageBlock, seqNo, "", true)];
      }
      contentBuf := "";
      if e.id != "" && e.useSent {
        tools := tools + [UseFrame(message, e.id, e.name)];
      }
    }

    method HandleToolUseBlockStart(e: StreamEvent)
      requires e.ToolUseStart?
      modifies this
      ensures rawEvents == old(rawEvents)
      ensures StreamPart() == NextStream(old(StreamPart()), message, e)
      ensures MeterPart() == NextMeters(old(MeterPart()), Limits(), e)
    {
      hide Fire, NextStream;
      EmitScrubAndUse(e);
      toolCallCount := toolCallCount + 1;
      MaybeFireToolCallCeiling();
      ghost var called := MeterPart();
      assert called == Charge(old(MeterPart()), Limits(), ToolCallCeiling);
      if e.ticket {
        ticketCreationCount := ticketCreationCount + 1;
        MaybeFireTicketCreationCeiling();
        assert MeterPart() == Charge(called, Limits(), TicketCeiling);
      }
      ghost var ticketed := MeterPart();
      if e.scheduled {
        scheduledTaskCreationCount := scheduledTaskCreationCount + 1;
        MaybeFireScheduledTaskCeiling();
        assert MeterPart() == Charge(ticketed, Limits(), ScheduledTaskCeiling);
      }
      hide Charge;
    }

    /** The chat half of OnAssistant: the event is only kept. */
    method OnAssistant(uses: seq<(string, string)>)
      modifies this`rawEvents
      ensures rawEvents == old(rawEvents) + [AssistantMessage(uses)]
    {
      rawEvents := rawEvents + [AssistantMessage(uses)];
    }

    method OnUser(results: seq<(string, bool)>, lost: set<nat>)
      modifies this`tools, this`rawEvents
      ensures StreamPart() == NextStream(old(StreamPart()), message, UserMessage(results, lost))
      ensures rawEvents == old(rawEvents) + [UserMessage(results, lost)]
    {
      assert results[..0] == [] && tools + [] == tools;
      for i := 0 to |results|
        invariant tools == old(tools) + Results(message, results[..i], lost) && rawEvents == old(rawEvents)
      {
        assert results[..i + 1][..i] == results[..i];
        if i !in lost {
          tools := tools + [ResultFrame(message, results[i].0, results[i].1)];
        }
      }
      assert results[..|results|] == results;
      rawEvents := rawEvents + [UserMessage(results, lost)];
    }

    method OnStreamEvent(e: StreamEvent)
      requires !e.AssistantMessage? && !e.UserMessage?
      modifies this
      ensures rawEvents == old(rawEvents) + [e]
      ensures StreamPart() == NextStream(old(StreamPart()), message, e)
      ensures MeterPart() == NextMeters(old(MeterPart()), Limits(), e)
    {
      rawEvents := rawEvents + [e];
      match e {
        case MessageStart =>
          contentBuf := "";
          messageBlock := messageBlock + 1;
        case TextDelta(text, sent) =>
          contentBuf := contentBuf + text;
          var seqNo := deltaSeq;
          deltaSeq := deltaSeq + 1;
          if sent {
            deltas := deltas + [DeltaFrame(message, messageBlock, seqNo, text, false)];
          }
        case ToolUseStart(_, _, _, _, _, _) => HandleToolUseBlockStart(e);
        case Observed =>
      }
    }
  }

  /** A turn's limits are those asked for; one that is not positive becomes the default. */
  lemma LimitsAre(toolCalls: int, tickets: int, scheduledTasks: int)
    ensures var limits := LimitsFor(toolCalls, tickets, scheduledTasks);
            && (toolCalls > 0 ==> limits.toolCalls == toolCalls) && (toolCalls <= 0 ==> limits.toolCalls == 50)
            && (tickets > 0 ==> limits.tickets == tickets) && (tickets <= 0 ==> limits.tickets == 10)
            && (scheduledTasks > 0 ==> limits.scheduledTasks == scheduledTasks)
            && (scheduledTasks <= 0 ==> limits.scheduledTasks == 3)
  {
  }

  // ---------------------------------------------------------------- the ceilings

  predicate Creates(e: StreamEvent, kind: Ceiling) {
    e.ToolUseStart? && (kind == TicketCeiling ==> e.ticket) && (kind == ScheduledTaskCeiling ==> e.scheduled)
  }

  function Uses(events: seq<StreamEvent>, kind: Ceiling): nat
    decreases |events|
  {
    if events == [] then 0
    else Uses(events[..|events| - 1], kind) + if Creates(events[|events| - 1], kind) then 1 else 0
  }

  /** The error a turn that is later told to bail will carry, given the ceilings that fired, in order. */
  function BailFor(errors: seq<Ceiling>): Option<Ceiling> {
    if ToolCallCeiling in errors then Some(ToolCallCeiling)
    else if errors == [] then None
    else Some(errors[0])
  }

  predicate MeterSound(m: Meters, limits: Tally<nat>, kind: Ceiling) {
    && multiset(m.errors)[kind] == (if m.counts.At(kind) > limits.At(kind) then 1 else 0)
    && (m.fired.At(kind) <==> m.counts.At(kind) > limits.At(kind))
  }

  lemma ChargeSound(m: Meters, limits: Tally<nat>, kind: Ceiling, other: Ceiling)
    requires m.bail == BailFor(m.errors) && MeterSound(m, limits, other) && MeterSound(m, limits, kind)
    ensures var m' := Charge(m, limits, kind);
            && m'.bail == BailFor(m'.errors) && MeterSound(m', limits, other)
            && m'.counts.At(other) == m.counts.At(other) + if kind == other then 1 else 0
  {
    PutAt(m.counts, kind, other, m.counts.At(kind) + 1);
    PutAt(m.counts, kind, kind, m.counts.At(kind) + 1);
    PutAt(m.fired, kind, other, true);
    BailAppend(m.errors, kind);
    hide Tally.At, Tally.Put, BailFor;
    assert multiset(m.errors + [kind]) == multiset(m.errors) + multiset{kind};
  }

  lemma PutAt<T>(t: Tally<T>, kind: Ceiling, other: Ceiling, value: T)
    ensures t.Put(kind, value).At(other) == if other == kind then value else t.At(other)
  {
  }

  lemma BailAppend(errors: seq<Ceiling>, kind: Ceiling)
    ensures BailFor(errors + [kind]) ==
            if kind == ToolCallCeiling || BailFor(errors).None? then Some(kind) else BailFor(errors)
  {
    assert forall k :: k in errors + [kind] <==> k in errors || k == kind;
  }

  lemma NextSound(m: Meters, limits: Tally<nat>, e: StreamEvent, kind: Ceiling)
    requires m.bail == BailFor(m.errors) && forall k :: MeterSound(m, limits, k)
    ensures var m' := NextMeters(m, limits, e);
            && m'.bail == BailFor(m'.errors) && MeterSound(m', limits, kind)
            && m'.counts.At(kind) == m.counts.At(kind) + if Creates(e, kind) then 1 else 0
  {
    hide MeterSound, BailFor, Charge;
    if e.ToolUseStart? {
      var called := Charge(m, limits, ToolCallCeiling);
      ChargeSound(m, limits, ToolCallCeiling, TicketCeiling);
      ChargeSound(m, limits, ToolCallCeiling, ScheduledTaskCeiling);
      ChargeSound(m, limits, ToolCallCeiling, kind);
      ChargeSound(called, limits, TicketCeiling, ScheduledTaskCeiling);
      ChargeSound(called, limits, TicketCeiling, kind);
      var ticketed := if e.ticket then Charge(called, limits, TicketCeiling) else called;
      ChargeSound(ticketed, limits, ScheduledTaskCeiling, kind);
    }
  }

  lemma {:induction false} RunSound(limits: Tally<nat>, events: seq<StreamEvent>, kind: Ceiling)
    ensures var m := MetersAfter(limits, events);
            m.bail == BailFor(m.errors) && MeterSound(m, limits, kind) && m.counts.At(kind) == Uses(events, kind)
    decreases |events|
  {
    if events != [] {
      var front := events[..|events| - 1];
      RunSound(limits, front, kind);
      forall k
        ensures MeterSound(MetersAfter(limits, front), limits, k)
      {
        RunSound(limits, front, k);
      }
      NextSound(MetersAfter(limits, front), limits, events[|events| - 1], kind);
      hide MeterSound, BailFor, NextMeters;
    }
  }

  /**
   Over a whole turn each ceiling's error goes out exactly once if its uses exceed its limit and never
   otherwise; and the reason a bail would carry is the tool-call ceiling's whenever that fired.
   */
  lemma {:induction false} EachCeilingOnce(limits: Tally<nat>, events: seq<StreamEvent>, kind: Ceiling)
    ensures var m := MetersAfter(limits, events);
            && multiset(m.errors)[kind] == (if Uses(events, kind) > limits.At(kind) then 1 else 0)
            && m.bail == BailFor(m.errors)
  {
    RunSound(limits, events, kind);
  }

  /**
   The comments promise that the first ceiling to fire names the bail reason. It does exactly unless
   the tool-call ceiling fires after another one: that assignment is unconditional.
   */
  lemma {:induction false} FirstSetWinsIff(limits: Tally<nat>, events: seq<StreamEvent>)
    requires MetersAfter(limits, events).errors != []
    ensures var m := MetersAfter(limits, events);
            m.bail == Some(m.errors[0]) <==> ToolCallCeiling !in m.errors[1..]
  {
    RunSound(limits, events, ToolCallCeiling);
    var errors := MetersAfter(limits, events).errors;
    hide MetersAfter;
    assert errors == [errors[0]] + errors[1..];
    assert ToolCallCeiling in errors[1..] ==> multiset(errors[1..])[ToolCallCeiling] >= 1;
  }

  // ---------------------------------------------------------------- a turn that breaks it

  function Times(e: StreamEvent, n: nat): seq<StreamEvent> {
    if n == 0 then [] else Times(e, n - 1) + [e]
  }

  lemma {:induction false} UsesTimes(events: seq<StreamEvent>, e: StreamEvent, n: nat, kind: Ceiling)
    ensures Uses(events + Times(e, n), kind) == Uses(events, kind) + if Creates(e, kind) then n else 0
    decreases n
  {
    if n == 0 {
      assert events + Times(e, n) == events;
    } else {
      UsesTimes(events, e, n - 1, kind);
      assert (events + Times(e, n))[..|events + Times(e, n)| - 1] == events + Times(e, n - 1);
    }
  }

  lemma {:induction false} ErrorsOnlyGrow(limits: Tally<nat>, events: seq<StreamEvent>, more: seq<StreamEvent>)
    ensures MetersAfter(limits, events).errors <= MetersAfter(limits, events + more).errors
    decreases |more|
  {
    if more == [] {
      assert events + more == events;
    } else {
      ErrorsOnlyGrow(limits, events, more[..|more| - 1]);
      assert (events + more)[..|events + more| - 1] == events + more[..|more| - 1];
    }
  }

  /**
   With the default limits: eleven tickets fire the ticket ceiling first, forty more calls the tool-call
   ceiling after it; the bail reason is the later one's.
   */
  lemma TicketsThenCalls(ticket: StreamEvent, call: StreamEvent)
    requires ticket.ToolUseStart? && ticket.ticket && !ticket.scheduled
    requires call.ToolUseStart? && !call.ticket && !call.scheduled
    ensures var m := MetersAfter(LimitsFor(0, 0, 0), Times(ticket, 11) + Times(call, 40));
            m.errors != [] && m.errors[0] == TicketCeiling && m.bail == Some(ToolCallCeiling)
  {
    hide MetersAfter, Uses, Times, BailFor;
    var limits, first := LimitsFor(0, 0, 0), Times(ticket, 11);
    var m, n := MetersAfter(limits, first), MetersAfter(limits, first + Times(call, 40));
    NoUses();
    forall kind
      ensures multiset(m.errors)[kind] == if kind == TicketCeiling then 1 else 0
    {
      UsesTimes([], ticket, 11, kind);
      assert [] + first == first;
      EachCeilingOnce(limits, first, kind);
    }
    assert m.errors != [] && m.errors[0] == TicketCeiling by {
      assert TicketCeiling in multiset(m.errors);
      assert m.errors[0] in multiset(m.errors);
    }
    ErrorsOnlyGrow(limits, first, Times(call, 40));
    UsesTimes([], ticket, 11, ToolCallCeiling);
    UsesTimes(first, call, 40, ToolCallCeiling);
    assert [] + first == first;
    EachCeilingOnce(limits, first + Times(call, 40), ToolCallCeiling);
    assert ToolCallCeiling in multiset(n.errors);
    BailsForToolCalls(n.errors);
  }

  lemma NoUses()
    ensures forall kind :: Uses([], kind) == 0
  {
  }

  lemma BailsForToolCalls(errors: seq<Ceiling>)
    requires ToolCallCeiling in errors
    ensures BailFor(errors) == Some(ToolCallCeiling)
  {
  }
}
