/**
 The dashboard's side of the live answer (dashboard/lib/sse/chatStream.ts) against the supervisor's:
 what the visible buffer shows, frame by frame, under re-delivery, and where that rests on order.
 */
module ChatStream {
  import opened ChatPolicy

  datatype Key = Key(message: MessageId, block: nat, seqNo: nat)

  datatype Store = Store(seenSeqs: set<Key>, blocks: map<MessageId, nat>, partialDeltas: map<MessageId, string>)

  function KeyOf(f: DeltaFrame): Key {
    Key(f.message, f.block, f.seqNo)
  }

  function Visible(s: Store, message: MessageId): string {
    if message in s.partialDeltas then s.partialDeltas[message] else ""
  }

  function Deliver(s: Store, f: DeltaFrame): Store {
    if KeyOf(f) in s.seenSeqs then s
    else
      var s' := s.(seenSeqs := s.seenSeqs + {KeyOf(f)});
      if f.scrub then
        s'.(blocks := s.blocks[f.message := f.block], partialDeltas := s.partialDeltas[f.message := ""])
      else if f.message !in s.blocks || f.block > s.blocks[f.message] then
        s'.(blocks := s.blocks[f.message := f.block], partialDeltas := s.partialDeltas[f.message := f.text])
      else if f.block < s.blocks[f.message] then s'
      else s'.(partialDeltas := s.partialDeltas[f.message := Visible(s, f.message) + f.text])
  }

  class ChatStreamStore {
    var seenSeqs: set<Key>
    var blocks: map<MessageId, nat>
    var partialDeltas: map<MessageId, string>

    ghost function Abs(): Store
      reads this
    {
      Store(seenSeqs, blocks, partialDeltas)
    }

    constructor ()
      ensures Abs() == Store({}, map[], map[])
    {
      seenSeqs, blocks, partialDeltas := {}, map[], map[];
    }

    /** ChatStreamMachine.delta on a payload that parsed. */
    method Delta(f: DeltaFrame)
      modifies this
      ensures Abs() == Deliver(old(Abs()), f)
    {
      var key := Key(f.message, f.block, f.seqNo);
      if key in seenSeqs {
        return;
      }
      seenSeqs := seenSeqs + {key};
      if f.scrub {
        blocks := blocks[f.message := f.block];
        partialDeltas := partialDeltas[f.message := ""];
        return;
      }
      var lastBlock: int := if f.message in blocks then blocks[f.message] else -1;
      if f.block > lastBlock {
        blocks := blocks[f.message := f.block];
        partialDeltas := partialDeltas[f.message := f.text];
        return;
      }
      if f.block < lastBlock {
        return;
      }
      var prev := if f.message in partialDeltas then partialDeltas[f.message] else "";
      partialDeltas := partialDeltas[f.message := prev + f.text];
    }
  }

  // ---------------------------------------------------------------- the reference: frames in order, once each

  function LastBlock(frames: seq<DeltaFrame>): int {
    if frames == [] then -1 else frames[|frames| - 1].block
  }

  /** The text since the last scrub or change of block. */
  function Shown(frames: seq<DeltaFrame>): string
    decreases |frames|
  {
    if frames == [] then ""
    else
      var front, f := frames[..|frames| - 1], frames[|frames| - 1];
      if f.scrub then ""
      else if f.block > LastBlock(front) then f.text
      else Shown(front) + f.text
  }

  /** What the supervisor guarantees of the frames of one message. */
  ghost predicate Numbered(frames: seq<DeltaFrame>, message: MessageId) {
    && (forall i :: 0 <= i < |frames| ==> frames[i].message == message)
    && (forall i, j :: 0 <= i < j < |frames| ==> frames[i].seqNo < frames[j].seqNo && frames[i].block <= frames[j].block)
  }

  /** One arrival at the dashboard: the message's next frame, one it already got, or a frame of another message. */
  datatype Arrival = NextFrame | Again(k: nat) | Other(f: DeltaFrame)

  predicate Arrives(frames: seq<DeltaFrame>, message: MessageId, d: nat, a: Arrival) {
    match a
    case NextFrame => d < |frames|
    case Again(k) => k < d
    case Other(f) => f.message != message
  }

  function FrameOf(frames: seq<DeltaFrame>, d: nat, a: Arrival): DeltaFrame
    requires d <= |frames| && (a.NextFrame? ==> d < |frames|) && (a.Again? ==> a.k < d)
  {
    match a
    case NextFrame => frames[d]
    case Again(k) => frames[k]
    case Other(f) => f
  }

  /** The store and the number of frames of the message received, after these arrivals. */
  function Receive(s: Store, frames: seq<DeltaFrame>, message: MessageId, arrivals: seq<Arrival>): (Store, nat)
    ensures Receive(s, frames, message, arrivals).1 <= |frames|
    decreases |arrivals|
  {
    if arrivals == [] then (s, 0)
    else
      var (t, d) := Receive(s, frames, message, arrivals[..|arrivals| - 1]);
      var a := arrivals[|arrivals| - 1];
      if !Arrives(frames, message, d, a) then (t, d)
      else (Deliver(t, FrameOf(frames, d, a)), if a.NextFrame? then d + 1 else d)
  }

  function KeysOf(frames: seq<DeltaFrame>): set<Key> {
    set f | f in frames :: KeyOf(f)
  }

  /** The store's part about one message agrees with its frames received in order. */
  ghost predicate InStep(s: Store, frames: seq<DeltaFrame>, message: MessageId) {
    && (forall k: Key :: k.message == message ==> (k in s.seenSeqs <==> k in KeysOf(frames)))
    && (frames == [] <==> message !in s.blocks)
    && (frames != [] ==> s.blocks[message] == LastBlock(frames))
    && Visible(s, message) == Shown(frames)
  }

  lemma NewFrameKey(frames: seq<DeltaFrame>, message: MessageId, d: nat)
    requires Numbered(frames, message) && d < |frames|
    ensures KeyOf(frames[d]) !in KeysOf(frames[..d]) && KeysOf(frames[..d + 1]) == KeysOf(frames[..d]) + {KeyOf(frames[d])}
    ensures LastBlock(frames[..d]) <= frames[d].block
  {
    assert frames[..d + 1] == frames[..d] + [frames[d]];
    forall i | 0 <= i < d
      ensures KeyOf(frames[..d][i]) != KeyOf(frames[d])
    {
      assert frames[i].seqNo < frames[d].seqNo;
    }
  }

  lemma NewFrame(s: Store, frames: seq<DeltaFrame>, message: MessageId, d: nat)
    requires Numbered(frames, message) && d < |frames| && InStep(s, frames[..d], message)
    ensures InStep(Deliver(s, frames[d]), frames[..d + 1], message)
  {
    NewFrameKey(frames, message, d);
    ghost var front, all, f := frames[..d], frames[..d + 1], frames[d];
    assert all[..|all| - 1] == front && all[|all| - 1] == f && f.message == message;
    hide Numbered, KeysOf;
  }

  /** A frame already received, or one of another message, changes nothing about this message. */
  lemma OldOrOther(s: Store, frames: seq<DeltaFrame>, message: MessageId, f: DeltaFrame)
    requires InStep(s, frames, message) && (f.message == message ==> KeyOf(f) in KeysOf(frames))
    ensures InStep(Deliver(s, f), frames, message)
  {
  }

  /**
   In order and with any re-deliveries of earlier frames, mixed with any frames of other messages, the
   visible buffer is the text of the frames received, since the last scrub or block change.
   */
  lemma {:induction false} VisibleIsShown(s: Store, frames: seq<DeltaFrame>, message: MessageId, arrivals: seq<Arrival>)
    requires Numbered(frames, message) && InStep(s, [], message)
    ensures var (t, d) := Receive(s, frames, message, arrivals);
            InStep(t, frames[..d], message) && Visible(t, message) == Shown(frames[..d])
    decreases |arrivals|
  {
    if arrivals != [] {
      VisibleIsShown(s, frames, message, arrivals[..|arrivals| - 1]);
      var (t, d) := Receive(s, frames, message, arrivals[..|arrivals| - 1]);
      var a := arrivals[|arrivals| - 1];
      if Arrives(frames, message, d, a) {
        match a {
          case NextFrame => NewFrame(t, frames, message, d);
          case Again(k) =>
            assert frames[k] in frames[..d] && frames[k].message == message;
            OldOrOther(t, frames[..d], message, frames[k]);
          case Other(f) => OldOrOther(t, frames[..d], message, f);
        }
      }
    } else {
      assert frames[..0] == [];
    }
  }

  // ---------------------------------------------------------------- against the supervisor's buffer

  predicate Subsequence(a: string, b: string)
    decreases |b|
  {
    || a == []
    || (b != [] && (Subsequence(a, b[..|b| - 1])
                    || (a[|a| - 1] == b[|b| - 1] && Subsequence(a[..|a| - 1], b[..|b| - 1]))))
  }

  lemma {:induction false} SubsequenceExtends(a: string, b: string, t: string)
    requires Subsequence(a, b)
    ensures Subsequence(a + t, b + t) && Subsequence(a, b + t)
    decreases |t|
  {
    if t == [] {
      assert a + t == a && b + t == b;
    } else {
      var front := t[..|t| - 1];
      SubsequenceExtends(a, b, front);
      assert (a + t)[..|a + t| - 1] == a + front && (b + t)[..|b + t| - 1] == b + front;
    }
  }

  lemma {:induction false} SubsequenceLength(a: string, b: string)
    requires Subsequence(a, b)
    ensures |a| <= |b| && (|a| == |b| ==> a == b)
    decreases |b|
  {
    if a != [] {
      if Subsequence(a, b[..|b| - 1]) {
        SubsequenceLength(a, b[..|b| - 1]);
      } else {
        SubsequenceLength(a[..|a| - 1], b[..|b| - 1]);
        assert a == a[..|a| - 1] + [a[|a| - 1]] && b == b[..|b| - 1] + [b[|b| - 1]];
      }
    }
  }

  /**
   What the dashboard should show: `text` is the supervisor's buffer as of the block on screen, `kept` the
   part of it whose frames got out, `lost` how much did not; `front` is what lost scrubs left standing.
   */
  datatype Owed = Owed(front: string, text: string, kept: string, lost: nat)

  /** `shows`: the current block has emitted a frame; `current` is about that block, `owed` about the one shown. */
  datatype Mirror = Mirror(shows: bool, current: Owed, owed: Owed)

  const BLANK := Owed("", "", "", 0)

  function Follow(m: Mirror, e: StreamEvent): Mirror {
    match e
    case MessageStart => Mirror(false, BLANK, m.owed)
    case TextDelta(text, sent) =>
      var c := m.current;
      var current := if sent then Owed(c.front, c.text + text, c.kept + text, c.lost)
                     else Owed(c.front, c.text + text, c.kept, c.lost + |text|);
      Mirror(m.shows || sent, current, if m.shows || sent then current else m.owed)
    case ToolUseStart(_, _, _, _, sent, _) =>
      var current := if sent then BLANK else Owed(m.current.front + m.current.kept, "", "", 0);
      Mirror(m.shows || sent, current, if m.shows || sent then current else m.owed)
    case _ => m
  }

  function MirrorAfter(events: seq<StreamEvent>): Mirror
    decreases |events|
  {
    if events == [] then Mirror(false, BLANK, BLANK)
    else Follow(MirrorAfter(events[..|events| - 1]), events[|events| - 1])
  }

  predicate Faithful(shown: string, owed: Owed) {
    && shown == owed.front + owed.kept
    && Subsequence(owed.kept, owed.text) && |owed.text| == |owed.kept| + owed.lost
  }

  ghost predicate Mirrored(s: Stream, message: MessageId, m: Mirror) {
    && Numbered(s.deltas, message)
    && (forall f :: f in s.deltas ==> f.seqNo < s.deltaSeq && f.block <= s.messageBlock)
    && (m.shows <==> LastBlock(s.deltas) == s.messageBlock)
    && m.current.text == s.contentBuf
    && (m.shows ==> m.owed == m.current)
    && (!m.shows ==> m.current.front == m.current.kept == "" && m.current.lost == |m.current.text|)
    && Faithful(Shown(s.deltas), m.owed)
  }

  lemma FramesNumbered(frames: seq<DeltaFrame>, message: MessageId, f: DeltaFrame)
    requires Numbered(frames, message) && f.message == message
    requires forall g :: g in frames ==> g.seqNo < f.seqNo && g.block <= f.block
    ensures Numbered(frames + [f], message) && LastBlock(frames) <= f.block
  {
    assert forall i :: 0 <= i < |frames| ==> frames[i] in frames;
  }

  lemma ShownSnoc(frames: seq<DeltaFrame>, f: DeltaFrame)
    ensures LastBlock(frames + [f]) == f.block
    ensures Shown(frames + [f]) == if f.scrub then "" else if f.block > LastBlock(frames) then f.text else Shown(frames) + f.text
  {
    assert (frames + [f])[..|frames|] == frames;
  }

  lemma EmittedNumbered(s: Stream, message: MessageId, text: string, scrub: bool)
    requires Numbered(s.deltas, message)
    requires forall f :: f in s.deltas ==> f.seqNo < s.deltaSeq && f.block <= s.messageBlock
    ensures var s' := EmitDelta(s, message, text, scrub, true);
            && Numbered(s'.deltas, message)
            && (forall f :: f in s'.deltas ==> f.seqNo < s'.deltaSeq && f.block <= s'.messageBlock)
            && LastBlock(s'.deltas) == s.messageBlock
            && (LastBlock(s.deltas) <= s.messageBlock)
            && Shown(s'.deltas) == if scrub then "" else if s.messageBlock > LastBlock(s.deltas) then text else Shown(s.deltas) + text
  {
    hide Numbered, LastBlock, Shown;
    var f := DeltaFrame(message, s.messageBlock, s.deltaSeq, text, scrub);
    FramesNumbered(s.deltas, message, f);
    ShownSnoc(s.deltas, f);
  }

  lemma TextMirrored(s: Stream, message: MessageId, m: Mirror, text: string, sent: bool)
    requires Mirrored(s, message, m)
    ensures Mirrored(NextStream(s, message, TextDelta(text, sent)), message, Follow(m, TextDelta(text, sent)))
  {
    hide Numbered, Shown, Subsequence, LastBlock, Faithful;
    EmittedNumbered(s.(contentBuf := s.contentBuf + text), message, text, false);
    if m.shows {
      FaithfulExtends(Shown(s.deltas), m.current, text);
    } else {
      FaithfulStarts(m.current, text);
    }
  }

  /** More text on a block that shows: kept if its frame got out, else lost. */
  lemma FaithfulExtends(shown: string, c: Owed, text: string)
    requires Faithful(shown, c)
    ensures Faithful(shown + text, Owed(c.front, c.text + text, c.kept + text, c.lost))
    ensures Faithful(shown, Owed(c.front, c.text + text, c.kept, c.lost + |text|))
  {
    SubsequenceExtends(c.kept, c.text, text);
    hide Subsequence;
    assert c.front + (c.kept + text) == c.front + c.kept + text;
  }

  /** The first text of a block to get out replaces what was shown. */
  lemma FaithfulStarts(c: Owed, text: string)
    requires c.front == c.kept == "" && c.lost == |c.text|
    ensures Faithful(text, Owed(c.front, c.text + text, c.kept + text, c.lost))
  {
    SubsequenceNil(c.text);
    SubsequenceExtends(c.kept, c.text, text);
    hide Subsequence;
    assert c.front + (c.kept + text) == text;
  }

  lemma SubsequenceNil(b: string)
    ensures Subsequence([], b)
  {
  }

  lemma ToolUseMirrored(s: Stream, message: MessageId, m: Mirror, e: StreamEvent)
    requires Mirrored(s, message, m) && e.ToolUseStart?
    ensures Mirrored(NextStream(s, message, e), message, Follow(m, e))
  {
    hide Numbered, Shown, Subsequence, LastBlock;
    EmittedNumbered(s, message, "", true);
    SubsequenceNil("");
    assert m.current.front + m.current.kept + "" == m.current.front + m.current.kept && "" + "" == "";
    if !e.scrubSent {
      hide EmitDelta;
      var s' := NextStream(s, message, e);
      assert s'.deltas == s.deltas && s'.contentBuf == "" && s'.messageBlock == s.messageBlock by { EmitUnsent(s, message); }
    }
  }

  lemma EmitUnsent(s: Stream, message: MessageId)
    ensures EmitDelta(s, message, "", true, false) == s.(deltaSeq := s.deltaSeq + 1)
  {
  }

  lemma StartMirrored(s: Stream, message: MessageId, m: Mirror)
    requires Mirrored(s, message, m)
    ensures Mirrored(NextStream(s, message, MessageStart), message, Follow(m, MessageStart))
  {
    assert s.deltas != [] ==> s.deltas[|s.deltas| - 1] in s.deltas;
    hide Numbered, Shown, Faithful;
  }

  lemma EventMirrored(s: Stream, message: MessageId, m: Mirror, e: StreamEvent)
    requires Mirrored(s, message, m)
    ensures Mirrored(NextStream(s, message, e), message, Follow(m, e))
  {
    match e {
      case TextDelta(text, sent) => TextMirrored(s, message, m, text, sent);
      case ToolUseStart(_, _, _, _, _, _) => ToolUseMirrored(s, message, m, e);
      case MessageStart => StartMirrored(s, message, m);
      case _ =>
    }
  }

  lemma {:induction false} TurnMirrored(message: MessageId, events: seq<StreamEvent>)
    ensures Mirrored(StreamAfter(message, events), message, MirrorAfter(events))
    decreases |events|
  {
    if events != [] {
      var front := events[..|events| - 1];
      TurnMirrored(message, front);
      EventMirrored(StreamAfter(message, front), message, MirrorAfter(front), events[|events| - 1]);
    }
  }

  /** Every prefix of the frames sent is all the frames sent by some prefix of the turn. */
  lemma {:induction false} FramesOfPrefix(message: MessageId, events: seq<StreamEvent>, d: nat) returns (j: nat)
    requires d <= |StreamAfter(message, events).deltas|
    ensures j <= |events| && StreamAfter(message, events[..j]).deltas == StreamAfter(message, events).deltas[..d]
    decreases |events|
  {
    if d == |StreamAfter(message, events).deltas| {
      j := |events|;
      assert events[..j] == events;
    } else {
      var front := events[..|events| - 1];
      j := FramesOfPrefix(message, front, d);
      assert front[..j] == events[..j];
    }
  }

  /**
   The live answer. Whatever the turn's events, whichever frames were lost, and however often and late
   the rest arrive (in order, with re-deliveries, among frames of other messages), the dashboard shows
   what lost scrubs left standing, then a subsequence of the supervisor's answer buffer as it stood at
   some moment of the turn, short by exactly the lost text. With every frame received that moment is now:
   the buffer itself if the current block has emitted a frame, else that of the last block that had.
   */
  lemma {:induction false} LiveAnswer(s: Store, message: MessageId, events: seq<StreamEvent>, arrivals: seq<Arrival>)
    requires InStep(s, [], message)
    ensures var frames := StreamAfter(message, events).deltas;
            var (t, d) := Receive(s, frames, message, arrivals);
            && (exists j :: 0 <= j <= |events| && StreamAfter(message, events[..j]).deltas == frames[..d]
                         && Faithful(Visible(t, message), MirrorAfter(events[..j]).owed))
            && (d == |frames| ==> Faithful(Visible(t, message), MirrorAfter(events).owed))
  {
    var frames := StreamAfter(message, events).deltas;
    TurnMirrored(message, events);
    VisibleIsShown(s, frames, message, arrivals);
    var (t, d) := Receive(s, frames, message, arrivals);
    hide Receive, StreamAfter, MirrorAfter, Faithful, Shown, InStep, Numbered;
    var j := FramesOfPrefix(message, events, d);
    TurnMirrored(message, events[..j]);
    assert frames[..|frames|] == frames;
  }

  /** `Faithful` at a glance: exactly when the screen shows the buffer, and which buffer that is. */
  lemma FaithfulMeans(message: MessageId, events: seq<StreamEvent>, shown: string)
    requires Faithful(shown, MirrorAfter(events).owed)
    ensures var owed := MirrorAfter(events).owed;
            && (owed.kept == owed.text <==> owed.lost == 0)
            && (owed.lost == 0 ==> (shown == owed.text <==> owed.front == ""))
            && (owed.front == "" ==> (shown == owed.text <==> owed.lost == 0))
            && (MirrorAfter(events).shows ==> owed.text == StreamAfter(message, events).contentBuf)
  {
    TurnMirrored(message, events);
    var owed := MirrorAfter(events).owed;
    SubsequenceLength(owed.kept, owed.text);
    assert |shown| == |owed.front| + |owed.kept|;
    assert "" + owed.kept == owed.kept;
  }

  /** Without a lost scrub in the block nothing stands in front: the screen is a subsequence of the buffer. */
  lemma {:induction false} NoScrubLost(events: seq<StreamEvent>)
    requires forall i :: 0 <= i < |events| && events[i].ToolUseStart? ==> events[i].scrubSent
    ensures MirrorAfter(events).current.front == MirrorAfter(events).owed.front == ""
    decreases |events|
  {
    if events != [] {
      NoScrubLost(events[..|events| - 1]);
    }
  }

  /**
   A lost scrub is the one loss that is not just missing text: what the dashboard showed before the
   tool call stays in front of the answer, for as long as the block lasts.
   */
  lemma LostScrubKeepsPreamble(message: MessageId, events: seq<StreamEvent>, use: StreamEvent, text: string)
    requires MirrorAfter(events).shows && use.ToolUseStart? && !use.scrubSent
    ensures var s, t := StreamAfter(message, events), StreamAfter(message, events + [use] + [TextDelta(text, true)]);
            && t.contentBuf == text && Shown(t.deltas) == Shown(s.deltas) + text
            && (Shown(t.deltas) == t.contentBuf <==> Shown(s.deltas) == "")
  {
    TurnMirrored(message, events);
    var s := StreamAfter(message, events);
    assert (events + [use])[..|events|] == events;
    var s1 := StreamAfter(message, events + [use]);
    assert s1 == NextStream(s, message, use);
    assert (events + [use] + [TextDelta(text, true)])[..|events| + 1] == events + [use];
    hide StreamAfter;
    EmittedNumbered(s1.(contentBuf := s1.contentBuf + text), message, text, false);
    assert "" + text == text;
    assert |Shown(s.deltas) + text| == |Shown(s.deltas)| + |text|;
  }

  // ---------------------------------------------------------------- out of order

  /** The highest block a message has been seen in goes back exactly when a stale scrub is taken. */
  lemma BlockGoesBackIff(s: Store, f: DeltaFrame)
    requires f.message in s.blocks
    ensures var s' := Deliver(s, f);
            && f.message in s'.blocks
            && (s'.blocks[f.message] < s.blocks[f.message] <==>
                f.scrub && f.block < s.blocks[f.message] && KeyOf(f) !in s.seenSeqs)
  {
  }

  /** Late text of an earlier block, and any frame seen before, changes nothing on any screen. */
  lemma LateTextDropped(s: Store, f: DeltaFrame, message: MessageId)
    requires KeyOf(f) in s.seenSeqs || (!f.scrub && f.message in s.blocks && f.block < s.blocks[f.message])
    ensures Visible(Deliver(s, f), message) == Visible(s, message) && Deliver(s, f).blocks == s.blocks
  {
  }

  /**
   Why order matters: a scrub of an earlier block that arrives late erases the current block's text,
   and the next frame of the current block starts over. The text in between is lost unless empty.
   */
  lemma LateScrubLosesText(s: Store, late: DeltaFrame, f: DeltaFrame)
    requires f.message == late.message && f.message in s.blocks && s.blocks[f.message] == f.block
    requires late.scrub && late.block < f.block && KeyOf(late) !in s.seenSeqs
    requires !f.scrub && KeyOf(f) !in s.seenSeqs
    ensures Visible(Deliver(Deliver(s, late), f), f.message) == f.text
    ensures Visible(Deliver(s, f), f.message) == Visible(s, f.message) + f.text
    ensures Visible(Deliver(Deliver(s, late), f), f.message) == Visible(Deliver(s, f), f.message)
       <==> Visible(s, f.message) == ""
  {
    assert |Visible(s, f.message) + f.text| == |Visible(s, f.message)| + |f.text|;
    assert "" + f.text == f.text;
  }
}
