/**
 Channel names: the printer of dashboard mutation events (dashboard/lib/audit/events.ts) and the
 parser and allowlist of the activity feed (dashboard/lib/sse/channels.ts).
 */
module Channels {
  import opened Common

  datatype MutationEvent =
    | TicketCreated
    | TicketMoved(fromColumn: string, toColumn: string)
    | TicketEdited
    | AgentEdited

  /** What a channel name is recognised as; payload fields play no part. */
  datatype Parsed =
    | LiteralKind(kind: string)
    | Transitioned(department: string, from: string, to: string)
    | VaultKind(kind: string)
    | Unknown

  const KNOWN_CHANNELS: seq<string> := [
    "work.ticket.created", "work.ticket.edited", "work.agent.edited", "work.chat.session_deleted",
    "work.chat.ticket.created", "work.chat.ticket.edited", "work.chat.ticket.transitioned",
    "work.chat.agent.paused", "work.chat.agent.resumed", "work.chat.agent.spawned",
    "work.chat.agent.config_edited", "work.chat.hiring.proposed",
    "work.chat.session_started", "work.chat.message_sent", "work.chat.session_ended"
  ]

  /** The kinds parseChannel handles. */
  const VAULT_KINDS: set<string> := {
    "secret_created", "secret_edited", "secret_deleted", "grant_added", "grant_removed",
    "rotation_initiated", "rotation_completed", "rotation_failed", "value_revealed"
  }

  const TRANSITION: string := "work.ticket.transitioned."

  const VAULT: string := "work.vault."

  // ---------------------------------------------------------------- the printer

  /** channelForEvent; None where it throws. */
  function ChannelForEvent(e: MutationEvent, deptSlug: string): Option<string> {
    match e
    case TicketCreated => Some("work.ticket.created")
    case TicketMoved(from, to) => if deptSlug == "" then None else Some(Printed(deptSlug, from, to))
    case TicketEdited => Some("work.ticket.edited")
    case AgentEdited => Some("work.agent.edited")
  }

  function Printed(department: string, from: string, to: string): string {
    TRANSITION + Joined(department, from, to)
  }

  function Joined(department: string, from: string, to: string): string {
    department + "." + from + "." + to
  }

  // ---------------------------------------------------------------- the parser

  predicate Lower(c: char) { 'a' <= c <= 'z' }

  predicate Digit(c: char) { '0' <= c <= '9' }

  /** [a-z0-9_-]+ */
  predicate IsDepartment(s: string) {
    s != "" && forall i :: 0 <= i < |s| ==> Lower(s[i]) || Digit(s[i]) || s[i] == '_' || s[i] == '-'
  }

  /** [a-z0-9_]+ */
  predicate IsColumn(s: string) {
    s != "" && forall i :: 0 <= i < |s| ==> Lower(s[i]) || Digit(s[i]) || s[i] == '_'
  }

  /** [a-z_]+ */
  predicate IsVaultWord(s: string) {
    s != "" && forall i :: 0 <= i < |s| ==> Lower(s[i]) || s[i] == '_'
  }

  function UpToDot(s: string): (n: nat)
    ensures n <= |s|
  {
    if s == "" || s[0] == '.' then 0 else 1 + UpToDot(s[1..])
  }

  /** The three groups of the transition pattern on what follows its prefix. */
  function Groups(rest: string): Option<(string, string, string)> {
    var i := UpToDot(rest);
    if i == |rest| then None
    else
      var tail := rest[i + 1..];
      var j := UpToDot(tail);
      if j == |tail| then None
      else if IsDepartment(rest[..i]) && IsColumn(tail[..j]) && IsColumn(tail[j + 1..])
      then Some((rest[..i], tail[..j], tail[j + 1..]))
      else None
  }

  function TransitionMatch(channel: string): Option<(string, string, string)> {
    if TRANSITION <= channel then Groups(channel[|TRANSITION|..]) else None
  }

  function VaultMatch(channel: string): Option<string> {
    if VAULT <= channel && IsVaultWord(channel[|VAULT|..]) then Some(channel[|VAULT|..]) else None
  }

  function ParseLiteralChannel(channel: string): Option<Parsed> {
    if channel in KNOWN_CHANNELS then Some(LiteralKind(channel[|"work."|..])) else None
  }

  function ParseChannel(channel: string): Parsed {
    var literal := ParseLiteralChannel(channel);
    if literal.Some? then literal.value
    else if TransitionMatch(channel).Some? then
      var (department, from, to) := TransitionMatch(channel).value;
      Transitioned(department, from, to)
    else if VaultMatch(channel).Some? then
      if VaultMatch(channel).value in VAULT_KINDS then VaultKind(VaultMatch(channel).value) else Unknown
    else Unknown
  }

  predicate IsKnownChannel(channel: string) {
    channel in KNOWN_CHANNELS || TransitionMatch(channel).Some? || VaultMatch(channel).Some?
  }

  // ---------------------------------------------------------------- round trip

  function Dots(s: string): nat {
    if s == "" then 0 else Dots(s[1..]) + if s[0] == '.' then 1 else 0
  }

  lemma {:induction false} DotsAppend(a: string, b: string)
    ensures Dots(a + b) == Dots(a) + Dots(b)
    decreases |a|
  {
    if a == "" {
      assert a + b == b;
    } else {
      assert (a + b)[1..] == a[1..] + b;
      DotsAppend(a[1..], b);
    }
  }

  lemma {:induction false} NoDots(s: string)
    ensures Dots(s) == 0 <==> '.' !in s
    decreases |s|
  {
    if s != "" {
      NoDots(s[1..]);
      assert s == [s[0]] + s[1..];
    }
  }

  lemma {:induction false} UpToDotOf(word: string, rest: string)
    requires '.' !in word && (rest == "" || rest[0] == '.')
    ensures UpToDot(word + rest) == |word|
    decreases |word|
  {
    if word == "" {
      assert word + rest == rest;
    } else {
      assert (word + rest)[1..] == word[1..] + rest;
      UpToDotOf(word[1..], rest);
    }
  }

  lemma {:induction false} UpToDotStops(s: string)
    ensures UpToDot(s) < |s| ==> s[UpToDot(s)] == '.'
  {
    if s != "" && s[0] != '.' {
      UpToDotStops(s[1..]);
    }
  }

  predicate Slugs(department: string, from: string, to: string) {
    IsDepartment(department) && IsColumn(from) && IsColumn(to)
  }

  lemma SlugsHaveNoDots(department: string, from: string, to: string)
    requires Slugs(department, from, to)
    ensures '.' !in department && '.' !in from && '.' !in to
  {
  }

  lemma DotsOfJoined(department: string, from: string, to: string)
    ensures Dots(Joined(department, from, to)) == Dots(department) + Dots(from) + Dots(to) + 2
  {
    DotsAppend(department + "." + from + ".", to);
    DotsAppend(department + "." + from, ".");
    DotsAppend(department + ".", from);
    DotsAppend(department, ".");
  }

  /** Splitting at the dots undoes joining dot-free words. */
  lemma GroupsOfWords(department: string, from: string, to: string)
    requires '.' !in department && '.' !in from && '.' !in to
    ensures Groups(Joined(department, from, to)) == if Slugs(department, from, to) then Some((department, from, to)) else None
  {
    hide IsDepartment, IsColumn, UpToDot;
    var rest := Joined(department, from, to);
    var tail := from + "." + to;
    assert rest == department + ("." + tail);
    UpToDotOf(department, "." + tail);
    assert rest[..|department|] == department && rest[|department| + 1..] == tail;
    assert tail == from + ("." + to);
    UpToDotOf(from, "." + to);
    assert tail[..|from|] == from && tail[|from| + 1..] == to;
  }

  /** Whatever the pattern matched is the joined groups. */
  lemma GroupsJoin(rest: string)
    requires Groups(rest).Some?
    ensures var (department, from, to) := Groups(rest).value;
            rest == Joined(department, from, to) && Slugs(department, from, to)
  {
    hide IsDepartment, IsColumn, UpToDot, Joined;
    var i := UpToDot(rest);
    var tail := rest[i + 1..];
    var j := UpToDot(tail);
    UpToDotStops(rest);
    UpToDotStops(tail);
    SplitAt(rest, i);
    SplitAt(tail, j);
    JoinedIs(rest[..i], tail[..j], tail[j + 1..]);
  }

  lemma SplitAt(s: string, i: nat)
    requires i < |s| && s[i] == '.'
    ensures s == s[..i] + ("." + s[i + 1..])
  {
  }

  lemma JoinedIs(department: string, from: string, to: string)
    ensures Joined(department, from, to) == department + ("." + (from + ("." + to)))
  {
    assert department + "." + from == department + ("." + from);
    assert department + "." + from + "." == department + ("." + (from + "."));
  }

  /** For any three strings at all: the pattern gives them back if they are slugs, and otherwise does not match. */
  lemma GroupsOfJoined(department: string, from: string, to: string)
    ensures Groups(Joined(department, from, to)) == if Slugs(department, from, to) then Some((department, from, to)) else None
  {
    NoDots(department);
    NoDots(from);
    NoDots(to);
    if '.' !in department && '.' !in from && '.' !in to {
      GroupsOfWords(department, from, to);
    } else {
      DotsOfJoined(department, from, to);
      if Slugs(department, from, to) {
        SlugsHaveNoDots(department, from, to);
      }
      if Groups(Joined(department, from, to)).Some? {
        GroupsJoin(Joined(department, from, to));
        var (d, f, t) := Groups(Joined(department, from, to)).value;
        SlugsHaveNoDots(d, f, t);
        DotsOfJoined(d, f, t);
        NoDots(d);
        NoDots(f);
        NoDots(t);
      }
    }
  }

  lemma LiteralsElsewhere(rest: string)
    ensures TRANSITION + rest !in KNOWN_CHANNELS && VAULT + rest !in KNOWN_CHANNELS
  {
    forall i | 0 <= i < |KNOWN_CHANNELS|
      ensures KNOWN_CHANNELS[i] != TRANSITION + rest && KNOWN_CHANNELS[i] != VAULT + rest
    {
      LiteralSeventh(i);
      assert (TRANSITION + rest)[12] == 't' && (TRANSITION + rest)[5] == 't';
      assert (VAULT + rest)[5] == 'v';
    }
  }

  /** No literal channel continues work.ticket. with a t, or work. with a v. */
  lemma LiteralSeventh(i: nat)
    requires i < |KNOWN_CHANNELS|
    ensures |KNOWN_CHANNELS[i]| > 12 && KNOWN_CHANNELS[i][5] != 'v'
    ensures KNOWN_CHANNELS[i][5] == 't' ==> KNOWN_CHANNELS[i][12] != 't'
  {
  }

  lemma ParsedTransition(rest: string)
    ensures ParseChannel(TRANSITION + rest) ==
            match Groups(rest) { case Some((d, f, t)) => Transitioned(d, f, t) case None => Unknown }
    ensures TransitionMatch(TRANSITION + rest) == Groups(rest) && VaultMatch(TRANSITION + rest).None?
  {
    var channel := TRANSITION + rest;
    LiteralsElsewhere(rest);
    assert channel[|TRANSITION|..] == rest && channel[..|TRANSITION|] == TRANSITION;
    assert channel[5] == 't' && VAULT[5] == 'v';
  }

  /**
   Round trip, for every ticket move: parsing the printed channel returns the same department, from and
   to exactly when all three are in their slug alphabets; otherwise the channel is unknown, never another move.
   */
  lemma MoveRoundTrip(department: string, from: string, to: string)
    ensures ParseChannel(Printed(department, from, to)) ==
            if Slugs(department, from, to) then Transitioned(department, from, to) else Unknown
  {
    GroupsOfJoined(department, from, to);
    ParsedTransition(Joined(department, from, to));
  }

  /** And a channel that parses to a move is the one that move prints. */
  lemma ParsedMovePrints(channel: string)
    requires ParseChannel(channel).Transitioned?
    ensures var Transitioned(department, from, to) := ParseChannel(channel);
            channel == Printed(department, from, to) && Slugs(department, from, to)
  {
    var rest := channel[|TRANSITION|..];
    assert channel == TRANSITION + rest;
    GroupsJoin(rest);
  }

  /** The printer is injective on events whose slugs are in the alphabets. */
  lemma PrinterInjective(a: MutationEvent, deptA: string, b: MutationEvent, deptB: string)
    requires a.TicketMoved? ==> Slugs(deptA, a.fromColumn, a.toColumn)
    requires b.TicketMoved? ==> Slugs(deptB, b.fromColumn, b.toColumn)
    ensures ChannelForEvent(a, deptA).Some?
    ensures ChannelForEvent(a, deptA) == ChannelForEvent(b, deptB) <==> a == b && (a.TicketMoved? ==> deptA == deptB)
  {
    if a.TicketMoved? {
      MoveRoundTrip(deptA, a.fromColumn, a.toColumn);
      LiteralsElsewhere(Joined(deptA, a.fromColumn, a.toColumn));
    }
    if b.TicketMoved? {
      MoveRoundTrip(deptB, b.fromColumn, b.toColumn);
      LiteralsElsewhere(Joined(deptB, b.fromColumn, b.toColumn));
    }
    assert KNOWN_CHANNELS[0] == "work.ticket.created" && KNOWN_CHANNELS[1] == "work.ticket.edited" && KNOWN_CHANNELS[2] == "work.agent.edited";
    hide ParseChannel, Printed;
  }

  /** A listed channel is recognised as what its name says after "work."; the printed events among them. */
  lemma LiteralKinds(kind: string)
    requires "work." + kind in KNOWN_CHANNELS
    ensures ParseChannel("work." + kind) == LiteralKind(kind)
  {
    assert ("work." + kind)[5..] == kind;
  }

  /** The kinds of ActivityEvent that come on a literal channel (dashboard/lib/sse/events.ts). */
  const LITERAL_KINDS: seq<string> := [
    "ticket.created", "ticket.edited", "agent.edited", "chat.session_deleted",
    "chat.ticket.created", "chat.ticket.edited", "chat.ticket.transitioned",
    "chat.agent.paused", "chat.agent.resumed", "chat.agent.spawned",
    "chat.agent.config_edited", "chat.hiring.proposed",
    "chat.session_started", "chat.message_sent", "chat.session_ended"
  ]

  predicate Fits(i: nat)
    requires i < |LITERAL_KINDS| == |KNOWN_CHANNELS|
  {
    KNOWN_CHANNELS[i] == "work." + LITERAL_KINDS[i]
  }

  lemma FirstFit()
    ensures Fits(0) && Fits(1) && Fits(2) && Fits(3)
  {
  }

  lemma TicketsFit()
    ensures Fits(4) && Fits(5) && Fits(6)
  {
  }

  lemma AgentsFit()
    ensures Fits(7) && Fits(8) && Fits(9) && Fits(10)
  {
  }

  lemma LastFit()
    ensures Fits(11) && Fits(12) && Fits(13) && Fits(14)
  {
  }

  lemma ChannelOfKind(i: nat)
    requires i < |LITERAL_KINDS|
    ensures |KNOWN_CHANNELS| == |LITERAL_KINDS| && KNOWN_CHANNELS[i] == "work." + LITERAL_KINDS[i]
  {
    FirstFit();
    TicketsFit();
    AgentsFit();
    LastFit();
    assert Fits(i) by { hide Fits; }
  }

  lemma KnownAt(i: nat)
    requires i < |LITERAL_KINDS|
    ensures "work." + LITERAL_KINDS[i] in KNOWN_CHANNELS
  {
    ChannelOfKind(i);
  }

  /** Every event kind on a literal channel has its channel, every listed channel its kind, and the parser knows it. */
  lemma KindsHaveChannels(kind: string)
    ensures "work." + kind in KNOWN_CHANNELS <==> kind in LITERAL_KINDS
    ensures kind in LITERAL_KINDS ==> ParseChannel("work." + kind) == LiteralKind(kind)
  {
    hide ParseChannel;
    var channel := "work." + kind;
    assert channel[5..] == kind;
    if channel in KNOWN_CHANNELS {
      var i :| 0 <= i < |KNOWN_CHANNELS| && KNOWN_CHANNELS[i] == channel;
      ChannelOfKind(i);
      assert ("work." + LITERAL_KINDS[i])[5..] == LITERAL_KINDS[i];
    }
    if kind in LITERAL_KINDS {
      var i :| 0 <= i < |LITERAL_KINDS| && LITERAL_KINDS[i] == kind;
      KnownAt(i);
      LiteralKinds(kind);
    }
  }

  /** The printed channels, word for word; a move without a department is refused. */
  lemma PrintedChannels(deptSlug: string, from: string, to: string)
    ensures ChannelForEvent(TicketCreated, deptSlug) == Some("work." + "ticket.created")
    ensures ChannelForEvent(TicketEdited, deptSlug) == Some("work." + "ticket.edited")
    ensures ChannelForEvent(AgentEdited, deptSlug) == Some("work." + "agent.edited")
    ensures ChannelForEvent(TicketMoved(from, to), deptSlug) ==
            if deptSlug == "" then None else Some("work.ticket.transitioned." + deptSlug + "." + from + "." + to)
  {
    assert "work." + "ticket.created" == "work.ticket.created";
    assert "work." + "ticket.edited" == "work.ticket.edited";
    assert "work." + "agent.edited" == "work.agent.edited";
    assert TRANSITION + (deptSlug + "." + from + "." + to) == TRANSITION + deptSlug + "." + from + "." + to;
  }

  const COLUMN_CHARS: string := "abcdefghijklmnopqrstuvwxyz0123456789_"

  /** The slug alphabets, spelled out. */
  lemma Alphabets(s: string)
    ensures IsColumn(s) <==> s != "" && forall i :: 0 <= i < |s| ==> s[i] in COLUMN_CHARS
    ensures IsDepartment(s) <==> s != "" && forall i :: 0 <= i < |s| ==> s[i] in COLUMN_CHARS + "-"
    ensures IsVaultWord(s) <==> s != "" && forall i :: 0 <= i < |s| ==> s[i] in COLUMN_CHARS && !Digit(s[i])
  {
    forall c: char
      ensures c in COLUMN_CHARS <==> Lower(c) || Digit(c) || c == '_'
    {
      CharListed(c);
    }
  }

  lemma CharListed(c: char)
    ensures c in COLUMN_CHARS <==> Lower(c) || Digit(c) || c == '_'
  {
    if Lower(c) {
      var i := c as int - 'a' as int;
      assert COLUMN_CHARS[i] == c;
    } else if Digit(c) {
      var i := c as int - '0' as int;
      assert COLUMN_CHARS[26 + i] == c;
    } else {
      assert COLUMN_CHARS[36] == '_';
    }
  }

  // ---------------------------------------------------------------- parser against allowlist

  /** A channel is parsed to something iff it is on the allowlist and not a vault channel of an unhandled kind. */
  lemma UnknownIff(channel: string)
    ensures ParseChannel(channel) == Unknown
       <==> !IsKnownChannel(channel)
            || (exists kind :: IsVaultWord(kind) && kind !in VAULT_KINDS && channel == "work.vault." + kind)
  {
    hide Groups, IsDepartment, IsColumn;
    if kind :| IsVaultWord(kind) && kind !in VAULT_KINDS && channel == "work.vault." + kind {
      LiteralsElsewhere(kind);
      assert channel[|VAULT|..] == kind && channel[5] == 'v' && TRANSITION[5] == 't';
    }
    if VaultMatch(channel).Some? && VaultMatch(channel).value !in VAULT_KINDS {
      assert channel == VAULT + VaultMatch(channel).value;
    }
  }

  /** The outcomes the catch-up query selects (dashboard/lib/queries/activityCatchup.ts). */
  const SELECTED_OUTCOMES: seq<string> := [
    "secret_created", "secret_edited", "secret_deleted",
    "grant_added", "grant_removed",
    "rotation_initiated", "rotation_completed", "rotation_failed",
    "value_revealed"
  ]

  /** The query selects exactly the outcomes the parser handles. */
  lemma SelectedIffHandled(outcome: string)
    ensures outcome in SELECTED_OUTCOMES <==> outcome in VAULT_KINDS
  {
  }

  /** So every vault row it selects becomes its own kind of event. */
  lemma SelectedVaultRowsKnown(outcome: string)
    requires outcome in SELECTED_OUTCOMES
    ensures IsVaultWord(outcome) && ParseChannel("work.vault." + outcome) == VaultKind(outcome)
  {
    var channel := VAULT + outcome;
    SelectedIffHandled(outcome);
    VaultKindsAreWords(outcome);
    hide IsVaultWord, Groups;
    LiteralsElsewhere(outcome);
    assert channel[|VAULT|..] == outcome && channel[5] == 'v' && TRANSITION[5] == 't';
  }

  lemma VaultKindsAreWords(outcome: string)
    requires outcome in VAULT_KINDS
    ensures IsVaultWord(outcome)
  {
  }
}
