/**
 Operator invites (dashboard/lib/auth/invites.ts): any number of redeemers claim, sign up with the
 external auth service, then undo or stamp, while invites are revoked and expire and redeemers crash.

 Each step is one database statement or one sign-up call together with its outcome.
 */
module Invites {
  import opened Common

  type InviteId = nat
  type RedeemerId = nat
  type UserId = nat
  type Instant = int

  /** `made` is not a column: an account has been created under the claim now in force. */
  datatype Invite = Invite(expiresAt: Instant, revoked: bool, redeemed: bool, stampedBy: Option<UserId>, made: bool)

  /** How signUpEmail ended: an account may exist although the caller sees an error. */
  datatype SignUp =
    | Created(user: UserId)
    | CreatedWithoutToken(user: UserId)
    | CreatedReplyLost(user: UserId)
    | Rejected

  datatype Phase = Claimed(invite: InviteId) | SignedUp(invite: InviteId, user: UserId) | Undoing(invite: InviteId)

  datatype Event =
    | ClaimTaken(invite: InviteId)
    | AccountMade(invite: InviteId)
    | ClaimUndone(invite: InviteId, made: bool)
    | Stamped(invite: InviteId)

  datatype State = State(invites: map<InviteId, Invite>, redeemers: map<RedeemerId, Phase>, log: seq<Event>)

  datatype Step =
    | Generate(invite: InviteId, expiresAt: Instant)
    | Revoke(invite: InviteId)
    | Claim(r: RedeemerId, invite: InviteId, now: Instant)
    | SignUpReturns(r: RedeemerId, result: SignUp)
    | Undo(r: RedeemerId, ok: bool)
    | Stamp(r: RedeemerId, ok: bool)
    | Crash(r: RedeemerId)

  const INIT: State := State(map[], map[], [])

  // ---------------------------------------------------------------- the steps

  /** The claim's WHERE clause. */
  predicate Redeemable(i: Invite, now: Instant) {
    !i.revoked && !i.redeemed && i.expiresAt > now
  }

  function WithInvite(s: State, id: InviteId, i: Invite): State {
    s.(invites := s.invites[id := i])
  }

  function Logged(s: State, e: Event): State {
    s.(log := s.log + [e])
  }

  function RevokeStep(s: State, id: InviteId): State {
    if id in s.invites && !s.invites[id].revoked && !s.invites[id].redeemed
    then WithInvite(s, id, s.invites[id].(revoked := true))
    else s
  }

  function ClaimStep(s: State, r: RedeemerId, id: InviteId, now: Instant): State {
    if r !in s.redeemers && id in s.invites && Redeemable(s.invites[id], now)
    then Logged(WithInvite(s, id, s.invites[id].(redeemed := true)), ClaimTaken(id))
           .(redeemers := s.redeemers[r := Claimed(id)])
    else s
  }

  function SignUpStep(s: State, r: RedeemerId, result: SignUp): State {
    if r in s.redeemers && s.redeemers[r].Claimed? && s.redeemers[r].invite in s.invites then
      var id := s.redeemers[r].invite;
      var next := s.(redeemers := s.redeemers[r := if result.Created? then SignedUp(id, result.user) else Undoing(id)]);
      if result.Rejected? then next
      else Logged(WithInvite(next, id, s.invites[id].(made := true)), AccountMade(id))
    else s
  }

  /** The rollback of the claim: an unguarded UPDATE by id. */
  function UndoStep(s: State, r: RedeemerId, ok: bool): State {
    if r in s.redeemers && s.redeemers[r].Undoing? && s.redeemers[r].invite in s.invites then
      var id := s.redeemers[r].invite;
      var rest := s.(redeemers := s.redeemers - {r});
      if ok then Logged(WithInvite(rest, id, s.invites[id].(redeemed := false, made := false)), ClaimUndone(id, s.invites[id].made))
      else rest
    else s
  }

  function StampStep(s: State, r: RedeemerId, ok: bool): State {
    if r in s.redeemers && s.redeemers[r].SignedUp? && s.redeemers[r].invite in s.invites then
      var SignedUp(id, user) := s.redeemers[r];
      var rest := s.(redeemers := s.redeemers - {r});
      if ok then Logged(WithInvite(rest, id, s.invites[id].(stampedBy := Some(user))), Stamped(id)) else rest
    else s
  }

  function Apply(s: State, step: Step): State {
    match step
    case Generate(id, at) => if id in s.invites then s else WithInvite(s, id, Invite(at, false, false, None, false))
    case Revoke(id) => RevokeStep(s, id)
    case Claim(r, id, now) => ClaimStep(s, r, id, now)
    case SignUpReturns(r, result) => SignUpStep(s, r, result)
    case Undo(r, ok) => UndoStep(s, r, ok)
    case Stamp(r, ok) => StampStep(s, r, ok)
    case Crash(r) => s.(redeemers := s.redeemers - {r})
  }

  function Exec(s: State, steps: seq<Step>): State
    decreases |steps|
  {
    if steps == [] then s else Exec(Apply(s, steps[0]), steps[1..])
  }

  // ---------------------------------------------------------------- the invariant

  function Count(log: seq<Event>, e: Event): nat {
    multiset(log)[e]
  }

  predicate PhaseFits(i: Invite, p: Phase) {
    i.redeemed && i.stampedBy.None? && (p.Claimed? ==> !i.made) && (p.SignedUp? ==> i.made)
  }

  /** One invite's columns against its part of the log. */
  predicate InviteSound(log: seq<Event>, id: InviteId, i: Invite) {
    && !(i.revoked && i.redeemed)
    && (i.stampedBy.Some? ==> i.redeemed && i.made)
    && (i.made ==> i.redeemed)
    && Count(log, ClaimTaken(id)) == Count(log, ClaimUndone(id, true)) + Count(log, ClaimUndone(id, false))
                                     + (if i.redeemed then 1 else 0)
    && Count(log, AccountMade(id)) == Count(log, ClaimUndone(id, true)) + (if i.made then 1 else 0)
    && Count(log, Stamped(id)) == (if i.stampedBy.Some? then 1 else 0)
  }

  ghost predicate InvitesSound(s: State) {
    && (forall id :: id in s.invites ==> InviteSound(s.log, id, s.invites[id]))
    && (forall e: Event :: e in s.log ==> e.invite in s.invites)
  }

  ghost predicate RedeemersFit(s: State) {
    && (forall r :: r in s.redeemers ==> s.redeemers[r].invite in s.invites && PhaseFits(s.invites[s.redeemers[r].invite], s.redeemers[r]))
    && (forall q, r :: q in s.redeemers && r in s.redeemers && s.redeemers[q].invite == s.redeemers[r].invite ==> q == r)
  }

  ghost predicate Inv(s: State) {
    InvitesSound(s) && RedeemersFit(s)
  }

  lemma InviteFacts(s: State, id: InviteId)
    requires Inv(s) && id in s.invites
    ensures InviteSound(s.log, id, s.invites[id])
  {
    hide InviteSound, RedeemersFit;
  }

  lemma HolderFacts(s: State, r: RedeemerId)
    requires Inv(s) && r in s.redeemers
    ensures var p := s.redeemers[r];
            && p.invite in s.invites && PhaseFits(s.invites[p.invite], p) && InviteSound(s.log, p.invite, s.invites[p.invite])
            && forall q :: q in s.redeemers && q != r ==> s.redeemers[q].invite != p.invite
  {
    hide InviteSound, PhaseFits;
  }

  lemma UnheldFacts(s: State, id: InviteId)
    requires Inv(s) && id in s.invites && (!s.invites[id].redeemed || s.invites[id].stampedBy.Some?)
    ensures forall r :: r in s.redeemers ==> s.redeemers[r].invite != id
  {
    hide InviteSound;
  }

  /** An event about one invite leaves the accounts of the others alone. */
  lemma OtherEvent(log: seq<Event>, id: InviteId, i: Invite, e: Event)
    requires InviteSound(log, id, i) && e.invite != id
    ensures InviteSound(log + [e], id, i)
  {
  }

  lemma InvitesReplaced(s: State, s': State, id: InviteId, events: seq<Event>)
    requires InvitesSound(s) && |events| <= 1 && (events != [] ==> events[0].invite == id)
    requires s'.log == s.log + events && id in s'.invites && s'.invites == s.invites[id := s'.invites[id]]
    requires InviteSound(s'.log, id, s'.invites[id])
    ensures InvitesSound(s')
  {
    hide InviteSound;
    forall other | other in s'.invites
      ensures InviteSound(s'.log, other, s'.invites[other])
    {
      if other != id {
        assert InviteSound(s.log, other, s.invites[other]);
        if events == [] {
          assert s'.log == s.log;
        } else {
          assert s'.log == s.log + [events[0]];
          OtherEvent(s.log, other, s.invites[other], events[0]);
        }
      }
    }
  }

  /** One invite changes, with at most one event, about it; at most one redeemer holds it afterwards. */
  lemma Replaced(s: State, s': State, id: InviteId, events: seq<Event>)
    requires Inv(s) && |events| <= 1 && (events != [] ==> events[0].invite == id)
    requires s'.log == s.log + events && id in s'.invites && s'.invites == s.invites[id := s'.invites[id]]
    requires InviteSound(s'.log, id, s'.invites[id])
    requires forall r :: r in s'.redeemers && s'.redeemers[r].invite != id ==> r in s.redeemers && s.redeemers[r] == s'.redeemers[r]
    requires forall r :: r in s'.redeemers && s'.redeemers[r].invite == id ==> PhaseFits(s'.invites[id], s'.redeemers[r])
    requires forall q, r :: q in s'.redeemers && r in s'.redeemers && s'.redeemers[q].invite == s'.redeemers[r].invite == id ==> q == r
    ensures Inv(s')
  {
    hide InviteSound, PhaseFits;
    InvitesReplaced(s, s', id, events) by { hide RedeemersFit; }
    hide InvitesSound;
  }

  lemma RedeemerLeaves(s: State, r: RedeemerId)
    requires Inv(s)
    ensures Inv(s.(redeemers := s.redeemers - {r}))
  {
    hide InviteSound, PhaseFits;
  }

  lemma GenerateKeeps(s: State, id: InviteId, at: Instant)
    requires Inv(s)
    ensures Inv(Apply(s, Generate(id, at)))
  {
    hide InviteSound, PhaseFits;
    if id !in s.invites {
      var s' := Apply(s, Generate(id, at));
      assert forall e: Event :: e.invite == id ==> e !in s.log;
      FreshInvite(s.log, id, at);
      assert s'.log == s.log + [];
      assert forall r :: r in s.redeemers ==> s.redeemers[r].invite != id;
      hide Inv;
      Replaced(s, s', id, []);
    }
  }

  lemma FreshInvite(log: seq<Event>, id: InviteId, at: Instant)
    requires forall e: Event :: e.invite == id ==> e !in log
    ensures InviteSound(log, id, Invite(at, false, false, None, false))
  {
  }

  lemma RevokeKeeps(s: State, id: InviteId)
    requires Inv(s)
    ensures Inv(RevokeStep(s, id))
  {
    hide Inv;
    var s' := RevokeStep(s, id);
    if s' != s {
      InviteFacts(s, id);
      UnheldFacts(s, id);
      assert s'.log == s.log + [];
      Replaced(s, s', id, []);
    }
  }

  lemma ClaimKeeps(s: State, r: RedeemerId, id: InviteId, now: Instant)
    requires Inv(s)
    ensures Inv(ClaimStep(s, r, id, now))
  {
    hide Inv;
    var s' := ClaimStep(s, r, id, now);
    if s' != s {
      InviteFacts(s, id);
      UnheldFacts(s, id);
      InviteEvent(s.log, id, s.invites[id], ClaimTaken(id), s'.invites[id]);
      hide InviteSound;
      Replaced(s, s', id, [ClaimTaken(id)]);
    }
  }

  /** What each event means for its invite. */
  lemma InviteEvent(log: seq<Event>, id: InviteId, i: Invite, e: Event, i': Invite)
    requires InviteSound(log, id, i) && e.invite == id
    requires match e
             case ClaimTaken(_) => !i.redeemed && !i.revoked && i' == i.(redeemed := true)
             case AccountMade(_) => i.redeemed && !i.made && i' == i.(made := true)
             case ClaimUndone(_, made) => i.redeemed && i.stampedBy.None? && made == i.made && i' == i.(redeemed := false, made := false)
             case Stamped(_) => i.redeemed && i.made && i.stampedBy.None? && i'.stampedBy.Some? && i' == i.(stampedBy := i'.stampedBy)
    ensures InviteSound(log + [e], id, i')
  {
  }

  lemma SignUpKeeps(s: State, r: RedeemerId, result: SignUp)
    requires Inv(s)
    ensures Inv(SignUpStep(s, r, result))
  {
    hide Inv, InviteSound;
    var s' := SignUpStep(s, r, result);
    if s' != s {
      var id := s.redeemers[r].invite;
      HolderFacts(s, r);
      if result.Rejected? {
        assert s'.log == s.log + [] && s'.invites == s.invites[id := s'.invites[id]];
        Replaced(s, s', id, []);
      } else {
        InviteEvent(s.log, id, s.invites[id], AccountMade(id), s'.invites[id]);
        Replaced(s, s', id, [AccountMade(id)]);
      }
    }
  }

  lemma UndoKeeps(s: State, r: RedeemerId, ok: bool)
    requires Inv(s)
    ensures Inv(UndoStep(s, r, ok))
  {
    hide Inv, InviteSound;
    var s' := UndoStep(s, r, ok);
    if s' != s {
      var id := s.redeemers[r].invite;
      if ok {
        HolderFacts(s, r);
        InviteEvent(s.log, id, s.invites[id], ClaimUndone(id, s.invites[id].made), s'.invites[id]);
        Replaced(s, s', id, [ClaimUndone(id, s.invites[id].made)]);
      } else {
        RedeemerLeaves(s, r);
      }
    }
  }

  lemma StampKeeps(s: State, r: RedeemerId, ok: bool)
    requires Inv(s)
    ensures Inv(StampStep(s, r, ok))
  {
    hide Inv, InviteSound;
    var s' := StampStep(s, r, ok);
    if s' != s {
      var id := s.redeemers[r].invite;
      if ok {
        HolderFacts(s, r);
        InviteEvent(s.log, id, s.invites[id], Stamped(id), s'.invites[id]);
        Replaced(s, s', id, [Stamped(id)]);
      } else {
        RedeemerLeaves(s, r);
      }
    }
  }

  lemma StepKeeps(s: State, step: Step)
    requires Inv(s)
    ensures Inv(Apply(s, step))
  {
    hide Inv;
    match step {
      case Generate(id, at) => GenerateKeeps(s, id, at);
      case Revoke(id) => RevokeKeeps(s, id);
      case Claim(r, id, now) => ClaimKeeps(s, r, id, now);
      case SignUpReturns(r, result) => SignUpKeeps(s, r, result);
      case Undo(r, ok) => UndoKeeps(s, r, ok);
      case Stamp(r, ok) => StampKeeps(s, r, ok);
      case Crash(r) => RedeemerLeaves(s, r);
    }
  }

  lemma {:induction false} RunKeeps(s: State, steps: seq<Step>)
    requires Inv(s)
    ensures Inv(Exec(s, steps))
    decreases |steps|
  {
    hide Inv, Apply;
    if steps != [] {
      StepKeeps(s, steps[0]);
      RunKeeps(Apply(s, steps[0]), steps[1..]);
    }
  }

  lemma Reachable(steps: seq<Step>)
    ensures Inv(Exec(INIT, steps))
  {
    assert Inv(INIT);
    hide Inv;
    RunKeeps(INIT, steps);
  }

  // ---------------------------------------------------------------- what every run guarantees

  /** At most one redeemer holds an invite's claim, and a held invite is redeemed, unrevoked and unstamped. */
  lemma OneHolder(steps: seq<Step>, q: RedeemerId, r: RedeemerId)
    requires q in Exec(INIT, steps).redeemers && r in Exec(INIT, steps).redeemers
    requires Exec(INIT, steps).redeemers[q].invite == Exec(INIT, steps).redeemers[r].invite
    ensures var s := Exec(INIT, steps); var id := s.redeemers[r].invite;
            && q == r && id in s.invites
            && s.invites[id].redeemed && !s.invites[id].revoked && s.invites[id].stampedBy.None?
  {
    Reachable(steps);
    HolderFacts(Exec(INIT, steps), q);
    HolderFacts(Exec(INIT, steps), r);
    hide Inv, Exec;
  }

  /**
   Per invite, over every run: never both revoked and redeemed; at most one redemption is ever stamped;
   and accounts balance: each account made under it is either the current claim's or had its claim undone.
   */
  lemma InviteAccounts(steps: seq<Step>, id: InviteId)
    requires id in Exec(INIT, steps).invites
    ensures var s := Exec(INIT, steps); var i := s.invites[id];
            && !(i.revoked && i.redeemed)
            && Count(s.log, Stamped(id)) <= 1 && (i.stampedBy.Some? <==> Count(s.log, Stamped(id)) == 1)
            && Count(s.log, AccountMade(id)) == Count(s.log, ClaimUndone(id, true)) + (if i.made then 1 else 0)
            && Count(s.log, AccountMade(id)) <= 1 + Count(s.log, ClaimUndone(id, true))
  {
    Reachable(steps);
    InviteFacts(Exec(INIT, steps), id);
    hide Inv, Exec;
  }

  /** Only the claim holder's own failure makes an invite redeemable again. */
  lemma OnlyHolderReopens(s: State, step: Step, id: InviteId)
    requires Inv(s) && id in s.invites && s.invites[id].redeemed
    ensures id in Apply(s, step).invites
    ensures !Apply(s, step).invites[id].redeemed
       <==> step.Undo? && step.ok && step.r in s.redeemers && s.redeemers[step.r] == Undoing(id)
  {
    hide InviteSound, PhaseFits, InvitesSound;
  }

  /** A revoked invite is never claimed, redeemed or un-revoked, whatever happens next. */
  lemma {:induction false} RevokedForever(s: State, steps: seq<Step>, id: InviteId)
    requires Inv(s) && id in s.invites && s.invites[id].revoked
    ensures var s' := Exec(s, steps);
            && id in s'.invites && s'.invites[id].revoked && !s'.invites[id].redeemed
            && Count(s'.log, ClaimTaken(id)) == Count(s.log, ClaimTaken(id))
            && forall r :: r in s'.redeemers ==> s'.redeemers[r].invite != id
    decreases |steps|
  {
    InviteFacts(s, id);
    UnheldFacts(s, id);
    hide Inv, Apply, InviteSound;
    if steps != [] {
      StepKeeps(s, steps[0]);
      UnheldStep(s, steps[0], id);
      RevokedForever(Apply(s, steps[0]), steps[1..], id);
    }
  }

  /** A step leaves alone an invite nobody holds that is revoked or redeemed. */
  lemma UnheldStep(s: State, step: Step, id: InviteId)
    requires id in s.invites && (s.invites[id].revoked || s.invites[id].redeemed)
    requires forall r :: r in s.redeemers ==> s.redeemers[r].invite != id
    ensures var s' := Apply(s, step);
            id in s'.invites && s'.invites[id] == s.invites[id] && Count(s'.log, ClaimTaken(id)) == Count(s.log, ClaimTaken(id))
  {
    hide Count;
    assert forall e: Event :: e.invite != id ==> Count(s.log + [e], ClaimTaken(id)) == Count(s.log, ClaimTaken(id)) by {
      forall e: Event | e.invite != id
        ensures Count(s.log + [e], ClaimTaken(id)) == Count(s.log, ClaimTaken(id))
      {
        CountOther(s.log, e, ClaimTaken(id));
      }
    }
    match step {
      case Generate(_, _) =>
      case Revoke(_) =>
      case Claim(_, _, _) =>
      case SignUpReturns(_, _) =>
      case Undo(_, _) =>
      case Stamp(_, _) =>
      case Crash(_) =>
    }
  }

  lemma CountOther(log: seq<Event>, e: Event, other: Event)
    requires e != other
    ensures Count(log + [e], other) == Count(log, other)
  {
  }

  /** A stamped redemption stands: same user, never reopened, never revoked. */
  lemma {:induction false} StampedForever(s: State, steps: seq<Step>, id: InviteId)
    requires Inv(s) && id in s.invites && s.invites[id].stampedBy.Some?
    ensures var s' := Exec(s, steps);
            id in s'.invites && s'.invites[id].stampedBy == s.invites[id].stampedBy && s'.invites[id].redeemed && !s'.invites[id].revoked
    decreases |steps|
  {
    InviteFacts(s, id);
    UnheldFacts(s, id);
    hide Inv, Apply;
    if steps != [] {
      StepKeeps(s, steps[0]);
      UnheldStep(s, steps[0], id);
      StampedForever(Apply(s, steps[0]), steps[1..], id);
    }
  }

  /**
   The bound on accounts is met: a sign-up that made the account but returned no session token (or whose
   reply was lost) undoes the claim, and the same invite then makes a second account.
   */
  lemma TwoAccounts(s: State, id: InviteId, now: Instant, q: RedeemerId, r: RedeemerId, first: SignUp, second: UserId)
    requires id in s.invites && Redeemable(s.invites[id], now) && q !in s.redeemers && r !in s.redeemers
    requires first.CreatedWithoutToken? || first.CreatedReplyLost?
    ensures var s1 := UndoStep(SignUpStep(ClaimStep(s, q, id, now), q, first), q, true);
            var s2 := StampStep(SignUpStep(ClaimStep(s1, r, id, now), r, Created(second)), r, true);
            && Count(s2.log, AccountMade(id)) == Count(s.log, AccountMade(id)) + 2
            && id in s2.invites && s2.invites[id].stampedBy == Some(second)
  {
  }

  // ---------------------------------------------------------------- claims and expiry

  /** A claim takes exactly an invite that is there, unrevoked, unredeemed and not yet expired; otherwise nothing happens. */
  lemma ClaimedIff(s: State, r: RedeemerId, id: InviteId, now: Instant)
    requires r !in s.redeemers
    ensures var s' := Apply(s, Claim(r, id, now));
            if id in s.invites && !s.invites[id].revoked && !s.invites[id].redeemed && now < s.invites[id].expiresAt
            then && s'.invites == s.invites[id := s.invites[id].(redeemed := true)]
                 && s'.redeemers == s.redeemers[r := Claimed(id)] && s'.log == s.log + [ClaimTaken(id)]
            else s' == s
  {
  }

  /** An invite begins open until the instant it is given; no later one takes its place. */
  lemma GeneratedIs(s: State, id: InviteId, expiresAt: Instant)
    ensures var s' := Apply(s, Generate(id, expiresAt));
            if id in s.invites then s' == s
            else s' == s.(invites := s.invites[id := Invite(expiresAt, false, false, None, false)])
  {
  }

  /** A revocation takes effect on exactly the invites that are there and unredeemed, and touches nothing else. */
  lemma RevokedIff(s: State, id: InviteId)
    ensures var s' := Apply(s, Revoke(id));
            && s'.redeemers == s.redeemers && s'.log == s.log && s'.invites.Keys == s.invites.Keys
            && (forall other :: other in s.invites && other != id ==> s'.invites[other] == s.invites[other])
            && (id in s.invites ==>
                  s'.invites[id] == if s.invites[id].redeemed then s.invites[id] else s.invites[id].(revoked := true))
  {
  }

  /** Does this step claim the invite, and before it expires? */
  predicate ClaimsInTime(step: Step, id: InviteId, expiresAt: Instant) {
    step.Claim? && step.invite == id && step.now < expiresAt
  }

  lemma ExpiredStep(s: State, step: Step, id: InviteId)
    requires id in s.invites && !s.invites[id].redeemed && !ClaimsInTime(step, id, s.invites[id].expiresAt)
    requires forall r :: r in s.redeemers ==> s.redeemers[r].invite != id
    ensures var s' := Apply(s, step);
            && id in s'.invites && s'.invites[id] == s.invites[id].(revoked := s'.invites[id].revoked)
            && Count(s'.log, ClaimTaken(id)) == Count(s.log, ClaimTaken(id))
            && forall r :: r in s'.redeemers ==> s'.redeemers[r].invite != id
  {
    hide Count;
    assert forall e: Event :: e.invite != id ==> Count(s.log + [e], ClaimTaken(id)) == Count(s.log, ClaimTaken(id)) by {
      forall e: Event | e.invite != id
        ensures Count(s.log + [e], ClaimTaken(id)) == Count(s.log, ClaimTaken(id))
      {
        CountOther(s.log, e, ClaimTaken(id));
      }
    }
    match step {
      case Claim(_, _, _) =>
      case _ =>
    }
  }

  /** An expired invite is never claimed: no run without a claim in time takes it, redeems it or stamps it. */
  lemma {:induction false} ExpiredForever(s: State, steps: seq<Step>, id: InviteId)
    requires Inv(s) && id in s.invites && !s.invites[id].redeemed
    requires forall i :: 0 <= i < |steps| ==> !ClaimsInTime(steps[i], id, s.invites[id].expiresAt)
    ensures var s' := Exec(s, steps);
            && id in s'.invites && !s'.invites[id].redeemed && s'.invites[id].stampedBy.None?
            && Count(s'.log, ClaimTaken(id)) == Count(s.log, ClaimTaken(id))
            && forall r :: r in s'.redeemers ==> s'.redeemers[r].invite != id
    decreases |steps|
  {
    InviteFacts(s, id);
    UnheldFacts(s, id);
    hide Inv, Apply, InviteSound;
    if steps != [] {
      StepKeeps(s, steps[0]);
      ExpiredStep(s, steps[0], id);
      ExpiredForever(Apply(s, steps[0]), steps[1..], id);
    } else {
      UnredeemedUnstamped(s, id);
    }
  }

  lemma UnredeemedUnstamped(s: State, id: InviteId)
    requires Inv(s) && id in s.invites && !s.invites[id].redeemed
    ensures s.invites[id].stampedBy.None?
  {
    InviteFacts(s, id);
    hide Inv;
  }

  // ---------------------------------------------------------------- telling the caller why

  datatype ErrorKind = InviteNotFound | InviteRevoked | InviteAlreadyRedeemed | InviteExpired | EmailAlreadyExists | SignUpFailed | StoreFailed

  function Classify(row: Option<Invite>, now: Instant): ErrorKind {
    if row.None? then InviteNotFound
    else if row.value.revoked then InviteRevoked
    else if row.value.redeemed then InviteAlreadyRedeemed
    else if row.value.expiresAt < now then InviteExpired
    else InviteAlreadyRedeemed
  }

  /**
   The claim asks `expires_at > now`, the diagnosis `expires_at < now`. So on a row that did not change
   in between, AlreadyRedeemed is wrong exactly when both clock readings are the expiry itself.
   */
  lemma MisreportedIff(row: Invite, claimedAt: Instant, now: Instant)
    requires !Redeemable(row, claimedAt) && claimedAt <= now
    ensures Classify(Some(row), now) == InviteAlreadyRedeemed && !row.redeemed
       <==> !row.revoked && !row.redeemed && row.expiresAt == claimedAt == now
    ensures Classify(Some(row), now) == InviteRevoked <==> row.revoked
    ensures Classify(Some(row), now) == InviteExpired ==> row.expiresAt < now && !row.redeemed && !row.revoked
  {
  }

  // ---------------------------------------------------------------- redeemInvite, as the code runs it

  datatype Redemption = SignedIn(user: UserId) | Refused(kind: ErrorKind)

  /** How the calls of one redemption go; `exists` is whether the sign-up error says the email exists. */
  datatype Calls = Calls(claimAt: Instant, lookupAt: Instant, signUp: SignUp, emailExists: bool, undoOk: bool, stampOk: bool)

  /** What one undisturbed redemption makes of the invite, and what its caller is told. */
  function Redeemed(i: Option<Invite>, calls: Calls): (Option<Invite>, Redemption) {
    if i.None? || !Redeemable(i.value, calls.claimAt) then (i, Refused(Classify(i, calls.lookupAt)))
    else if calls.signUp.Created? then
      (Some(i.value.(redeemed := true, made := true, stampedBy := if calls.stampOk then Some(calls.signUp.user) else i.value.stampedBy)),
       if calls.stampOk then SignedIn(calls.signUp.user) else Refused(StoreFailed))
    else if calls.undoOk then
      (Some(i.value.(redeemed := false, made := false)), Refused(if calls.emailExists then EmailAlreadyExists else SignUpFailed))
    else
      (Some(i.value.(redeemed := true, made := i.value.made || !calls.signUp.Rejected?)), Refused(StoreFailed))
  }

  /**
   What a redemption comes to, by the invite as it was found: refused for the first reason that holds, and
   nothing changed; or redeemed and stamped, or claimed and given back, or left claimed, as its calls go.
   */
  lemma RedeemedMeans(i: Option<Invite>, calls: Calls)
    ensures Redeemed(None, calls) == (None, Refused(InviteNotFound))
    ensures i.Some? ==>
              var row, (after, result) := i.value, Redeemed(i, calls);
              && (row.revoked ==> after == i && result == Refused(InviteRevoked))
              && (!row.revoked && row.redeemed ==> after == i && result == Refused(InviteAlreadyRedeemed))
              && (!row.revoked && !row.redeemed && row.expiresAt <= calls.claimAt ==>
                    after == i && result == Refused(if row.expiresAt < calls.lookupAt then InviteExpired else InviteAlreadyRedeemed))
              && (!row.revoked && !row.redeemed && row.expiresAt > calls.claimAt ==>
                    && after.Some? && !after.value.revoked && after.value.expiresAt == row.expiresAt
                    && (calls.signUp.Created? && calls.stampOk ==>
                          result == SignedIn(calls.signUp.user) && after.value.redeemed && after.value.stampedBy == Some(calls.signUp.user))
                    && (calls.signUp.Created? && !calls.stampOk ==>
                          result == Refused(StoreFailed) && after.value.redeemed && after.value.stampedBy == row.stampedBy)
                    && (!calls.signUp.Created? && calls.undoOk ==>
                          && result == Refused(if calls.emailExists then EmailAlreadyExists else SignUpFailed)
                          && !after.value.redeemed && after.value.stampedBy == row.stampedBy)
                    && (!calls.signUp.Created? && !calls.undoOk ==>
                          result == Refused(StoreFailed) && after.value.redeemed && after.value.stampedBy == row.stampedBy))
  {
  }

  /** The states an undisturbed redemption goes through, by what they hold. */
  lemma ClaimPath(s: State, r: RedeemerId, id: InviteId, calls: Calls)
    requires r !in s.redeemers
    ensures Apply(s, Claim(r, id, calls.claimAt)) == ClaimStep(s, r, id, calls.claimAt)
    ensures !(id in s.invites && Redeemable(s.invites[id], calls.claimAt)) ==> ClaimStep(s, r, id, calls.claimAt) == s
    ensures id in s.invites && Redeemable(s.invites[id], calls.claimAt) ==>
              var i := s.invites[id].(redeemed := true);
              var s1 := ClaimStep(s, r, id, calls.claimAt);
              var s2 := SignUpStep(s1, r, calls.signUp);
              var j := i.(made := i.made || !calls.signUp.Rejected?);
              && s1.invites == s.invites[id := i] && s1.redeemers == s.redeemers[r := Claimed(id)]
              && Apply(s1, SignUpReturns(r, calls.signUp)) == s2
              && s2.invites == s.invites[id := j] && r in s2.redeemers
              && s2.redeemers[r] == (if calls.signUp.Created? then SignedUp(id, calls.signUp.user) else Undoing(id))
              && Apply(s2, Undo(r, calls.undoOk)) == UndoStep(s2, r, calls.undoOk)
              && Apply(s2, Stamp(r, calls.stampOk)) == StampStep(s2, r, calls.stampOk)
              && UndoStep(s2, r, calls.undoOk).redeemers == (if calls.signUp.Created? then s2.redeemers else s.redeemers)
              && (!calls.signUp.Created? ==>
                    UndoStep(s2, r, calls.undoOk).invites ==
                    s.invites[id := if calls.undoOk then j.(redeemed := false, made := false) else j])
              && (calls.signUp.Created? ==>
                    && StampStep(s2, r, calls.stampOk).redeemers == s.redeemers
                    && StampStep(s2, r, calls.stampOk).invites ==
                       s.invites[id := if calls.stampOk then j.(stampedBy := Some(calls.signUp.user)) else j])
  {
    if id in s.invites && Redeemable(s.invites[id], calls.claimAt) {
      var s1 := ClaimStep(s, r, id, calls.claimAt);
      var s2 := SignUpStep(s1, r, calls.signUp);
      assert s2.redeemers - {r} == s.redeemers;
    }
  }

  lemma ExecNone(s: State)
    ensures Exec(s, []) == s
  {
  }

  ghost function TakeStep(s: State, done: seq<Step>, step: Step): (trace: seq<Step>)
    ensures Exec(s, trace) == Apply(Exec(s, done), step)
  {
    ExecSnoc(s, done, step);
    done + [step]
  }

  lemma {:induction false} ExecSnoc(s: State, steps: seq<Step>, step: Step)
    ensures Exec(s, steps + [step]) == Apply(Exec(s, steps), step)
    decreases |steps|
  {
    hide Apply;
    if steps == [] {
      assert [step][1..] == [] && steps + [step] == [step];
      assert Exec(s, [step]) == Exec(Apply(s, step), []);
    } else {
      assert (steps + [step])[0] == steps[0] && (steps + [step])[1..] == steps[1..] + [step];
      ExecSnoc(Apply(s, steps[0]), steps[1..], step);
    }
  }

  class InviteStore {
    var invites: map<InviteId, Invite>
    var redeemers: map<RedeemerId, Phase>
    var log: seq<Event>

    ghost function Abs(): State
      reads this
    {
      State(invites, redeemers, log)
    }

    constructor ()
      ensures Abs() == INIT
    {
      invites, redeemers, log := map[], map[], [];
    }

    method RevokeInvite(id: InviteId)
      modifies this
      ensures Abs() == RevokeStep(old(Abs()), id)
    {
      if id in invites && !invites[id].revoked && !invites[id].redeemed {
        invites := invites[id := invites[id].(revoked := true)];
      }
    }

    /** Step 1: the claim, or why there is none. */
    method ClaimInvite(r: RedeemerId, id: InviteId, calls: Calls) returns (failed: Option<ErrorKind>)
      requires r !in redeemers
      modifies this
      ensures Abs() == ClaimStep(old(Abs()), r, id, calls.claimAt)
      ensures failed.None? <==> id in old(invites) && Redeemable(old(invites)[id], calls.claimAt)
      ensures failed.Some? ==> failed.value == Classify(Lookup(old(invites), id), calls.lookupAt)
    {
      if id !in invites || !Redeemable(invites[id], calls.claimAt) {
        return Some(Classify(Lookup(invites, id), calls.lookupAt));
      }
      invites := invites[id := invites[id].(redeemed := true)];
      log, redeemers := log + [ClaimTaken(id)], redeemers[r := Claimed(id)];
      failed := None;
    }

    /** Step 2: better-auth's answer. */
    method SignUpEmail(r: RedeemerId, result: SignUp)
      requires r in redeemers && redeemers[r].Claimed? && redeemers[r].invite in invites
      modifies this
      ensures Abs() == SignUpStep(old(Abs()), r, result)
    {
      var id := redeemers[r].invite;
      redeemers := redeemers[r := if result.Created? then SignedUp(id, result.user) else Undoing(id)];
      if !result.Rejected? {
        invites, log := invites[id := invites[id].(made := true)], log + [AccountMade(id)];
      }
    }

    method UndoClaim(r: RedeemerId, ok: bool)
      requires r in redeemers && redeemers[r].Undoing? && redeemers[r].invite in invites
      modifies this
      ensures Abs() == UndoStep(old(Abs()), r, ok)
    {
      var id := redeemers[r].invite;
      redeemers := redeemers - {r};
      if ok {
        log := log + [ClaimUndone(id, invites[id].made)];
        invites := invites[id := invites[id].(redeemed := false, made := false)];
      }
    }

    /** Step 3. */
    method StampUser(r: RedeemerId, ok: bool)
      requires r in redeemers && redeemers[r].SignedUp? && redeemers[r].invite in invites
      modifies this
      ensures Abs() == StampStep(old(Abs()), r, ok)
    {
      var SignedUp(id, user) := redeemers[r];
      redeemers := redeemers - {r};
      if ok {
        log := log + [Stamped(id)];
        invites := invites[id := invites[id].(stampedBy := Some(user))];
      }
    }

    /** Whatever its calls return, a redemption is a path of the protocol's steps and leaves no redeemer behind. */
    method RedeemInvite(r: RedeemerId, id: InviteId, calls: Calls) returns (result: Redemption, ghost trace: seq<Step>)
      requires r !in redeemers
      modifies this
      ensures Abs() == Exec(old(Abs()), trace)
      ensures redeemers == old(redeemers)
      ensures (Lookup(invites, id), result) == Redeemed(Lookup(old(invites), id), calls)
      ensures forall other :: other != id ==> Lookup(invites, other) == Lookup(old(invites), other)
    {
      hide Exec, Apply, ClaimStep, SignUpStep, UndoStep, StampStep, Classify;
      ghost var s := Abs();
      trace := [];
      ExecNone(s);
      ClaimPath(s, r, id, calls);
      trace := TakeStep(s, trace, Claim(r, id, calls.claimAt));
      var failed := ClaimInvite(r, id, calls);
      if failed.Some? {
        return Refused(failed.value), trace;
      }
      trace := TakeStep(s, trace, SignUpReturns(r, calls.signUp));
      SignUpEmail(r, calls.signUp);
      if !calls.signUp.Created? {
        trace := TakeStep(s, trace, Undo(r, calls.undoOk));
        UndoClaim(r, calls.undoOk);
        if !calls.undoOk {
          return Refused(StoreFailed), trace;
        }
        return Refused(if calls.emailExists then EmailAlreadyExists else SignUpFailed), trace;
      }
      trace := TakeStep(s, trace, Stamp(r, calls.stampOk));
      StampUser(r, calls.stampOk);
      result := if calls.stampOk then SignedIn(calls.signUp.user) else Refused(StoreFailed);
    }
  }
}
