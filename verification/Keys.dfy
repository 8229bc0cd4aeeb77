/** Who may change whose keys, and what one answer at the door settles for good. */
module Keys {
  import opened Wrappers
  import opened Tables
  import opened Runs
  import opened Belonging
  import Spaces
  import Door

  // ── Rings ─────────────────────────────────────────────────────────────────

  /** The call is a departure that goes through. */
  predicate Departs(t: Tables, op: Op, space: SpaceId) {
    op.Social? && op.social.RemoveMember? && op.social.space == space
    && Spaces.Leaves(t, space, op.social.target, op.social.user)
  }

  /** The call hands out keys in a space, for one of its members. */
  predicate HandsOut(t: Tables, op: Op, space: SpaceId, caller: UserId) {
    op.Social? && op.social.DistributeKeys? && op.social.space == space && op.social.user == caller
    && Spaces.DistributeDenial(t, space, caller).None?
  }

  predicate SameRing(t: Tables, t': Tables, mk: MemberKey) {
    mk in t.members && mk in t'.members
    && t'.members[mk].ring == t.members[mk].ring && t'.members[mk].wrappedBy == t.members[mk].wrappedBy
  }

  /** The ring of a member who stays: cleared by a departure, set by the owner, or filled in by a member. */
  ghost predicate RingMovedLawfully(t: Tables, t': Tables, op: Op, mk: MemberKey)
    requires mk in t.members && mk in t'.members && mk.space in t.spaces
  {
    var m, m', s := t.members[mk], t'.members[mk], t.spaces[mk.space];
    || SameRing(t, t', mk)
    || (Departs(t, op, mk.space) && mk.user != s.owner && m'.ring.None? && m'.wrappedBy.None?)
    || (HandsOut(t, op, mk.space, s.owner) && m'.ring.Some? && m'.wrappedBy == Some(s.owner))
    || (op.Social? && HandsOut(t, op, mk.space, op.social.user)
        && mk.user != s.owner && m.ring.None? && m'.ring.Some? && m'.wrappedBy == Some(op.social.user))
  }

  lemma SpaceCallsMoveRings(t: Tables, op: SpaceOp, now: int, mk: MemberKey)
    requires Orderly(t) && mk in t.members && mk in ApplySpace(t, op, now).members
    requires mk.space in t.spaces
    ensures RingMovedLawfully(t, ApplySpace(t, op, now), Social(op), mk)
  {
    hide Orderly, Spaces.HandedOut, Spaces.EveryoneHoldsARing, Vouched;
    match op
    case DistributeKeys(space, caller, rings, _) =>
      if Spaces.DistributeDenial(t, space, caller).None? {
        HandoutsChangeOnlyRings(t.members, space, t.spaces[space], caller, rings);
      }
    case _ =>
  }

  lemma DoorCallsMoveNoRing(t: Tables, op: DoorOp, now: int, mk: MemberKey)
    requires mk in t.members
    ensures mk in ApplyDoor(t, op, now).members && ApplyDoor(t, op, now).members[mk] == t.members[mk]
  {
    hide Door.JoinDenial, Door.KnockAt, Door.AnswerDenial, Door.InviteDenial, Door.InviterDenial, Door.AcceptDenial,
      Door.InviteeDenial, Door.Stamped;
  }

  /** One call moves the ring of a member who stays only in one of four ways, and the owner's only by the owner's hand. */
  lemma OneCallMovesRings(cfg: Config, t: Tables, ev: Event, mk: MemberKey)
    requires Orderly(t) && mk in t.members && mk in Apply(cfg, t, ev).members
    ensures mk.space in t.spaces
    ensures RingMovedLawfully(t, Apply(cfg, t, ev), ev.op, mk)
  {
    hide Orderly, ApplySync, ApplyBlob, ApplySpace, ApplyDoor, Vouched, Departs, HandsOut;
    assert MemberInOrder(t, mk) by {
      MembersAreInOrder(t, mk);
    }
    match ev.op
    case Social(op) => SpaceCallsMoveRings(t, op, ev.now, mk);
    case AtDoor(op) => DoorCallsMoveNoRing(t, op, ev.now, mk);
    case _ =>
  }

  lemma MembersAreInOrder(t: Tables, mk: MemberKey)
    requires Orderly(t)
    ensures MemberInOrder(t, mk) && SpaceInOrder(t, mk.space)
  {
    hide MemberInOrder, SpaceInOrder;
  }

  lemma SpaceCallsKeepOwners(t: Tables, op: SpaceOp, now: int, space: SpaceId)
    requires space in t.spaces
    ensures var t' := ApplySpace(t, op, now);
      && space in t'.spaces && t'.spaces[space].owner == t.spaces[space].owner
      && t'.spaces[space].departures == t.spaces[space].departures + (if Departs(t, Social(op), space) then 1 else 0)
  {
    hide Spaces.HandedOut, Spaces.EveryoneHoldsARing, Spaces.Unfloored, Spaces.WithoutRings, Spaces.WithoutInviteRings;
  }

  /** No call changes who owns a space, and no departure is ever forgotten. */
  lemma OneCallKeepsOwners(cfg: Config, t: Tables, ev: Event, space: SpaceId)
    requires space in t.spaces
    ensures var t' := Apply(cfg, t, ev);
      && space in t'.spaces && t'.spaces[space].owner == t.spaces[space].owner
      && t'.spaces[space].departures == t.spaces[space].departures + (if Departs(t, ev.op, space) then 1 else 0)
  {
    hide ApplySync, ApplyBlob, ApplySpace, ApplyDoor, Spaces.Leaves;
    if ev.op.Social? {
      SpaceCallsKeepOwners(t, ev.op.social, ev.now, space);
    }
  }

  lemma {:induction false} RunKeepsOwners(cfg: Config, t: Tables, evs: seq<Event>, space: SpaceId)
    requires space in t.spaces
    ensures space in Run(cfg, t, evs).spaces && Run(cfg, t, evs).spaces[space].owner == t.spaces[space].owner
    ensures Run(cfg, t, evs).spaces[space].departures >= t.spaces[space].departures
  {
    if evs == [] {
    } else {
      hide Apply;
      RunKeepsOwners(cfg, t, evs[..|evs| - 1], space);
      OneCallKeepsOwners(cfg, Run(cfg, t, evs[..|evs| - 1]), evs[|evs| - 1], space);
    }
  }

  ghost predicate HandsOutNothing(cfg: Config, t: Tables, evs: seq<Event>, space: SpaceId, caller: UserId) {
    forall i :: 0 <= i < |evs| ==> !HandsOut(Run(cfg, t, evs[..i]), evs[i].op, space, caller)
  }

  lemma NothingToTheLast(cfg: Config, t: Tables, evs: seq<Event>, space: SpaceId, caller: UserId)
    requires evs != [] && HandsOutNothing(cfg, t, evs, space, caller)
    ensures HandsOutNothing(cfg, t, evs[..|evs| - 1], space, caller)
    ensures !HandsOut(Run(cfg, t, evs[..|evs| - 1]), evs[|evs| - 1].op, space, caller)
  {
    hide Run, HandsOut;
    var n := |evs| - 1;
    assert forall i :: 0 <= i < n ==> evs[..n][..i] == evs[..i];
  }

  /** Only the owner ever changes the owner's ring: while the owner hands out nothing, it stays as it is. */
  lemma {:induction false} OnlyTheOwnerChangesTheirRing(cfg: Config, t: Tables, evs: seq<Event>, space: SpaceId)
    requires Orderly(t) && space in t.spaces
    requires HandsOutNothing(cfg, t, evs, space, t.spaces[space].owner)
    ensures SameRing(t, Run(cfg, t, evs), MemberKey(space, t.spaces[space].owner))
  {
    if evs == [] {
      MembersAreInOrder(t, MemberKey(space, t.spaces[space].owner));
    } else {
      hide Apply, Orderly, HandsOut, HandsOutNothing;
      var n := |evs| - 1;
      NothingToTheLast(cfg, t, evs, space, t.spaces[space].owner);
      OnlyTheOwnerChangesTheirRing(cfg, t, evs[..n], space);
      RunKeepsOwners(cfg, t, evs[..n], space);
      RunKeepsOrder(cfg, t, evs[..n]);
      OneCallKeepsTheOwnersRing(cfg, Run(cfg, t, evs[..n]), evs[n], space);
    }
  }

  lemma OneCallKeepsTheOwnersRing(cfg: Config, t: Tables, ev: Event, space: SpaceId)
    requires Orderly(t) && space in t.spaces && !HandsOut(t, ev.op, space, t.spaces[space].owner)
    ensures SameRing(t, Apply(cfg, t, ev), MemberKey(space, t.spaces[space].owner))
  {
    hide Apply, Orderly, HandsOut, Departs, RingMovedLawfully;
    var mk := MemberKey(space, t.spaces[space].owner);
    MembersAreInOrder(t, mk);
    OwnerStays(cfg, t, ev, space);
    OneCallMovesRings(cfg, t, ev, mk);
    OwnersRingNeedsTheOwner(t, Apply(cfg, t, ev), ev.op, mk);
  }

  lemma OwnersRingNeedsTheOwner(t: Tables, t': Tables, op: Op, mk: MemberKey)
    requires mk in t.members && mk in t'.members && mk.space in t.spaces && mk.user == t.spaces[mk.space].owner
    requires RingMovedLawfully(t, t', op, mk) && !HandsOut(t, op, mk.space, mk.user)
    ensures SameRing(t, t', mk)
  {
    hide HandsOut, Departs;
  }

  lemma OwnerStays(cfg: Config, t: Tables, ev: Event, space: SpaceId)
    requires Orderly(t) && space in t.spaces
    ensures MemberKey(space, t.spaces[space].owner) in Apply(cfg, t, ev).members
  {
    hide Orderly, Apply;
    StepKeepsOrder(cfg, t, ev);
    OneCallKeepsOwners(cfg, t, ev, space);
    MembersAreInOrder(Apply(cfg, t, ev), MemberKey(space, t.spaces[space].owner));
  }

  // ── The request to rekey ──────────────────────────────────────────────────

  predicate AskedToRekey(t: Tables, space: SpaceId) {
    space in t.spaces && t.spaces[space].rekeyRequestedAt.Some?
  }

  lemma SpaceCallsAnswerTheRekey(t: Tables, op: SpaceOp, now: int, space: SpaceId)
    requires space in t.spaces
    ensures RekeyAnswered(t, ApplySpace(t, op, now), Social(op), space)
  {
    hide Spaces.HandedOut, Spaces.EveryoneHoldsARing, Spaces.Unfloored, Spaces.WithoutRings, Spaces.WithoutInviteRings;
  }

  /**
   * A departure asks for a rekey. What withdraws the request is any handout of the
   * owner, even an empty one, after which every member holds a ring, whoever
   * supplied it; and nothing else.
   */
  ghost predicate RekeyAnswered(t: Tables, t': Tables, op: Op, space: SpaceId)
    requires space in t.spaces
  {
    && (Departs(t, op, space) ==> AskedToRekey(t', space))
    && (AskedToRekey(t, space) && !AskedToRekey(t', space) ==>
          HandsOut(t, op, space, t.spaces[space].owner) && Spaces.EveryoneHoldsARing(t'.members, space))
    && (HandsOut(t, op, space, t.spaces[space].owner) && Spaces.EveryoneHoldsARing(t'.members, space) ==>
          !AskedToRekey(t', space))
  }

  lemma OneCallAnswersTheRekey(cfg: Config, t: Tables, ev: Event, space: SpaceId)
    requires space in t.spaces
    ensures RekeyAnswered(t, Apply(cfg, t, ev), ev.op, space)
  {
    hide ApplySync, ApplyBlob, ApplySpace, ApplyDoor, Spaces.EveryoneHoldsARing, Spaces.Leaves;
    if ev.op.Social? {
      SpaceCallsAnswerTheRekey(t, ev.op.social, ev.now, space);
    }
  }

  /** Everyone in the space holds a ring, and every ring but the owner's dates from after the last departure. */
  ghost predicate OthersAreCurrent(t: Tables, space: SpaceId)
    requires space in t.spaces
  {
    forall mk :: mk in t.members && mk.space == space ==>
      && t.members[mk].ring.Some?
      && (mk.user != t.spaces[space].owner ==> t.members[mk].ring.value.epoch == t.spaces[space].departures)
  }

  lemma HoldersAreCurrent(t: Tables, space: SpaceId)
    requires Orderly(t) && space in t.spaces && Spaces.EveryoneHoldsARing(t.members, space)
    ensures OthersAreCurrent(t, space)
  {
    hide Vouched;
    forall mk | mk in t.members && mk.space == space
      ensures mk.user != t.spaces[space].owner ==> t.members[mk].ring.value.epoch == t.spaces[space].departures
    {
      assert MemberInOrder(t, mk);
    }
  }

  /**
   * So a request that has gone was withdrawn at a handout of the owner after which
   * every member held a ring, and nobody but the owner one from before the departure.
   */
  lemma {:induction false} RekeysAreAnswered(cfg: Config, t: Tables, evs: seq<Event>, space: SpaceId) returns (i: nat)
    requires AskedToRekey(t, space) && !AskedToRekey(Run(cfg, t, evs), space)
    ensures i < |evs|
    ensures HandsOut(Run(cfg, t, evs[..i]), evs[i].op, space, t.spaces[space].owner)
    ensures Spaces.EveryoneHoldsARing(Run(cfg, t, evs[..i + 1]).members, space)
    ensures space in Run(cfg, t, evs[..i + 1]).spaces
    ensures Orderly(t) ==> OthersAreCurrent(Run(cfg, t, evs[..i + 1]), space)
  {
    hide Apply, HandsOut, Spaces.EveryoneHoldsARing, Orderly, OthersAreCurrent;
    assert evs != [];
    var n := |evs| - 1;
    RunKeepsOwners(cfg, t, evs[..n], space);
    if AskedToRekey(Run(cfg, t, evs[..n]), space) {
      i := n;
      OneCallAnswersTheRekey(cfg, Run(cfg, t, evs[..n]), evs[n], space);
      assert evs[..i + 1] == evs;
      RunKeepsOwners(cfg, t, evs, space);
      if Orderly(t) {
        RunKeepsOrder(cfg, t, evs);
        HoldersAreCurrent(Run(cfg, t, evs), space);
      }
    } else {
      i := RekeysAreAnswered(cfg, t, evs[..n], space);
      assert evs[..n][..i] == evs[..i] && evs[..n][..i + 1] == evs[..i + 1];
    }
  }

  // ── Answers that are final ────────────────────────────────────────────────

  predicate WasDeclined(t: Tables, mk: MemberKey) {
    mk in t.requests && t.requests[mk].status == TurnedDown
  }

  lemma DoorCallsKeepDeclined(t: Tables, op: DoorOp, now: int, mk: MemberKey)
    requires WasDeclined(t, mk)
    ensures mk in ApplyDoor(t, op, now).requests && ApplyDoor(t, op, now).requests[mk] == t.requests[mk]
  {
    hide Door.JoinDenial, Door.InviteDenial, Door.InviterDenial, Door.AcceptDenial, Door.InviteeDenial, Door.Stamped,
      Spaces.MayApprove, Door.Invited, Door.Attached, Door.Withdrawn, Door.Spurned, Spaces.RoleOf;
    match op
    case CreateInvite(_, _, _, _, _, _) => InviteCallsKeepRequests(t, op, now);
    case AttachKey(_, _, _) => InviteCallsKeepRequests(t, op, now);
    case RevokeInvite(_, _) => InviteCallsKeepRequests(t, op, now);
    case DeclineInvite(_, _) => InviteCallsKeepRequests(t, op, now);
    case _ =>
  }

  lemma InviteCallsKeepRequests(t: Tables, op: DoorOp, now: int)
    requires op.CreateInvite? || op.AttachKey? || op.RevokeInvite? || op.DeclineInvite?
    ensures ApplyDoor(t, op, now).requests == t.requests
  {
    hide Door.InviteDenial, Door.InviterDenial, Door.AcceptDenial, Door.InviteeDenial, Door.Stamped;
  }

  lemma OneCallKeepsDeclined(cfg: Config, t: Tables, ev: Event, mk: MemberKey)
    requires WasDeclined(t, mk)
    ensures mk in Apply(cfg, t, ev).requests && Apply(cfg, t, ev).requests[mk] == t.requests[mk]
  {
    hide ApplySync, ApplyBlob, ApplySpace, ApplyDoor;
    if ev.op.AtDoor? {
      DoorCallsKeepDeclined(t, ev.op.door, ev.now, mk);
    }
  }

  /** A declined request never changes again, whatever the run. */
  lemma {:induction false} DeclinedForGood(cfg: Config, t: Tables, evs: seq<Event>, mk: MemberKey)
    requires WasDeclined(t, mk)
    ensures mk in Run(cfg, t, evs).requests && Run(cfg, t, evs).requests[mk] == t.requests[mk]
  {
    if evs == [] {
    } else {
      hide Apply;
      DeclinedForGood(cfg, t, evs[..|evs| - 1], mk);
      OneCallKeepsDeclined(cfg, Run(cfg, t, evs[..|evs| - 1]), evs[|evs| - 1], mk);
    }
  }

  predicate Settled(t: Tables, i: InviteId) {
    i in t.invites && t.invites[i].status != Pending
  }

  /** An invite as it was, but for its ring, which a departure from the space takes off it. */
  ghost predicate KeepsAnswer(t: Tables, t': Tables, i: InviteId, departed: bool)
    requires i in t.invites
  {
    i in t'.invites && t'.invites[i] == if departed then t.invites[i].(ring := None) else t.invites[i]
  }

  lemma SpaceCallsKeepInvites(t: Tables, op: SpaceOp, now: int, i: InviteId)
    ensures i in t.invites ==> KeepsAnswer(t, ApplySpace(t, op, now), i, Departs(t, Social(op), t.invites[i].space))
    ensures i in ApplySpace(t, op, now).invites ==> i in t.invites
  {
    hide Spaces.HandedOut, Spaces.EveryoneHoldsARing, Spaces.Unfloored, Spaces.WithoutRings, Spaces.LeaveDenial;
  }

  lemma JoinCallsKeepInvites(t: Tables, op: DoorOp, now: int)
    requires op.RequestJoin? || op.ApproveJoin? || op.DeclineJoin?
    ensures ApplyDoor(t, op, now).invites == t.invites
  {
    hide Door.JoinDenial, Door.KnockAt, Door.AnswerDenial, Door.Stamped;
  }

  /** The calls about an invite write one row, and only a pending or a new one. */
  lemma InvitingWritesPending(
    t: Tables, space: SpaceId, user: UserId, email: string,
    invitee: Option<UserId>, pending: Option<InviteId>, newId: InviteId, now: int, i: InviteId)
    requires Settled(t, i)
    ensures var t' := Door.Invited(t, space, user, email, invitee, pending, newId, now);
      i in t'.invites && t'.invites[i] == t.invites[i]
  {
    hide Door.InviteDenial;
  }

  lemma InviterWritesPending(t: Tables, j: InviteId, user: UserId, text: string, i: InviteId)
    requires Settled(t, i)
    ensures KeepsAnswer(t, Door.Attached(t, j, user, text), i, false)
    ensures KeepsAnswer(t, Door.Withdrawn(t, j, user), i, false)
  {
    hide Door.Stamped;
    var answered := Door.InviterDenial(t, j, user).None?;
    assert answered ==> i != j;
  }

  lemma AnswersWritePending(t: Tables, op: DoorOp, now: int, i: InviteId)
    requires op.AcceptInvite? || op.DeclineInvite?
    requires Settled(t, i)
    ensures i in ApplyDoor(t, op, now).invites && ApplyDoor(t, op, now).invites[i] == t.invites[i]
  {
    hide Door.AddressedTo, Spaces.Joined, Door.Knocked, Door.LetIn, Door.Declined, Door.Invited, Door.Attached,
      Door.Withdrawn;
  }

  lemma DoorCallsKeepSettled(t: Tables, op: DoorOp, now: int, i: InviteId)
    requires Settled(t, i)
    ensures KeepsAnswer(t, ApplyDoor(t, op, now), i, false)
  {
    hide Door.Invited, Door.Attached, Door.Withdrawn, Door.Entered, Door.Spurned, Door.Knocked, Door.LetIn,
      Door.Declined;
    match op
    case CreateInvite(space, user, email, invitee, pending, newId) =>
      InvitingWritesPending(t, space, user, email, invitee, pending, newId, now, i);
    case AttachKey(j, user, text) => InviterWritesPending(t, j, user, text, i);
    case RevokeInvite(j, user) => InviterWritesPending(t, j, user, "", i);
    case AcceptInvite(_, _) => AnswersWritePending(t, op, now, i);
    case DeclineInvite(_, _) => AnswersWritePending(t, op, now, i);
    case _ => JoinCallsKeepInvites(t, op, now);
  }

  lemma OneCallKeepsSettled(cfg: Config, t: Tables, ev: Event, i: InviteId)
    requires Settled(t, i)
    ensures KeepsAnswer(t, Apply(cfg, t, ev), i, Departs(t, ev.op, t.invites[i].space))
  {
    hide ApplySync, ApplyBlob, ApplySpace, ApplyDoor, Spaces.Leaves;
    match ev.op
    case Social(op) => SpaceCallsKeepInvites(t, op, ev.now, i);
    case AtDoor(op) => DoorCallsKeepSettled(t, op, ev.now, i);
    case _ =>
  }

  /** Somebody left the space in the course of the run. */
  ghost predicate DepartedDuring(cfg: Config, t: Tables, evs: seq<Event>, space: SpaceId) {
    evs != [] &&
    var n := |evs| - 1;
    DepartedDuring(cfg, t, evs[..n], space) || Departs(Run(cfg, t, evs[..n]), evs[n].op, space)
  }

  /**
   * An invite answered or revoked keeps its answer for good. A ring still on it
   * stays exactly until somebody leaves the space.
   */
  lemma {:induction false} SettledForGood(cfg: Config, t: Tables, evs: seq<Event>, i: InviteId)
    requires Settled(t, i)
    ensures KeepsAnswer(t, Run(cfg, t, evs), i, DepartedDuring(cfg, t, evs, t.invites[i].space))
  {
    if evs == [] {
    } else {
      hide Apply, Departs;
      var n := |evs| - 1;
      SettledForGood(cfg, t, evs[..n], i);
      OneCallKeepsSettled(cfg, Run(cfg, t, evs[..n]), evs[n], i);
    }
  }

  /** Whether an invite has been accepted or declined by the person it is addressed to. */
  predicate AnsweredNow(t: Tables, t': Tables, i: InviteId, claims: Door.Claims, now: int) {
    || (Door.AcceptDenial(t, i, claims, now).None? && t' == Door.Entered(t, i, claims, now))
    || (Door.InviteeDenial(t, i, claims, now).None? && t' == Door.Spurned(t, i, claims, now))
  }

  /**
   * An invite is answered once. After its answer, whatever else is called for,
   * the same person is told that it is decided, at any time and with any address.
   */
  lemma InvitesAreAnsweredOnce(
    cfg: Config, t: Tables, t': Tables, i: InviteId, claims: Door.Claims, now: int,
    evs: seq<Event>, again: Door.Claims, later: int)
    requires AnsweredNow(t, t', i, claims, now)
    ensures Door.InviteeDenial(Run(cfg, t', evs), i, again, later).Some?
    ensures again.user == claims.user ==>
      Door.InviteeDenial(Run(cfg, t', evs), i, again, later) == Some(Spaces.AlreadyDecided)
  {
    hide Run, Spaces.Joined;
    assert Settled(t', i) && t'.invites[i].invitee == Some(claims.user);
    SettledForGood(cfg, t', evs, i);
  }

  // ── Rings and the names on them ───────────────────────────────────────────

  /** A membership names who wrapped its ring exactly when it has one. */
  predicate NamesItsWrapper(m: Membership) {
    m.ring.Some? <==> m.wrappedBy.Some?
  }

  /** A newcomer by invite has a named ring exactly when the inviter attached one; the name is set regardless. */
  lemma InvitedNewcomersAreNamedIff(t: Tables, i: InviteId, claims: Door.Claims, now: int)
    requires Door.AcceptDenial(t, i, claims, now).None?
    requires MemberKey(t.invites[i].space, claims.user) !in t.members
    ensures var mk := MemberKey(t.invites[i].space, claims.user);
      && mk in Door.Entered(t, i, claims, now).members
      && (NamesItsWrapper(Door.Entered(t, i, claims, now).members[mk]) <==> t.invites[i].ring.Some?)
  {
    hide Door.InviteeDenial;
  }

  /** A newcomer let in has one except when the approver sent a ring that is the empty string. */
  lemma ApprovedNewcomersAreNamedIff(t: Tables, mk: MemberKey, caller: UserId, text: Option<string>, now: int)
    requires Door.AnswerDenial(t, mk, caller).None? && mk !in t.members
    ensures mk in Door.LetIn(t, mk, caller, text, now).members
    ensures NamesItsWrapper(Door.LetIn(t, mk, caller, text, now).members[mk]) <==> text != Some("")
  {
    hide Spaces.MayApprove;
  }

  // ── One pending invite for each address ───────────────────────────────────

  predicate PendingInvite(t: Tables, i: InviteId, space: SpaceId, email: string) {
    i in t.invites && Door.PendingFor(t.invites[i], space, email)
  }

  ghost predicate OnePending(t: Tables) {
    forall i, j, space, email :: PendingInvite(t, i, space, email) && PendingInvite(t, j, space, email) ==> i == j
  }

  /** The look-up that precedes a new invite answered truthfully. */
  ghost predicate LookedUp(t: Tables, ev: Event) {
    ev.op.AtDoor? && ev.op.door.CreateInvite? ==>
      Door.AnswersPendingQuery(t, ev.op.door.space, ev.op.door.email, ev.op.door.pending)
  }

  lemma InvitingKeepsOnePending(
    t: Tables, space: SpaceId, user: UserId, email: string,
    invitee: Option<UserId>, pending: Option<InviteId>, newId: InviteId, now: int)
    requires OnePending(t) && Door.AnswersPendingQuery(t, space, email, pending)
    ensures OnePending(Door.Invited(t, space, user, email, invitee, pending, newId, now))
  {
    hide Door.InviteDenial;
    var t' := Door.Invited(t, space, user, email, invitee, pending, newId, now);
    forall i, j, sp, mail | PendingInvite(t', i, sp, mail) && PendingInvite(t', j, sp, mail)
      ensures i == j
    {
      if i in t.invites && j in t.invites {
        assert PendingInvite(t, i, sp, mail) && PendingInvite(t, j, sp, mail);
      }
    }
  }

  lemma SpaceCallsAddNoPending(t: Tables, op: SpaceOp, now: int, i: InviteId, space: SpaceId, email: string)
    requires PendingInvite(ApplySpace(t, op, now), i, space, email)
    ensures PendingInvite(t, i, space, email)
  {
    hide ApplySpace;
    SpaceCallsKeepInvites(t, op, now, i);
  }

  lemma DoorCallsAddNoPending(t: Tables, op: DoorOp, now: int, i: InviteId, space: SpaceId, email: string)
    requires !op.CreateInvite? && PendingInvite(ApplyDoor(t, op, now), i, space, email)
    ensures PendingInvite(t, i, space, email)
  {
    hide Door.JoinDenial, Door.Stamped, Door.KnockAt, Door.AnswerDenial;
  }

  /** Every other call leaves an invite pending for what it was, or no longer pending. */
  lemma OthersAddNoPending(cfg: Config, t: Tables, ev: Event, i: InviteId, space: SpaceId, email: string)
    requires !(ev.op.AtDoor? && ev.op.door.CreateInvite?)
    requires PendingInvite(Apply(cfg, t, ev), i, space, email)
    ensures PendingInvite(t, i, space, email)
  {
    hide ApplySync, ApplyBlob, ApplySpace, ApplyDoor;
    match ev.op
    case Social(op) => SpaceCallsAddNoPending(t, op, ev.now, i, space, email);
    case AtDoor(op) => DoorCallsAddNoPending(t, op, ev.now, i, space, email);
    case _ =>
  }

  lemma {:induction false} RunKeepsOnePending(cfg: Config, t: Tables, evs: seq<Event>)
    requires OnePending(t) && forall i :: 0 <= i < |evs| ==> LookedUp(Run(cfg, t, evs[..i]), evs[i])
    ensures OnePending(Run(cfg, t, evs))
  {
    if evs == [] {
    } else {
      hide OnePending, Apply, LookedUp;
      var n := |evs| - 1;
      assert forall i :: 0 <= i < n ==> evs[..n][..i] == evs[..i];
      RunKeepsOnePending(cfg, t, evs[..n]);
      StepKeepsOnePending(cfg, Run(cfg, t, evs[..n]), evs[n]);
    }
  }

  lemma StepKeepsOnePending(cfg: Config, t: Tables, ev: Event)
    requires OnePending(t) && LookedUp(t, ev)
    ensures OnePending(Apply(cfg, t, ev))
  {
    if ev.op.AtDoor? && ev.op.door.CreateInvite? {
      hide OnePending, Door.Invited, PendingInvite;
      var CreateInvite(space, user, email, invitee, pending, newId) := ev.op.door;
      InvitingKeepsOnePending(t, space, user, email, invitee, pending, newId, ev.now);
    } else {
      hide Apply, PendingInvite;
      var t' := Apply(cfg, t, ev);
      forall i, space, email | PendingInvite(t', i, space, email)
        ensures PendingInvite(t, i, space, email)
      {
        OthersAddNoPending(cfg, t, ev, i, space, email);
      }
    }
  }
}
