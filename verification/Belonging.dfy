/** What every run keeps about the members of a space, their keys and their history floors. */
module Belonging {
  import opened Wrappers
  import opened Tables
  import opened Runs
  import Spaces
  import Door

  // ── The invariant ─────────────────────────────────────────────────────────

  predicate Brought(inv: Invite, mk: MemberKey) {
    inv.status == Accepted && inv.space == mk.space && inv.invitee == Some(mk.user)
  }

  /** An approved request for the space, or an accepted invite bound to the member. */
  predicate Vouched(t: Tables, mk: MemberKey) {
    || (mk in t.requests && t.requests[mk].status == Approved)
    || exists i :: i in t.invites && Brought(t.invites[i], mk)
  }

  /**
   * A member: the owner's role is the owner's alone, everyone else was vouched
   * for, shared history leaves no floor, and a ring held by anyone but the owner
   * was supplied since the last departure.
   */
  predicate MemberInOrder(t: Tables, mk: MemberKey) {
    mk in t.members ==>
      && mk.space in t.spaces
      && (t.members[mk].role == Owner <==> Owns(t, mk.space, mk.user))
      && (Owns(t, mk.space, mk.user) || Vouched(t, mk))
      && (t.spaces[mk.space].shareHistory ==> t.members[mk].floor.None?)
      && (t.members[mk].ring.Some? && !Owns(t, mk.space, mk.user) ==>
            t.members[mk].ring.value.epoch == t.spaces[mk.space].departures)
  }

  /** An invite: only the owner invites, and a waiting ring is of the current epoch. */
  predicate InviteInOrder(t: Tables, i: InviteId) {
    i in t.invites ==>
      && Owns(t, t.invites[i].space, t.invites[i].inviter)
      && (t.invites[i].ring.Some? ==>
            t.invites[i].ring.value.epoch == t.spaces[t.invites[i].space].departures)
  }

  /** A space: its owner is a member. */
  predicate SpaceInOrder(t: Tables, space: SpaceId) {
    space in t.spaces ==> MemberKey(space, t.spaces[space].owner) in t.members
  }

  ghost predicate Orderly(t: Tables) {
    && (forall mk :: MemberInOrder(t, mk))
    && (forall i :: InviteInOrder(t, i))
    && (forall s :: SpaceInOrder(t, s))
  }

  // ── What vouches for a member goes on doing so ────────────────────────────

  /** An invite once accepted stays accepted, by the same person, into the same space. */
  ghost predicate AcceptedInvitesStay(t: Tables, t': Tables) {
    forall i :: i in t.invites && t.invites[i].status == Accepted ==>
      && i in t'.invites
      && t'.invites[i] == t.invites[i].(ring := t'.invites[i].ring)
  }

  lemma InvitesGoOnVouching(t: Tables, t': Tables, mk: MemberKey)
    requires AcceptedInvitesStay(t, t') && Vouched(t, mk)
    requires mk in t.requests && t.requests[mk].status == Approved ==> mk in t'.requests && t'.requests[mk].status == Approved
    ensures Vouched(t', mk)
  {
    if i :| i in t.invites && Brought(t.invites[i], mk) {
      assert i in t'.invites && Brought(t'.invites[i], mk);
    }
  }

  // ── Handing out keys ──────────────────────────────────────────────────────

  /** A handout changes rings alone, each to one supplied now, and the owner's only for the owner. */
  ghost predicate OnlyRings(
    members: map<MemberKey, Membership>, after: map<MemberKey, Membership>, space: SpaceId, s: Space, caller: UserId)
  {
    && after.Keys == members.Keys
    && forall mk :: mk in members ==>
      && after[mk] == members[mk].(ring := after[mk].ring, wrappedBy := after[mk].wrappedBy)
      && (after[mk] != members[mk] ==>
            && mk.space == space
            && after[mk].ring.Some? && after[mk].ring.value.epoch == s.departures
            && after[mk].wrappedBy == Some(caller)
            && (caller == s.owner || (mk.user != s.owner && members[mk].ring.None?)))
  }

  lemma {:induction false} HandoutsChangeOnlyRings(
    members: map<MemberKey, Membership>, space: SpaceId, s: Space, caller: UserId, rings: seq<Spaces.Keyring>)
    ensures OnlyRings(members, Spaces.HandedOut(members, space, s, caller, rings).members, space, s, caller)
  {
    if rings == [] {
    } else {
      HandoutsChangeOnlyRings(members, space, s, caller, rings[..|rings| - 1]);
    }
  }

  // ── One call ──────────────────────────────────────────────────────────────

  lemma CreatingKeepsOrder(t: Tables, user: UserId, space: SpaceId, shareHistory: bool, now: int)
    requires Orderly(t)
    ensures Orderly(Spaces.Created(t, user, space, shareHistory, now))
  {
    hide Vouched;
    var t' := Spaces.Created(t, user, space, shareHistory, now);
    forall mk
      ensures MemberInOrder(t', mk)
    {
      assert MemberInOrder(t, mk);
      if Vouched(t, mk) {
        InvitesGoOnVouching(t, t', mk);
      }
    }
    forall i
      ensures InviteInOrder(t', i)
    {
      assert InviteInOrder(t, i);
    }
    forall s
      ensures SpaceInOrder(t', s)
    {
      assert SpaceInOrder(t, s);
    }
  }

  lemma UpdatingKeepsOrder(t: Tables, space: SpaceId, user: UserId, history: Option<bool>, approve: Option<bool>)
    requires Orderly(t)
    ensures Orderly(Spaces.Updated(t, space, user, history, approve))
  {
    hide Vouched;
    var t' := Spaces.Updated(t, space, user, history, approve);
    forall mk
      ensures MemberInOrder(t', mk)
    {
      assert MemberInOrder(t, mk);
      if Vouched(t, mk) {
        InvitesGoOnVouching(t, t', mk);
      }
    }
    forall i
      ensures InviteInOrder(t', i)
    {
      assert InviteInOrder(t, i);
    }
    forall s
      ensures SpaceInOrder(t', s)
    {
      assert SpaceInOrder(t, s);
    }
  }

  /** Whoever leaves takes every ring of the space with them, on invites too. */
  lemma LeavingKeepsOrder(t: Tables, space: SpaceId, target: UserId, user: UserId, now: int)
    requires Orderly(t)
    ensures Orderly(Spaces.Left(t, space, target, user, now))
  {
    hide Vouched;
    var t' := Spaces.Left(t, space, target, user, now);
    if Spaces.Leaves(t, space, target, user) {
      forall mk
        ensures MemberInOrder(t', mk)
      {
        assert MemberInOrder(t, mk);
        if Vouched(t, mk) {
          InvitesGoOnVouching(t, t', mk);
        }
      }
      forall i
        ensures InviteInOrder(t', i)
      {
        assert InviteInOrder(t, i);
      }
      forall s
        ensures SpaceInOrder(t', s)
      {
        assert SpaceInOrder(t, s);
      }
    }
  }

  lemma HandoutKeepsMemberInOrder(t: Tables, t': Tables, space: SpaceId, caller: UserId, mk: MemberKey)
    requires MemberInOrder(t, mk) && space in t.spaces && t'.spaces.Keys == t.spaces.Keys
    requires OnlyRings(t.members, t'.members, space, t.spaces[space], caller)
    requires forall s :: s in t.spaces ==>
      t'.spaces[s] == t.spaces[s].(
        fingerprint := t'.spaces[s].fingerprint, rekeyRequestedAt := t'.spaces[s].rekeyRequestedAt)
    requires t'.requests == t.requests && t'.invites == t.invites
    ensures MemberInOrder(t', mk)
  {
    hide Vouched;
    if Vouched(t, mk) {
      InvitesGoOnVouching(t, t', mk);
    }
  }

  lemma DistributingKeepsOrder(
    t: Tables, space: SpaceId, caller: UserId, rings: seq<Spaces.Keyring>, fingerprint: Option<string>)
    requires Orderly(t)
    ensures Orderly(Spaces.Distributed(t, space, caller, rings, fingerprint))
  {
    hide MemberInOrder, OnlyRings, Spaces.HandedOut, Spaces.EveryoneHoldsARing;
    var t' := Spaces.Distributed(t, space, caller, rings, fingerprint);
    if Spaces.DistributeDenial(t, space, caller).None? {
      HandoutsChangeOnlyRings(t.members, space, t.spaces[space], caller, rings);
      forall mk
        ensures MemberInOrder(t', mk)
      {
        HandoutKeepsMemberInOrder(t, t', space, caller, mk);
      }
      HandoutKeepsTheRest(t, t', space, caller);
    }
  }

  lemma HandoutKeepsTheRest(t: Tables, t': Tables, space: SpaceId, caller: UserId)
    requires Orderly(t) && space in t.spaces && t'.spaces.Keys == t.spaces.Keys
    requires OnlyRings(t.members, t'.members, space, t.spaces[space], caller)
    requires forall s :: s in t.spaces ==>
      t'.spaces[s] == t.spaces[s].(
        fingerprint := t'.spaces[s].fingerprint, rekeyRequestedAt := t'.spaces[s].rekeyRequestedAt)
    requires t'.invites == t.invites
    ensures forall i :: InviteInOrder(t', i)
    ensures forall s :: SpaceInOrder(t', s)
  {
    hide MemberInOrder;
    forall i
      ensures InviteInOrder(t', i)
    {
      assert InviteInOrder(t, i);
    }
    forall s
      ensures SpaceInOrder(t', s)
    {
      assert SpaceInOrder(t, s);
    }
  }

  /** A request is reopened only for somebody who is no longer a member. */
  lemma KnockingKeepsOrder(t: Tables, user: UserId, found: Option<SpaceId>, now: int)
    requires Orderly(t)
    ensures Orderly(Door.Knocked(t, user, found, now))
  {
    hide Vouched, InviteInOrder, SpaceInOrder, Door.JoinDenial;
    var t' := Door.Knocked(t, user, found, now);
    assert AcceptedInvitesStay(t, t');
    forall mk
      ensures MemberInOrder(t', mk)
    {
      hide AcceptedInvitesStay, Owns;
      assert MemberInOrder(t, mk);
      if mk in t.members && Vouched(t, mk) {
        InvitesGoOnVouching(t, t', mk);
      }
    }
    DoorwayKeepsTheRest(t, t');
  }

  /** Calls that leave the spaces alone, drop no member and keep every invite in order. */
  lemma DoorwayKeepsTheRest(t: Tables, t': Tables)
    requires Orderly(t) && t'.spaces == t.spaces && t.members.Keys <= t'.members.Keys
    requires forall i :: i in t'.invites ==>
      InviteInOrder(t', i) || (i in t.invites && t'.invites[i] == t.invites[i])
    ensures forall i :: InviteInOrder(t', i)
    ensures forall s :: SpaceInOrder(t', s)
  {
    forall i
      ensures InviteInOrder(t', i)
    {
      assert InviteInOrder(t, i);
    }
    forall s
      ensures SpaceInOrder(t', s)
    {
      assert SpaceInOrder(t, s);
    }
  }

  /** A newcomer vouched for, with a ring of the current epoch or none, leaves every member in order. */
  lemma JoiningKeepsMemberInOrder(
    t: Tables, t': Tables, space: SpaceId, user: UserId, ring: Option<Ring>, wrappedBy: Option<UserId>,
    now: int, mk: MemberKey)
    requires MemberInOrder(t, mk) && SpaceInOrder(t, space) && space in t.spaces
    requires ring.Some? ==> ring.value.epoch == t.spaces[space].departures
    requires t'.members == Spaces.Joined(t, space, user, ring, wrappedBy, now).members && t'.spaces == t.spaces
    requires Vouched(t, mk) ==> Vouched(t', mk)
    requires Vouched(t', MemberKey(space, user))
    ensures MemberInOrder(t', mk)
  {
    hide Vouched;
    var joined := MemberKey(space, user);
    if mk == joined && joined !in t.members {
      assert mk.space == space && mk.user == user;
    } else {
      assert mk in t'.members ==> mk in t.members && t'.members[mk] == t.members[mk];
    }
  }

  ghost predicate ApprovalsStay(t: Tables, t': Tables) {
    forall mk :: mk in t.requests && t.requests[mk].status == Approved ==>
      mk in t'.requests && t'.requests[mk].status == Approved
  }

  lemma JoiningKeepsOrder(
    t: Tables, t': Tables, space: SpaceId, user: UserId, ring: Option<Ring>, wrappedBy: Option<UserId>, now: int)
    requires Orderly(t) && space in t.spaces
    requires ring.Some? ==> ring.value.epoch == t.spaces[space].departures
    requires t'.members == Spaces.Joined(t, space, user, ring, wrappedBy, now).members && t'.spaces == t.spaces
    requires AcceptedInvitesStay(t, t') && ApprovalsStay(t, t') && Vouched(t', MemberKey(space, user))
    requires forall i :: i in t'.invites ==>
      InviteInOrder(t', i) || (i in t.invites && t'.invites[i] == t.invites[i])
    ensures Orderly(t')
  {
    hide Vouched, MemberInOrder, InviteInOrder, SpaceInOrder, AcceptedInvitesStay;
    forall mk
      ensures MemberInOrder(t', mk)
    {
      if Vouched(t, mk) {
        InvitesGoOnVouching(t, t', mk);
      }
      JoiningKeepsMemberInOrder(t, t', space, user, ring, wrappedBy, now, mk);
    }
    DoorwayKeepsTheRest(t, t');
  }

  /** Whoever is let in is vouched for by the request. */
  lemma ApprovedMeansVouched(t: Tables, asked: MemberKey, caller: UserId, text: Option<string>, now: int)
    requires Door.AnswerDenial(t, asked, caller).None?
    ensures Vouched(Door.LetIn(t, asked, caller, text, now), asked)
  {
    hide Brought;
  }

  lemma ApprovingKeepsOrder(t: Tables, asked: MemberKey, caller: UserId, text: Option<string>, now: int)
    requires Orderly(t)
    ensures Orderly(Door.LetIn(t, asked, caller, text, now))
  {
    hide Orderly, Vouched, InviteInOrder, Spaces.MayApprove, Spaces.RoleOf;
    var t' := Door.LetIn(t, asked, caller, text, now);
    if Door.AnswerDenial(t, asked, caller).None? {
      var wrappedBy := if text.Some? && text.value != "" then Some(caller) else None;
      ApprovedMeansVouched(t, asked, caller, text, now);
      JoiningKeepsOrder(t, t', asked.space, asked.user, Door.Stamped(t, asked.space, text), wrappedBy, now);
    }
  }

  lemma DecliningKeepsOrder(t: Tables, asked: MemberKey, caller: UserId, now: int)
    requires Orderly(t)
    ensures Orderly(Door.Declined(t, asked, caller, now))
  {
    hide Vouched;
    var t' := Door.Declined(t, asked, caller, now);
    forall mk
      ensures MemberInOrder(t', mk)
    {
      assert MemberInOrder(t, mk);
      if Vouched(t, mk) {
        InvitesGoOnVouching(t, t', mk);
      }
    }
    DoorwayKeepsTheRest(t, t');
  }

  /** Whoever comes in by an invite is vouched for by it. */
  lemma AcceptedMeansVouched(t: Tables, i: InviteId, claims: Door.Claims, now: int)
    requires Door.AcceptDenial(t, i, claims, now).None?
    ensures Vouched(Door.Entered(t, i, claims, now), MemberKey(t.invites[i].space, claims.user))
  {
    var t' := Door.Entered(t, i, claims, now);
    assert i in t'.invites && Brought(t'.invites[i], MemberKey(t.invites[i].space, claims.user));
  }

  lemma AcceptingKeepsOrder(t: Tables, i: InviteId, claims: Door.Claims, now: int)
    requires Orderly(t)
    ensures Orderly(Door.Entered(t, i, claims, now))
  {
    hide Vouched, MemberInOrder, SpaceInOrder, Door.AddressedTo;
    var t' := Door.Entered(t, i, claims, now);
    if Door.AcceptDenial(t, i, claims, now).None? {
      var inv := t.invites[i];
      assert InviteInOrder(t, i) && InviteInOrder(t', i);
      AcceptedMeansVouched(t, i, claims, now);
      JoiningKeepsOrder(t, t', inv.space, claims.user, inv.ring, Some(inv.inviter), now);
    }
  }

  /** Calls that write one invite, and only a pending or a new one. */
  lemma InviteCallsKeepOrder(t: Tables, t': Tables, changed: InviteId)
    requires Orderly(t) && t' == t.(invites := t'.invites)
    requires forall i :: i != changed ==> (i in t.invites <==> i in t'.invites)
    requires forall i :: i != changed && i in t.invites ==> t'.invites[i] == t.invites[i]
    requires changed in t.invites ==>
      changed in t'.invites && (t.invites[changed].status == Pending || t'.invites == t.invites)
    requires InviteInOrder(t', changed)
    ensures Orderly(t')
  {
    hide Vouched;
    forall mk
      ensures MemberInOrder(t', mk)
    {
      assert MemberInOrder(t, mk);
      if Vouched(t, mk) {
        InvitesGoOnVouching(t, t', mk);
      }
    }
    DoorwayKeepsTheRest(t, t');
  }

  lemma InvitingKeepsOrder(
    t: Tables, space: SpaceId, user: UserId, email: string,
    invitee: Option<UserId>, pending: Option<InviteId>, newId: InviteId, now: int)
    requires Orderly(t)
    ensures Orderly(Door.Invited(t, space, user, email, invitee, pending, newId, now))
  {
    hide MemberInOrder, SpaceInOrder;
    var i := if pending.Some? then pending.value else newId;
    assert InviteInOrder(t, i);
    InviteCallsKeepOrder(t, Door.Invited(t, space, user, email, invitee, pending, newId, now), i);
  }

  lemma AttachingKeepsOrder(t: Tables, i: InviteId, user: UserId, text: string)
    requires Orderly(t)
    ensures Orderly(Door.Attached(t, i, user, text))
  {
    hide MemberInOrder, SpaceInOrder;
    assert InviteInOrder(t, i);
    InviteCallsKeepOrder(t, Door.Attached(t, i, user, text), i);
  }

  lemma RevokingKeepsOrder(t: Tables, i: InviteId, user: UserId)
    requires Orderly(t)
    ensures Orderly(Door.Withdrawn(t, i, user))
  {
    hide MemberInOrder, SpaceInOrder;
    assert InviteInOrder(t, i);
    InviteCallsKeepOrder(t, Door.Withdrawn(t, i, user), i);
  }

  lemma SpurningKeepsOrder(t: Tables, i: InviteId, claims: Door.Claims, now: int)
    requires Orderly(t)
    ensures Orderly(Door.Spurned(t, i, claims, now))
  {
    hide MemberInOrder, SpaceInOrder;
    assert InviteInOrder(t, i);
    InviteCallsKeepOrder(t, Door.Spurned(t, i, claims, now), i);
  }

  lemma DoorKeepsOrder(t: Tables, op: DoorOp, now: int)
    requires Orderly(t)
    ensures Orderly(ApplyDoor(t, op, now))
  {
    hide Orderly, Door.Knocked, Door.LetIn, Door.Declined, Door.Entered;
    match op
    case RequestJoin(user, found) => KnockingKeepsOrder(t, user, found, now);
    case ApproveJoin(mk, user, text) => ApprovingKeepsOrder(t, mk, user, text, now);
    case DeclineJoin(mk, user) => DecliningKeepsOrder(t, mk, user, now);
    case AcceptInvite(i, claims) => AcceptingKeepsOrder(t, i, claims, now);
    case CreateInvite(space, user, email, invitee, pending, newId) =>
      InvitingKeepsOrder(t, space, user, email, invitee, pending, newId, now);
    case AttachKey(i, user, text) => AttachingKeepsOrder(t, i, user, text);
    case RevokeInvite(i, user) => RevokingKeepsOrder(t, i, user);
    case DeclineInvite(i, claims) => SpurningKeepsOrder(t, i, claims, now);
  }

  lemma SpacesKeepOrder(t: Tables, op: SpaceOp, now: int)
    requires Orderly(t)
    ensures Orderly(ApplySpace(t, op, now))
  {
    hide Orderly, Spaces.Created, Spaces.Updated, Spaces.Left, Spaces.Distributed;
    match op
    case CreateSpace(user, space, shareHistory) => CreatingKeepsOrder(t, user, space, shareHistory, now);
    case UpdateSpace(space, user, history, approve) => UpdatingKeepsOrder(t, space, user, history, approve);
    case RemoveMember(space, target, user) => LeavingKeepsOrder(t, space, target, user, now);
    case DistributeKeys(space, user, rings, fp) => DistributingKeepsOrder(t, space, user, rings, fp);
  }

  lemma SameSpacesStayOrderly(t: Tables, t': Tables)
    requires Orderly(t)
    requires t'.spaces == t.spaces && t'.members == t.members && t'.requests == t.requests && t'.invites == t.invites
    ensures Orderly(t')
  {
    hide Vouched;
    forall mk
      ensures MemberInOrder(t', mk)
    {
      assert MemberInOrder(t, mk);
      if Vouched(t, mk) {
        InvitesGoOnVouching(t, t', mk);
      }
    }
    DoorwayKeepsTheRest(t, t');
  }

  lemma StepKeepsOrder(cfg: Config, t: Tables, ev: Event)
    requires Orderly(t)
    ensures Orderly(Apply(cfg, t, ev))
  {
    hide Orderly, ApplySync, ApplyBlob, ApplySpace, ApplyDoor;
    match ev.op
    case Sync(_) => SameSpacesStayOrderly(t, Apply(cfg, t, ev));
    case Storage(_) => SameSpacesStayOrderly(t, Apply(cfg, t, ev));
    case Social(op) => SpacesKeepOrder(t, op, ev.now);
    case AtDoor(op) => DoorKeepsOrder(t, op, ev.now);
  }

  /**
   * In every state a run reaches: the owner is a member and alone has that role;
   * every other member has an approved request or an accepted invite; shared
   * history means no floor; and every ring held by another member or waiting on
   * an invite was supplied since the last departure.
   */
  lemma {:induction false} RunKeepsOrder(cfg: Config, t: Tables, evs: seq<Event>)
    requires Orderly(t)
    ensures Orderly(Run(cfg, t, evs))
  {
    if evs == [] {
    } else {
      hide Orderly, Apply;
      RunKeepsOrder(cfg, t, evs[..|evs| - 1]);
      StepKeepsOrder(cfg, Run(cfg, t, evs[..|evs| - 1]), evs[|evs| - 1]);
    }
  }
}
