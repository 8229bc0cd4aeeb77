/** src/spaces/service.py: spaces, membership, history policy and key distribution. */
module Spaces {
  import opened Wrappers
  import opened Tables

  const INVITE_TTL_MS := 72 * 3600 * 1000

  datatype Denial =
    | NotFound | Forbidden | OwnerCannotLeave | IdTaken
    | AlreadyMember | OwnAddress | AlreadyDecided | Expired | Unverified

  // ── Creating and updating a space ─────────────────────────────────────────

  function OwnerDenial(t: Tables, space: SpaceId, user: UserId): Option<Denial> {
    if space !in t.spaces then Some(NotFound)
    else if t.spaces[space].owner != user then Some(Forbidden)
    else None
  }

  /** The approval rule: a role is needed, and a plain member's counts only if the space allows it. */
  predicate MayApprove(s: Space, role: Option<Role>) {
    role.Some? && (role == Some(Owner) || s.membersCanApprove)
  }

  function RoleOf(t: Tables, space: SpaceId, user: UserId): Option<Role> {
    var mk := MemberKey(space, user);
    if mk in t.members then Some(t.members[mk].role) else None
  }

  function Created(t: Tables, user: UserId, space: SpaceId, shareHistory: bool, now: int): Tables {
    if space in t.spaces then t
    else
      t.(spaces := t.spaces[space := Space(user, shareHistory, false, Some(now + INVITE_TTL_MS), None, None, 0)],
         members := t.members[MemberKey(space, user) := Membership(Owner, None, None, None, now)])
  }

  /** The owner's membership has no floor, whatever the policy for others. */
  method CreateSpace(db: Database, user: UserId, space: SpaceId, shareHistory: bool, now: int)
    returns (result: Result<SpaceId, Denial>)
    modifies db`spaces, db`members
    ensures db.View() == Created(old(db.View()), user, space, shareHistory, now)
    ensures result == if space in old(db.spaces) then Err(IdTaken) else Ok(space)
    ensures result.Err? ==> db.spaces == old(db.spaces) && db.members == old(db.members)
    ensures result.Ok? ==>
      && space in db.spaces && db.spaces == old(db.spaces)[space := db.spaces[space]]
      && var s := db.spaces[space];
      && Owns(db.View(), space, user) && s.shareHistory == shareHistory && !s.membersCanApprove
      && s.inviteExpiresAt == Some(now + INVITE_TTL_MS) && s.fingerprint.None? && s.rekeyRequestedAt.None?
    ensures result.Ok? ==>
      var mk := MemberKey(space, user);
      && mk in db.members && db.members == old(db.members)[mk := db.members[mk]]
      && db.members[mk].role == Owner && db.members[mk].joinedAt == now
      && db.members[mk].ring.None? && db.members[mk].wrappedBy.None? && db.members[mk].floor.None?
  {
    if space in db.spaces {
      return Err(IdTaken);
    }
    db.spaces := db.spaces[space := Space(user, shareHistory, false, Some(now + INVITE_TTL_MS), None, None, 0)];
    db.members := db.members[MemberKey(space, user) := Membership(Owner, None, None, None, now)];
    return Ok(space);
  }

  /** The members whose view of the space starts at a floor. */
  function Floored(t: Tables, space: SpaceId): set<MemberKey> {
    set mk | mk in t.members && mk.space == space && t.members[mk].floor.Some?
  }

  function Unfloored(members: map<MemberKey, Membership>, keys: set<MemberKey>): map<MemberKey, Membership>
    requires keys <= members.Keys
  {
    map mk | mk in members :: if mk in keys then members[mk].(floor := None) else members[mk]
  }

  function Updated(
    t: Tables, space: SpaceId, user: UserId,
    shareHistory: Option<bool>, membersCanApprove: Option<bool>): Tables
  {
    if OwnerDenial(t, space, user).Some? then t
    else
      var s := t.spaces[space];
      t.(spaces := t.spaces[space := s.(
           membersCanApprove := if membersCanApprove.Some? then membersCanApprove.value else s.membersCanApprove,
           shareHistory := if shareHistory.Some? then shareHistory.value else s.shareHistory)],
         members := if shareHistory == Some(true) then Unfloored(t.members, Floored(t, space)) else t.members)
  }

  /** The answer is whether a floor came off: only then is there older history to fetch. */
  method UpdateSpace(
    db: Database, space: SpaceId, user: UserId,
    shareHistory: Option<bool>, membersCanApprove: Option<bool>)
    returns (result: Result<bool, Denial>)
    modifies db`spaces, db`members
    ensures db.View() == Updated(old(db.View()), space, user, shareHistory, membersCanApprove)
    ensures result == match OwnerDenial(old(db.View()), space, user)
      case Some(denial) => Err(denial)
      case None => Ok(shareHistory == Some(true) && Floored(old(db.View()), space) != {})
    ensures result == Err(NotFound) <==> space !in old(db.spaces)
    ensures result == Err(Forbidden) <==> space in old(db.spaces) && old(db.spaces)[space].owner != user
    ensures result.Err? ==> result.error in {NotFound, Forbidden} && db.View() == old(db.View())
    ensures result.Ok? ==>
      && space in db.spaces && db.spaces == old(db.spaces)[space := db.spaces[space]]
      && var s, s' := old(db.spaces)[space], db.spaces[space];
      && s' == s.(membersCanApprove := s'.membersCanApprove, shareHistory := s'.shareHistory)
      && (if membersCanApprove == None then s'.membersCanApprove == s.membersCanApprove
          else Some(s'.membersCanApprove) == membersCanApprove)
      && (if shareHistory == None then s'.shareHistory == s.shareHistory else Some(s'.shareHistory) == shareHistory)
    ensures result.Ok? ==>
      && db.members.Keys == old(db.members).Keys
      && forall mk :: mk in db.members ==>
        db.members[mk] == if mk.space == space && shareHistory == Some(true)
                          then old(db.members)[mk].(floor := None) else old(db.members)[mk]
    ensures result.Ok? ==>
      result.value == (
        && shareHistory == Some(true)
        && exists mk :: mk in old(db.members) && mk.space == space && old(db.members)[mk].floor.Some?)
  {
    if space !in db.spaces {
      return Err(NotFound);
    }
    if db.spaces[space].owner != user {
      return Err(Forbidden);
    }
    var s := db.spaces[space];
    if membersCanApprove.Some? {
      s := s.(membersCanApprove := membersCanApprove.value);
    }
    if shareHistory.Some? {
      s := s.(shareHistory := shareHistory.value);
    }
    db.spaces := db.spaces[space := s];
    if shareHistory != Some(true) {
      return Ok(false);
    }
    var floored := Floored(db.View(), space);
    assert floored == Floored(old(db.View()), space);
    db.members := Unfloored(db.members, floored);
    return Ok(floored != {});
  }

  // ── Members come and go ───────────────────────────────────────────────────

  function Joined(
    t: Tables, space: SpaceId, user: UserId, ring: Option<Ring>, wrappedBy: Option<UserId>, now: int): Tables
    requires space in t.spaces
  {
    var mk := MemberKey(space, user);
    if mk in t.members then t
    else
      var floor := if t.spaces[space].shareHistory then None else Some(now);
      t.(members := t.members[mk := Membership(Member, ring, wrappedBy, floor, now)])
  }

  /** Joining twice changes nothing; a newcomer's floor follows the policy at that moment. */
  method AddMembership(
    db: Database, space: SpaceId, user: UserId, ring: Option<Ring>, wrappedBy: Option<UserId>, now: int)
    requires space in db.spaces
    modifies db`members
    ensures db.View() == Joined(old(db.View()), space, user, ring, wrappedBy, now)
    ensures var mk := MemberKey(space, user);
      && mk in db.members && db.members == old(db.members)[mk := db.members[mk]]
      && (mk in old(db.members) ==> db.members[mk] == old(db.members)[mk])
      && (mk !in old(db.members) ==>
            && db.members[mk].role == Member && db.members[mk].joinedAt == now
            && db.members[mk].ring == ring && db.members[mk].wrappedBy == wrappedBy
            && (db.members[mk].floor.None? <==> db.spaces[space].shareHistory)
            && (db.members[mk].floor.Some? ==> db.members[mk].floor.value == now))
  {
    var mk := MemberKey(space, user);
    if mk in db.members {
      return;
    }
    db.members := db.members[mk := Membership(
      Member, ring, wrappedBy, if db.spaces[space].shareHistory then None else Some(now), now)];
  }

  function LeaveDenial(t: Tables, space: SpaceId, target: UserId, user: UserId): Option<Denial> {
    if space !in t.spaces then Some(NotFound)
    else if t.spaces[space].owner != user && target != user then Some(Forbidden)
    else if target == t.spaces[space].owner then Some(OwnerCannotLeave)
    else None
  }

  predicate Leaves(t: Tables, space: SpaceId, target: UserId, user: UserId) {
    LeaveDenial(t, space, target, user).None? && MemberKey(space, target) in t.members
  }

  function Keyless(m: Membership): Membership {
    m.(ring := None, wrappedBy := None)
  }

  /** Everyone in the space but its owner. */
  function Others(members: map<MemberKey, Membership>, space: SpaceId, owner: UserId): set<MemberKey> {
    set mk | mk in members && mk.space == space && mk.user != owner
  }

  function WithoutRings(members: map<MemberKey, Membership>, keys: set<MemberKey>): map<MemberKey, Membership>
    requires keys <= members.Keys
  {
    map mk | mk in members :: if mk in keys then Keyless(members[mk]) else members[mk]
  }

  function KeyedInvites(invites: map<InviteId, Invite>, space: SpaceId): set<InviteId> {
    set i | i in invites && invites[i].space == space && invites[i].ring.Some?
  }

  function WithoutInviteRings(invites: map<InviteId, Invite>, keys: set<InviteId>): map<InviteId, Invite>
    requires keys <= invites.Keys
  {
    map i | i in invites :: if i in keys then invites[i].(ring := None) else invites[i]
  }

  function Left(t: Tables, space: SpaceId, target: UserId, user: UserId, now: int): Tables {
    if !Leaves(t, space, target, user) then t
    else
      var s := t.spaces[space];
      var staying := t.members - {MemberKey(space, target)};
      t.(members := WithoutRings(staying, Others(staying, space, s.owner)),
         spaces := t.spaces[space := s.(rekeyRequestedAt := Some(now), departures := s.departures + 1)],
         invites := WithoutInviteRings(t.invites, KeyedInvites(t.invites, space)))
  }

  method ClearRings(db: Database, keys: set<MemberKey>)
    requires keys <= db.members.Keys
    modifies db`members
    ensures db.members == WithoutRings(old(db.members), keys)
  {
    ghost var before := db.members;
    var rest := keys;
    while rest != {}
      invariant rest <= keys <= db.members.Keys
      invariant db.members == WithoutRings(before, keys - rest)
      decreases rest
    {
      var mk :| mk in rest;
      db.members := db.members[mk := db.members[mk].(ring := None, wrappedBy := None)];
      rest := rest - {mk};
    }
    assert keys - rest == keys;
  }

  method ClearInviteRings(db: Database, keys: set<InviteId>)
    requires keys <= db.invites.Keys
    modifies db`invites
    ensures db.invites == WithoutInviteRings(old(db.invites), keys)
  {
    ghost var before := db.invites;
    var rest := keys;
    while rest != {}
      invariant rest <= keys <= db.invites.Keys
      invariant db.invites == WithoutInviteRings(before, keys - rest)
      decreases rest
    {
      var i :| i in rest;
      db.invites := db.invites[i := db.invites[i].(ring := None)];
      rest := rest - {i};
    }
    assert keys - rest == keys;
  }

  /**
   * One departure, row by row: the member goes; every other member of the space but
   * its owner loses their ring, every invite into it the ring it carries; the space
   * asks for a rekey. Nothing else changes.
   */
  ghost predicate DepartureRows(t: Tables, t': Tables, space: SpaceId, target: UserId, now: int) {
    && t' == t.(members := t'.members, spaces := t'.spaces, invites := t'.invites)
    && space in t.spaces
    && var s := t.spaces[space];
    && t'.spaces == t.spaces[space := s.(rekeyRequestedAt := Some(now), departures := s.departures + 1)]
    && MemberKey(space, target) in t.members
    && t'.members.Keys == t.members.Keys - {MemberKey(space, target)}
    && (forall mk :: mk in t'.members ==>
          t'.members[mk] == if mk.space == space && mk.user != s.owner
                            then t.members[mk].(ring := None, wrappedBy := None) else t.members[mk])
    && t'.invites.Keys == t.invites.Keys
    && (forall i :: i in t'.invites ==>
          t'.invites[i] == if t.invites[i].space == space then t.invites[i].(ring := None) else t.invites[i])
  }

  lemma LeavingRows(t: Tables, space: SpaceId, target: UserId, user: UserId, now: int)
    requires Leaves(t, space, target, user)
    ensures DepartureRows(t, Left(t, space, target, user, now), space, target, now)
  {
    assert space in t.spaces;
    hide LeaveDenial, Leaves;
  }

  /** Answers false when there was no such member. */
  method RemoveMember(db: Database, space: SpaceId, target: UserId, user: UserId, now: int)
    returns (result: Result<bool, Denial>)
    modifies db`members, db`spaces, db`invites
    ensures db.View() == Left(old(db.View()), space, target, user, now)
    ensures result == match LeaveDenial(old(db.View()), space, target, user)
      case Some(denial) => Err(denial)
      case None => Ok(MemberKey(space, target) in old(db.members))
    ensures result == Err(NotFound) <==> space !in old(db.spaces)
    ensures result == Err(Forbidden) <==>
      space in old(db.spaces) && user != target && user != old(db.spaces)[space].owner
    ensures result == Err(OwnerCannotLeave) <==>
      space in old(db.spaces) && target == old(db.spaces)[space].owner && user == target
    ensures result.Err? ==> result.error in {NotFound, Forbidden, OwnerCannotLeave}
    ensures result != Ok(true) ==> db.View() == old(db.View())
    ensures result.Ok? ==> (result.value <==> MemberKey(space, target) in old(db.members))
    ensures result == Ok(true) ==> DepartureRows(old(db.View()), db.View(), space, target, now)
  {
    if space !in db.spaces {
      return Err(NotFound);
    }
    var s := db.spaces[space];
    if s.owner != user && target != user {
      return Err(Forbidden);
    }
    if target == s.owner {
      return Err(OwnerCannotLeave);
    }
    if MemberKey(space, target) !in db.members {
      return Ok(false);
    }
    ghost var t := db.View();
    LeavingRows(t, space, target, user, now);
    hide DepartureRows, WithoutRings, WithoutInviteRings;
    db.members := db.members - {MemberKey(space, target)};
    ClearRings(db, Others(db.members, space, s.owner));
    db.spaces := db.spaces[space := s.(rekeyRequestedAt := Some(now), departures := s.departures + 1)];
    ClearInviteRings(db, KeyedInvites(db.invites, space));
    assert db.View() == Left(t, space, target, user, now);
    return Ok(true);
  }

  // ── Keys ──────────────────────────────────────────────────────────────────

  datatype Keyring = Keyring(user: UserId, text: string)

  /** The write rule of a handout: anyone's ring for the owner, an absent ring of a non-owner for others. */
  predicate MayWrite(members: map<MemberKey, Membership>, space: SpaceId, owner: UserId, caller: UserId, target: UserId) {
    var mk := MemberKey(space, target);
    && mk in members
    && (caller == owner || (target != owner && members[mk].ring.None?))
  }

  datatype Handout = Handout(members: map<MemberKey, Membership>, written: seq<UserId>)

  /** The keyrings handed out one after the other. */
  function HandedOut(
    members: map<MemberKey, Membership>, space: SpaceId, s: Space, caller: UserId, rings: seq<Keyring>): Handout
  {
    if rings == [] then Handout(members, [])
    else
      var h := HandedOut(members, space, s, caller, rings[..|rings| - 1]);
      var r := rings[|rings| - 1];
      if !MayWrite(h.members, space, s.owner, caller, r.user) then h
      else
        var mk := MemberKey(space, r.user);
        Handout(
          h.members[mk := h.members[mk].(ring := Some(Ring(r.text, s.departures)), wrappedBy := Some(caller))],
          h.written + [r.user])
  }

  predicate EveryoneHoldsARing(members: map<MemberKey, Membership>, space: SpaceId) {
    forall mk :: mk in members && mk.space == space ==> members[mk].ring.Some?
  }

  function DistributeDenial(t: Tables, space: SpaceId, caller: UserId): Option<Denial> {
    if space !in t.spaces then Some(NotFound)
    else if MemberKey(space, caller) !in t.members then Some(Forbidden)
    else None
  }

  function Distributed(
    t: Tables, space: SpaceId, caller: UserId, rings: seq<Keyring>, fingerprint: Option<string>): Tables
  {
    if DistributeDenial(t, space, caller).Some? then t
    else
      var s := t.spaces[space];
      var h := HandedOut(t.members, space, s, caller, rings);
      var isOwner := s.owner == caller;
      t.(members := h.members,
         spaces := t.spaces[space := s.(
           fingerprint := if isOwner && fingerprint.Some? && fingerprint.value != "" then fingerprint else s.fingerprint,
           rekeyRequestedAt :=
             if isOwner && EveryoneHoldsARing(h.members, space) then None else s.rekeyRequestedAt)])
  }

  method HandOut(db: Database, space: SpaceId, s: Space, caller: UserId, rings: seq<Keyring>)
    returns (written: seq<UserId>)
    modifies db`members
    ensures Handout(db.members, written) == HandedOut(old(db.members), space, s, caller, rings)
  {
    ghost var before := db.members;
    written := [];
    var i := 0;
    while i < |rings|
      invariant 0 <= i <= |rings|
      invariant HandedOut(before, space, s, caller, rings[..i]) == Handout(db.members, written)
    {
      var r := rings[i];
      var mk := MemberKey(space, r.user);
      assert rings[..i + 1][..i] == rings[..i];
      if mk in db.members && (s.owner == caller || !(r.user == s.owner || db.members[mk].ring.Some?)) {
        db.members := db.members[mk := db.members[mk].(
          ring := Some(Ring(r.text, s.departures)), wrappedBy := Some(caller))];
        written := written + [r.user];
      }
      i := i + 1;
    }
    assert rings[..i] == rings;
  }

  predicate Offers(rings: seq<Keyring>, u: UserId) {
    exists i :: 0 <= i < |rings| && rings[i].user == u
  }

  /** Keyring `i` is the last of the list for its member. */
  predicate LastFor(rings: seq<Keyring>, i: nat)
    requires i < |rings|
  {
    forall j :: i < j < |rings| ==> rings[j].user != rings[i].user
  }

  predicate FirstFor(rings: seq<Keyring>, i: nat)
    requires i < |rings|
  {
    forall j :: 0 <= j < i ==> rings[j].user != rings[i].user
  }

  /** The row is one the caller may supply: anyone's for the owner, a gap that is not the owner's for others. */
  predicate OpenTo(
    before: map<MemberKey, Membership>, mk: MemberKey, space: SpaceId, owner: UserId, caller: UserId)
  {
    mk in before && mk.space == space && (caller == owner || (mk.user != owner && before[mk].ring.None?))
  }

  /**
   * What a handout leaves in one row. Of the rings offered for a member, the owner's
   * last one stands, since each overwrites the one before; a member's first one
   * does, since it fills the gap.
   */
  ghost predicate Supplied(
    before: map<MemberKey, Membership>, after: map<MemberKey, Membership>, mk: MemberKey,
    space: SpaceId, owner: UserId, epoch: nat, caller: UserId, rings: seq<Keyring>)
    requires mk in before && mk in after
  {
    if OpenTo(before, mk, space, owner, caller) && Offers(rings, mk.user) then
      exists i :: 0 <= i < |rings| && rings[i].user == mk.user
        && (if caller == owner then LastFor(rings, i) else FirstFor(rings, i))
        && after[mk] == before[mk].(ring := Some(Ring(rings[i].text, epoch)), wrappedBy := Some(caller))
    else after[mk] == before[mk]
  }

  lemma OneMoreOffer(rings: seq<Keyring>, u: UserId)
    requires rings != []
    ensures Offers(rings, u) <==> Offers(rings[..|rings| - 1], u) || rings[|rings| - 1].user == u
  {
    if Offers(rings[..|rings| - 1], u) {
      var i :| 0 <= i < |rings| - 1 && rings[..|rings| - 1][i].user == u;
      assert rings[i].user == u;
    }
  }

  /** A row the next ring does not touch stays supplied as it was. */
  lemma KeepsSupplied(
    before: map<MemberKey, Membership>, earlier: map<MemberKey, Membership>, after: map<MemberKey, Membership>,
    mk: MemberKey, space: SpaceId, owner: UserId, epoch: nat, caller: UserId, rings: seq<Keyring>)
    requires rings != [] && mk in before && mk in earlier && mk in after && after[mk] == earlier[mk]
    requires Supplied(before, earlier, mk, space, owner, epoch, caller, rings[..|rings| - 1])
    requires OpenTo(before, mk, space, owner, caller) && rings[|rings| - 1].user == mk.user ==>
      caller != owner && Offers(rings[..|rings| - 1], mk.user)
    ensures Supplied(before, after, mk, space, owner, epoch, caller, rings)
  {
    hide LastFor, FirstFor;
    var n := |rings| - 1;
    OneMoreOffer(rings, mk.user);
    if OpenTo(before, mk, space, owner, caller) && Offers(rings[..n], mk.user) {
      hide OpenTo, Offers;
      var i :| 0 <= i < n && rings[..n][i].user == mk.user
        && (if caller == owner then LastFor(rings[..n], i) else FirstFor(rings[..n], i))
        && earlier[mk] == before[mk].(ring := Some(Ring(rings[..n][i].text, epoch)), wrappedBy := Some(caller));
      OneMoreBehind(rings, i);
      assert rings[i].user == mk.user;
    }
  }

  lemma OneMoreBehind(rings: seq<Keyring>, i: nat)
    requires i < |rings| - 1
    ensures rings[..|rings| - 1][i] == rings[i]
    ensures LastFor(rings[..|rings| - 1], i) && rings[|rings| - 1].user != rings[i].user ==> LastFor(rings, i)
    ensures FirstFor(rings[..|rings| - 1], i) ==> FirstFor(rings, i)
  {
    var n := |rings| - 1;
    if LastFor(rings[..n], i) && rings[n].user != rings[i].user {
      forall j | i < j < |rings|
        ensures rings[j].user != rings[i].user
      {
        assert j < n ==> rings[..n][j] == rings[j];
      }
    }
    if FirstFor(rings[..n], i) {
      forall j | 0 <= j < i
        ensures rings[j].user != rings[i].user
      {
        assert rings[..n][j] == rings[j];
      }
    }
  }

  /** A row the next ring is written to is supplied by it. */
  lemma WritesSupplied(
    before: map<MemberKey, Membership>, after: map<MemberKey, Membership>,
    mk: MemberKey, space: SpaceId, owner: UserId, epoch: nat, caller: UserId, rings: seq<Keyring>)
    requires rings != [] && mk in before && mk in after && rings[|rings| - 1].user == mk.user
    requires OpenTo(before, mk, space, owner, caller)
    requires caller == owner || !Offers(rings[..|rings| - 1], mk.user)
    requires after[mk] ==
      before[mk].(ring := Some(Ring(rings[|rings| - 1].text, epoch)), wrappedBy := Some(caller))
    ensures Supplied(before, after, mk, space, owner, epoch, caller, rings)
  {
    var n := |rings| - 1;
    assert forall i :: 0 <= i < n ==> rings[..n][i] == rings[i];
    assert caller != owner ==> FirstFor(rings, n);
    assert LastFor(rings, n) && rings[n].user == mk.user;
  }

  lemma OneMoreRing(
    before: map<MemberKey, Membership>, earlier: map<MemberKey, Membership>, after: map<MemberKey, Membership>,
    mk: MemberKey, space: SpaceId, s: Space, caller: UserId, rings: seq<Keyring>)
    requires rings != [] && mk in before && mk in earlier && after.Keys == earlier.Keys
    requires Supplied(before, earlier, mk, space, s.owner, s.departures, caller, rings[..|rings| - 1])
    requires var r := rings[|rings| - 1];
      var at := MemberKey(space, r.user);
      after == if MayWrite(earlier, space, s.owner, caller, r.user)
               then earlier[at := earlier[at].(ring := Some(Ring(r.text, s.departures)), wrappedBy := Some(caller))]
               else earlier
    ensures Supplied(before, after, mk, space, s.owner, s.departures, caller, rings)
  {
    var n := |rings| - 1;
    var written := rings[n].user == mk.user && OpenTo(before, mk, space, s.owner, caller)
      && (caller == s.owner || !Offers(rings[..n], mk.user));
    var supplied := before[mk].(ring := Some(Ring(rings[n].text, s.departures)), wrappedBy := Some(caller));
    assert written ==> after[mk] == supplied;
    assert !written ==> after[mk] == earlier[mk];
    hide Supplied, OpenTo, Offers;
    if written {
      WritesSupplied(before, after, mk, space, s.owner, s.departures, caller, rings);
    } else {
      KeepsSupplied(before, earlier, after, mk, space, s.owner, s.departures, caller, rings);
    }
  }

  lemma {:induction false} HandoutsSupply(
    before: map<MemberKey, Membership>, space: SpaceId, s: Space, caller: UserId, rings: seq<Keyring>)
    ensures HandedOut(before, space, s, caller, rings).members.Keys == before.Keys
    ensures forall mk :: mk in before ==> Supplied(
      before, HandedOut(before, space, s, caller, rings).members, mk, space, s.owner, s.departures, caller, rings)
  {
    if rings == [] {
    } else {
      hide Supplied;
      var n := |rings| - 1;
      HandoutsSupply(before, space, s, caller, rings[..n]);
      var earlier := HandedOut(before, space, s, caller, rings[..n]);
      var after := HandedOut(before, space, s, caller, rings);
      forall mk | mk in before
        ensures Supplied(before, after.members, mk, space, s.owner, s.departures, caller, rings)
      {
        OneMoreRing(before, earlier.members, after.members, mk, space, s, caller, rings);
      }
    }
  }

  /** The answer names exactly the members whose row was open and who were offered a ring. */
  lemma {:induction false} HandoutsReport(
    before: map<MemberKey, Membership>, space: SpaceId, s: Space, caller: UserId, rings: seq<Keyring>, u: UserId)
    ensures u in HandedOut(before, space, s, caller, rings).written <==>
      OpenTo(before, MemberKey(space, u), space, s.owner, caller) && Offers(rings, u)
  {
    if rings == [] {
    } else {
      var n := |rings| - 1;
      var at := MemberKey(space, u);
      HandoutsReport(before, space, s, caller, rings[..n], u);
      HandoutsSupply(before, space, s, caller, rings[..n]);
      OneMoreOffer(rings, u);
      if rings[n].user == u && at in before {
        var earlier := HandedOut(before, space, s, caller, rings[..n]);
        assert Supplied(before, earlier.members, at, space, s.owner, s.departures, caller, rings[..n]);
      }
    }
  }

  /** One distribution, row by row, with the answer `written`. The fingerprint and the end of a rekey are the owner's alone. */
  ghost predicate DistributionRows(
    t: Tables, t': Tables, space: SpaceId, caller: UserId, rings: seq<Keyring>, fingerprint: Option<string>,
    written: seq<UserId>)
  {
    && t' == t.(members := t'.members, spaces := t'.spaces)
    && space in t.spaces && space in t'.spaces && t'.spaces == t.spaces[space := t'.spaces[space]]
    && var s, s' := t.spaces[space], t'.spaces[space];
    && t'.members.Keys == t.members.Keys
    && (forall mk :: mk in t.members ==>
          Supplied(t.members, t'.members, mk, space, s.owner, s.departures, caller, rings))
    && (forall u :: u in written <==>
          OpenTo(t.members, MemberKey(space, u), space, s.owner, caller) && Offers(rings, u))
    && s' == s.(fingerprint := s'.fingerprint, rekeyRequestedAt := s'.rekeyRequestedAt)
    && (s'.fingerprint == if caller == s.owner && fingerprint.Some? && fingerprint.value != ""
                          then fingerprint else s.fingerprint)
    && (s'.rekeyRequestedAt ==
          if caller == s.owner && forall mk :: mk in t'.members && mk.space == space ==> t'.members[mk].ring.Some?
          then None else s.rekeyRequestedAt)
  }

  lemma DistributingRows(
    t: Tables, space: SpaceId, caller: UserId, rings: seq<Keyring>, fingerprint: Option<string>)
    requires DistributeDenial(t, space, caller).None?
    ensures DistributionRows(
      t, Distributed(t, space, caller, rings, fingerprint), space, caller, rings, fingerprint,
      HandedOut(t.members, space, t.spaces[space], caller, rings).written)
  {
    hide HandedOut, Supplied, OpenTo, Offers;
    HandoutsSupply(t.members, space, t.spaces[space], caller, rings);
    forall u
      ensures u in HandedOut(t.members, space, t.spaces[space], caller, rings).written <==>
        OpenTo(t.members, MemberKey(space, u), space, t.spaces[space].owner, caller) && Offers(rings, u)
    {
      HandoutsReport(t.members, space, t.spaces[space], caller, rings, u);
    }
  }

  method DistributeKeys(
    db: Database, space: SpaceId, caller: UserId, rings: seq<Keyring>, fingerprint: Option<string>)
    returns (result: Result<seq<UserId>, Denial>)
    modifies db`members, db`spaces
    ensures db.View() == Distributed(old(db.View()), space, caller, rings, fingerprint)
    ensures result == match DistributeDenial(old(db.View()), space, caller)
      case Some(denial) => Err(denial)
      case None => Ok(HandedOut(old(db.members), space, old(db.spaces)[space], caller, rings).written)
    ensures result == Err(NotFound) <==> space !in old(db.spaces)
    ensures result == Err(Forbidden) <==> space in old(db.spaces) && MemberKey(space, caller) !in old(db.members)
    ensures result.Err? ==> result.error in {NotFound, Forbidden} && db.View() == old(db.View())
    ensures result.Ok? ==> DistributionRows(old(db.View()), db.View(), space, caller, rings, fingerprint, result.value)
  {
    if space !in db.spaces {
      return Err(NotFound);
    }
    if MemberKey(space, caller) !in db.members {
      return Err(Forbidden);
    }
    var s := db.spaces[space];
    var isOwner := s.owner == caller;
    DistributingRows(db.View(), space, caller, rings, fingerprint);
    hide HandedOut, DistributionRows;
    var written := HandOut(db, space, s, caller, rings);
    if isOwner && fingerprint.Some? && fingerprint.value != "" {
      s := s.(fingerprint := fingerprint);
    }
    if isOwner && s.rekeyRequestedAt.Some? && EveryoneHoldsARing(db.members, space) {
      s := s.(rekeyRequestedAt := None);
    }
    db.spaces := db.spaces[space := s];
    return Ok(written);
  }
}
