/** src/spaces/join_requests.py and src/spaces/invites.py: the two ways into a space. */
module Door {
  import opened Wrappers
  import opened Tables
  import opened Spaces

  // ── Join requests ─────────────────────────────────────────────────────────

  /** `found` is the space the normalised invite code names, if there is one. */
  function JoinDenial(t: Tables, found: Option<SpaceId>, now: int): Option<Denial> {
    if found.None? || found.value !in t.spaces then Some(NotFound)
    else
      var expiry := t.spaces[found.value].inviteExpiresAt;
      if expiry.Some? && expiry.value != 0 && expiry.value < now then Some(Expired) else None
  }

  datatype Knock = AlreadyIn | Waiting | Refused

  function KnockAt(t: Tables, mk: MemberKey): Knock {
    if mk in t.members then AlreadyIn
    else if mk in t.requests && t.requests[mk].status == TurnedDown then Refused
    else Waiting
  }

  /** A new pending row, or the spent row of a member who has left since, reopened. */
  function Knocked(t: Tables, user: UserId, found: Option<SpaceId>, now: int): Tables {
    if JoinDenial(t, found, now).Some? then t
    else
      var mk := MemberKey(found.value, user);
      if KnockAt(t, mk) != Waiting || (mk in t.requests && t.requests[mk].status == AwaitingAnswer) then t
      else t.(requests := t.requests[mk := JoinRequest(AwaitingAnswer, now, None, None)])
  }

  method RequestJoin(db: Database, user: UserId, found: Option<SpaceId>, now: int)
    returns (result: Result<Knock, Denial>)
    modifies db`requests
    ensures db.View() == Knocked(old(db.View()), user, found, now)
    ensures result == match JoinDenial(old(db.View()), found, now)
      case Some(denial) => Err(denial)
      case None => Ok(KnockAt(old(db.View()), MemberKey(found.value, user)))
    ensures result == Err(NotFound) <==> found.None? || found.value !in db.spaces
    ensures result == Err(Expired) <==>
      && found.Some? && found.value in db.spaces
      && var expiry := db.spaces[found.value].inviteExpiresAt;
      expiry.Some? && expiry.value != 0 && expiry.value < now
    ensures result.Err? ==> result.error in {NotFound, Expired}
    ensures result.Ok? ==>
      var mk := MemberKey(found.value, user);
      && (result.value == AlreadyIn <==> mk in db.members)
      && (result.value == Refused <==>
            mk !in db.members && mk in old(db.requests) && old(db.requests)[mk].status == TurnedDown)
      && (result.value == Waiting ==>
            && mk in db.requests && db.requests == old(db.requests)[mk := db.requests[mk]]
            && db.requests[mk] == if mk in old(db.requests) && old(db.requests)[mk].status == AwaitingAnswer
                                  then old(db.requests)[mk] else JoinRequest(AwaitingAnswer, now, None, None))
    ensures result != Ok(Waiting) ==> db.requests == old(db.requests)
  {
    if found.None? || found.value !in db.spaces {
      return Err(NotFound);
    }
    var expiry := db.spaces[found.value].inviteExpiresAt;
    if expiry.Some? && expiry.value != 0 && expiry.value < now {
      return Err(Expired);
    }
    var mk := MemberKey(found.value, user);
    if mk in db.members {
      return Ok(AlreadyIn);
    }
    if mk in db.requests {
      match db.requests[mk].status {
        case AwaitingAnswer => return Ok(Waiting);
        case TurnedDown => return Ok(Refused);
        case Approved =>
          db.requests := db.requests[mk := db.requests[mk].(
            status := AwaitingAnswer, decidedAt := None, decidedBy := None, createdAt := now)];
          return Ok(Waiting);
      }
    }
    db.requests := db.requests[mk := JoinRequest(AwaitingAnswer, now, None, None)];
    return Ok(Waiting);
  }

  function AnswerDenial(t: Tables, mk: MemberKey, caller: UserId): Option<Denial> {
    if mk.space !in t.spaces then Some(NotFound)
    else if !MayApprove(t.spaces[mk.space], RoleOf(t, mk.space, caller)) then Some(Forbidden)
    else if mk !in t.requests then Some(NotFound)
    else if t.requests[mk].status != AwaitingAnswer then Some(AlreadyDecided)
    else None
  }

  function Decided(t: Tables, mk: MemberKey, status: RequestStatus, caller: UserId, now: int): Tables
    requires mk in t.requests
  {
    t.(requests := t.requests[mk := t.requests[mk].(
      status := status, decidedAt := Some(now), decidedBy := Some(caller))])
  }

  /** The ring a client hands in, marked with the epoch it arrived in. */
  function Stamped(t: Tables, space: SpaceId, text: Option<string>): Option<Ring>
    requires space in t.spaces
  {
    match text
    case None => None
    case Some(ring) => Some(Ring(ring, t.spaces[space].departures))
  }

  function LetIn(t: Tables, mk: MemberKey, caller: UserId, text: Option<string>, now: int): Tables {
    if AnswerDenial(t, mk, caller).Some? then t
    else
      var wrappedBy := if text.Some? && text.value != "" then Some(caller) else None;
      Decided(Joined(t, mk.space, mk.user, Stamped(t, mk.space, text), wrappedBy, now), mk, Approved, caller, now)
  }

  function Declined(t: Tables, mk: MemberKey, caller: UserId, now: int): Tables {
    if AnswerDenial(t, mk, caller).Some? then t else Decided(t, mk, TurnedDown, caller, now)
  }

  /** The caller is a member whom the space lets answer, and the request still waits. */
  predicate MayAnswer(t: Tables, mk: MemberKey, caller: UserId) {
    var asMember := MemberKey(mk.space, caller);
    && mk.space in t.spaces && asMember in t.members
    && (t.members[asMember].role == Owner || t.spaces[mk.space].membersCanApprove)
    && mk in t.requests && t.requests[mk].status == AwaitingAnswer
  }

  /** Each denial for its own reason: no such space or request, a caller who may not answer, a request already answered. */
  predicate DeniedAsItShould(t: Tables, mk: MemberKey, caller: UserId, denial: Option<Denial>) {
    var asMember := MemberKey(mk.space, caller);
    var approver := mk.space in t.spaces && asMember in t.members
      && (t.members[asMember].role == Owner || t.spaces[mk.space].membersCanApprove);
    && (denial == Some(NotFound) <==> mk.space !in t.spaces || (approver && mk !in t.requests))
    && (denial == Some(Forbidden) <==> mk.space in t.spaces && !approver)
    && (denial == Some(AlreadyDecided) <==>
          approver && mk in t.requests && t.requests[mk].status != AwaitingAnswer)
  }

  /**
   * Goes through exactly for those who may answer. The request is closed in the
   * caller's name; a requester who is no member yet becomes one, holding the ring
   * sent along; no other row changes.
   */
  method Approve(db: Database, mk: MemberKey, caller: UserId, text: Option<string>, now: int)
    returns (denial: Option<Denial>)
    modifies db`members, db`requests
    ensures denial == AnswerDenial(old(db.View()), mk, caller)
    ensures db.View() == LetIn(old(db.View()), mk, caller, text, now)
    ensures denial.None? <==> MayAnswer(old(db.View()), mk, caller)
    ensures DeniedAsItShould(old(db.View()), mk, caller, denial)
    ensures denial.Some? ==> db.members == old(db.members) && db.requests == old(db.requests)
    ensures denial.None? ==>
      && mk in db.requests && db.requests == old(db.requests)[mk := db.requests[mk]]
      && db.requests[mk] == JoinRequest(Approved, old(db.requests)[mk].createdAt, Some(now), Some(caller))
      && mk in db.members && db.members == old(db.members)[mk := db.members[mk]]
      && (mk in old(db.members) ==> db.members[mk] == old(db.members)[mk])
      && (mk !in old(db.members) ==>
            && db.members[mk].role == Member && db.members[mk].joinedAt == now
            && (db.members[mk].floor == if db.spaces[mk.space].shareHistory then None else Some(now))
            && (db.members[mk].ring.None? <==> text.None?)
            && (text.Some? ==> db.members[mk].ring.value.text == text.value)
            && (db.members[mk].wrappedBy == if text.Some? && text.value != "" then Some(caller) else None))
  {
    if mk.space !in db.spaces {
      return Some(NotFound);
    }
    var asMember := MemberKey(mk.space, caller);
    if asMember !in db.members {
      return Some(Forbidden);
    }
    if db.members[asMember].role != Owner && !db.spaces[mk.space].membersCanApprove {
      return Some(Forbidden);
    }
    if mk !in db.requests {
      return Some(NotFound);
    }
    if db.requests[mk].status != AwaitingAnswer {
      return Some(AlreadyDecided);
    }
    var ring := if text.Some? then Some(Ring(text.value, db.spaces[mk.space].departures)) else None;
    var wrappedBy := if text.Some? && text.value != "" then Some(caller) else None;
    AddMembership(db, mk.space, mk.user, ring, wrappedBy, now);
    db.requests := db.requests[mk := db.requests[mk].(
      status := Approved, decidedAt := Some(now), decidedBy := Some(caller))];
    return None;
  }

  /** Goes through for the same callers; the request stays, closed for good, and nobody joins. */
  method Decline(db: Database, mk: MemberKey, caller: UserId, now: int) returns (denial: Option<Denial>)
    modifies db`requests
    ensures denial == AnswerDenial(old(db.View()), mk, caller)
    ensures db.View() == Declined(old(db.View()), mk, caller, now)
    ensures denial.None? <==> MayAnswer(old(db.View()), mk, caller)
    ensures DeniedAsItShould(old(db.View()), mk, caller, denial)
    ensures denial.Some? ==> db.requests == old(db.requests)
    ensures denial.None? ==>
      && mk in db.requests && db.requests == old(db.requests)[mk := db.requests[mk]]
      && db.requests[mk] == JoinRequest(TurnedDown, old(db.requests)[mk].createdAt, Some(now), Some(caller))
  {
    if mk.space !in db.spaces {
      return Some(NotFound);
    }
    var asMember := MemberKey(mk.space, caller);
    if asMember !in db.members {
      return Some(Forbidden);
    }
    if db.members[asMember].role != Owner && !db.spaces[mk.space].membersCanApprove {
      return Some(Forbidden);
    }
    if mk !in db.requests {
      return Some(NotFound);
    }
    if db.requests[mk].status != AwaitingAnswer {
      return Some(AlreadyDecided);
    }
    db.requests := db.requests[mk := db.requests[mk].(
      status := TurnedDown, decidedAt := Some(now), decidedBy := Some(caller))];
    return None;
  }

  // ── Addressed invites ─────────────────────────────────────────────────────

  predicate PendingFor(inv: Invite, space: SpaceId, email: string) {
    inv.space == space && inv.email == email && inv.status == Pending
  }

  /** `found` answers the query for the pending invite of an address into a space. */
  ghost predicate AnswersPendingQuery(t: Tables, space: SpaceId, email: string, found: Option<InviteId>) {
    match found
    case Some(i) => i in t.invites && PendingFor(t.invites[i], space, email)
    case None => forall i :: i in t.invites ==> !PendingFor(t.invites[i], space, email)
  }

  function InviteDenial(t: Tables, space: SpaceId, caller: UserId, invitee: Option<UserId>): Option<Denial> {
    if OwnerDenial(t, space, caller).Some? then OwnerDenial(t, space, caller)
    else if invitee == Some(caller) then Some(OwnAddress)
    else if invitee.Some? && MemberKey(space, invitee.value) in t.members then Some(AlreadyMember)
    else None
  }

  /** `invitee` is the account behind the address, if there is one; `newId` the id of a new row. */
  function Invited(
    t: Tables, space: SpaceId, caller: UserId, email: string,
    invitee: Option<UserId>, found: Option<InviteId>, newId: InviteId, now: int): Tables
  {
    if InviteDenial(t, space, caller, invitee).Some? then t
    else if found.Some? && found.value in t.invites && PendingFor(t.invites[found.value], space, email) then
      t.(invites := t.invites[found.value := t.invites[found.value].(
        expiresAt := now + INVITE_TTL_MS, invitee := invitee, ring := None)])
    else if found.Some? || newId in t.invites then t
    else
      t.(invites := t.invites[newId := Invite(
        space, caller, email, invitee, Pending, now, now + INVITE_TTL_MS, None)])
  }

  method CreateInvite(
    db: Database, space: SpaceId, caller: UserId, email: string,
    invitee: Option<UserId>, found: Option<InviteId>, newId: InviteId, now: int)
    returns (result: Result<InviteId, Denial>)
    requires AnswersPendingQuery(db.View(), space, email, found)
    modifies db`invites
    ensures db.View() == Invited(old(db.View()), space, caller, email, invitee, found, newId, now)
    ensures result == Err(NotFound) <==> space !in db.spaces
    ensures result == Err(Forbidden) <==> space in db.spaces && db.spaces[space].owner != caller
    ensures result == Err(OwnAddress) <==>
      space in db.spaces && db.spaces[space].owner == caller && invitee == Some(caller)
    ensures result == Err(AlreadyMember) <==>
      && space in db.spaces && db.spaces[space].owner == caller
      && invitee.Some? && invitee != Some(caller) && MemberKey(space, invitee.value) in db.members
    ensures result == Err(IdTaken) <==>
      && space in db.spaces && db.spaces[space].owner == caller && invitee != Some(caller)
      && (invitee.Some? ==> MemberKey(space, invitee.value) !in db.members)
      && found.None? && newId in old(db.invites)
    ensures result.Err? ==>
      result.error in {NotFound, Forbidden, OwnAddress, AlreadyMember, IdTaken} && db.invites == old(db.invites)
    ensures result.Ok? ==>
      var i := if found.Some? then found.value else newId;
      && result.value == i && i in db.invites && db.invites == old(db.invites)[i := db.invites[i]]
      && (found.None? ==>
            && i !in old(db.invites)
            && db.invites[i] == Invite(space, caller, email, invitee, Pending, now, now + INVITE_TTL_MS, None))
      && (found.Some? ==>
            && i in old(db.invites) && PendingFor(db.invites[i], space, email)
            && db.invites[i] == old(db.invites)[i].(
                 expiresAt := now + INVITE_TTL_MS, invitee := invitee, ring := None))
  {
    if space !in db.spaces {
      return Err(NotFound);
    }
    if db.spaces[space].owner != caller {
      return Err(Forbidden);
    }
    if invitee.Some? {
      if invitee.value == caller {
        return Err(OwnAddress);
      }
      if MemberKey(space, invitee.value) in db.members {
        return Err(AlreadyMember);
      }
    }
    if found.Some? {
      db.invites := db.invites[found.value := db.invites[found.value].(
        expiresAt := now + INVITE_TTL_MS, invitee := invitee, ring := None)];
      return Ok(found.value);
    }
    if newId in db.invites {
      return Err(IdTaken);
    }
    db.invites := db.invites[newId := Invite(space, caller, email, invitee, Pending, now, now + INVITE_TTL_MS, None)];
    return Ok(newId);
  }

  function InviterDenial(t: Tables, i: InviteId, caller: UserId): Option<Denial> {
    if i !in t.invites then Some(NotFound)
    else if t.invites[i].inviter != caller then Some(Forbidden)
    else if t.invites[i].status != Pending then Some(AlreadyDecided)
    else None
  }

  function Attached(t: Tables, i: InviteId, caller: UserId, text: string): Tables {
    if InviterDenial(t, i, caller).Some? || t.invites[i].space !in t.spaces then t
    else t.(invites := t.invites[i := t.invites[i].(ring := Stamped(t, t.invites[i].space, Some(text)))])
  }

  function Withdrawn(t: Tables, i: InviteId, caller: UserId): Tables {
    if InviterDenial(t, i, caller).Some? then t
    else t.(invites := t.invites[i := t.invites[i].(status := Revoked)])
  }

  /** The caller sent the invite, and nobody has answered it. */
  predicate StillSenders(t: Tables, i: InviteId, caller: UserId) {
    i in t.invites && t.invites[i].inviter == caller && t.invites[i].status == Pending
  }

  predicate RefusedToSender(t: Tables, i: InviteId, caller: UserId, denial: Option<Denial>) {
    && (denial == Some(NotFound) <==> i !in t.invites)
    && (denial == Some(Forbidden) <==> i in t.invites && t.invites[i].inviter != caller)
    && (denial == Some(AlreadyDecided) <==>
          i in t.invites && t.invites[i].inviter == caller && t.invites[i].status != Pending)
  }

  /** One invite changes in nothing but what `now` says about it. */
  ghost predicate OnlyInvite(before: map<InviteId, Invite>, after: map<InviteId, Invite>, i: InviteId, now: Invite) {
    i in before && after == before[i := now]
  }

  /** The sender's ring for a pending invite, in place of any earlier one; its space and its answer stay. */
  method AttachInviteKey(db: Database, i: InviteId, caller: UserId, text: string) returns (denial: Option<Denial>)
    requires i in db.invites ==> db.invites[i].space in db.spaces
    modifies db`invites
    ensures denial == InviterDenial(old(db.View()), i, caller)
    ensures db.View() == Attached(old(db.View()), i, caller, text)
    ensures denial.None? <==> StillSenders(old(db.View()), i, caller)
    ensures RefusedToSender(old(db.View()), i, caller, denial)
    ensures denial.Some? ==> db.invites == old(db.invites)
    ensures denial.None? ==>
      && i in db.invites && db.invites[i].ring.Some? && db.invites[i].ring.value.text == text
      && OnlyInvite(old(db.invites), db.invites, i, old(db.invites)[i].(ring := db.invites[i].ring))
  {
    if i !in db.invites {
      return Some(NotFound);
    }
    if db.invites[i].inviter != caller {
      return Some(Forbidden);
    }
    if db.invites[i].status != Pending {
      return Some(AlreadyDecided);
    }
    var epoch := db.spaces[db.invites[i].space].departures;
    db.invites := db.invites[i := db.invites[i].(ring := Some(Ring(text, epoch)))];
    return None;
  }

  /** The sender withdraws a pending invite; a ring on it is left where it is. */
  method RevokeInvite(db: Database, i: InviteId, caller: UserId) returns (denial: Option<Denial>)
    modifies db`invites
    ensures denial == InviterDenial(old(db.View()), i, caller)
    ensures db.View() == Withdrawn(old(db.View()), i, caller)
    ensures denial.None? <==> StillSenders(old(db.View()), i, caller)
    ensures RefusedToSender(old(db.View()), i, caller, denial)
    ensures denial.Some? ==> db.invites == old(db.invites)
    ensures denial.None? ==> OnlyInvite(old(db.invites), db.invites, i, old(db.invites)[i].(status := Revoked))
    ensures denial.None? ==> !StillSenders(db.View(), i, caller)
  {
    if i !in db.invites {
      return Some(NotFound);
    }
    if db.invites[i].inviter != caller {
      return Some(Forbidden);
    }
    if db.invites[i].status != Pending {
      return Some(AlreadyDecided);
    }
    db.invites := db.invites[i := db.invites[i].(status := Revoked)];
    return None;
  }

  /** The identity claims of a caller's token. */
  datatype Claims = Claims(user: UserId, email: string, emailVerified: Option<bool>)

  predicate AddressedTo(inv: Invite, claims: Claims) {
    inv.invitee == Some(claims.user) || (claims.email != "" && inv.email == claims.email)
  }

  function InviteeDenial(t: Tables, i: InviteId, claims: Claims, now: int): Option<Denial> {
    if i !in t.invites then Some(NotFound)
    else if !AddressedTo(t.invites[i], claims) then Some(Forbidden)
    else if t.invites[i].status != Pending then Some(AlreadyDecided)
    else if t.invites[i].expiresAt < now then Some(Expired)
    else None
  }

  function AcceptDenial(t: Tables, i: InviteId, claims: Claims, now: int): Option<Denial> {
    if claims.emailVerified == Some(false) then Some(Unverified)
    else if InviteeDenial(t, i, claims, now).Some? then InviteeDenial(t, i, claims, now)
    else if t.invites[i].space !in t.spaces then Some(NotFound)
    else None
  }

  /** The wrap moves from the invite to the membership it creates. */
  function Entered(t: Tables, i: InviteId, claims: Claims, now: int): Tables {
    if AcceptDenial(t, i, claims, now).Some? then t
    else
      var inv := t.invites[i];
      Joined(t, inv.space, claims.user, inv.ring, Some(inv.inviter), now).(
        invites := t.invites[i := inv.(status := Accepted, invitee := Some(claims.user), ring := None)])
  }

  function Spurned(t: Tables, i: InviteId, claims: Claims, now: int): Tables {
    if InviteeDenial(t, i, claims, now).Some? then t
    else t.(invites := t.invites[i := t.invites[i].(status := InviteStatus.Declined, invitee := Some(claims.user))])
  }

  /** The invite is meant for the caller: by their account, or by the address their token claims, if it claims one. */
  predicate Addressee(invites: map<InviteId, Invite>, i: InviteId, claims: Claims) {
    i in invites && (invites[i].invitee == Some(claims.user) || (claims.email != "" && invites[i].email == claims.email))
  }

  /**
   * The look-up that accepting and declining share; it only reads. A caller to
   * whom the invite is not addressed learns nothing of its state: the answer is
   * the same whether it is pending, spent or expired.
   */
  method InviteForInvitee(db: Database, i: InviteId, claims: Claims, now: int) returns (denial: Option<Denial>)
    ensures denial.None? <==>
      && Addressee(db.invites, i, claims)
      && db.invites[i].status == Pending && now <= db.invites[i].expiresAt
    ensures denial == Some(NotFound) <==> i !in db.invites
    ensures denial == Some(Forbidden) <==> i in db.invites && !Addressee(db.invites, i, claims)
    ensures denial == Some(AlreadyDecided) <==>
      Addressee(db.invites, i, claims) && db.invites[i].status != Pending
    ensures denial == Some(Expired) <==>
      Addressee(db.invites, i, claims) && db.invites[i].status == Pending && db.invites[i].expiresAt < now
    ensures denial == InviteeDenial(db.View(), i, claims, now)
  {
    if i !in db.invites {
      return Some(NotFound);
    }
    var inv := db.invites[i];
    if inv.invitee != Some(claims.user) && (claims.email == "" || inv.email != claims.email) {
      return Some(Forbidden);
    }
    if inv.status != Pending {
      return Some(AlreadyDecided);
    }
    if inv.expiresAt < now {
      return Some(Expired);
    }
    return None;
  }

  method AcceptInvite(db: Database, i: InviteId, claims: Claims, now: int)
    returns (result: Result<SpaceId, Denial>)
    modifies db`members, db`invites
    ensures db.View() == Entered(old(db.View()), i, claims, now)
    ensures result == match AcceptDenial(old(db.View()), i, claims, now)
      case Some(denial) => Err(denial)
      case None => Ok(old(db.invites)[i].space)
    ensures result == Err(Unverified) <==> claims.emailVerified == Some(false)
    ensures result == Err(NotFound) <==>
      && claims.emailVerified != Some(false)
      && (i !in old(db.invites) || (Addressee(old(db.invites), i, claims) && old(db.invites)[i].status == Pending
            && now <= old(db.invites)[i].expiresAt && old(db.invites)[i].space !in db.spaces))
    ensures result == Err(Forbidden) <==>
      claims.emailVerified != Some(false) && i in old(db.invites) && !Addressee(old(db.invites), i, claims)
    ensures result == Err(AlreadyDecided) <==>
      && claims.emailVerified != Some(false) && Addressee(old(db.invites), i, claims)
      && old(db.invites)[i].status != Pending
    ensures result == Err(Expired) <==>
      && claims.emailVerified != Some(false) && Addressee(old(db.invites), i, claims)
      && old(db.invites)[i].status == Pending && old(db.invites)[i].expiresAt < now
    ensures result.Err? ==>
      && result.error in {Unverified, NotFound, Forbidden, AlreadyDecided, Expired}
      && db.members == old(db.members) && db.invites == old(db.invites)
    ensures result.Ok? ==>
      && Addressee(old(db.invites), i, claims) && old(db.invites)[i].space in db.spaces
      && OnlyInvite(
           old(db.invites), db.invites, i,
           old(db.invites)[i].(status := Accepted, invitee := Some(claims.user), ring := None))
    ensures result.Ok? ==>
      var inv := old(db.invites)[i];
      var mk := MemberKey(inv.space, claims.user);
      && mk in db.members && db.members == old(db.members)[mk := db.members[mk]]
      && db.members[mk] == if mk in old(db.members) then old(db.members)[mk] else Membership(
           Member, inv.ring, Some(inv.inviter),
           if db.spaces[inv.space].shareHistory then None else Some(now), now)
  {
    if claims.emailVerified == Some(false) {
      return Err(Unverified);
    }
    var denial := InviteForInvitee(db, i, claims, now);
    if denial.Some? {
      return Err(denial.value);
    }
    var inv := db.invites[i];
    if inv.space !in db.spaces {
      return Err(NotFound);
    }
    AddMembership(db, inv.space, claims.user, inv.ring, Some(inv.inviter), now);
    db.invites := db.invites[i := inv.(status := Accepted, invitee := Some(claims.user), ring := None)];
    return Ok(inv.space);
  }

  /** The addressee of a pending invite turns it down in time; it is bound to their account, and nobody joins. */
  method DeclineInvite(db: Database, i: InviteId, claims: Claims, now: int) returns (denial: Option<Denial>)
    modifies db`invites
    ensures denial == InviteeDenial(old(db.View()), i, claims, now)
    ensures db.View() == Spurned(old(db.View()), i, claims, now)
    ensures denial.None? <==>
      && Addressee(old(db.invites), i, claims)
      && old(db.invites)[i].status == Pending && now <= old(db.invites)[i].expiresAt
    ensures denial == Some(NotFound) <==> i !in old(db.invites)
    ensures denial == Some(Forbidden) <==> i in old(db.invites) && !Addressee(old(db.invites), i, claims)
    ensures denial == Some(AlreadyDecided) <==>
      Addressee(old(db.invites), i, claims) && old(db.invites)[i].status != Pending
    ensures denial.Some? ==> db.invites == old(db.invites)
    ensures denial.None? ==> OnlyInvite(
      old(db.invites), db.invites, i,
      old(db.invites)[i].(status := InviteStatus.Declined, invitee := Some(claims.user)))
  {
    denial := InviteForInvitee(db, i, claims, now);
    if denial.Some? {
      return;
    }
    db.invites := db.invites[i := db.invites[i].(status := InviteStatus.Declined, invitee := Some(claims.user))];
  }
}
