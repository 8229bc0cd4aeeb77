/**
 * Who may do what, written over the rows of the tables and never through the
 * guards of the services: what a push is answered and why, who puts a row into a
 * space and takes it out, and who makes a membership appear and disappear.
 */
module Access {
  import opened Wrappers
  import opened Tables
  import opened Push
  import opened Runs
  import opened Sharing
  import Batches
  import Door
  import Spaces
  import TakeDown

  // ── The answers to a push ─────────────────────────────────────────────────

  /** The row the push is about. */
  function RowOf(user: UserId, e: PushEntry): RowKey {
    RowKey(user, e.client, e.etype)
  }

  /** The space is named by the push, and not by the row there is. */
  predicate Entering(t: Tables, user: UserId, e: PushEntry, s: SpaceId) {
    s in e.spaceIds && (RowOf(user, e) in t.entries ==> s !in t.entries[RowOf(user, e)].spaceIds)
  }

  predicate WithinLimits(cfg: Config, e: PushEntry) {
    |e.body.content| <= cfg.maxEntryBytes && (e.body.metadata.Some? ==> |e.body.metadata.value| <= cfg.maxEntryBytes)
  }

  /** The author is in every space the push puts the row into. */
  ghost predicate Admitted(t: Tables, user: UserId, e: PushEntry) {
    forall s :: Entering(t, user, e, s) ==> MemberKey(s, user) in t.members
  }

  /** A live push points the row at no blob, at its own, or at a confirmed one of the author's. */
  predicate BlobGranted(t: Tables, user: UserId, e: PushEntry) {
    var k := RowOf(user, e);
    || e.deletedAt.Some?
    || e.body.blobKey.None?
    || (k in t.entries && t.entries[k].body.blobKey == e.body.blobKey)
    || (var key := e.body.blobKey.value;
        key in t.blobs && t.blobs[key].user == user && t.blobs[key].confirmed)
  }

  /** The row is as new as the push, and the push is not the delete of a live row. */
  predicate Outdated(t: Tables, user: UserId, e: PushEntry) {
    var k := RowOf(user, e);
    && k in t.entries
    && e.updatedAt <= t.entries[k].updatedAt
    && (e.deletedAt.None? || t.entries[k].deletedAt.Some?)
  }

  /** Another account holds a copy of the entry in a space the push puts the row into. */
  ghost predicate Impersonates(t: Tables, user: UserId, e: PushEntry) {
    exists j, s ::
      && j in t.entries && j.client == e.client && j.etype == e.etype && j.user != user
      && s in t.entries[j].spaceIds && Entering(t, user, e, s)
  }

  /** The push needs a live slot, or a new tombstone one, and there is none. */
  predicate Overfills(t: Tables, room: Budget, user: UserId, e: PushEntry) {
    var k := RowOf(user, e);
    if e.deletedAt.None? then (k !in t.entries || t.entries[k].deletedAt.Some?) && room.live <= 0
    else k !in t.entries && room.tombstones <= 0
  }

  /** The row names a space twice that the push leaves out. */
  predicate LeavesATwin(t: Tables, user: UserId, e: PushEntry) {
    var k := RowOf(user, e);
    k in t.entries &&
    exists i, j :: 0 <= i < j < |t.entries[k].spaceIds|
      && t.entries[k].spaceIds[i] == t.entries[k].spaceIds[j] && t.entries[k].spaceIds[i] !in e.spaceIds
  }

  lemma AddedAreEntering(t: Tables, user: UserId, e: PushEntry, s: SpaceId)
    ensures s in Added(t, user, e) <==> Entering(t, user, e, s)
  {
  }

  lemma AdmissionIff(t: Tables, user: UserId, e: PushEntry)
    ensures MemberOfAll(t, user, Added(t, user, e)) <==> Admitted(t, user, e)
  {
    hide Added, Entering;
    forall s
      ensures s in Added(t, user, e) <==> Entering(t, user, e, s)
    {
      AddedAreEntering(t, user, e, s);
    }
  }

  lemma RivalIff(t: Tables, user: UserId, e: PushEntry)
    ensures HasRival(t, user, e, Added(t, user, e)) <==> Impersonates(t, user, e)
    ensures RowOf(user, e) !in t.entries ==> Added(t, user, e) == e.spaceIds
  {
    hide Added, Entering;
    forall s
      ensures s in Added(t, user, e) <==> Entering(t, user, e, s)
    {
      AddedAreEntering(t, user, e, s);
    }
    if HasRival(t, user, e, Added(t, user, e)) {
      var j :| j in t.entries && Rivals(j, t.entries[j], user, e, Added(t, user, e));
      var s :| s in t.entries[j].spaceIds && s in Added(t, user, e);
      assert Entering(t, user, e, s);
    }
    if Impersonates(t, user, e) {
      var j, s :| j in t.entries && j.client == e.client && j.etype == e.etype && j.user != user
        && s in t.entries[j].spaceIds && Entering(t, user, e, s);
      assert Overlap(t.entries[j].spaceIds, Added(t, user, e));
      assert Rivals(j, t.entries[j], user, e, Added(t, user, e));
    }
    InsertsAddAll(t, user, e);
  }

  lemma InsertsAddAll(t: Tables, user: UserId, e: PushEntry)
    ensures RowOf(user, e) !in t.entries ==> Added(t, user, e) == e.spaceIds
  {
  }

  /**
   * Each answer to a push, exactly when it is given. They are tried in this order:
   * too large, not a member, invalid blob, stale, somebody else's, no room, a space
   * named twice; a push that passes them all is accepted.
   */
  lemma EveryAnswerIff(
    cfg: Config, t: Tables, room: Budget, user: UserId, device: DeviceId, e: PushEntry, now: int)
    ensures var step := Upsert(cfg, t, room, user, device, e, now);
      var large := !WithinLimits(cfg, e);
      var outside := !large && !Admitted(t, user, e);
      var bad := !large && !outside && !BlobGranted(t, user, e);
      var stale := !large && !outside && !bad && Outdated(t, user, e);
      var rival := !large && !outside && !bad && !stale && Impersonates(t, user, e);
      var full := !large && !outside && !bad && !stale && !rival && Overfills(t, room, user, e);
      var twin := !large && !outside && !bad && !stale && !rival && !full && LeavesATwin(t, user, e);
      && (step == Took(t, room, ConflictEntry(e.client, EntryTooLarge)) <==> large)
      && (step == Aborted(NotAMember) <==> outside)
      && (step == Aborted(InvalidBlob) <==> bad)
      && (step == Took(t, room, ConflictEntry(e.client, StaleUpdate)) <==> stale)
      && (step == Took(t, room, ConflictEntry(e.client, NotYourEntry)) <==> rival)
      && (step == Took(t, room, ConflictEntry(e.client, AccountFull)) <==> full)
      && (step == Aborted(RemovalNamedTwice) <==> twin)
      && ((step.Took? && step.answer.AcceptedEntry?) <==>
            !large && !outside && !bad && !stale && !rival && !full && !twin)
  {
    AdmissionIff(t, user, e);
    RivalIff(t, user, e);
    BlobIff(t, user, e);
    TwinIff(t, user, e);
    hide Added, Dropped, MemberOfAll, HasRival, NamesNewBlob, OwnsConfirmed, AllDistinct,
      Admitted, Impersonates, BlobGranted, LeavesATwin, WriteRow, Charge;
  }

  lemma BlobIff(t: Tables, user: UserId, e: PushEntry)
    ensures (NamesNewBlob(t, user, e) && !OwnsConfirmed(t, user, e.StoredBody().blobKey.value)) <==>
      !BlobGranted(t, user, e)
  {
  }

  lemma TwinIff(t: Tables, user: UserId, e: PushEntry)
    ensures RowOf(user, e) in t.entries ==> (!AllDistinct(Dropped(t, user, e)) <==> LeavesATwin(t, user, e))
    ensures RowOf(user, e) !in t.entries ==> !LeavesATwin(t, user, e)
  {
    hide Distinct, Without;
    Batches.FilteredTwinsIff(SpacesOf(t, RowOf(user, e)), e.spaceIds);
  }

  /** The two budgets a push opens with: the cap less the live rows, and three caps less the tombstones. */
  lemma OpeningBudgetIs(cfg: Config, t: Tables, user: UserId)
    ensures OpeningBudget(cfg, t, user) == Budget(
      cfg.maxEntries - |set k | k in t.entries && k.user == user && t.entries[k].deletedAt.None?|,
      3 * cfg.maxEntries - |set k | k in t.entries && k.user == user && t.entries[k].deletedAt.Some?|)
  {
    assert LiveKeys(t, user) == set k | k in t.entries && k.user == user && t.entries[k].deletedAt.None?;
    assert BuriedKeys(t, user) == set k | k in t.entries && k.user == user && t.entries[k].deletedAt.Some?;
  }

  /** What an accepted push does besides storing its row: who else's row, which blob and which records change. */
  lemma AcceptedPushChangesOnly(
    cfg: Config, t: Tables, room: Budget, user: UserId, device: DeviceId, e: PushEntry, now: int)
    requires Upsert(cfg, t, room, user, device, e, now).Took?
    requires Upsert(cfg, t, room, user, device, e, now).answer.AcceptedEntry?
    ensures var t' := Upsert(cfg, t, room, user, device, e, now).t;
      var k := RowOf(user, e);
      && t' == t.(entries := t'.entries, blobs := t'.blobs, removals := t'.removals)
      && k in t'.entries && t'.entries == t.entries[k := t'.entries[k]]
      && t'.blobs.Keys == t.blobs.Keys
      && (forall b: BlobKey :: b in t.blobs ==>
            t'.blobs[b] ==
              if k in t.entries && t.entries[k].body.blobKey == Some(b) && t.blobs[b].user == user
                && (e.deletedAt.Some? || e.body.blobKey != Some(b))
              then t.blobs[b].(confirmed := false) else t.blobs[b])
      && (forall rk :: rk in t'.removals <==>
            rk in t.removals || LeavesBy(t, user, e, rk))
      && (forall rk :: rk in t'.removals ==>
            t'.removals[rk] == if LeavesBy(t, user, e, rk) then Removal(user, user, now) else t.removals[rk])
  {
    hide Judge, Charge, Recorded;
    RecordedAt(t.removals, Dropped(t, user, e), e.client, e.etype, Removal(user, user, now));
    forall rk: RemovalKey
      ensures About(rk, Dropped(t, user, e), e.client, e.etype) <==> LeavesBy(t, user, e, rk)
    {
    }
  }

  /** The record is of this entry, for a space its row carries and the push does not. */
  predicate LeavesBy(t: Tables, user: UserId, e: PushEntry, rk: RemovalKey) {
    var k := RowOf(user, e);
    && rk.client == e.client && rk.etype == e.etype
    && k in t.entries && rk.space in t.entries[k].spaceIds && rk.space !in e.spaceIds
  }

  // ── Into a space and out of it ────────────────────────────────────────────

  /** The call is a push of the row by its author. */
  predicate AuthorPushes(op: Op, k: RowKey) {
    && op.Sync? && op.sync.PushOne?
    && op.sync.user == k.user && op.sync.entry.client == k.client && op.sync.entry.etype == k.etype
  }

  /** The call is a take-down of the entry from the space, by the row's author or the space's owner. */
  predicate RightlyTakenDown(t: Tables, op: Op, k: RowKey, space: SpaceId) {
    && op.Sync? && op.sync.RemoveFromSpace?
    && op.sync.space == space && op.sync.client == k.client && op.sync.etype == k.etype
    && space in t.spaces && (op.sync.user == k.user || op.sync.user == t.spaces[space].owner)
  }

  lemma TakeDownsAreRightful(
    t: Tables, space: SpaceId, client: ClientId, etype: EntryType, user: UserId, now: int, k: RowKey, s: SpaceId)
    ensures var t' := TakeDown.TakenDown(t, space, client, etype, user, now);
      && (Carries(t', k, s) ==> Carries(t, k, s))
      && (Carries(t, k, s) && !Carries(t', k, s) ==>
            && s == space && k.client == client && k.etype == etype
            && space in t.spaces && (user == k.user || user == t.spaces[space].owner))
  {
    if TakeDown.Answered(t, space, client, etype, user).Ok? {
      TakeDown.TakingDownRows(t, space, client, etype, user, now);
      hide TakeDown.TakenDown, TakeDown.Answered, TakeDown.NamedAuthor;
    }
  }

  lemma PushesMoveTheirOwnRow(
    cfg: Config, t: Tables, room: Budget, user: UserId, device: DeviceId, e: PushEntry, now: int, k: RowKey, s: SpaceId)
    ensures var t' := Written(cfg, t, room, user, device, e, now);
      && (Carries(t', k, s) != Carries(t, k, s) ==> k == RowOf(user, e))
      && (Carries(t', k, s) && !Carries(t, k, s) ==> MemberKey(s, user) in t.members)
  {
    AdmissionIff(t, user, e);
    hide Recorded, Release, HasRival, Added, NamesNewBlob, OwnsConfirmed, AllDistinct, Dropped, TooLarge;
    if k == RowOf(user, e) && Carries(Written(cfg, t, room, user, device, e, now), k, s) && !Carries(t, k, s) {
      assert Entering(t, user, e, s);
    }
  }

  /** One call puts a row into a space only as its author's push, made by a member; and takes it out only rightfully. */
  lemma OneCallMovesRows(cfg: Config, t: Tables, ev: Event, k: RowKey, s: SpaceId)
    ensures var t' := Apply(cfg, t, ev);
      && (Carries(t', k, s) && !Carries(t, k, s) ==> AuthorPushes(ev.op, k) && MemberKey(s, k.user) in t.members)
      && (Carries(t, k, s) && !Carries(t', k, s) ==> AuthorPushes(ev.op, k) || RightlyTakenDown(t, ev.op, k, s))
  {
    hide ApplyBlob, ApplySpace, ApplyDoor, Written, TakeDown.TakenDown;
    match ev.op
    case Sync(PushOne(user, device, e, room)) => PushesMoveTheirOwnRow(cfg, t, room, user, device, e, ev.now, k, s);
    case Sync(RemoveFromSpace(space, client, etype, user)) =>
      TakeDownsAreRightful(t, space, client, etype, user, ev.now, k, s);
    case _ =>
  }

  /** A row that is in a space at the end of a run was there from the start, or its author, a member then, pushed it in. */
  lemma {:induction false} RowsEnterByMembers(cfg: Config, t: Tables, evs: seq<Event>, k: RowKey, s: SpaceId)
    returns (i: nat)
    requires Carries(Run(cfg, t, evs), k, s) && !Carries(t, k, s)
    ensures i < |evs| && AuthorPushes(evs[i].op, k)
    ensures MemberKey(s, k.user) in Run(cfg, t, evs[..i]).members
    ensures !Carries(Run(cfg, t, evs[..i]), k, s) && Carries(Run(cfg, t, evs[..i + 1]), k, s)
    decreases |evs|
  {
    hide Apply, Carries;
    assert evs != [];
    var n := |evs| - 1;
    if Carries(Run(cfg, t, evs[..n]), k, s) {
      i := RowsEnterByMembers(cfg, t, evs[..n], k, s);
      assert evs[..n][..i] == evs[..i] && evs[..n][..i + 1] == evs[..i + 1];
    } else {
      i := n;
      OneCallMovesRows(cfg, Run(cfg, t, evs[..n]), evs[n], k, s);
      assert evs[..i + 1] == evs;
    }
  }

  /** A row that has left a space did so at a call of its author, or at a take-down of the space's owner. */
  lemma {:induction false} RowsLeaveRightfully(cfg: Config, t: Tables, evs: seq<Event>, k: RowKey, s: SpaceId)
    returns (i: nat)
    requires Carries(t, k, s) && !Carries(Run(cfg, t, evs), k, s)
    ensures i < |evs|
    ensures AuthorPushes(evs[i].op, k) || RightlyTakenDown(Run(cfg, t, evs[..i]), evs[i].op, k, s)
    ensures Carries(Run(cfg, t, evs[..i]), k, s) && !Carries(Run(cfg, t, evs[..i + 1]), k, s)
    decreases |evs|
  {
    hide Apply, Carries, RightlyTakenDown;
    assert evs != [];
    var n := |evs| - 1;
    if !Carries(Run(cfg, t, evs[..n]), k, s) {
      i := RowsLeaveRightfully(cfg, t, evs[..n], k, s);
      assert evs[..n][..i] == evs[..i] && evs[..n][..i + 1] == evs[..i + 1];
    } else {
      i := n;
      OneCallMovesRows(cfg, Run(cfg, t, evs[..n]), evs[n], k, s);
      assert evs[..i + 1] == evs;
    }
  }

  // ── In and out of a membership ────────────────────────────────────────────

  /** The member goes by their own call or by the owner's, and is not the owner. */
  predicate RightlyRemoved(t: Tables, op: Op, mk: MemberKey) {
    && op.Social? && op.social.RemoveMember? && op.social.space == mk.space && op.social.target == mk.user
    && mk.space in t.spaces && mk.user != t.spaces[mk.space].owner
    && (op.social.user == mk.user || op.social.user == t.spaces[mk.space].owner)
  }

  /** The member opens the space, is let in by someone who may, or accepts an invite addressed to them. */
  predicate RightlyJoined(t: Tables, ev: Event, mk: MemberKey) {
    || (ev.op.Social? && ev.op.social.CreateSpace? && mk == MemberKey(ev.op.social.space, ev.op.social.user)
        && mk.space !in t.spaces)
    || (ev.op.AtDoor? && ev.op.door.ApproveJoin? && ev.op.door.mk == mk
        && mk.space in t.spaces && mk in t.requests && t.requests[mk].status == AwaitingAnswer
        && var asMember := MemberKey(mk.space, ev.op.door.user);
        && asMember in t.members
        && (t.members[asMember].role == Owner || t.spaces[mk.space].membersCanApprove))
    || (ev.op.AtDoor? && ev.op.door.AcceptInvite?
        && var i, claims := ev.op.door.invite, ev.op.door.claims;
        && i in t.invites && mk == MemberKey(t.invites[i].space, claims.user)
        && t.invites[i].status == Pending && ev.now <= t.invites[i].expiresAt && claims.emailVerified != Some(false)
        && (t.invites[i].invitee == Some(claims.user) || (claims.email != "" && t.invites[i].email == claims.email)))
  }

  lemma SpaceCallsMoveMembers(t: Tables, op: SpaceOp, now: int, mk: MemberKey)
    ensures var t' := ApplySpace(t, op, now);
      && (mk in t.members && mk !in t'.members ==> RightlyRemoved(t, Social(op), mk))
      && (mk !in t.members && mk in t'.members ==> RightlyJoined(t, Event(Social(op), now), mk))
  {
    hide Spaces.HandedOut, Spaces.EveryoneHoldsARing, Spaces.WithoutInviteRings;
    if op.DistributeKeys? && Spaces.DistributeDenial(t, op.space, op.user).None? {
      Spaces.HandoutsSupply(t.members, op.space, t.spaces[op.space], op.user, op.rings);
    }
  }

  lemma DoorCallsMoveMembers(t: Tables, op: DoorOp, now: int, mk: MemberKey)
    ensures var t' := ApplyDoor(t, op, now);
      && (mk in t.members ==> mk in t'.members)
      && (mk !in t.members && mk in t'.members ==> RightlyJoined(t, Event(AtDoor(op), now), mk))
  {
    hide Door.JoinDenial, Door.KnockAt, Door.InviteDenial, Door.InviterDenial, Door.Stamped;
    match op
    case ApproveJoin(asked, caller, text) => ApprovalsLetIn(t, asked, caller, text, now, mk);
    case AcceptInvite(i, claims) => InvitesLetIn(t, i, claims, now, mk);
    case _ =>
  }

  lemma ApprovalsLetIn(t: Tables, asked: MemberKey, caller: UserId, text: Option<string>, now: int, mk: MemberKey)
    ensures var t' := Door.LetIn(t, asked, caller, text, now);
      && (mk in t.members ==> mk in t'.members)
      && (mk !in t.members && mk in t'.members ==>
            RightlyJoined(t, Event(AtDoor(ApproveJoin(asked, caller, text)), now), mk))
  {
    hide Door.Stamped;
  }

  lemma InvitesLetIn(t: Tables, i: InviteId, claims: Door.Claims, now: int, mk: MemberKey)
    ensures var t' := Door.Entered(t, i, claims, now);
      && (mk in t.members ==> mk in t'.members)
      && (mk !in t.members && mk in t'.members ==>
            RightlyJoined(t, Event(AtDoor(AcceptInvite(i, claims)), now), mk))
  {
  }

  lemma OneCallMovesMembers(cfg: Config, t: Tables, ev: Event, mk: MemberKey)
    ensures var t' := Apply(cfg, t, ev);
      && (mk in t.members && mk !in t'.members ==> RightlyRemoved(t, ev.op, mk))
      && (mk !in t.members && mk in t'.members ==> RightlyJoined(t, ev, mk))
  {
    hide ApplySync, ApplyBlob, ApplySpace, ApplyDoor, RightlyRemoved, RightlyJoined;
    match ev.op
    case Social(op) => SpaceCallsMoveMembers(t, op, ev.now, mk);
    case AtDoor(op) => DoorCallsMoveMembers(t, op, ev.now, mk);
    case _ =>
  }

  /** A member who has gone went by their own call or by the owner's. */
  lemma {:induction false} MembersLeaveRightfully(cfg: Config, t: Tables, evs: seq<Event>, mk: MemberKey)
    returns (i: nat)
    requires mk in t.members && mk !in Run(cfg, t, evs).members
    ensures i < |evs| && RightlyRemoved(Run(cfg, t, evs[..i]), evs[i].op, mk)
    ensures mk in Run(cfg, t, evs[..i]).members && mk !in Run(cfg, t, evs[..i + 1]).members
    decreases |evs|
  {
    hide Apply, RightlyRemoved;
    assert evs != [];
    var n := |evs| - 1;
    if mk !in Run(cfg, t, evs[..n]).members {
      i := MembersLeaveRightfully(cfg, t, evs[..n], mk);
      assert evs[..n][..i] == evs[..i] && evs[..n][..i + 1] == evs[..i + 1];
    } else {
      i := n;
      OneCallMovesMembers(cfg, Run(cfg, t, evs[..n]), evs[n], mk);
      assert evs[..i + 1] == evs;
    }
  }

  /** A member who has come came in by one of the three ways, with the leave that way asks for. */
  lemma {:induction false} MembersJoinRightfully(cfg: Config, t: Tables, evs: seq<Event>, mk: MemberKey)
    returns (i: nat)
    requires mk !in t.members && mk in Run(cfg, t, evs).members
    ensures i < |evs| && RightlyJoined(Run(cfg, t, evs[..i]), evs[i], mk)
    ensures mk !in Run(cfg, t, evs[..i]).members && mk in Run(cfg, t, evs[..i + 1]).members
    decreases |evs|
  {
    hide Apply, RightlyJoined;
    assert evs != [];
    var n := |evs| - 1;
    if mk in Run(cfg, t, evs[..n]).members {
      i := MembersJoinRightfully(cfg, t, evs[..n], mk);
      assert evs[..n][..i] == evs[..i] && evs[..n][..i + 1] == evs[..i + 1];
    } else {
      i := n;
      OneCallMovesMembers(cfg, Run(cfg, t, evs[..n]), evs[n], mk);
      assert evs[..i + 1] == evs;
    }
  }
}
