/** What the history policy of a space does to what its members can pull. */
module History {
  import opened Wrappers
  import opened Tables
  import opened Paging
  import opened Pull
  import opened Runs
  import Belonging
  import Convergence
  import Door
  import Spaces

  /** Changing a space's settings never takes anything away from what a member can pull. */
  lemma SettingsNeverShrinkAPull(
    t: Tables, space: SpaceId, caller: UserId, history: Option<bool>, approve: Option<bool>,
    reader: UserId, after: int, want: Option<EntryType>)
    ensures var t' := Spaces.Updated(t, space, caller, history, approve);
      && EntriesAfter(t, reader, after, want) <= EntriesAfter(t', reader, after, want)
      && RemovalsAfter(t, reader, after, want) <= RemovalsAfter(t', reader, after, want)
  {
    hide EntriesAfter, RemovalsAfter, Sees, Told;
    var t' := Spaces.Updated(t, space, caller, history, approve);
    FloorsOnlyLift(t, space, caller, history, approve);
    LiftingFloorsWidensPulls(t, t', reader, after, want);
  }

  /** The same members, each with their floor or none. */
  ghost predicate FloorsLift(t: Tables, t': Tables) {
    && t'.entries == t.entries && t'.removals == t.removals
    && t'.members.Keys == t.members.Keys
    && forall mk :: mk in t.members ==>
      t'.members[mk] == t.members[mk] || t'.members[mk] == t.members[mk].(floor := None)
  }

  lemma FloorsOnlyLift(
    t: Tables, space: SpaceId, caller: UserId, history: Option<bool>, approve: Option<bool>)
    ensures FloorsLift(t, Spaces.Updated(t, space, caller, history, approve))
  {
  }

  lemma LiftingFloorsWidensPulls(t: Tables, t': Tables, reader: UserId, after: int, want: Option<EntryType>)
    requires FloorsLift(t, t')
    ensures EntriesAfter(t, reader, after, want) <= EntriesAfter(t', reader, after, want)
    ensures RemovalsAfter(t, reader, after, want) <= RemovalsAfter(t', reader, after, want)
  {
    forall k | k in t.entries && Sees(t, reader, k)
      ensures Sees(t', reader, k)
    {
      if k.user != reader {
        var s :| s in t.entries[k].spaceIds && ReachedThrough(t, reader, t.entries[k], s);
        assert ReachedThrough(t', reader, t'.entries[k], s);
      }
    }
  }

  /** What the owner is told: history was opened exactly when some member's floor came off. */
  lemma OpenedIffAFloorLifts(
    t: Tables, space: SpaceId, caller: UserId, history: Option<bool>, approve: Option<bool>)
    requires Spaces.OwnerDenial(t, space, caller).None?
    ensures var t' := Spaces.Updated(t, space, caller, history, approve);
      (history == Some(true) && Spaces.Floored(t, space) != {}) <==>
      exists mk :: mk in t.members && mk in t'.members && t.members[mk].floor != t'.members[mk].floor
  {
    var t' := Spaces.Updated(t, space, caller, history, approve);
    if history == Some(true) && Spaces.Floored(t, space) != {} {
      var mk :| mk in Spaces.Floored(t, space);
      assert mk in t.members && mk in t'.members && t.members[mk].floor != t'.members[mk].floor;
    }
  }

  /** Once history is shared, a member pulls every entry and every removal of the space above the cursor. */
  lemma SharedHistoryIsWhole(t: Tables, reader: UserId, space: SpaceId, after: int)
    requires MemberKey(space, reader) in t.members && t.members[MemberKey(space, reader)].floor.None?
    ensures forall k :: k in t.entries && space in t.entries[k].spaceIds && t.entries[k].serverTs > after ==>
      Stamped(k, t.entries[k].serverTs) in EntriesAfter(t, reader, after, None)
    ensures forall rk :: rk in t.removals && rk.space == space && t.removals[rk].serverTs > after ==>
      Stamped(rk, t.removals[rk].serverTs) in RemovalsAfter(t, reader, after, None)
  {
    forall k | k in t.entries && space in t.entries[k].spaceIds
      ensures Sees(t, reader, k)
    {
      assert ReachedThrough(t, reader, t.entries[k], space);
    }
  }

  // ── Floors lie in the past ────────────────────────────────────────────────

  /** If it is a member's, the floor is one the clock has passed. */
  predicate FloorPast(members: map<MemberKey, Membership>, mk: MemberKey, clock: int) {
    mk in members ==> AboveFloor(members[mk], clock)
  }

  lemma HandoutsKeepFloors(
    t: Tables, space: SpaceId, caller: UserId, rings: seq<Spaces.Keyring>, fingerprint: Option<string>,
    mk: MemberKey, clock: int)
    requires FloorPast(t.members, mk, clock)
    ensures FloorPast(Spaces.Distributed(t, space, caller, rings, fingerprint).members, mk, clock)
  {
    hide Spaces.HandedOut, Spaces.EveryoneHoldsARing;
    if Spaces.DistributeDenial(t, space, caller).None? {
      Belonging.HandoutsChangeOnlyRings(t.members, space, t.spaces[space], caller, rings);
    }
  }

  lemma SpaceCallsKeepFloors(t: Tables, op: SpaceOp, now: int, mk: MemberKey, clock: int)
    requires FloorPast(t.members, mk, clock) && clock <= now
    ensures FloorPast(ApplySpace(t, op, now).members, mk, now)
  {
    hide Spaces.Distributed, Spaces.OwnerDenial, Spaces.LeaveDenial, Spaces.WithoutInviteRings;
    if op.DistributeKeys? {
      HandoutsKeepFloors(t, op.space, op.user, op.rings, op.fingerprint, mk, clock);
    }
  }

  lemma JoiningKeepsFloors(
    t: Tables, space: SpaceId, user: UserId, ring: Option<Ring>, wrappedBy: Option<UserId>, now: int,
    mk: MemberKey, clock: int)
    requires space in t.spaces && FloorPast(t.members, mk, clock) && clock <= now
    ensures FloorPast(Spaces.Joined(t, space, user, ring, wrappedBy, now).members, mk, now)
  {
    var joined := MemberKey(space, user);
    var after := Spaces.Joined(t, space, user, ring, wrappedBy, now).members;
    if joined in t.members {
      assert after == t.members;
    } else if mk == joined {
      assert after[mk].floor == if t.spaces[space].shareHistory then None else Some(now);
    } else {
      assert mk in after ==> mk in t.members && after[mk] == t.members[mk];
    }
  }

  lemma ApprovingKeepsFloors(
    t: Tables, asked: MemberKey, caller: UserId, text: Option<string>, now: int, mk: MemberKey, clock: int)
    requires FloorPast(t.members, mk, clock) && clock <= now
    ensures FloorPast(Door.LetIn(t, asked, caller, text, now).members, mk, now)
  {
    hide Spaces.Joined, Spaces.MayApprove, Spaces.RoleOf;
    if Door.AnswerDenial(t, asked, caller).None? {
      var wrappedBy := if text.Some? && text.value != "" then Some(caller) else None;
      JoiningKeepsFloors(
        t, asked.space, asked.user, Door.Stamped(t, asked.space, text), wrappedBy, now, mk, clock);
    }
  }

  lemma AcceptingKeepsFloors(t: Tables, i: InviteId, claims: Door.Claims, now: int, mk: MemberKey, clock: int)
    requires FloorPast(t.members, mk, clock) && clock <= now
    ensures FloorPast(Door.Entered(t, i, claims, now).members, mk, now)
  {
    hide Spaces.Joined, Door.AddressedTo;
    if Door.AcceptDenial(t, i, claims, now).None? {
      var inv := t.invites[i];
      JoiningKeepsFloors(t, inv.space, claims.user, inv.ring, Some(inv.inviter), now, mk, clock);
    }
  }

  lemma DoorCallsKeepFloors(t: Tables, op: DoorOp, now: int, mk: MemberKey, clock: int)
    requires FloorPast(t.members, mk, clock) && clock <= now
    ensures FloorPast(ApplyDoor(t, op, now).members, mk, now)
  {
    hide Door.LetIn, Door.Entered, Door.JoinDenial, Door.KnockAt, Door.AnswerDenial, Door.InviteDenial,
      Door.InviterDenial, Door.InviteeDenial, Door.Stamped;
    match op
    case ApproveJoin(asked, caller, text) => ApprovingKeepsFloors(t, asked, caller, text, now, mk, clock);
    case AcceptInvite(i, claims) => AcceptingKeepsFloors(t, i, claims, now, mk, clock);
    case _ =>
  }

  lemma OneCallKeepsFloors(cfg: Config, t: Tables, ev: Event, mk: MemberKey, clock: int)
    requires FloorPast(t.members, mk, clock) && clock <= ev.now
    ensures FloorPast(Apply(cfg, t, ev).members, mk, ev.now)
  {
    hide ApplySync, ApplyBlob, ApplySpace, ApplyDoor;
    match ev.op
    case Social(op) => SpaceCallsKeepFloors(t, op, ev.now, mk, clock);
    case AtDoor(op) => DoorCallsKeepFloors(t, op, ev.now, mk, clock);
    case _ =>
  }

  lemma {:induction false} RunKeepsFloor(cfg: Config, t: Tables, evs: seq<Event>, mk: MemberKey, clock: int)
    requires FloorPast(t.members, mk, clock) && InOrder(clock, evs)
    ensures FloorPast(Run(cfg, t, evs).members, mk, ClockAfter(clock, evs))
  {
    if evs == [] {
    } else {
      hide Apply, FloorPast;
      var n := |evs| - 1;
      RunKeepsFloor(cfg, t, evs[..n], mk, clock);
      OneCallKeepsFloors(cfg, Run(cfg, t, evs[..n]), evs[n], mk, ClockAfter(clock, evs[..n]));
    }
  }

  /** In clock order, no run leaves anyone a floor ahead of the clock. */
  lemma RunKeepsFloorsPast(cfg: Config, t: Tables, evs: seq<Event>, user: UserId, clock: int)
    requires Convergence.FloorsPast(t, user, clock) && InOrder(clock, evs)
    ensures Convergence.FloorsPast(Run(cfg, t, evs), user, ClockAfter(clock, evs))
  {
    hide Run, InOrder;
    forall mk: MemberKey | mk.user == user
      ensures FloorPast(Run(cfg, t, evs).members, mk, ClockAfter(clock, evs))
    {
      RunKeepsFloor(cfg, t, evs, mk, clock);
    }
  }
}
