/** What a stored push withstands: repeats of it after any run, and, once it is a delete, older pushes. */
module Repeats {
  import opened Wrappers
  import opened Tables
  import opened Push
  import opened Runs
  import opened LastWrite
  import TakeDown

  // ── One row through a run ─────────────────────────────────────────────────

  predicate PushesAt(op: Op, k: RowKey) {
    op.Sync? && op.sync.PushOne? && KeyOf(op.sync.user, op.sync.entry) == k
  }

  /** The call is a push to the row, and it is accepted. */
  predicate Lands(cfg: Config, t: Tables, op: Op, k: RowKey) {
    PushesAt(op, k) && Writes(cfg, t, op.sync.room, op.sync.user, op.sync.entry)
  }

  /** The row carries what the push decides about it, but for wraps a take-down may have removed. */
  predicate Shows(row: Row, e: PushEntry) {
    && row.updatedAt == e.updatedAt && row.deletedAt == e.deletedAt && row.pinned == e.pinned
    && row.body == e.StoredBody().(wraps := row.body.wraps)
  }

  /** The row has lost spaces and wraps, perhaps, and nothing else but its stamp differs. */
  ghost predicate OnlyWithdrawn(row: Row, row': Row) {
    && row' == row.(serverTs := row'.serverTs, spaceIds := row'.spaceIds,
                    body := row.body.(wraps := row'.body.wraps))
    && (forall s :: s in row'.spaceIds ==> s in row.spaceIds)
    && (forall n :: n in row'.body.wraps ==> n in row.body.wraps && row'.body.wraps[n] == row.body.wraps[n])
  }

  lemma TakeDownOnlyWithdraws(
    t: Tables, space: SpaceId, client: ClientId, etype: EntryType, user: UserId, now: int, k: RowKey)
    requires k in t.entries
    ensures var t' := TakeDown.TakenDown(t, space, client, etype, user, now);
      k in t'.entries && OnlyWithdrawn(t.entries[k], t'.entries[k])
  {
    hide TakeDown.Answered, TakeDown.RecordedAuthor, Recorded;
  }

  lemma LandingShows(
    cfg: Config, t: Tables, room: Budget, user: UserId, device: DeviceId, e: PushEntry, now: int, k: RowKey)
    requires k in t.entries
    ensures var t' := Written(cfg, t, room, user, device, e, now);
      && k in t'.entries
      && if KeyOf(user, e) == k && Writes(cfg, t, room, user, e) then Shows(t'.entries[k], e)
         else t'.entries[k] == t.entries[k]
  {
    hide Judge, Recorded, Release;
  }

  lemma OneCallAtRow(cfg: Config, t: Tables, ev: Event, k: RowKey)
    requires k in t.entries
    ensures var t' := Apply(cfg, t, ev);
      && k in t'.entries
      && (Lands(cfg, t, ev.op, k) ==> Shows(t'.entries[k], ev.op.sync.entry))
      && (!Lands(cfg, t, ev.op, k) ==> OnlyWithdrawn(t.entries[k], t'.entries[k]))
  {
    hide ApplyBlob, ApplySpace, ApplyDoor, Written, Writes, TakeDown.TakenDown, Shows;
    match ev.op
    case Sync(PushOne(user, device, e, room)) => LandingShows(cfg, t, room, user, device, e, ev.now, k);
    case Sync(RemoveFromSpace(space, client, etype, user)) =>
      TakeDownOnlyWithdraws(t, space, client, etype, user, ev.now, k);
    case _ =>
  }

  /** The last push the run stored in the row, or `e`, which was there before. */
  ghost function LastLanded(cfg: Config, t: Tables, evs: seq<Event>, k: RowKey, e: PushEntry): PushEntry {
    if evs == [] then e
    else
      var n := |evs| - 1;
      if Lands(cfg, Run(cfg, t, evs[..n]), evs[n].op, k) then evs[n].op.sync.entry
      else LastLanded(cfg, t, evs[..n], k, e)
  }

  lemma WithdrawingKeepsShowing(row: Row, row': Row, e: PushEntry)
    requires Shows(row, e) && OnlyWithdrawn(row, row')
    ensures Shows(row', e)
  {
  }

  lemma {:induction false} TheLastLandedIsStored(cfg: Config, t: Tables, evs: seq<Event>, k: RowKey, e: PushEntry)
    requires k in t.entries && Shows(t.entries[k], e)
    ensures k in Run(cfg, t, evs).entries
    ensures Shows(Run(cfg, t, evs).entries[k], LastLanded(cfg, t, evs, k, e))
  {
    if evs == [] {
    } else {
      hide Apply, Lands, Shows, OnlyWithdrawn;
      var n := |evs| - 1;
      var t' := Run(cfg, t, evs[..n]);
      TheLastLandedIsStored(cfg, t, evs[..n], k, e);
      OneCallAtRow(cfg, t', evs[n], k);
      if !Lands(cfg, t', evs[n].op, k) {
        WithdrawingKeepsShowing(t'.entries[k], Apply(cfg, t', evs[n]).entries[k], LastLanded(cfg, t, evs[..n], k, e));
      }
    }
  }

  // ── Repeating an accepted push ────────────────────────────────────────────

  /** What stops a push to an existing row other than its age. */
  predicate Barred(cfg: Config, t: Tables, room: Budget, user: UserId, e: PushEntry) {
    || TooLarge(cfg, e)
    || !MemberOfAll(t, user, Added(t, user, e))
    || (NamesNewBlob(t, user, e) && !OwnsConfirmed(t, user, e.StoredBody().blobKey.value))
    || HasRival(t, user, e, Added(t, user, e))
    || (Revives(t, user, e) && room.live <= 0)
    || !AllDistinct(Dropped(t, user, e))
  }

  lemma WritesIffNewer(cfg: Config, t: Tables, room: Budget, user: UserId, e: PushEntry)
    requires KeyOf(user, e) in t.entries
    ensures Writes(cfg, t, room, user, e) <==> Wins(t.entries[KeyOf(user, e)], e) && !Barred(cfg, t, room, user, e)
  {
    hide TooLarge, MemberOfAll, Added, Dropped, HasRival, NamesNewBlob, OwnsConfirmed, AllDistinct;
  }

  /** A stored push that `e` does not win against. */
  predicate Outlives(last: PushEntry, e: PushEntry) {
    e.updatedAt <= last.updatedAt && (e.Tombstone() ==> last.Tombstone())
  }

  /**
   * After any run, repeating an accepted push changes nothing if and only if the
   * last push stored in its row still outlives it, or something but its age bars it.
   */
  lemma RepeatsChangeNothingIff(
    cfg: Config, t: Tables, room: Budget, user: UserId, device: DeviceId, e: PushEntry, now: int,
    evs: seq<Event>, room': Budget, device': DeviceId, later: int)
    requires Writes(cfg, t, room, user, e)
    ensures var t1 := WriteRow(t, user, device, e, now);
      var t2 := Run(cfg, t1, evs);
      Written(cfg, t2, room', user, device', e, later) == t2 <==>
      Outlives(LastLanded(cfg, t1, evs, KeyOf(user, e), e), e) || Barred(cfg, t2, room', user, e)
  {
    hide Run, LastLanded, Judge, Barred, Writes, Recorded, Release;
    var k := KeyOf(user, e);
    var t1 := WriteRow(t, user, device, e, now);
    TheLastLandedIsStored(cfg, t1, evs, k, e);
    var t2 := Run(cfg, t1, evs);
    WritesIffNewer(cfg, t2, room', user, e);
    if Writes(cfg, t2, room', user, e) {
      assert TextOf(WriteRow(t2, user, device', e, later).entries[k]) != TextOf(t2.entries[k]);
    }
  }

  /** What makes a stored push give way: to a live one, an older delete; to a delete, a newer live push. */
  predicate Undoes(p: PushEntry, e: PushEntry) {
    if e.Tombstone() then !p.Tombstone() && p.updatedAt > e.updatedAt
    else p.Tombstone() && p.updatedAt < e.updatedAt
  }

  lemma LandingThatUndoes(cfg: Config, t: Tables, op: Op, k: RowKey, last: PushEntry, e: PushEntry)
    requires Lands(cfg, t, op, k) && k in t.entries && Shows(t.entries[k], last)
    requires Outlives(last, e) && !Outlives(op.sync.entry, e)
    ensures Undoes(op.sync.entry, e)
  {
    hide Barred;
    WritesIffNewer(cfg, t, op.sync.room, op.sync.user, op.sync.entry);
  }

  /** A push that no longer stands was undone, at some call of the run. */
  lemma {:induction false} WhatUndidAPush(cfg: Config, t: Tables, evs: seq<Event>, k: RowKey, e: PushEntry)
    returns (i: nat)
    requires k in t.entries && Shows(t.entries[k], e)
    requires !Outlives(LastLanded(cfg, t, evs, k, e), e)
    ensures i < |evs| && Lands(cfg, Run(cfg, t, evs[..i]), evs[i].op, k) && Undoes(evs[i].op.sync.entry, e)
    decreases |evs|
  {
    hide Run, Lands, Shows, Undoes;
    assert evs != [];
    var n := |evs| - 1;
    if Outlives(LastLanded(cfg, t, evs[..n], k, e), e) {
      i := n;
      TheLastLandedIsStored(cfg, t, evs[..n], k, e);
      LandingThatUndoes(cfg, Run(cfg, t, evs[..n]), evs[n].op, k, LastLanded(cfg, t, evs[..n], k, e), e);
    } else {
      i := WhatUndidAPush(cfg, t, evs[..n], k, e);
      assert evs[..n][..i] == evs[..i];
    }
  }

  /**
   * So a client may retry blindly as long as nobody sent its row a push that
   * undoes the first one: the retry is stale, or aborts, and changes nothing.
   */
  lemma RetriesAreHarmless(
    cfg: Config, t: Tables, room: Budget, user: UserId, device: DeviceId, e: PushEntry, now: int,
    evs: seq<Event>, room': Budget, device': DeviceId, later: int)
    requires Writes(cfg, t, room, user, e)
    requires forall i :: 0 <= i < |evs| && PushesAt(evs[i].op, KeyOf(user, e)) ==> !Undoes(evs[i].op.sync.entry, e)
    ensures var t2 := Run(cfg, WriteRow(t, user, device, e, now), evs);
      && Written(cfg, t2, room', user, device', e, later) == t2
      && Upsert(cfg, t2, room', user, device', e, later) ==
         if !MemberOfAll(t2, user, Added(t2, user, e)) then Aborted(NotAMember)
         else if NamesNewBlob(t2, user, e) && !OwnsConfirmed(t2, user, e.StoredBody().blobKey.value)
         then Aborted(InvalidBlob)
         else Took(t2, room', ConflictEntry(e.client, StaleUpdate))
  {
    hide Run, Undoes, HasRival, Recorded, Release, MemberOfAll, Added, NamesNewBlob, OwnsConfirmed;
    var k := KeyOf(user, e);
    var t1 := WriteRow(t, user, device, e, now);
    TheLastLandedIsStored(cfg, t1, evs, k, e);
    if !Outlives(LastLanded(cfg, t1, evs, k, e), e) {
      var _ := WhatUndidAPush(cfg, t1, evs, k, e);
    }
  }

  // ── What a delete settles ─────────────────────────────────────────────────

  lemma {:induction false} DeletedRowsStay(cfg: Config, t: Tables, evs: seq<Event>, k: RowKey)
    requires k in t.entries && !t.entries[k].Live()
    requires forall i :: 0 <= i < |evs| && PushesAt(evs[i].op, k) ==>
      evs[i].op.sync.entry.updatedAt <= t.entries[k].updatedAt
    ensures k in Run(cfg, t, evs).entries && OnlyWithdrawn(t.entries[k], Run(cfg, t, evs).entries[k])
  {
    if evs == [] {
    } else {
      hide Apply, Writes;
      var n := |evs| - 1;
      var t' := Run(cfg, t, evs[..n]);
      DeletedRowsStay(cfg, t, evs[..n], k);
      OneCallAtRow(cfg, t', evs[n], k);
      if PushesAt(evs[n].op, k) {
        var PushOne(user, device, e, room) := evs[n].op.sync;
        DeletesHoldAgainstOlderPushes(cfg, t', room, user, device, e, evs[n].now);
      }
    }
  }

  /**
   * Once a delete is stored, no run whose pushes to the row are no newer brings
   * the row back or changes its text; and after it a push still lands exactly
   * when it is newer than the delete and nothing else bars it.
   */
  lemma DeletesHoldOverRuns(
    cfg: Config, t: Tables, evs: seq<Event>, k: RowKey, room: Budget, user: UserId, e: PushEntry)
    requires k in t.entries && !t.entries[k].Live() && KeyOf(user, e) == k
    requires forall i :: 0 <= i < |evs| && PushesAt(evs[i].op, k) ==>
      evs[i].op.sync.entry.updatedAt <= t.entries[k].updatedAt
    ensures var t' := Run(cfg, t, evs);
      && k in t'.entries && !t'.entries[k].Live()
      && OnlyWithdrawn(t.entries[k], t'.entries[k])
      && (t.entries[k].body == BARE_BODY ==> TextOf(t'.entries[k]) == TextOf(t.entries[k]))
      && (Writes(cfg, t', room, user, e) <==>
            t.entries[k].updatedAt < e.updatedAt && !Barred(cfg, t', room, user, e))
  {
    hide Run, Writes, Barred;
    DeletedRowsStay(cfg, t, evs, k);
    WritesIffNewer(cfg, Run(cfg, t, evs), room, user, e);
  }
}
