/** No object a live entry points at is released or collected. */
module BlobSafety {
  import opened Wrappers
  import opened Tables
  import opened Push
  import opened Runs
  import opened Sharing
  import Blobs
  import TakeDown

  predicate Holds(t: Tables, k: RowKey, key: BlobKey) {
    k in t.entries && t.entries[k].Live() && t.entries[k].body.blobKey == Some(key)
  }

  /** Every live row's blob is confirmed and belongs to the row's account. */
  ghost predicate BlobsInPlace(t: Tables) {
    forall k, key :: Holds(t, k, key) ==> OwnsConfirmed(t, k.user, key)
  }

  /** No two live rows name one blob. */
  ghost predicate NoneShared(t: Tables) {
    forall j, k, key :: Holds(t, j, key) && Holds(t, k, key) ==> j == k
  }

  /** The push names no blob that another live row holds. */
  ghost predicate NamesNoHeldBlob(t: Tables, user: UserId, e: PushEntry) {
    forall k, key :: e.StoredBody().blobKey == Some(key) && Holds(t, k, key) ==> k == KeyOf(user, e)
  }

  ghost predicate AnotherHolds(t: Tables, key: Option<BlobKey>, than: RowKey) {
    exists k, b :: key == Some(b) && k != than && Holds(t, k, b)
  }

  /**
   * An accepted push keeps every live row's blob in place exactly when no other
   * live row holds the blob that the push takes off its own row.
   */
  lemma WriteKeepsBlobsIff(
    cfg: Config, t: Tables, room: Budget, user: UserId, device: DeviceId, e: PushEntry, now: int)
    requires TombstonesBare(t) && BlobsInPlace(t) && Writes(cfg, t, room, user, e)
    ensures BlobsInPlace(WriteRow(t, user, device, e, now)) <==>
      !AnotherHolds(t, Superseded(t, user, e), KeyOf(user, e))
  {
    hide Recorded, HasRival;
    var t', key := WriteRow(t, user, device, e, now), KeyOf(user, e);
    var gone := Superseded(t, user, e);
    if gone.Some? {
      assert Holds(t, key, gone.value);
    }
    forall k, b: BlobKey | k != key
      ensures Holds(t', k, b) <==> Holds(t, k, b)
    {
    }
    if AnotherHolds(t, gone, key) {
      var k, b :| gone == Some(b) && k != key && Holds(t, k, b);
      assert Holds(t', k, b) && !OwnsConfirmed(t', k.user, b);
    } else {
      forall k, b: BlobKey | Holds(t', k, b)
        ensures OwnsConfirmed(t', k.user, b)
      {
        if k == key {
          HeldByTheWrittenRow(cfg, t, room, user, e, b);
        } else {
          assert Holds(t, k, b) && gone != Some(b);
        }
      }
    }
  }

  lemma HeldByTheWrittenRow(cfg: Config, t: Tables, room: Budget, user: UserId, e: PushEntry, b: BlobKey)
    requires TombstonesBare(t) && BlobsInPlace(t) && Writes(cfg, t, room, user, e)
    requires e.StoredBody().blobKey == Some(b)
    ensures OwnsConfirmed(t, user, b) && Superseded(t, user, e) != Some(b)
  {
    hide HasRival;
    if !NamesNewBlob(t, user, e) {
      assert Holds(t, KeyOf(user, e), b);
    }
  }

  lemma WriteSharesNothing(t: Tables, user: UserId, device: DeviceId, e: PushEntry, now: int)
    requires NoneShared(t) && NamesNoHeldBlob(t, user, e)
    ensures NoneShared(WriteRow(t, user, device, e, now))
    ensures TombstonesBare(t) ==> !AnotherHolds(t, Superseded(t, user, e), KeyOf(user, e))
  {
    hide Recorded, Release;
    var t', key := WriteRow(t, user, device, e, now), KeyOf(user, e);
    forall k, b: BlobKey | k != key
      ensures Holds(t', k, b) <==> Holds(t, k, b)
    {
    }
    if TombstonesBare(t) && Superseded(t, user, e).Some? {
      assert Holds(t, key, Superseded(t, user, e).value);
    }
  }

  // ── The other calls ───────────────────────────────────────────────────────

  ghost predicate SameHolders(t: Tables, t': Tables) {
    forall k, b :: Holds(t', k, b) <==> Holds(t, k, b)
  }

  lemma TakeDownKeepsHolders(
    t: Tables, space: SpaceId, client: ClientId, etype: EntryType, user: UserId, now: int)
    ensures SameHolders(t, TakeDown.TakenDown(t, space, client, etype, user, now))
  {
    hide TakeDown.Answered, Recorded;
  }

  lemma ConfirmKeepsConfirmed(
    t: Tables, user: UserId, key: BlobKey, head: Option<Blobs.Head>, owner: UserId, held: BlobKey)
    requires OwnsConfirmed(t, owner, held)
    ensures OwnsConfirmed(Blobs.Confirmed(t, user, key, head), owner, held)
  {
    hide Blobs.Used, Blobs.Referenced;
  }

  /** Every other storage call leaves alone a blob that is confirmed and referenced. */
  lemma StorageSparesReferenced(t: Tables, op: BlobOp, now: int, owner: UserId, held: BlobKey)
    requires OwnsConfirmed(t, owner, held) && Blobs.Referenced(t, held)
    ensures OwnsConfirmed(ApplyBlob(t, op, now), owner, held)
  {
    hide Blobs.Confirmed, Blobs.UsedWithReservations, Blobs.Referenced;
    if op.ConfirmUpload? {
      ConfirmKeepsConfirmed(t, op.user, op.key, op.head, owner, held);
    }
  }

  /** No storage call, however late, takes a blob from under a live row. */
  lemma StorageKeepsBlobs(t: Tables, op: BlobOp, now: int)
    requires BlobsInPlace(t)
    ensures BlobsInPlace(ApplyBlob(t, op, now))
  {
    hide ApplyBlob;
    forall k, b | Holds(ApplyBlob(t, op, now), k, b)
      ensures OwnsConfirmed(ApplyBlob(t, op, now), k.user, b)
    {
      assert Holds(t, k, b);
      StorageSparesReferenced(t, op, now, k.user, b);
    }
  }

  /** Whatever may be collected, no live entry points at it. */
  lemma NothingInUseIsCollected(t: Tables, now: int, key: BlobKey)
    requires BlobsInPlace(t) && Blobs.Referenced(t, key)
    ensures key !in Blobs.Orphans(t, now) && key !in Blobs.Idle(t, now)
    ensures forall stuck :: key in Blobs.Cleaned(t, now, stuck).blobs
  {
    var k :| k in t.entries && t.entries[k].Live() && t.entries[k].body.blobKey == Some(key);
    assert Holds(t, k, key);
  }

  // ── Runs ──────────────────────────────────────────────────────────────────

  ghost predicate Tidy(t: Tables) {
    BlobsInPlace(t) && NoneShared(t)
  }

  ghost predicate Polite(t: Tables, ev: Event) {
    ev.op.Sync? && ev.op.sync.PushOne? ==> NamesNoHeldBlob(t, ev.op.sync.user, ev.op.sync.entry)
  }

  ghost predicate AllPolite(cfg: Config, t: Tables, evs: seq<Event>) {
    forall i :: 0 <= i < |evs| ==> Polite(Run(cfg, t, evs[..i]), evs[i])
  }

  lemma PoliteToTheLast(cfg: Config, t: Tables, evs: seq<Event>)
    requires evs != [] && AllPolite(cfg, t, evs)
    ensures AllPolite(cfg, t, evs[..|evs| - 1]) && Polite(Run(cfg, t, evs[..|evs| - 1]), evs[|evs| - 1])
  {
    hide Run, Polite;
    var n := |evs| - 1;
    assert forall i :: 0 <= i < n ==> evs[..n][..i] == evs[..i];
  }

  lemma SyncKeepsTidy(cfg: Config, t: Tables, op: SyncOp, now: int)
    requires Tidy(t) && TombstonesBare(t)
    requires op.PushOne? ==> NamesNoHeldBlob(t, op.user, op.entry)
    ensures Tidy(ApplySync(cfg, t, op, now))
  {
    hide WriteRow, Writes, TakeDown.TakenDown;
    match op
    case PushOne(user, device, e, room) =>
      if Writes(cfg, t, room, user, e) {
        WriteSharesNothing(t, user, device, e, now);
        WriteKeepsBlobsIff(cfg, t, room, user, device, e, now);
      }
    case RemoveFromSpace(space, client, etype, user) =>
      TakeDownKeepsHolders(t, space, client, etype, user, now);
    case PruneRemovals =>
      assert SameHolders(t, ApplySync(cfg, t, op, now));
  }

  lemma StepKeepsTidy(cfg: Config, t: Tables, ev: Event)
    requires Tidy(t) && TombstonesBare(t) && Polite(t, ev)
    ensures Tidy(Apply(cfg, t, ev))
  {
    hide ApplySync, ApplyBlob, ApplySpace, ApplyDoor;
    match ev.op
    case Sync(op) => SyncKeepsTidy(cfg, t, op, ev.now);
    case Storage(op) =>
      StorageKeepsBlobs(t, op, ev.now);
      assert SameHolders(t, ApplyBlob(t, op, ev.now));
    case Social(op) => assert SameHolders(t, ApplySpace(t, op, ev.now));
    case AtDoor(op) => assert SameHolders(t, ApplyDoor(t, op, ev.now));
  }

  /**
   * As long as no push names a blob another live row holds, every serial run of
   * pushes, uploads, releases and sweeps keeps each live row's blob confirmed and
   * its account's, so neither sweep ever collects an object in use.
   */
  lemma {:induction false} RunKeepsTidy(cfg: Config, t: Tables, evs: seq<Event>, clock: int)
    requires Tidy(t) && Sound(t, clock) && InOrder(clock, evs) && AllPolite(cfg, t, evs)
    ensures Tidy(Run(cfg, t, evs))
  {
    if evs == [] {
    } else {
      hide Apply, Tidy, Polite, AllPolite, OneAuthor, RemovalsTrail, StampedBy;
      var n := |evs| - 1;
      PoliteToTheLast(cfg, t, evs);
      RunKeepsTidy(cfg, t, evs[..n], clock);
      RunKeepsSound(cfg, t, evs[..n], clock);
      StepKeepsTidy(cfg, Run(cfg, t, evs[..n]), evs[n]);
    }
  }

  /**
   * The rule no call enforces: two live rows of one account may name one blob.
   * Deleting either of them then leaves the other's object to the collector.
   */
  lemma SharedBlobIsCollected(
    cfg: Config, t: Tables, room: Budget, user: UserId, device: DeviceId, e: PushEntry, now: int,
    other: RowKey, key: BlobKey)
    requires TombstonesBare(t) && BlobsInPlace(t) && e.Tombstone() && Writes(cfg, t, room, user, e)
    requires Holds(t, KeyOf(user, e), key) && Holds(t, other, key) && other != KeyOf(user, e)
    ensures var t' := WriteRow(t, user, device, e, now);
      && Blobs.Referenced(t', key)
      && key in t'.blobs && key in Blobs.Orphans(t', t'.blobs[key].createdAt + Blobs.ORPHAN_TTL_MS + 1)
  {
    hide Judge, Recorded;
    var t' := WriteRow(t, user, device, e, now);
    assert Holds(t', other, key);
  }
}
