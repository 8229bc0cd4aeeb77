/** Last-write-wins on one row: which push survives, in which order they arrive, and what a delete settles. */
module LastWrite {
  import opened Wrappers
  import opened Tables
  import opened Push
  import opened Runs
  import RowBudget

  // ── What a push leaves behind ─────────────────────────────────────────────────

  /** The stored row carries what was pushed; a tombstone carries no payload at all. */
  lemma WhatWasPushedIsStored(
    cfg: Config, t: Tables, room: Budget, user: UserId, device: DeviceId, e: PushEntry, now: int)
    requires Upsert(cfg, t, room, user, device, e, now).Took?
    requires Upsert(cfg, t, room, user, device, e, now).answer.AcceptedEntry?
    ensures var t' := Upsert(cfg, t, room, user, device, e, now).t;
      var k := KeyOf(user, e);
      && k in t'.entries
      && var row := t'.entries[k];
      && row.device == device && row.serverTs == now
      && row.updatedAt == e.updatedAt && row.deletedAt == e.deletedAt
      && row.pinned == e.pinned && row.spaceIds == e.spaceIds
      && (e.deletedAt.None? ==> row.body == e.body)
      && (e.deletedAt.Some? ==> row.body == BARE_BODY)
      && (k in t.entries ==> row.kind == t.entries[k].kind && row.createdAt == t.entries[k].createdAt)
      && (k !in t.entries ==> row.kind == e.kind && row.createdAt == e.createdAt)
  {
    hide Judge, Recorded, Release;
  }

  // ── Pushes that stay clear of every other rule ────────────────────────────

  /** A push about one row of its own account that adds no space and no blob. */
  predicate Plain(cfg: Config, user: UserId, k: RowKey, e: PushEntry) {
    KeyOf(user, e) == k && !TooLarge(cfg, e) && e.spaceIds == [] && e.body.blobKey.None?
  }

  predicate Wins(row: Row, e: PushEntry) {
    (e.Tombstone() && row.Live()) || row.updatedAt < e.updatedAt
  }

  /** Only a push that revives a deleted row needs a slot; others onto a stored row do not. */
  predicate HasRoom(row: Row, room: Budget, e: PushEntry) {
    row.Live() || e.Tombstone() || room.live > 0
  }

  /** Onto an existing row without spaces, age alone decides, but for a full account's revivals. */
  lemma PlainPushesAreDecidedByAge(cfg: Config, t: Tables, room: Budget, user: UserId, k: RowKey, e: PushEntry)
    requires k in t.entries && t.entries[k].spaceIds == [] && Plain(cfg, user, k, e)
    ensures Writes(cfg, t, room, user, e) <==> Wins(t.entries[k], e) && HasRoom(t.entries[k], room, e)
  {
    assert Added(t, user, e) == [] && Dropped(t, user, e) == [];
    assert !HasRival(t, user, e, []);
  }

  /** The part of a row a push decides. */
  datatype Text = Text(body: Body, updatedAt: int, deletedAt: Option<int>, pinned: bool)

  function TextOf(row: Row): Text {
    Text(row.body, row.updatedAt, row.deletedAt, row.pinned)
  }

  function TextPushed(e: PushEntry): Text {
    Text(e.StoredBody(), e.updatedAt, e.deletedAt, e.pinned)
  }

  function Arrive(cfg: Config, t: Tables, room: Budget, user: UserId, device: DeviceId, es: seq<PushEntry>, now: int): Tables {
    if es == [] then t
    else Written(cfg, Arrive(cfg, t, room, user, device, es[..|es| - 1], now), room, user, device, es[|es| - 1], now)
  }

  lemma OneArrival(
    cfg: Config, t: Tables, room: Budget, user: UserId, device: DeviceId, k: RowKey, e: PushEntry, now: int)
    requires k in t.entries && t.entries[k].spaceIds == [] && Plain(cfg, user, k, e)
    ensures var t' := Written(cfg, t, room, user, device, e, now);
      && k in t'.entries && t'.entries[k].spaceIds == []
      && TextOf(t'.entries[k]) ==
         if Wins(t.entries[k], e) && HasRoom(t.entries[k], room, e) then TextPushed(e) else TextOf(t.entries[k])
  {
    hide Judge, Recorded, Release;
    PlainPushesAreDecidedByAge(cfg, t, room, user, k, e);
  }

  // ── Live edits in any order ───────────────────────────────────────────────

  /** `winner` is the newest of the edits, or the row as it was when none is newer. */
  ghost predicate IsNewest(winner: Text, start: Text, es: seq<PushEntry>) {
    && (winner == start || exists e :: e in es && TextPushed(e) == winner)
    && start.updatedAt <= winner.updatedAt
    && (forall e :: e in es ==> e.updatedAt <= winner.updatedAt)
  }

  lemma {:induction false} LiveEditsKeepTheNewest(
    cfg: Config, t: Tables, room: Budget, user: UserId, device: DeviceId, k: RowKey, es: seq<PushEntry>, now: int)
    requires k in t.entries && t.entries[k].spaceIds == [] && t.entries[k].Live()
    requires forall e :: e in es ==> Plain(cfg, user, k, e) && !e.Tombstone()
    ensures var t' := Arrive(cfg, t, room, user, device, es, now);
      && k in t'.entries && t'.entries[k].spaceIds == [] && t'.entries[k].Live()
      && IsNewest(TextOf(t'.entries[k]), TextOf(t.entries[k]), es)
  {
    if es == [] {
    } else {
      hide Judge, Written, TooLarge;
      var n := |es| - 1;
      LiveEditsKeepTheNewest(cfg, t, room, user, device, k, es[..n], now);
      OneArrival(cfg, Arrive(cfg, t, room, user, device, es[..n], now), room, user, device, k, es[n], now);
      assert forall e :: e in es ==> e in es[..n] || e == es[n];
    }
  }

  /** No two of the edits, nor an edit and the row as it was, share an `updated_at`. */
  ghost predicate DistinctAges(start: Text, es: seq<PushEntry>) {
    && (forall e :: e in es ==> e.updatedAt != start.updatedAt)
    && (forall d, e :: d in es && e in es && d.updatedAt == e.updatedAt ==> d == e)
  }

  /** Live edits with distinct ages leave the same text in every order of arrival. */
  lemma LiveEditsCommute(
    cfg: Config, t: Tables, room: Budget, user: UserId, k: RowKey,
    es: seq<PushEntry>, fs: seq<PushEntry>, device: DeviceId, now: int, device': DeviceId, now': int)
    requires k in t.entries && t.entries[k].spaceIds == [] && t.entries[k].Live()
    requires forall e :: e in es ==> Plain(cfg, user, k, e) && !e.Tombstone()
    requires multiset(es) == multiset(fs) && DistinctAges(TextOf(t.entries[k]), es)
    ensures k in Arrive(cfg, t, room, user, device, es, now).entries
    ensures k in Arrive(cfg, t, room, user, device', fs, now').entries
    ensures TextOf(Arrive(cfg, t, room, user, device, es, now).entries[k])
         == TextOf(Arrive(cfg, t, room, user, device', fs, now').entries[k])
  {
    hide Arrive, TooLarge;
    forall e
      ensures e in es <==> e in fs
    {
      assert e in es <==> e in multiset(es);
      assert e in fs <==> e in multiset(fs);
    }
    LiveEditsKeepTheNewest(cfg, t, room, user, device, k, es, now);
    LiveEditsKeepTheNewest(cfg, t, room, user, device', k, fs, now');
  }

  // ── Deletes ───────────────────────────────────────────────────────────────

  /** A deleted row withstands one push that is no newer. */
  lemma DeletesHoldAgainstOlderPushes(
    cfg: Config, t: Tables, room: Budget, user: UserId, device: DeviceId, e: PushEntry, now: int)
    requires KeyOf(user, e) in t.entries && !t.entries[KeyOf(user, e)].Live()
    requires e.updatedAt <= t.entries[KeyOf(user, e)].updatedAt
    ensures !Writes(cfg, t, room, user, e)
    ensures Written(cfg, t, room, user, device, e, now) == t
  {
  }

  /**
   * A delete lands on a live row whatever its age, so it does not commute with
   * every edit: under one budget the two orders leave the same text exactly when
   * the edit is no newer than the delete, or there is no room to bring the row back.
   */
  lemma EditAndDeleteCommuteIff(
    cfg: Config, t: Tables, room: Budget, user: UserId, device: DeviceId, k: RowKey,
    edit: PushEntry, delete: PushEntry, now: int)
    requires k in t.entries && t.entries[k].spaceIds == [] && t.entries[k].Live()
    requires Plain(cfg, user, k, edit) && Plain(cfg, user, k, delete)
    requires !edit.Tombstone() && delete.Tombstone()
    ensures var ab := Arrive(cfg, t, room, user, device, [edit, delete], now);
      var ba := Arrive(cfg, t, room, user, device, [delete, edit], now);
      && k in ab.entries && k in ba.entries
      && TextOf(ab.entries[k]) == TextPushed(delete)
      && (TextOf(ab.entries[k]) == TextOf(ba.entries[k]) <==> edit.updatedAt <= delete.updatedAt || room.live <= 0)
  {
    hide Written, TooLarge;
    TwoArrivals(cfg, t, room, user, device, edit, delete, now);
    TwoArrivals(cfg, t, room, user, device, delete, edit, now);
    OneArrival(cfg, t, room, user, device, k, edit, now);
    OneArrival(cfg, t, room, user, device, k, delete, now);
    OneArrival(cfg, Written(cfg, t, room, user, device, edit, now), room, user, device, k, delete, now);
    OneArrival(cfg, Written(cfg, t, room, user, device, delete, now), room, user, device, k, edit, now);
  }

  lemma TwoArrivals(
    cfg: Config, t: Tables, room: Budget, user: UserId, device: DeviceId, a: PushEntry, b: PushEntry, now: int)
    ensures Arrive(cfg, t, room, user, device, [a, b], now)
      == Written(cfg, Written(cfg, t, room, user, device, a, now), room, user, device, b, now)
  {
    hide Written;
    assert [a, b][..1] == [a] && [a][..0] == [];
    assert Arrive(cfg, t, room, user, device, [a], now) == Written(cfg, t, room, user, device, a, now);
  }

  /** As two calls, each with the budget it finds: the delete makes one more slot free for the edit. */
  lemma EditAndDeleteAsCallsCommuteIff(
    cfg: Config, t: Tables, user: UserId, device: DeviceId, k: RowKey,
    edit: PushEntry, delete: PushEntry, now: int, later: int)
    requires k in t.entries && t.entries[k].spaceIds == [] && t.entries[k].Live()
    requires Plain(cfg, user, k, edit) && Plain(cfg, user, k, delete)
    requires !edit.Tombstone() && delete.Tombstone()
    ensures var ab := Answered(cfg, Answered(cfg, t, PushAll(user, device, [edit], [now])),
                               PushAll(user, device, [delete], [later]));
      var ba := Answered(cfg, Answered(cfg, t, PushAll(user, device, [delete], [now])),
                         PushAll(user, device, [edit], [later]));
      && k in ab.entries && k in ba.entries
      && TextOf(ab.entries[k]) == TextPushed(delete)
      && (TextOf(ab.entries[k]) == TextOf(ba.entries[k]) <==>
            edit.updatedAt <= delete.updatedAt || |LiveKeys(t, user)| > cfg.maxEntries)
  {
    hide Answered, Written, TooLarge, LiveKeys, BuriedKeys;
    var room := OpeningBudget(cfg, t, user);
    var edited := Written(cfg, t, room, user, device, edit, now);
    var deleted := Written(cfg, t, room, user, device, delete, now);
    OnePush(cfg, t, user, device, edit, now);
    OnePush(cfg, t, user, device, delete, now);
    OnePush(cfg, edited, user, device, delete, later);
    OnePush(cfg, deleted, user, device, edit, later);
    OneArrival(cfg, t, room, user, device, k, edit, now);
    OneArrival(cfg, t, room, user, device, k, delete, now);
    OneArrival(cfg, edited, OpeningBudget(cfg, edited, user), user, device, k, delete, later);
    OneArrival(cfg, deleted, OpeningBudget(cfg, deleted, user), user, device, k, edit, later);
    DeletingFreesASlot(cfg, t, user, device, k, delete, now);
  }

  lemma DeletingFreesASlot(
    cfg: Config, t: Tables, user: UserId, device: DeviceId, k: RowKey, delete: PushEntry, now: int)
    requires k in t.entries && t.entries[k].spaceIds == [] && t.entries[k].Live()
    requires Plain(cfg, user, k, delete) && delete.Tombstone()
    ensures var deleted := Written(cfg, t, OpeningBudget(cfg, t, user), user, device, delete, now);
      OpeningBudget(cfg, deleted, user).live == OpeningBudget(cfg, t, user).live + 1
  {
    hide Judge, WriteRow, LiveKeys, BuriedKeys, TooLarge;
    PlainPushesAreDecidedByAge(cfg, t, OpeningBudget(cfg, t, user), user, k, delete);
    RowBudget.SizesAfterWrite(t, user, device, delete, now);
  }

  /** As one batch, counted once at its start: the slot the delete frees is not seen by the edit. */
  lemma EditAndDeleteInABatchCommuteIff(
    cfg: Config, t: Tables, user: UserId, device: DeviceId, k: RowKey,
    edit: PushEntry, delete: PushEntry, now: int, later: int)
    requires k in t.entries && t.entries[k].spaceIds == [] && t.entries[k].Live()
    requires Plain(cfg, user, k, edit) && Plain(cfg, user, k, delete)
    requires !edit.Tombstone() && delete.Tombstone()
    ensures var ab := RunBatch(cfg, t, user, device, [edit, delete], [now, later]);
      var ba := RunBatch(cfg, t, user, device, [delete, edit], [now, later]);
      && ab.Ran? && ba.Ran? && k in ab.t.entries && k in ba.t.entries
      && TextOf(ab.t.entries[k]) == TextPushed(delete)
      && (TextOf(ab.t.entries[k]) == TextOf(ba.t.entries[k]) <==>
            edit.updatedAt <= delete.updatedAt || |LiveKeys(t, user)| >= cfg.maxEntries)
  {
    hide Written, RunFrom, TooLarge, LiveKeys, BuriedKeys;
    var room := OpeningBudget(cfg, t, user);
    TwoInABatch(cfg, t, room, user, device, k, edit, delete, now, later);
    TwoInABatch(cfg, t, room, user, device, k, delete, edit, now, later);
    OneArrival(cfg, t, room, user, device, k, edit, now);
    OneArrival(cfg, t, room, user, device, k, delete, now);
    OneArrival(cfg, Written(cfg, t, room, user, device, edit, now), room, user, device, k, delete, later);
    OneArrival(cfg, Written(cfg, t, room, user, device, delete, now), room, user, device, k, edit, later);
  }

  lemma PlainPushesAreNotRefused(cfg: Config, t: Tables, room: Budget, user: UserId, k: RowKey, e: PushEntry)
    requires k in t.entries && t.entries[k].spaceIds == [] && Plain(cfg, user, k, e)
    ensures !Judge(cfg, t, room, user, e).Refused?
  {
    assert Added(t, user, e) == [] && Dropped(t, user, e) == [];
  }

  lemma TwoInABatch(
    cfg: Config, t: Tables, room: Budget, user: UserId, device: DeviceId, k: RowKey,
    a: PushEntry, b: PushEntry, now: int, later: int)
    requires k in t.entries && t.entries[k].spaceIds == [] && t.entries[k].Live()
    requires Plain(cfg, user, k, a) && Plain(cfg, user, k, b)
    ensures var batch := RunFrom(cfg, t, room, user, device, [a, b], [now, later]);
      batch.Ran? && batch.t == Written(cfg, Written(cfg, t, room, user, device, a, now), room, user, device, b, later)
  {
    hide Judge, WriteRow, TooLarge;
    PlainPushesAreNotRefused(cfg, t, room, user, k, a);
    var first := Upsert(cfg, t, room, user, device, a, now);
    OneArrival(cfg, t, room, user, device, k, a, now);
    assert first.room == room;
    PlainPushesAreNotRefused(cfg, first.t, room, user, k, b);
    var second := Upsert(cfg, first.t, room, user, device, b, later);
    assert [a, b][1..] == [b] && [now, later][1..] == [later];
    assert [b][1..] == [] && [later][1..] == [];
    assert RunFrom(cfg, second.t, second.room, user, device, [], []).Ran?;
    assert RunFrom(cfg, first.t, room, user, device, [b], [later]).t == second.t;
  }
}
