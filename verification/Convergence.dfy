/**
 * A device that pulls ends up with what the server has. The device merges as
 * src/sync/schemas.py prescribes: it drops what a page's removals name, then
 * stores what its entries carry, and deletes nothing a page does not mention.
 */
module Convergence {
  import opened Wrappers
  import opened Tables
  import opened Paging
  import opened Pull
  import opened Runs
  import opened Sharing
  import Blobs
  import TakeDown
  import Push

  /** Where a device files an entry: under a space it came through, or as its user's own. */
  datatype Slot =
    | InSpace(space: SpaceId, client: ClientId, etype: EntryType)
    | Mine(client: ClientId, etype: EntryType)

  datatype Device = Device(user: UserId, want: Option<EntryType>, cursor: int, replica: map<Slot, View>)

  // ── The client's merge ────────────────────────────────────────────────────

  function SlotsOf(user: UserId, v: View): set<Slot> {
    (set s | s in v.row.spaceIds :: InSpace(s, v.key.client, v.key.etype))
    + (if v.key.user == user then {Mine(v.key.client, v.key.etype)} else {})
  }

  function Dropped(replica: map<Slot, View>, removals: seq<Stamped<RemovalKey>>): map<Slot, View> {
    replica - set r | r in removals :: InSpace(r.item.space, r.item.client, r.item.etype)
  }

  predicate FiledUnder(slot: Slot, spaces: seq<SpaceId>, v: View) {
    slot.InSpace? && slot.space in spaces && slot == InSpace(slot.space, v.key.client, v.key.etype)
  }

  function Filed(replica: map<Slot, View>, spaces: seq<SpaceId>, v: View): (r: map<Slot, View>)
    ensures forall slot :: slot in r <==> slot in replica || FiledUnder(slot, spaces, v)
    ensures forall slot :: slot in r ==> r[slot] == (if FiledUnder(slot, spaces, v) then v else replica[slot])
  {
    if spaces == [] then replica
    else Filed(replica, spaces[1..], v)[InSpace(spaces[0], v.key.client, v.key.etype) := v]
  }

  /** The view is filed in every slot it belongs to, over what was there. */
  function Put(replica: map<Slot, View>, user: UserId, v: View): (r: map<Slot, View>)
    ensures forall slot :: slot in r <==> slot in replica || slot in SlotsOf(user, v)
    ensures forall slot :: slot in r ==> r[slot] == (if slot in SlotsOf(user, v) then v else replica[slot])
  {
    var filed := Filed(replica, v.row.spaceIds, v);
    if v.key.user == user then filed[Mine(v.key.client, v.key.etype) := v] else filed
  }

  function Stored(replica: map<Slot, View>, user: UserId, views: seq<View>): map<Slot, View> {
    if views == [] then replica
    else Put(Stored(replica, user, views[..|views| - 1]), user, views[|views| - 1])
  }

  /** The views of the rows a page names, in page order. */
  function Views(t: Tables, user: UserId, rows: seq<Stamped<RowKey>>): (views: seq<View>)
    requires forall r :: r in rows ==> r.item in t.entries
    ensures |views| == |rows|
    ensures forall i :: 0 <= i < |rows| ==> views[i] == ViewOf(t, user, rows[i].item)
  {
    if rows == [] then []
    else Views(t, user, rows[..|rows| - 1]) + [ViewOf(t, user, rows[|rows| - 1].item)]
  }

  function Latest<T>(cursor: int, rows: seq<Stamped<T>>): (latest: int)
    ensures cursor <= latest
  {
    if rows == [] then cursor
    else
      var rest := Latest(cursor, rows[1..]);
      if rows[0].ts > rest then rows[0].ts else rest
  }

  /** Caught up, a device stands at the newest stamp it was sent. */
  function CursorAfter(cursor: int, out: Pulled): int {
    match out.next
    case Some(c) => c
    case None => Latest(Latest(cursor, out.entries), out.removals)
  }

  function Receive(t: Tables, dev: Device, out: Pulled): Device
    requires forall r :: r in out.entries ==> r.item in t.entries
  {
    dev.(cursor := CursorAfter(dev.cursor, out),
         replica := Stored(Dropped(dev.replica, out.removals), dev.user, Views(t, dev.user, out.entries)))
  }

  // ── Agreement ─────────────────────────────────────────────────────────────

  /** The slots a device is served: its own, and those of the spaces it is in. */
  predicate Tracks(t: Tables, dev: Device, slot: Slot) {
    Wanted(dev.want, slot.etype) && (slot.InSpace? ==> MemberKey(slot.space, dev.user) in t.members)
  }

  predicate Fills(t: Tables, user: UserId, k: RowKey, slot: Slot) {
    && k in t.entries && Sees(t, user, k)
    && match slot
       case InSpace(s, client, etype) => k.client == client && k.etype == etype && s in t.entries[k].spaceIds
       case Mine(client, etype) => k == RowKey(user, client, etype)
  }

  /** The slot holds exactly the view of the row that fills it now, or nothing if none does. */
  ghost predicate Agrees(t: Tables, dev: Device, slot: Slot) {
    && (forall k :: Fills(t, dev.user, k, slot) ==>
          slot in dev.replica && dev.replica[slot] == ViewOf(t, dev.user, k))
    && (slot in dev.replica ==> exists k :: Fills(t, dev.user, k, slot))
  }

  predicate RemovedAfter(t: Tables, user: UserId, slot: Slot, cursor: int) {
    slot.InSpace? &&
    var rk := RemovalKey(slot.space, slot.client, slot.etype);
    rk in t.removals && Told(t, user, rk) && t.removals[rk].serverTs > cursor
  }

  predicate FilledAfter(t: Tables, user: UserId, k: RowKey, slot: Slot, cursor: int) {
    Fills(t, user, k, slot) && t.entries[k].serverTs > cursor
  }

  /** Something about the slot is still to come. */
  ghost predicate Ahead(t: Tables, user: UserId, slot: Slot, cursor: int) {
    RemovedAfter(t, user, slot, cursor) || exists k :: FilledAfter(t, user, k, slot, cursor)
  }

  /** Every slot agrees already, unless something about it lies above the cursor. */
  ghost predicate Following(t: Tables, dev: Device) {
    forall slot :: Tracks(t, dev, slot) ==> Ahead(t, dev.user, slot, dev.cursor) || Agrees(t, dev, slot)
  }

  ghost predicate InStep(t: Tables, dev: Device) {
    forall slot :: Tracks(t, dev, slot) ==> Agrees(t, dev, slot)
  }

  // ── A page arrives ────────────────────────────────────────────────────────

  lemma FillsAreUnique(t: Tables, user: UserId, j: RowKey, k: RowKey, slot: Slot)
    requires OneAuthor(t) && Fills(t, user, j, slot) && Fills(t, user, k, slot)
    ensures j == k
  {
    if slot.InSpace? {
      assert Carries(t, j, slot.space) && Carries(t, k, slot.space) && SameEntry(j, k);
    }
  }

  lemma ViewsReachTheirSlots(t: Tables, dev: Device, k: RowKey, slot: Slot)
    requires k in t.entries && Sees(t, dev.user, k) && Tracks(t, dev, slot)
    ensures slot in SlotsOf(dev.user, ViewOf(t, dev.user, k)) <==> Fills(t, dev.user, k, slot)
  {
  }

  /** A slot holds the last view stored into it, and is untouched when there is none. */
  lemma {:induction false} LastStoredWins(replica: map<Slot, View>, user: UserId, views: seq<View>, slot: Slot)
    ensures var r := Stored(replica, user, views);
      if exists i :: 0 <= i < |views| && slot in SlotsOf(user, views[i])
      then slot in r && exists i :: 0 <= i < |views| && slot in SlotsOf(user, views[i]) && r[slot] == views[i]
      else (slot in r <==> slot in replica) && (slot in r ==> r[slot] == replica[slot])
  {
    if views == [] {
    } else {
      var n := |views| - 1;
      LastStoredWins(replica, user, views[..n], slot);
      var r := Stored(replica, user, views);
      if slot in SlotsOf(user, views[n]) {
        assert r[slot] == views[n];
      } else if i :| 0 <= i < |views| && slot in SlotsOf(user, views[i]) {
        assert views[..n][i] == views[i];
        var j :| 0 <= j < n && slot in SlotsOf(user, views[..n][j])
          && Stored(replica, user, views[..n])[slot] == views[..n][j];
        assert views[..n][j] == views[j];
      } else {
        assert forall i :: 0 <= i < n ==> views[..n][i] == views[i];
      }
    }
  }

  ghost predicate PageFills(t: Tables, user: UserId, out: Pulled, slot: Slot) {
    exists r :: r in out.entries && Fills(t, user, r.item, slot)
  }

  predicate PageRemoves(out: Pulled, slot: Slot) {
    exists r :: r in out.removals && slot == InSpace(r.item.space, r.item.client, r.item.etype)
  }

  predicate SameAt(a: map<Slot, View>, b: map<Slot, View>, slot: Slot) {
    (slot in a <==> slot in b) && (slot in a ==> a[slot] == b[slot])
  }

  lemma FilledSlotAgrees(t: Tables, dev: Device, k: RowKey, slot: Slot)
    requires OneAuthor(t) && Fills(t, dev.user, k, slot)
    requires slot in dev.replica && dev.replica[slot] == ViewOf(t, dev.user, k)
    ensures Agrees(t, dev, slot)
  {
    hide OneAuthor, ViewOf, Sees;
    forall j | Fills(t, dev.user, j, slot)
      ensures j == k
    {
      FillsAreUnique(t, dev.user, j, k, slot);
    }
  }

  /** What one page does to one slot. */
  lemma ReceivedAt(t: Tables, dev: Device, out: Pulled, slot: Slot)
    requires OneAuthor(t) && Tracks(t, dev, slot)
    requires forall r :: r in out.entries ==> r.item in t.entries && Sees(t, dev.user, r.item)
    ensures Receive(t, dev, out).user == dev.user && Receive(t, dev, out).want == dev.want
    ensures PageFills(t, dev.user, out, slot) ==> Agrees(t, Receive(t, dev, out), slot)
    ensures !PageFills(t, dev.user, out, slot) && PageRemoves(out, slot) ==> slot !in Receive(t, dev, out).replica
    ensures !PageFills(t, dev.user, out, slot) && !PageRemoves(out, slot) ==>
      SameAt(dev.replica, Receive(t, dev, out).replica, slot)
  {
    hide Sees, ViewOf, SlotsOf, Fills, OneAuthor, Agrees, Tracks;
    var views := Views(t, dev.user, out.entries);
    LastStoredWins(Dropped(dev.replica, out.removals), dev.user, views, slot);
    forall i | 0 <= i < |views|
      ensures slot in SlotsOf(dev.user, views[i]) <==> Fills(t, dev.user, out.entries[i].item, slot)
    {
      assert out.entries[i] in out.entries;
      ViewsReachTheirSlots(t, dev, out.entries[i].item, slot);
    }
    if PageFills(t, dev.user, out, slot) {
      var r :| r in out.entries && Fills(t, dev.user, r.item, slot);
      var i :| 0 <= i < |out.entries| && out.entries[i] == r;
      assert slot in SlotsOf(dev.user, views[i]);
      var stored := Stored(Dropped(dev.replica, out.removals), dev.user, views);
      var j :| 0 <= j < |views| && slot in SlotsOf(dev.user, views[j]) && stored[slot] == views[j];
      assert out.entries[j] in out.entries;
      FilledSlotAgrees(t, Receive(t, dev, out), out.entries[j].item, slot);
    }
  }

  /** A row that carries a space again is stamped no earlier than the record of its leaving. */
  lemma RemovedMeansGone(t: Tables, user: UserId, slot: Slot, cursor: int, k: RowKey)
    requires RemovalsTrail(t) && RemovedAfter(t, user, slot, cursor) && Fills(t, user, k, slot)
    ensures FilledAfter(t, user, k, slot, cursor)
  {
    var rk := RemovalKey(slot.space, slot.client, slot.etype);
    assert Names(rk, k) && Carries(t, k, rk.space);
  }

  lemma PageCoversSlot(
    t: Tables, dev: Device, limit: nat, out: Pulled, slot: Slot)
    requires Answers(t, dev.user, dev.cursor, limit, dev.want, out) && Tracks(t, dev, slot)
    ensures forall r :: r in out.entries ==> r.item in t.entries && Sees(t, dev.user, r.item)
    ensures PageFills(t, dev.user, out, slot) ==> exists k :: FilledAfter(t, dev.user, k, slot, dev.cursor)
    ensures PageRemoves(out, slot) ==> RemovedAfter(t, dev.user, slot, dev.cursor)
    ensures forall k :: FilledAfter(t, dev.user, k, slot, dev.cursor) && UpTo(out.next, t.entries[k].serverTs) ==>
      PageFills(t, dev.user, out, slot)
    ensures RemovedAfter(t, dev.user, slot, dev.cursor) ==>
      UpTo(out.next, t.removals[RemovalKey(slot.space, slot.client, slot.etype)].serverTs) ==> PageRemoves(out, slot)
  {
    hide Answers, Sees;
    PullIsComplete(t, dev.user, dev.cursor, limit, dev.want, out);
    if r :| r in out.entries && Fills(t, dev.user, r.item, slot) {
      assert FilledAfter(t, dev.user, r.item, slot, dev.cursor);
    }
    forall k | FilledAfter(t, dev.user, k, slot, dev.cursor) && UpTo(out.next, t.entries[k].serverTs)
      ensures PageFills(t, dev.user, out, slot)
    {
      var r := Stamped(k, t.entries[k].serverTs);
      assert r in EntriesAfter(t, dev.user, dev.cursor, dev.want);
      assert r in out.entries && Fills(t, dev.user, r.item, slot);
    }
    if slot.InSpace? && RemovedAfter(t, dev.user, slot, dev.cursor) {
      var rk := RemovalKey(slot.space, slot.client, slot.etype);
      var r := Stamped(rk, t.removals[rk].serverTs);
      assert r in RemovalsAfter(t, dev.user, dev.cursor, dev.want);
      if UpTo(out.next, r.ts) {
        assert r in out.removals && slot == InSpace(r.item.space, r.item.client, r.item.etype);
      }
    }
  }

  /** After a page, a slot agrees unless something about it lies above the new cursor. */
  lemma PageSettlesSlot(t: Tables, dev: Device, limit: nat, out: Pulled, slot: Slot)
    requires OneAuthor(t) && RemovalsTrail(t) && Following(t, dev)
    requires Answers(t, dev.user, dev.cursor, limit, dev.want, out) && Tracks(t, dev, slot)
    requires forall r :: r in out.entries ==> r.item in t.entries
    ensures Agrees(t, Receive(t, dev, out), slot)
      || (out.next.Some? && Ahead(t, dev.user, slot, out.next.value))
  {
    hide Answers, Receive, Sees, Told, PageFills, PageRemoves;
    PageCoversSlot(t, dev, limit, out, slot);
    ReceivedAt(t, dev, out, slot);
    if k :| FilledAfter(t, dev.user, k, slot, dev.cursor) {
      if !UpTo(out.next, t.entries[k].serverTs) {
        assert FilledAfter(t, dev.user, k, slot, out.next.value);
      }
    } else if RemovedAfter(t, dev.user, slot, dev.cursor) {
      if k :| Fills(t, dev.user, k, slot) {
        RemovedMeansGone(t, dev.user, slot, dev.cursor, k);
      }
    } else {
      assert Agrees(t, dev, slot);
    }
  }

  /** A page keeps a device following; one without a cursor leaves it in step with the server. */
  lemma PageKeepsFollowing(t: Tables, dev: Device, limit: nat, out: Pulled)
    requires OneAuthor(t) && RemovalsTrail(t) && Following(t, dev)
    requires Answers(t, dev.user, dev.cursor, limit, dev.want, out)
    ensures forall r :: r in out.entries ==> r.item in t.entries
    ensures Following(t, Receive(t, dev, out))
    ensures out.next.None? ==> InStep(t, Receive(t, dev, out))
  {
    hide Answers, Agrees, Ahead, EntriesAfter;
    PullIsComplete(t, dev.user, dev.cursor, limit, dev.want, out);
    assert forall r :: r in out.entries ==> r.item in t.entries by {
      OnlyRows(t, dev.user, dev.cursor, dev.want);
    }
    forall slot | Tracks(t, dev, slot)
      ensures Agrees(t, Receive(t, dev, out), slot)
        || (out.next.Some? && Ahead(t, dev.user, slot, out.next.value))
    {
      PageSettlesSlot(t, dev, limit, out, slot);
    }
  }

  /** A slot that disagrees with nothing about it ahead still does after any page. */
  lemma StraySlotsStay(t: Tables, dev: Device, limit: nat, out: Pulled, slot: Slot)
    requires OneAuthor(t) && Answers(t, dev.user, dev.cursor, limit, dev.want, out)
    requires forall r :: r in out.entries ==> r.item in t.entries
    requires Tracks(t, dev, slot) && !Ahead(t, dev.user, slot, dev.cursor) && !Agrees(t, dev, slot)
    ensures !Agrees(t, Receive(t, dev, out), slot)
    ensures !Ahead(t, dev.user, slot, CursorAfter(dev.cursor, out))
  {
    hide Answers, Receive, Sees, Told, PageFills, PageRemoves;
    PullIsComplete(t, dev.user, dev.cursor, limit, dev.want, out);
    PageCoversSlot(t, dev, limit, out, slot);
    ReceivedAt(t, dev, out, slot);
    forall k
      ensures !FilledAfter(t, dev.user, k, slot, CursorAfter(dev.cursor, out))
    {
      assert !FilledAfter(t, dev.user, k, slot, dev.cursor);
    }
  }

  /**
   * The exact condition for catching up: the page that hands back no cursor
   * leaves the device in step if and only if it was following before. Pulling
   * alone never mends a slot whose change was stamped at or below the cursor.
   */
  lemma CatchesUpIffFollowing(t: Tables, dev: Device, limit: nat, out: Pulled)
    requires OneAuthor(t) && RemovalsTrail(t)
    requires Answers(t, dev.user, dev.cursor, limit, dev.want, out)
    ensures forall r :: r in out.entries ==> r.item in t.entries
    ensures Following(t, Receive(t, dev, out)) <==> Following(t, dev)
    ensures out.next.None? ==> (InStep(t, Receive(t, dev, out)) <==> Following(t, dev))
  {
    hide Answers, Agrees, Ahead;
    PulledRowsExist(t, dev.user, dev.cursor, limit, dev.want, out);
    if Following(t, dev) {
      PageKeepsFollowing(t, dev, limit, out);
    } else {
      var slot :| Tracks(t, dev, slot) && !Ahead(t, dev.user, slot, dev.cursor) && !Agrees(t, dev, slot);
      StraySlotsStay(t, dev, limit, out, slot);
      assert Tracks(t, Receive(t, dev, out), slot);
    }
  }

  lemma OnlyRows(t: Tables, user: UserId, after: int, want: Option<EntryType>)
    ensures forall r :: r in EntriesAfter(t, user, after, want) ==> r.item in t.entries
  {
  }

  // ── The server moves on ───────────────────────────────────────────────────

  ghost predicate SameMemberships(t: Tables, t': Tables, user: UserId) {
    forall mk: MemberKey :: mk.user == user ==>
      && (mk in t.members <==> mk in t'.members)
      && (mk in t.members ==> t.members[mk].floor == t'.members[mk].floor)
  }

  ghost predicate FloorsPast(t: Tables, user: UserId, clock: int) {
    forall mk :: mk in t.members && mk.user == user ==> AboveFloor(t.members[mk], clock)
  }

  ghost predicate RowsStamped(t: Tables, t': Tables, now: int) {
    && (forall k :: k in t.entries ==> k in t'.entries)
    && (forall k :: k in t'.entries ==>
          (k in t.entries && t'.entries[k] == t.entries[k]) || t'.entries[k].serverTs == now)
  }

  /**
   * All a pulling device needs of a server step at stamp `now`: what changed is
   * stamped `now`, what left a space is recorded, and no record above the
   * device's cursor is dropped or moved back.
   */
  ghost predicate Traceable(t: Tables, t': Tables, now: int, cursor: int) {
    && RowsStamped(t, t', now)
    && (forall k, s :: Carries(t, k, s) && !Carries(t', k, s) ==> Remembers(t', k, s, now))
    && (forall rk :: rk in t.removals && t.removals[rk].serverTs > cursor ==>
          rk in t'.removals && t.removals[rk].serverTs <= t'.removals[rk].serverTs)
  }

  lemma SameRowSameSight(t: Tables, t': Tables, user: UserId, k: RowKey)
    requires SameMemberships(t, t', user)
    requires k in t.entries && k in t'.entries && t.entries[k] == t'.entries[k]
    ensures Sees(t, user, k) == Sees(t', user, k)
    ensures ViewOf(t, user, k) == ViewOf(t', user, k)
  {
    forall s
      ensures ReachedThrough(t, user, t.entries[k], s) == ReachedThrough(t', user, t'.entries[k], s)
    {
      assert MemberKey(s, user).user == user;
    }
    assert SpacesOfMember(t, user) == SpacesOfMember(t', user) by {
      forall s
        ensures s in SpacesOfMember(t, user) <==> s in SpacesOfMember(t', user)
      {
        MemberOf(t, user, s);
        MemberOf(t', user, s);
        assert MemberKey(s, user).user == user;
      }
    }
  }

  lemma MemberOf(t: Tables, user: UserId, s: SpaceId)
    ensures s in SpacesOfMember(t, user) <==> MemberKey(s, user) in t.members
  {
    if MemberKey(s, user) in t.members {
      assert MemberKey(s, user).user == user;
    }
  }

  /** A row that changed is ahead of the device wherever it was or is filed. */
  lemma ChangesLieAhead(
    t: Tables, t': Tables, now: int, cursor: int, user: UserId, k: RowKey, slot: Slot)
    requires Traceable(t, t', now, cursor) && SameMemberships(t, t', user)
    requires FloorsPast(t, user, now) && cursor < now
    requires Fills(t, user, k, slot) || Fills(t', user, k, slot)
    requires slot.InSpace? ==> MemberKey(slot.space, user) in t.members
    requires k in t.entries && k in t'.entries ==> t.entries[k] != t'.entries[k]
    ensures Ahead(t', user, slot, cursor)
  {
    if Fills(t', user, k, slot) {
      assert FilledAfter(t', user, k, slot, cursor);
    } else {
      assert MemberKey(slot.space, user).user == user;
      if slot.space in t'.entries[k].spaceIds {
        assert ReachedThrough(t', user, t'.entries[k], slot.space);
        assert Fills(t', user, k, slot);
      } else {
        assert Carries(t, k, slot.space) && !Carries(t', k, slot.space);
        assert RemovedAfter(t', user, slot, cursor);
      }
    }
  }

  lemma StepKeepsSlot(t: Tables, t': Tables, now: int, dev: Device, slot: Slot)
    requires Traceable(t, t', now, dev.cursor) && SameMemberships(t, t', dev.user)
    requires FloorsPast(t, dev.user, now) && dev.cursor < now
    requires Tracks(t, dev, slot)
    requires Ahead(t, dev.user, slot, dev.cursor) || Agrees(t, dev, slot)
    ensures Ahead(t', dev.user, slot, dev.cursor) || Agrees(t', dev, slot)
  {
    hide Sees, ViewOf, Traceable, SameMemberships, FloorsPast;
    if !Ahead(t', dev.user, slot, dev.cursor) {
      forall k | Fills(t, dev.user, k, slot) || Fills(t', dev.user, k, slot)
        ensures k in t.entries && k in t'.entries && t.entries[k] == t'.entries[k]
        ensures Fills(t, dev.user, k, slot) && Fills(t', dev.user, k, slot)
        ensures ViewOf(t, dev.user, k) == ViewOf(t', dev.user, k)
      {
        if !(k in t.entries && k in t'.entries && t.entries[k] == t'.entries[k]) {
          ChangesLieAhead(t, t', now, dev.cursor, dev.user, k, slot);
        }
        SameRowSameSight(t, t', dev.user, k);
      }
      if RemovedAfter(t, dev.user, slot, dev.cursor) {
        RecordsStayAhead(t, t', now, dev.user, slot, dev.cursor);
      }
      assert forall k :: FilledAfter(t, dev.user, k, slot, dev.cursor) ==>
        FilledAfter(t', dev.user, k, slot, dev.cursor);
    }
  }

  lemma RecordsStayAhead(t: Tables, t': Tables, now: int, user: UserId, slot: Slot, cursor: int)
    requires Traceable(t, t', now, cursor) && SameMemberships(t, t', user)
    requires RemovedAfter(t, user, slot, cursor)
    ensures RemovedAfter(t', user, slot, cursor)
  {
    assert MemberKey(slot.space, user).user == user;
  }

  lemma WritesAreStamped(t: Tables, user: UserId, device: DeviceId, e: Push.PushEntry, now: int)
    ensures RowsStamped(t, Push.WriteRow(t, user, device, e, now), now)
  {
    hide Push.Recorded, Push.Release;
  }

  lemma TakeDownsAreStamped(
    t: Tables, space: SpaceId, client: ClientId, etype: EntryType, user: UserId, now: int)
    ensures RowsStamped(t, TakeDown.TakenDown(t, space, client, etype, user, now), now)
  {
    hide Push.Recorded, TakeDown.Answered;
  }

  lemma SyncStampsWhatItChanges(cfg: Config, t: Tables, op: SyncOp, now: int)
    ensures RowsStamped(t, ApplySync(cfg, t, op, now), now)
  {
    hide Push.Writes, Push.WriteRow, TakeDown.TakenDown;
    match op
    case PushOne(user, device, e, _) => WritesAreStamped(t, user, device, e, now);
    case RemoveFromSpace(space, client, etype, user) => TakeDownsAreStamped(t, space, client, etype, user, now);
    case PruneRemovals =>
  }

  lemma CallsStampWhatTheyChange(cfg: Config, t: Tables, ev: Event)
    ensures RowsStamped(t, Apply(cfg, t, ev), ev.now)
  {
    hide ApplySync, ApplyBlob, ApplySpace, ApplyDoor;
    if ev.op.Sync? {
      SyncStampsWhatItChanges(cfg, t, ev.op.sync, ev.now);
    }
  }

  /** A prune is harmless to a device that pulled within the retention window. */
  predicate Keeps(ev: Event, cursor: int) {
    Prunes(ev) ==> ev.now - Blobs.REMOVAL_RETENTION_MS <= cursor + 1
  }

  lemma CallsKeepRecords(cfg: Config, t: Tables, ev: Event, cursor: int, rk: RemovalKey)
    requires StampedBy(t, ev.now) && Keeps(ev, cursor)
    requires rk in t.removals && t.removals[rk].serverTs > cursor
    ensures var t' := Apply(cfg, t, ev);
      rk in t'.removals && t.removals[rk].serverTs <= t'.removals[rk].serverTs
  {
    if !Prunes(ev) {
      var k := RowKey(0, rk.client, rk.etype);
      assert rk == RemovalKey(rk.space, k.client, k.etype);
      assert Remembers(t, k, rk.space, t.removals[rk].serverTs);
      RecordsStay(cfg, t, ev, k, rk.space, t.removals[rk].serverTs);
    }
  }

  /** Every call of the service can be followed by a pulling device. */
  lemma CallsAreTraceable(cfg: Config, t: Tables, ev: Event, cursor: int)
    requires StampedBy(t, ev.now) && Keeps(ev, cursor)
    ensures Traceable(t, Apply(cfg, t, ev), ev.now, cursor)
  {
    hide Apply, Keeps, StampedBy;
    CallsStampWhatTheyChange(cfg, t, ev);
    var t' := Apply(cfg, t, ev);
    forall k, s | Carries(t, k, s) && !Carries(t', k, s)
      ensures Remembers(t', k, s, ev.now)
    {
      LeavingIsRecorded(cfg, t, ev, k, s);
    }
    forall rk | rk in t.removals && t.removals[rk].serverTs > cursor
      ensures rk in t'.removals && t.removals[rk].serverTs <= t'.removals[rk].serverTs
    {
      CallsKeepRecords(cfg, t, ev, cursor, rk);
    }
  }

  // ── Whole runs ────────────────────────────────────────────────────────────

  /** The server answers somebody else's call, or this device's pull. */
  datatype Turn = Serves(ev: Event) | Pulls(limit: nat, out: Pulled)

  datatype World = World(t: Tables, clock: int, dev: Device)

  /**
   * What a turn may be. A call is stamped no earlier than the clock and strictly
   * above the device's cursor, leaves the user's own memberships as they are, and
   * prunes no record the device has yet to read. A pull gets an answer the
   * database may give.
   */
  ghost predicate Allowed(cfg: Config, w: World, turn: Turn) {
    match turn
    case Serves(ev) =>
      && w.clock <= ev.now && w.dev.cursor < ev.now
      && Keeps(ev, w.dev.cursor)
      && SameMemberships(w.t, Apply(cfg, w.t, ev), w.dev.user)
    case Pulls(limit, out) => Answers(w.t, w.dev.user, w.dev.cursor, limit, w.dev.want, out)
  }

  ghost function Next(cfg: Config, w: World, turn: Turn): World
    requires Allowed(cfg, w, turn)
  {
    match turn
    case Serves(ev) => World(Apply(cfg, w.t, ev), ev.now, w.dev)
    case Pulls(limit, out) =>
      PulledRowsExist(w.t, w.dev.user, w.dev.cursor, limit, w.dev.want, out);
      w.(dev := Receive(w.t, w.dev, out))
  }

  lemma PulledRowsExist(t: Tables, user: UserId, after: int, limit: nat, want: Option<EntryType>, out: Pulled)
    requires Answers(t, user, after, limit, want, out)
    ensures forall r :: r in out.entries ==> r.item in t.entries
  {
    PullIsComplete(t, user, after, limit, want, out);
    OnlyRows(t, user, after, want);
  }

  ghost predicate Good(w: World) {
    Sound(w.t, w.clock) && FloorsPast(w.t, w.dev.user, w.clock) && Following(w.t, w.dev)
  }

  lemma TurnKeepsGood(cfg: Config, w: World, turn: Turn)
    requires Good(w) && Allowed(cfg, w, turn)
    ensures Good(Next(cfg, w, turn))
    ensures turn.Pulls? && turn.out.next.None? ==> InStep(Next(cfg, w, turn).t, Next(cfg, w, turn).dev)
  {
    hide Apply, Agrees, Ahead, Answers, Keeps, Traceable;
    match turn
    case Serves(ev) =>
      var t' := Apply(cfg, w.t, ev);
      StepKeepsSound(cfg, w.t, ev, w.clock);
      CallsAreTraceable(cfg, w.t, ev, w.dev.cursor);
      forall slot | Tracks(t', w.dev, slot)
        ensures Ahead(t', w.dev.user, slot, w.dev.cursor) || Agrees(t', w.dev, slot)
      {
        assert slot.InSpace? ==> MemberKey(slot.space, w.dev.user).user == w.dev.user;
        StepKeepsSlot(w.t, t', ev.now, w.dev, slot);
      }
    case Pulls(limit, out) =>
      PageKeepsFollowing(w.t, w.dev, limit, out);
  }

  /** `worlds` is what the turns make of `worlds[0]`, one after the other. */
  ghost predicate Plays(cfg: Config, worlds: seq<World>, turns: seq<Turn>) {
    && |worlds| == |turns| + 1
    && forall i :: 0 <= i < |turns| ==>
      Allowed(cfg, worlds[i], turns[i]) && worlds[i + 1] == Next(cfg, worlds[i], turns[i])
  }

  /** The last thing that happened is a pull that handed back no cursor. */
  predicate CaughtUp(turns: seq<Turn>) {
    turns != [] && turns[|turns| - 1].Pulls? && turns[|turns| - 1].out.next.None?
  }

  /**
   * Convergence. A device with fixed memberships starts in agreement, up to what
   * lies above its cursor. Whatever calls the server answers meanwhile, and
   * whatever page sizes the device pulls with, a pull that hands back no cursor
   * leaves each slot holding exactly the view of the row that fills it now.
   */
  lemma {:induction false} DevicesConverge(cfg: Config, worlds: seq<World>, turns: seq<Turn>)
    requires Plays(cfg, worlds, turns) && Good(worlds[0])
    ensures var end := worlds[|turns|];
      Good(end) && (CaughtUp(turns) ==> InStep(end.t, end.dev))
  {
    if turns == [] {
    } else {
      hide Good, Allowed, InStep, Next;
      var n := |turns| - 1;
      DevicesConverge(cfg, worlds[..n + 1], turns[..n]);
      TurnKeepsGood(cfg, worlds[n], turns[n]);
    }
  }

  /** A device can always catch up: whatever its page size, some number of pulls ends without a cursor. */
  lemma {:induction false} DevicesCanCatchUp(cfg: Config, w: World, limit: nat)
    returns (worlds: seq<World>, turns: seq<Turn>)
    requires limit >= 1
    ensures Plays(cfg, worlds, turns) && worlds[0] == w && CaughtUp(turns)
    decreases Remaining(w.t, w.dev.user, w.dev.cursor, w.dev.want)
  {
    hide Answers, Remaining;
    var pages := WalkEnds(w.t, w.dev.user, w.dev.cursor, limit, w.dev.want);
    var turn := Pulls(limit, pages[0]);
    var next := Next(cfg, w, turn);
    worlds, turns := [w, next], [turn];
    if pages[0].next.Some? {
      EveryPageProgresses(w.t, w.dev.user, w.dev.cursor, limit, w.dev.want, pages[0]);
      var laterWorlds, laterTurns := DevicesCanCatchUp(cfg, next, limit);
      worlds, turns := [w] + laterWorlds, [turn] + laterTurns;
    }
  }

  /**
   * What no number of pulls mends. A device with a slot that disagrees while
   * nothing about it is stamped above the cursor pulls for ever without getting
   * in step, until some later call touches the slot.
   */
  lemma {:induction false} PullsAloneNeverMend(cfg: Config, worlds: seq<World>, turns: seq<Turn>)
    requires Plays(cfg, worlds, turns) && forall i :: 0 <= i < |turns| ==> turns[i].Pulls?
    requires OneAuthor(worlds[0].t) && RemovalsTrail(worlds[0].t) && !Following(worlds[0].t, worlds[0].dev)
    ensures worlds[|turns|].t == worlds[0].t
    ensures !Following(worlds[|turns|].t, worlds[|turns|].dev)
    ensures !InStep(worlds[|turns|].t, worlds[|turns|].dev)
  {
    if turns == [] {
    } else {
      hide OneAuthor, RemovalsTrail, Ahead, Agrees, Answers, Receive;
      var n := |turns| - 1;
      PullsAloneNeverMend(cfg, worlds[..n + 1], turns[..n]);
      var w := worlds[n];
      CatchesUpIffFollowing(w.t, w.dev, turns[n].limit, turns[n].out);
    }
  }
}
