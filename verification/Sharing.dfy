/** What every serial run keeps about the entries shared into spaces, and about those that left. */
module Sharing {
  import opened Wrappers
  import opened Tables
  import opened Push
  import opened Runs
  import TakeDown

  predicate SameEntry(j: RowKey, k: RowKey) {
    j.client == k.client && j.etype == k.etype
  }

  predicate Carries(t: Tables, k: RowKey, space: SpaceId) {
    k in t.entries && space in t.entries[k].spaceIds
  }

  predicate Names(rk: RemovalKey, k: RowKey) {
    rk.client == k.client && rk.etype == k.etype
  }

  /** No space holds copies of one entry from two accounts. */
  ghost predicate OneAuthor(t: Tables) {
    forall j, k, s :: Carries(t, j, s) && Carries(t, k, s) && SameEntry(j, k) ==> j == k
  }

  /** A removal record is never newer than a row that carries the space it names. */
  ghost predicate RemovalsTrail(t: Tables) {
    forall rk, k :: rk in t.removals && Names(rk, k) && Carries(t, k, rk.space) ==>
      t.removals[rk].serverTs <= t.entries[k].serverTs
  }

  /** A deleted row keeps no payload. */
  ghost predicate TombstonesBare(t: Tables) {
    forall k :: k in t.entries && !t.entries[k].Live() ==> t.entries[k].body == BARE_BODY
  }

  ghost predicate StampedBy(t: Tables, clock: int) {
    && (forall k :: k in t.entries ==> t.entries[k].serverTs <= clock)
    && (forall rk :: rk in t.removals ==> t.removals[rk].serverTs <= clock)
  }

  ghost predicate Sound(t: Tables, clock: int) {
    OneAuthor(t) && RemovalsTrail(t) && TombstonesBare(t) && StampedBy(t, clock)
  }

  // ── One step ──────────────────────────────────────────────────────────────

  /** A written row only meets its own earlier self in the spaces it now carries. */
  lemma WriteKeepsOneAuthor(
    cfg: Config, t: Tables, room: Budget, user: UserId, device: DeviceId, e: PushEntry, now: int)
    requires OneAuthor(t)
    requires Writes(cfg, t, room, user, e)
    ensures OneAuthor(WriteRow(t, user, device, e, now))
  {
    var t' := WriteRow(t, user, device, e, now);
    var key := KeyOf(user, e);
    forall k, s | Carries(t', key, s) && Carries(t', k, s) && SameEntry(key, k)
      ensures k == key
    {
      if k != key {
        assert Carries(t, k, s) && k.user != user;
        if Carries(t, key, s) {
          assert false;
        } else {
          assert s in Added(t, user, e);
          if key in t.entries {
            assert Rivals(k, t.entries[k], user, e, Added(t, user, e));
          } else {
            assert Rivals(k, t.entries[k], user, e, e.spaceIds);
          }
        }
      }
    }
    forall j, k, s | Carries(t', j, s) && Carries(t', k, s) && SameEntry(j, k)
      ensures j == k
    {
      if j != key && k != key {
        assert Carries(t, j, s) && Carries(t, k, s);
      }
    }
  }

  lemma WriteKeepsTrail(t: Tables, user: UserId, device: DeviceId, e: PushEntry, now: int)
    requires OneAuthor(t) && RemovalsTrail(t) && StampedBy(t, now)
    ensures RemovalsTrail(WriteRow(t, user, device, e, now))
    ensures StampedBy(WriteRow(t, user, device, e, now), now)
  {
    hide Recorded, Release, Superseded;
    var t' := WriteRow(t, user, device, e, now);
    var key := KeyOf(user, e);
    RecordedAt(t.removals, Dropped(t, user, e), e.client, e.etype, Removal(user, user, now));
    forall rk, k | rk in t'.removals && Names(rk, k) && Carries(t', k, rk.space)
      ensures t'.removals[rk].serverTs <= t'.entries[k].serverTs
    {
      if k != key {
        assert Carries(t, k, rk.space);
        assert Carries(t, key, rk.space) && SameEntry(key, k) ==> key == k;
      }
    }
  }

  lemma TakeDownKeepsTrail(
    t: Tables, space: SpaceId, client: ClientId, etype: EntryType, user: UserId, now: int)
    requires OneAuthor(t) && RemovalsTrail(t) && StampedBy(t, now)
    ensures RemovalsTrail(TakeDown.TakenDown(t, space, client, etype, user, now))
    ensures StampedBy(TakeDown.TakenDown(t, space, client, etype, user, now), now)
  {
    hide Recorded;
    var t' := TakeDown.TakenDown(t, space, client, etype, user, now);
    if TakeDown.Answered(t, space, client, etype, user).Ok? {
      var author := TakeDown.Answered(t, space, client, etype, user).value;
      RecordedAt(t.removals, [space], client, etype, Removal(author, user, now));
      var target :| target in TakeDown.Targets(t, space, client, etype, user);
      assert Carries(t, target, space);
      forall rk, k | rk in t'.removals && Names(rk, k) && Carries(t', k, rk.space)
        ensures t'.removals[rk].serverTs <= t'.entries[k].serverTs
      {
        assert Carries(t, k, rk.space);
        assert Carries(t, k, space) && SameEntry(k, target) ==> k == target;
      }
    }
  }

  lemma TakeDownOnlyTakes(
    t: Tables, space: SpaceId, client: ClientId, etype: EntryType, user: UserId, now: int)
    requires TombstonesBare(t)
    ensures TombstonesBare(TakeDown.TakenDown(t, space, client, etype, user, now))
    ensures forall k, s :: Carries(TakeDown.TakenDown(t, space, client, etype, user, now), k, s) ==> Carries(t, k, s)
  {
    assert BARE_BODY.wraps - {ForSpace(space)} == BARE_BODY.wraps;
  }

  lemma SyncKeepsSound(cfg: Config, t: Tables, op: SyncOp, now: int)
    requires Sound(t, now)
    ensures Sound(ApplySync(cfg, t, op, now), now)
  {
    match op
    case PushOne(user, device, e, room) =>
      if Writes(cfg, t, room, user, e) {
        WriteKeepsOneAuthor(cfg, t, room, user, device, e, now);
        WriteKeepsTrail(t, user, device, e, now);
      }
    case RemoveFromSpace(space, client, etype, user) =>
      TakeDownKeepsTrail(t, space, client, etype, user, now);
      TakeDownOnlyTakes(t, space, client, etype, user, now);
    case PruneRemovals =>
      var t' := ApplySync(cfg, t, op, now);
      assert forall k, s :: Carries(t', k, s) <==> Carries(t, k, s);
  }

  /** Every call of the service keeps the table sound. */
  lemma StepKeepsSound(cfg: Config, t: Tables, ev: Event, clock: int)
    requires Sound(t, clock) && clock <= ev.now
    ensures Sound(Apply(cfg, t, ev), ev.now)
  {
    assert Sound(t, ev.now);
    if ev.op.Sync? {
      SyncKeepsSound(cfg, t, ev.op.sync, ev.now);
    } else {
      SameRowsStaySound(t, Apply(cfg, t, ev), ev.now);
    }
  }

  lemma SameRowsStaySound(t: Tables, t': Tables, clock: int)
    requires Sound(t, clock) && t'.entries == t.entries && t'.removals == t.removals
    ensures Sound(t', clock)
  {
    assert forall k, s :: Carries(t', k, s) <==> Carries(t, k, s);
  }

  /**
   * Over any serial run from a sound table, one entry has one author in each
   * space, a deleted row keeps no payload, and no removal record is newer than a
   * row that carries the space again.
   */
  lemma {:induction false} RunKeepsSound(cfg: Config, t: Tables, evs: seq<Event>, clock: int)
    requires Sound(t, clock) && InOrder(clock, evs)
    ensures Sound(Run(cfg, t, evs), ClockAfter(clock, evs))
  {
    if evs == [] {
    } else {
      var n := |evs| - 1;
      RunKeepsSound(cfg, t, evs[..n], clock);
      StepKeepsSound(cfg, Run(cfg, t, evs[..n]), evs[n], ClockAfter(clock, evs[..n]));
    }
  }

  // ── Durable withdrawal ────────────────────────────────────────────────────

  predicate Remembers(t: Tables, k: RowKey, space: SpaceId, since: int) {
    var rk := RemovalKey(space, k.client, k.etype);
    rk in t.removals && since <= t.removals[rk].serverTs
  }

  predicate Prunes(ev: Event) {
    ev.op.Sync? && ev.op.sync.PruneRemovals?
  }

  lemma WriteRecordsLeaving(
    t: Tables, user: UserId, device: DeviceId, e: PushEntry, now: int, k: RowKey, space: SpaceId)
    requires Carries(t, k, space) && !Carries(WriteRow(t, user, device, e, now), k, space)
    ensures Remembers(WriteRow(t, user, device, e, now), k, space, now)
  {
    hide Recorded, Release;
    RecordedAt(t.removals, Dropped(t, user, e), e.client, e.etype, Removal(user, user, now));
    assert k == KeyOf(user, e);
    assert space in Dropped(t, user, e);
  }

  lemma TakeDownRecordsLeaving(
    t: Tables, space: SpaceId, client: ClientId, etype: EntryType, user: UserId, now: int, k: RowKey, gone: SpaceId)
    requires var t' := TakeDown.TakenDown(t, space, client, etype, user, now);
      Carries(t, k, gone) && !Carries(t', k, gone)
    ensures Remembers(TakeDown.TakenDown(t, space, client, etype, user, now), k, gone, now)
  {
    hide Recorded;
    var author := TakeDown.Answered(t, space, client, etype, user).value;
    RecordedAt(t.removals, [space], client, etype, Removal(author, user, now));
  }

  /** The call that takes a row out of a space writes the record of it, at its own stamp. */
  lemma LeavingIsRecorded(cfg: Config, t: Tables, ev: Event, k: RowKey, space: SpaceId)
    requires Carries(t, k, space) && !Carries(Apply(cfg, t, ev), k, space)
    ensures Remembers(Apply(cfg, t, ev), k, space, ev.now)
  {
    var t' := Apply(cfg, t, ev);
    if !ev.op.Sync? {
      assert false;
    } else if ev.op.sync.PushOne? {
      var PushOne(user, device, e, room) := ev.op.sync;
      WriteRecordsLeaving(t, user, device, e, ev.now, k, space);
    } else if ev.op.sync.RemoveFromSpace? {
      var RemoveFromSpace(s, client, etype, user) := ev.op.sync;
      TakeDownRecordsLeaving(t, s, client, etype, user, ev.now, k, space);
    }
  }

  lemma RecordingKeepsRecords(
    t: Tables, t': Tables, spaces: seq<SpaceId>, client: ClientId, etype: EntryType, removal: Removal,
    k: RowKey, space: SpaceId, since: int)
    requires t'.removals == Recorded(t.removals, spaces, client, etype, removal)
    requires Remembers(t, k, space, since) && since <= removal.serverTs
    ensures Remembers(t', k, space, since)
  {
    hide Recorded;
    RecordedAt(t.removals, spaces, client, etype, removal);
  }

  lemma SyncKeepsRecords(cfg: Config, t: Tables, op: SyncOp, now: int, k: RowKey, space: SpaceId, since: int)
    requires Remembers(t, k, space, since) && since <= now && !op.PruneRemovals?
    ensures Remembers(ApplySync(cfg, t, op, now), k, space, since)
  {
    var t' := ApplySync(cfg, t, op, now);
    match op
    case PushOne(user, device, e, room) =>
      if Writes(cfg, t, room, user, e) {
        RecordingKeepsRecords(
          t, t', Dropped(t, user, e), e.client, e.etype, Removal(user, user, now), k, space, since);
      }
    case RemoveFromSpace(s, client, etype, user) =>
      if TakeDown.Answered(t, s, client, etype, user).Ok? {
        var author := TakeDown.Answered(t, s, client, etype, user).value;
        RecordingKeepsRecords(t, t', [s], client, etype, Removal(author, user, now), k, space, since);
      }
  }

  /** Without pruning, records only move forward. */
  lemma RecordsStay(cfg: Config, t: Tables, ev: Event, k: RowKey, space: SpaceId, since: int)
    requires Remembers(t, k, space, since) && since <= ev.now && !Prunes(ev)
    ensures Remembers(Apply(cfg, t, ev), k, space, since)
  {
    if ev.op.Sync? {
      SyncKeepsRecords(cfg, t, ev.op.sync, ev.now, k, space, since);
    }
  }

  /** Call `j` of the run is the one that took the row out of the space. */
  ghost predicate LeavesAt(cfg: Config, t: Tables, evs: seq<Event>, j: nat, k: RowKey, space: SpaceId) {
    && j < |evs|
    && Carries(Run(cfg, t, evs[..j]), k, space)
    && !Carries(Run(cfg, t, evs[..j + 1]), k, space)
  }

  lemma LeftEarlier(cfg: Config, t: Tables, evs: seq<Event>, n: nat, j: nat, k: RowKey, space: SpaceId)
    requires n <= |evs| && LeavesAt(cfg, t, evs[..n], j, k, space)
    ensures LeavesAt(cfg, t, evs, j, k, space)
  {
    assert evs[..n][..j] == evs[..j] && evs[..n][..j + 1] == evs[..j + 1];
  }

  lemma LeavesLast(cfg: Config, t: Tables, evs: seq<Event>, k: RowKey, space: SpaceId)
    requires evs != []
    requires Carries(Run(cfg, t, evs[..|evs| - 1]), k, space) && !Carries(Run(cfg, t, evs), k, space)
    ensures LeavesAt(cfg, t, evs, |evs| - 1, k, space)
    ensures Remembers(Run(cfg, t, evs), k, space, evs[|evs| - 1].now)
  {
    var n := |evs| - 1;
    assert evs[..n + 1] == evs;
    LeavingIsRecorded(cfg, Run(cfg, t, evs[..n]), evs[n], k, space);
  }

  /**
   * A space a row once carried and no longer does: some call `j` of the run took
   * the row out of it, and the record found at the end is stamped no earlier.
   */
  lemma {:induction false} WithdrawalsAreDurable(
    cfg: Config, t: Tables, evs: seq<Event>, clock: int, k: RowKey, space: SpaceId, i: nat)
    returns (j: nat)
    requires InOrder(clock, evs) && i <= |evs|
    requires forall m :: 0 <= m < |evs| ==> !Prunes(evs[m])
    requires Carries(Run(cfg, t, evs[..i]), k, space)
    requires !Carries(Run(cfg, t, evs), k, space)
    ensures i <= j && LeavesAt(cfg, t, evs, j, k, space)
    ensures Remembers(Run(cfg, t, evs), k, space, evs[j].now)
    decreases |evs|
  {
    hide Runs.Apply;
    assert evs[..|evs|] == evs;
    var n := |evs| - 1;
    if Carries(Run(cfg, t, evs[..n]), k, space) {
      j := n;
      LeavesLast(cfg, t, evs, k, space);
    } else {
      assert i <= n;
      assert evs[..n][..i] == evs[..i];
      j := WithdrawalsAreDurable(cfg, t, evs[..n], clock, k, space, i);
      LeftEarlier(cfg, t, evs, n, j, k, space);
      RecordsStay(cfg, Run(cfg, t, evs[..n]), evs[n], k, space, evs[j].now);
    }
  }
}
