/** The live-row and tombstone caps of src/sync/service.py, over batches and over runs of batches. */
module RowBudget {
  import opened Wrappers
  import opened Tables
  import opened Push
  import opened Runs
  import TakeDown

  /** An accepted push that turns a live row into a tombstone; no budget is charged for it. */
  predicate Buries(cfg: Config, t: Tables, room: Budget, user: UserId, e: PushEntry) {
    var k := KeyOf(user, e);
    Writes(cfg, t, room, user, e) && k in t.entries && t.entries[k].Live() && e.Tombstone()
  }

  lemma SizeApart<T>(s: set<T>, x: T)
    ensures |s| == |s - {x}| + if x in s then 1 else 0
  {
    if x in s {
      assert s == s - {x} + {x};
    } else {
      assert s == s - {x};
    }
  }

  lemma SizesAfterWrite(t: Tables, user: UserId, device: DeviceId, e: PushEntry, now: int)
    ensures var t', k := WriteRow(t, user, device, e, now), KeyOf(user, e);
      && |LiveKeys(t', user)| == |LiveKeys(t, user)|
         - (if k in t.entries && t.entries[k].Live() then 1 else 0) + (if e.Tombstone() then 0 else 1)
      && |BuriedKeys(t', user)| == |BuriedKeys(t, user)|
         - (if k in t.entries && !t.entries[k].Live() then 1 else 0) + (if e.Tombstone() then 1 else 0)
  {
    var t', k := WriteRow(t, user, device, e, now), KeyOf(user, e);
    assert LiveKeys(t', user) - {k} == LiveKeys(t, user) - {k};
    assert BuriedKeys(t', user) - {k} == BuriedKeys(t, user) - {k};
    SizeApart(LiveKeys(t, user), k);
    SizeApart(LiveKeys(t', user), k);
    SizeApart(BuriedKeys(t, user), k);
    SizeApart(BuriedKeys(t', user), k);
  }

  /** One entry: what leaves the budgets is what the table gained, up to the rows it buried. */
  lemma EntryAccounts(
    cfg: Config, t: Tables, room: Budget, user: UserId, device: DeviceId, e: PushEntry, now: int)
    requires Upsert(cfg, t, room, user, device, e, now).Took?
    ensures var step := Upsert(cfg, t, room, user, device, e, now);
      var buried := if Buries(cfg, t, room, user, e) then 1 else 0;
      && step.room.live + |LiveKeys(step.t, user)| + buried == room.live + |LiveKeys(t, user)|
      && step.room.tombstones + |BuriedKeys(step.t, user)| == room.tombstones + |BuriedKeys(t, user)| + buried
      && (step.room.live >= 0 || step.room.live == room.live)
      && (step.room.tombstones >= 0 || step.room.tombstones >= room.tombstones)
  {
    hide TooLarge, MemberOfAll, NamesNewBlob, OwnsConfirmed, HasRival, AllDistinct, Added, Dropped, RowAfter, WriteRow;
    SizesAfterWrite(t, user, device, e, now);
  }

  /** How many live rows a batch buries. */
  function BuriedBy(
    cfg: Config, t: Tables, room: Budget,
    user: UserId, device: DeviceId, entries: seq<PushEntry>, stamps: seq<int>): nat
    requires |entries| == |stamps|
    decreases entries
  {
    if entries == [] then 0
    else
      match Upsert(cfg, t, room, user, device, entries[0], stamps[0])
      case Aborted(_) => 0
      case Took(t', room', _) =>
        (if Buries(cfg, t, room, user, entries[0]) then 1 else 0)
        + BuriedBy(cfg, t', room', user, device, entries[1..], stamps[1..])
  }

  /** Throughout a batch, budgets and rows add up to what they added up to at its start. */
  lemma {:induction false} BatchAccounts(
    cfg: Config, t: Tables, room: Budget,
    user: UserId, device: DeviceId, entries: seq<PushEntry>, stamps: seq<int>)
    requires |entries| == |stamps| && RunFrom(cfg, t, room, user, device, entries, stamps).Ran?
    ensures var end := RunFrom(cfg, t, room, user, device, entries, stamps);
      var buried := BuriedBy(cfg, t, room, user, device, entries, stamps);
      && end.room.live + |LiveKeys(end.t, user)| + buried == room.live + |LiveKeys(t, user)|
      && end.room.tombstones + |BuriedKeys(end.t, user)| == room.tombstones + |BuriedKeys(t, user)| + buried
      && (end.room.live >= 0 || end.room.live == room.live)
      && (end.room.tombstones >= 0 || end.room.tombstones >= room.tombstones)
    decreases entries
  {
    if entries == [] {
    } else {
      hide Upsert, Buries, LiveKeys, BuriedKeys;
      var first := Upsert(cfg, t, room, user, device, entries[0], stamps[0]);
      EntryAccounts(cfg, t, room, user, device, entries[0], stamps[0]);
      BatchAccounts(cfg, first.t, first.room, user, device, entries[1..], stamps[1..]);
    }
  }

  function Max(a: int, b: int): int {
    if a < b then b else a
  }

  /**
   * A committed batch takes the live rows of its account no further than the cap,
   * or than they already were; its tombstones exceed their own cap only by the
   * live rows it buried.
   */
  lemma BatchStaysWithinCaps(
    cfg: Config, t: Tables, user: UserId, device: DeviceId, entries: seq<PushEntry>, stamps: seq<int>)
    requires |entries| == |stamps| && RunBatch(cfg, t, user, device, entries, stamps).Ran?
    ensures var t' := RunBatch(cfg, t, user, device, entries, stamps).t;
      var buried := BuriedBy(cfg, t, OpeningBudget(cfg, t, user), user, device, entries, stamps);
      && |LiveKeys(t', user)| <= Max(cfg.maxEntries, |LiveKeys(t, user)|)
      && |BuriedKeys(t', user)| <= Max(TombstoneCap(cfg), |BuriedKeys(t, user)|) + buried
  {
    hide RunFrom, BuriedBy, LiveKeys, BuriedKeys;
    BatchAccounts(cfg, t, OpeningBudget(cfg, t, user), user, device, entries, stamps);
  }

  // ── Runs of batches ───────────────────────────────────────────────────────

  lemma UpsertTouchesOneAccount(
    cfg: Config, t: Tables, room: Budget, user: UserId, device: DeviceId, e: PushEntry, now: int, other: UserId)
    requires Upsert(cfg, t, room, user, device, e, now).Took? && other != user
    ensures var t' := Upsert(cfg, t, room, user, device, e, now).t;
      LiveKeys(t', other) == LiveKeys(t, other) && BuriedKeys(t', other) == BuriedKeys(t, other)
  {
    hide Judge, Charge, Recorded, Release;
  }

  lemma {:induction false} PushesTouchOneAccount(
    cfg: Config, t: Tables, room: Budget,
    user: UserId, device: DeviceId, entries: seq<PushEntry>, stamps: seq<int>, other: UserId)
    requires |entries| == |stamps| && RunFrom(cfg, t, room, user, device, entries, stamps).Ran? && other != user
    ensures LiveKeys(RunFrom(cfg, t, room, user, device, entries, stamps).t, other) == LiveKeys(t, other)
    ensures BuriedKeys(RunFrom(cfg, t, room, user, device, entries, stamps).t, other) == BuriedKeys(t, other)
    decreases entries
  {
    if entries == [] {
    } else {
      hide Upsert, LiveKeys, BuriedKeys;
      var first := Upsert(cfg, t, room, user, device, entries[0], stamps[0]);
      UpsertTouchesOneAccount(cfg, t, room, user, device, entries[0], stamps[0], other);
      PushesTouchOneAccount(cfg, first.t, first.room, user, device, entries[1..], stamps[1..], other);
    }
  }

  lemma TakeDownKeepsRows(
    t: Tables, space: SpaceId, client: ClientId, etype: EntryType, remover: UserId, now: int)
    ensures var t' := TakeDown.TakenDown(t, space, client, etype, remover, now);
      && t'.entries.Keys == t.entries.Keys
      && forall k :: k in t.entries ==> t'.entries[k].Live() == t.entries[k].Live()
  {
    hide TakeDown.Answered, Owns, TakeDown.RecordedAuthor, Recorded, LiveKeys, BuriedKeys;
  }

  lemma OthersKeepRows(cfg: Config, t: Tables, ev: Event, user: UserId)
    requires !(ev.op.Sync? && ev.op.sync.PushOne?)
    ensures LiveKeys(Apply(cfg, t, ev), user) == LiveKeys(t, user)
    ensures BuriedKeys(Apply(cfg, t, ev), user) == BuriedKeys(t, user)
  {
    hide ApplyBlob, ApplySpace, ApplyDoor, TakeDown.TakenDown;
    if ev.op.Sync? && ev.op.sync.RemoveFromSpace? {
      var RemoveFromSpace(space, client, etype, remover) := ev.op.sync;
      TakeDownKeepsRows(t, space, client, etype, remover, ev.now);
    }
  }

  /** No run of pushes, revivals included, takes an account past the larger of its cap and its start. */
  lemma {:induction false} NoRunOverfillsAnAccount(cfg: Config, t: Tables, calls: seq<Call>, user: UserId)
    requires forall i :: 0 <= i < |calls| ==> WellFormed(calls[i])
    ensures |LiveKeys(Calls(cfg, t, calls), user)| <= Max(cfg.maxEntries, |LiveKeys(t, user)|)
  {
    if calls == [] {
    } else {
      hide LiveKeys, RunFrom, Apply, OpeningBudget, BuriedBy, BuriedKeys;
      var before := calls[..|calls| - 1];
      NoRunOverfillsAnAccount(cfg, t, before, user);
      var mid := Calls(cfg, t, before);
      match calls[|calls| - 1]
      case Other(ev) => OthersKeepRows(cfg, mid, ev, user);
      case PushAll(pusher, device, entries, stamps) =>
        if RunBatch(cfg, mid, pusher, device, entries, stamps).Ran? {
          if pusher == user {
            BatchStaysWithinCaps(cfg, mid, user, device, entries, stamps);
          } else {
            PushesTouchOneAccount(
              cfg, mid, OpeningBudget(cfg, mid, pusher), pusher, device, entries, stamps, user);
          }
        }
    }
  }

  // ── When the tombstone cap holds ──────────────────────────────────────────

  function TombstoneCap(cfg: Config): nat {
    cfg.maxEntries * TOMBSTONE_CAP_FACTOR
  }

  /**
   * A push of one entry, under the budgets it finds, keeps the account's
   * tombstones within the cap, or where they were, if and only if it does not
   * delete a live row while the account is at the cap.
   */
  lemma OnePushKeepsTombstonesIff(
    cfg: Config, t: Tables, user: UserId, device: DeviceId, e: PushEntry, now: int)
    ensures var room := OpeningBudget(cfg, t, user);
      var t' := Written(cfg, t, room, user, device, e, now);
      && (|BuriedKeys(t', user)| <= Max(TombstoneCap(cfg), |BuriedKeys(t, user)|) <==>
            !(Buries(cfg, t, room, user, e) && |BuriedKeys(t, user)| >= TombstoneCap(cfg)))
      && (Buries(cfg, t, room, user, e) ==> |BuriedKeys(t', user)| == |BuriedKeys(t, user)| + 1)
  {
    hide WriteRow, LiveKeys, BuriedKeys, TooLarge, MemberOfAll, NamesNewBlob, OwnsConfirmed, HasRival, AllDistinct,
      Added, Dropped;
    SizesAfterWrite(t, user, device, e, now);
  }

  /** The account pushes its entries one at a time; everybody else's calls are as they like. */
  predicate OneAtATime(c: Call, user: UserId) {
    c.PushAll? && c.user == user ==> |c.entries| == 1 && |c.stamps| == 1
  }

  /** The call deletes a live row of the account. */
  ghost predicate BuriesNow(cfg: Config, t: Tables, c: Call, user: UserId)
    requires OneAtATime(c, user)
  {
    c.PushAll? && c.user == user && Buries(cfg, t, OpeningBudget(cfg, t, user), user, c.entries[0])
  }

  /** One call: the count stays within any bound from the cap upwards that it is within, but for a delete at the bound. */
  lemma OneCallKeepsTombstonesIff(cfg: Config, t: Tables, c: Call, user: UserId, bound: nat)
    requires WellFormed(c) && OneAtATime(c, user)
    requires TombstoneCap(cfg) <= bound && |BuriedKeys(t, user)| <= bound
    ensures |BuriedKeys(Answered(cfg, t, c), user)| <= bound <==>
      !(BuriesNow(cfg, t, c, user) && |BuriedKeys(t, user)| == bound)
  {
    hide RunFrom, Apply, OpeningBudget, Buries, Written, BuriedKeys, LiveKeys;
    match c
    case Other(ev) => OthersKeepRows(cfg, t, ev, user);
    case PushAll(pusher, device, entries, stamps) =>
      if pusher == user {
        assert entries == [entries[0]] && stamps == [stamps[0]];
        OnePush(cfg, t, user, device, entries[0], stamps[0]);
        OnePushKeepsTombstonesIff(cfg, t, user, device, entries[0], stamps[0]);
      } else if RunBatch(cfg, t, pusher, device, entries, stamps).Ran? {
        PushesTouchOneAccount(cfg, t, OpeningBudget(cfg, t, pusher), pusher, device, entries, stamps, user);
      }
  }

  ghost predicate AllOneAtATime(calls: seq<Call>, user: UserId) {
    forall i :: 0 <= i < |calls| ==> WellFormed(calls[i]) && OneAtATime(calls[i], user)
  }

  /** How many tombstones the account has after the first `i` calls. */
  ghost function BuriedAfter(cfg: Config, t: Tables, calls: seq<Call>, user: UserId, i: nat): nat
    requires AllOneAtATime(calls, user) && i <= |calls|
  {
    |BuriedKeys(Calls(cfg, t, calls[..i]), user)|
  }

  /** Call `i` deletes a live row of an account that already holds `bound` tombstones. */
  ghost predicate BuriesAtBound(cfg: Config, t: Tables, calls: seq<Call>, user: UserId, i: nat, bound: nat)
    requires AllOneAtATime(calls, user) && i < |calls|
  {
    BuriesNow(cfg, Calls(cfg, t, calls[..i]), calls[i], user) && BuriedAfter(cfg, t, calls, user, i) == bound
  }

  lemma NextCall(cfg: Config, t: Tables, calls: seq<Call>, user: UserId, i: nat, bound: nat)
    requires AllOneAtATime(calls, user) && i < |calls| && TombstoneCap(cfg) <= bound
    requires BuriedAfter(cfg, t, calls, user, i) <= bound
    ensures BuriedAfter(cfg, t, calls, user, i + 1) <= bound <==> !BuriesAtBound(cfg, t, calls, user, i, bound)
  {
    hide Answered, BuriesNow, BuriedKeys;
    assert calls[..i + 1][..i] == calls[..i];
    OneCallKeepsTombstonesIff(cfg, Calls(cfg, t, calls[..i]), calls[i], user, bound);
  }

  lemma {:induction false} NoBurialNoExcess(cfg: Config, t: Tables, calls: seq<Call>, user: UserId, i: nat, bound: nat)
    requires AllOneAtATime(calls, user) && i <= |calls| && TombstoneCap(cfg) <= bound
    requires BuriedAfter(cfg, t, calls, user, 0) <= bound
    requires forall j :: 0 <= j < i ==> !BuriesAtBound(cfg, t, calls, user, j, bound)
    ensures BuriedAfter(cfg, t, calls, user, i) <= bound
  {
    hide BuriedAfter, BuriesAtBound, TombstoneCap, AllOneAtATime, Calls;
    if i == 0 {
    } else {
      NoBurialNoExcess(cfg, t, calls, user, i - 1, bound);
      NextCall(cfg, t, calls, user, i - 1, bound);
    }
  }

  /**
   * Over any run of any calls in which the account pushes its entries one at a
   * time: its tombstones stay, in every state, within the larger of the cap and
   * their start if and only if no push of it deletes a live row while it already
   * holds that many.
   */
  lemma TombstonesStayWithinCapIff(cfg: Config, t: Tables, calls: seq<Call>, user: UserId)
    requires AllOneAtATime(calls, user)
    ensures var bound := Max(TombstoneCap(cfg), |BuriedKeys(t, user)|);
      (forall i: nat :: i <= |calls| ==> BuriedAfter(cfg, t, calls, user, i) <= bound) <==>
      (forall i: nat :: i < |calls| ==> !BuriesAtBound(cfg, t, calls, user, i, bound))
  {
    var bound: nat := Max(TombstoneCap(cfg), |BuriedKeys(t, user)|);
    assert BuriedAfter(cfg, t, calls, user, 0) <= bound by {
      assert calls[..0] == [];
    }
    hide BuriedAfter, BuriesAtBound, Calls, BuriedKeys;
    if forall i: nat :: i <= |calls| ==> BuriedAfter(cfg, t, calls, user, i) <= bound {
      forall i: nat | i < |calls|
        ensures !BuriesAtBound(cfg, t, calls, user, i, bound)
      {
        NextCall(cfg, t, calls, user, i, bound);
      }
    }
    if forall i: nat :: i < |calls| ==> !BuriesAtBound(cfg, t, calls, user, i, bound) {
      forall i: nat | i <= |calls|
        ensures BuriedAfter(cfg, t, calls, user, i) <= bound
      {
        NoBurialNoExcess(cfg, t, calls, user, i, bound);
      }
    }
  }

  // ── Where the tombstone cap does not reach ────────────────────────────────

  const BLANK := Body("", None, None, None, map[])

  function Memo(client: ClientId, at: int, deletedAt: Option<int>): PushEntry {
    PushEntry(client, EntryType.Note, None, BLANK, at, at, false, deletedAt, [])
  }

  ghost predicate OnlyTombstonesBelow(t: Tables, user: UserId, n: nat) {
    forall k :: k in t.entries ==> k.user == user && k.client < n && !t.entries[k].Live()
  }

  /** Writing a new note and deleting it in the next push leaves one more tombstone, whatever the budget. */
  lemma WriteAndDelete(cfg: Config, t: Tables, user: UserId, n: nat) returns (t': Tables)
    requires cfg.maxEntries >= 1 && OnlyTombstonesBelow(t, user, n)
    ensures var calls := [PushAll(user, 0, [Memo(n, 1, None)], [1]), PushAll(user, 0, [Memo(n, 2, Some(2))], [2])];
      t' == Answered(cfg, Answered(cfg, t, calls[0]), calls[1])
    ensures OnlyTombstonesBelow(t', user, n + 1)
    ensures |BuriedKeys(t', user)| == |BuriedKeys(t, user)| + 1
  {
    hide Answered, Charge, Recorded, Release, RunFrom, Upsert;
    var a, b := Memo(n, 1, None), Memo(n, 2, Some(2));
    assert LiveKeys(t, user) == {};
    var t1 := WriteRow(t, user, 0, a, 1);
    OnePush(cfg, t, user, 0, a, 1);
    SizesAfterWrite(t, user, 0, a, 1);
    t' := DeleteMemo(cfg, t1, user, n);
  }

  /** The second half: the note's tombstone joins the others. */
  lemma DeleteMemo(cfg: Config, t: Tables, user: UserId, n: nat) returns (t': Tables)
    requires var k := RowKey(user, n, EntryType.Note);
      && k in t.entries && t.entries[k].Live() && t.entries[k].spaceIds == [] && t.entries[k].body == BLANK
    requires forall k :: k in t.entries && k != RowKey(user, n, EntryType.Note) ==>
      k.user == user && k.client < n && !t.entries[k].Live()
    ensures t' == Answered(cfg, t, PushAll(user, 0, [Memo(n, 2, Some(2))], [2]))
    ensures OnlyTombstonesBelow(t', user, n + 1)
    ensures |BuriedKeys(t', user)| == |BuriedKeys(t, user)| + 1
  {
    hide Answered, Charge, Recorded, Release, RunFrom, Upsert;
    var b := Memo(n, 2, Some(2));
    assert Dropped(t, user, b) == [] && Added(t, user, b) == [];
    OnePush(cfg, t, user, 0, b, 2);
    t' := WriteRow(t, user, 0, b, 2);
    SizesAfterWrite(t, user, 0, b, 2);
  }

  lemma TwoMoreCalls(cfg: Config, t: Tables, calls: seq<Call>, a: Call, b: Call)
    requires WellFormed(a) && WellFormed(b) && forall i :: 0 <= i < |calls| ==> WellFormed(calls[i])
    ensures Calls(cfg, t, calls + [a] + [b]) == Answered(cfg, Answered(cfg, Calls(cfg, t, calls), a), b)
  {
    hide Answered;
    assert (calls + [a] + [b])[..|calls| + 1] == calls + [a];
    assert (calls + [a])[..|calls|] == calls;
  }

  /** Starting from nothing, the calls leave the account `n` tombstones and no other row. */
  ghost predicate Piles(cfg: Config, user: UserId, n: nat, calls: seq<Call>) {
    && (forall i :: 0 <= i < |calls| ==> WellFormed(calls[i]))
    && var t := Calls(cfg, EMPTY, calls);
      OnlyTombstonesBelow(t, user, n) && |BuriedKeys(t, user)| == n
  }

  lemma PilesOneMore(cfg: Config, user: UserId, n: nat, earlier: seq<Call>) returns (calls: seq<Call>)
    requires cfg.maxEntries >= 1 && Piles(cfg, user, n, earlier)
    ensures Piles(cfg, user, n + 1, calls)
  {
    hide Answered, Calls, OnlyTombstonesBelow, BuriedKeys;
    var a := PushAll(user, 0, [Memo(n, 1, None)], [1]);
    var b := PushAll(user, 0, [Memo(n, 2, Some(2))], [2]);
    var t' := WriteAndDelete(cfg, Calls(cfg, EMPTY, earlier), user, n);
    TwoMoreCalls(cfg, EMPTY, earlier, a, b);
    calls := earlier + [a] + [b];
  }

  /** So the tombstones of an account have no bound, even under a cap of one row. */
  lemma {:induction false} TombstonesAreUnbounded(cfg: Config, user: UserId, n: nat) returns (calls: seq<Call>)
    requires cfg.maxEntries >= 1
    ensures Piles(cfg, user, n, calls)
  {
    if n == 0 {
      calls := [];
      assert BuriedKeys(EMPTY, user) == {};
    } else {
      hide Piles;
      var earlier := TombstonesAreUnbounded(cfg, user, n - 1);
      calls := PilesOneMore(cfg, user, n - 1, earlier);
    }
  }
}
