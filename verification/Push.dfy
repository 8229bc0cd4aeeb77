/** The push half of src/sync/service.py. */
module Push {
  import opened Wrappers
  import opened Tables

  const TOMBSTONE_CAP_FACTOR := 3

  datatype PushEntry = PushEntry(
    client: ClientId,
    etype: EntryType,
    kind: Option<string>,
    body: Body,
    createdAt: int,
    updatedAt: int,
    pinned: bool,
    deletedAt: Option<int>,
    spaceIds: seq<SpaceId>)
  {
    predicate Tombstone() {
      deletedAt.Some?
    }

    /** The payload stored for the entry: nothing, when it is a delete. */
    function StoredBody(): Body {
      if Tombstone() then BARE_BODY else body
    }
  }

  /** How many more live rows and tombstones this call may add. */
  datatype Budget = Budget(live: int, tombstones: int)

  class Room {
    var live: int
    var tombstones: int

    constructor (live: int, tombstones: int)
      ensures Left() == Budget(live, tombstones)
    {
      this.live, this.tombstones := live, tombstones;
    }

    function Left(): Budget
      reads this
    {
      Budget(live, tombstones)
    }
  }

  datatype Reason = EntryTooLarge | StaleUpdate | NotYourEntry | AccountFull

  /**
   * What aborts a batch: the two 422 answers, and the error Postgres raises
   * when one upsert statement names the same removal record twice.
   */
  datatype Refusal = NotAMember | InvalidBlob | RemovalNamedTwice

  datatype Answer =
    | AcceptedEntry(key: RowKey, serverTs: int, dropped: seq<SpaceId>)
    | ConflictEntry(client: ClientId, reason: Reason)

  /** A report that an accepted entry is no longer in some spaces. */
  datatype Withdrawal = Withdrawal(client: ClientId, etype: EntryType, spaceIds: seq<SpaceId>)

  // ── One entry ─────────────────────────────────────────────────────────────

  function KeyOf(user: UserId, e: PushEntry): RowKey {
    RowKey(user, e.client, e.etype)
  }

  function SpacesOf(t: Tables, k: RowKey): seq<SpaceId> {
    if k in t.entries then t.entries[k].spaceIds else []
  }

  /** Spaces named by the push and not by the stored row. */
  function Added(t: Tables, user: UserId, e: PushEntry): seq<SpaceId> {
    Without(e.spaceIds, SpacesOf(t, KeyOf(user, e)))
  }

  /** Spaces named by the stored row and not by the push. */
  function Dropped(t: Tables, user: UserId, e: PushEntry): seq<SpaceId> {
    Without(SpacesOf(t, KeyOf(user, e)), e.spaceIds)
  }

  predicate TooLarge(cfg: Config, e: PushEntry) {
    || |e.body.content| > cfg.maxEntryBytes
    || (e.body.metadata.Some? && |e.body.metadata.value| > cfg.maxEntryBytes)
  }

  predicate MemberOfAll(t: Tables, user: UserId, spaces: seq<SpaceId>) {
    forall s :: s in spaces ==> MemberKey(s, user) in t.members
  }

  predicate OwnsConfirmed(t: Tables, user: UserId, key: BlobKey) {
    key in t.blobs && t.blobs[key].user == user && t.blobs[key].confirmed
  }

  /** The push points the row at a blob other than its current one. */
  predicate NamesNewBlob(t: Tables, user: UserId, e: PushEntry) {
    var k := KeyOf(user, e);
    && e.StoredBody().blobKey.Some?
    && (k in t.entries ==> t.entries[k].body.blobKey != e.StoredBody().blobKey)
  }

  predicate Rivals(k: RowKey, row: Row, user: UserId, e: PushEntry, spaces: seq<SpaceId>) {
    k.client == e.client && k.etype == e.etype && k.user != user && Overlap(row.spaceIds, spaces)
  }

  /** Whether another account's copy of the entry is already in one of `spaces`. */
  predicate HasRival(t: Tables, user: UserId, e: PushEntry, spaces: seq<SpaceId>) {
    exists k :: k in t.entries && Rivals(k, t.entries[k], user, e, spaces)
  }

  /** The blob the row stops pointing at. */
  function Superseded(t: Tables, user: UserId, e: PushEntry): Option<BlobKey> {
    var k := KeyOf(user, e);
    if k in t.entries && t.entries[k].body.blobKey != e.StoredBody().blobKey
    then t.entries[k].body.blobKey
    else None
  }

  predicate Revives(t: Tables, user: UserId, e: PushEntry) {
    var k := KeyOf(user, e);
    k in t.entries && !t.entries[k].Live() && !e.Tombstone()
  }

  datatype Verdict = Refused(why: Refusal) | Skips(reason: Reason) | Inserts | Updates

  function Judge(cfg: Config, t: Tables, room: Budget, user: UserId, e: PushEntry): Verdict {
    var k := KeyOf(user, e);
    if TooLarge(cfg, e) then Skips(EntryTooLarge)
    else if !MemberOfAll(t, user, Added(t, user, e)) then Refused(NotAMember)
    else if NamesNewBlob(t, user, e) && !OwnsConfirmed(t, user, e.StoredBody().blobKey.value) then
      Refused(InvalidBlob)
    else if k in t.entries then
      var row := t.entries[k];
      if !(e.Tombstone() && row.Live()) && e.updatedAt <= row.updatedAt then Skips(StaleUpdate)
      else if HasRival(t, user, e, Added(t, user, e)) then Skips(NotYourEntry)
      else if Revives(t, user, e) && room.live <= 0 then Skips(AccountFull)
      else if !AllDistinct(Dropped(t, user, e)) then Refused(RemovalNamedTwice)
      else Updates
    else if HasRival(t, user, e, e.spaceIds) then Skips(NotYourEntry)
    else if (if e.Tombstone() then room.tombstones else room.live) <= 0 then Skips(AccountFull)
    else Inserts
  }

  /** The row a write leaves. An update keeps the kind and creation time it was inserted with. */
  function RowAfter(t: Tables, user: UserId, device: DeviceId, e: PushEntry, now: int): Row {
    var k := KeyOf(user, e);
    Row(
      device,
      if k in t.entries then t.entries[k].kind else e.kind,
      e.StoredBody(),
      if k in t.entries then t.entries[k].createdAt else e.createdAt,
      e.updatedAt, now, e.deletedAt, e.pinned, e.spaceIds)
  }

  /** The account's confirmed blob turns unconfirmed, which leaves it to the sweeps. */
  function Release(blobs: map<BlobKey, Blob>, user: UserId, key: Option<BlobKey>): map<BlobKey, Blob> {
    if key.Some? && key.value in blobs && blobs[key.value].user == user && blobs[key.value].confirmed
    then blobs[key.value := blobs[key.value].(confirmed := false)]
    else blobs
  }

  /** The upsert that records an entry leaving `spaces`. */
  function Recorded(
    removals: map<RemovalKey, Removal>, spaces: seq<SpaceId>,
    client: ClientId, etype: EntryType, removal: Removal): map<RemovalKey, Removal>
  {
    if spaces == [] then removals
    else
      Recorded(removals, spaces[1..], client, etype, removal)[RemovalKey(spaces[0], client, etype) := removal]
  }

  predicate About(rk: RemovalKey, spaces: seq<SpaceId>, client: ClientId, etype: EntryType) {
    rk.space in spaces && rk.client == client && rk.etype == etype
  }

  /** One upsert writes exactly the records it names, and moves no other. */
  lemma {:induction false} RecordedAt(
    removals: map<RemovalKey, Removal>, spaces: seq<SpaceId>, client: ClientId, etype: EntryType, removal: Removal)
    ensures var r := Recorded(removals, spaces, client, etype, removal);
      && (forall rk :: rk in r <==> About(rk, spaces, client, etype) || rk in removals)
      && (forall rk :: rk in r ==> r[rk] == if About(rk, spaces, client, etype) then removal else removals[rk])
  {
    if spaces == [] {
    } else {
      RecordedAt(removals, spaces[1..], client, etype, removal);
    }
  }

  function WriteRow(t: Tables, user: UserId, device: DeviceId, e: PushEntry, now: int): Tables {
    t.(entries := t.entries[KeyOf(user, e) := RowAfter(t, user, device, e, now)],
       blobs := Release(t.blobs, user, Superseded(t, user, e)),
       removals := Recorded(t.removals, Dropped(t, user, e), e.client, e.etype, Removal(user, user, now)))
  }

  function Charge(t: Tables, room: Budget, user: UserId, e: PushEntry): Budget {
    if KeyOf(user, e) in t.entries then
      if Revives(t, user, e) then Budget(room.live - 1, room.tombstones + 1) else room
    else if e.Tombstone() then room.(tombstones := room.tombstones - 1)
    else room.(live := room.live - 1)
  }

  predicate Writes(cfg: Config, t: Tables, room: Budget, user: UserId, e: PushEntry) {
    Judge(cfg, t, room, user, e).Inserts? || Judge(cfg, t, room, user, e).Updates?
  }

  function Written(
    cfg: Config, t: Tables, room: Budget, user: UserId, device: DeviceId, e: PushEntry, now: int): Tables
  {
    if Writes(cfg, t, room, user, e) then WriteRow(t, user, device, e, now) else t
  }

  datatype Step = Aborted(why: Refusal) | Took(t: Tables, room: Budget, answer: Answer)

  function Upsert(
    cfg: Config, t: Tables, room: Budget,
    user: UserId, device: DeviceId, e: PushEntry, now: int): Step
  {
    match Judge(cfg, t, room, user, e)
    case Refused(why) => Aborted(why)
    case Skips(reason) => Took(t, room, ConflictEntry(e.client, reason))
    case _ =>
      Took(WriteRow(t, user, device, e, now), Charge(t, room, user, e),
           AcceptedEntry(KeyOf(user, e), now, Dropped(t, user, e)))
  }

  method ReleaseBlob(db: Database, user: UserId, key: BlobKey) returns (released: bool)
    modifies db`blobs
    ensures db.blobs == Release(old(db.blobs), user, Some(key))
    ensures released <==> db.blobs != old(db.blobs)
  {
    if key !in db.blobs || db.blobs[key].user != user || !db.blobs[key].confirmed {
      return false;
    }
    db.blobs := db.blobs[key := db.blobs[key].(confirmed := false)];
    assert !db.blobs[key].confirmed;
    return true;
  }

  lemma RecordedOneMore(
    removals: map<RemovalKey, Removal>, spaces: seq<SpaceId>, s: SpaceId,
    client: ClientId, etype: EntryType, removal: Removal)
    ensures Recorded(removals, spaces + [s], client, etype, removal)
      == Recorded(removals, spaces, client, etype, removal)[RemovalKey(s, client, etype) := removal]
  {
    RecordedAt(removals, spaces + [s], client, etype, removal);
    RecordedAt(removals, spaces, client, etype, removal);
    hide Recorded;
    assert forall rk :: About(rk, spaces + [s], client, etype) <==>
      About(rk, spaces, client, etype) || rk == RemovalKey(s, client, etype);
  }

  /**
   * One upsert statement for the whole list. Each listed space gets its one record
   * of the entry, new or overwritten, and no other record moves; a statement that
   * comes to a record a second time fails and writes nothing.
   */
  method RecordSpaceRemovals(
    db: Database, spaces: seq<SpaceId>, client: ClientId, etype: EntryType, removal: Removal) returns (ok: bool)
    modifies db`removals
    ensures ok <==> Distinct(spaces)
    ensures !ok ==> db.removals == old(db.removals)
    ensures ok ==> forall s :: s in spaces ==>
      var rk := RemovalKey(s, client, etype);
      rk in db.removals && db.removals[rk] == removal
    ensures forall rk :: !About(rk, spaces, client, etype) ==>
      && (rk in db.removals <==> rk in old(db.removals))
      && (rk in db.removals ==> db.removals[rk] == old(db.removals)[rk])
    ensures ok ==> db.removals == Recorded(old(db.removals), spaces, client, etype, removal)
  {
    hide Recorded;
    var upserted := db.removals;
    var touched: set<SpaceId> := {};
    RecordedNothing(db.removals, client, etype, removal);
    assert spaces[..0] == [];
    for i := 0 to |spaces|
      invariant Distinct(spaces[..i]) && touched == set s | s in spaces[..i]
      invariant db.removals == old(db.removals)
      invariant upserted == Recorded(db.removals, spaces[..i], client, etype, removal)
    {
      assert spaces[..i + 1] == spaces[..i] + [spaces[i]];
      if spaces[i] in touched {
        var j :| 0 <= j < i && spaces[..i][j] == spaces[i];
        assert spaces[j] == spaces[i];
        return false;
      }
      RecordedOneMore(db.removals, spaces[..i], spaces[i], client, etype, removal);
      touched := touched + {spaces[i]};
      upserted := upserted[RemovalKey(spaces[i], client, etype) := removal];
    }
    assert spaces[..|spaces|] == spaces;
    RecordedAt(db.removals, spaces, client, etype, removal);
    db.removals := upserted;
    return true;
  }

  lemma RecordedNothing(removals: map<RemovalKey, Removal>, client: ClientId, etype: EntryType, removal: Removal)
    ensures Recorded(removals, [], client, etype, removal) == removals
  {
  }

  /** The update path, once nothing refuses it: every write lands in one transaction. */
  method OverwriteRow(db: Database, room: Room, user: UserId, device: DeviceId, e: PushEntry, now: int)
    returns (outcome: Result<seq<SpaceId>, Refusal>)
    requires KeyOf(user, e) in db.entries
    modifies db`entries, db`blobs, db`removals, room
    ensures
      var t := old(db.View());
      if !AllDistinct(Dropped(t, user, e)) then outcome == Err(RemovalNamedTwice)
      else
        && outcome == Ok(Dropped(t, user, e))
        && db.View() == WriteRow(t, user, device, e, now)
        && room.Left() == Charge(t, old(room.Left()), user, e)
  {
    hide Judge, HasRival, AllDistinct, Without, Recorded, MemberOfAll, NamesNewBlob;
    var key, body := KeyOf(user, e), e.StoredBody();
    var existing := db.entries[key];
    var revived := existing.deletedAt.Some? && !e.Tombstone();
    var dropped := Without(existing.spaceIds, e.spaceIds);
    var superseded := if existing.body.blobKey != body.blobKey then existing.body.blobKey else None;

    db.entries := db.entries[key := existing.(
      device := device, body := body, updatedAt := e.updatedAt, serverTs := now,
      deletedAt := e.deletedAt, pinned := e.pinned, spaceIds := e.spaceIds)];
    if revived {
      room.live := room.live - 1;
      room.tombstones := room.tombstones + 1;
    }
    if superseded.Some? {
      var _ := ReleaseBlob(db, user, superseded.value);
    }
    var ok := RecordSpaceRemovals(db, dropped, e.client, e.etype, Removal(user, user, now));
    if !ok {
      return Err(RemovalNamedTwice);
    }
    return Ok(dropped);
  }

  method UpsertEntry(db: Database, room: Room, user: UserId, device: DeviceId, e: PushEntry, now: int)
    returns (outcome: Result<Answer, Refusal>)
    modifies db`entries, db`blobs, db`removals, room
    ensures match Upsert(db.config, old(db.View()), old(room.Left()), user, device, e, now)
      case Aborted(why) => outcome == Err(why)
      case Took(t, left, answer) => outcome == Ok(answer) && db.View() == t && room.Left() == left
  {
    if TooLarge(db.config, e) {
      return Ok(ConflictEntry(e.client, EntryTooLarge));
    }
    var t := db.View();
    var key := KeyOf(user, e);
    var added := Added(t, user, e);
    if !MemberOfAll(t, user, added) {
      return Err(NotAMember);
    }
    if NamesNewBlob(t, user, e) && !OwnsConfirmed(t, user, e.StoredBody().blobKey.value) {
      return Err(InvalidBlob);
    }

    if key in db.entries {
      var existing := db.entries[key];
      var incomingTombstone := e.Tombstone() && existing.Live();
      if !incomingTombstone && e.updatedAt <= existing.updatedAt {
        return Ok(ConflictEntry(e.client, StaleUpdate));
      }
      if HasRival(t, user, e, added) {
        return Ok(ConflictEntry(e.client, NotYourEntry));
      }
      if Revives(t, user, e) && room.live <= 0 {
        return Ok(ConflictEntry(e.client, AccountFull));
      }
      var written := OverwriteRow(db, room, user, device, e, now);
      match written {
        case Err(why) => return Err(why);
        case Ok(dropped) => return Ok(AcceptedEntry(key, now, dropped));
      }
    }

    if HasRival(t, user, e, e.spaceIds) {
      return Ok(ConflictEntry(e.client, NotYourEntry));
    }
    if e.Tombstone() {
      if room.tombstones <= 0 {
        return Ok(ConflictEntry(e.client, AccountFull));
      }
      room.tombstones := room.tombstones - 1;
    } else {
      if room.live <= 0 {
        return Ok(ConflictEntry(e.client, AccountFull));
      }
      room.live := room.live - 1;
    }
    db.entries := db.entries[key := Row(
      device, e.kind, e.StoredBody(), e.createdAt, e.updatedAt, now, e.deletedAt, e.pinned, e.spaceIds)];
    assert Dropped(t, user, e) == [];
    return Ok(AcceptedEntry(key, now, []));
  }

  // ── A batch ───────────────────────────────────────────────────────────────

  function LiveKeys(t: Tables, user: UserId): set<RowKey> {
    set k | k in t.entries && k.user == user && t.entries[k].Live()
  }

  function BuriedKeys(t: Tables, user: UserId): set<RowKey> {
    set k | k in t.entries && k.user == user && !t.entries[k].Live()
  }

  function OpeningBudget(cfg: Config, t: Tables, user: UserId): Budget {
    Budget(cfg.maxEntries - |LiveKeys(t, user)|,
           cfg.maxEntries * TOMBSTONE_CAP_FACTOR - |BuriedKeys(t, user)|)
  }

  datatype Batch = Stopped(why: Refusal) | Ran(t: Tables, room: Budget, answers: seq<Answer>)
  {
    function After(earlier: seq<Answer>): Batch {
      if Stopped? then this else Ran(t, room, earlier + answers)
    }
  }

  /** `Upsert` applied left to right, stopping at the first refusal. */
  function RunFrom(
    cfg: Config, t: Tables, room: Budget,
    user: UserId, device: DeviceId, entries: seq<PushEntry>, stamps: seq<int>): Batch
    requires |entries| == |stamps|
    decreases entries
  {
    if entries == [] then Ran(t, room, [])
    else
      match Upsert(cfg, t, room, user, device, entries[0], stamps[0])
      case Aborted(why) => Stopped(why)
      case Took(t', room', answer) =>
        RunFrom(cfg, t', room', user, device, entries[1..], stamps[1..]).After([answer])
  }

  function RunBatch(
    cfg: Config, t: Tables, user: UserId, device: DeviceId,
    entries: seq<PushEntry>, stamps: seq<int>): Batch
    requires |entries| == |stamps|
  {
    RunFrom(cfg, t, OpeningBudget(cfg, t, user), user, device, entries, stamps)
  }

  /** Moving the first entry of the remaining batch to the entries already answered. */
  lemma RunOneMore(
    cfg: Config, t: Tables, room: Budget, user: UserId, device: DeviceId,
    entries: seq<PushEntry>, stamps: seq<int>, answers: seq<Answer>)
    requires |entries| == |stamps| && entries != []
    ensures match Upsert(cfg, t, room, user, device, entries[0], stamps[0])
      case Aborted(why) => RunFrom(cfg, t, room, user, device, entries, stamps).After(answers) == Stopped(why)
      case Took(t', room', answer) =>
        RunFrom(cfg, t, room, user, device, entries, stamps).After(answers) ==
        RunFrom(cfg, t', room', user, device, entries[1..], stamps[1..]).After(answers + [answer])
  {
    match Upsert(cfg, t, room, user, device, entries[0], stamps[0])
    case Aborted(_) =>
    case Took(t', room', answer) =>
      var rest := RunFrom(cfg, t', room', user, device, entries[1..], stamps[1..]);
      assert rest.Ran? ==> answers + ([answer] + rest.answers) == (answers + [answer]) + rest.answers;
  }

  function AcceptedIn(answers: seq<Answer>): seq<Answer> {
    if answers == [] then []
    else
      var a := answers[|answers| - 1];
      AcceptedIn(answers[..|answers| - 1]) + if a.AcceptedEntry? then [a] else []
  }

  function ConflictsIn(answers: seq<Answer>): seq<Answer> {
    if answers == [] then []
    else
      var a := answers[|answers| - 1];
      ConflictsIn(answers[..|answers| - 1]) + if a.ConflictEntry? then [a] else []
  }

  function WithdrawalsIn(answers: seq<Answer>): seq<Withdrawal> {
    if answers == [] then []
    else
      var a := answers[|answers| - 1];
      WithdrawalsIn(answers[..|answers| - 1]) +
      if a.AcceptedEntry? && a.dropped != [] then [Withdrawal(a.key.client, a.key.etype, a.dropped)] else []
  }

  lemma OneMoreAnswer(answers: seq<Answer>, a: Answer)
    ensures AcceptedIn(answers + [a]) == AcceptedIn(answers) + if a.AcceptedEntry? then [a] else []
    ensures ConflictsIn(answers + [a]) == ConflictsIn(answers) + if a.ConflictEntry? then [a] else []
    ensures WithdrawalsIn(answers + [a]) == WithdrawalsIn(answers) +
      if a.AcceptedEntry? && a.dropped != [] then [Withdrawal(a.key.client, a.key.etype, a.dropped)] else []
  {
    assert (answers + [a])[..|answers|] == answers;
  }

  datatype PushResult =
    | Pushed(accepted: seq<Answer>, conflicts: seq<Answer>, withdrawals: seq<Withdrawal>)
    | PushRefused(why: Refusal)

  /** All entries or none: a refusal at any of them restores every table. */
  method PushEntries(db: Database, user: UserId, device: DeviceId, entries: seq<PushEntry>, stamps: seq<int>)
    returns (result: PushResult)
    requires |entries| == |stamps|
    modifies db`entries, db`blobs, db`removals
    ensures match RunBatch(db.config, old(db.View()), user, device, entries, stamps)
      case Stopped(why) => result == PushRefused(why) && db.View() == old(db.View())
      case Ran(t, _, answers) =>
        && result == Pushed(AcceptedIn(answers), ConflictsIn(answers), WithdrawalsIn(answers))
        && db.View() == t
  {
    assert AcceptedIn([]) == [] && ConflictsIn([]) == [] && WithdrawalsIn([]) == [];
    hide OpeningBudget, Judge, WriteRow, Charge, AcceptedIn, ConflictsIn, WithdrawalsIn;
    var accepted, conflicts, withdrawals := [], [], [];
    var start := db.View();
    var opening := OpeningBudget(db.config, start, user);
    var room := new Room(opening.live, opening.tombstones);
    ghost var answers: seq<Answer> := [];
    var i := 0;
    while i < |entries|
      invariant 0 <= i <= |entries| && |answers| == i
      invariant accepted == AcceptedIn(answers)
      invariant conflicts == ConflictsIn(answers)
      invariant withdrawals == WithdrawalsIn(answers)
      invariant RunBatch(db.config, start, user, device, entries, stamps) ==
        RunFrom(db.config, db.View(), room.Left(), user, device, entries[i..], stamps[i..]).After(answers)
    {
      ghost var before, room0 := db.View(), room.Left();
      var outcome := UpsertEntry(db, room, user, device, entries[i], stamps[i]);
      if outcome.Err? {
        db.entries, db.blobs, db.removals := start.entries, start.blobs, start.removals;
        return PushRefused(outcome.error);
      }
      var answer := outcome.value;
      if answer.AcceptedEntry? {
        accepted := accepted + [answer];
        if answer.dropped != [] {
          withdrawals := withdrawals + [Withdrawal(entries[i].client, entries[i].etype, answer.dropped)];
        }
      } else {
        conflicts := conflicts + [answer];
      }
      OneMoreAnswer(answers, answer);
      RunOneMore(db.config, before, room0, user, device, entries[i..], stamps[i..], answers);
      assert entries[i..][1..] == entries[i + 1..] && stamps[i..][1..] == stamps[i + 1..];
      answers := answers + [answer];
      i := i + 1;
    }
    assert answers + [] == answers;
    return Pushed(accepted, conflicts, withdrawals);
  }
}
