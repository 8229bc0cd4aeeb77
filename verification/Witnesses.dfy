/**
 * Calls a server with an empty database can be sent, and where they end. Each
 * shows that a property one might expect fails of some reachable state; the
 * lemma that says exactly when it holds is named beside it.
 */
module Witnesses {
  import opened Wrappers
  import opened Tables
  import opened Push
  import opened Runs
  import Blobs
  import BlobSafety
  import Convergence
  import Door
  import Keys
  import LastWrite
  import Paging
  import Pull
  import Quota
  import Settings
  import Sharing
  import Spaces
  import TakeDown

  ghost predicate AllWellFormed(calls: seq<Call>) {
    forall i :: 0 <= i < |calls| ==> WellFormed(calls[i])
  }

  lemma OneMoreCall(cfg: Config, calls: seq<Call>, c: Call)
    requires AllWellFormed(calls) && WellFormed(c)
    ensures AllWellFormed(calls + [c])
    ensures Calls(cfg, EMPTY, calls + [c]) == Answered(cfg, Calls(cfg, EMPTY, calls), c)
  {
    hide Answered, WellFormed;
    assert (calls + [c])[..|calls|] == calls;
  }

  function PushOf(e: PushEntry, now: int): Call {
    PushAll(1, 0, [e], [now])
  }

  lemma LandedPush(cfg: Config, calls: seq<Call>, e: PushEntry, now: int)
    requires AllWellFormed(calls)
    requires var t := Calls(cfg, EMPTY, calls); Writes(cfg, t, OpeningBudget(cfg, t, 1), 1, e)
    ensures AllWellFormed(calls + [PushOf(e, now)])
    ensures Calls(cfg, EMPTY, calls + [PushOf(e, now)]) == WriteRow(Calls(cfg, EMPTY, calls), 1, 0, e, now)
  {
    hide Calls, Answered, Writes, WriteRow;
    OneMoreCall(cfg, calls, PushOf(e, now));
    OnePush(cfg, Calls(cfg, EMPTY, calls), 1, 0, e, now);
  }

  // ── Two live rows, one blob (BlobSafety.WriteKeepsBlobsIff) ───────────────

  /** A note of account 1 that points at blob 7. */
  function Picture(client: ClientId, at: int, deletedAt: Option<int>): PushEntry {
    PushEntry(client, Note, None, Body("", None, Some(7), Some(1), map[]), at, at, false, deletedAt, [])
  }

  function Uploading(confirmed: bool): Tables {
    EMPTY.(quotas := map[1 := 1], blobs := map[7 := Blob(1, 1, "", confirmed, 0)])
  }

  lemma UploadIsReserved()
    ensures Blobs.Requested(EMPTY.(quotas := map[1 := 1]), 1, 7, 1, "", 0, 0) == Uploading(false)
  {
    var t := EMPTY.(quotas := map[1 := 1]);
    assert Blobs.ConfirmedKeys(t, 1) == {} && Blobs.ReservedKeys(t, 1, 0) == {};
    assert Blobs.ConfirmedKeys(t, 1) + Blobs.ReservedKeys(t, 1, 0) == {};
  }

  lemma UploadIsConfirmed()
    ensures Blobs.Confirmed(Uploading(false), 1, 7, Some(Blobs.Head(1, None))) == Uploading(true)
  {
    assert Blobs.ConfirmedKeys(Uploading(false), 1) == {};
  }

  /** An account with room for one byte uploads it. */
  lemma UploadOne(cfg: Config) returns (calls: seq<Call>)
    ensures AllWellFormed(calls) && Calls(cfg, EMPTY, calls) == Uploading(true)
  {
    hide Blobs.Requested, Blobs.Confirmed;
    var quota := Other(Event(Storage(SetQuota(1, 1)), 0));
    var request := Other(Event(Storage(RequestUpload(1, 7, 1, "", 0)), 0));
    var confirm := Other(Event(Storage(ConfirmUpload(1, 7, Some(Blobs.Head(1, None)))), 0));
    OneMoreCall(cfg, [], quota);
    OneMoreCall(cfg, [] + [quota], request);
    OneMoreCall(cfg, [] + [quota] + [request], confirm);
    UploadIsReserved();
    UploadIsConfirmed();
    calls := [] + [quota] + [request] + [confirm];
  }

  const FIRST := RowKey(1, 1, Note)
  const SECOND := RowKey(1, 2, Note)

  /** Nothing stops an account from pushing two rows that point at one blob. */
  lemma TwoRowsMayShareABlob(cfg: Config) returns (calls: seq<Call>)
    requires cfg.maxEntries >= 2
    ensures AllWellFormed(calls)
    ensures var t := Calls(cfg, EMPTY, calls);
      && t.entries.Keys == {FIRST, SECOND} && t.blobs == Uploading(true).blobs
      && BlobSafety.Holds(t, FIRST, 7) && BlobSafety.Holds(t, SECOND, 7)
      && t.entries[FIRST].updatedAt == 1 && t.entries[FIRST].spaceIds == []
  {
    hide Calls, Answered, Recorded, OpeningBudget;
    calls := UploadOne(cfg);
    FirstPictureLands(cfg);
    LandedPush(cfg, calls, Picture(1, 1, None), 1);
    calls := calls + [PushOf(Picture(1, 1, None), 1)];
    SecondPictureLands(cfg, Calls(cfg, EMPTY, calls));
    LandedPush(cfg, calls, Picture(2, 1, None), 2);
    calls := calls + [PushOf(Picture(2, 1, None), 2)];
  }

  lemma FirstPictureLands(cfg: Config)
    requires cfg.maxEntries >= 1
    ensures var t := Uploading(true);
      Writes(cfg, t, OpeningBudget(cfg, t, 1), 1, Picture(1, 1, None))
  {
    var t := Uploading(true);
    assert LiveKeys(t, 1) == {};
    assert Added(t, 1, Picture(1, 1, None)) == [];
  }

  lemma SecondPictureLands(cfg: Config, t: Tables)
    requires cfg.maxEntries >= 2 && t.entries.Keys == {FIRST} && t.blobs == Uploading(true).blobs
    requires BlobSafety.Holds(t, FIRST, 7)
    ensures Writes(cfg, t, OpeningBudget(cfg, t, 1), 1, Picture(2, 1, None))
  {
    assert LiveKeys(t, 1) == {FIRST};
    assert Added(t, 1, Picture(2, 1, None)) == [];
  }

  /** Deleting one of them, and the next cleanup, take the object from under the other. */
  lemma AnObjectInUseIsCollected(cfg: Config) returns (calls: seq<Call>)
    requires cfg.maxEntries >= 2
    ensures AllWellFormed(calls)
    ensures var t := Calls(cfg, EMPTY, calls);
      BlobSafety.Holds(t, SECOND, 7) && 7 !in t.blobs
  {
    hide Calls, Answered, Recorded, OpeningBudget;
    calls := TwoRowsMayShareABlob(cfg);
    var t := Calls(cfg, EMPTY, calls);
    var delete := Picture(1, 2, Some(2));
    var later := Blobs.ORPHAN_TTL_MS + 1;
    DeleteLands(cfg, t);
    LandedPush(cfg, calls, delete, 3);
    calls := calls + [PushOf(delete, 3)];
    var sweep := Other(Event(Storage(CleanupBlobs({})), later));
    OneMoreCall(cfg, calls, sweep);
    var deleted := Calls(cfg, EMPTY, calls);
    assert 7 in Blobs.Orphans(deleted, later);
    assert Answered(cfg, deleted, sweep) == Blobs.Cleaned(deleted, later, {}) by {
      CleanupAnswers(cfg, deleted, later);
    }
    calls := calls + [sweep];
  }

  lemma CleanupAnswers(cfg: Config, t: Tables, now: int)
    ensures Answered(cfg, t, Other(Event(Storage(CleanupBlobs({})), now))) == Blobs.Cleaned(t, now, {})
  {
  }

  lemma DeleteLands(cfg: Config, t: Tables)
    requires t.entries.Keys == {FIRST, SECOND} && BlobSafety.Holds(t, FIRST, 7) && t.entries[FIRST].updatedAt == 1
    requires t.entries[FIRST].spaceIds == []
    ensures Writes(cfg, t, OpeningBudget(cfg, t, 1), 1, Picture(1, 2, Some(2)))
  {
    assert Added(t, 1, Picture(1, 2, Some(2))) == [] && Dropped(t, 1, Picture(1, 2, Some(2))) == [];
  }

  // ── A retry that undoes a delete (Repeats.RepeatsChangeNothingIff) ────────

  function NoteAt(at: int, deletedAt: Option<int>): PushEntry {
    PushEntry(1, Note, None, Body("", None, None, None, map[]), at, at, false, deletedAt, [])
  }

  ghost predicate RowIs(t: Tables, at: int, live: bool) {
    && t.entries.Keys == {FIRST} && t.entries[FIRST].updatedAt == at && t.entries[FIRST].Live() == live
    && t.entries[FIRST].spaceIds == [] && t.entries[FIRST].body.blobKey.None?
  }

  /** An accepted edit, an older delete from elsewhere, and the edit retried: the row is back. */
  lemma ARetryMayRevive(cfg: Config) returns (calls: seq<Call>)
    requires cfg.maxEntries >= 1
    ensures AllWellFormed(calls) && |calls| == 3 && calls[0] == PushOf(NoteAt(5, None), 1)
    ensures calls[1] == PushOf(NoteAt(3, Some(3)), 2) && calls[2] == PushOf(NoteAt(5, None), 3)
    ensures RowIs(Calls(cfg, EMPTY, calls[..1]), 5, true)
    ensures RowIs(Calls(cfg, EMPTY, calls[..2]), 3, false)
    ensures RowIs(Calls(cfg, EMPTY, calls), 5, true)
  {
    hide Calls, Answered, Recorded, Writes, OpeningBudget;
    var edit, delete := NoteAt(5, None), NoteAt(3, Some(3));
    calls := [];
    assert Calls(cfg, EMPTY, calls) == EMPTY by {
      NoCalls(cfg);
    }
    PlainInsertLands(cfg, edit);
    LandedPush(cfg, calls, edit, 1);
    calls := calls + [PushOf(edit, 1)];
    var t1 := Calls(cfg, EMPTY, calls);
    PlainUpdateLands(cfg, t1, delete, 5, true);
    LandedPush(cfg, calls, delete, 2);
    ghost var first := calls;
    calls := calls + [PushOf(delete, 2)];
    var t2 := Calls(cfg, EMPTY, calls);
    PlainUpdateLands(cfg, t2, edit, 3, false);
    LandedPush(cfg, calls, edit, 3);
    ghost var second := calls;
    calls := calls + [PushOf(edit, 3)];
    assert calls[..1] == first && calls[..2] == second;
  }

  lemma NoCalls(cfg: Config)
    ensures Calls(cfg, EMPTY, []) == EMPTY
  {
  }

  lemma PlainInsertLands(cfg: Config, e: PushEntry)
    requires cfg.maxEntries >= 1 && e == NoteAt(5, None)
    ensures Writes(cfg, EMPTY, OpeningBudget(cfg, EMPTY, 1), 1, e)
  {
    assert LiveKeys(EMPTY, 1) == {};
    assert Added(EMPTY, 1, e) == [];
  }

  lemma PlainUpdateLands(cfg: Config, t: Tables, e: PushEntry, at: int, live: bool)
    requires cfg.maxEntries >= 1 && RowIs(t, at, live)
    requires if live then e == NoteAt(3, Some(3)) else e == NoteAt(5, None) && at < 5
    ensures Writes(cfg, t, OpeningBudget(cfg, t, 1), 1, e)
  {
    assert LiveKeys(t, 1) == if live then {FIRST} else {};
    assert Added(t, 1, e) == [] && Dropped(t, 1, e) == [];
  }

  // ── A space named twice (Batches.TwinsBlockUnsharingIff) ──────────────────

  function InSpaces(at: int, spaces: seq<SpaceId>): PushEntry {
    PushEntry(1, Note, None, Body("", None, None, None, map[]), at, at, false, None, spaces)
  }

  /** A row is stored that names space 5 twice. */
  lemma ATwinIsStored(cfg: Config) returns (calls: seq<Call>)
    requires cfg.maxEntries >= 1
    ensures AllWellFormed(calls)
    ensures TwinRow(Calls(cfg, EMPTY, calls), [5, 5], 1) && Owns(Calls(cfg, EMPTY, calls), 5, 1)
  {
    hide Calls, Answered, Recorded, Writes, OpeningBudget;
    var create := Other(Event(Social(CreateSpace(1, 5, true)), 0));
    NoCalls(cfg);
    OneMoreCall(cfg, [], create);
    CreateAnswers(cfg);
    calls := [] + [create];
    TwinInsertLands(cfg, Calls(cfg, EMPTY, calls));
    LandedPush(cfg, calls, InSpaces(1, [5, 5]), 1);
    calls := calls + [PushOf(InSpaces(1, [5, 5]), 1)];
  }

  /** The push that takes it out of the space is refused and changes nothing; a take-down of it goes through. */
  lemma OnePushCannotUnshareATwin(cfg: Config) returns (calls: seq<Call>)
    requires cfg.maxEntries >= 1
    ensures AllWellFormed(calls)
    ensures var t := Calls(cfg, EMPTY, calls);
      && TwinRow(t, [5, 5], 1)
      && Judge(cfg, t, OpeningBudget(cfg, t, 1), 1, InSpaces(2, [])) == Refused(RemovalNamedTwice)
      && AllWellFormed(calls + [PushOf(InSpaces(2, []), 2)])
      && Calls(cfg, EMPTY, calls + [PushOf(InSpaces(2, []), 2)]) == t
      && var t' := TakeDown.TakenDown(t, 5, 1, Note, 1, 9);
         t'.entries.Keys == {FIRST} && t'.entries[FIRST].spaceIds == []
  {
    hide Calls, Answered, Writes, Judge, OpeningBudget, TakeDown.TakenDown;
    calls := ATwinIsStored(cfg);
    TwinIsRefused(cfg, Calls(cfg, EMPTY, calls));
    RefusedPush(cfg, calls, InSpaces(2, []), 2);
    TwinIsTakenDown(Calls(cfg, EMPTY, calls));
  }

  /** Two pushes get it out all the same: the first names the space once, the second not at all (Batches.NamingOnceUnblocks). */
  lemma TwoPushesUnshareATwin(cfg: Config) returns (calls: seq<Call>)
    requires cfg.maxEntries >= 1
    ensures AllWellFormed(calls) && TwinRow(Calls(cfg, EMPTY, calls), [5, 5], 1)
    ensures var once := calls + [PushOf(InSpaces(2, [5]), 2)];
      AllWellFormed(once) && TwinRow(Calls(cfg, EMPTY, once), [5], 2)
    ensures var out := calls + [PushOf(InSpaces(2, [5]), 2)] + [PushOf(InSpaces(3, []), 3)];
      && AllWellFormed(out) && TwinRow(Calls(cfg, EMPTY, out), [], 3)
      && RemovalKey(5, 1, Note) in Calls(cfg, EMPTY, out).removals
  {
    hide Calls, Answered, Recorded, Writes, OpeningBudget, Dropped;
    calls := ATwinIsStored(cfg);
    NamingOnceLands(cfg, Calls(cfg, EMPTY, calls));
    LandedPush(cfg, calls, InSpaces(2, [5]), 2);
    var once := calls + [PushOf(InSpaces(2, [5]), 2)];
    var t := Calls(cfg, EMPTY, once);
    UnsharingOnceLands(cfg, t);
    LandedPush(cfg, once, InSpaces(3, []), 3);
    DropsFive(t);
    RecordedAt(t.removals, [5], 1, Note, Removal(1, 1, 3));
  }

  predicate TwinRow(t: Tables, spaces: seq<SpaceId>, at: int) {
    && t.entries.Keys == {FIRST} && t.entries[FIRST].spaceIds == spaces && t.entries[FIRST].Live()
    && t.entries[FIRST].updatedAt == at && t.entries[FIRST].body.blobKey.None?
  }

  lemma RefusedPush(cfg: Config, calls: seq<Call>, e: PushEntry, now: int)
    requires AllWellFormed(calls)
    requires var t := Calls(cfg, EMPTY, calls); !Writes(cfg, t, OpeningBudget(cfg, t, 1), 1, e)
    ensures AllWellFormed(calls + [PushOf(e, now)])
    ensures Calls(cfg, EMPTY, calls + [PushOf(e, now)]) == Calls(cfg, EMPTY, calls)
  {
    hide Calls, Answered, Writes, WriteRow;
    OneMoreCall(cfg, calls, PushOf(e, now));
    OnePush(cfg, Calls(cfg, EMPTY, calls), 1, 0, e, now);
  }

  lemma NamingOnceLands(cfg: Config, t: Tables)
    requires TwinRow(t, [5, 5], 1)
    ensures Writes(cfg, t, OpeningBudget(cfg, t, 1), 1, InSpaces(2, [5]))
  {
    hide OpeningBudget;
    assert Added(t, 1, InSpaces(2, [5])) == [] && Dropped(t, 1, InSpaces(2, [5])) == [];
  }

  lemma DropsFive(t: Tables)
    requires TwinRow(t, [5], 2)
    ensures Dropped(t, 1, InSpaces(3, [])) == [5]
  {
    assert [5][1..] == [];
  }

  lemma UnsharingOnceLands(cfg: Config, t: Tables)
    requires TwinRow(t, [5], 2)
    ensures Writes(cfg, t, OpeningBudget(cfg, t, 1), 1, InSpaces(3, []))
  {
    hide OpeningBudget;
    DropsFive(t);
    assert Added(t, 1, InSpaces(3, [])) == [];
  }

  lemma CreateAnswers(cfg: Config)
    ensures Answered(cfg, EMPTY, Other(Event(Social(CreateSpace(1, 5, true)), 0))) == Spaces.Created(EMPTY, 1, 5, true, 0)
  {
  }

  lemma TwinInsertLands(cfg: Config, t: Tables)
    requires cfg.maxEntries >= 1 && t.entries == map[] && MemberKey(5, 1) in t.members
    ensures Writes(cfg, t, OpeningBudget(cfg, t, 1), 1, InSpaces(1, [5, 5]))
  {
    assert LiveKeys(t, 1) == {};
  }

  lemma TwinIsRefused(cfg: Config, t: Tables)
    requires TwinRow(t, [5, 5], 1)
    ensures Judge(cfg, t, OpeningBudget(cfg, t, 1), 1, InSpaces(2, [])) == Refused(RemovalNamedTwice)
    ensures !Writes(cfg, t, OpeningBudget(cfg, t, 1), 1, InSpaces(2, []))
  {
    hide OpeningBudget;
    var e := InSpaces(2, []);
    assert Added(t, 1, e) == [];
    assert [5, 5][1..] == [5];
    assert Dropped(t, 1, e) == [5, 5];
    assert [5, 5][0] == [5, 5][1];
  }

  lemma TwinIsTakenDown(t: Tables)
    requires t.entries.Keys == {FIRST} && t.entries[FIRST].spaceIds == [5, 5]
    requires Owns(t, 5, 1)
    ensures var t' := TakeDown.TakenDown(t, 5, 1, Note, 1, 9);
      t'.entries.Keys == {FIRST} && t'.entries[FIRST].spaceIds == []
  {
    hide Recorded, TakeDown.RecordedAuthor;
    assert FIRST in TakeDown.Carriers(t, 5, 1, Note);
    assert FIRST in TakeDown.Targets(t, 5, 1, Note, 1);
  }

  // ── A ring's name without the ring (Keys.InvitedNewcomersAreNamedIff) ─────

  /** An invite accepted before its ring is attached leaves a member whose wrapper is named and whose ring is not there. */
  lemma AWrapperWithoutARing(cfg: Config) returns (evs: seq<Event>)
    ensures InOrder(0, evs)
    ensures var t := Run(cfg, EMPTY, evs);
      var mk := MemberKey(5, 2);
      && mk in t.members && t.members[mk].ring.None? && t.members[mk].wrappedBy == Some(1)
      && !Keys.NamesItsWrapper(t.members[mk])
  {
    hide Run, Apply;
    var create := Event(Social(CreateSpace(1, 5, true)), 0);
    var invite := Event(AtDoor(CreateInvite(5, 1, "a", Some(2), None, 3)), 1);
    var accept := Event(AtDoor(AcceptInvite(3, Door.Claims(2, "a", Some(true)))), 2);
    evs := [] + [create] + [invite] + [accept];
    NoEvents(cfg);
    RunLast(cfg, EMPTY, [], create);
    RunLast(cfg, EMPTY, [] + [create], invite);
    RunLast(cfg, EMPTY, [] + [create] + [invite], accept);
    CreateGoes(cfg);
    InviteGoes(cfg, Apply(cfg, EMPTY, create));
    AcceptGoes(cfg, Apply(cfg, Apply(cfg, EMPTY, create), invite));
  }

  lemma NoEvents(cfg: Config)
    ensures Run(cfg, EMPTY, []) == EMPTY
  {
  }

  lemma CreateGoes(cfg: Config)
    ensures var t := Apply(cfg, EMPTY, Event(Social(CreateSpace(1, 5, true)), 0));
      Owns(t, 5, 1) && t.members.Keys == {MemberKey(5, 1)} && t.invites == map[]
  {
  }

  predicate Addressed(t: Tables) {
    && 3 in t.invites && t.invites[3].space == 5 && t.invites[3].inviter == 1 && t.invites[3].invitee == Some(2)
    && t.invites[3].status == Pending && t.invites[3].expiresAt >= 2 && t.invites[3].ring.None?
  }

  lemma InviteGoes(cfg: Config, t: Tables)
    requires Owns(t, 5, 1) && t.members.Keys == {MemberKey(5, 1)} && t.invites == map[]
    ensures var t' := Apply(cfg, t, Event(AtDoor(CreateInvite(5, 1, "a", Some(2), None, 3)), 1));
      Addressed(t') && t'.members == t.members && t'.spaces == t.spaces
  {
  }

  lemma AcceptGoes(cfg: Config, t: Tables)
    requires Addressed(t) && Owns(t, 5, 1) && MemberKey(5, 2) !in t.members
    ensures var t' := Apply(cfg, t, Event(AtDoor(AcceptInvite(3, Door.Claims(2, "a", Some(true)))), 2));
      var mk := MemberKey(5, 2);
      mk in t'.members && t'.members[mk].ring.None? && t'.members[mk].wrappedBy == Some(1)
  {
  }

  // ── A blob confirmed late (Quota.LateConfirmHonouredIff) ──────────────────

  const LAPSED := Blobs.RESERVATION_MS

  function Reserved(at: int, confirmed: bool): Blob {
    Blob(1, 6, "", confirmed, at)
  }

  /** Quota ten; six bytes reserved and lapsed, six more reserved. */
  function Oversubscribed(late: bool): Tables {
    EMPTY.(quotas := map[1 := 10], blobs := map[1 := Reserved(0, late), 2 := Reserved(LAPSED, false)])
  }

  lemma SixOf(t: Tables, keys: set<BlobKey>, k: BlobKey)
    requires k in t.blobs && t.blobs[k].size == 6 && keys == {k}
    ensures Blobs.TotalSize(t.blobs, keys) == 6
  {
    Blobs.TotalSizePicks(t.blobs, keys, k);
    assert keys - {k} == {};
  }

  lemma FirstReservation()
    ensures Blobs.Requested(EMPTY.(quotas := map[1 := 10]), 1, 1, 6, "", 0, 0)
      == EMPTY.(quotas := map[1 := 10], blobs := map[1 := Reserved(0, false)])
  {
    var t := EMPTY.(quotas := map[1 := 10]);
    assert Blobs.ConfirmedKeys(t, 1) + Blobs.ReservedKeys(t, 1, 0) == {};
  }

  lemma SecondReservation()
    ensures Blobs.Requested(
      EMPTY.(quotas := map[1 := 10], blobs := map[1 := Reserved(0, false)]), 1, 2, 6, "", LAPSED, LAPSED)
      == Oversubscribed(false)
  {
    var t := EMPTY.(quotas := map[1 := 10], blobs := map[1 := Reserved(0, false)]);
    assert Blobs.ConfirmedKeys(t, 1) + Blobs.ReservedKeys(t, 1, LAPSED) == {};
  }

  lemma LateConfirmPasses()
    ensures Blobs.Confirmed(Oversubscribed(false), 1, 1, Some(Blobs.Head(6, None))) == Oversubscribed(true)
  {
    assert Blobs.ConfirmedKeys(Oversubscribed(false), 1) == {};
  }

  lemma PromptConfirmIsRefused()
    ensures Blobs.ConfirmFault(Oversubscribed(true), 1, 2, Some(Blobs.Head(6, None))) == Some(Blobs.OverQuota)
    ensures !Quota.Honoured(Oversubscribed(true), LAPSED)
  {
    var t := Oversubscribed(true);
    assert Blobs.ConfirmedKeys(t, 1) == {1} && Blobs.ReservedKeys(t, 1, LAPSED) == {2};
    SixOf(t, {1}, 1);
    Blobs.TotalSizePicks(t.blobs, {1, 2}, 2);
    assert {1, 2} - {2} == {1};
    assert {1} + {2} == {1, 2};
  }

  /**
   * A reservation lapses, its bytes are reserved again, and the first upload is
   * confirmed late: the second is then refused, inside its own reservation.
   */
  lemma ALateConfirmOversells(cfg: Config) returns (evs: seq<Event>)
    ensures InOrder(0, evs) && ClockAfter(0, evs) == LAPSED
    ensures Run(cfg, EMPTY, evs) == Oversubscribed(true)
    ensures !Quota.Honoured(Run(cfg, EMPTY, evs), LAPSED)
    ensures Blobs.Unexpired(Run(cfg, EMPTY, evs).blobs[2], LAPSED)
    ensures Blobs.ConfirmFault(Run(cfg, EMPTY, evs), 1, 2, Some(Blobs.Head(6, None))) == Some(Blobs.OverQuota)
  {
    hide Blobs.Requested, Blobs.Confirmed, Blobs.ConfirmFault, Quota.Honoured;
    var quota := Event(Storage(SetQuota(1, 10)), 0);
    var first := Event(Storage(RequestUpload(1, 1, 6, "", 0)), 0);
    var second := Event(Storage(RequestUpload(1, 2, 6, "", LAPSED)), LAPSED);
    var confirm := Event(Storage(ConfirmUpload(1, 1, Some(Blobs.Head(6, None)))), LAPSED);
    evs := [quota, first, second, confirm];
    assert evs[..3] == [quota, first, second] && evs[..3][..2] == [quota, first];
    assert evs[..2][..1] == [quota] && evs[..1][..0] == [];
    FirstReservation();
    SecondReservation();
    LateConfirmPasses();
    PromptConfirmIsRefused();
    assert Run(cfg, EMPTY, []) == EMPTY;
    assert Run(cfg, EMPTY, [quota]) == EMPTY.(quotas := map[1 := 10]);
    assert Run(cfg, EMPTY, [quota, first])
      == EMPTY.(quotas := map[1 := 10], blobs := map[1 := Reserved(0, false)]);
    assert Run(cfg, EMPTY, [quota, first, second]) == Oversubscribed(false);
  }

  // ── A version nobody merged (Settings.MergesReplaceTheirBaseIff) ──────────

  /** Two devices write under one stamp, the second without a base; a merge of the first version replaces the second. */
  lemma AVersionIsLost()
    ensures var a, b := Settings.Put("a", 1, None), Settings.Put("b", 1, None);
      var merged := Settings.Put("a and more", 2, Some(1));
      && Settings.Play(None, [a]) == Some(Settings.Stored("a", 1))
      && Settings.Play(None, [a, b]) == Some(Settings.Stored("b", 1))
      && Settings.Play(None, [a, b, merged]) == Some(Settings.Stored("a and more", 2))
      && Settings.Taken(None, [a, b, merged]) == [a, b, merged]
      && Settings.Hides(Settings.Play(None, [a]), b)
  {
    hide Settings.Play, Settings.Taken;
    var a, b := Settings.Put("a", 1, None), Settings.Put("b", 1, None);
    var merged := Settings.Put("a and more", 2, Some(1));
    Settings.NoPuts(None);
    Settings.OneMorePut(None, [], a);
    Settings.OneMorePut(None, [a], b);
    Settings.OneMorePut(None, [a, b], merged);
    assert [] + [a] == [a] && [a] + [b] == [a, b] && [a, b] + [merged] == [a, b, merged];
  }

  // ── An edit and a delete in both orders (LastWrite.EditAndDeleteAsCallsCommuteIff) ──

  /** After one push, an edit and an older delete leave different texts in the two orders. */
  lemma OrderMayMatter(cfg: Config) returns (calls: seq<Call>)
    requires cfg.maxEntries >= 1
    ensures AllWellFormed(calls)
    ensures var t := Calls(cfg, EMPTY, calls);
      var edit, delete := PushOf(NoteAt(5, None), 2), PushOf(NoteAt(3, Some(3)), 2);
      var editLater, deleteLater := PushOf(NoteAt(5, None), 3), PushOf(NoteAt(3, Some(3)), 3);
      var ab, ba := Answered(cfg, Answered(cfg, t, edit), deleteLater), Answered(cfg, Answered(cfg, t, delete), editLater);
      && FIRST in ab.entries && FIRST in ba.entries
      && !ab.entries[FIRST].Live() && ba.entries[FIRST].Live()
  {
    hide Calls, Answered, Recorded, Writes, OpeningBudget;
    NoCalls(cfg);
    FirstNoteLands(cfg, 1, NoteAt(1, None));
    LandedPush(cfg, [], NoteAt(1, None), 1);
    calls := [] + [PushOf(NoteAt(1, None), 1)];
    var t := Calls(cfg, EMPTY, calls);
    assert LiveKeys(t, 1) == {FIRST};
    LastWrite.EditAndDeleteAsCallsCommuteIff(cfg, t, 1, 0, FIRST, NoteAt(5, None), NoteAt(3, Some(3)), 2, 3);
    EditComesBack(cfg, t);
  }

  lemma FirstNoteLands(cfg: Config, client: ClientId, e: PushEntry)
    requires cfg.maxEntries >= 1 && !e.Tombstone() && e.body == Body("", None, None, None, map[]) && e.spaceIds == []
    ensures Writes(cfg, EMPTY, OpeningBudget(cfg, EMPTY, 1), 1, e)
  {
    assert LiveKeys(EMPTY, 1) == {};
    assert Added(EMPTY, 1, e) == [];
  }

  lemma EditComesBack(cfg: Config, t: Tables)
    requires cfg.maxEntries >= 1 && RowIs(t, 1, true)
    ensures var t' := Answered(cfg, t, PushOf(NoteAt(3, Some(3)), 2));
      var t'' := Answered(cfg, t', PushOf(NoteAt(5, None), 3));
      FIRST in t''.entries && t''.entries[FIRST].Live()
  {
    hide Answered, Recorded, Writes, OpeningBudget;
    PlainUpdateLands(cfg, t, NoteAt(3, Some(3)), 1, true);
    OnePush(cfg, t, 1, 0, NoteAt(3, Some(3)), 2);
    var t' := Answered(cfg, t, PushOf(NoteAt(3, Some(3)), 2));
    PlainUpdateLands(cfg, t', NoteAt(5, None), 3, false);
    OnePush(cfg, t', 1, 0, NoteAt(5, None), 3);
  }

  // ── Two pushes at one stamp (Convergence.CatchesUpIffFollowing) ───────────

  function SecondNote(at: int): PushEntry {
    PushEntry(2, Note, None, Body("", None, None, None, map[]), at, at, false, None, [])
  }

  const FRESH := Convergence.Device(1, None, 0, map[])

  /** The page that holds the first note and nothing else. */
  const FIRST_PAGE := Pull.Pulled([Paging.Stamped(FIRST, 5)], [], None)

  /**
   * Two pushes get the same stamp, and the device pulls between them. It is in
   * step after its pull, and however often it pulls again it never gets the
   * second row (Convergence.PullsAloneNeverMend).
   */
  lemma AnEqualStampIsNeverPulled(cfg: Config) returns (calls: seq<Call>)
    requires cfg.maxEntries >= 2
    ensures AllWellFormed(calls) && |calls| == 2
    ensures calls[0] == PushOf(NoteAt(1, None), 5) && calls[1] == PushOf(SecondNote(1), 5)
    ensures var t1, t2 := Calls(cfg, EMPTY, calls[..1]), Calls(cfg, EMPTY, calls);
      && Pull.Answers(t1, 1, 0, 10, None, FIRST_PAGE) && FIRST in t1.entries
      && var dev := Convergence.Receive(t1, FRESH, FIRST_PAGE);
      && dev.cursor == 5 && Convergence.InStep(t1, dev)
      && t2.entries.Keys == {FIRST, SECOND} && t2.entries[SECOND].serverTs == 5
      && Sharing.OneAuthor(t2) && Sharing.RemovalsTrail(t2)
      && !Convergence.Following(t2, dev)
  {
    hide Calls, Answered, Recorded, Writes, OpeningBudget;
    NoCalls(cfg);
    FirstNoteLands(cfg, 1, NoteAt(1, None));
    LandedPush(cfg, [], NoteAt(1, None), 5);
    var first := [] + [PushOf(NoteAt(1, None), 5)];
    var t1 := Calls(cfg, EMPTY, first);
    InsertsRecordNothing(EMPTY, NoteAt(1, None), 5);
    InsertsRecordNothing(t1, SecondNote(1), 5);
    FirstPage(t1);
    SecondNoteLands(cfg, t1);
    LandedPush(cfg, first, SecondNote(1), 5);
    calls := first + [PushOf(SecondNote(1), 5)];
    assert calls[..1] == first;
    SecondNoteIsBehind(t1, Calls(cfg, EMPTY, calls));
  }

  lemma InsertsRecordNothing(t: Tables, e: PushEntry, now: int)
    requires KeyOf(1, e) !in t.entries
    ensures WriteRow(t, 1, 0, e, now).removals == t.removals
  {
  }

  ghost predicate OneNote(t: Tables) {
    && RowIs(t, 1, true) && t.entries[FIRST].serverTs == 5
    && t.removals == map[] && t.members == map[]
  }

  lemma SecondNoteLands(cfg: Config, t: Tables)
    requires cfg.maxEntries >= 2 && OneNote(t)
    ensures Writes(cfg, t, OpeningBudget(cfg, t, 1), 1, SecondNote(1))
  {
    assert LiveKeys(t, 1) == {FIRST};
    assert Added(t, 1, SecondNote(1)) == [];
  }

  lemma FirstPage(t: Tables)
    requires OneNote(t)
    ensures Pull.Answers(t, 1, 0, 10, None, FIRST_PAGE)
    ensures var dev := Convergence.Receive(t, FRESH, FIRST_PAGE);
      dev.cursor == 5 && Convergence.InStep(t, dev)
  {
    assert Pull.Sees(t, 1, FIRST);
    var rows: seq<Paging.Stamped<RowKey>> := [Paging.Stamped(FIRST, 5)];
    var none: seq<Paging.Stamped<RemovalKey>> := [];
    assert Pull.EntriesAfter(t, 1, 0, None) == {Paging.Stamped(FIRST, 5)};
    assert Paging.Enumerates(rows, Pull.EntriesAfter(t, 1, 0, None));
    assert Paging.Enumerates(none, Pull.RemovalsAfter(t, 1, 0, None));
    assert FIRST_PAGE == Pull.PullPage(rows, none, 10);
    hide Pull.PullPage, Pull.EntriesAfter, Pull.RemovalsAfter, Pull.Answers;
    assert Convergence.Following(t, FRESH) by {
      NothingIsAhead(t);
    }
    hide Convergence.Following, Convergence.Receive, Convergence.InStep;
    Convergence.PageKeepsFollowing(t, FRESH, 10, FIRST_PAGE);
    CursorAtFive(t);
  }

  lemma NothingIsAhead(t: Tables)
    requires OneNote(t)
    ensures Convergence.Following(t, FRESH)
  {
    forall slot | Convergence.Tracks(t, FRESH, slot)
      ensures Convergence.Ahead(t, 1, slot, 0) || Convergence.Agrees(t, FRESH, slot)
    {
      if k :| Convergence.Fills(t, 1, k, slot) {
        assert Convergence.FilledAfter(t, 1, k, slot, 0);
      }
    }
  }

  lemma CursorAtFive(t: Tables)
    requires FIRST in t.entries
    ensures Convergence.Receive(t, FRESH, FIRST_PAGE).cursor == 5
  {
    var rows := FIRST_PAGE.entries;
    assert rows[1..] == [];
    assert Convergence.Latest(0, rows) == 5;
    assert Convergence.Latest(5, FIRST_PAGE.removals) == 5;
  }

  lemma SecondNoteIsBehind(t1: Tables, t2: Tables)
    requires OneNote(t1) && t2.entries.Keys == {FIRST, SECOND} && t2.entries[FIRST] == t1.entries[FIRST]
    requires t2.entries[SECOND].serverTs == 5 && t2.entries[SECOND].spaceIds == []
    requires t2.removals == map[] && t2.members == map[]
    ensures Sharing.OneAuthor(t2) && Sharing.RemovalsTrail(t2)
    ensures !Convergence.Following(t2, Convergence.Receive(t1, FRESH, FIRST_PAGE))
  {
    var dev := Convergence.Receive(t1, FRESH, FIRST_PAGE);
    var slot := Convergence.Mine(2, Note);
    assert Convergence.Fills(t2, 1, SECOND, slot);
    CursorAtFive(t1);
    assert slot !in dev.replica by {
      Convergence.LastStoredWins(
        Convergence.Dropped(FRESH.replica, FIRST_PAGE.removals), 1, Convergence.Views(t1, 1, FIRST_PAGE.entries), slot);
    }
    hide Convergence.Receive;
    assert Convergence.Tracks(t2, dev, slot) && !Convergence.Agrees(t2, dev, slot);
    assert forall k :: Convergence.Fills(t2, 1, k, slot) ==> k == SECOND;
    assert !Convergence.Ahead(t2, 1, slot, 5);
  }

  // ── A rekey withdrawn without a new key (Keys.RekeysAreAnswered) ──────────

  /** Space 5 of owner 1: its members and their rings, its departures and whether a rekey is asked for. */
  ghost predicate SpaceIs(t: Tables, departures: nat, asked: bool, rings: map<UserId, Option<Ring>>) {
    && Owns(t, 5, 1) && t.spaces[5].departures == departures && t.spaces[5].rekeyRequestedAt.Some? == asked
    && (forall mk :: mk in t.members <==> mk.space == 5 && mk.user in rings)
    && (forall u :: u in rings ==> t.members[MemberKey(5, u)].ring == rings[u])
  }

  lemma OpensSpace(cfg: Config)
    ensures var t := Apply(cfg, EMPTY, Event(Social(CreateSpace(1, 5, true)), 0));
      SpaceIs(t, 0, false, map[1 := None]) && t.invites == map[]
  {
  }

  lemma SuppliesOne(
    cfg: Config, t: Tables, departures: nat, asked: bool, rings: map<UserId, Option<Ring>>,
    caller: UserId, target: UserId, now: int)
    requires SpaceIs(t, departures, asked, rings) && caller in rings && target in rings
    requires caller == 1 || (target != 1 && rings[target].None?)
    requires asked ==> caller != 1
    ensures var t' := Apply(cfg, t, Event(Social(DistributeKeys(5, caller, [Spaces.Keyring(target, "k")], None)), now));
      && SpaceIs(t', departures, asked, rings[target := Some(Ring("k", departures))])
      && t'.invites == t.invites
  {
    hide Spaces.EveryoneHoldsARing;
    var one := [Spaces.Keyring(target, "k")];
    assert one[..0] == [];
    assert Spaces.HandedOut(t.members, 5, t.spaces[5], caller, []) == Spaces.Handout(t.members, []);
    assert Spaces.MayWrite(t.members, 5, 1, caller, target);
    assert Spaces.HandedOut(t.members, 5, t.spaces[5], caller, one).members ==
      t.members[MemberKey(5, target) := t.members[MemberKey(5, target)].(
        ring := Some(Ring("k", departures)), wrappedBy := Some(caller))];
  }

  lemma InvitesOne(
    cfg: Config, t: Tables, departures: nat, asked: bool, rings: map<UserId, Option<Ring>>,
    u: UserId, i: InviteId, now: int)
    requires SpaceIs(t, departures, asked, rings) && u !in rings && u != 1 && i !in t.invites
    ensures var t' := Apply(cfg, t, Event(AtDoor(CreateInvite(5, 1, "a", Some(u), None, i)), now));
      && SpaceIs(t', departures, asked, rings)
      && t'.invites == t.invites[i := Invite(5, 1, "a", Some(u), Pending, now, now + Spaces.INVITE_TTL_MS, None)]
  {
  }

  lemma AdmitsOne(
    cfg: Config, t: Tables, departures: nat, asked: bool, rings: map<UserId, Option<Ring>>,
    u: UserId, i: InviteId, now: int)
    requires SpaceIs(t, departures, asked, rings) && u !in rings && i in t.invites
    requires t.invites[i] == Invite(5, 1, "a", Some(u), Pending, now, now + Spaces.INVITE_TTL_MS, None)
    ensures var t' := Apply(cfg, t, Event(AtDoor(AcceptInvite(i, Door.Claims(u, "a", Some(true)))), now));
      SpaceIs(t', departures, asked, rings[u := None]) && t'.invites.Keys == t.invites.Keys
  {
  }

  lemma LosesOne(
    cfg: Config, t: Tables, departures: nat, rings: map<UserId, Option<Ring>>, now: int)
    requires SpaceIs(t, departures, false, rings) && rings.Keys == {1, 2, 3}
    ensures var t' := Apply(cfg, t, Event(Social(RemoveMember(5, 3, 3)), now));
      SpaceIs(t', departures + 1, true, map[1 := rings[1], 2 := None])
  {
    assert Spaces.Leaves(t, 5, 3, 3);
    hide Spaces.WithoutInviteRings, Spaces.KeyedInvites, Spaces.Leaves;
    var t' := Apply(cfg, t, Event(Social(RemoveMember(5, 3, 3)), now));
    assert t' == Spaces.Left(t, 5, 3, 3, now);
    forall mk
      ensures mk in t'.members <==> mk.space == 5 && (mk.user == 1 || mk.user == 2)
    {
    }
  }

  lemma OwnerHandsOutNothing(cfg: Config, t: Tables, departures: nat, rings: map<UserId, Option<Ring>>, now: int)
    requires SpaceIs(t, departures, true, rings) && 1 in rings && forall u :: u in rings ==> rings[u].Some?
    ensures var t' := Apply(cfg, t, Event(Social(DistributeKeys(5, 1, [], None)), now));
      SpaceIs(t', departures, false, rings)
  {
    assert Spaces.HandedOut(t.members, 5, t.spaces[5], 1, []) == Spaces.Handout(t.members, []);
  }

  const OLD_RING := Some(Ring("k", 0))
  const RELAYED := Some(Ring("k", 1))

  lemma JoinsByInvite(cfg: Config, evs: seq<Event>, rings: map<UserId, Option<Ring>>, u: UserId, i: InviteId)
    returns (more: seq<Event>)
    requires SpaceIs(Run(cfg, EMPTY, evs), 0, false, rings)
    requires u !in rings && u != 1 && i !in Run(cfg, EMPTY, evs).invites
    ensures |more| == 2 && more[0].now == 0 && more[1].now == 0
    ensures SpaceIs(Run(cfg, EMPTY, evs + more), 0, false, rings[u := None])
    ensures Run(cfg, EMPTY, evs + more).invites.Keys == Run(cfg, EMPTY, evs).invites.Keys + {i}
  {
    hide Run, Apply, SpaceIs;
    var invite := Event(AtDoor(CreateInvite(5, 1, "a", Some(u), None, i)), 0);
    var accept := Event(AtDoor(AcceptInvite(i, Door.Claims(u, "a", Some(true)))), 0);
    more := [invite, accept];
    RunLast(cfg, EMPTY, evs, invite);
    RunLast(cfg, EMPTY, evs + [invite], accept);
    InvitesOne(cfg, Run(cfg, EMPTY, evs), 0, false, rings, u, i, 0);
    AdmitsOne(cfg, Run(cfg, EMPTY, evs + [invite]), 0, false, rings, u, i, 0);
    assert evs + more == evs + [invite] + [accept];
  }

  /** The owner takes a ring for themselves and lets two members in, by invites that carry none. */
  lemma TwoMembersJoin(cfg: Config) returns (evs: seq<Event>)
    ensures |evs| == 6 && forall i :: 0 <= i < 6 ==> evs[i].now == 0
    ensures SpaceIs(Run(cfg, EMPTY, evs), 0, false, map[1 := OLD_RING, 2 := None, 3 := None])
  {
    hide Run, Apply, SpaceIs;
    var create := Event(Social(CreateSpace(1, 5, true)), 0);
    var own := Event(Social(DistributeKeys(5, 1, [Spaces.Keyring(1, "k")], None)), 0);
    var none: Option<Ring> := None;
    var alone, two := map[1 := OLD_RING], map[1 := OLD_RING, 2 := none];
    NoEvents(cfg);
    RunLast(cfg, EMPTY, [], create);
    OpensSpace(cfg);
    RunLast(cfg, EMPTY, [] + [create], own);
    SuppliesOne(cfg, Run(cfg, EMPTY, [] + [create]), 0, false, map[1 := none], 1, 1, 0);
    assert map[1 := none][1 := OLD_RING] == alone;
    evs := [] + [create] + [own];
    var second := JoinsByInvite(cfg, evs, alone, 2, 7);
    assert alone[2 := none] == two;
    evs := evs + second;
    var third := JoinsByInvite(cfg, evs, two, 3, 8);
    assert two[3 := none] == map[1 := OLD_RING, 2 := none, 3 := none];
    evs := evs + third;
  }

  /**
   * A member leaves; the one who stays puts the old ring back in their own gap; the
   * owner hands out nothing. The rekey is off, and the owner still holds the one
   * ring they have held since before the departure.
   */
  lemma ARekeyWithoutANewKey(cfg: Config) returns (evs: seq<Event>)
    ensures InOrder(0, evs)
    ensures SpaceIs(Run(cfg, EMPTY, evs), 1, false, map[1 := OLD_RING, 2 := RELAYED])
    ensures |evs| == 9 && evs[8].op == Social(DistributeKeys(5, 1, [], None))
    ensures SpaceIs(Run(cfg, EMPTY, evs[..8]), 1, true, map[1 := OLD_RING, 2 := RELAYED])
  {
    hide Run, Apply, SpaceIs;
    var leave := Event(Social(RemoveMember(5, 3, 3)), 0);
    var relay := Event(Social(DistributeKeys(5, 2, [Spaces.Keyring(2, "k")], None)), 0);
    var nothing := Event(Social(DistributeKeys(5, 1, [], None)), 0);
    var none: Option<Ring> := None;
    evs := TwoMembersJoin(cfg);
    RunLast(cfg, EMPTY, evs, leave);
    LosesOne(cfg, Run(cfg, EMPTY, evs), 0, map[1 := OLD_RING, 2 := none, 3 := none], 0);
    evs := evs + [leave];
    RunLast(cfg, EMPTY, evs, relay);
    SuppliesOne(cfg, Run(cfg, EMPTY, evs), 1, true, map[1 := OLD_RING, 2 := none], 2, 2, 0);
    assert map[1 := OLD_RING, 2 := none][2 := RELAYED] == map[1 := OLD_RING, 2 := RELAYED];
    evs := evs + [relay];
    RunLast(cfg, EMPTY, evs, nothing);
    OwnerHandsOutNothing(cfg, Run(cfg, EMPTY, evs), 1, map[1 := OLD_RING, 2 := RELAYED], 0);
    var before := evs;
    evs := evs + [nothing];
    assert evs[..8] == before;
  }
}
