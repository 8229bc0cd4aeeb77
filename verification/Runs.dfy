/**
 * Runs of the whole server: any serial mix of the service calls, each with the
 * clock reading it took. A committed push appears as its entries one by one
 * (`BatchIsARun`); a refused one does not appear, because it leaves nothing.
 */
module Runs {
  import opened Wrappers
  import opened Tables
  import opened Push
  import TakeDown
  import Blobs
  import Spaces
  import Door

  datatype SyncOp =
    | PushOne(user: UserId, device: DeviceId, entry: PushEntry, room: Budget)
    | RemoveFromSpace(space: SpaceId, client: ClientId, etype: EntryType, user: UserId)
    | PruneRemovals

  datatype BlobOp =
    | RequestUpload(user: UserId, key: BlobKey, size: nat, checksum: string, checkedAt: int)
    | ConfirmUpload(user: UserId, key: BlobKey, head: Option<Blobs.Head>)
    | ReleaseUpload(user: UserId, key: BlobKey)
    | SweepBlobs
    | CleanupBlobs(stuck: set<BlobKey>)
    | SetQuota(user: UserId, quota: nat)

  datatype SpaceOp =
    | CreateSpace(user: UserId, space: SpaceId, shareHistory: bool)
    | UpdateSpace(space: SpaceId, user: UserId, history: Option<bool>, approve: Option<bool>)
    | RemoveMember(space: SpaceId, target: UserId, user: UserId)
    | DistributeKeys(space: SpaceId, user: UserId, rings: seq<Spaces.Keyring>, fingerprint: Option<string>)

  datatype DoorOp =
    | RequestJoin(user: UserId, found: Option<SpaceId>)
    | ApproveJoin(mk: MemberKey, user: UserId, text: Option<string>)
    | DeclineJoin(mk: MemberKey, user: UserId)
    | CreateInvite(space: SpaceId, user: UserId, email: string, invitee: Option<UserId>,
                   pending: Option<InviteId>, newId: InviteId)
    | AttachKey(invite: InviteId, user: UserId, ring: string)
    | RevokeInvite(invite: InviteId, user: UserId)
    | AcceptInvite(invite: InviteId, claims: Door.Claims)
    | DeclineInvite(invite: InviteId, claims: Door.Claims)

  datatype Op = Sync(sync: SyncOp) | Storage(blob: BlobOp) | Social(social: SpaceOp) | AtDoor(door: DoorOp)

  datatype Event = Event(op: Op, now: int)

  function ApplySync(cfg: Config, t: Tables, op: SyncOp, now: int): (t': Tables)
    ensures t' == t.(entries := t'.entries, removals := t'.removals, blobs := t'.blobs)
  {
    match op
    case PushOne(user, device, e, room) => Written(cfg, t, room, user, device, e, now)
    case RemoveFromSpace(space, client, etype, user) =>
      TakeDown.TakenDown(t, space, client, etype, user, now)
    case PruneRemovals => Blobs.Pruned(t, now)
  }

  /** Storage calls touch no entry, no removal record and no space. */
  ghost function ApplyBlob(t: Tables, op: BlobOp, now: int): (t': Tables)
    ensures t' == t.(blobs := t'.blobs, quotas := t'.quotas)
  {
    match op
    case RequestUpload(user, key, size, checksum, checkedAt) =>
      Blobs.Requested(t, user, key, size, checksum, checkedAt, now)
    case ConfirmUpload(user, key, head) => Blobs.Confirmed(t, user, key, head)
    case ReleaseUpload(user, key) => Blobs.Released(t, user, key)
    case SweepBlobs => Blobs.Swept(t, now)
    case CleanupBlobs(stuck) => Blobs.Cleaned(t, now, stuck)
    case SetQuota(user, quota) => t.(quotas := t.quotas[user := quota])
  }

  /** Calls about spaces touch no entry, no removal record and no blob. */
  function ApplySpace(t: Tables, op: SpaceOp, now: int): (t': Tables)
    ensures t' == t.(spaces := t'.spaces, members := t'.members, invites := t'.invites)
  {
    match op
    case CreateSpace(user, space, shareHistory) => Spaces.Created(t, user, space, shareHistory, now)
    case UpdateSpace(space, user, history, approve) => Spaces.Updated(t, space, user, history, approve)
    case RemoveMember(space, target, user) => Spaces.Left(t, space, target, user, now)
    case DistributeKeys(space, user, rings, fingerprint) => Spaces.Distributed(t, space, user, rings, fingerprint)
  }

  function ApplyDoor(t: Tables, op: DoorOp, now: int): (t': Tables)
    ensures t' == t.(members := t'.members, requests := t'.requests, invites := t'.invites)
  {
    match op
    case RequestJoin(user, found) => Door.Knocked(t, user, found, now)
    case ApproveJoin(mk, user, text) => Door.LetIn(t, mk, user, text, now)
    case DeclineJoin(mk, user) => Door.Declined(t, mk, user, now)
    case CreateInvite(space, user, email, invitee, pending, newId) =>
      Door.Invited(t, space, user, email, invitee, pending, newId, now)
    case AttachKey(invite, user, ring) => Door.Attached(t, invite, user, ring)
    case RevokeInvite(invite, user) => Door.Withdrawn(t, invite, user)
    case AcceptInvite(invite, claims) => Door.Entered(t, invite, claims, now)
    case DeclineInvite(invite, claims) => Door.Spurned(t, invite, claims, now)
  }

  ghost function Apply(cfg: Config, t: Tables, ev: Event): (t': Tables)
    ensures !ev.op.Sync? ==> t'.entries == t.entries && t'.removals == t.removals
  {
    match ev.op
    case Sync(op) => ApplySync(cfg, t, op, ev.now)
    case Storage(op) => ApplyBlob(t, op, ev.now)
    case Social(op) => ApplySpace(t, op, ev.now)
    case AtDoor(op) => ApplyDoor(t, op, ev.now)
  }

  // ── The services behind the calls ─────────────────────────────────────────

  /** Each storage call is the service method of its name; a quota is set by hand. */
  method ServeBlob(db: Database, op: BlobOp, now: int)
    modifies db
    ensures db.View() == ApplyBlob(old(db.View()), op, now)
  {
    hide Blobs.Requested, Blobs.Confirmed, Blobs.Released, Blobs.Swept, Blobs.Cleaned;
    match op {
      case RequestUpload(user, key, size, checksum, checkedAt) =>
        var _ := Blobs.RequestUpload(db, user, key, size, checksum, checkedAt, now);
      case ConfirmUpload(user, key, head) => var _ := Blobs.ConfirmUpload(db, user, key, head);
      case ReleaseUpload(user, key) => var _ := Blobs.ReleaseUpload(db, user, key);
      case SweepBlobs => Blobs.ReleaseUnreferencedBlobs(db, now);
      case CleanupBlobs(stuck) => Blobs.CleanupOrphanBlobs(db, now, stuck);
      case SetQuota(user, quota) => db.quotas := db.quotas[user := quota];
    }
  }

  method ServeSpace(db: Database, op: SpaceOp, now: int)
    modifies db
    ensures db.View() == ApplySpace(old(db.View()), op, now)
  {
    hide Spaces.Created, Spaces.Updated, Spaces.Left, Spaces.Distributed;
    match op {
      case CreateSpace(user, space, shareHistory) =>
        var _ := Spaces.CreateSpace(db, user, space, shareHistory, now);
      case UpdateSpace(space, user, history, approve) =>
        var _ := Spaces.UpdateSpace(db, space, user, history, approve);
      case RemoveMember(space, target, user) => var _ := Spaces.RemoveMember(db, space, target, user, now);
      case DistributeKeys(space, user, rings, fingerprint) =>
        var _ := Spaces.DistributeKeys(db, space, user, rings, fingerprint);
    }
  }

  /** What the database promises these calls: a truthful look-up, and no invite without its space. */
  ghost predicate Served(t: Tables, op: DoorOp) {
    match op
    case CreateInvite(space, _, email, _, pending, _) => Door.AnswersPendingQuery(t, space, email, pending)
    case AttachKey(i, _, _) => i in t.invites ==> t.invites[i].space in t.spaces
    case _ => true
  }

  method ServeDoor(db: Database, op: DoorOp, now: int)
    requires Served(db.View(), op)
    modifies db
    ensures db.View() == ApplyDoor(old(db.View()), op, now)
  {
    hide Door.Knocked, Door.LetIn, Door.Declined, Door.Invited, Door.Attached, Door.Withdrawn, Door.Entered, Door.Spurned;
    match op {
      case RequestJoin(user, found) => var _ := Door.RequestJoin(db, user, found, now);
      case ApproveJoin(mk, user, text) => var _ := Door.Approve(db, mk, user, text, now);
      case DeclineJoin(mk, user) => var _ := Door.Decline(db, mk, user, now);
      case CreateInvite(space, user, email, invitee, pending, newId) =>
        var _ := Door.CreateInvite(db, space, user, email, invitee, pending, newId, now);
      case AttachKey(invite, user, ring) => var _ := Door.AttachInviteKey(db, invite, user, ring);
      case RevokeInvite(invite, user) => var _ := Door.RevokeInvite(db, invite, user);
      case AcceptInvite(invite, claims) => var _ := Door.AcceptInvite(db, invite, claims, now);
      case DeclineInvite(invite, claims) => var _ := Door.DeclineInvite(db, invite, claims, now);
    }
  }

  /** A call of a run other than a push leaves what the service method leaves; a push is `BatchIsARun`. */
  method Serve(db: Database, ev: Event)
    requires !(ev.op.Sync? && ev.op.sync.PushOne?)
    requires ev.op.AtDoor? ==> Served(db.View(), ev.op.door)
    modifies db
    ensures db.View() == Apply(db.config, old(db.View()), ev)
  {
    hide TakeDown.TakenDown, Blobs.Pruned, ApplyBlob, ApplySpace, ApplyDoor;
    match ev.op {
      case Sync(RemoveFromSpace(space, client, etype, user)) =>
        var _ := TakeDown.RemoveEntryFromSpace(db, space, client, etype, user, ev.now);
      case Sync(PruneRemovals) => Blobs.PruneSpaceEntryRemovals(db, ev.now);
      case Storage(op) => ServeBlob(db, op, ev.now);
      case Social(op) => ServeSpace(db, op, ev.now);
      case AtDoor(op) => ServeDoor(db, op, ev.now);
    }
  }

  // ── Sequences of calls ────────────────────────────────────────────────────

  ghost function Run(cfg: Config, t: Tables, evs: seq<Event>): Tables {
    if evs == [] then t
    else Apply(cfg, Run(cfg, t, evs[..|evs| - 1]), evs[|evs| - 1])
  }

  /** The clock never goes backwards. */
  ghost predicate InOrder(clock: int, evs: seq<Event>) {
    && (forall i :: 0 <= i < |evs| ==> clock <= evs[i].now)
    && (forall i, j :: 0 <= i < j < |evs| ==> evs[i].now <= evs[j].now)
  }

  function ClockAfter(clock: int, evs: seq<Event>): int {
    if evs == [] then clock else evs[|evs| - 1].now
  }

  lemma RunLast(cfg: Config, t: Tables, evs: seq<Event>, ev: Event)
    ensures Run(cfg, t, evs + [ev]) == Apply(cfg, Run(cfg, t, evs), ev)
  {
    hide Apply;
    assert (evs + [ev])[..|evs|] == evs;
  }

  lemma {:induction false} RunFirst(cfg: Config, t: Tables, ev: Event, evs: seq<Event>)
    ensures Run(cfg, t, [ev] + evs) == Run(cfg, Apply(cfg, t, ev), evs)
  {
    if evs == [] {
      assert [ev] + evs == [ev];
      assert Run(cfg, t, [ev][..0]) == t;
    } else {
      var n := |evs| - 1;
      assert ([ev] + evs)[..|[ev] + evs| - 1] == [ev] + evs[..n];
      RunFirst(cfg, t, ev, evs[..n]);
    }
  }

  /** A batch that commits is the run of its entries, in order, at the stamps it took. */
  lemma {:induction false} BatchIsARun(
    cfg: Config, t: Tables, room: Budget, user: UserId, device: DeviceId,
    entries: seq<PushEntry>, stamps: seq<int>) returns (evs: seq<Event>)
    requires |entries| == |stamps|
    requires RunFrom(cfg, t, room, user, device, entries, stamps).Ran?
    ensures Run(cfg, t, evs) == RunFrom(cfg, t, room, user, device, entries, stamps).t
    ensures |evs| == |entries|
    ensures forall i :: 0 <= i < |evs| ==>
      && evs[i].now == stamps[i]
      && evs[i].op.Sync? && evs[i].op.sync.PushOne?
      && evs[i].op.sync.user == user && evs[i].op.sync.device == device && evs[i].op.sync.entry == entries[i]
    decreases entries
  {
    evs := [];
    if entries == [] {
    } else {
      var first := Upsert(cfg, t, room, user, device, entries[0], stamps[0]);
      var ev := Event(Sync(PushOne(user, device, entries[0], room)), stamps[0]);
      var rest := BatchIsARun(cfg, first.t, first.room, user, device, entries[1..], stamps[1..]);
      evs := [ev] + rest;
      RunFirst(cfg, t, ev, rest);
    }
  }

  // ── Calls as clients make them ────────────────────────────────────────────

  /** A whole push, or any other call. */
  datatype Call =
    | PushAll(user: UserId, device: DeviceId, entries: seq<PushEntry>, stamps: seq<int>)
    | Other(ev: Event)

  predicate WellFormed(c: Call) {
    match c
    case PushAll(_, _, entries, stamps) => |entries| == |stamps|
    case Other(ev) => !(ev.op.Sync? && ev.op.sync.PushOne?)
  }

  ghost function Answered(cfg: Config, t: Tables, c: Call): Tables
    requires WellFormed(c)
  {
    match c
    case PushAll(user, device, entries, stamps) =>
      (match RunBatch(cfg, t, user, device, entries, stamps)
       case Stopped(_) => t
       case Ran(t', _, _) => t')
    case Other(ev) => Apply(cfg, t, ev)
  }

  ghost function Calls(cfg: Config, t: Tables, calls: seq<Call>): Tables
    requires forall i :: 0 <= i < |calls| ==> WellFormed(calls[i])
  {
    if calls == [] then t
    else Answered(cfg, Calls(cfg, t, calls[..|calls| - 1]), calls[|calls| - 1])
  }

  /** A push of one entry, under the budgets the account has at that moment. */
  lemma OnePush(cfg: Config, t: Tables, user: UserId, device: DeviceId, e: PushEntry, now: int)
    ensures Answered(cfg, t, PushAll(user, device, [e], [now]))
      == Written(cfg, t, OpeningBudget(cfg, t, user), user, device, e, now)
  {
    hide Judge, WriteRow, Charge, OpeningBudget;
    var step := Upsert(cfg, t, OpeningBudget(cfg, t, user), user, device, e, now);
    assert [e][1..] == [] && [now][1..] == [];
    if step.Took? {
      assert RunFrom(cfg, step.t, step.room, user, device, [], []).Ran?;
    }
  }
}
