/**
 * The tables of the service (src/sync/models.py, src/spaces/models.py,
 * src/blobs/models.py) and the database object the services write through.
 *
 * A row is keyed by the unique constraint its table carries, so a surrogate
 * primary key appears only where clients address a row by it (invites).
 */
module Tables {
  import opened Wrappers

  // UUIDs. Only equality is used, and, for one tie-break, their order.
  type UserId = nat
  type DeviceId = nat
  type SpaceId = nat
  type ClientId = nat
  type BlobKey = nat
  type InviteId = nat

  datatype Config = Config(maxEntries: nat, maxEntryBytes: nat)

  // ── Entries ───────────────────────────────────────────────────────────────

  datatype EntryType = Clipboard | Note

  /** Names in the key envelope of an entry: the author's own wrap, or a space's. */
  datatype WrapName = Personal | ForSpace(space: SpaceId)
  type Wraps = map<WrapName, string>

  /** What an entry loses when it is deleted. */
  datatype Body = Body(
    content: string,
    metadata: Option<string>,
    blobKey: Option<BlobKey>,
    blobSize: Option<nat>,
    wraps: Wraps)

  const BARE_BODY := Body("", None, None, None, map[])

  datatype RowKey = RowKey(user: UserId, client: ClientId, etype: EntryType)

  datatype Row = Row(
    device: DeviceId,
    kind: Option<string>,
    body: Body,
    createdAt: int,
    updatedAt: int,
    serverTs: int,
    deletedAt: Option<int>,
    pinned: bool,
    spaceIds: seq<SpaceId>)
  {
    predicate Live() {
      deletedAt.None?
    }
  }

  datatype RemovalKey = RemovalKey(space: SpaceId, client: ClientId, etype: EntryType)

  datatype Removal = Removal(author: UserId, removedBy: UserId, serverTs: int)

  // ── Blobs ─────────────────────────────────────────────────────────────────

  datatype Blob = Blob(user: UserId, size: nat, checksum: string, confirmed: bool, createdAt: int)

  // ── Spaces ────────────────────────────────────────────────────────────────

  datatype Role = Owner | Member

  /**
   * A wrapped keyring, opaque to the server. `epoch` is bookkeeping for the
   * proofs: how many departures its space had seen when a client supplied the
   * ring. No operation reads it.
   */
  datatype Ring = Ring(text: string, epoch: nat)

  /** `departures` is bookkeeping too: it counts the members who have left. */
  datatype Space = Space(
    owner: UserId,
    shareHistory: bool,
    membersCanApprove: bool,
    inviteExpiresAt: Option<int>,
    fingerprint: Option<string>,
    rekeyRequestedAt: Option<int>,
    departures: nat)

  datatype MemberKey = MemberKey(space: SpaceId, user: UserId)

  datatype Membership = Membership(
    role: Role,
    ring: Option<Ring>,
    wrappedBy: Option<UserId>,
    floor: Option<int>,
    joinedAt: int)

  datatype RequestStatus = AwaitingAnswer | Approved | TurnedDown

  datatype JoinRequest = JoinRequest(
    status: RequestStatus,
    createdAt: int,
    decidedAt: Option<int>,
    decidedBy: Option<UserId>)

  datatype InviteStatus = Pending | Accepted | Declined | Revoked

  datatype Invite = Invite(
    space: SpaceId,
    inviter: UserId,
    email: string,
    invitee: Option<UserId>,
    status: InviteStatus,
    createdAt: int,
    expiresAt: int,
    ring: Option<Ring>)

  // ── The whole state ───────────────────────────────────────────────────────

  datatype Tables = Tables(
    entries: map<RowKey, Row>,
    removals: map<RemovalKey, Removal>,
    blobs: map<BlobKey, Blob>,
    quotas: map<UserId, nat>,
    spaces: map<SpaceId, Space>,
    members: map<MemberKey, Membership>,
    requests: map<MemberKey, JoinRequest>,
    invites: map<InviteId, Invite>)

  const EMPTY := Tables(map[], map[], map[], map[], map[], map[], map[], map[])

  predicate Owns(t: Tables, space: SpaceId, user: UserId) {
    space in t.spaces && t.spaces[space].owner == user
  }

  /** The session the services are handed: one mutable field for each table. */
  class Database {
    const config: Config
    var entries: map<RowKey, Row>
    var removals: map<RemovalKey, Removal>
    var blobs: map<BlobKey, Blob>
    var quotas: map<UserId, nat>
    var spaces: map<SpaceId, Space>
    var members: map<MemberKey, Membership>
    var requests: map<MemberKey, JoinRequest>
    var invites: map<InviteId, Invite>

    constructor (config: Config)
      ensures this.config == config
      ensures View() == EMPTY
    {
      this.config := config;
      entries, removals, blobs, quotas := map[], map[], map[], map[];
      spaces, members, requests, invites := map[], map[], map[], map[];
    }

    function View(): Tables
      reads this
    {
      Tables(entries, removals, blobs, quotas, spaces, members, requests, invites)
    }
  }
}
