/** src/blobs/service.py, and the sweeps of src/background.py over blobs and removal records. */
module Blobs {
  import opened Wrappers
  import opened Tables

  const RESERVATION_MS := 300 * 1000
  const ORPHAN_TTL_MS := 3600 * 1000
  const UNREFERENCED_GRACE_MS := 7 * 24 * 3600 * 1000
  const REMOVAL_RETENTION_MS := 90 * 24 * 3600 * 1000

  // ── Sums over the table ───────────────────────────────────────────────────

  /** The blobs among `keys` and their total size, whatever order they are added in. */
  ghost function TotalSize(blobs: map<BlobKey, Blob>, keys: set<BlobKey>): nat
    requires keys <= blobs.Keys
    decreases keys
  {
    if keys == {} then 0
    else
      var k :| k in keys;
      blobs[k].size + TotalSize(blobs, keys - {k})
  }

  lemma {:induction false} TotalSizePicks(blobs: map<BlobKey, Blob>, keys: set<BlobKey>, x: BlobKey)
    requires keys <= blobs.Keys && x in keys
    ensures TotalSize(blobs, keys) == blobs[x].size + TotalSize(blobs, keys - {x})
    decreases keys
  {
    var k :| k in keys && TotalSize(blobs, keys) == blobs[k].size + TotalSize(blobs, keys - {k});
    if k != x {
      TotalSizePicks(blobs, keys - {k}, x);
      TotalSizePicks(blobs, keys - {x}, k);
      assert keys - {k} - {x} == keys - {x} - {k};
    }
  }

  /** A table that agrees on sizes, over fewer keys, sums to no more. */
  lemma {:induction false} TotalSizeShrinks(
    a: map<BlobKey, Blob>, as': set<BlobKey>, b: map<BlobKey, Blob>, bs: set<BlobKey>)
    requires as' <= a.Keys && bs <= b.Keys && as' <= bs
    requires forall k :: k in as' ==> a[k].size == b[k].size
    ensures TotalSize(a, as') <= TotalSize(b, bs)
    ensures as' == bs ==> TotalSize(a, as') == TotalSize(b, bs)
    decreases bs
  {
    if bs == {} {
    } else {
      var k :| k in bs;
      TotalSizePicks(b, bs, k);
      TotalSizeShrinks(a, as' - {k}, b, bs - {k});
      if k in as' {
        TotalSizePicks(a, as', k);
      } else {
        assert as' - {k} == as';
      }
    }
  }

  predicate Unexpired(b: Blob, now: int) {
    !b.confirmed && b.createdAt > now - RESERVATION_MS
  }

  function ConfirmedKeys(t: Tables, user: UserId): set<BlobKey> {
    set k | k in t.blobs && t.blobs[k].user == user && t.blobs[k].confirmed
  }

  function ReservedKeys(t: Tables, user: UserId, now: int): set<BlobKey> {
    set k | k in t.blobs && t.blobs[k].user == user && Unexpired(t.blobs[k], now)
  }

  ghost function Used(t: Tables, user: UserId): nat {
    TotalSize(t.blobs, ConfirmedKeys(t, user))
  }

  ghost function UsedWithReservations(t: Tables, user: UserId, now: int): nat {
    TotalSize(t.blobs, ConfirmedKeys(t, user) + ReservedKeys(t, user, now))
  }

  // ── Requests ──────────────────────────────────────────────────────────────

  datatype Fault = MissingBlob | MissingProfile | NotUploaded | Mismatched | OverQuota | StillReferenced | KeyTaken

  /** What the object store says about a key; it is asked, not trusted. */
  datatype Head = Head(size: nat, checksum: Option<string>)

  predicate Matches(head: Head, b: Blob) {
    head.size == b.size && (head.checksum.Some? ==> head.checksum.value == b.checksum)
  }

  ghost function RequestFault(t: Tables, user: UserId, key: BlobKey, size: nat, now: int): Option<Fault> {
    if user !in t.quotas then Some(MissingProfile)
    else if UsedWithReservations(t, user, now) + size > t.quotas[user] then Some(OverQuota)
    else if key in t.blobs then Some(KeyTaken)
    else None
  }

  /** `now` is the reading of the quota check, `later` the one stored on the row. */
  ghost function Requested(
    t: Tables, user: UserId, key: BlobKey, size: nat, checksum: string, now: int, later: int): Tables
  {
    if RequestFault(t, user, key, size, now).Some? then t
    else t.(blobs := t.blobs[key := Blob(user, size, checksum, false, later)])
  }

  predicate OwnsBlob(t: Tables, user: UserId, key: BlobKey) {
    key in t.blobs && t.blobs[key].user == user
  }

  ghost function ConfirmFault(t: Tables, user: UserId, key: BlobKey, head: Option<Head>): Option<Fault> {
    if !OwnsBlob(t, user, key) then Some(MissingBlob)
    else if t.blobs[key].confirmed then None
    else if head.None? then Some(NotUploaded)
    else if !Matches(head.value, t.blobs[key]) then Some(Mismatched)
    else if user !in t.quotas then Some(MissingProfile)
    else if Used(t, user) + t.blobs[key].size > t.quotas[user] then Some(OverQuota)
    else None
  }

  ghost function Confirmed(t: Tables, user: UserId, key: BlobKey, head: Option<Head>): Tables {
    match ConfirmFault(t, user, key, head)
    case None => t.(blobs := t.blobs[key := t.blobs[key].(confirmed := true)])
    case Some(Mismatched) => t.(blobs := t.blobs - {key})
    case Some(_) => t
  }

  /** Whether a live entry of any account points at the blob. */
  predicate Referenced(t: Tables, key: BlobKey) {
    exists k :: k in t.entries && t.entries[k].Live() && t.entries[k].body.blobKey == Some(key)
  }

  function ReleaseFault(t: Tables, user: UserId, key: BlobKey): Option<Fault> {
    if !OwnsBlob(t, user, key) then Some(MissingBlob)
    else if t.blobs[key].confirmed && Referenced(t, key) then Some(StillReferenced)
    else None
  }

  function Released(t: Tables, user: UserId, key: BlobKey): Tables {
    if ReleaseFault(t, user, key).Some? then t
    else t.(blobs := t.blobs[key := t.blobs[key].(confirmed := false)])
  }

  /** The loop behind `_used_bytes`: one pass over the rows the query selects. */
  method SumSizes(blobs: map<BlobKey, Blob>, keys: set<BlobKey>) returns (total: nat)
    requires keys <= blobs.Keys
    ensures total == TotalSize(blobs, keys)
  {
    total := 0;
    var rest := keys;
    while rest != {}
      invariant rest <= keys
      invariant total + TotalSize(blobs, rest) == TotalSize(blobs, keys)
      decreases rest
    {
      var k :| k in rest;
      TotalSizePicks(blobs, rest, k);
      total := total + blobs[k].size;
      rest := rest - {k};
    }
  }

  /** The blobs charged to the account: confirmed ones and, at a moment, reservations that have not lapsed by then. */
  function Charged(blobs: map<BlobKey, Blob>, user: UserId, at: Option<int>): set<BlobKey> {
    set k | k in blobs && blobs[k].user == user
            && (blobs[k].confirmed || (at.Some? && blobs[k].createdAt > at.value - RESERVATION_MS))
  }

  /** `key` is the random key of the new object. */
  method RequestUpload(
    db: Database, user: UserId, key: BlobKey, size: nat, checksum: string, now: int, later: int)
    returns (result: Result<BlobKey, Fault>)
    modifies db`blobs
    ensures db.View() == Requested(old(db.View()), user, key, size, checksum, now, later)
    ensures result == match RequestFault(old(db.View()), user, key, size, now)
      case Some(fault) => Err(fault)
      case None => Ok(key)
    ensures result == Err(MissingProfile) <==> user !in db.quotas
    ensures result == Err(OverQuota) <==>
      user in db.quotas && TotalSize(old(db.blobs), Charged(old(db.blobs), user, Some(now))) + size > db.quotas[user]
    ensures result.Err? ==>
      && (result.error in {MissingProfile, OverQuota} || (result.error == KeyTaken && key in old(db.blobs)))
      && db.blobs == old(db.blobs)
    ensures result.Ok? ==>
      && result.value == key && key !in old(db.blobs)
      && db.blobs == old(db.blobs)[key := Blob(user, size, checksum, false, later)]
  {
    var t := db.View();
    var counted := Charged(db.blobs, user, Some(now));
    assert counted == ConfirmedKeys(t, user) + ReservedKeys(t, user, now);
    var used := SumSizes(db.blobs, counted);
    if user !in db.quotas {
      return Err(MissingProfile);
    }
    if used + size > db.quotas[user] {
      return Err(OverQuota);
    }
    if key in db.blobs {
      return Err(KeyTaken);
    }
    db.blobs := db.blobs[key := Blob(user, size, checksum, false, later)];
    return Ok(key);
  }

  method ConfirmUpload(db: Database, user: UserId, key: BlobKey, head: Option<Head>)
    returns (fault: Option<Fault>)
    modifies db`blobs
    ensures fault == ConfirmFault(old(db.View()), user, key, head)
    ensures db.View() == Confirmed(old(db.View()), user, key, head)
    ensures var own := key in old(db.blobs) && old(db.blobs)[key].user == user;
      var open := own && !old(db.blobs)[key].confirmed;
      var matches := open && head.Some? && head.value.size == old(db.blobs)[key].size
        && (head.value.checksum.Some? ==> head.value.checksum.value == old(db.blobs)[key].checksum);
      && (fault == Some(MissingBlob) <==> !own)
      && (fault == Some(NotUploaded) <==> open && head.None?)
      && (fault == Some(Mismatched) <==> open && head.Some? && !matches)
      && (fault == Some(MissingProfile) <==> matches && user !in db.quotas)
      && (fault == Some(OverQuota) <==>
            && matches && user in db.quotas
            && TotalSize(old(db.blobs), Charged(old(db.blobs), user, None)) + old(db.blobs)[key].size > db.quotas[user])
      && (fault.Some? ==> fault.value in {MissingBlob, NotUploaded, Mismatched, MissingProfile, OverQuota})
    ensures fault == Some(Mismatched) ==> db.blobs == old(db.blobs) - {key}
    ensures fault.Some? && fault != Some(Mismatched) ==> db.blobs == old(db.blobs)
    ensures fault.None? ==>
      key in old(db.blobs) && db.blobs == old(db.blobs)[key := old(db.blobs)[key].(confirmed := true)]
  {
    var t := db.View();
    if !OwnsBlob(t, user, key) {
      return Some(MissingBlob);
    }
    var blob := db.blobs[key];
    if blob.confirmed {
      assert t.blobs[key := t.blobs[key].(confirmed := true)] == t.blobs;
      return None;
    }
    if head.None? {
      return Some(NotUploaded);
    }
    if !Matches(head.value, blob) {
      db.blobs := db.blobs - {key};
      return Some(Mismatched);
    }
    var counted := Charged(db.blobs, user, None);
    assert counted == ConfirmedKeys(t, user);
    var used := SumSizes(db.blobs, counted);
    if user !in db.quotas {
      return Some(MissingProfile);
    }
    if used + blob.size > db.quotas[user] {
      return Some(OverQuota);
    }
    db.blobs := db.blobs[key := blob.(confirmed := true)];
    return None;
  }

  method ReleaseUpload(db: Database, user: UserId, key: BlobKey) returns (fault: Option<Fault>)
    modifies db`blobs
    ensures fault == ReleaseFault(old(db.View()), user, key)
    ensures db.View() == Released(old(db.View()), user, key)
    ensures fault == Some(MissingBlob) <==> !(key in old(db.blobs) && old(db.blobs)[key].user == user)
    ensures fault == Some(StillReferenced) <==>
      && key in old(db.blobs) && old(db.blobs)[key].user == user && old(db.blobs)[key].confirmed
      && exists r :: r in db.entries && db.entries[r].deletedAt.None? && db.entries[r].body.blobKey == Some(key)
    ensures fault.Some? ==> fault.value in {MissingBlob, StillReferenced} && db.blobs == old(db.blobs)
    ensures fault.None? ==>
      key in old(db.blobs) && db.blobs == old(db.blobs)[key := old(db.blobs)[key].(confirmed := false)]
  {
    var t := db.View();
    if !OwnsBlob(t, user, key) {
      return Some(MissingBlob);
    }
    if !db.blobs[key].confirmed {
      assert t.blobs[key := t.blobs[key].(confirmed := false)] == t.blobs;
      return None;
    }
    if Referenced(t, key) {
      return Some(StillReferenced);
    }
    db.blobs := db.blobs[key := db.blobs[key].(confirmed := false)];
    return None;
  }

  // ── Sweeps ────────────────────────────────────────────────────────────────

  function Idle(t: Tables, now: int): set<BlobKey> {
    set k | k in t.blobs && t.blobs[k].confirmed && t.blobs[k].createdAt < now - UNREFERENCED_GRACE_MS
            && !Referenced(t, k)
  }

  function Unconfirm(blobs: map<BlobKey, Blob>, keys: set<BlobKey>): map<BlobKey, Blob>
    requires keys <= blobs.Keys
  {
    map k | k in blobs :: if k in keys then blobs[k].(confirmed := false) else blobs[k]
  }

  function Swept(t: Tables, now: int): Tables {
    t.(blobs := Unconfirm(t.blobs, Idle(t, now)))
  }

  function Orphans(t: Tables, now: int): set<BlobKey> {
    set k | k in t.blobs && !t.blobs[k].confirmed && t.blobs[k].createdAt < now - ORPHAN_TTL_MS
  }

  /** `stuck` are the objects the store would not delete; their rows wait for the next pass. */
  function Cleaned(t: Tables, now: int, stuck: set<BlobKey>): Tables {
    t.(blobs := t.blobs - (Orphans(t, now) - stuck))
  }

  function Stale(t: Tables, now: int): set<RemovalKey> {
    set rk | rk in t.removals && t.removals[rk].serverTs < now - REMOVAL_RETENTION_MS
  }

  function Pruned(t: Tables, now: int): Tables {
    t.(removals := t.removals - Stale(t, now))
  }

  /** A confirmed blob past its grace turns unconfirmed unless a live entry of anyone points at it; nothing else moves. */
  method ReleaseUnreferencedBlobs(db: Database, now: int)
    modifies db`blobs
    ensures db.View() == Swept(old(db.View()), now)
    ensures db.blobs.Keys == old(db.blobs).Keys
    ensures forall k :: k in db.blobs ==>
      var was := old(db.blobs)[k];
      var inUse := exists r :: r in db.entries && db.entries[r].Live() && db.entries[r].body.blobKey == Some(k);
      db.blobs[k] == if was.confirmed && was.createdAt < now - UNREFERENCED_GRACE_MS && !inUse
                     then was.(confirmed := false) else was
  {
    ghost var before := db.View();
    var keys := set k | k in db.blobs && db.blobs[k].confirmed
                        && db.blobs[k].createdAt < now - UNREFERENCED_GRACE_MS && !Referenced(db.View(), k);
    assert keys == Idle(before, now);
    var rest := keys;
    while rest != {}
      invariant rest <= keys <= before.blobs.Keys
      invariant db.blobs == Unconfirm(before.blobs, keys - rest)
      decreases rest
    {
      var k :| k in rest;
      db.blobs := db.blobs[k := db.blobs[k].(confirmed := false)];
      rest := rest - {k};
    }
    assert keys - rest == keys;
  }

  method CleanupOrphanBlobs(db: Database, now: int, stuck: set<BlobKey>)
    modifies db`blobs
    ensures db.View() == Cleaned(old(db.View()), now, stuck)
    ensures forall k :: k in db.blobs <==>
      k in old(db.blobs) &&
      (old(db.blobs)[k].confirmed || old(db.blobs)[k].createdAt >= now - ORPHAN_TTL_MS || k in stuck)
    ensures forall k :: k in db.blobs ==> db.blobs[k] == old(db.blobs)[k]
  {
    var orphans := Orphans(db.View(), now);
    ghost var before, gone := db.blobs, {};
    var rest := orphans;
    while rest != {}
      invariant rest <= orphans && gone == orphans - rest - stuck
      invariant db.blobs == before - gone
      decreases rest
    {
      var k :| k in rest;
      rest := rest - {k};
      if k !in stuck {
        gone := gone + {k};
        db.blobs := db.blobs - {k};
      }
    }
    assert gone == orphans - stuck;
  }

  /** A record stays, as it is, exactly as long as its retention. */
  method PruneSpaceEntryRemovals(db: Database, now: int)
    modifies db`removals
    ensures db.View() == Pruned(old(db.View()), now)
    ensures forall rk :: rk in db.removals <==>
      rk in old(db.removals) && old(db.removals)[rk].serverTs >= now - REMOVAL_RETENTION_MS
    ensures forall rk :: rk in db.removals ==> db.removals[rk] == old(db.removals)[rk]
  {
    ghost var before := db.View();
    var rest := set rk | rk in db.removals && db.removals[rk].serverTs < now - REMOVAL_RETENTION_MS;
    ghost var stale, gone := rest, {};
    assert stale == Stale(before, now);
    while rest != {}
      invariant rest <= stale && gone == stale - rest
      invariant db.removals == before.removals - gone
      decreases rest
    {
      var rk :| rk in rest;
      db.removals := db.removals - {rk};
      rest, gone := rest - {rk}, gone + {rk};
    }
    assert gone == stale;
  }
}
