/** The storage quota of src/blobs/service.py over whole runs. */
module Quota {
  import opened Wrappers
  import opened Tables
  import opened Runs
  import opened Blobs
  import Push
  import TakeDown

  ghost predicate WithinQuota(t: Tables) {
    forall u :: u in t.quotas ==> Used(t, u) <= t.quotas[u]
  }

  /** Confirmed bytes and unexpired reservations together fit the quota. */
  ghost predicate Honoured(t: Tables, now: int) {
    forall u :: u in t.quotas ==> UsedWithReservations(t, u, now) <= t.quotas[u]
  }

  /** No quota is lowered; a quota given to a new account finds no blob of it. */
  ghost predicate NeverLowered(t: Tables, ev: Event) {
    ev.op.Storage? && ev.op.blob.SetQuota? ==>
      if ev.op.blob.user in t.quotas then t.quotas[ev.op.blob.user] <= ev.op.blob.quota
      else forall k :: k in t.blobs ==> t.blobs[k].user != ev.op.blob.user
  }

  /** Whether a confirm, if that is what the call is, comes inside the reservation. */
  ghost predicate Prompt(t: Tables, ev: Event) {
    ev.op.Storage? && ev.op.blob.ConfirmUpload? && OwnsBlob(t, ev.op.blob.user, ev.op.blob.key) ==>
      var b := t.blobs[ev.op.blob.key];
      b.confirmed || Unexpired(b, ev.now)
  }

  /** A request reads its clock twice, and in order. */
  predicate ReadsClockInOrder(ev: Event, clock: int) {
    ev.op.Storage? && ev.op.blob.RequestUpload? ==> clock <= ev.op.blob.checkedAt <= ev.now
  }

  // ── Calls that only ever let go of bytes ──────────────────────────────────

  /** Blobs are dropped or un-confirmed, and nothing else happens to them. */
  ghost predicate OnlyReleases(t: Tables, t': Tables) {
    && t'.quotas == t.quotas
    && forall k :: k in t'.blobs ==>
      && k in t.blobs
      && t'.blobs[k] == t.blobs[k].(confirmed := t'.blobs[k].confirmed)
      && (t'.blobs[k].confirmed ==> t.blobs[k].confirmed)
  }

  lemma ReleasingFreesBytes(t: Tables, t': Tables, user: UserId, now: int, later: int)
    requires OnlyReleases(t, t') && now <= later
    ensures Used(t', user) <= Used(t, user)
    ensures UsedWithReservations(t', user, later) <= UsedWithReservations(t, user, now)
  {
    TotalSizeShrinks(t'.blobs, ConfirmedKeys(t', user), t.blobs, ConfirmedKeys(t, user));
    TotalSizeShrinks(
      t'.blobs, ConfirmedKeys(t', user) + ReservedKeys(t', user, later),
      t.blobs, ConfirmedKeys(t, user) + ReservedKeys(t, user, now));
  }

  lemma SyncOnlyReleases(cfg: Config, t: Tables, op: SyncOp, now: int)
    ensures OnlyReleases(t, ApplySync(cfg, t, op, now))
  {
    hide Push.Writes, Push.WriteRow, TakeDown.TakenDown, Stale;
    match op
    case PushOne(user, device, e, _) => WriteOnlyReleases(t, user, device, e, now);
    case _ =>
  }

  lemma WriteOnlyReleases(t: Tables, user: UserId, device: DeviceId, e: Push.PushEntry, now: int)
    ensures OnlyReleases(t, Push.WriteRow(t, user, device, e, now))
  {
    hide Push.Recorded, Push.RowAfter, Push.Superseded, Push.Dropped;
  }

  predicate TakesBytes(op: BlobOp) {
    op.RequestUpload? || op.ConfirmUpload? || op.SetQuota?
  }

  lemma StorageOnlyReleases(t: Tables, op: BlobOp, now: int)
    requires !TakesBytes(op)
    ensures OnlyReleases(t, ApplyBlob(t, op, now))
  {
    hide Released, Swept, Cleaned, Requested, Confirmed;
    match op
    case ReleaseUpload(user, key) => ReleasingOneReleases(t, user, key);
    case SweepBlobs => SweepsRelease(t, now, {});
    case CleanupBlobs(stuck) => SweepsRelease(t, now, stuck);
  }

  lemma ReleasingOneReleases(t: Tables, user: UserId, key: BlobKey)
    ensures OnlyReleases(t, Released(t, user, key))
  {
    hide Referenced, OnlyReleases;
    if ReleaseFault(t, user, key).None? {
      UnconfirmingOneReleases(t, key);
    } else {
      StandingStillReleases(t);
    }
  }

  lemma UnconfirmingOneReleases(t: Tables, key: BlobKey)
    requires key in t.blobs
    ensures OnlyReleases(t, t.(blobs := t.blobs[key := t.blobs[key].(confirmed := false)]))
  {
  }

  lemma StandingStillReleases(t: Tables)
    ensures OnlyReleases(t, t)
  {
  }

  lemma SweepsRelease(t: Tables, now: int, stuck: set<BlobKey>)
    ensures OnlyReleases(t, Swept(t, now))
    ensures OnlyReleases(t, Cleaned(t, now, stuck))
  {
    hide Referenced, Unexpired;
  }

  lemma CallsOnlyRelease(cfg: Config, t: Tables, ev: Event)
    requires ev.op.Storage? ==> !TakesBytes(ev.op.blob)
    ensures OnlyReleases(t, Apply(cfg, t, ev))
  {
    hide ApplySync, ApplyBlob, ApplySpace, ApplyDoor;
    match ev.op
    case Sync(op) => SyncOnlyReleases(cfg, t, op, ev.now);
    case Storage(op) => StorageOnlyReleases(t, op, ev.now);
    case _ =>
  }

  // ── The calls that take bytes ─────────────────────────────────────────────

  /** Adding one key to a set of counted blobs adds its size. */
  lemma OneMore(blobs: map<BlobKey, Blob>, keys: set<BlobKey>, k: BlobKey)
    requires keys <= blobs.Keys && k in blobs && k !in keys
    ensures TotalSize(blobs, keys + {k}) == blobs[k].size + TotalSize(blobs, keys)
  {
    TotalSizePicks(blobs, keys + {k}, k);
    assert keys + {k} - {k} == keys;
  }

  lemma RequestKeepsUsed(
    t: Tables, user: UserId, key: BlobKey, size: nat, checksum: string, now: int, later: int, u: UserId)
    ensures Used(Requested(t, user, key, size, checksum, now, later), u) == Used(t, u)
  {
    hide UsedWithReservations, TotalSize;
    var t' := Requested(t, user, key, size, checksum, now, later);
    if RequestFault(t, user, key, size, now).None? {
      assert ConfirmedKeys(t', u) == ConfirmedKeys(t, u);
      TotalSizeShrinks(t'.blobs, ConfirmedKeys(t', u), t.blobs, ConfirmedKeys(t, u));
    }
  }

  lemma RequestKeepsReservations(
    t: Tables, user: UserId, key: BlobKey, size: nat, checksum: string, now: int, later: int, u: UserId)
    requires now <= later && u in t.quotas && UsedWithReservations(t, u, now) <= t.quotas[u]
    ensures UsedWithReservations(Requested(t, user, key, size, checksum, now, later), u, later) <= t.quotas[u]
  {
    hide TotalSize;
    var t' := Requested(t, user, key, size, checksum, now, later);
    if RequestFault(t, user, key, size, now).Some? {
      ReleasingFreesBytes(t, t, u, now, later);
    } else {
      var counted := ConfirmedKeys(t, u) + ReservedKeys(t, u, now);
      var counted' := ConfirmedKeys(t', u) + ReservedKeys(t', u, later);
      TotalSizeShrinks(t'.blobs, counted' - {key}, t.blobs, counted);
      if key in counted' {
        OneMore(t'.blobs, counted' - {key}, key);
        assert counted' - {key} + {key} == counted';
      } else {
        assert counted' - {key} == counted';
      }
    }
  }

  lemma RequestKeepsQuotas(
    t: Tables, user: UserId, key: BlobKey, size: nat, checksum: string, now: int, later: int)
    requires now <= later
    ensures WithinQuota(t) ==> WithinQuota(Requested(t, user, key, size, checksum, now, later))
    ensures Honoured(t, now) ==> Honoured(Requested(t, user, key, size, checksum, now, later), later)
  {
    hide Used, UsedWithReservations, RequestFault;
    forall u | u in t.quotas
      ensures Used(Requested(t, user, key, size, checksum, now, later), u) == Used(t, u)
      ensures UsedWithReservations(t, u, now) <= t.quotas[u] ==>
        UsedWithReservations(Requested(t, user, key, size, checksum, now, later), u, later) <= t.quotas[u]
    {
      RequestKeepsUsed(t, user, key, size, checksum, now, later, u);
      if UsedWithReservations(t, u, now) <= t.quotas[u] {
        RequestKeepsReservations(t, user, key, size, checksum, now, later, u);
      }
    }
  }

  /** What confirming one blob does to the two sums of its account, and to everyone else's. */
  lemma ConfirmMovesBytes(t: Tables, user: UserId, key: BlobKey, now: int, u: UserId)
    requires OwnsBlob(t, user, key) && !t.blobs[key].confirmed
    ensures var t' := t.(blobs := t.blobs[key := t.blobs[key].(confirmed := true)]);
      && Used(t', u) == Used(t, u) + (if u == user then t.blobs[key].size else 0)
      && UsedWithReservations(t', u, now) == UsedWithReservations(t, u, now)
         + (if u == user && !Unexpired(t.blobs[key], now) then t.blobs[key].size else 0)
  {
    var t' := t.(blobs := t.blobs[key := t.blobs[key].(confirmed := true)]);
    var before, after := ConfirmedKeys(t, u), ConfirmedKeys(t', u);
    var counted, counted' := before + ReservedKeys(t, u, now), after + ReservedKeys(t', u, now);
    assert after == before + (if u == user then {key} else {});
    assert counted' == counted + (if u == user then {key} else {});
    TotalSizeShrinks(t'.blobs, before, t.blobs, before);
    TotalSizeShrinks(t'.blobs, counted, t.blobs, counted);
    if u == user {
      OneMore(t'.blobs, before, key);
      if Unexpired(t.blobs[key], now) {
        assert counted' == counted;
      } else {
        OneMore(t'.blobs, counted, key);
      }
    } else {
      assert after == before && counted' == counted;
    }
  }

  /** Inside its reservation, a confirm is never turned away for quota. */
  lemma PromptConfirmsFit(t: Tables, user: UserId, key: BlobKey, head: Option<Head>, now: int)
    requires Honoured(t, now) && OwnsBlob(t, user, key)
    requires Unexpired(t.blobs[key], now)
    ensures ConfirmFault(t, user, key, head) != Some(OverQuota)
  {
    if user in t.quotas {
      ConfirmMovesBytes(t, user, key, now, user);
      var t' := t.(blobs := t.blobs[key := t.blobs[key].(confirmed := true)]);
      TotalSizeShrinks(
        t'.blobs, ConfirmedKeys(t', user), t'.blobs, ConfirmedKeys(t', user) + ReservedKeys(t', user, now));
    }
  }

  /**
   * A confirm that comes late may pass the check and still oversell what is
   * reserved: the reservations stay covered exactly when there is room left for
   * the blob beside them.
   */
  lemma LateConfirmHonouredIff(t: Tables, user: UserId, key: BlobKey, head: Option<Head>, now: int)
    requires Honoured(t, now) && OwnsBlob(t, user, key) && user in t.quotas
    requires !t.blobs[key].confirmed && !Unexpired(t.blobs[key], now)
    requires ConfirmFault(t, user, key, head).None?
    ensures Honoured(Confirmed(t, user, key, head), now) <==>
      UsedWithReservations(t, user, now) + t.blobs[key].size <= t.quotas[user]
  {
    hide Used, UsedWithReservations;
    forall u
      ensures var t' := Confirmed(t, user, key, head);
        UsedWithReservations(t', u, now) == UsedWithReservations(t, u, now)
          + (if u == user then t.blobs[key].size else 0)
    {
      ConfirmMovesBytes(t, user, key, now, u);
    }
  }

  // ── Runs ──────────────────────────────────────────────────────────────────

  lemma ConfirmKeepsQuotas(t: Tables, user: UserId, key: BlobKey, head: Option<Head>, now: int)
    ensures WithinQuota(t) ==> WithinQuota(Confirmed(t, user, key, head))
    ensures Honoured(t, now) && (OwnsBlob(t, user, key) ==> t.blobs[key].confirmed || Unexpired(t.blobs[key], now)) ==>
      Honoured(Confirmed(t, user, key, head), now)
  {
    hide Used, UsedWithReservations;
    var t' := Confirmed(t, user, key, head);
    if ConfirmFault(t, user, key, head).None? && !t.blobs[key].confirmed {
      forall u
        ensures Used(t', u) == Used(t, u) + (if u == user then t.blobs[key].size else 0)
        ensures UsedWithReservations(t', u, now) == UsedWithReservations(t, u, now)
          + (if u == user && !Unexpired(t.blobs[key], now) then t.blobs[key].size else 0)
      {
        ConfirmMovesBytes(t, user, key, now, u);
      }
    } else {
      ReleasingKeepsQuotas(t, t', now, now);
    }
  }

  lemma NewQuotaKeepsQuotas(t: Tables, user: UserId, quota: nat, now: int)
    requires if user in t.quotas then t.quotas[user] <= quota else forall k :: k in t.blobs ==> t.blobs[k].user != user
    ensures WithinQuota(t) ==> WithinQuota(t.(quotas := t.quotas[user := quota]))
    ensures Honoured(t, now) ==> Honoured(t.(quotas := t.quotas[user := quota]), now)
  {
    var t' := t.(quotas := t.quotas[user := quota]);
    assert forall u :: ConfirmedKeys(t', u) == ConfirmedKeys(t, u) && ReservedKeys(t', u, now) == ReservedKeys(t, u, now);
    if user !in t.quotas {
      assert ConfirmedKeys(t, user) == {} && ReservedKeys(t, user, now) == {};
    }
  }

  /** What a step owes the two bounds. */
  ghost predicate KeepsQuotas(t: Tables, t': Tables, clock: int, now: int, prompt: bool) {
    && (WithinQuota(t) ==> WithinQuota(t'))
    && (Honoured(t, clock) && prompt ==> Honoured(t', now))
  }

  lemma RequestStep(
    t: Tables, user: UserId, key: BlobKey, size: nat, checksum: string, checkedAt: int, clock: int, now: int)
    requires clock <= checkedAt <= now
    ensures KeepsQuotas(t, Requested(t, user, key, size, checksum, checkedAt, now), clock, now, true)
  {
    hide WithinQuota, Honoured, Requested;
    StandingStill(t, clock, checkedAt);
    RequestKeepsQuotas(t, user, key, size, checksum, checkedAt, now);
  }

  lemma ConfirmStep(t: Tables, user: UserId, key: BlobKey, head: Option<Head>, clock: int, now: int)
    requires clock <= now
    ensures KeepsQuotas(
      t, Confirmed(t, user, key, head), clock, now,
      OwnsBlob(t, user, key) ==> t.blobs[key].confirmed || Unexpired(t.blobs[key], now))
  {
    hide WithinQuota, Honoured, Confirmed;
    StandingStill(t, clock, now);
    ConfirmKeepsQuotas(t, user, key, head, now);
  }

  lemma QuotaStep(t: Tables, user: UserId, quota: nat, clock: int, now: int)
    requires clock <= now
    requires if user in t.quotas then t.quotas[user] <= quota else forall k :: k in t.blobs ==> t.blobs[k].user != user
    ensures KeepsQuotas(t, t.(quotas := t.quotas[user := quota]), clock, now, true)
  {
    hide WithinQuota, Honoured;
    StandingStill(t, clock, now);
    NewQuotaKeepsQuotas(t, user, quota, now);
  }

  lemma StepKeepsQuotas(cfg: Config, t: Tables, ev: Event, clock: int)
    requires NeverLowered(t, ev) && ReadsClockInOrder(ev, clock) && clock <= ev.now
    ensures KeepsQuotas(t, Apply(cfg, t, ev), clock, ev.now, Prompt(t, ev))
  {
    if !(ev.op.Storage? && TakesBytes(ev.op.blob)) {
      hide Apply, WithinQuota, Honoured, NeverLowered, Prompt;
      CallsOnlyRelease(cfg, t, ev);
      ReleasingKeepsQuotas(t, Apply(cfg, t, ev), clock, ev.now);
    } else {
      hide Apply, KeepsQuotas, Requested, Confirmed, Unexpired;
      BytesAreTakenBy(cfg, t, ev);
      match ev.op.blob
      case ConfirmUpload(user, key, head) => ConfirmStep(t, user, key, head, clock, ev.now);
      case SetQuota(user, quota) => QuotaStep(t, user, quota, clock, ev.now);
      case RequestUpload(user, key, size, checksum, checkedAt) =>
        RequestStep(t, user, key, size, checksum, checkedAt, clock, ev.now);
    }
  }

  lemma ReleasingKeepsQuotas(t: Tables, t': Tables, now: int, later: int)
    requires OnlyReleases(t, t') && now <= later
    ensures WithinQuota(t) ==> WithinQuota(t')
    ensures Honoured(t, now) ==> Honoured(t', later)
  {
    hide Used, UsedWithReservations;
    forall u
      ensures Used(t', u) <= Used(t, u) && UsedWithReservations(t', u, later) <= UsedWithReservations(t, u, now)
    {
      ReleasingFreesBytes(t, t', u, now, later);
    }
  }

  /** Reservations only lapse as the clock moves. */
  lemma StandingStill(t: Tables, now: int, later: int)
    requires now <= later
    ensures Honoured(t, now) ==> Honoured(t, later)
  {
    forall u
      ensures UsedWithReservations(t, u, later) <= UsedWithReservations(t, u, now)
    {
      ReleasingFreesBytes(t, t, u, now, later);
    }
  }

  lemma BytesAreTakenBy(cfg: Config, t: Tables, ev: Event)
    requires ev.op.Storage? && TakesBytes(ev.op.blob)
    ensures Apply(cfg, t, ev) == match ev.op.blob
      case RequestUpload(user, key, size, checksum, checkedAt) =>
        Requested(t, user, key, size, checksum, checkedAt, ev.now)
      case ConfirmUpload(user, key, head) => Confirmed(t, user, key, head)
      case SetQuota(user, quota) => t.(quotas := t.quotas[user := quota])
      case _ => t
    ensures ev.op.blob.RequestUpload? ==> Apply(cfg, t, ev).quotas == t.quotas
  {
    hide ApplySync, ApplySpace, ApplyDoor, Confirmed, RequestFault;
  }

  /** A run in clock order that lowers no quota. */
  ghost predicate Lawful(cfg: Config, t: Tables, evs: seq<Event>, clock: int) {
    && InOrder(clock, evs)
    && (forall i :: 0 <= i < |evs| ==> NeverLowered(Run(cfg, t, evs[..i]), evs[i]))
    && (forall i :: 0 <= i < |evs| ==> ReadsClockInOrder(evs[i], ClockAfter(clock, evs[..i])))
  }

  /** Every confirm of the run comes inside its reservation. */
  ghost predicate AllPrompt(cfg: Config, t: Tables, evs: seq<Event>) {
    forall i :: 0 <= i < |evs| ==> Prompt(Run(cfg, t, evs[..i]), evs[i])
  }

  lemma LawfulToTheLast(cfg: Config, t: Tables, evs: seq<Event>, clock: int)
    requires evs != [] && Lawful(cfg, t, evs, clock)
    ensures var n := |evs| - 1;
      && Lawful(cfg, t, evs[..n], clock)
      && NeverLowered(Run(cfg, t, evs[..n]), evs[n])
      && ReadsClockInOrder(evs[n], ClockAfter(clock, evs[..n]))
      && ClockAfter(clock, evs[..n]) <= evs[n].now
  {
    hide Run, NeverLowered, ReadsClockInOrder;
    var n := |evs| - 1;
    assert forall i :: 0 <= i < n ==> evs[..n][..i] == evs[..i];
  }

  lemma PromptToTheLast(cfg: Config, t: Tables, evs: seq<Event>)
    requires evs != [] && AllPrompt(cfg, t, evs)
    ensures AllPrompt(cfg, t, evs[..|evs| - 1]) && Prompt(Run(cfg, t, evs[..|evs| - 1]), evs[|evs| - 1])
  {
    hide Run, Prompt;
    var n := |evs| - 1;
    assert forall i :: 0 <= i < n ==> evs[..n][..i] == evs[..i];
  }

  /** While no quota is lowered, no run takes an account's confirmed bytes past its quota, however late it confirms. */
  lemma {:induction false} RunStaysWithinQuota(cfg: Config, t: Tables, evs: seq<Event>, clock: int)
    requires WithinQuota(t) && Lawful(cfg, t, evs, clock)
    ensures WithinQuota(Run(cfg, t, evs))
  {
    if evs == [] {
    } else {
      hide Apply, Lawful, WithinQuota, NeverLowered, ReadsClockInOrder, Honoured, Prompt;
      var n := |evs| - 1;
      LawfulToTheLast(cfg, t, evs, clock);
      RunStaysWithinQuota(cfg, t, evs[..n], clock);
      StepKeepsQuotas(cfg, Run(cfg, t, evs[..n]), evs[n], ClockAfter(clock, evs[..n]));
    }
  }

  /** If every confirm is prompt as well, what is confirmed and what is reserved together never exceed the quota. */
  lemma {:induction false} RunHonoursReservations(cfg: Config, t: Tables, evs: seq<Event>, clock: int)
    requires Honoured(t, clock) && Lawful(cfg, t, evs, clock) && AllPrompt(cfg, t, evs)
    ensures Honoured(Run(cfg, t, evs), ClockAfter(clock, evs))
  {
    if evs == [] {
    } else {
      hide Apply, Lawful, AllPrompt, Honoured, NeverLowered, ReadsClockInOrder, WithinQuota, Prompt;
      var n := |evs| - 1;
      LawfulToTheLast(cfg, t, evs, clock);
      PromptToTheLast(cfg, t, evs);
      RunHonoursReservations(cfg, t, evs[..n], clock);
      StepKeepsQuotas(cfg, Run(cfg, t, evs[..n]), evs[n], ClockAfter(clock, evs[..n]));
    }
  }
}
