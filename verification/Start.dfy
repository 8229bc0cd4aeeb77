/** The empty database is a start for every invariant, so each holds in every state a server reaches. */
module Start {
  import opened Tables
  import opened Runs
  import Belonging
  import BlobSafety
  import Convergence
  import History
  import Keys
  import Pull
  import Quota
  import Sharing

  lemma EmptyIsInOrder(clock: int)
    ensures Sharing.Sound(EMPTY, clock) && Belonging.Orderly(EMPTY) && BlobSafety.Tidy(EMPTY)
    ensures Quota.WithinQuota(EMPTY) && Quota.Honoured(EMPTY, clock) && Keys.OnePending(EMPTY)
    ensures forall user :: Convergence.FloorsPast(EMPTY, user, clock)
  {
  }

  /** Whatever a server with an empty database is called for, in clock order, its tables stay sound and orderly. */
  lemma EveryReachableStateIsInOrder(cfg: Config, evs: seq<Event>, clock: int)
    requires InOrder(clock, evs)
    ensures Sharing.Sound(Run(cfg, EMPTY, evs), ClockAfter(clock, evs))
    ensures Belonging.Orderly(Run(cfg, EMPTY, evs))
  {
    hide Run, InOrder, Belonging.Orderly, Sharing.Sound;
    EmptyIsInOrder(clock);
    Sharing.RunKeepsSound(cfg, EMPTY, evs, clock);
    Belonging.RunKeepsOrder(cfg, EMPTY, evs);
  }

  /** If the quotas are never lowered and no push names a blob in use, the blobs stay in place and within them. */
  lemma EveryReachableBlobIsInPlace(cfg: Config, evs: seq<Event>, clock: int)
    requires Quota.Lawful(cfg, EMPTY, evs, clock) && BlobSafety.AllPolite(cfg, EMPTY, evs)
    ensures BlobSafety.Tidy(Run(cfg, EMPTY, evs)) && Quota.WithinQuota(Run(cfg, EMPTY, evs))
  {
    hide Run, Quota.WithinQuota, Quota.NeverLowered, Quota.ReadsClockInOrder, BlobSafety.Tidy, BlobSafety.AllPolite,
      Sharing.Sound;
    EmptyIsInOrder(clock);
    BlobSafety.RunKeepsTidy(cfg, EMPTY, evs, clock);
    Quota.RunStaysWithinQuota(cfg, EMPTY, evs, clock);
  }

  /** A device that has nothing yet, and a cursor below every stamp, may start to follow at any time. */
  lemma FreshDevicesFollow(t: Tables, dev: Convergence.Device)
    requires dev.replica == map[] && forall k :: k in t.entries ==> t.entries[k].serverTs > dev.cursor
    ensures Convergence.Following(t, dev)
  {
    hide Pull.Sees;
    forall slot | Convergence.Tracks(t, dev, slot)
      ensures Convergence.Ahead(t, dev.user, slot, dev.cursor) || Convergence.Agrees(t, dev, slot)
    {
      if k :| Convergence.Fills(t, dev.user, k, slot) {
        assert Convergence.FilledAfter(t, dev.user, k, slot, dev.cursor);
      }
    }
  }

  /**
   * End to end. An empty database answers any calls in clock order; then a device
   * turns up with nothing and a cursor below every stamp, and goes on pulling
   * while the server goes on answering. Once a pull hands back no cursor, each of
   * its slots holds exactly its view of the row that fills it.
   */
  lemma FreshDevicesConverge(
    cfg: Config, evs: seq<Event>, clock: int,
    dev: Convergence.Device, worlds: seq<Convergence.World>, turns: seq<Convergence.Turn>)
    requires InOrder(clock, evs) && dev.replica == map[]
    requires var t := Run(cfg, EMPTY, evs);
      && (forall k :: k in t.entries ==> t.entries[k].serverTs > dev.cursor)
      && Convergence.Plays(cfg, worlds, turns)
      && worlds[0] == Convergence.World(t, ClockAfter(clock, evs), dev)
    requires Convergence.CaughtUp(turns)
    ensures Convergence.InStep(worlds[|turns|].t, worlds[|turns|].dev)
  {
    hide Run, InOrder, Convergence.Following, Convergence.FloorsPast, Convergence.Allowed, Convergence.Next,
      Convergence.InStep, Sharing.Sound;
    EveryReachableStateIsInOrder(cfg, evs, clock);
    EmptyIsInOrder(clock);
    History.RunKeepsFloorsPast(cfg, EMPTY, evs, dev.user, clock);
    FreshDevicesFollow(Run(cfg, EMPTY, evs), dev);
    Convergence.DevicesConverge(cfg, worlds, turns);
  }
}
