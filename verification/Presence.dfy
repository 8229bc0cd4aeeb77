/** Who is online, as src/realtime.py and the sweep of src/background.py read it from Redis. */
module Presence {
  import opened Wrappers
  import opened Tables

  /** A presence key: it lives only as long as a device keeps checking in. */
  datatype Lease = Lease(user: UserId, device: DeviceId)

  type DeviceSets = map<UserId, set<DeviceId>>

  function DevicesOf(devices: DeviceSets, user: UserId): set<DeviceId> {
    if user in devices then devices[user] else {}
  }

  /** Some device of the user, other than `but`, holds a live key. */
  predicate Online(devices: DeviceSets, live: set<Lease>, user: UserId, but: Option<DeviceId>) {
    exists d :: d in DevicesOf(devices, user) && but != Some(d) && Lease(user, d) in live
  }

  class PresenceStore {
    /** May still list a device whose connection broke off. */
    var devices: DeviceSets
    /** The keys that have not expired or been evicted. */
    var live: set<Lease>

    constructor ()
      ensures devices == map[] && live == {}
    {
      devices, live := map[], {};
    }

    /** Stated from scratch at every heartbeat, so that a lost key or set comes back with the next one. */
    method AssertPresence(user: UserId, device: DeviceId)
      modifies this
      ensures Online(devices, live, user, None)
      ensures forall but :: but != device ==> Online(devices, live, user, Some(but))
      ensures DevicesOf(devices, user) == DevicesOf(old(devices), user) + {device}
      ensures live == old(live) + {Lease(user, device)}
      ensures forall u, but :: u != user ==> (Online(devices, live, u, but) <==> Online(old(devices), old(live), u, but))
    {
      devices := devices[user := DevicesOf(devices, user) + {device}];
      live := live + {Lease(user, device)};
      assert device in DevicesOf(devices, user) && Lease(user, device) in live;
    }

    method UserIsOnline(user: UserId, exclude: Option<DeviceId>) returns (online: bool)
      ensures online <==> Online(devices, live, user, exclude)
    {
      var rest := DevicesOf(devices, user);
      while rest != {}
        invariant rest <= DevicesOf(devices, user)
        invariant forall d :: d in DevicesOf(devices, user) - rest ==> exclude == Some(d) || Lease(user, d) !in live
        decreases rest
      {
        var d :| d in rest;
        if exclude != Some(d) && Lease(user, d) in live {
          return true;
        }
        rest := rest - {d};
      }
      return false;
    }

    /** The same question for many users in two round trips; an unreachable store reports nobody. */
    method PresenceForUsers(users: seq<UserId>, reachable: bool) returns (online: set<UserId>)
      ensures online == if reachable then set u | u in users && Online(devices, live, u, None) else {}
    {
      if !reachable {
        return {};
      }
      var unique: seq<UserId> := [];
      for i := 0 to |users|
        invariant forall u :: u in unique <==> u in users[..i]
      {
        if users[i] !in unique {
          unique := unique + [users[i]];
        }
      }
      assert users[..|users|] == users;
      var owners: seq<UserId>, probes: seq<Lease> := [], [];
      for i := 0 to |unique|
        invariant |owners| == |probes|
        invariant forall j :: 0 <= j < |probes| ==>
          owners[j] == probes[j].user && owners[j] in users && probes[j].device in DevicesOf(devices, owners[j])
        invariant forall u, d :: u in unique[..i] && d in DevicesOf(devices, u) ==> Lease(u, d) in probes
      {
        ghost var earlier := probes;
        var rest := DevicesOf(devices, unique[i]);
        while rest != {}
          invariant rest <= DevicesOf(devices, unique[i])
          invariant |owners| == |probes| && earlier <= probes
          invariant forall j :: 0 <= j < |probes| ==>
            owners[j] == probes[j].user && owners[j] in users && probes[j].device in DevicesOf(devices, owners[j])
          invariant forall d :: d in DevicesOf(devices, unique[i]) - rest ==> Lease(unique[i], d) in probes
          decreases rest
        {
          var d :| d in rest;
          ghost var before := probes;
          owners, probes := owners + [unique[i]], probes + [Lease(unique[i], d)];
          rest := rest - {d};
          assert forall p :: p in before ==> p in probes;
          assert probes[|probes| - 1] == Lease(unique[i], d);
        }
        assert forall p :: p in earlier ==> p in probes;
      }
      online := set j | 0 <= j < |owners| && probes[j] in live :: owners[j];
      forall u
        ensures u in online <==> u in users && Online(devices, live, u, None)
      {
        if u in users && Online(devices, live, u, None) {
          var d :| d in DevicesOf(devices, u) && Lease(u, d) in live;
          assert u in unique[..|unique|];
          assert Lease(u, d) in probes;
          var j :| 0 <= j < |probes| && probes[j] == Lease(u, d);
          assert owners[j] == u;
        }
      }
    }

    /** Evicts one user's lapsed devices; whoever lost one and has none left is announced as gone. */
    method SweepUser(user: UserId) returns (announce: bool)
      modifies `devices
      ensures DevicesOf(devices, user) == set d | d in DevicesOf(old(devices), user) && Lease(user, d) in live
      ensures forall u :: u != user ==> DevicesOf(devices, u) == DevicesOf(old(devices), u)
      ensures forall u, but :: Online(devices, live, u, but) <==> Online(old(devices), old(live), u, but)
      ensures announce <==> DevicesOf(old(devices), user) != {} && !Online(devices, live, user, None)
    {
      var members := DevicesOf(devices, user);
      var rest, evicted := members, false;
      while rest != {}
        invariant rest <= members
        invariant DevicesOf(devices, user) == rest + set d | d in members - rest && Lease(user, d) in live
        invariant forall u :: u != user ==> DevicesOf(devices, u) == DevicesOf(old(devices), u)
        invariant evicted <==> exists d :: d in members - rest && Lease(user, d) !in live
        decreases rest
      {
        var d :| d in rest;
        rest := rest - {d};
        if Lease(user, d) !in live {
          devices := devices[user := DevicesOf(devices, user) - {d}];
          evicted := true;
        }
      }
      var online := UserIsOnline(user, None);
      announce := evicted && !online;
    }
  }
}
