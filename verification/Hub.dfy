/** The in-memory connection hub of src/realtime.py: which socket listens on which channel. */
module Hub {
  import opened Wrappers
  import opened Tables
  import Pull

  const MAX_SOCKETS_PER_USER := 8

  type Socket = nat

  datatype Channel = UserChannel(user: UserId) | Broadcast | SpaceChannel(space: SpaceId)

  /** A socket on a channel, with the device it announced itself as. */
  datatype Seat = Seat(ws: Socket, device: DeviceId)

  datatype HubState = HubState(
    channels: map<Channel, set<Seat>>,
    bound: map<Socket, set<Channel>>,
    device: map<Socket, DeviceId>,
    slots: map<UserId, set<Socket>>)

  const IDLE := HubState(map[], map[], map[], map[])

  function On(h: HubState, ch: Channel): set<Seat> {
    if ch in h.channels then h.channels[ch] else {}
  }

  function Of(h: HubState, ws: Socket): set<Channel> {
    if ws in h.bound then h.bound[ws] else {}
  }

  function Held(h: HubState, user: UserId): set<Socket> {
    if user in h.slots then h.slots[user] else {}
  }

  // ── The invariant ─────────────────────────────────────────────────────────

  predicate Seated(h: HubState, ws: Socket, device: DeviceId, ch: Channel) {
    ws in h.bound && ws in h.device && h.device[ws] == device && ch in h.bound[ws]
  }

  /** The two directions of the index agree, and no channel is kept empty. */
  ghost predicate Indexed(h: HubState) {
    && h.bound.Keys == h.device.Keys
    && (forall ch, ws, device :: Seat(ws, device) in On(h, ch) <==> Seated(h, ws, device, ch))
    && (forall ch :: ch in h.channels ==> On(h, ch) != {})
  }

  /** A slot set is never empty and never over the limit. */
  ghost predicate Rationed(h: HubState) {
    forall u :: u in h.slots ==> 0 < |h.slots[u]| <= MAX_SOCKETS_PER_USER
  }

  // ── Steps ─────────────────────────────────────────────────────────────────

  datatype HubEvent =
    | Reserve(user: UserId, ws: Socket)
    | Release(user: UserId, ws: Socket)
    | Register(ws: Socket, device: DeviceId, wanted: set<Channel>)
    | Rebind(ws: Socket, wanted: set<Channel>)
    | Unregister(ws: Socket)

  /** What one channel keeps: an untouched one is as it was, an emptied one is gone. */
  ghost predicate ChannelBecomes(h: HubState, h': HubState, ch: Channel, seats: set<Seat>, touched: bool) {
    && On(h', ch) == seats
    && (ch in h'.channels <==> if touched then seats != {} else ch in h.channels)
  }

  ghost predicate BindStep(h: HubState, h': HubState, ws: Socket, device: DeviceId, wanted: set<Channel>) {
    && h'.slots == h.slots
    && h'.device == h.device[ws := device]
    && h'.bound == h.bound[ws := wanted]
    && forall ch ::
         var seat := {Seat(ws, device)};
         ChannelBecomes(
           h, h', ch,
           if ch in wanted then On(h, ch) + seat else if ch in Of(h, ws) then On(h, ch) - seat else On(h, ch),
           ch in wanted || ch in Of(h, ws))
  }

  ghost predicate UnregisterStep(h: HubState, h': HubState, ws: Socket) {
    && h'.slots == h.slots
    && h'.device == h.device - {ws}
    && h'.bound == h.bound - {ws}
    && forall ch ::
         var seat := if ws in h.device then {Seat(ws, h.device[ws])} else {};
         ChannelBecomes(h, h', ch, if ch in Of(h, ws) then On(h, ch) - seat else On(h, ch), ch in Of(h, ws))
  }

  function WithSlots(h: HubState, user: UserId, held: set<Socket>): HubState {
    h.(slots := if held == {} then h.slots - {user} else h.slots[user := held])
  }

  ghost predicate HubStep(h: HubState, ev: HubEvent, h': HubState) {
    match ev
    case Reserve(user, ws) =>
      h' == if |Held(h, user)| >= MAX_SOCKETS_PER_USER then h else WithSlots(h, user, Held(h, user) + {ws})
    case Release(user, ws) => h' == WithSlots(h, user, Held(h, user) - {ws})
    case Register(ws, device, wanted) => BindStep(h, h', ws, device, wanted)
    case Rebind(ws, wanted) =>
      if ws in h.device then BindStep(h, h', ws, h.device[ws], wanted) else h' == h
    case Unregister(ws) => UnregisterStep(h, h', ws)
  }

  // ── The hub itself ────────────────────────────────────────────────────────

  class ConnectionHub {
    var channels: map<Channel, set<Seat>>
    var wsChannels: map<Socket, set<Channel>>
    var wsDevice: map<Socket, DeviceId>
    var userSockets: map<UserId, set<Socket>>

    constructor ()
      ensures View() == IDLE
    {
      channels, wsChannels, wsDevice, userSockets := map[], map[], map[], map[];
    }

    function View(): HubState
      reads this
    {
      HubState(channels, wsChannels, wsDevice, userSockets)
    }

    method ReserveSlot(user: UserId, ws: Socket) returns (reserved: bool)
      requires Rationed(View())
      modifies `userSockets
      ensures HubStep(old(View()), Reserve(user, ws), View())
      ensures reserved <==> |Held(old(View()), user)| < MAX_SOCKETS_PER_USER
      ensures reserved ==> ws in Held(View(), user)
    {
      var held := Held(View(), user);
      if |held| >= MAX_SOCKETS_PER_USER {
        return false;
      }
      userSockets := userSockets[user := held + {ws}];
      return true;
    }

    method ReleaseSlot(user: UserId, ws: Socket)
      modifies `userSockets
      ensures HubStep(old(View()), Release(user, ws), View())
    {
      if user !in userSockets {
        assert userSockets - {user} == userSockets;
        return;
      }
      var held := userSockets[user] - {ws};
      if held == {} {
        userSockets := userSockets - {user};
      } else {
        userSockets := userSockets[user := held];
      }
    }

    /** Takes `seat` off every channel of `stale`, dropping those it was alone on. */
    method Discard(stale: set<Channel>, seat: set<Seat>)
      modifies `channels
      ensures forall ch :: ChannelBecomes(
        old(View()), View(), ch, if ch in stale then On(old(View()), ch) - seat else On(old(View()), ch), ch in stale)
    {
      ghost var before := View();
      var rest := stale;
      while rest != {}
        invariant rest <= stale
        invariant wsChannels == before.bound && wsDevice == before.device && userSockets == before.slots
        invariant forall ch :: ChannelBecomes(
          before, View(), ch, if ch in stale - rest then On(before, ch) - seat else On(before, ch), ch in stale - rest)
        decreases rest
      {
        var ch :| ch in rest;
        var seats := On(View(), ch) - seat;
        assert ChannelBecomes(before, View(), ch, On(before, ch), false);
        if seats == {} {
          channels := channels - {ch};
        } else {
          channels := channels[ch := seats];
        }
        rest := rest - {ch};
      }
    }

    /** Puts `seat` on every channel of `wanted`. */
    method Add(wanted: set<Channel>, seat: Seat)
      modifies `channels
      ensures forall ch :: ChannelBecomes(
        old(View()), View(), ch, if ch in wanted then On(old(View()), ch) + {seat} else On(old(View()), ch), ch in wanted)
    {
      ghost var before := View();
      var rest := wanted;
      while rest != {}
        invariant rest <= wanted
        invariant wsChannels == before.bound && wsDevice == before.device && userSockets == before.slots
        invariant forall ch :: ChannelBecomes(
          before, View(), ch, if ch in wanted - rest then On(before, ch) + {seat} else On(before, ch), ch in wanted - rest)
        decreases rest
      {
        var ch :| ch in rest;
        assert ChannelBecomes(before, View(), ch, On(before, ch), false);
        channels := channels[ch := On(View(), ch) + {seat}];
        rest := rest - {ch};
      }
    }

    method BindLocked(ws: Socket, device: DeviceId, wanted: set<Channel>)
      modifies `channels, `wsChannels, `wsDevice
      ensures BindStep(old(View()), View(), ws, device, wanted)
    {
      ghost var before := View();
      Discard(Of(View(), ws) - wanted, {Seat(ws, device)});
      ghost var mid := View();
      wsDevice := wsDevice[ws := device];
      wsChannels := wsChannels[ws := wanted];
      Add(wanted, Seat(ws, device));
      forall ch
        ensures ChannelBecomes(
          before, View(), ch,
          if ch in wanted then On(before, ch) + {Seat(ws, device)}
          else if ch in Of(before, ws) then On(before, ch) - {Seat(ws, device)} else On(before, ch),
          ch in wanted || ch in Of(before, ws))
      {
        var stale := ch in Of(before, ws) - wanted;
        assert ChannelBecomes(
          before, mid, ch, if stale then On(before, ch) - {Seat(ws, device)} else On(before, ch), stale);
      }
    }

    method RegisterSocket(ws: Socket, device: DeviceId, wanted: set<Channel>)
      modifies `channels, `wsChannels, `wsDevice
      ensures HubStep(old(View()), Register(ws, device, wanted), View())
    {
      BindLocked(ws, device, wanted);
    }

    /** Does nothing when the socket left during the look-up of its channels. */
    method RebindSocket(ws: Socket, wanted: set<Channel>)
      modifies `channels, `wsChannels, `wsDevice
      ensures HubStep(old(View()), Rebind(ws, wanted), View())
    {
      if ws !in wsDevice {
        return;
      }
      BindLocked(ws, wsDevice[ws], wanted);
    }

    /** Reports the channels the socket was on, which are not those it connected with. */
    method UnregisterSocket(ws: Socket) returns (was: set<Channel>)
      modifies `channels, `wsChannels, `wsDevice
      ensures HubStep(old(View()), Unregister(ws), View())
      ensures was == Of(old(View()), ws)
    {
      was := Of(View(), ws);
      Discard(was, if ws in wsDevice then {Seat(ws, wsDevice[ws])} else {});
      wsDevice := wsDevice - {ws};
      wsChannels := wsChannels - {ws};
    }

    /** One event to a channel: whoever could not be reached in time is forgotten, and nobody else. */
    method BroadcastLocal(channel: Channel, exclude: Option<DeviceId>, unreachable: set<Socket>)
      returns (targets: set<Seat>)
      requires Indexed(View())
      modifies `channels, `wsChannels, `wsDevice
      ensures targets == TargetsOf(old(View()), channel, exclude)
      ensures Indexed(View()) && userSockets == old(userSockets)
      ensures wsDevice == old(wsDevice) - DroppedBy(old(View()), channel, exclude, unreachable)
      ensures forall ws :: ws in wsDevice ==> ws in old(wsChannels) && wsChannels[ws] == old(wsChannels)[ws]
    {
      assert wsChannels.Keys == wsDevice.Keys;
      hide Indexed, ChannelBecomes;
      targets := TargetsOf(View(), channel, exclude);
      ghost var before := View();
      var rest := set s | s in targets && s.ws in unreachable :: s.ws;
      ghost var lost := rest;
      while rest != {}
        invariant rest <= lost && Indexed(View())
        invariant wsDevice == before.device - (lost - rest) && userSockets == before.slots
        invariant forall ws :: ws in wsDevice ==> ws in before.bound && wsChannels[ws] == before.bound[ws]
        decreases rest
      {
        var ws :| ws in rest;
        ghost var mid := View();
        var _ := UnregisterSocket(ws);
        UnregisterKeepsIndex(mid, View(), ws);
        rest := rest - {ws};
      }
    }
  }

  // ── One step ──────────────────────────────────────────────────────────────

  lemma UnregisterKeepsIndex(h: HubState, h': HubState, ws: Socket)
    requires Indexed(h) && UnregisterStep(h, h', ws)
    ensures Indexed(h')
  {
    forall ch
      ensures forall w, d :: Seat(w, d) in On(h', ch) <==> Seated(h', w, d, ch)
      ensures ch in h'.channels ==> On(h', ch) != {}
    {
      var seat := if ws in h.device then {Seat(ws, h.device[ws])} else {};
      assert ChannelBecomes(h, h', ch, if ch in Of(h, ws) then On(h, ch) - seat else On(h, ch), ch in Of(h, ws));
      assert forall w, d :: Seat(w, d) in On(h, ch) <==> Seated(h, w, d, ch);
    }
  }

  /** The socket announces itself anew under another device while it is on some channel. */
  predicate ChangesDevice(h: HubState, ws: Socket, device: DeviceId) {
    Of(h, ws) != {} && ws in h.device && h.device[ws] != device
  }

  /**
   * Binding keeps the index exactly when the socket does not change its device:
   * the old seats are looked up under the new device's name, and would stay.
   */
  lemma BindKeepsIndexIff(h: HubState, h': HubState, ws: Socket, device: DeviceId, wanted: set<Channel>)
    requires Indexed(h) && BindStep(h, h', ws, device, wanted)
    ensures Indexed(h') <==> !ChangesDevice(h, ws, device)
  {
    if ChangesDevice(h, ws, device) {
      BindLeavesOldSeats(h, h', ws, device, wanted);
    } else {
      forall ch
        ensures forall w, d :: Seat(w, d) in On(h', ch) <==> Seated(h', w, d, ch)
        ensures ch in h'.channels ==> On(h', ch) != {}
      {
        BindAt(h, h', ws, device, wanted, ch);
      }
    }
  }

  lemma BindLeavesOldSeats(h: HubState, h': HubState, ws: Socket, device: DeviceId, wanted: set<Channel>)
    requires Indexed(h) && BindStep(h, h', ws, device, wanted) && ChangesDevice(h, ws, device)
    ensures !Indexed(h')
  {
    var ch :| ch in Of(h, ws);
    var seat := {Seat(ws, device)};
    assert ChannelBecomes(
      h, h', ch,
      if ch in wanted then On(h, ch) + seat else if ch in Of(h, ws) then On(h, ch) - seat else On(h, ch),
      ch in wanted || ch in Of(h, ws));
    assert Seated(h, ws, h.device[ws], ch);
    assert Seat(ws, h.device[ws]) in On(h', ch);
    assert !Seated(h', ws, h.device[ws], ch);
  }

  lemma BindAt(h: HubState, h': HubState, ws: Socket, device: DeviceId, wanted: set<Channel>, ch: Channel)
    requires Indexed(h) && BindStep(h, h', ws, device, wanted) && !ChangesDevice(h, ws, device)
    ensures forall w, d :: Seat(w, d) in On(h', ch) <==> Seated(h', w, d, ch)
    ensures ch in h'.channels ==> On(h', ch) != {}
  {
    var seat := {Seat(ws, device)};
    assert ChannelBecomes(
      h, h', ch,
      if ch in wanted then On(h, ch) + seat else if ch in Of(h, ws) then On(h, ch) - seat else On(h, ch),
      ch in wanted || ch in Of(h, ws));
    forall w, d
      ensures Seat(w, d) in On(h', ch) <==> Seated(h', w, d, ch)
    {
      assert Seat(w, d) in On(h, ch) <==> Seated(h, w, d, ch);
    }
  }

  /** A socket registers only when the hub does not hold it under another device. */
  predicate Announced(h: HubState, ev: HubEvent) {
    ev.Register? ==> !ChangesDevice(h, ev.ws, ev.device)
  }

  lemma StepKeepsIndex(h: HubState, ev: HubEvent, h': HubState)
    requires Indexed(h) && HubStep(h, ev, h')
    ensures Indexed(h') <==> Announced(h, ev)
  {
    hide BindStep, UnregisterStep, ChangesDevice;
    match ev
    case Register(ws, device, wanted) => BindKeepsIndexIff(h, h', ws, device, wanted);
    case Rebind(ws, wanted) =>
      if ws in h.device {
        BindKeepsIndexIff(h, h', ws, h.device[ws], wanted);
        SameDeviceIsNoChange(h, ws);
      }
    case Unregister(ws) => UnregisterKeepsIndex(h, h', ws);
    case _ => assert forall ch :: On(h', ch) == On(h, ch);
  }

  lemma SameDeviceIsNoChange(h: HubState, ws: Socket)
    requires ws in h.device
    ensures !ChangesDevice(h, ws, h.device[ws])
  {
  }

  lemma StepKeepsRations(h: HubState, ev: HubEvent, h': HubState)
    requires Rationed(h) && HubStep(h, ev, h')
    ensures Rationed(h')
  {
    hide ChannelBecomes;
    if ev.Release? {
      OneFewer(Held(h, ev.user), ev.ws);
    } else if ev.Reserve? {
      OneFewer(Held(h, ev.user) + {ev.ws}, ev.ws);
      OneFewer(Held(h, ev.user), ev.ws);
      assert Held(h, ev.user) + {ev.ws} - {ev.ws} == Held(h, ev.user) - {ev.ws};
    }
  }

  lemma OneFewer(s: set<Socket>, x: Socket)
    ensures |s| == |s - {x}| + if x in s then 1 else 0
    ensures s != {} ==> |s| > 0
  {
    if x in s {
      assert s == s - {x} + {x};
    } else {
      assert s == s - {x};
    }
  }

  // ── Runs ──────────────────────────────────────────────────────────────────

  /** Any interleaving of steps of any sockets. */
  ghost predicate Trace(states: seq<HubState>, evs: seq<HubEvent>) {
    && |states| == |evs| + 1
    && forall i :: 0 <= i < |evs| ==> HubStep(states[i], evs[i], states[i + 1])
  }

  /** Each connection registers once. */
  ghost predicate RegisterOnce(evs: seq<HubEvent>) {
    forall i, j :: 0 <= i < j < |evs| && evs[i].Register? && evs[j].Register? ==> evs[i].ws != evs[j].ws
  }

  predicate Forgotten(h: HubState, ws: Socket) {
    ws !in h.device && ws !in h.bound
  }

  /** A socket taken out never comes back without registering, even when a rebind resolved earlier lands late. */
  lemma {:induction false} TheGoneStayGone(states: seq<HubState>, evs: seq<HubEvent>, ws: Socket)
    requires Trace(states, evs) && Forgotten(states[0], ws)
    requires forall i :: 0 <= i < |evs| && evs[i].Register? ==> evs[i].ws != ws
    ensures Forgotten(states[|evs|], ws)
  {
    hide ChannelBecomes;
    if evs == [] {
    } else {
      var n := |evs| - 1;
      TheGoneStayGone(states[..n + 1], evs[..n], ws);
      assert HubStep(states[n], evs[n], states[n + 1]);
    }
  }

  /** Over any interleaving in which each socket registers once, the index stays exact and the slots rationed. */
  lemma {:induction false} RunsKeepTheIndex(states: seq<HubState>, evs: seq<HubEvent>)
    requires Trace(states, evs) && states[0] == IDLE && RegisterOnce(evs)
    ensures Indexed(states[|evs|]) && Rationed(states[|evs|])
  {
    if evs == [] {
    } else {
      hide HubStep, Indexed, Rationed;
      var n := |evs| - 1;
      RunsKeepTheIndex(states[..n + 1], evs[..n]);
      if evs[n].Register? {
        TheGoneStayGone(states[..n + 1], evs[..n], evs[n].ws);
      }
      StepKeepsIndex(states[n], evs[n], states[n + 1]);
      StepKeepsRations(states[n], evs[n], states[n + 1]);
    }
  }

  lemma {:induction false} TheUntouchedStay(states: seq<HubState>, evs: seq<HubEvent>, ws: Socket)
    requires Trace(states, evs) && !Forgotten(states[0], ws)
    requires forall i :: 0 <= i < |evs| && evs[i].Unregister? ==> evs[i].ws != ws
    ensures !Forgotten(states[|evs|], ws)
  {
    hide ChannelBecomes;
    if evs == [] {
    } else {
      var n := |evs| - 1;
      TheUntouchedStay(states[..n + 1], evs[..n], ws);
      assert HubStep(states[n], evs[n], states[n + 1]);
    }
  }

  lemma UnregisteredInTheMiddle(states: seq<HubState>, evs: seq<HubEvent>, i: nat)
    requires Trace(states, evs) && i < |evs| && evs[i].Unregister?
    requires forall j :: 0 <= j < |evs| && evs[j].Register? ==> evs[j].ws != evs[i].ws
    ensures Forgotten(states[|evs|], evs[i].ws)
  {
    var later, rest := states[i + 1..], evs[i + 1..];
    assert HubStep(states[i], evs[i], states[i + 1]);
    assert Trace(later, rest) by {
      hide HubStep;
      forall j | 0 <= j < |rest|
        ensures HubStep(later[j], rest[j], later[j + 1])
      {
        assert HubStep(states[i + 1 + j], evs[i + 1 + j], states[i + 2 + j]);
      }
    }
    hide HubStep;
    TheGoneStayGone(later, rest, evs[i].ws);
  }

  /** The sockets a broadcast picks on the channel, all but those of the excluded device. */
  function TargetsOf(h: HubState, channel: Channel, exclude: Option<DeviceId>): set<Seat> {
    set s | s in On(h, channel) && exclude != Some(s.device)
  }

  function DroppedBy(h: HubState, channel: Channel, exclude: Option<DeviceId>, unreachable: set<Socket>): set<Socket> {
    set s | s in TargetsOf(h, channel, exclude) && s.ws in unreachable :: s.ws
  }

  /**
   * A broadcast as it really runs: it reads its targets from the first state and
   * drops the unreachable ones later, one by one, while other sockets register,
   * move and close (`closing`). At the end exactly the unreachable targets and
   * the sockets that closed by themselves are gone: nobody off the channel,
   * nobody of the excluded device and nobody within reach is lost to it.
   */
  lemma BroadcastsInterleave(
    states: seq<HubState>, evs: seq<HubEvent>,
    channel: Channel, exclude: Option<DeviceId>, unreachable: set<Socket>, closing: set<Socket>)
    requires Trace(states, evs) && Indexed(states[0])
    requires forall ws :: !Forgotten(states[0], ws) ==> (
      (exists i :: 0 <= i < |evs| && evs[i] == Unregister(ws)) <==>
      ws in DroppedBy(states[0], channel, exclude, unreachable) || ws in closing)
    requires forall i :: 0 <= i < |evs| && evs[i].Register? ==> Forgotten(states[0], evs[i].ws)
    ensures forall s :: s in On(states[0], channel) ==>
      (Forgotten(states[|evs|], s.ws) <==>
         (exclude != Some(s.device) && s.ws in unreachable) || s.ws in closing)
    ensures forall ws :: !Forgotten(states[0], ws) && (forall d :: Seat(ws, d) !in On(states[0], channel)) ==>
      (Forgotten(states[|evs|], ws) <==> ws in closing)
  {
    hide HubStep;
    forall s | s in On(states[0], channel)
      ensures !Forgotten(states[0], s.ws)
      ensures s.ws in DroppedBy(states[0], channel, exclude, unreachable) <==>
        exclude != Some(s.device) && s.ws in unreachable
    {
      OneSeatEach(states[0], channel, exclude, unreachable, s);
    }
    var h, dropped := states[0], DroppedBy(states[0], channel, exclude, unreachable);
    forall ws | ws in dropped
      ensures !Forgotten(h, ws)
    {
      var s :| s in TargetsOf(h, channel, exclude) && s.ws == ws;
      assert s in On(h, channel);
    }
    hide Indexed, Forgotten, DroppedBy, On;
    forall ws | !Forgotten(h, ws)
      ensures Forgotten(states[|evs|], ws) <==> ws in dropped || ws in closing
    {
      GoneIffUnregistered(states, evs, ws);
    }
    forall ws | !Forgotten(h, ws) && (forall d :: Seat(ws, d) !in On(h, channel))
      ensures ws !in dropped
    {
      OffChannelIsNoTarget(h, channel, exclude, unreachable, ws);
    }
  }

  lemma OffChannelIsNoTarget(
    h: HubState, channel: Channel, exclude: Option<DeviceId>, unreachable: set<Socket>, ws: Socket)
    requires forall d :: Seat(ws, d) !in On(h, channel)
    ensures ws !in DroppedBy(h, channel, exclude, unreachable)
  {
    forall s | s in TargetsOf(h, channel, exclude)
      ensures s.ws != ws
    {
      assert Seat(s.ws, s.device) in On(h, channel);
    }
  }

  /** In an exact index a socket has one seat on a channel, under its own device. */
  lemma OneSeatEach(
    h: HubState, channel: Channel, exclude: Option<DeviceId>, unreachable: set<Socket>, s: Seat)
    requires Indexed(h) && s in On(h, channel)
    ensures !Forgotten(h, s.ws)
    ensures s.ws in DroppedBy(h, channel, exclude, unreachable) <==>
      exclude != Some(s.device) && s.ws in unreachable
  {
    assert Seat(s.ws, s.device) in On(h, channel) && Seated(h, s.ws, s.device, channel);
    forall other | other in On(h, channel) && other.ws == s.ws
      ensures other == s
    {
      assert Seat(other.ws, other.device) in On(h, channel) && Seated(h, other.ws, other.device, channel);
    }
    if exclude != Some(s.device) && s.ws in unreachable {
      assert s in TargetsOf(h, channel, exclude);
    }
  }

  lemma GoneIffUnregistered(states: seq<HubState>, evs: seq<HubEvent>, ws: Socket)
    requires Trace(states, evs) && !Forgotten(states[0], ws)
    requires forall i :: 0 <= i < |evs| && evs[i].Register? ==> Forgotten(states[0], evs[i].ws)
    ensures Forgotten(states[|evs|], ws) <==> exists i :: 0 <= i < |evs| && evs[i] == Unregister(ws)
  {
    hide HubStep, Forgotten;
    if i :| 0 <= i < |evs| && evs[i] == Unregister(ws) {
      UnregisteredInTheMiddle(states, evs, i);
    } else {
      assert forall i :: 0 <= i < |evs| && evs[i].Unregister? ==> evs[i] == Unregister(evs[i].ws);
      TheUntouchedStay(states, evs, ws);
    }
  }

  /** In an exact index, a forgotten socket sits on no channel, under any device. */
  lemma TheForgottenHearNothing(h: HubState, ws: Socket, device: DeviceId, ch: Channel)
    requires Indexed(h) && Forgotten(h, ws)
    ensures Seat(ws, device) !in On(h, ch)
  {
    assert !Seated(h, ws, device, ch);
  }

  // ── One socket's view of an entry ─────────────────────────────────────────

  /** The channels a connection of the user should be on, read from the memberships. */
  function ResolvedChannels(t: Tables, user: UserId): set<Channel> {
    {UserChannel(user), Broadcast} + set mk | mk in t.members && mk.user == user :: SpaceChannel(mk.space)
  }

  /** A connection is on its user's own channel, on the one for everybody, and on those of the user's spaces; on no other. */
  lemma ResolvedIff(t: Tables, user: UserId, ch: Channel)
    ensures ch in ResolvedChannels(t, user) <==>
      match ch
      case UserChannel(u) => u == user
      case Broadcast => true
      case SpaceChannel(s) => MemberKey(s, user) in t.members
  {
    if ch.SpaceChannel? && MemberKey(ch.space, user) in t.members {
      var mk := MemberKey(ch.space, user);
      assert mk in t.members && mk.user == user && SpaceChannel(mk.space) == ch;
    }
  }

  function ShownOn(spaces: seq<SpaceId>, mine: set<Channel>): seq<SpaceId> {
    if spaces == [] then []
    else if SpaceChannel(spaces[0]) in mine then [spaces[0]] + ShownOn(spaces[1..], mine)
    else ShownOn(spaces[1..], mine)
  }

  /** The wraps for the spaces shown, one look-up after the other. */
  function KeptFor(wraps: Wraps, shown: seq<SpaceId>): Wraps {
    if shown == [] then map[]
    else
      var kept := KeptFor(wraps, shown[..|shown| - 1]);
      var name := ForSpace(shown[|shown| - 1]);
      if name in wraps then kept[name := wraps[name]] else kept
  }

  function TrimmedFor(mine: set<Channel>, k: RowKey, row: Row): Pull.View {
    if UserChannel(k.user) in mine then Pull.View(k, row)
    else
      var shown := ShownOn(row.spaceIds, mine);
      Pull.View(k, row.(spaceIds := shown, body := row.body.(wraps := KeptFor(row.body.wraps, shown))))
  }

  lemma {:induction false} ShownAgrees(t: Tables, user: UserId, spaces: seq<SpaceId>)
    ensures ShownOn(spaces, ResolvedChannels(t, user)) == Pull.Within(spaces, Pull.SpacesOfMember(t, user))
  {
    if spaces == [] {
    } else {
      ShownAgrees(t, user, spaces[1..]);
      assert SpaceChannel(spaces[0]) in ResolvedChannels(t, user) <==> spaces[0] in Pull.SpacesOfMember(t, user);
    }
  }

  lemma {:induction false} KeptAgrees(wraps: Wraps, shown: seq<SpaceId>)
    ensures KeptFor(wraps, shown) == Pull.WrapsFor(wraps, shown)
  {
    if shown == [] {
    } else {
      KeptAgrees(wraps, shown[..|shown| - 1]);
      assert forall s :: s in shown <==> s in shown[..|shown| - 1] || s == shown[|shown| - 1];
    }
  }

  /** The event a socket hears about a row and the pull that returns it show the same thing. */
  lemma SocketAndPullAgree(t: Tables, user: UserId, k: RowKey)
    requires k in t.entries
    ensures TrimmedFor(ResolvedChannels(t, user), k, t.entries[k]) == Pull.ViewOf(t, user, k)
  {
    assert UserChannel(k.user) in ResolvedChannels(t, user) <==> k.user == user;
    ShownAgrees(t, user, t.entries[k].spaceIds);
    KeptAgrees(t.entries[k].body.wraps, ShownOn(t.entries[k].spaceIds, ResolvedChannels(t, user)));
  }

  /** Anyone but the author sees, of a row's spaces and wraps, exactly what belongs to the reader's own spaces. */
  lemma OthersSeeOnlyTheirSpaces(t: Tables, user: UserId, k: RowKey)
    requires k in t.entries && k.user != user
    ensures var row, shown := t.entries[k], Pull.ViewOf(t, user, k).row;
      && (forall s :: s in shown.spaceIds <==> s in row.spaceIds && MemberKey(s, user) in t.members)
      && (forall n :: n in shown.body.wraps <==>
            n in row.body.wraps && n.ForSpace? && n.space in row.spaceIds && MemberKey(n.space, user) in t.members)
      && (forall n :: n in shown.body.wraps ==> shown.body.wraps[n] == row.body.wraps[n])
      && shown == row.(spaceIds := shown.spaceIds, body := row.body.(wraps := shown.body.wraps))
  {
    assert forall s :: s in Pull.SpacesOfMember(t, user) <==> MemberKey(s, user) in t.members;
  }
}
