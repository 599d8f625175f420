/**
  The reconciliation step of `fetchState` (the body of the `GetState` callback
  on success), as functions on the registry state. A pass walks the rooms in
  order; a room whose `rid` has no registry entry gets a new room handle and,
  when it lists its fixtures, one new handle per fixture; a room that has an
  entry gets `updateState` calls instead.
*/
module Reconciliation {
  import opened Entities

  /** The group label of a handle: "TCP" followed by the identity. */
  function Group(id: Id): string
  {
    "TCP" + id
  }

  /** The name of a fixture handle: the room's name, " > ", the fixture's name. */
  function FixtureName(roomName: string, fixtureName: string): string
  {
    roomName + " > " + fixtureName
  }

  function RoomHandle(serial: nat, bridge: Host, room: Room): Handle
  {
    Handle(serial, bridge, Group(room.rid), room.name, room.rid, "room")
  }

  function FixtureHandle(serial: nat, bridge: Host, roomName: string, f: Fixture): Handle
  {
    Handle(serial, bridge, Group(f.did), FixtureName(roomName, f.name), f.did, "device")
  }

  /** Writes `h` under its identity, whatever was stored there, and emits
      `register` for it. */
  function Store(s: State, h: Handle): State
  {
    State(s.devices[h.id := h], s.log + [Register(h)], s.created + 1)
  }

  /** Calls `updateState(snap)` on the handle stored under `id`. */
  function Update(s: State, id: Id, snap: Snapshot): State
    requires id in s.devices
  {
    State(s.devices, s.log + [UpdateState(s.devices[id], snap)], s.created)
  }

  /** The fixture loop of a newly seen room: one new handle per listed fixture,
      in list order, written without looking at the registry. */
  function RegisterFixtures(s: State, bridge: Host, roomName: string, fs: seq<Fixture>): State
    decreases |fs|
  {
    if fs == [] then s
    else RegisterFixtures(Store(s, FixtureHandle(s.created, bridge, roomName, fs[0])), bridge, roomName, fs[1..])
  }

  /** The fixture loop of an already known room: `updateState` on each listed
      fixture's handle, in list order; a fixture without an entry makes the
      dereference throw, and the pass stops there. */
  function UpdateFixtures(s: State, fs: seq<Fixture>): Pass
    decreases |fs|
  {
    if fs == [] then Pass(s, Completed)
    else if fs[0].did !in s.devices then Pass(s, Threw(fs[0].did))
    else UpdateFixtures(Update(s, fs[0].did, OfFixture(fs[0])), fs[1..])
  }

  /** One room of the `system` array. */
  function ReconcileRoom(s: State, bridge: Host, room: Room): Pass
  {
    if room.rid !in s.devices then
      var s1 := Store(s, RoomHandle(s.created, bridge, room));
      match room.device
      case Single(_) => Pass(s1, Completed)
      case Many(fs) => Pass(RegisterFixtures(s1, bridge, room.name, fs), Completed)
    else
      var s1 := Update(s, room.rid, OfRoom(room));
      match room.device
      case Single(_) => Pass(s1, Completed)
      case Many(fs) => UpdateFixtures(s1, fs)
  }

  /** A whole pass over the rooms of one successful fetch, in order. */
  function ReconcileRooms(s: State, bridge: Host, rooms: seq<Room>): Pass
    decreases |rooms|
  {
    if rooms == [] then Pass(s, Completed)
    else
      var p := ReconcileRoom(s, bridge, rooms[0]);
      if p.status.Threw? then p else ReconcileRooms(p.state, bridge, rooms[1..])
  }

  /** The handles of the `register` events of a log, in emission order. */
  function Registered(log: seq<Event>): seq<Handle>
    decreases |log|
  {
    if log == [] then []
    else
      Registered(log[..|log| - 1]) +
      match log[|log| - 1]
      case Register(h) => [h]
      case UpdateState(_, _) => []
  }

  /** The registry invariant: the k-th `register` event carries the k-th handle
      constructed, and every registry entry is a registered handle stored under
      its own identity, with the group label of that identity. */
  ghost predicate WellFormed(s: State)
  {
    && |Registered(s.log)| == s.created
    && (forall k :: 0 <= k < |Registered(s.log)| ==> Registered(s.log)[k].serial == k)
    && (forall id :: id in s.devices ==>
          && s.devices[id].id == id
          && s.devices[id].group == Group(id)
          && s.devices[id].serial < s.created
          && Registered(s.log)[s.devices[id].serial] == s.devices[id])
  }
}
