/**
  The values the TCP Lights driver works with: the room and fixture snapshots a
  bridge returns, the device handles the driver creates for them, the events it
  emits, and the registry state that reconciliation updates.
*/
module Entities {

  datatype Option<T> = None | Some(value: T)

  /** An identity token (a room's `rid` or a fixture's `did`), in the string form
      JavaScript uses when it turns the token into a property key. Rooms and
      fixtures share one key space. */
  type Id = string

  /** A bridge address, as remembered in the driver's `sockets` list. */
  type Host = string

  /** A fixture snapshot: its `did`, its `name` and every other field, which the
      driver never inspects and only forwards to `updateState`. */
  datatype Fixture = Fixture(did: Id, name: string, fields: map<string, string>)

  /** The `device` field of a room: either one fixture object (it has a `did`)
      or a list of fixtures. */
  datatype Devices = Single(only: Fixture) | Many(list: seq<Fixture>)

  /** A room snapshot, one element of the `system` array a fetch returns. */
  datatype Room = Room(rid: Id, name: string, device: Devices, fields: map<string, string>)

  /** What is handed to a handle's `updateState`. */
  datatype Snapshot = OfRoom(room: Room) | OfFixture(fixture: Fixture)

  /** A device handle (a `Socket` object), with the arguments it was constructed
      with. `serial` numbers the handles in creation order and stands for object
      identity: two constructions with equal arguments are still two objects. */
  datatype Handle = Handle(serial: nat, bridge: Host, group: string, name: string, id: Id, kind: string)

  /** What the driver does that its host can observe: a `register` emission or
      an `updateState` call on a handle. */
  datatype Event = Register(handle: Handle) | UpdateState(handle: Handle, snapshot: Snapshot)

  /** The registry `devices`, the log of events so far and the number of
      handles constructed so far. */
  datatype State = State(devices: map<Id, Handle>, log: seq<Event>, created: nat)

  /** How a pass over a snapshot ended: it walked every room, or it dereferenced
      the missing registry entry of the fixture `missing` and threw. */
  datatype Status = Completed | Threw(missing: Id)

  datatype Pass = Pass(state: State, status: Status)

  /** The fixtures a room lists one by one; a single fixture object lists none. */
  function Listed(d: Devices): seq<Fixture>
  {
    match d
    case Single(_) => []
    case Many(list) => list
  }
}
