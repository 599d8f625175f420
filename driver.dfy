/**
  The driver object `connectedbytcp`: the remembered bridge addresses
  (`_opts.sockets`), the device registry `devices` shared by the polling loops
  of all bridges, and what the driver has emitted or called so far. Its methods
  update these fields in place, the way the JavaScript object's do.
*/
module TcpLights {
  import opened Entities
  import opened Reconciliation
  import ReconcileProps

  /** The outcome of one `GetState` call: an error, or the `system` array. */
  datatype Fetch = Failed | Fetched(system: seq<Room>)

  /** What the `GetState` callback does about the next fetch of a bridge: it
      schedules it, or it throws before scheduling it, naming the fixture it
      found no entry for. */
  datatype Next = Rescheduled | Stopped(missing: Id)

  class Driver {
    var sockets: seq<Host>
    var devices: map<Id, Handle>
    var log: seq<Event>
    var created: nat

    /** The registry state these fields hold. */
    function Current(): State
      reads this
    {
      State(devices, log, created)
    }

    ghost predicate Valid()
      reads this
    {
      WellFormed(Current())
    }

    /** `_opts.sockets` defaults to an empty list when the saved options have
        none; the registry starts empty and nothing has been emitted. */
    constructor (saved: Option<seq<Host>>)
      ensures Valid()
      ensures sockets == (if saved.Some? then saved.value else [])
      ensures devices == map[] && log == [] && created == 0
    {
      sockets := if saved.Some? then saved.value else [];
      devices := map[];
      log := [];
      created := 0;
    }

    /** `remember(host)`: appends the address to the remembered ones and
        changes nothing else. */
    method Remember(host: Host)
      modifies this`sockets
      ensures sockets == old(sockets) + [host]
    {
      sockets := sockets + [host];
    }

    /** The fixture loop of a newly seen room: writes a new handle under each
        listed `did` and emits `register` for it, in list order. */
    method RegisterFixtures(bridge: Host, roomName: string, fs: seq<Fixture>)
      modifies this`devices, this`log, this`created
      ensures Current() == Reconciliation.RegisterFixtures(old(Current()), bridge, roomName, fs)
    {
      var j := 0;
      while j < |fs|
        invariant 0 <= j <= |fs|
        invariant Reconciliation.RegisterFixtures(old(Current()), bridge, roomName, fs)
               == Reconciliation.RegisterFixtures(Current(), bridge, roomName, fs[j..])
      {
        var f := fs[j];
        var h := FixtureHandle(created, bridge, roomName, f);
        devices := devices[f.did := h];
        log := log + [Register(h)];
        created := created + 1;
        assert fs[j..][1..] == fs[j + 1..];
        j := j + 1;
      }
    }

    /** The fixture loop of a known room: `updateState` on each listed
        fixture's handle, in list order, throwing at the first fixture that
        has no entry. */
    method UpdateFixtures(fs: seq<Fixture>) returns (status: Status)
      modifies this`log
      ensures Pass(Current(), status) == Reconciliation.UpdateFixtures(old(Current()), fs)
    {
      var j := 0;
      while j < |fs|
        invariant 0 <= j <= |fs|
        invariant Reconciliation.UpdateFixtures(old(Current()), fs) == Reconciliation.UpdateFixtures(Current(), fs[j..])
      {
        var f := fs[j];
        if f.did !in devices {
          return Threw(f.did);
        }
        log := log + [UpdateState(devices[f.did], OfFixture(f))];
        assert fs[j..][1..] == fs[j + 1..];
        j := j + 1;
      }
      return Completed;
    }

    /** The body of the `GetState` callback on success: walks the rooms in
        order, registering what it has not seen and updating what it has. It
        keeps the registry invariant, also when it throws. */
    method Reconcile(bridge: Host, system: seq<Room>) returns (status: Status)
      requires Valid()
      modifies this`devices, this`log, this`created
      ensures Valid()
      ensures Pass(Current(), status) == ReconcileRooms(old(Current()), bridge, system)
    {
      ReconcileProps.PassWellFormed(Current(), bridge, system);
      var i := 0;
      while i < |system|
        invariant 0 <= i <= |system|
        invariant ReconcileRooms(old(Current()), bridge, system) == ReconcileRooms(Current(), bridge, system[i..])
      {
        var room := system[i];
        assert system[i..][0] == room && system[i..][1..] == system[i + 1..];
        if room.rid !in devices {
          var h := RoomHandle(created, bridge, room);
          devices := devices[room.rid := h];
          log := log + [Register(h)];
          created := created + 1;
          match room.device {
            case Single(_) =>
            case Many(fs) =>
              RegisterFixtures(bridge, room.name, fs);
          }
        } else {
          log := log + [UpdateState(devices[room.rid], OfRoom(room))];
          match room.device {
            case Single(_) =>
            case Many(fs) =>
              status := UpdateFixtures(fs);
              if status.Threw? {
                return;
              }
          }
        }
        i := i + 1;
      }
      status := Completed;
    }

    /** What the `GetState` callback does with one outcome: an error changes
        nothing and the next fetch is scheduled; a `system` array is
        reconciled, after which the next fetch is scheduled unless the pass
        threw. */
    method OnGetState(bridge: Host, result: Fetch) returns (next: Next)
      requires Valid()
      modifies this`devices, this`log, this`created
      ensures Valid()
      ensures result.Failed? ==> Current() == old(Current()) && next == Rescheduled
      ensures result.Fetched? ==>
        var p := ReconcileRooms(old(Current()), bridge, result.system);
        && Current() == p.state
        && next == (if p.status.Completed? then Rescheduled else Stopped(p.status.missing))
    {
      match result {
        case Failed =>
          next := Rescheduled;
        case Fetched(system) =>
          var status := Reconcile(bridge, system);
          next := if status.Completed? then Rescheduled else Stopped(status.missing);
      }
    }
  }
}
