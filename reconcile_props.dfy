/**
  What a reconciliation pass does to the registry and the event log: the
  handles it creates and the order of their `register` events, the
  `updateState` calls it makes, where it throws, that the registry only grows,
  that a second pass over the same snapshot registers nothing, and that the
  registry invariant is kept.
*/
module ReconcileProps {
  import opened Entities
  import opened Reconciliation

  /** The identities of a list of fixtures. */
  function Dids(fs: seq<Fixture>): set<Id>
  {
    set i | 0 <= i < |fs| :: fs[i].did
  }

  /** Fixture `i` is the last one in `fs` with its identity. */
  ghost predicate LastOf(fs: seq<Fixture>, i: nat)
    requires i < |fs|
  {
    forall j :: i < j < |fs| ==> fs[j].did != fs[i].did
  }

  /** The index of the first listed fixture without a registry entry, or |fs|
      when every listed fixture has one. */
  function FirstMissing(devices: map<Id, Handle>, fs: seq<Fixture>): (k: nat)
    ensures k <= |fs|
    ensures forall i :: 0 <= i < k ==> fs[i].did in devices
    ensures k < |fs| ==> fs[k].did !in devices
    decreases |fs|
  {
    if fs == [] || fs[0].did !in devices then 0 else 1 + FirstMissing(devices, fs[1..])
  }

  /** Every room of the snapshot, and every fixture it lists, has an entry. */
  ghost predicate Covered(devices: map<Id, Handle>, rooms: seq<Room>)
  {
    forall r :: r in rooms ==> r.rid in devices && Dids(Listed(r.device)) <= devices.Keys
  }

  /** The number of rooms plus the number of fixtures they list. */
  function EntityCount(rooms: seq<Room>): nat
    decreases |rooms|
  {
    if rooms == [] then 0 else 1 + |Listed(rooms[0].device)| + EntityCount(rooms[1..])
  }

  /** Every identity a fixture list of the snapshot names. */
  function ListedIds(rooms: seq<Room>): set<Id>
    decreases |rooms|
  {
    if rooms == [] then {} else Dids(Listed(rooms[0].device)) + ListedIds(rooms[1..])
  }

  /** `t` extends `s`: no key is removed, the log only gains events at its end,
      and the handle count does not go down. */
  ghost predicate Extends(s: State, t: State)
  {
    && s.devices.Keys <= t.devices.Keys
    && |s.log| <= |t.log| && t.log[..|s.log|] == s.log
    && s.created <= t.created
  }

  lemma DidsCons(fs: seq<Fixture>)
    requires fs != []
    ensures Dids(fs) == {fs[0].did} + Dids(fs[1..])
  {
  }

  /** The fixture loop of a new room constructs handle `s.created + i` for
      fixture `i` and emits their `register` events in list order, and nothing
      else. */
  lemma {:induction false} RegisterFixturesLog(s: State, bridge: Host, roomName: string, fs: seq<Fixture>)
    ensures var t := RegisterFixtures(s, bridge, roomName, fs);
      && t.created == s.created + |fs|
      && |t.log| == |s.log| + |fs| && t.log[..|s.log|] == s.log
      && (forall i :: 0 <= i < |fs| ==>
            t.log[|s.log| + i] == Register(FixtureHandle(s.created + i, bridge, roomName, fs[i])))
    decreases |fs|
  {
    var t := RegisterFixtures(s, bridge, roomName, fs);
    if fs == [] {
      assert s.log[..|s.log|] == s.log;
    } else {
      var h := FixtureHandle(s.created, bridge, roomName, fs[0]);
      var s1 := Store(s, h);
      var rest := fs[1..];
      RegisterFixturesLog(s1, bridge, roomName, rest);
      assert t == RegisterFixtures(s1, bridge, roomName, rest);
      assert t.log[..|s.log|] == s.log by {
        assert t.log[..|s1.log|] == s1.log;
        assert t.log[..|s.log|] == t.log[..|s1.log|][..|s.log|];
      }
      assert t.log[|s.log|] == Register(h) by {
        assert t.log[..|s1.log|][|s.log|] == s1.log[|s.log|];
      }
      forall i | 0 <= i < |fs|
        ensures t.log[|s.log| + i] == Register(FixtureHandle(s.created + i, bridge, roomName, fs[i]))
      {
        if i > 0 {
          assert rest[i - 1] == fs[i];
          assert t.log[|s1.log| + (i - 1)] == Register(FixtureHandle(s1.created + (i - 1), bridge, roomName, rest[i - 1]));
        }
      }
    }
  }

  /** The fixture loop of a new room adds exactly the listed identities, leaves
      every other entry alone, and leaves under each listed identity the handle
      of the last fixture that has it: an earlier entry under that identity is
      overwritten without being looked at. */
  lemma {:induction false} RegisterFixturesEntries(s: State, bridge: Host, roomName: string, fs: seq<Fixture>)
    ensures var t := RegisterFixtures(s, bridge, roomName, fs);
      && t.devices.Keys == s.devices.Keys + Dids(fs)
      && (forall k :: k in s.devices && k !in Dids(fs) ==> t.devices[k] == s.devices[k])
      && (forall i :: 0 <= i < |fs| && LastOf(fs, i) ==>
            t.devices[fs[i].did] == FixtureHandle(s.created + i, bridge, roomName, fs[i]))
    decreases |fs|
  {
    var t := RegisterFixtures(s, bridge, roomName, fs);
    if fs != [] {
      var h := FixtureHandle(s.created, bridge, roomName, fs[0]);
      var s1 := Store(s, h);
      var rest := fs[1..];
      RegisterFixturesEntries(s1, bridge, roomName, rest);
      assert t == RegisterFixtures(s1, bridge, roomName, rest);
      DidsCons(fs);
      forall i | 0 <= i < |fs| && LastOf(fs, i)
        ensures t.devices[fs[i].did] == FixtureHandle(s.created + i, bridge, roomName, fs[i])
      {
        if i == 0 {
          assert fs[0].did !in Dids(rest) by {
            forall j | 0 <= j < |rest| ensures rest[j].did != fs[0].did {
              assert rest[j] == fs[j + 1];
            }
          }
        } else {
          assert rest[i - 1] == fs[i];
          assert LastOf(rest, i - 1) by {
            forall j | i - 1 < j < |rest| ensures rest[j].did != rest[i - 1].did {
              assert rest[j] == fs[j + 1];
            }
          }
        }
      }
    }
  }

  /** The fixture loop of a known room changes no entry and constructs nothing;
      it calls `updateState` on the handles of the listed fixtures, in list
      order, up to the first one without an entry, and throws there if there
      is one. */
  lemma {:induction false} UpdateFixturesEffect(s: State, fs: seq<Fixture>)
    ensures var p := UpdateFixtures(s, fs); var k := FirstMissing(s.devices, fs);
      && p.state.devices == s.devices && p.state.created == s.created
      && p.status == (if k == |fs| then Completed else Threw(fs[k].did))
      && |p.state.log| == |s.log| + k && p.state.log[..|s.log|] == s.log
      && (forall i :: 0 <= i < k ==>
            p.state.log[|s.log| + i] == UpdateState(s.devices[fs[i].did], OfFixture(fs[i])))
    decreases |fs|
  {
    var p := UpdateFixtures(s, fs);
    if fs == [] || fs[0].did !in s.devices {
      assert s.log[..|s.log|] == s.log;
    } else {
      var s1 := Update(s, fs[0].did, OfFixture(fs[0]));
      var rest := fs[1..];
      UpdateFixturesEffect(s1, rest);
      assert p == UpdateFixtures(s1, rest);
      var k := FirstMissing(s.devices, fs);
      assert k == 1 + FirstMissing(s1.devices, rest);
      assert k < |fs| ==> fs[k] == rest[k - 1];
      assert p.state.log[..|s.log|] == s.log by {
        assert p.state.log[..|s1.log|] == s1.log;
        assert p.state.log[..|s.log|] == p.state.log[..|s1.log|][..|s.log|];
      }
      assert p.state.log[|s.log|] == UpdateState(s.devices[fs[0].did], OfFixture(fs[0])) by {
        assert p.state.log[..|s1.log|][|s.log|] == s1.log[|s.log|];
      }
      forall i | 0 <= i < k
        ensures p.state.log[|s.log| + i] == UpdateState(s.devices[fs[i].did], OfFixture(fs[i]))
      {
        if i > 0 {
          assert rest[i - 1] == fs[i];
          assert p.state.log[|s1.log| + (i - 1)] == UpdateState(s1.devices[rest[i - 1].did], OfFixture(rest[i - 1]));
        }
      }
    }
  }

  /** A room without an entry always completes. It gets the room handle (group
      "TCP"+rid, the room's name, kind "room") and its `register` event first,
      then one handle (group "TCP"+did, name "<room> > <fixture>", kind
      "device") and one `register` event per listed fixture, in list order,
      and no other event. */
  lemma NewRoomLog(s: State, bridge: Host, room: Room)
    requires room.rid !in s.devices
    ensures var p := ReconcileRoom(s, bridge, room); var fs := Listed(room.device);
      && p.status == Completed
      && p.state.created == s.created + 1 + |fs|
      && |p.state.log| == |s.log| + 1 + |fs| && p.state.log[..|s.log|] == s.log
      && p.state.log[|s.log|] == Register(RoomHandle(s.created, bridge, room))
      && (forall i :: 0 <= i < |fs| ==>
            p.state.log[|s.log| + 1 + i] == Register(FixtureHandle(s.created + 1 + i, bridge, room.name, fs[i])))
  {
    var h := RoomHandle(s.created, bridge, room);
    var s1 := Store(s, h);
    var fs := Listed(room.device);
    RegisterFixturesLog(s1, bridge, room.name, fs);
    var p := ReconcileRoom(s, bridge, room);
    assert p.state == RegisterFixtures(s1, bridge, room.name, fs);
    assert p.state.log[..|s.log|] == s.log by {
      assert p.state.log[..|s1.log|] == s1.log;
      assert p.state.log[..|s.log|] == p.state.log[..|s1.log|][..|s.log|];
    }
    assert p.state.log[|s.log|] == Register(h) by {
      assert p.state.log[..|s1.log|][|s.log|] == s1.log[|s.log|];
    }
  }

  /** A room without an entry adds exactly its own and its listed identities.
      The room's handle is stored under its `rid` unless a listed fixture has
      that identity too; each listed identity holds the handle of the last
      fixture that has it; other entries are kept unless a listed fixture
      reuses their identity. */
  lemma NewRoomEntries(s: State, bridge: Host, room: Room)
    requires room.rid !in s.devices
    ensures var p := ReconcileRoom(s, bridge, room); var fs := Listed(room.device);
      && p.state.devices.Keys == s.devices.Keys + {room.rid} + Dids(fs)
      && (forall k :: k in s.devices && k !in Dids(fs) ==> p.state.devices[k] == s.devices[k])
      && (room.rid !in Dids(fs) ==> p.state.devices[room.rid] == RoomHandle(s.created, bridge, room))
      && (forall i :: 0 <= i < |fs| && LastOf(fs, i) ==>
            p.state.devices[fs[i].did] == FixtureHandle(s.created + 1 + i, bridge, room.name, fs[i]))
  {
    var h := RoomHandle(s.created, bridge, room);
    var s1 := Store(s, h);
    var fs := Listed(room.device);
    RegisterFixturesEntries(s1, bridge, room.name, fs);
    var p := ReconcileRoom(s, bridge, room);
    assert p.state == RegisterFixtures(s1, bridge, room.name, fs);
  }

  /** A room with an entry changes no entry and constructs nothing. It calls
      `updateState` with the room on the room's handle, then on the handles of
      the listed fixtures in list order; it completes exactly when every listed
      fixture has an entry, and otherwise throws at the first one that has
      none, after the calls before it. */
  lemma KnownRoomEffect(s: State, bridge: Host, room: Room)
    requires room.rid in s.devices
    ensures var p := ReconcileRoom(s, bridge, room); var fs := Listed(room.device);
      var k := FirstMissing(s.devices, fs);
      && p.state.devices == s.devices && p.state.created == s.created
      && p.status == (if k == |fs| then Completed else Threw(fs[k].did))
      && |p.state.log| == |s.log| + 1 + k && p.state.log[..|s.log|] == s.log
      && p.state.log[|s.log|] == UpdateState(s.devices[room.rid], OfRoom(room))
      && (forall i :: 0 <= i < k ==>
            p.state.log[|s.log| + 1 + i] == UpdateState(s.devices[fs[i].did], OfFixture(fs[i])))
  {
    var s1 := Update(s, room.rid, OfRoom(room));
    var fs := Listed(room.device);
    UpdateFixturesEffect(s1, fs);
    var p := ReconcileRoom(s, bridge, room);
    assert p == UpdateFixtures(s1, fs);
    assert p.state.log[..|s.log|] == s.log by {
      assert p.state.log[..|s1.log|] == s1.log;
      assert p.state.log[..|s.log|] == p.state.log[..|s1.log|][..|s.log|];
    }
    assert p.state.log[|s.log|] == UpdateState(s.devices[room.rid], OfRoom(room)) by {
      assert p.state.log[..|s1.log|][|s.log|] == s1.log[|s.log|];
    }
  }

  /** A room whose `device` field is a single fixture object yields one handle
      and one event: a new room registers only the room handle, a known room
      gets only the room's `updateState`. */
  lemma SingleFixtureRoom(s: State, bridge: Host, room: Room)
    requires room.device.Single?
    ensures var p := ReconcileRoom(s, bridge, room);
      && p.status == Completed
      && |p.state.log| == |s.log| + 1
      && (room.rid !in s.devices ==>
            p.state.devices == s.devices[room.rid := RoomHandle(s.created, bridge, room)]
            && p.state.log[|s.log|] == Register(RoomHandle(s.created, bridge, room)))
      && (room.rid in s.devices ==>
            p.state.devices == s.devices
            && p.state.log[|s.log|] == UpdateState(s.devices[room.rid], OfRoom(room)))
  {
  }

  /** One room's step extends the state and rewrites no existing entry outside
      the fixture identities it lists. */
  lemma RoomGrows(s: State, bridge: Host, room: Room)
    ensures var p := ReconcileRoom(s, bridge, room);
      && Extends(s, p.state)
      && (forall k :: k in s.devices && k !in Dids(Listed(room.device)) ==> p.state.devices[k] == s.devices[k])
  {
    if room.rid in s.devices { KnownRoomEffect(s, bridge, room); } else { NewRoomLog(s, bridge, room); NewRoomEntries(s, bridge, room); }
  }

  lemma ExtendsTransitive(s: State, t: State, u: State)
    requires Extends(s, t) && Extends(t, u)
    ensures Extends(s, u)
  {
  }

  /** The registry only grows: a pass, whether it completes or throws, removes
      no key, only appends to the log, and the only existing entries it
      rewrites are those under a fixture identity that some room lists. */
  lemma {:induction false} PassGrows(s: State, bridge: Host, rooms: seq<Room>)
    ensures var p := ReconcileRooms(s, bridge, rooms);
      && Extends(s, p.state)
      && (forall k :: k in s.devices && k !in ListedIds(rooms) ==> p.state.devices[k] == s.devices[k])
    decreases |rooms|
  {
    if rooms == [] {
      assert s.log[..|s.log|] == s.log;
    } else {
      var p0 := ReconcileRoom(s, bridge, rooms[0]);
      RoomGrows(s, bridge, rooms[0]);
      if p0.status.Completed? {
        PassGrows(p0.state, bridge, rooms[1..]);
        ExtendsTransitive(s, p0.state, ReconcileRooms(p0.state, bridge, rooms[1..]).state);
      }
    }
  }

  /** After a pass that completes, every room of the snapshot and every fixture
      it lists has a registry entry. */
  lemma {:induction false} CompletedPassCovers(s: State, bridge: Host, rooms: seq<Room>)
    requires ReconcileRooms(s, bridge, rooms).status == Completed
    ensures Covered(ReconcileRooms(s, bridge, rooms).state.devices, rooms)
    decreases |rooms|
  {
    if rooms != [] {
      var room := rooms[0];
      var p0 := ReconcileRoom(s, bridge, room);
      var p := ReconcileRooms(s, bridge, rooms);
      if room.rid in s.devices { KnownRoomEffect(s, bridge, room); } else { NewRoomLog(s, bridge, room); NewRoomEntries(s, bridge, room); }
      assert p0.status == Completed;
      assert Dids(Listed(room.device)) <= p0.state.devices.Keys by {
        forall d | d in Dids(Listed(room.device)) ensures d in p0.state.devices {
          var i :| 0 <= i < |Listed(room.device)| && Listed(room.device)[i].did == d;
        }
      }
      CompletedPassCovers(p0.state, bridge, rooms[1..]);
      PassGrows(p0.state, bridge, rooms[1..]);
      forall r | r in rooms
        ensures r.rid in p.state.devices && Dids(Listed(r.device)) <= p.state.devices.Keys
      {
        if r != room { assert r in rooms[1..]; }
      }
    }
  }

  /** Over a snapshot whose rooms and fixtures all have entries, a pass
      completes, leaves the registry and the handle count exactly as they
      were, and appends one `updateState` call per room and listed fixture and
      no `register` event. */
  lemma {:induction false} CoveredPassOnlyUpdates(s: State, bridge: Host, rooms: seq<Room>)
    requires Covered(s.devices, rooms)
    ensures var p := ReconcileRooms(s, bridge, rooms);
      && p.status == Completed
      && p.state.devices == s.devices && p.state.created == s.created
      && |p.state.log| == |s.log| + EntityCount(rooms) && p.state.log[..|s.log|] == s.log
      && (forall i :: |s.log| <= i < |p.state.log| ==> p.state.log[i].UpdateState?)
    decreases |rooms|
  {
    var p := ReconcileRooms(s, bridge, rooms);
    if rooms == [] {
      assert s.log[..|s.log|] == s.log;
    } else {
      var room := rooms[0];
      var fs := Listed(room.device);
      var p0 := ReconcileRoom(s, bridge, room);
      KnownRoomEffect(s, bridge, room);
      assert FirstMissing(s.devices, fs) == |fs|;
      assert Covered(p0.state.devices, rooms[1..]) by {
        forall r | r in rooms[1..] ensures r.rid in p0.state.devices && Dids(Listed(r.device)) <= p0.state.devices.Keys {
          assert r in rooms;
        }
      }
      CoveredPassOnlyUpdates(p0.state, bridge, rooms[1..]);
      assert p == ReconcileRooms(p0.state, bridge, rooms[1..]);
      assert p.state.log[..|s.log|] == s.log by {
        assert p.state.log[..|p0.state.log|] == p0.state.log;
        assert p.state.log[..|s.log|] == p.state.log[..|p0.state.log|][..|s.log|];
      }
      forall i | |s.log| <= i < |p.state.log| ensures p.state.log[i].UpdateState? {
        if i < |p0.state.log| {
          assert p.state.log[i] == p.state.log[..|p0.state.log|][i];
          if i > |s.log| {
            assert p0.state.log[|s.log| + 1 + (i - |s.log| - 1)] == UpdateState(s.devices[fs[i - |s.log| - 1].did], OfFixture(fs[i - |s.log| - 1]));
          }
        }
      }
    }
  }

  /** How a pass over `rooms` runs against a registry that it does not
      change: every room it reaches has an entry, and it stops with `status`
      at the first listed fixture without one, or completes. */
  ghost predicate Settled(devices: map<Id, Handle>, rooms: seq<Room>, status: Status)
    decreases |rooms|
  {
    if rooms == [] then status == Completed
    else
      var fs := Listed(rooms[0].device);
      var k := FirstMissing(devices, fs);
      && rooms[0].rid in devices
      && if k < |fs| then status == Threw(fs[k].did) else Settled(devices, rooms[1..], status)
  }

  /** Whatever way a pass ends, the registry it leaves settles the same
      snapshot with the same status: the rooms before the one that threw are
      fully registered, and the fixture it threw at still has no entry. */
  lemma {:induction false} FirstPassSettles(s: State, bridge: Host, rooms: seq<Room>)
    ensures var p := ReconcileRooms(s, bridge, rooms); Settled(p.state.devices, rooms, p.status)
    decreases |rooms|
  {
    if rooms != [] {
      var room := rooms[0];
      var fs := Listed(room.device);
      var p0 := ReconcileRoom(s, bridge, room);
      var p := ReconcileRooms(s, bridge, rooms);
      if room.rid in s.devices { KnownRoomEffect(s, bridge, room); } else { NewRoomLog(s, bridge, room); NewRoomEntries(s, bridge, room); }
      if p0.status.Completed? {
        assert p == ReconcileRooms(p0.state, bridge, rooms[1..]);
        FirstPassSettles(p0.state, bridge, rooms[1..]);
        PassGrows(p0.state, bridge, rooms[1..]);
        forall i | 0 <= i < |fs| ensures fs[i].did in p.state.devices {
          assert fs[i].did in Dids(fs);
        }
        assert FirstMissing(p.state.devices, fs) == |fs|;
      }
    }
  }

  /** One known room's step appends only `updateState` calls. */
  lemma RoomOnlyUpdates(u: State, bridge: Host, room: Room)
    requires room.rid in u.devices
    ensures var p := ReconcileRoom(u, bridge, room);
      forall i :: |u.log| <= i < |p.state.log| ==> p.state.log[i].UpdateState?
  {
    var p := ReconcileRoom(u, bridge, room);
    var fs := Listed(room.device);
    KnownRoomEffect(u, bridge, room);
    forall i | |u.log| <= i < |p.state.log| ensures p.state.log[i].UpdateState? {
      if i > |u.log| {
        var j := i - |u.log| - 1;
        assert p.state.log[|u.log| + 1 + j] == UpdateState(u.devices[fs[j].did], OfFixture(fs[j]));
      }
    }
  }

  /** A pass over a registry that settles the snapshot with `status` ends with
      that status, changes no entry, constructs nothing and only appends
      `updateState` calls: one per room and listed fixture when it completes. */
  lemma {:induction false} SettledPassOnlyUpdates(u: State, bridge: Host, rooms: seq<Room>, status: Status)
    requires Settled(u.devices, rooms, status)
    ensures var p := ReconcileRooms(u, bridge, rooms);
      && p.status == status
      && p.state.devices == u.devices && p.state.created == u.created
      && |u.log| <= |p.state.log| && p.state.log[..|u.log|] == u.log
      && (forall i :: |u.log| <= i < |p.state.log| ==> p.state.log[i].UpdateState?)
      && (status == Completed ==> |p.state.log| == |u.log| + EntityCount(rooms))
    decreases |rooms|
  {
    var p := ReconcileRooms(u, bridge, rooms);
    if rooms == [] {
      assert u.log[..|u.log|] == u.log;
    } else {
      var room := rooms[0];
      var p0 := ReconcileRoom(u, bridge, room);
      KnownRoomEffect(u, bridge, room);
      RoomOnlyUpdates(u, bridge, room);
      if p0.status.Completed? {
        SettledPassOnlyUpdates(p0.state, bridge, rooms[1..], status);
        assert p == ReconcileRooms(p0.state, bridge, rooms[1..]);
        assert p.state.log[..|u.log|] == u.log by {
          assert p.state.log[..|p0.state.log|] == p0.state.log;
          assert p.state.log[..|u.log|] == p.state.log[..|p0.state.log|][..|u.log|];
        }
        forall i | |u.log| <= i < |p.state.log| ensures p.state.log[i].UpdateState? {
          if i < |p0.state.log| {
            assert p.state.log[i] == p.state.log[..|p0.state.log|][i];
          }
        }
      }
    }
  }

  /** Reconciling the same snapshot twice: whether the first pass completes or
      throws, the second one ends the same way (throwing at the same fixture),
      emits no `register` event, leaves the registry exactly as the first pass
      left it, and only calls `updateState`; once per room and listed fixture
      when the first pass completed. */
  lemma SecondPassRegistersNothing(s: State, bridge: Host, rooms: seq<Room>)
    ensures var first := ReconcileRooms(s, bridge, rooms);
      var second := ReconcileRooms(first.state, bridge, rooms);
      && second.status == first.status
      && second.state.devices == first.state.devices && second.state.created == first.state.created
      && |first.state.log| <= |second.state.log|
      && second.state.log[..|first.state.log|] == first.state.log
      && (forall i :: |first.state.log| <= i < |second.state.log| ==> !second.state.log[i].Register?)
      && (first.status == Completed ==> |second.state.log| == |first.state.log| + EntityCount(rooms))
  {
    var first := ReconcileRooms(s, bridge, rooms);
    FirstPassSettles(s, bridge, rooms);
    SettledPassOnlyUpdates(first.state, bridge, rooms, first.status);
  }

  /** Storing the next handle under its own identity, with that identity's
      group label, keeps the registry invariant. */
  lemma StoreWellFormed(s: State, h: Handle)
    requires WellFormed(s)
    requires h.serial == s.created && h.group == Group(h.id)
    ensures WellFormed(Store(s, h))
  {
  }

  /** An `updateState` call keeps the registry invariant. */
  lemma UpdateWellFormed(s: State, id: Id, snap: Snapshot)
    requires WellFormed(s) && id in s.devices
    ensures WellFormed(Update(s, id, snap))
  {
  }

  lemma {:induction false} RegisterFixturesWellFormed(s: State, bridge: Host, roomName: string, fs: seq<Fixture>)
    requires WellFormed(s)
    ensures WellFormed(RegisterFixtures(s, bridge, roomName, fs))
    decreases |fs|
  {
    if fs != [] {
      var s1 := Store(s, FixtureHandle(s.created, bridge, roomName, fs[0]));
      StoreWellFormed(s, FixtureHandle(s.created, bridge, roomName, fs[0]));
      RegisterFixturesWellFormed(s1, bridge, roomName, fs[1..]);
    }
  }

  lemma {:induction false} UpdateFixturesWellFormed(s: State, fs: seq<Fixture>)
    requires WellFormed(s)
    ensures WellFormed(UpdateFixtures(s, fs).state)
    decreases |fs|
  {
    if fs != [] && fs[0].did in s.devices {
      UpdateWellFormed(s, fs[0].did, OfFixture(fs[0]));
      UpdateFixturesWellFormed(Update(s, fs[0].did, OfFixture(fs[0])), fs[1..]);
    }
  }

  /** A pass, whether it completes or throws, keeps the registry invariant:
      every handle constructed is registered exactly once, in creation order,
      and every entry is a registered handle stored under its own identity. */
  lemma {:induction false} PassWellFormed(s: State, bridge: Host, rooms: seq<Room>)
    requires WellFormed(s)
    ensures WellFormed(ReconcileRooms(s, bridge, rooms).state)
    decreases |rooms|
  {
    if rooms != [] {
      var room := rooms[0];
      if room.rid !in s.devices {
        var h := RoomHandle(s.created, bridge, room);
        StoreWellFormed(s, h);
        RegisterFixturesWellFormed(Store(s, h), bridge, room.name, Listed(room.device));
      } else {
        UpdateWellFormed(s, room.rid, OfRoom(room));
        UpdateFixturesWellFormed(Update(s, room.rid, OfRoom(room)), Listed(room.device));
      }
      var p0 := ReconcileRoom(s, bridge, room);
      if p0.status.Completed? {
        PassWellFormed(p0.state, bridge, rooms[1..]);
      }
    }
  }
}
