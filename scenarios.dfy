/**
  Concrete passes over small snapshots, starting from the empty registry the
  driver is constructed with.
*/
module Scenarios {
  import opened Entities
  import opened Reconciliation
  import opened ReconcileProps

  const Empty := State(map[], [], 0)

  function Lamp(did: Id, name: string): Fixture
  {
    Fixture(did, name, map[])
  }

  /** Room "Room A" with fixtures "Lamp1" and "Lamp2": the first pass registers
      three handles named "Room A", "Room A > Lamp1" and "Room A > Lamp2", in
      that order; a second pass over the same snapshot registers nothing and
      calls `updateState` three times. */
  lemma RoomWithTwoLamps(bridge: Host)
    ensures var room := Room("r1", "Room A", Many([Lamp("f1", "Lamp1"), Lamp("f2", "Lamp2")]), map[]);
      var first := ReconcileRooms(Empty, bridge, [room]);
      var second := ReconcileRooms(first.state, bridge, [room]);
      && first.status == Completed
      && first.state.log == [
           Register(Handle(0, bridge, "TCPr1", "Room A", "r1", "room")),
           Register(Handle(1, bridge, "TCPf1", "Room A > Lamp1", "f1", "device")),
           Register(Handle(2, bridge, "TCPf2", "Room A > Lamp2", "f2", "device"))]
      && first.state.devices.Keys == {"r1", "f1", "f2"}
      && second.status == Completed
      && second.state.devices == first.state.devices
      && second.state.log == first.state.log + [
           UpdateState(first.state.devices["r1"], OfRoom(room)),
           UpdateState(first.state.devices["f1"], OfFixture(Lamp("f1", "Lamp1"))),
           UpdateState(first.state.devices["f2"], OfFixture(Lamp("f2", "Lamp2")))]
  {
    var f1, f2 := Lamp("f1", "Lamp1"), Lamp("f2", "Lamp2");
    var fs := [f1, f2];
    var room := Room("r1", "Room A", Many(fs), map[]);
    var s1 := Store(Empty, RoomHandle(0, bridge, room));
    var s2 := Store(s1, FixtureHandle(1, bridge, "Room A", f1));
    var s3 := Store(s2, FixtureHandle(2, bridge, "Room A", f2));
    assert fs[1..][1..] == [];
    assert RegisterFixtures(s2, bridge, "Room A", fs[1..]) == s3;
    assert ReconcileRooms(Empty, bridge, [room]) == Pass(s3, Completed) by {
      assert ReconcileRoom(Empty, bridge, room) == Pass(s3, Completed);
      assert [room][1..] == [];
    }
    assert Group("r1") == "TCPr1" && Group("f1") == "TCPf1" && Group("f2") == "TCPf2";
    assert FixtureName("Room A", "Lamp1") == "Room A > Lamp1";
    assert FixtureName("Room A", "Lamp2") == "Room A > Lamp2";
    var u1 := Update(s3, "r1", OfRoom(room));
    var u2 := Update(u1, "f1", OfFixture(f1));
    var u3 := Update(u2, "f2", OfFixture(f2));
    assert UpdateFixtures(u2, fs[1..]) == Pass(u3, Completed);
    assert ReconcileRooms(s3, bridge, [room]) == Pass(u3, Completed) by {
      assert ReconcileRoom(s3, bridge, room) == Pass(u3, Completed);
      assert [room][1..] == [];
    }
  }

  /** A room whose `device` field is one fixture object gets one handle only,
      whatever that fixture's identity. */
  lemma SingleLampRoom(bridge: Host)
    ensures var room := Room("r1", "Hall", Single(Lamp("f1", "Lamp")), map[]);
      var p := ReconcileRooms(Empty, bridge, [room]);
      && p.status == Completed
      && p.state.devices == map["r1" := Handle(0, bridge, "TCPr1", "Hall", "r1", "room")]
      && |p.state.log| == 1
  {
    var room := Room("r1", "Hall", Single(Lamp("f1", "Lamp")), map[]);
    assert [room][1..] == [];
    assert Group("r1") == "TCPr1";
  }

  /** Two newly seen rooms listing the same fixture: the second room's fixture
      loop overwrites the entry without looking at it, so the fixture is
      registered twice, as two handles, and the registry keeps the second. */
  lemma SharedFixtureRegisteredTwice(bridge: Host)
    ensures var lamp := Lamp("f", "Lamp");
      var rooms := [Room("r1", "A", Many([lamp]), map[]), Room("r2", "B", Many([lamp]), map[])];
      var p := ReconcileRooms(Empty, bridge, rooms);
      && p.status == Completed
      && p.state.log[1] == Register(Handle(1, bridge, "TCPf", "A > Lamp", "f", "device"))
      && p.state.log[3] == Register(Handle(3, bridge, "TCPf", "B > Lamp", "f", "device"))
      && p.state.devices["f"] == Handle(3, bridge, "TCPf", "B > Lamp", "f", "device")
  {
    var lamp := Lamp("f", "Lamp");
    var r1, r2 := Room("r1", "A", Many([lamp]), map[]), Room("r2", "B", Many([lamp]), map[]);
    var rooms := [r1, r2];
    var s1 := Store(Empty, RoomHandle(0, bridge, r1));
    var s2 := Store(s1, FixtureHandle(1, bridge, "A", lamp));
    var s3 := Store(s2, RoomHandle(2, bridge, r2));
    var s4 := Store(s3, FixtureHandle(3, bridge, "B", lamp));
    assert [lamp][1..] == [];
    assert RegisterFixtures(s1, bridge, "A", [lamp]) == s2;
    assert ReconcileRoom(Empty, bridge, r1) == Pass(s2, Completed);
    assert "r2" !in s2.devices;
    assert RegisterFixtures(s3, bridge, "B", [lamp]) == s4;
    assert ReconcileRoom(s2, bridge, r2) == Pass(s4, Completed);
    assert rooms[1..] == [r2] && rooms[1..][1..] == [];
    assert ReconcileRooms(s2, bridge, [r2]) == Pass(s4, Completed);
    assert ReconcileRooms(Empty, bridge, rooms) == Pass(s4, Completed);
    assert Group("f") == "TCPf";
    assert FixtureName("A", "Lamp") == "A > Lamp" && FixtureName("B", "Lamp") == "B > Lamp";
  }

  /** A fixture that appears in a known room after the room was first seen has
      no entry: the pass updates the room and the fixtures before it, then
      throws on the new one, and later rooms are not visited. */
  lemma FixtureAddedLaterThrows(bridge: Host)
    ensures var before := Room("r1", "A", Many([Lamp("f1", "One")]), map[]);
      var after := Room("r1", "A", Many([Lamp("f1", "One"), Lamp("f2", "Two")]), map[]);
      var later := Room("r2", "B", Single(Lamp("f3", "Three")), map[]);
      var first := ReconcileRooms(Empty, bridge, [before]);
      var second := ReconcileRooms(first.state, bridge, [after, later]);
      && second.status == Threw("f2")
      && second.state.devices == first.state.devices
      && |second.state.log| == |first.state.log| + 2
      && "r2" !in second.state.devices
  {
  }

  /** A room first seen with a single fixture object gets no fixture entry;
      when it later lists that fixture, the pass updates the room and then
      throws on the fixture. */
  lemma SingleThenListedThrows(bridge: Host)
    ensures var before := Room("r1", "A", Single(Lamp("f1", "One")), map[]);
      var after := Room("r1", "A", Many([Lamp("f1", "One")]), map[]);
      var first := ReconcileRooms(Empty, bridge, [before]);
      var second := ReconcileRooms(first.state, bridge, [after]);
      && first.status == Completed
      && second.status == Threw("f1")
      && second.state.devices == first.state.devices
      && |second.state.log| == |first.state.log| + 1
  {
  }
}
