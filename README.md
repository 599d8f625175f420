# TCP Lights driver: device registry reconciliation

This project models the core of the `connectedbytcp` driver (`index.js`), which
polls Connected by TCP lighting bridges and keeps a registry of device handles
for the rooms and fixtures they report.

The centre of the model is the reconciliation step of `fetchState`: what the
`GetState` callback does with the `system` array of rooms it receives.

- The rooms are walked in order against the registry `devices`. It is keyed by
  room `rid` and fixture `did` in one shared key space.
- A room without an entry gets a new handle: group `"TCP"+rid`, the room's
  name, kind `"room"`. A `register` event is emitted for it. If the room's
  `device` field is a list, each listed fixture then gets a handle: group
  `"TCP"+did`, name `"<room> > <fixture>"`, kind `"device"`, and its own
  `register` event. If the field is a single fixture object (it has a `did`),
  no fixture handle is made.
- A room with an entry gets `updateState` with the room snapshot. Then each
  listed fixture's handle gets `updateState` with that fixture's snapshot.

Files and modules:

- `entities.dfy` (`Entities`): snapshots, handles, events and the registry state.
- `reconcile.dfy` (`Reconciliation`): a pass as functions on that state, and
  the registry invariant `WellFormed`.
- `reconcile_props.dfy` (`ReconcileProps`): what a pass does, proved for all
  inputs.
- `driver.dfy` (`TcpLights.Driver`): the driver object as a class. Its fields
  `sockets`, `devices`, the event log and a handle counter are updated in
  place by loops. Each method is proved equal to the functions above.
- `config.dfy` (`Config`): the routing done by `config(rpc, cb)`.
- `scenarios.dfy` (`Scenarios`): concrete passes, including the ones that show
  the behaviours listed below.

Handles are values. They carry the arguments the `Socket` constructor gets,
with two changes: the `_app` argument is dropped, and the `client` object is
replaced by its host string. Two loops polling the same host therefore make
handles that differ only in their serial. A creation serial stands for
object identity. The host-visible
effects (`register` emissions and `updateState` calls) are kept as an event
log in the order they happen.

Three behaviours a reader might not expect are kept as the code has them:
one registry shared by all bridges, no registration of fixtures that appear
later, and a second registration of a fixture that is listed twice.

- The registry is one object field, `this.devices`. The loops of all bridges
  share it. Handles are not kept per bridge.
- The fixture loop of a new room writes each fixture's entry without looking
  at the registry (`index.js:78`). A fixture listed by two new rooms, or a
  fixture whose `did` equals a room's `rid`, is registered again. The new
  handle replaces the old entry (`Scenarios.SharedFixtureRegisteredTwice`).
- The fixture loop of a known room dereferences `devices[did]` unconditionally
  (`index.js:92`). A fixture that has no entry makes the callback throw. This
  happens when a fixture joins a room after the room was first seen. It also
  happens when a room first seen with a single fixture object later lists its
  fixtures. The rest of the pass is skipped, and the callback throws before it
  schedules the next fetch with the `setTimeout` at `index.js:98`. The model
  records this as the status `Threw(did)` and the outcome `Stopped(did)`, not
  as a precondition (`Scenarios.FixtureAddedLaterThrows`,
  `Scenarios.SingleThenListedThrows`).
- Nothing is ever removed from the registry.

## Model

| member | source | states |
|---|---|---|
| `ReconcileProps.NewRoomLog` | index.js:58-81 | A room whose `rid` has no entry always completes. Its handle (group "TCP"+rid, room name, kind "room") is registered first. Then one handle per listed fixture (group "TCP"+did, name "room > fixture", kind "device") is registered, in list order, with consecutive serials. No other event is emitted. A single-fixture room lists none. |
| `ReconcileProps.NewRoomEntries` | index.js:58-81 | A new room adds exactly its `rid` and its listed `did`s as keys. The room entry survives unless a listed fixture has the same identity. Each listed `did` holds the handle of the last fixture with that `did`. Other entries change only when a listed fixture reuses their key. |
| `ReconcileProps.RegisterFixturesLog` | index.js:71-80 | The new-room fixture loop constructs handle `created+i` for fixture `i` and emits its `register` event at log position `i`, in list order. It emits nothing else. |
| `ReconcileProps.RegisterFixturesEntries` | index.js:71-80 | The new-room fixture loop adds exactly the listed identities. It overwrites an existing entry under a listed `did` without checking it. It leaves the last handle per `did` and keeps all other entries. |
| `ReconcileProps.KnownRoomEffect` | index.js:82-95 | A room with an entry changes no entry and constructs no handle. It calls `updateState` with the room on the room's handle. Then it calls `updateState` on each listed fixture's handle, in order, up to the first fixture without an entry. It completes exactly when every listed fixture has an entry; otherwise it throws naming that fixture. |
| `ReconcileProps.UpdateFixturesEffect` | index.js:91-93 | The known-room fixture loop changes no entry. It calls `updateState` on each listed fixture's own handle, in list order, up to the first `did` without an entry, and throws there. |
| `ReconcileProps.FirstMissing` | index.js:91-93 | The index where the known-room fixture loop stops: every fixture before it has an entry, and the one at that index (if any) has none. |
| `ReconcileProps.SingleFixtureRoom` | index.js:67-70 | A room whose `device` field is one fixture object yields one event. A new room gets only the room handle and its `register` event. A known room gets only the room's `updateState`. |
| `ReconcileProps.RoomGrows` | index.js:57-96 | One room's step removes no key and only appends to the log. It rewrites no existing entry outside the fixture identities the room lists. |
| `ReconcileProps.PassGrows` | index.js:57-96 | A pass, whether it completes or throws, removes no key and only appends to the event log. It does not decrease the handle count. It rewrites no existing entry outside the fixture identities some room lists. |
| `ReconcileProps.CompletedPassCovers` | index.js:57-96 | After a pass that completes, every room of the snapshot and every fixture it lists has an entry. |
| `ReconcileProps.CoveredPassOnlyUpdates` | index.js:82-94 | If every room and listed fixture already has an entry, the pass completes. It leaves the registry and handle count exactly as they were. It appends one `updateState` per room and listed fixture and no `register` event. |
| `ReconcileProps.SecondPassRegistersNothing` | index.js:57-96 | Reconciling the same snapshot twice, whether the first pass completes or throws: the second pass ends the same way, throwing at the same fixture if the first did. It emits no `register` event, leaves the registry and handle count exactly as the first pass left them, and only appends to the log. When the first pass completed, it makes one `updateState` call per room and listed fixture. |
| `ReconcileProps.FirstPassSettles` | index.js:57-96 | After any pass, every room it reached has an entry. The rooms before the one that threw have all their listed fixtures registered, and the fixture the pass threw at still has no entry. |
| `ReconcileProps.SettledPassOnlyUpdates` | index.js:82-94 | A pass over a registry where every room it reaches is known ends with the status that registry dictates. It changes no entry, constructs no handle and appends only `updateState` calls: one per room and listed fixture when it completes. |
| `ReconcileProps.RoomOnlyUpdates` | index.js:82-94 | A known room's step appends only `updateState` calls to the log. |
| `ReconcileProps.PassWellFormed` | index.js:57-96 | A pass, even one that throws, keeps the registry invariant. The k-th `register` event carries the k-th handle constructed, so each handle is registered exactly once. Every entry is a registered handle stored under its own identity, with group "TCP"+identity. |
| `ReconcileProps.StoreWellFormed` | index.js:63-65 | Storing the next handle under its own identity and emitting `register` for it keeps the registry invariant. |
| `TcpLights.Driver.Reconcile` | index.js:57-96 | The imperative pass over `system` leaves the fields equal to the functional pass. It returns the same status and keeps the registry invariant. |
| `TcpLights.Driver.RegisterFixtures` | index.js:71-80 | The imperative fixture loop of a new room leaves the fields equal to the functional loop. |
| `TcpLights.Driver.UpdateFixtures` | index.js:91-93 | The imperative fixture loop of a known room leaves the fields equal to the functional loop. It returns the status at which it stopped. |
| `TcpLights.Driver.OnGetState` | index.js:55-99 | A failed fetch leaves the registry and the event log unchanged and reschedules. A successful fetch reconciles. It schedules the next fetch unless the pass threw; then the callback throws before scheduling it. |
| `TcpLights.Driver.constructor` | index.js:24-32 | `sockets` is the saved list, or empty when none was saved. The registry and the event log start empty. |
| `TcpLights.Driver.Remember` | index.js:109-113 | `remember(host)` appends the host to `sockets` and changes nothing else. |
| `Config.Dispatch` | index.js:120-136 | No request routes to the probe handler. A request routes to a named handler exactly when its method is that handler's name, and that handler gets the request's params. Any other method fails via the callback. |
| `Config.DispatchReachesHandler` | index.js:128-133 | Each of the five handlers (configScan, manual_set_tcp, manual_get_tcp, manual_show_remove, manual_remove_tcp) is reached by its own method name, with the request's params. |
| `Scenarios.RoomWithTwoLamps` | index.js:57-96 | Room "Room A" with lamps "Lamp1", "Lamp2" registers "Room A", "Room A > Lamp1", "Room A > Lamp2" in that order. A second pass registers nothing and makes exactly three `updateState` calls. |
| `Scenarios.SingleLampRoom` | index.js:67-70 | A room with a single fixture object ends up with only its room entry and one event. |
| `Scenarios.SharedFixtureRegisteredTwice` | index.js:78 | Two new rooms listing the same fixture register it twice, as two handles. The second handle replaces the first in the registry. |
| `Scenarios.FixtureAddedLaterThrows` | index.js:92 | A fixture added to a known room makes the pass throw after the earlier updates. Later rooms are not visited. |
| `Scenarios.SingleThenListedThrows` | index.js:82-93 | A room first seen with a single fixture object, later listing that fixture, makes the pass throw on it after the room's update. |

## Left out

- Timers: `setTimeout` and the 1000 ms and 5000 ms delays (`index.js:98`, `index.js:102`) are not modelled. A fetch outcome only says whether the callback schedules the next fetch (`Rescheduled`) or throws first (`Stopped`).
- What happens after the callback throws is not modelled. It depends on how `ConnectedByTCP.GetState` invokes its callback and on the Node host: the process may crash, or the client may catch the error and call again. Neither is part of this model, so `Stopped` does not claim that the bridge is never polled again.
- `load` and `init` (`index.js:37-41`, `index.js:46-53`, `index.js:102`): constructing one `ConnectedByTCP` client per remembered host and starting its loop is host plumbing. The client's `GetState` result is a parameter (`Fetch`) of `OnGetState`, and the bridge is a parameter of `Reconcile`.
- The `Socket` class and its `updateState` are not part of this model. Handles are values, and `updateState` calls are logged, not performed.
- The bodies of the configuration handlers (`lib/config`) are not part of this model. Only the routing is.
- Logging (`_app.log.info`), `this.save()` in `remember`, the stream inheritance, and the `client::up` subscription are host I/O and event-emitter wiring.
- Malformed snapshots are not modelled: a room without a `device` field, or a `device` object that has no `did` and is not a list, throws in the source. `Devices` admits only a single fixture object or a list.
- Identifiers are modelled as their string form. A `rid` or `did` equal to a property every JavaScript array inherits (such as `length`) would look registered in the source; the model's map has no such keys.
- `Config.Dispatch`: a method name is a string. A non-string `method` fails in the source as well, by the `default` branch.
