# Transit crowd dashboard: store, real-time engine and client feed

A Dafny model of the live core of a transit crowd-monitoring dashboard. The
server keeps vehicles and alerts in an in-memory store. Three periodic tasks
run against it: a motion task moves vehicles and changes their load, a crowd
detection task produces camera snapshots, and an alert monitor raises
overcrowding and capacity alerts. Every change is broadcast over a WebSocket
to the open browsers. In the browser, a hook folds the messages into the
dashboard state and lets the user acknowledge alerts.

Modules, one per source file plus two that relate them:

- `Schema` (`schema.dfy`): the shared record shapes and the socket message
  union, the alert constructor, the acknowledged-flag update and the
  decimal printing used in alert messages.
- `Storage` (`storage.dfy`): the class `MemStorage`. Its two JavaScript
  `Map`s are each a Dafny `map` plus the sequence of keys in insertion order.
  The module also holds the status derivation and the seed data.
- `Routes` (`routes.dfy`): the class `Hub`, which is the socket server's
  client registry with `broadcast` and the connection handler. Each
  periodic task body is a method over the store and the hub, built on pure
  specification functions (`MotionStep`, `Detection`, `Decide`, `Created`).
- `UseWebSocket` (`use_websocket.dfy`): the browser hook as pure state
  transitions: message branches, connection flag, and optimistic
  acknowledgement with revert.
- `Sync` (`sync.dfy`): what a browser shows after the server's messages
  reach it.
- `Scenarios` (`scenarios.dfy`): the monitoring rules on the seeded fleet
  and on one overcrowded bus.

Percentages are compared by exact integer cross-multiplication. For a
positive capacity this agrees with the source's double-precision
`(p / c) * 100 > 80` (and the other thresholds) as long as the capacity
stays far below 10^15: past that, the distance to a threshold falls below
the rounding error of the double. The sign cases follow JavaScript numbers:
the comparison flips for a negative capacity, and a zero capacity gives
`Infinity` or `NaN`. `Math.round` is `(200p + c) / (2c)` for a positive
capacity, with the mirror form for a negative one.

The ranges the random draws produce are the ones the code computes, which
are not always the ones its comments give:
- the passenger delta `Math.floor(Math.random() * 10) - 5`
  (server/routes.ts:96) lies in [-5, 4];
- the speed (server/routes.ts:107) lies in [20, 49], where the comment says
  20-50 km/h;
- the person count (server/routes.ts:125) lies in [5, 19], where the comment
  says 5-20 people.

`getVehicles` lists the vehicles in the insertion order of the `Map`
(server/storage.ts:61), so the listing keeps the seed order.

The message union includes `initial_data`. The declared message type
(shared/schema.ts:72-76) leaves it out, but the connection handler sends it
(server/routes.ts:20-24).

The model shows one behaviour worth knowing. `initial_data` shows stored
alerts oldest first, but alerts raised later are put on top, newest first.
So after a reconnect the feed is not in one consistent order
(`Sync.FeedOrderAfterConnect`).

## Model

| member | source | states |
|---|---|---|
| Schema.NewAlert | server/storage.ts:93-101 | the created alert carries exactly the supplied fields, the given id and timestamp, and is unacknowledged |
| Schema.WithAcknowledged | client/src/hooks/useWebSocket.ts:70-72 | length and ids are kept; every alert with the id gets the flag; every other alert is unchanged; nothing but the flag differs |
| Schema.WithAcknowledgedIdempotent | server/storage.ts:104-110 | setting the flag twice gives the same list as setting it once |
| Schema.WithAcknowledgedMembers | client/src/hooks/useWebSocket.ts:80-82 | every element of the result either has the id and the new flag, or has another id and was already in the list |
| Schema.NatText | server/routes.ts:169 | `${n}` for a count is a non-empty digit string with no leading zero |
| Schema.IntText | server/routes.ts:188 | the text of an integer starts with a minus sign exactly when it is negative |
| Schema.NatTextRoundTrip | server/routes.ts:169 | reading the printed digits back gives the number |
| Schema.NatTextInjective | server/routes.ts:188 | different counts print differently |
| Storage.StatusFor | server/storage.ts:75-82 | for a positive capacity: critical iff 100p >= 80c, normal iff 100p < 60c (medium otherwise) |
| Storage.Merge | server/storage.ts:72 | the id is kept; a load, capacity or status in the patch wins, an absent one keeps the record's value; an empty patch changes nothing |
| Storage.StatusThresholds | server/storage.ts:75-82 | for a positive capacity: critical iff 100p >= 80c, medium iff 60c <= 100p < 80c, normal iff 100p < 60c |
| Storage.Updated | server/storage.ts:72-82 | the id is kept; the status is the one derived from the merged load; every other field is the merge of record and patch |
| Storage.UpdatedFields | server/storage.ts:72 | fields absent from the patch keep their old values; present ones come from the patch |
| Storage.SuppliedStatusIgnored | server/storage.ts:76-82 | a status supplied in the patch makes no difference to the result |
| Storage.EmptyPatchIsIdentity | server/storage.ts:68-86 | an empty patch returns a status-consistent vehicle unchanged |
| Storage.UpdatedIdempotent | server/storage.ts:68-86 | applying the same patch twice equals applying it once |
| Storage.SeedVehicles | server/storage.ts:119-186 | five vehicles, the i-th under the i-th drawn id |
| Storage.SeedVehiclesConsistent | server/storage.ts:119-190 | every seeded vehicle has a positive capacity, a load within it, and the derived status |
| Storage.PassengerSeries | server/storage.ts:194-212 | sixteen points of Route 356E, the i-th for hour 6 + i |
| Storage.MemStorage.constructor | server/storage.ts:30-39 | a new store is valid, lists the seed vehicles in order, has no alerts and holds the passenger series |
| Storage.MemStorage.InitializeVehicles | server/storage.ts:188-190 | the seed vehicles are stored under their ids, in seed order |
| Storage.MemStorage.SetVehicle | server/storage.ts:84 | `Map.set` replaces an existing entry in place and appends a new key at the end of the order |
| Storage.MemStorage.SetAlert | server/storage.ts:100 | the same `Map.set` rule for alerts |
| Storage.MemStorage.GetVehicles | server/storage.ts:60-62 | every stored vehicle exactly once, in insertion order, each under its own id |
| Storage.MemStorage.GetVehicle | server/storage.ts:64-66 | present exactly when the id is stored, and then the listed vehicle with that id; `undefined` otherwise |
| Storage.MemStorage.GetAlerts | server/storage.ts:89-91 | every stored alert exactly once, in creation order |
| Storage.MemStorage.GetPassengerData | server/storage.ts:114-116 | always the fixed sixteen-point series |
| Storage.MemStorage.UpdateVehicle | server/storage.ts:68-86 | unknown id: `undefined` and no change. Known id: returns the merged, re-derived vehicle, stores it under the id only, keeps the listing order, and `getVehicle(id)` then returns it. Alerts and passenger data are untouched |
| Storage.MemStorage.CreateAlert | server/storage.ts:93-102 | under a fresh id, stores and returns the new unacknowledged alert; the alert list grows by exactly that alert, at the end |
| Storage.MemStorage.AcknowledgeAlert | server/storage.ts:104-111 | unknown id: `undefined` and no change. Known id: returns the stored alert with the flag set and the other fields unchanged, and the alert list keeps its length and order |
| Routes.Deliver | server/routes.ts:36-43 | every socket keeps its state; an open client gets the messages appended to what it had; any other client is unchanged |
| Routes.DeliverConcat | server/routes.ts:36-43 | broadcasting a and then b leaves every client as broadcasting a + b would |
| Routes.DeliverNothing | server/routes.ts:36-43 | broadcasting nothing changes no client |
| Routes.DeliverKeepsHistory | server/routes.ts:38-41 | a broadcast never changes a socket's state or what a client already received; open clients get exactly the messages appended, others nothing |
| Routes.InitialDataStaysFirst | server/routes.ts:20-24 | a client's first message stays first whatever is broadcast afterwards |
| Routes.Hub.constructor | server/routes.ts:11 | the registry starts empty |
| Routes.Hub.Broadcast | server/routes.ts:36-43 | every open client receives the message once, at the end; every other client and every socket state is unchanged |
| Routes.Hub.Connect | server/routes.ts:13-24 | the new client joins open, and its only message is `initial_data` with the store's current vehicles and alerts |
| Routes.PassengerChange | server/routes.ts:96 | a draw in [0, 1) gives a delta in [-5, 4] |
| Routes.SpeedFor | server/routes.ts:107 | a draw in [0, 1) gives a speed in [20, 49] |
| Routes.Clamp | server/routes.ts:97-100 | the count lies in [0, capacity]; a count already in range is kept, one above the capacity becomes the capacity and a negative one becomes 0 |
| Routes.Moved | server/routes.ts:90-109 | the vehicle at position i keeps id, name and capacity and gets the clamped count for its delta draw 4i+2, the speed for its speed draw 4i+3, the tick time and the status derived from the new count |
| Routes.MotionStep | server/routes.ts:90-109 | the fleet keeps its length, and each position is moved with its own four draws 4i..4i+3 and keeps its id |
| Routes.MotionStepBounds | server/routes.ts:90-109 | each moved vehicle keeps id, name, type, route and capacity, and gets `max(0, min(capacity, old + delta))` with delta in [-5, 4]. It also gets a speed in [20, 49], the tick time and the derived status |
| Routes.MotionRunStaysInBounds | server/routes.ts:87-118 | over any number of motion ticks every passenger count stays in [0, capacity] |
| Routes.MoveVehicle | server/routes.ts:90-116 | one loop pass replaces only the listed vehicle at its position by its moved record, and broadcasts that record |
| Routes.VehicleMotionTick | server/routes.ts:87-118 | the store's listing becomes the moved listing; exactly one `vehicle_update` per vehicle is broadcast, in listing order, carrying the stored result; alerts are untouched |
| Routes.PersonCount | server/routes.ts:125 | a draw in [0, 1) gives a count in [5, 19] |
| Routes.Detection | server/routes.ts:124-139 | person count in [5, 19], exactly one box per person with position, size and confidence in their ranges, aggregate confidence in [0.85, 1), stamped with the tick time |
| Routes.CrowdDetectionTick | server/routes.ts:124-145 | the snapshot is broadcast and nothing else changes |
| Routes.RecentAlerts | server/routes.ts:159-161 | an alert is in the filtered list iff it is in the store and is an unacknowledged alert of the vehicle in the rule's scope |
| Routes.RoundedPercent | server/routes.ts:169 | the result is within half a unit of 100p/c, rounding halves up |
| Routes.PercentTextReadsBack | server/routes.ts:169 | a positive capacity and a non-negative count print as digits that read back as the rounded percentage; a positive count over zero prints `Infinity` |
| Routes.LoadTextLayout | server/routes.ts:169 | the load text is the printed count, then `/`, the printed capacity, ` passengers (`, the printed percentage and `%)` |
| Routes.MessageLayout | server/routes.ts:169-188 | the overcrowding message is `Critical overcrowding detected: ` followed by the load text, the capacity message is `Moderate crowd level: ` followed by the load text, and both end in `%)` |
| Routes.MessagesDiffer | server/routes.ts:169-188 | the two rules never produce the same text for the same load |
| Routes.Decide | server/routes.ts:154-196 | a decided alert belongs to the vehicle being checked, under its name |
| Routes.DecideRules | server/routes.ts:157-196 | rule 1 fires iff over 80%, critical and no unacknowledged alert of any severity. Otherwise rule 2 fires iff over 60%, medium and no unacknowledged medium alert. Neither condition met: nothing |
| Routes.ConditionsForConsistentVehicle | server/routes.ts:157-177 | for a status-consistent vehicle, rule 1's condition is 100p > 80c and rule 2's is 60c < 100p < 80c |
| Routes.ExactThresholdsRaiseNothing | server/routes.ts:157-177 | a vehicle at exactly 80% (critical) or exactly 60% (medium) gets no alert |
| Routes.MediumAlertBlocksOvercrowding | server/routes.ts:159-163 | an unacknowledged medium alert of the vehicle suppresses rule 1 |
| Routes.HighAlertDoesNotBlockCapacity | server/routes.ts:178-182 | unacknowledged high alerts do not suppress rule 2 |
| Routes.DecideMonotone | server/routes.ts:159-182 | adding alerts never turns "no alert" into an alert |
| Routes.OwnAlertBlocks | server/routes.ts:163-175 | the alert the monitor creates suppresses the next one for the same vehicle |
| Routes.AcknowledgementReopens | server/routes.ts:159-164 | once that alert is acknowledged, the same alert fields are decided again |
| Routes.Created | server/routes.ts:150-198 | a tick creates at most one alert per listed vehicle |
| Routes.MonitorStep | server/routes.ts:157-195 | at most one alert for one vehicle |
| Routes.CreatedOrigins | server/routes.ts:164-170 | every created alert is unacknowledged and stamped with the tick time, and is the alert of some listed vehicle under that vehicle's drawn id |
| Routes.CreatedStep | server/routes.ts:153 | the alerts for the first i + 1 vehicles are those for the first i plus that vehicle's decision, taken against the store at that point |
| Routes.CreatedPrefix | server/routes.ts:153-197 | alerts created for a prefix of the listing are a prefix of the tick's alerts |
| Routes.AtMostOnePerVehicle | server/routes.ts:153-196 | with distinct vehicle ids, no two alerts of one tick share a vehicle |
| Routes.StepSuppresses | server/routes.ts:163-175 | after its own monitor step a vehicle has no alert due |
| Routes.TickSuppressesEachVehicle | server/routes.ts:153-196 | after a tick no listed vehicle has an alert due |
| Routes.RepeatedTickCreatesNothing | server/routes.ts:150-198 | a second tick on unchanged vehicles, with nothing acknowledged in between, creates nothing |
| Routes.AlertMessages | server/routes.ts:172-175 | one `alert` message per created alert, in order |
| Routes.AlertMessagesConcat | server/routes.ts:172-194 | the messages for two runs of alerts are the messages of each, in order |
| Routes.MonitorVehicle | server/routes.ts:154-195 | one loop pass appends the vehicle's decided alert, if any, to the store under the drawn id, and broadcasts exactly it |
| Routes.AlertMonitorTick | server/routes.ts:150-198 | the store's alerts grow by exactly the tick's created alerts, in order; each is broadcast once, in creation order; vehicles are untouched |
| UseWebSocket.Initial | client/src/hooks/useWebSocket.ts:5-8 | the hook starts disconnected, with empty lists and no snapshot |
| UseWebSocket.FindIndex | client/src/hooks/useWebSocket.ts:34 | the first position holding the id, or -1 exactly when no position does |
| UseWebSocket.UpsertVehicle | client/src/hooks/useWebSocket.ts:33-41 | an unseen id is appended at the end; otherwise the first matching element is replaced and nothing else changes |
| UseWebSocket.OnMessage | client/src/hooks/useWebSocket.ts:24-51 | no message changes the connection flag |
| UseWebSocket.OnOpen | client/src/hooks/useWebSocket.ts:19-22 | connected afterwards, nothing else changed |
| UseWebSocket.OnClose | client/src/hooks/useWebSocket.ts:53-56 | disconnected afterwards, nothing else changed |
| UseWebSocket.OnError | client/src/hooks/useWebSocket.ts:58-61 | disconnected afterwards, nothing else changed |
| UseWebSocket.LastLifecycleIndex | client/src/hooks/useWebSocket.ts:19-61 | the position of the last open, close or error event, every later event being a message; -1 exactly when every event is a message |
| UseWebSocket.LastLifecycle | client/src/hooks/useWebSocket.ts:19-61 | an open, close or error event of the run followed only by messages; none exactly when every event is a message |
| UseWebSocket.ConnectedFollowsLastLifecycle | client/src/hooks/useWebSocket.ts:19-61 | after any run of events the flag is true iff the last lifecycle event was an open, and unchanged if there was none |
| UseWebSocket.InitialDataReplaces | client/src/hooks/useWebSocket.ts:28-30 | both lists are replaced independently of what was shown; a missing list shows as empty; the snapshot is kept |
| UseWebSocket.AlertIsPrepended | client/src/hooks/useWebSocket.ts:42-44 | the new alert goes first, the old feed follows unchanged, vehicles and snapshot are kept |
| UseWebSocket.CrowdUpdateReplacesSnapshot | client/src/hooks/useWebSocket.ts:45-46 | a `crowd_detection` message replaces the snapshot and nothing else |
| UseWebSocket.IgnoredFramesChangeNothing | client/src/hooks/useWebSocket.ts:24-50 | a parse failure, an unknown type and `analytics_update` leave the whole state unchanged |
| UseWebSocket.UpsertKeepsIdsDistinct | client/src/hooks/useWebSocket.ts:33-41 | with distinct shown ids: ids stay distinct, the update is shown under its id, and other vehicles are kept and nothing new is shown |
| UseWebSocket.UpsertIdempotent | client/src/hooks/useWebSocket.ts:33-41 | receiving the same update twice shows the same list as receiving it once |
| UseWebSocket.OptimisticAcknowledge | client/src/hooks/useWebSocket.ts:70-72 | every shown alert with the id is acknowledged; only the feed changes |
| UseWebSocket.RevertAcknowledge | client/src/hooks/useWebSocket.ts:80-82 | every shown alert with the id is unacknowledged; only the feed changes |
| UseWebSocket.AcknowledgeAlert | client/src/hooks/useWebSocket.ts:68-84 | after a network failure no shown alert with the id is acknowledged; with nothing arriving in flight, only the feed changes, to every matching alert acknowledged on a response and unacknowledged on a failure |
| UseWebSocket.FailedAcknowledgeRestores | client/src/hooks/useWebSocket.ts:68-84 | with nothing in between, a failed acknowledgement of an unacknowledged alert restores the state |
| UseWebSocket.FailedAcknowledgeClearsEarlierFlag | client/src/hooks/useWebSocket.ts:78-82 | a failed request leaves an alert that was already acknowledged unacknowledged |
| UseWebSocket.DeliveredAcknowledgeMarks | client/src/hooks/useWebSocket.ts:68-76 | a delivered request keeps every matching alert acknowledged and changes nothing else |
| UseWebSocket.AlertArrivingInFlight | client/src/hooks/useWebSocket.ts:68-84 | an alert arriving during the request escapes the optimistic update but is reached by the revert |
| Routes.VehicleUpdates | server/routes.ts:111-116 | one `vehicle_update` per vehicle, carrying that vehicle, in listing order |
| Sync.UpsertAtPosition | client/src/hooks/useWebSocket.ts:33-39 | when replacing the list position by position, the update for position k replaces exactly position k |
| Sync.MotionUpdatesTrackServer | client/src/hooks/useWebSocket.ts:31-41 | a client showing the server's listing shows the moved listing, in server order, after the tick's updates |
| Sync.ConnectThenTick | server/routes.ts:17-24 | after `initial_data` and one motion tick, a client shows the server's moved listing and the stored alerts, whatever it showed before |
| Sync.VehicleMessagesKeepAlerts | client/src/hooks/useWebSocket.ts:31-41 | vehicle updates leave the feed, the snapshot and the flag unchanged |
| Sync.AlertsArriveNewestFirst | client/src/hooks/useWebSocket.ts:42-44 | alerts broadcast in creation order end up newest first, above the earlier feed |
| Sync.FeedOrderAfterConnect | client/src/hooks/useWebSocket.ts:28-44 | after a connect, the feed is the later alerts newest first, followed by the stored alerts oldest first |
| Scenarios.LoadTextFor50Of60 | server/routes.ts:169 | 50 passengers of 60 print as `50/60 passengers (83%)` |
| Scenarios.OvercrowdingMessageText | server/routes.ts:169 | the overcrowding alert for 50 of 60 reads `Critical overcrowding detected: 50/60 passengers (83%)` |
| Scenarios.SeedMessageNumbers | server/routes.ts:169-188 | the seeded alerts print 45/60 (75%), 150/180 (83%) and 120/180 (67%) |
| Scenarios.SeedDecisions | server/routes.ts:153-196 | on the seeded fleet the first tick gives: a capacity alert for Bus MH-01, nothing for Bus MH-02, an overcrowding alert for Metro M1, nothing for Bus MH-03, and a capacity alert for Metro M2 |
| Scenarios.OvercrowdingLifecycle | server/routes.ts:150-198 | a bus at 50/60 gets one high alert (83%), none on the next tick, and the same alert again after acknowledgement |

## Left out

- Timers: `setInterval` is not modelled. Each periodic task body is one method, run atomically when called, which matches the single event loop.
- Randomness, ids and clocks:
  - `Math.random()` is a draw stream in [0, 1), read in the source's order;
  - `randomUUID()` is a caller-supplied fresh, distinct id;
  - `new Date().toISOString()` is a string parameter.
- Floating point: coordinates, box geometry and confidences are exact reals. Rounding error in the random walk, and JavaScript number formatting of non-integer values, are not modelled.
- Routes.RoundedPercent: rounds the exact ratio `100p / c`. The source rounds the double-precision value of `(p / c) * 100`, which can fall just below a half-way point. For 23 of 40 that value is 57.49999999999999, so the source prints 57 where the model prints 58.
- Routes.VehicleMotionTick: one `now` stands for the whole tick, while the source reads the clock once per vehicle.
- Routes.AlertMonitorTick: one `now` stands for the whole tick, while the source reads the clock once per created alert (server/storage.ts:97).
- Storage.SeedVehicles: one `now` stands for the whole seed list, while the source reads the clock once per seeded vehicle (server/storage.ts:132-184).
- Storage.PercentAtLeast and Storage.PercentAbove: exact cross-multiplication; for capacities near 10^15 and above, the double-precision comparison in the source can differ, and past 2^53 the counts themselves are not exact.
- Routes.AlertMonitorTick: one id is drawn per listed vehicle; only the ids of vehicles that get an alert are consumed, while the source draws one only when it creates an alert.
- Storage.VehiclePatch has no `id` field. The source's spread would let a patch rewrite the record's id while the map key stays, but no caller passes one.
- Serialisation: `JSON.stringify` and `JSON.parse` are not modelled. A received frame is either unparsable, of an unrecognised type, or a parsed message.
- Transport:
  - sockets are values with a ready state;
  - the `ws` library's state changes are left out, and so is the removal of closed clients from `wss.clients`;
  - the `close` and `error` handlers on the server side only log;
  - the hook closes its socket on unmount.
- The acknowledgement request: the HTTP call is reduced to its outcome (a response, or a network failure). The server side is `Storage.MemStorage.AcknowledgeAlert`.
- HTTP handlers: the Express routes map `undefined` to a 404 and are not modelled.
- User methods: the user methods and database tables are not used by the engine.
- Logging: `console` output is not modelled.
- Rendering: the UI components and pages are not modelled.
