/**
  The server's real-time engine: the subscriber registry with its broadcast
  fan-out and connection handler, and the bodies of the three periodic
  tasks (vehicle motion, crowd detection, alert monitoring).

  Each periodic task is one method run atomically; the timer that repeats it
  is not modelled. `Math.random()` is a stream `rand` of reals in [0, 1),
  read in the order the source draws them; `randomUUID()` is a sequence of
  caller-supplied fresh ids; `new Date().toISOString()` is a parameter `now`.
*/
module Routes {
  import opened Schema
  import opened Storage

  /** `rand` stands for successive results of `Math.random()`. */
  ghost predicate UniformStream(rand: nat -> real) {
    forall n: nat :: 0.0 <= rand(n) < 1.0
  }

  // ---------------------------------------------------------------------------
  // Subscribers and broadcast
  // ---------------------------------------------------------------------------

  /** The `readyState` of a socket. */
  datatype ReadyState = Connecting | Open | Closing | Closed

  /** One connected client: its transport state and every message it has
      been sent so far. */
  datatype Subscriber = Subscriber(readyState: ReadyState, received: seq<Message>)

  /** What `client.send` leaves behind for one client: the messages are
      appended only when the socket is open. */
  function DeliverTo(s: Subscriber, ms: seq<Message>): Subscriber {
    if s.readyState == Open then s.(received := s.received + ms) else s
  }

  /** The registry after `ms` have been broadcast, one after the other. */
  function Deliver(subs: seq<Subscriber>, ms: seq<Message>): (r: seq<Subscriber>)
    ensures |r| == |subs|
    ensures forall i :: 0 <= i < |r| ==> r[i].readyState == subs[i].readyState
    ensures forall i :: 0 <= i < |r| && subs[i].readyState == Open ==> r[i].received == subs[i].received + ms
    ensures forall i :: 0 <= i < |r| && subs[i].readyState != Open ==> r[i] == subs[i]
  {
    seq(|subs|, i requires 0 <= i < |subs| => DeliverTo(subs[i], ms))
  }

  /** Broadcasting `a` and then `b` is broadcasting `a + b`. */
  lemma DeliverConcat(subs: seq<Subscriber>, a: seq<Message>, b: seq<Message>)
    ensures Deliver(Deliver(subs, a), b) == Deliver(subs, a + b)
  {
    forall i | 0 <= i < |subs|
      ensures Deliver(Deliver(subs, a), b)[i] == Deliver(subs, a + b)[i]
    {
      assert subs[i].received + a + b == subs[i].received + (a + b);
    }
  }

  /** Broadcasting nothing changes nothing. */
  lemma DeliverNothing(subs: seq<Subscriber>)
    ensures Deliver(subs, []) == subs
  {
    forall i | 0 <= i < |subs| ensures Deliver(subs, [])[i] == subs[i] {
      assert subs[i].received + [] == subs[i].received;
    }
  }

  /** Broadcasting never changes a socket's state and never rewrites what a
      client has already received: an open client gets exactly `ms`
      appended, any other client gets nothing. */
  lemma DeliverKeepsHistory(subs: seq<Subscriber>, ms: seq<Message>, i: nat)
    requires i < |subs|
    ensures Deliver(subs, ms)[i].readyState == subs[i].readyState
    ensures Deliver(subs, ms)[i].received[..|subs[i].received|] == subs[i].received
    ensures subs[i].readyState == Open ==> Deliver(subs, ms)[i].received == subs[i].received + ms
    ensures subs[i].readyState != Open ==> Deliver(subs, ms)[i].received == subs[i].received
  {
    var r := Deliver(subs, ms)[i].received;
    if subs[i].readyState == Open {
      assert r == subs[i].received + ms;
      assert r[..|subs[i].received|] == subs[i].received;
    } else {
      assert r == subs[i].received;
    }
  }

  /** The first message a connected client receives is `initial_data`, and
      it stays first whatever is broadcast afterwards. */
  lemma InitialDataStaysFirst(subs: seq<Subscriber>, ms: seq<Message>, i: nat, first: Message)
    requires i < |subs| && |subs[i].received| > 0 && subs[i].received[0] == first
    ensures |Deliver(subs, ms)[i].received| > 0 && Deliver(subs, ms)[i].received[0] == first
  {
    DeliverKeepsHistory(subs, ms, i);
    assert Deliver(subs, ms)[i].received[..|subs[i].received|][0] == first;
  }

  /** The set `wss.clients` of the socket server, with `broadcast` and the
      connection handler. */
  class Hub {
    var clients: seq<Subscriber>

    constructor ()
      ensures clients == []
    {
      clients := [];
    }

    /** Sends the one serialised `message` to every open client and skips
        every other client. */
    method Broadcast(message: Message)
      modifies this
      ensures clients == Deliver(old(clients), [message])
      ensures forall i :: 0 <= i < |clients| ==>
        && clients[i].readyState == old(clients)[i].readyState
        && clients[i].received ==
             if old(clients)[i].readyState == Open then old(clients)[i].received + [message]
             else old(clients)[i].received
    {
      var i := 0;
      while i < |clients|
        invariant 0 <= i <= |clients| == |old(clients)|
        invariant forall k :: 0 <= k < i ==> clients[k] == DeliverTo(old(clients)[k], [message])
        invariant forall k :: i <= k < |clients| ==> clients[k] == old(clients)[k]
      {
        if clients[i].readyState == Open {
          clients := clients[i := clients[i].(received := clients[i].received + [message])];
        }
        i := i + 1;
      }
    }

    /** A client connects: it joins the registry, open, and its first and
        only message so far is `initial_data` with the store's current
        vehicles and alerts. */
    method Connect(store: MemStorage) returns (m: Message)
      requires store.Valid()
      modifies this
      ensures m == InitialData(Some(store.GetVehicles()), Some(store.GetAlerts()))
      ensures clients == old(clients) + [Subscriber(Open, [m])]
    {
      m := InitialData(Some(store.GetVehicles()), Some(store.GetAlerts()));
      clients := clients + [Subscriber(Open, [m])];
    }
  }

  // ---------------------------------------------------------------------------
  // Vehicle motion
  // ---------------------------------------------------------------------------

  /** `Math.floor(Math.random() * 10) - 5`. */
  function PassengerChange(u: real): (d: int)
    ensures 0.0 <= u < 1.0 ==> -5 <= d <= 4
  {
    (u * 10.0).Floor - 5
  }

  /** `Math.floor(Math.random() * 30) + 20`. */
  function SpeedFor(u: real): (s: int)
    ensures 0.0 <= u < 1.0 ==> 20 <= s <= 49
  {
    (u * 30.0).Floor + 20
  }

  /** `Math.max(0, Math.min(capacity, x))`. */
  function Clamp(capacity: int, x: int): (r: int)
    ensures capacity >= 0 ==> 0 <= r <= capacity
    ensures 0 <= x <= capacity ==> r == x
    ensures capacity >= 0 && x > capacity ==> r == capacity
    ensures capacity >= 0 && x < 0 ==> r == 0
  {
    var low := if capacity < x then capacity else x;
    if 0 < low then low else 0
  }

  /** The partial record the motion task passes to `updateVehicle` for the
      vehicle at position `i`, which uses draws `4i` to `4i + 3`. */
  function MotionPatch(v: Vehicle, rand: nat -> real, i: nat, now: string): VehiclePatch {
    var latChange := (rand(4 * i) - 0.5) * 0.002;
    var lonChange := (rand(4 * i + 1) - 0.5) * 0.002;
    var count := Clamp(v.capacity, v.passengerCount + PassengerChange(rand(4 * i + 2)));
    NoChanges.(
      latitude := Some(v.latitude + latChange),
      longitude := Some(v.longitude + lonChange),
      passengerCount := Some(count),
      speed := Some(SpeedFor(rand(4 * i + 3))),
      lastUpdated := Some(now))
  }

  /** The vehicle `updateVehicle` returns for that patch: identity, name
      and capacity kept, the clamped count for the delta draw, the speed for
      the speed draw, the tick time and the derived status. */
  function Moved(v: Vehicle, rand: nat -> real, i: nat, now: string): (r: Vehicle)
    ensures r.id == v.id && r.name == v.name && r.capacity == v.capacity
    ensures r.passengerCount == Clamp(v.capacity, v.passengerCount + PassengerChange(rand(4 * i + 2)))
    ensures r.speed == SpeedFor(rand(4 * i + 3))
    ensures r.lastUpdated == now
    ensures r.status == StatusFor(r.passengerCount, r.capacity)
  {
    Updated(v, MotionPatch(v, rand, i, now))
  }

  /** The vehicle list after one motion tick: the vehicle at position `i` is
      moved with its own four draws, `4i` to `4i + 3`, and keeps its id. */
  function MotionStep(vs: seq<Vehicle>, rand: nat -> real, now: string): (r: seq<Vehicle>)
    ensures |r| == |vs|
    ensures forall i :: 0 <= i < |r| ==> r[i] == Moved(vs[i], rand, i, now) && r[i].id == vs[i].id
  {
    seq(|vs|, i requires 0 <= i < |vs| => Moved(vs[i], rand, i, now))
  }

  /** One motion tick moves each vehicle by a passenger delta in [-5, 4],
      clamps the count into [0, capacity], picks a speed in [20, 49],
      re-derives the status and leaves identity, name, type, route and
      capacity alone. */
  lemma MotionStepBounds(vs: seq<Vehicle>, rand: nat -> real, now: string, i: nat)
    requires UniformStream(rand)
    requires i < |vs| && vs[i].capacity >= 0
    ensures var w, r := vs[i], MotionStep(vs, rand, now)[i];
      && r.id == w.id && r.name == w.name && r.vehicleType == w.vehicleType
      && r.route == w.route && r.capacity == w.capacity
      && 0 <= r.passengerCount <= r.capacity
      && -5 <= PassengerChange(rand(4 * i + 2)) <= 4
      && r.passengerCount == Clamp(w.capacity, w.passengerCount + PassengerChange(rand(4 * i + 2)))
      && 20 <= r.speed <= 49
      && r.lastUpdated == now
      && r.status == StatusFor(r.passengerCount, r.capacity)
  {
    assert 0.0 <= rand(4 * i + 2) < 1.0 && 0.0 <= rand(4 * i + 3) < 1.0;
  }

  /** The vehicle list after a run of motion ticks, one draw stream and one
      clock reading per tick. */
  function MotionRun(vs: seq<Vehicle>, rands: seq<nat -> real>, nows: seq<string>): (r: seq<Vehicle>)
    requires |rands| == |nows|
    ensures |r| == |vs|
    decreases |rands|
  {
    if rands == [] then vs
    else MotionRun(MotionStep(vs, rands[0], nows[0]), rands[1..], nows[1..])
  }

  /** However many ticks run, and however many negative deltas they draw,
      every passenger count stays within [0, capacity]. */
  lemma {:induction false} MotionRunStaysInBounds(vs: seq<Vehicle>, rands: seq<nat -> real>, nows: seq<string>, i: nat)
    requires |rands| == |nows| && |rands| > 0
    requires forall k :: 0 <= k < |rands| ==> UniformStream(rands[k])
    requires i < |vs| && vs[i].capacity >= 0
    ensures MotionRun(vs, rands, nows)[i].capacity == vs[i].capacity
    ensures 0 <= MotionRun(vs, rands, nows)[i].passengerCount <= vs[i].capacity
    decreases |rands|
  {
    var next := MotionStep(vs, rands[0], nows[0]);
    MotionStepBounds(vs, rands[0], nows[0], i);
    if |rands| > 1 {
      MotionRunStaysInBounds(next, rands[1..], nows[1..], i);
    }
  }

  /** One pass of the motion task's loop, for the vehicle at position `i` of
      the listing `vs` read at the start of the tick, when the first `i`
      vehicles have already been moved: the update through `updateVehicle`
      and, when a record comes back, its broadcast. A listed vehicle always
      comes back. */
  method MoveVehicle(store: MemStorage, hub: Hub, vs: seq<Vehicle>, i: nat, rand: nat -> real, now: string)
    returns (sent: seq<Message>)
    requires store.Valid() && i < |vs|
    requires store.GetVehicles() == MotionStep(vs, rand, now)[..i] + vs[i..]
    modifies store, hub
    ensures store.Valid()
    ensures store.vehicleOrder == old(store.vehicleOrder)
    ensures store.alerts == old(store.alerts) && store.alertOrder == old(store.alertOrder)
    ensures store.GetVehicles() == MotionStep(vs, rand, now)[..i + 1] + vs[i + 1..]
    ensures sent == [VehicleUpdate(MotionStep(vs, rand, now)[i])]
    ensures hub.clients == Deliver(old(hub.clients), sent)
  {
    ghost var target := MotionStep(vs, rand, now);
    ReplaceNext(target, vs, i);
    var v := vs[i];
    assert store.GetVehicles()[i] == v;
    assert store.vehicles[v.id] == v;
    var updated := store.UpdateVehicle(v.id, MotionPatch(v, rand, i, now));
    forall k | 0 <= k < |store.vehicleOrder|
      ensures store.vehicleOrder[k] == v.id <==> k == i
    {
    }
    assert store.GetVehicles() == old(store.GetVehicles())[i := target[i]];
    if updated.Some? {
      hub.Broadcast(VehicleUpdate(updated.value));
      sent := [VehicleUpdate(updated.value)];
    } else {
      sent := [];
    }
  }

  /** Replacing the next position of a part-way list by its target value
      advances the list by one position. */
  lemma ReplaceNext<T>(target: seq<T>, vs: seq<T>, i: nat)
    requires |target| == |vs| && i < |vs|
    ensures (target[..i] + vs[i..])[i] == vs[i]
    ensures (target[..i] + vs[i..])[i := target[i]] == target[..i + 1] + vs[i + 1..]
  {
    var cur := target[..i] + vs[i..];
    assert cur[i := target[i]] == target[..i + 1] + vs[i + 1..];
  }

  /** One `vehicle_update` message per vehicle of `vs`, in order. */
  function VehicleUpdates(vs: seq<Vehicle>): (ms: seq<Message>)
    ensures |ms| == |vs|
    ensures forall k :: 0 <= k < |ms| ==> ms[k] == VehicleUpdate(vs[k])
  {
    seq(|vs|, k requires 0 <= k < |vs| => VehicleUpdate(vs[k]))
  }

  lemma VehicleUpdatesStep(vs: seq<Vehicle>, i: nat)
    requires i < |vs|
    ensures VehicleUpdates(vs[..i + 1]) == VehicleUpdates(vs[..i]) + [VehicleUpdate(vs[i])]
  {
  }

  /** The motion task: every vehicle, in listing order, is written back
      through `updateVehicle` and the returned value is broadcast. */
  method VehicleMotionTick(store: MemStorage, hub: Hub, rand: nat -> real, now: string)
    returns (sent: seq<Message>)
    requires store.Valid()
    modifies store, hub
    ensures store.Valid()
    ensures store.vehicleOrder == old(store.vehicleOrder)
    ensures store.GetVehicles() == MotionStep(old(store.GetVehicles()), rand, now)
    ensures store.alerts == old(store.alerts) && store.alertOrder == old(store.alertOrder)
    ensures sent == VehicleUpdates(store.GetVehicles())
    ensures hub.clients == Deliver(old(hub.clients), sent)
  {
    var vs := store.GetVehicles();
    ghost var target := MotionStep(vs, rand, now);
    sent := [];
    assert target[..0] == [];
    DeliverNothing(hub.clients);
    var i := 0;
    while i < |vs|
      invariant 0 <= i <= |vs|
      invariant store.Valid()
      invariant store.vehicleOrder == old(store.vehicleOrder)
      invariant store.alerts == old(store.alerts) && store.alertOrder == old(store.alertOrder)
      invariant store.GetVehicles() == target[..i] + vs[i..]
      invariant sent == VehicleUpdates(target[..i])
      invariant hub.clients == Deliver(old(hub.clients), sent)
    {
      var step := MoveVehicle(store, hub, vs, i, rand, now);
      VehicleUpdatesStep(target, i);
      DeliverConcat(old(hub.clients), sent, step);
      sent := sent + step;
      i := i + 1;
    }
    assert target[..i] + vs[i..] == target && target[..i] == target;
  }

  // ---------------------------------------------------------------------------
  // Crowd detection
  // ---------------------------------------------------------------------------

  /** `Math.floor(Math.random() * 15) + 5`. */
  function PersonCount(u: real): (n: int)
    ensures 0.0 <= u < 1.0 ==> 5 <= n <= 19
  {
    (u * 15.0).Floor + 5
  }

  /** The box for person `i`, from draws `1 + 5i` to `5 + 5i`. */
  function Box(rand: nat -> real, i: nat): BoundingBox {
    BoundingBox(
      rand(1 + 5 * i) * 600.0,
      rand(2 + 5 * i) * 400.0,
      40.0 + rand(3 + 5 * i) * 40.0,
      80.0 + rand(4 + 5 * i) * 80.0,
      0.7 + rand(5 + 5 * i) * 0.3)
  }

  /** The snapshot one detection tick produces: a person count, exactly one
      bounding box per person, each with a confidence in [0.7, 1), and an
      aggregate confidence in [0.85, 1). */
  function Detection(rand: nat -> real, now: string): (d: CrowdDetection)
    requires UniformStream(rand)
    ensures 5 <= d.personCount <= 19
    ensures |d.boundingBoxes| == d.personCount
    ensures forall i :: 0 <= i < |d.boundingBoxes| ==>
      && 0.0 <= d.boundingBoxes[i].x < 600.0
      && 0.0 <= d.boundingBoxes[i].y < 400.0
      && 40.0 <= d.boundingBoxes[i].width < 80.0
      && 80.0 <= d.boundingBoxes[i].height < 160.0
      && 0.7 <= d.boundingBoxes[i].confidence < 1.0
    ensures 0.85 <= d.confidence < 1.0
    ensures d.timestamp == now
  {
    var n := PersonCount(rand(0));
    assert 0.0 <= rand(0) < 1.0;
    assert 0.0 <= rand(1 + 5 * n) < 1.0;
    var boxes := seq(n, i requires 0 <= i < n => Box(rand, i));
    assert forall i :: 0 <= i < n ==>
      0.0 <= rand(1 + 5 * i) < 1.0 && 0.0 <= rand(2 + 5 * i) < 1.0 && 0.0 <= rand(3 + 5 * i) < 1.0
      && 0.0 <= rand(4 + 5 * i) < 1.0 && 0.0 <= rand(5 + 5 * i) < 1.0;
    CrowdDetection(n, now, boxes, 0.85 + rand(1 + 5 * n) * 0.15)
  }

  /** The detection task: builds a snapshot and broadcasts it; it touches no
      store state. */
  method CrowdDetectionTick(hub: Hub, rand: nat -> real, now: string) returns (d: CrowdDetection)
    requires UniformStream(rand)
    modifies hub
    ensures d == Detection(rand, now)
    ensures hub.clients == Deliver(old(hub.clients), [CrowdUpdate(d)])
  {
    d := Detection(rand, now);
    hub.Broadcast(CrowdUpdate(d));
  }

  // ---------------------------------------------------------------------------
  // Alert monitoring
  // ---------------------------------------------------------------------------

  /** Which existing alerts suppress a new one: rule 1 looks at every
      unacknowledged alert of the vehicle, rule 2 only at its unacknowledged
      medium ones. */
  datatype Scope = AnySeverity | OnlySeverity(severity: Severity)

  predicate InScope(a: Alert, vehicleId: string, scope: Scope) {
    && a.vehicleId == vehicleId
    && !a.acknowledged
    && (scope.OnlySeverity? ==> a.severity == scope.severity)
  }

  /** The `filter` over `getAlerts()` that looks for a recent alert. */
  function RecentAlerts(alerts: seq<Alert>, vehicleId: string, scope: Scope): (r: seq<Alert>)
    ensures |r| <= |alerts|
    ensures forall a :: a in r <==> a in alerts && InScope(a, vehicleId, scope)
  {
    if alerts == [] then []
    else
      var rest := RecentAlerts(alerts[1..], vehicleId, scope);
      if InScope(alerts[0], vehicleId, scope) then [alerts[0]] + rest else rest
  }

  /** Some alert in `alerts` suppresses a new one for `vehicleId`. */
  ghost predicate Blocked(alerts: seq<Alert>, vehicleId: string, scope: Scope) {
    exists a :: a in alerts && InScope(a, vehicleId, scope)
  }

  /** Rule 1's condition: above 80% and marked critical. */
  predicate OvercrowdingCondition(v: Vehicle) {
    PercentAbove(v.passengerCount, v.capacity, 80) && v.status == Critical
  }

  /** Rule 2's condition: above 60% and marked medium. */
  predicate CapacityCondition(v: Vehicle) {
    PercentAbove(v.passengerCount, v.capacity, 60) && v.status == Status.Medium
  }

  /** `Math.round((p / c) * 100)` for a non-zero capacity. */
  function RoundedPercent(p: int, c: int): (r: int)
    requires c != 0
    ensures c > 0 ==> 2 * r * c - c <= 200 * p < 2 * r * c + c
    ensures c < 0 ==> 2 * r * c + c < 200 * p <= 2 * r * c - c
  {
    if c > 0 then (200 * p + c) / (2 * c) else (-200 * p - c) / (-2 * c)
  }

  /** `${Math.round(capacityPercent)}`, including the non-finite cases of a
      zero capacity. For a load within a positive capacity it is the digits
      of the rounded percentage, which read back as that number. */
  function PercentText(p: int, c: int): string {
    if c != 0 then IntText(RoundedPercent(p, c))
    else if p > 0 then "Infinity"
    else if p < 0 then "-Infinity"
    else "NaN"
  }

  /** For a load within a positive capacity the percentage prints as the
      digits of the rounded percentage, which read back as that number; a
      positive count over a zero capacity prints `Infinity`. */
  lemma PercentTextReadsBack(p: int, c: int)
    ensures |PercentText(p, c)| >= 1
    ensures c > 0 && p >= 0 ==>
      && (forall i :: 0 <= i < |PercentText(p, c)| ==> '0' <= PercentText(p, c)[i] <= '9')
      && ParseNat(PercentText(p, c)) == RoundedPercent(p, c)
    ensures c == 0 && p > 0 ==> PercentText(p, c) == "Infinity"
  {
    if c > 0 && p >= 0 {
      NatTextRoundTrip(RoundedPercent(p, c));
    }
  }

  const OvercrowdingPrefix := "Critical overcrowding detected: "
  const CapacityPrefix := "Moderate crowd level: "

  /** The text after the prefix: `p/c passengers (R%)`. */
  function LoadText(p: int, c: int): string {
    IntText(p) + LoadRest(p, c)
  }

  /** The part of the load text after the count. */
  function LoadRest(p: int, c: int): string {
    "/" + IntText(c) + " passengers (" + PercentText(p, c) + "%)"
  }

  /** A concatenation starts with its left part and continues with its
      right part. */
  lemma ConcatParts<T>(a: seq<T>, b: seq<T>)
    ensures a <= a + b
    ensures (a + b)[|a|..] == b
  {
    assert (a + b)[..|a|] == a;
  }

  /** The last `n` elements of a concatenation come from its right part. */
  lemma ConcatSuffix<T>(a: seq<T>, b: seq<T>, n: nat)
    requires n <= |b|
    ensures (a + b)[|a + b| - n..] == b[|b| - n..]
  {
  }

  /** The load text is the count, then a slash, the capacity and the
      rounded percentage as `PercentText` prints it, closed by `%)`. */
  lemma LoadTextLayout(p: int, c: int)
    ensures IntText(p) <= LoadText(p, c)
    ensures LoadText(p, c)[|IntText(p)|..] == "/" + IntText(c) + " passengers (" + PercentText(p, c) + "%)"
    ensures |LoadText(p, c)| >= 2 && LoadText(p, c)[|LoadText(p, c)| - 2..] == "%)"
  {
    var rest := LoadRest(p, c);
    ConcatParts(IntText(p), rest);
    ConcatSuffix("/" + IntText(c) + " passengers (" + PercentText(p, c), "%)", 2);
    ConcatSuffix(IntText(p), rest, 2);
  }

  /** Rule 1's message: its fixed prefix, then the load text. */
  function OvercrowdingMessage(p: int, c: int): string {
    OvercrowdingPrefix + LoadText(p, c)
  }

  /** Rule 2's message, with its own prefix and the same load text. */
  function CapacityMessage(p: int, c: int): string {
    CapacityPrefix + LoadText(p, c)
  }

  /** Each message is its rule's prefix followed by the load text, and ends
      with `%)`. */
  lemma MessageLayout(p: int, c: int)
    ensures OvercrowdingPrefix <= OvercrowdingMessage(p, c)
    ensures OvercrowdingMessage(p, c)[|OvercrowdingPrefix|..] == LoadText(p, c)
    ensures CapacityPrefix <= CapacityMessage(p, c)
    ensures CapacityMessage(p, c)[|CapacityPrefix|..] == LoadText(p, c)
    ensures |OvercrowdingMessage(p, c)| >= 2 && OvercrowdingMessage(p, c)[|OvercrowdingMessage(p, c)| - 2..] == "%)"
    ensures |CapacityMessage(p, c)| >= 2 && CapacityMessage(p, c)[|CapacityMessage(p, c)| - 2..] == "%)"
  {
    LoadTextLayout(p, c);
    var load := LoadText(p, c);
    ConcatParts(OvercrowdingPrefix, load);
    ConcatParts(CapacityPrefix, load);
    ConcatSuffix(OvercrowdingPrefix, load, 2);
    ConcatSuffix(CapacityPrefix, load, 2);
  }

  /** The two rules never raise the same text for one load: the messages
      differ in their first letter. */
  lemma MessagesDiffer(p: int, c: int)
    ensures OvercrowdingMessage(p, c) != CapacityMessage(p, c)
  {
    assert OvercrowdingMessage(p, c)[0] != CapacityMessage(p, c)[0];
  }

  /** The fields of a rule 1 alert for `v`. */
  function OvercrowdingAlert(v: Vehicle): AlertFields {
    AlertFields(v.id, v.name, Overcrowding, High, OvercrowdingMessage(v.passengerCount, v.capacity))
  }

  /** The fields of a rule 2 alert for `v`. */
  function CapacityAlert(v: Vehicle): AlertFields {
    AlertFields(v.id, v.name, Capacity, Severity.Medium, CapacityMessage(v.passengerCount, v.capacity))
  }

  /** What the monitor decides for one vehicle given the current alerts:
      the fields of the alert to create, or nothing. Rule 2 is only
      considered when rule 1's condition fails, not when rule 1 is
      suppressed. */
  function Decide(v: Vehicle, alerts: seq<Alert>): (r: Option<AlertFields>)
    ensures r.Some? ==> r.value.vehicleId == v.id && r.value.vehicleName == v.name
  {
    if OvercrowdingCondition(v) then
      if |RecentAlerts(alerts, v.id, AnySeverity)| == 0 then Some(OvercrowdingAlert(v)) else None
    else if CapacityCondition(v) then
      if |RecentAlerts(alerts, v.id, OnlySeverity(Severity.Medium))| == 0 then Some(CapacityAlert(v)) else None
    else None
  }

  /** The two rules in terms of which alerts exist, independent of how the
      lookup is done. */
  lemma DecideRules(v: Vehicle, alerts: seq<Alert>)
    ensures OvercrowdingCondition(v) ==>
      Decide(v, alerts) == if Blocked(alerts, v.id, AnySeverity) then None else Some(OvercrowdingAlert(v))
    ensures !OvercrowdingCondition(v) && CapacityCondition(v) ==>
      Decide(v, alerts) ==
        if Blocked(alerts, v.id, OnlySeverity(Severity.Medium)) then None else Some(CapacityAlert(v))
    ensures !OvercrowdingCondition(v) && !CapacityCondition(v) ==> Decide(v, alerts) == None
  {
    var any := RecentAlerts(alerts, v.id, AnySeverity);
    var medium := RecentAlerts(alerts, v.id, OnlySeverity(Severity.Medium));
    if |any| > 0 { assert any[0] in any; }
    if |medium| > 0 { assert medium[0] in medium; }
  }

  /** For a vehicle whose status is the derived one and whose capacity is
      positive, rule 1 fires strictly above 80% and rule 2 strictly between
      60% and 80%. */
  lemma ConditionsForConsistentVehicle(v: Vehicle)
    requires v.capacity > 0 && v.status == StatusFor(v.passengerCount, v.capacity)
    ensures OvercrowdingCondition(v) <==> 100 * v.passengerCount > 80 * v.capacity
    ensures CapacityCondition(v) <==> 60 * v.capacity < 100 * v.passengerCount < 80 * v.capacity
  {
  }

  /** A vehicle at exactly 80% or exactly 60% gets no alert: the status bands
      include their lower bound, the rules exclude it. */
  lemma ExactThresholdsRaiseNothing(v: Vehicle, alerts: seq<Alert>)
    requires v.capacity > 0 && v.status == StatusFor(v.passengerCount, v.capacity)
    requires 100 * v.passengerCount == 80 * v.capacity || 100 * v.passengerCount == 60 * v.capacity
    ensures Decide(v, alerts) == None
    ensures v.status == if 100 * v.passengerCount == 80 * v.capacity then Critical else Status.Medium
  {
    DecideRules(v, alerts);
  }

  /** Rule 1 ignores severity: an unacknowledged medium alert suppresses an
      overcrowding alert. */
  lemma MediumAlertBlocksOvercrowding(v: Vehicle, alerts: seq<Alert>, a: Alert)
    requires OvercrowdingCondition(v)
    requires a in alerts && a.vehicleId == v.id && !a.acknowledged && a.severity == Severity.Medium
    ensures Decide(v, alerts) == None
  {
    DecideRules(v, alerts);
    assert InScope(a, v.id, AnySeverity);
  }

  /** Rule 2 looks only at medium alerts: unacknowledged high alerts do not
      suppress a capacity alert. */
  lemma HighAlertDoesNotBlockCapacity(v: Vehicle, alerts: seq<Alert>)
    requires CapacityCondition(v)
    requires forall a :: a in alerts && a.vehicleId == v.id && !a.acknowledged ==> a.severity == High
    ensures Decide(v, alerts) == Some(CapacityAlert(v))
  {
    DecideRules(v, alerts);
  }

  /** More alerts can only suppress more: a vehicle that gets nothing keeps
      getting nothing when alerts are added. */
  lemma DecideMonotone(v: Vehicle, alerts: seq<Alert>, more: seq<Alert>)
    requires Decide(v, alerts) == None
    ensures Decide(v, alerts + more) == None
  {
    DecideRules(v, alerts);
    DecideRules(v, alerts + more);
    if OvercrowdingCondition(v) {
      var a :| a in alerts && InScope(a, v.id, AnySeverity);
      assert a in alerts + more;
    } else if CapacityCondition(v) {
      var a :| a in alerts && InScope(a, v.id, OnlySeverity(Severity.Medium));
      assert a in alerts + more;
    }
  }

  /** The alert the monitor creates suppresses the next one for the same
      condition. */
  lemma OwnAlertBlocks(v: Vehicle, alerts: seq<Alert>, id: string, now: string)
    requires Decide(v, alerts).Some?
    ensures Decide(v, alerts + [NewAlert(id, Decide(v, alerts).value, now)]) == None
  {
    var a := NewAlert(id, Decide(v, alerts).value, now);
    DecideRules(v, alerts);
    DecideRules(v, alerts + [a]);
    assert a in alerts + [a];
  }

  /** Once the monitor's alert is acknowledged, nothing suppresses the rule
      any more and the same alert fields are produced again. */
  lemma AcknowledgementReopens(v: Vehicle, alerts: seq<Alert>, id: string, now: string)
    requires Decide(v, alerts).Some?
    ensures Decide(v, WithAcknowledged(alerts + [NewAlert(id, Decide(v, alerts).value, now)], id, true))
         == Decide(v, alerts)
  {
    var f := Decide(v, alerts).value;
    var a := NewAlert(id, f, now);
    var after := WithAcknowledged(alerts + [a], id, true);
    DecideRules(v, alerts);
    DecideRules(v, after);
    forall x, scope | x in after && InScope(x, v.id, scope)
      ensures x in alerts && InScope(x, v.id, scope)
    {
      WithAcknowledgedMembers(alerts + [a], id, true, x);
    }
  }

  /** The alerts one monitor tick creates, in order, for the vehicle list
      `vs` read at the start of the tick, the alerts `existing` at that time,
      and the id `ids[j]` drawn when vehicle `j` gets an alert. Each decision
      sees the alerts created earlier in the same tick. */
  function Created(vs: seq<Vehicle>, existing: seq<Alert>, ids: seq<string>, now: string): (r: seq<Alert>)
    requires |ids| == |vs|
    ensures |r| <= |vs|
    decreases |vs|
  {
    if vs == [] then []
    else
      var n := |vs| - 1;
      var before := Created(vs[..n], existing, ids[..n], now);
      before + MonitorStep(vs[n], existing + before, ids[n], now)
  }

  /** The alert, if any, the monitor creates for one vehicle under the id
      `id`. */
  function MonitorStep(v: Vehicle, alerts: seq<Alert>, id: string, now: string): (r: seq<Alert>)
    ensures |r| <= 1
    ensures forall k :: 0 <= k < |r| ==> r[k].vehicleId == v.id
  {
    match Decide(v, alerts)
    case None => []
    case Some(f) => [NewAlert(id, f, now)]
  }

  /** Every created alert is unacknowledged, stamped `now`, and belongs to
      one listed vehicle, under the id drawn for that vehicle. */
  lemma {:induction false} CreatedOrigins(vs: seq<Vehicle>, existing: seq<Alert>, ids: seq<string>, now: string, a: Alert)
    requires |ids| == |vs|
    requires a in Created(vs, existing, ids, now)
    ensures !a.acknowledged && a.timestamp == now
    ensures exists j :: 0 <= j < |vs| && a.id == ids[j] && a.vehicleId == vs[j].id && a.vehicleName == vs[j].name
    decreases |vs|
  {
    var n := |vs| - 1;
    var before := Created(vs[..n], existing, ids[..n], now);
    if a in before {
      CreatedOrigins(vs[..n], existing, ids[..n], now, a);
      var j :| 0 <= j < n && a.id == ids[..n][j] && a.vehicleId == vs[..n][j].id && a.vehicleName == vs[..n][j].name;
      assert ids[..n][j] == ids[j] && vs[..n][j] == vs[j];
    } else {
      assert a in MonitorStep(vs[n], existing + before, ids[n], now);
    }
  }

  /** One step of `Created`, as the monitor's loop takes it. */
  lemma {:induction false} CreatedStep(vs: seq<Vehicle>, existing: seq<Alert>, ids: seq<string>, now: string, i: nat)
    requires |ids| == |vs| && i < |vs|
    ensures var before := Created(vs[..i], existing, ids[..i], now);
      Created(vs[..i + 1], existing, ids[..i + 1], now) == before + MonitorStep(vs[i], existing + before, ids[i], now)
  {
    assert vs[..i + 1][..i] == vs[..i];
    assert ids[..i + 1][..i] == ids[..i];
  }

  lemma ConcatAssociative<T>(a: seq<T>, b: seq<T>, c: seq<T>)
    ensures a + (b + c) == (a + b) + c
  {
  }

  lemma PrefixOfPrefix<T>(s: seq<T>, m: nat, n: nat)
    requires n <= m <= |s|
    ensures s[..m][..n] == s[..n]
  {
  }

  /** The alerts created for a prefix of the vehicle list are a prefix of
      those created for the whole list. */
  lemma {:induction false} CreatedPrefix(vs: seq<Vehicle>, existing: seq<Alert>, ids: seq<string>, now: string, k: nat)
    requires |ids| == |vs| && k <= |vs|
    ensures var whole := Created(vs, existing, ids, now);
      var part := Created(vs[..k], existing, ids[..k], now);
      |part| <= |whole| && whole[..|part|] == part
    decreases |vs| - k
  {
    var whole := Created(vs, existing, ids, now);
    var part := Created(vs[..k], existing, ids[..k], now);
    if k < |vs| {
      CreatedPrefix(vs, existing, ids, now, k + 1);
      CreatedStep(vs, existing, ids, now, k);
      var next := Created(vs[..k + 1], existing, ids[..k + 1], now);
      assert next[..|part|] == part;
      PrefixOfPrefix(whole, |next|, |part|);
    } else {
      assert vs[..k] == vs && ids[..k] == ids;
      assert whole[..|whole|] == whole;
    }
  }

  /** No two of `r` belong to the same vehicle. */
  predicate DistinctVehicles(r: seq<Alert>) {
    forall i, j :: 0 <= i < j < |r| ==> r[i].vehicleId != r[j].vehicleId
  }

  /** None of `r` belongs to the vehicle `vehicleId`. */
  predicate NoneFor(r: seq<Alert>, vehicleId: string) {
    forall i :: 0 <= i < |r| ==> r[i].vehicleId != vehicleId
  }

  /** At most one alert is created per vehicle per tick: when the listed
      vehicles have distinct ids, so do the created alerts' vehicle ids. */
  lemma {:induction false} AtMostOnePerVehicle(vs: seq<Vehicle>, existing: seq<Alert>, ids: seq<string>, now: string)
    requires |ids| == |vs|
    requires forall i, j :: 0 <= i < j < |vs| ==> vs[i].id != vs[j].id
    ensures DistinctVehicles(Created(vs, existing, ids, now))
  {
    if vs != [] {
      var n := |vs| - 1;
      var before := Created(vs[..n], existing, ids[..n], now);
      var step := MonitorStep(vs[n], existing + before, ids[n], now);
      assert Created(vs, existing, ids, now) == before + step;
      AtMostOnePerVehicle(vs[..n], existing, ids[..n], now);
      EarlierVehiclesOnly(vs[..n], existing, ids[..n], now, vs[n].id);
      DistinctAfterAppend(before, step, vs[n].id);
    }
  }

  /** Appending at most one alert of a vehicle that none of `before` belongs
      to keeps the vehicle ids distinct. */
  lemma DistinctAfterAppend(before: seq<Alert>, step: seq<Alert>, vehicleId: string)
    requires DistinctVehicles(before) && NoneFor(before, vehicleId)
    requires |step| <= 1 && forall k :: 0 <= k < |step| ==> step[k].vehicleId == vehicleId
    ensures DistinctVehicles(before + step)
  {
  }

  /** The alerts created for a list of vehicles belong to none other. */
  lemma EarlierVehiclesOnly(vs: seq<Vehicle>, existing: seq<Alert>, ids: seq<string>, now: string, other: string)
    requires |ids| == |vs|
    requires forall j :: 0 <= j < |vs| ==> vs[j].id != other
    ensures NoneFor(Created(vs, existing, ids, now), other)
  {
    var r := Created(vs, existing, ids, now);
    forall i | 0 <= i < |r| ensures r[i].vehicleId != other {
      CreatedOrigins(vs, existing, ids, now, r[i]);
    }
  }

  /** After one monitor step for a vehicle, the vehicle meets no rule that
      is not suppressed. */
  lemma StepSuppresses(v: Vehicle, alerts: seq<Alert>, id: string, now: string)
    ensures Decide(v, alerts + MonitorStep(v, alerts, id, now)) == None
  {
    if Decide(v, alerts).Some? {
      OwnAlertBlocks(v, alerts, id, now);
    } else {
      assert alerts + [] == alerts;
    }
  }

  /** After a tick, every listed vehicle that meets a rule is suppressed by an
      alert that is now present: either the one that already suppressed it,
      or the one the tick just created for it. */
  lemma {:induction false} TickSuppressesEachVehicle(vs: seq<Vehicle>, existing: seq<Alert>, ids: seq<string>, now: string, k: nat)
    requires |ids| == |vs| && k < |vs|
    ensures Decide(vs[k], existing + Created(vs, existing, ids, now)) == None
  {
    var first := Created(vs, existing, ids, now);
    var before := Created(vs[..k], existing, ids[..k], now);
    var upTo := Created(vs[..k + 1], existing, ids[..k + 1], now);
    var step := MonitorStep(vs[k], existing + before, ids[k], now);
    CreatedStep(vs, existing, ids, now, k);
    CreatedPrefix(vs, existing, ids, now, k + 1);
    StepSuppresses(vs[k], existing + before, ids[k], now);
    ConcatAssociative(existing, before, step);
    var rest := first[|upTo|..];
    assert first == upTo + rest;
    DecideMonotone(vs[k], existing + upTo, rest);
    ConcatAssociative(existing, upTo, rest);
  }

  /** A second tick on unchanged vehicles, with nothing acknowledged in
      between, creates no alert. */
  lemma {:induction false} RepeatedTickCreatesNothing(vs: seq<Vehicle>, existing: seq<Alert>, ids: seq<string>,
                                                      ids2: seq<string>, now: string, now2: string)
    requires |ids| == |vs| && |ids2| == |vs|
    ensures Created(vs, existing + Created(vs, existing, ids, now), ids2, now2) == []
  {
    var after := existing + Created(vs, existing, ids, now);
    var k := 0;
    while k < |vs|
      invariant 0 <= k <= |vs|
      invariant Created(vs[..k], after, ids2[..k], now2) == []
    {
      TickSuppressesEachVehicle(vs, existing, ids, now, k);
      CreatedStep(vs, after, ids2, now2, k);
      assert after + [] == after;
      k := k + 1;
    }
    assert vs[..|vs|] == vs && ids2[..|vs|] == ids2;
  }

  /** The alert messages that broadcast the created alerts, in order. */
  function AlertMessages(alerts: seq<Alert>): (r: seq<Message>)
    ensures |r| == |alerts|
    ensures forall i :: 0 <= i < |r| ==> r[i] == AlertRaised(alerts[i])
  {
    seq(|alerts|, i requires 0 <= i < |alerts| => AlertRaised(alerts[i]))
  }

  lemma AlertMessagesConcat(a: seq<Alert>, b: seq<Alert>)
    ensures AlertMessages(a + b) == AlertMessages(a) + AlertMessages(b)
  {
  }

  /** One pass of the monitor's loop for vehicle `v`: the decision against
      the current alerts and, when an alert is due, its creation through
      `createAlert` under `id` and its broadcast. */
  method MonitorVehicle(store: MemStorage, hub: Hub, v: Vehicle, id: string, now: string)
    returns (sent: seq<Message>)
    requires store.Valid() && id !in store.alerts
    modifies store, hub
    ensures store.Valid()
    ensures store.vehicles == old(store.vehicles) && store.vehicleOrder == old(store.vehicleOrder)
    ensures forall k :: k in store.alerts ==> k in old(store.alerts) || k == id
    ensures store.GetAlerts() == old(store.GetAlerts()) + MonitorStep(v, old(store.GetAlerts()), id, now)
    ensures sent == AlertMessages(MonitorStep(v, old(store.GetAlerts()), id, now))
    ensures hub.clients == Deliver(old(hub.clients), sent)
  {
    var decision := Decide(v, store.GetAlerts());
    if decision.Some? {
      var a := store.CreateAlert(id, decision.value, now);
      hub.Broadcast(AlertRaised(a));
      sent := [AlertRaised(a)];
    } else {
      sent := [];
      DeliverNothing(hub.clients);
    }
  }

  /** The monitor task: decides for every vehicle, in listing order, creates
      the decided alerts through `createAlert` and broadcasts each one. */
  method AlertMonitorTick(store: MemStorage, hub: Hub, ids: seq<string>, now: string)
    returns (sent: seq<Message>)
    requires store.Valid()
    requires |ids| == |store.vehicleOrder|
    requires forall i, j :: 0 <= i < j < |ids| ==> ids[i] != ids[j]
    requires forall i :: 0 <= i < |ids| ==> ids[i] !in store.alerts
    modifies store, hub
    ensures store.Valid()
    ensures store.vehicles == old(store.vehicles) && store.vehicleOrder == old(store.vehicleOrder)
    ensures store.GetAlerts() ==
      old(store.GetAlerts()) + Created(old(store.GetVehicles()), old(store.GetAlerts()), ids, now)
    ensures sent == AlertMessages(Created(old(store.GetVehicles()), old(store.GetAlerts()), ids, now))
    ensures hub.clients == Deliver(old(hub.clients), sent)
  {
    var vs := store.GetVehicles();
    ghost var existing := store.GetAlerts();
    sent := [];
    DeliverNothing(hub.clients);
    var i := 0;
    while i < |vs|
      invariant 0 <= i <= |vs|
      invariant store.Valid()
      invariant store.vehicles == old(store.vehicles) && store.vehicleOrder == old(store.vehicleOrder)
      invariant forall k :: k in store.alerts ==> k in old(store.alerts) || k in ids[..i]
      invariant store.GetAlerts() == existing + Created(vs[..i], existing, ids[..i], now)
      invariant sent == AlertMessages(Created(vs[..i], existing, ids[..i], now))
      invariant hub.clients == Deliver(old(hub.clients), sent)
    {
      ghost var before := Created(vs[..i], existing, ids[..i], now);
      assert ids[i] !in ids[..i];
      var step := MonitorVehicle(store, hub, vs[i], ids[i], now);
      CreatedStep(vs, existing, ids, now, i);
      ghost var created := MonitorStep(vs[i], existing + before, ids[i], now);
      ConcatAssociative(existing, before, created);
      AlertMessagesConcat(before, created);
      DeliverConcat(old(hub.clients), sent, step);
      sent := sent + step;
      SliceStep(ids, i);
      i := i + 1;
    }
    assert vs[..|vs|] == vs && ids[..|vs|] == ids;
  }
}
