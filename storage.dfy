/**
  The in-memory entity store of the server: vehicles and alerts kept in
  insertion-ordered maps, the derived vehicle status, and the fixed seed data.

  A JavaScript `Map` is modelled as a Dafny `map` together with the sequence
  of its keys in insertion order; `Map.set` on a key that is already present
  keeps that key's position, and listing the values follows the key sequence.
*/
module Storage {
  import opened Schema

  // ---------------------------------------------------------------------------
  // Load percentages
  // ---------------------------------------------------------------------------

  /** `(p / c) * 100 >= t` evaluated with JavaScript numbers: an exact
      cross-multiplication when the capacity is non-zero (the inequality flips
      for a negative capacity), `Infinity` for a positive count over a zero
      capacity, and `NaN` (which compares false) for zero over zero. */
  predicate PercentAtLeast(p: int, c: int, t: int) {
    if c > 0 then 100 * p >= t * c
    else if c < 0 then 100 * p <= t * c
    else p > 0
  }

  /** `(p / c) * 100 > t`, in the same number semantics. */
  predicate PercentAbove(p: int, c: int, t: int) {
    if c > 0 then 100 * p > t * c
    else if c < 0 then 100 * p < t * c
    else p > 0
  }

  /** The status that `updateVehicle` derives from a load. For a positive
      capacity the bands are: at least 80% critical, at least 60% medium,
      below 60% normal. */
  function StatusFor(p: int, c: int): (s: Status)
    ensures c > 0 ==> (s == Critical <==> 100 * p >= 80 * c)
    ensures c > 0 ==> (s == Normal <==> 100 * p < 60 * c)
  {
    if PercentAtLeast(p, c, 80) then Critical
    else if PercentAtLeast(p, c, 60) then Status.Medium
    else Normal
  }

  /** For a positive capacity the status bands are: at least 80% critical,
      at least 60% medium, below 60% normal. */
  lemma StatusThresholds(p: int, c: int)
    requires c > 0
    ensures StatusFor(p, c) == Critical <==> 100 * p >= 80 * c
    ensures StatusFor(p, c) == Status.Medium <==> 60 * c <= 100 * p < 80 * c
    ensures StatusFor(p, c) == Normal <==> 100 * p < 60 * c
  {
  }

  // ---------------------------------------------------------------------------
  // Partial updates
  // ---------------------------------------------------------------------------

  /** A `Partial<Vehicle>`: every field may be absent. The id is not among
      them: no caller of `updateVehicle` passes one. */
  datatype VehiclePatch = VehiclePatch(
    name: Option<string>,
    vehicleType: Option<VehicleType>,
    route: Option<string>,
    latitude: Option<real>,
    longitude: Option<real>,
    passengerCount: Option<int>,
    capacity: Option<int>,
    status: Option<Status>,
    speed: Option<int>,
    lastUpdated: Option<string>)

  const NoChanges := VehiclePatch(None, None, None, None, None, None, None, None, None, None)

  /** `{ ...vehicle, ...updates }`: a field present in the patch wins, an
      absent one keeps the record's value. */
  function Merge(v: Vehicle, u: VehiclePatch): (r: Vehicle)
    ensures r.id == v.id
    ensures u.passengerCount.Some? ==> r.passengerCount == u.passengerCount.value
    ensures u.passengerCount.None? ==> r.passengerCount == v.passengerCount
    ensures u.capacity.Some? ==> r.capacity == u.capacity.value
    ensures u.capacity.None? ==> r.capacity == v.capacity
    ensures u.status.Some? ==> r.status == u.status.value
    ensures u.status.None? ==> r.status == v.status
    ensures u == NoChanges ==> r == v
  {
    Vehicle(
      v.id,
      u.name.GetOr(v.name),
      u.vehicleType.GetOr(v.vehicleType),
      u.route.GetOr(v.route),
      u.latitude.GetOr(v.latitude),
      u.longitude.GetOr(v.longitude),
      u.passengerCount.GetOr(v.passengerCount),
      u.capacity.GetOr(v.capacity),
      u.status.GetOr(v.status),
      u.speed.GetOr(v.speed),
      u.lastUpdated.GetOr(v.lastUpdated))
  }

  /** The vehicle `updateVehicle` stores and returns: the merge, with the
      status recomputed from the merged load. */
  function Updated(v: Vehicle, u: VehiclePatch): (r: Vehicle)
    ensures r.id == v.id
    ensures r.status == StatusFor(r.passengerCount, r.capacity)
    ensures r.(status := Merge(v, u).status) == Merge(v, u)
  {
    var m := Merge(v, u);
    m.(status := StatusFor(m.passengerCount, m.capacity))
  }

  /** Fields absent from the patch keep their old values; present ones are
      taken from the patch. */
  lemma UpdatedFields(v: Vehicle, u: VehiclePatch)
    ensures var r := Updated(v, u);
      && r.name == u.name.GetOr(v.name)
      && r.vehicleType == u.vehicleType.GetOr(v.vehicleType)
      && r.route == u.route.GetOr(v.route)
      && r.latitude == u.latitude.GetOr(v.latitude)
      && r.longitude == u.longitude.GetOr(v.longitude)
      && r.passengerCount == u.passengerCount.GetOr(v.passengerCount)
      && r.capacity == u.capacity.GetOr(v.capacity)
      && r.speed == u.speed.GetOr(v.speed)
      && r.lastUpdated == u.lastUpdated.GetOr(v.lastUpdated)
  {
  }

  /** A status supplied in the patch has no effect: it is always overwritten. */
  lemma SuppliedStatusIgnored(v: Vehicle, u: VehiclePatch, s: Option<Status>)
    ensures Updated(v, u.(status := s)) == Updated(v, u)
  {
  }

  /** An empty patch leaves a status-consistent vehicle as it is. */
  lemma EmptyPatchIsIdentity(v: Vehicle)
    requires v.status == StatusFor(v.passengerCount, v.capacity)
    ensures Updated(v, NoChanges) == v
  {
  }

  /** Applying the same patch twice is the same as applying it once. */
  lemma UpdatedIdempotent(v: Vehicle, u: VehiclePatch)
    ensures Updated(Updated(v, u), u) == Updated(v, u)
  {
  }

  // ---------------------------------------------------------------------------
  // Insertion-ordered maps
  // ---------------------------------------------------------------------------

  /** `order` lists the keys of `m` once each, in insertion order. */
  ghost predicate KeyOrder<V>(m: map<string, V>, order: seq<string>) {
    && (forall i, j :: 0 <= i < j < |order| ==> order[i] != order[j])
    && (forall k :: k in m <==> k in order)
  }

  /** `Array.from(map.values())`. */
  function InOrder<V>(m: map<string, V>, order: seq<string>): (r: seq<V>)
    requires forall i :: 0 <= i < |order| ==> order[i] in m
    ensures |r| == |order|
    ensures forall i :: 0 <= i < |order| ==> r[i] == m[order[i]]
  {
    seq(|order|, i requires 0 <= i < |order| => m[order[i]])
  }

  // ---------------------------------------------------------------------------
  // Seed data
  // ---------------------------------------------------------------------------

  /** The names and routes of the five seeded vehicles. */
  const SeedNames: seq<string> := ["Bus MH-01", "Bus MH-02", "Metro M1", "Bus MH-03", "Metro M2"]
  const SeedRoutes: seq<string> := [
    "Route 356E - Whitefield to Majestic",
    "Route 500K - Kengeri to KR Market",
    "Purple Line - Whitefield to Challaghatta",
    "Route 201A - Yeshwanthpur to Banashankari",
    "Green Line - Nagasandra to Silk Institute"]

  /** The five vehicles the store starts with; `ids` stands for the five
      `randomUUID()` results and `now` for the start-up time. */
  function SeedVehicles(ids: seq<string>, now: string): (r: seq<Vehicle>)
    requires |ids| == 5
    ensures |r| == 5
    ensures forall i :: 0 <= i < 5 ==> r[i].id == ids[i] && r[i].name == SeedNames[i] && r[i].route == SeedRoutes[i]
  {
    [ Vehicle(ids[0], SeedNames[0], Bus, SeedRoutes[0], 12.9716, 77.5946, 45, 60, Status.Medium, 35, now),
      Vehicle(ids[1], SeedNames[1], Bus, SeedRoutes[1], 12.9141, 77.4925, 28, 60, Normal, 42, now),
      Vehicle(ids[2], SeedNames[2], Train, SeedRoutes[2], 13.0358, 77.5970, 150, 180, Critical, 60, now),
      Vehicle(ids[3], SeedNames[3], Bus, SeedRoutes[3], 12.9879, 77.5704, 35, 60, Normal, 38, now),
      Vehicle(ids[4], SeedNames[4], Train, SeedRoutes[4], 12.9352, 77.6245, 120, 180, Status.Medium, 55, now) ]
  }

  /** Every seeded vehicle has a positive capacity, a load within it, and the
      status the threshold rule assigns to that load. */
  lemma SeedVehiclesConsistent(ids: seq<string>, now: string)
    requires |ids| == 5
    ensures forall v :: v in SeedVehicles(ids, now) ==>
      && v.capacity > 0
      && 0 <= v.passengerCount <= v.capacity
      && v.status == StatusFor(v.passengerCount, v.capacity)
  {
  }

  /** The passenger trend series: sixteen hourly points of Route 356E. */
  function PassengerSeries(): (r: seq<PassengerData>)
    ensures |r| == 16
    ensures forall i :: 0 <= i < |r| ==> r[i].route == "Route 356E" && r[i].hour == 6 + i
  {
    [ PassengerData("Route 356E", "06:00", 45, 6),
      PassengerData("Route 356E", "07:00", 72, 7),
      PassengerData("Route 356E", "08:00", 120, 8),
      PassengerData("Route 356E", "09:00", 95, 9),
      PassengerData("Route 356E", "10:00", 68, 10),
      PassengerData("Route 356E", "11:00", 55, 11),
      PassengerData("Route 356E", "12:00", 82, 12),
      PassengerData("Route 356E", "13:00", 70, 13),
      PassengerData("Route 356E", "14:00", 58, 14),
      PassengerData("Route 356E", "15:00", 65, 15),
      PassengerData("Route 356E", "16:00", 88, 16),
      PassengerData("Route 356E", "17:00", 105, 17),
      PassengerData("Route 356E", "18:00", 135, 18),
      PassengerData("Route 356E", "19:00", 115, 19),
      PassengerData("Route 356E", "20:00", 85, 20),
      PassengerData("Route 356E", "21:00", 52, 21) ]
  }

  /** A vehicle map holding the seed vehicles under their ids, keyed in seed
      order, lists exactly the seed vehicles, each under its own id and with
      its derived status. */
  lemma SeededListing(vehicles: map<string, Vehicle>, ids: seq<string>, now: string)
    requires |ids| == 5 && KeyOrder(vehicles, ids)
    requires forall i :: 0 <= i < 5 ==> vehicles[ids[i]] == SeedVehicles(ids, now)[i]
    ensures InOrder(vehicles, ids) == SeedVehicles(ids, now)
    ensures forall k :: k in vehicles ==>
      vehicles[k].id == k && vehicles[k].status == StatusFor(vehicles[k].passengerCount, vehicles[k].capacity)
  {
    var seeds := SeedVehicles(ids, now);
    SeedVehiclesConsistent(ids, now);
    forall k | k in vehicles
      ensures vehicles[k].id == k && vehicles[k].status == StatusFor(vehicles[k].passengerCount, vehicles[k].capacity)
    {
      var i :| 0 <= i < 5 && ids[i] == k;
      assert seeds[i] in seeds;
    }
  }

  // ---------------------------------------------------------------------------
  // The store
  // ---------------------------------------------------------------------------

  class MemStorage {
    var vehicles: map<string, Vehicle>
    var vehicleOrder: seq<string>
    var alerts: map<string, Alert>
    var alertOrder: seq<string>
    var passengerData: seq<PassengerData>

    /** Both maps list their keys once each in insertion order, every entry is
        stored under its own id, every vehicle's status is the derived one,
        and the passenger series is the fixed one. */
    ghost predicate Valid()
      reads this
    {
      && KeyOrder(vehicles, vehicleOrder)
      && KeyOrder(alerts, alertOrder)
      && (forall k :: k in vehicles ==> vehicles[k].id == k)
      && (forall k :: k in vehicles ==>
            vehicles[k].status == StatusFor(vehicles[k].passengerCount, vehicles[k].capacity))
      && (forall k :: k in alerts ==> alerts[k].id == k)
      && passengerData == PassengerSeries()
    }

    /** A fresh store holding the seed vehicles, no alerts and the passenger
        series; `ids` stands for the distinct ids `randomUUID()` draws. */
    constructor (ids: seq<string>, now: string)
      requires |ids| == 5
      requires forall i, j :: 0 <= i < j < 5 ==> ids[i] != ids[j]
      ensures Valid()
      ensures GetVehicles() == SeedVehicles(ids, now)
      ensures GetAlerts() == []
      ensures GetPassengerData() == PassengerSeries()
    {
      vehicles := map[];
      vehicleOrder := [];
      alerts := map[];
      alertOrder := [];
      passengerData := [];
      new;
      InitializeVehicles(ids, now);
      passengerData := PassengerSeries();
      SeededListing(vehicles, ids, now);
    }

    /** The `forEach` that puts the seed vehicles into the empty vehicle map. */
    method InitializeVehicles(ids: seq<string>, now: string)
      requires |ids| == 5
      requires forall i, j :: 0 <= i < j < 5 ==> ids[i] != ids[j]
      requires vehicles == map[] && vehicleOrder == []
      modifies this
      ensures vehicleOrder == ids
      ensures KeyOrder(vehicles, vehicleOrder)
      ensures forall i :: 0 <= i < 5 ==> vehicles[ids[i]] == SeedVehicles(ids, now)[i]
      ensures alerts == old(alerts) && alertOrder == old(alertOrder)
      ensures passengerData == old(passengerData)
    {
      var seeds := SeedVehicles(ids, now);
      var i := 0;
      while i < |seeds|
        invariant 0 <= i <= 5
        invariant vehicleOrder == ids[..i]
        invariant KeyOrder(vehicles, vehicleOrder)
        invariant forall j :: 0 <= j < i ==> vehicles[ids[j]] == seeds[j]
        invariant alerts == old(alerts) && alertOrder == old(alertOrder)
        invariant passengerData == old(passengerData)
      {
        assert ids[i] !in ids[..i];
        SetVehicle(seeds[i].id, seeds[i]);
        SliceStep(ids, i);
        i := i + 1;
      }
      assert ids[..5] == ids;
    }

    /** `this.vehicles.set(key, v)`: replaces the entry in place when the key
        is present, otherwise adds it at the end of the order. */
    method SetVehicle(key: string, v: Vehicle)
      requires KeyOrder(vehicles, vehicleOrder)
      modifies this
      ensures KeyOrder(vehicles, vehicleOrder)
      ensures vehicles == old(vehicles)[key := v]
      ensures vehicleOrder == if key in old(vehicles) then old(vehicleOrder) else old(vehicleOrder) + [key]
      ensures alerts == old(alerts) && alertOrder == old(alertOrder)
      ensures passengerData == old(passengerData)
    {
      if key !in vehicles {
        vehicleOrder := vehicleOrder + [key];
      }
      vehicles := vehicles[key := v];
    }

    /** `this.alerts.set(key, a)`, with the same ordering rule. */
    method SetAlert(key: string, a: Alert)
      requires KeyOrder(alerts, alertOrder)
      modifies this
      ensures KeyOrder(alerts, alertOrder)
      ensures alerts == old(alerts)[key := a]
      ensures alertOrder == if key in old(alerts) then old(alertOrder) else old(alertOrder) + [key]
      ensures vehicles == old(vehicles) && vehicleOrder == old(vehicleOrder)
      ensures passengerData == old(passengerData)
    {
      if key !in alerts {
        alertOrder := alertOrder + [key];
      }
      alerts := alerts[key := a];
    }

    /** All vehicles, in insertion order, each once. */
    function GetVehicles(): (r: seq<Vehicle>)
      reads this
      requires Valid()
      ensures |r| == |vehicleOrder|
      ensures forall i :: 0 <= i < |r| ==> r[i].id == vehicleOrder[i] && r[i] == vehicles[vehicleOrder[i]]
      ensures forall i, j :: 0 <= i < j < |r| ==> r[i].id != r[j].id
      ensures forall v :: v in r <==> v in vehicles.Values
    {
      InOrder(vehicles, vehicleOrder)
    }

    /** The vehicle stored under `id`, or `undefined`. */
    function GetVehicle(id: string): (r: Option<Vehicle>)
      reads this
      requires Valid()
      ensures r.Some? <==> id in vehicles
      ensures r.Some? ==> r.value.id == id && r.value in GetVehicles()
    {
      if id in vehicles then Some(vehicles[id]) else None
    }

    /** All alerts, in creation order, each once. */
    function GetAlerts(): (r: seq<Alert>)
      reads this
      requires Valid()
      ensures |r| == |alertOrder|
      ensures forall i :: 0 <= i < |r| ==> r[i].id == alertOrder[i] && r[i] == alerts[alertOrder[i]]
      ensures forall i, j :: 0 <= i < j < |r| ==> r[i].id != r[j].id
      ensures forall a :: a in r <==> a in alerts.Values
    {
      InOrder(alerts, alertOrder)
    }

    /** The passenger series, which no operation changes. */
    function GetPassengerData(): (r: seq<PassengerData>)
      reads this
      requires Valid()
      ensures r == PassengerSeries()
    {
      passengerData
    }

    /** Merges `u` into the vehicle stored under `id`, recomputes its status,
        stores it in place and returns it; an unknown id changes nothing and
        yields `undefined`. */
    method UpdateVehicle(id: string, u: VehiclePatch) returns (r: Option<Vehicle>)
      requires Valid()
      modifies this
      ensures Valid()
      ensures vehicleOrder == old(vehicleOrder)
      ensures alerts == old(alerts) && alertOrder == old(alertOrder)
      ensures passengerData == old(passengerData)
      ensures id !in old(vehicles) ==> r == None && vehicles == old(vehicles)
      ensures id in old(vehicles) ==>
        && r == Some(Updated(old(vehicles[id]), u))
        && vehicles == old(vehicles)[id := r.value]
        && GetVehicle(id) == r
      ensures forall k :: 0 <= k < |vehicleOrder| ==>
        GetVehicles()[k] == if vehicleOrder[k] == id && r.Some? then r.value else old(GetVehicles())[k]
    {
      if id !in vehicles {
        return None;
      }
      var v := Updated(vehicles[id], u);
      SetVehicle(id, v);
      r := Some(v);
    }

    /** Stores a new, unacknowledged alert built from `f` under the fresh id
        `id` (standing for `randomUUID()`) and returns it; it is listed last. */
    method CreateAlert(id: string, f: AlertFields, now: string) returns (a: Alert)
      requires Valid()
      requires id !in alerts
      modifies this
      ensures Valid()
      ensures a == NewAlert(id, f, now)
      ensures a.id !in old(alerts)
      ensures alerts == old(alerts)[id := a] && alertOrder == old(alertOrder) + [id]
      ensures GetAlerts() == old(GetAlerts()) + [a]
      ensures vehicles == old(vehicles) && vehicleOrder == old(vehicleOrder)
      ensures passengerData == old(passengerData)
    {
      a := NewAlert(id, f, now);
      SetAlert(id, a);
      assert GetAlerts() == old(GetAlerts()) + [a];
    }

    /** Sets the acknowledged flag of the alert stored under `id` and returns
        it; an unknown id changes nothing and yields `undefined`. */
    method AcknowledgeAlert(id: string) returns (r: Option<Alert>)
      requires Valid()
      modifies this
      ensures Valid()
      ensures alertOrder == old(alertOrder)
      ensures vehicles == old(vehicles) && vehicleOrder == old(vehicleOrder)
      ensures passengerData == old(passengerData)
      ensures id !in old(alerts) ==> r == None && alerts == old(alerts)
      ensures id in old(alerts) ==>
        && r == Some(old(alerts[id]).(acknowledged := true))
        && alerts == old(alerts)[id := r.value]
      ensures GetAlerts() == WithAcknowledged(old(GetAlerts()), id, true)
    {
      if id !in alerts {
        return None;
      }
      var a := alerts[id].(acknowledged := true);
      SetAlert(id, a);
      r := Some(a);
      assert GetAlerts() == WithAcknowledged(old(GetAlerts()), id, true);
    }
  }
}
