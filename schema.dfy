/**
  The shared record shapes of the transit dashboard: vehicles, alerts, crowd
  detection snapshots, passenger analytics points and the socket messages
  that carry them from the server to the browser.

  Numeric fields that the source keeps as JavaScript numbers are modelled as
  `int` when the program only ever stores integers in them (counts, capacity,
  speed, hour) and as `real` when they hold fractional values (coordinates,
  confidences, box geometry).
*/
module Schema {

  /** `undefined` versus a present value. */
  datatype Option<T> = None | Some(value: T) {
    function GetOr(default: T): T {
      match this
      case Some(v) => v
      case None => default
    }
  }

  datatype VehicleType = Bus | Train

  /** The vehicle status derived from its load. */
  datatype Status = Normal | Medium | Critical

  datatype AlertType = Overcrowding | Capacity | Delay

  datatype Severity = Low | Medium | High

  datatype Vehicle = Vehicle(
    id: string,
    name: string,
    vehicleType: VehicleType,
    route: string,
    latitude: real,
    longitude: real,
    passengerCount: int,
    capacity: int,
    status: Status,
    speed: int,
    lastUpdated: string)

  datatype BoundingBox = BoundingBox(x: real, y: real, width: real, height: real, confidence: real)

  datatype CrowdDetection = CrowdDetection(
    personCount: int,
    timestamp: string,
    boundingBoxes: seq<BoundingBox>,
    confidence: real)

  datatype Alert = Alert(
    id: string,
    vehicleId: string,
    vehicleName: string,
    alertType: AlertType,
    severity: Severity,
    message: string,
    timestamp: string,
    acknowledged: bool)

  /** The fields a caller of `createAlert` supplies: an alert without its id,
      timestamp and acknowledged flag. */
  datatype AlertFields = AlertFields(
    vehicleId: string,
    vehicleName: string,
    alertType: AlertType,
    severity: Severity,
    message: string)

  datatype PassengerData = PassengerData(route: string, time: string, passengers: int, hour: int)

  /** The messages that travel over the socket. `InitialData` is sent by the
      connection handler although the declared message union leaves it out;
      its two lists are optional because the client tolerates their absence. */
  datatype Message =
    | InitialData(vehicles: Option<seq<Vehicle>>, alerts: Option<seq<Alert>>)
    | VehicleUpdate(vehicle: Vehicle)
    | CrowdUpdate(detection: CrowdDetection)
    | AlertRaised(alert: Alert)
    | AnalyticsUpdate(points: seq<PassengerData>)

  /** The caller-supplied part of an alert. */
  function Fields(a: Alert): AlertFields {
    AlertFields(a.vehicleId, a.vehicleName, a.alertType, a.severity, a.message)
  }

  /** The record `createAlert` builds from the supplied fields, a fresh id and
      the creation time. */
  function NewAlert(id: string, f: AlertFields, timestamp: string): (a: Alert)
    ensures Fields(a) == f
    ensures a.id == id && a.timestamp == timestamp && !a.acknowledged
  {
    Alert(id, f.vehicleId, f.vehicleName, f.alertType, f.severity, f.message, timestamp, false)
  }

  /** Every alert whose id is `id` gets its acknowledged flag set to `flag`;
      the list keeps its length and order. The client uses this for its
      optimistic acknowledgement and for the revert; the server store's
      acknowledgement has the same effect on its alert list. */
  function WithAcknowledged(alerts: seq<Alert>, id: string, flag: bool): (r: seq<Alert>)
    ensures |r| == |alerts|
    ensures forall i :: 0 <= i < |r| ==> r[i].id == alerts[i].id
    ensures forall i :: 0 <= i < |r| && alerts[i].id == id ==> r[i].acknowledged == flag
    ensures forall i :: 0 <= i < |r| ==> r[i].(acknowledged := alerts[i].acknowledged) == alerts[i]
    ensures forall i :: 0 <= i < |r| && alerts[i].id != id ==> r[i] == alerts[i]
  {
    seq(|alerts|, i requires 0 <= i < |alerts| =>
      if alerts[i].id == id then alerts[i].(acknowledged := flag) else alerts[i])
  }

  /** Setting the flag twice is the same as setting it once. */
  lemma WithAcknowledgedIdempotent(alerts: seq<Alert>, id: string, flag: bool)
    ensures WithAcknowledged(WithAcknowledged(alerts, id, flag), id, flag) == WithAcknowledged(alerts, id, flag)
  {
  }

  /** An element of the updated list either carries the id and the new flag,
      or is an element of the old list with another id. */
  lemma WithAcknowledgedMembers(alerts: seq<Alert>, id: string, flag: bool, x: Alert)
    requires x in WithAcknowledged(alerts, id, flag)
    ensures (x.id == id && x.acknowledged == flag) || (x.id != id && x in alerts)
  {
    var r := WithAcknowledged(alerts, id, flag);
    var i :| 0 <= i < |r| && r[i] == x;
  }

  /** Decimal text of a natural number, as `${n}` prints it. */
  function NatText(n: nat): (s: string)
    ensures |s| >= 1
    ensures forall i :: 0 <= i < |s| ==> '0' <= s[i] <= '9'
    ensures n > 0 ==> s[0] != '0'
  {
    if n < 10 then [DigitChar(n)] else NatText(n / 10) + [DigitChar(n % 10)]
  }

  /** The decimal digit for `d`. */
  function DigitChar(d: nat): (c: char)
    requires d < 10
    ensures '0' <= c <= '9'
  {
    (('0' as int) + d) as char
  }

  /** Decimal text of an integer, with a leading minus sign when negative. */
  function IntText(n: int): (s: string)
    ensures |s| >= 1
    ensures n >= 0 <==> s[0] != '-'
  {
    if n >= 0 then NatText(n) else "-" + NatText(-n)
  }

  function DigitValue(c: char): nat
    requires '0' <= c <= '9'
  {
    (c as int) - ('0' as int)
  }

  /** Reads a string of decimal digits back as a number. */
  function ParseNat(s: string): nat
    requires forall i :: 0 <= i < |s| ==> '0' <= s[i] <= '9'
  {
    if s == [] then 0 else 10 * ParseNat(s[..|s| - 1]) + DigitValue(s[|s| - 1])
  }

  /** The decimal text of a count determines the count: the numbers embedded
      in alert messages can be read back exactly. */
  lemma {:induction false} NatTextRoundTrip(n: nat)
    ensures ParseNat(NatText(n)) == n
  {
    if n >= 10 {
      var s := NatText(n);
      var d := DigitChar(n % 10);
      assert s == NatText(n / 10) + [d];
      assert s[..|s| - 1] == NatText(n / 10);
      NatTextRoundTrip(n / 10);
      assert DigitValue(d) == n % 10;
    } else {
      var s := NatText(n);
      assert s[..0] == [];
      assert DigitValue(s[0]) == n;
    }
  }

  /** Different counts print differently. */
  lemma NatTextInjective(m: nat, n: nat)
    requires NatText(m) == NatText(n)
    ensures m == n
  {
    NatTextRoundTrip(m);
    NatTextRoundTrip(n);
  }

  /** Extending a prefix by one element. */
  lemma SliceStep<T>(s: seq<T>, i: nat)
    requires i < |s|
    ensures s[..i + 1] == s[..i] + [s[i]]
  {
  }
}
