/**
  The browser side of the live feed: the state the dashboard hook keeps
  (connection flag, vehicle list, alert feed, latest crowd snapshot) and how
  each socket event and each acknowledgement changes it. React's state
  setters are modelled as pure transitions from one state value to the next.
*/
module UseWebSocket {
  import opened Schema

  /** The four pieces of state the hook exposes. */
  datatype ClientState = ClientState(
    isConnected: bool,
    vehicles: seq<Vehicle>,
    alerts: seq<Alert>,
    crowdDetection: Option<CrowdDetection>)

  /** The state on mount: disconnected, empty lists, no snapshot. */
  function Initial(): (s: ClientState)
    ensures !s.isConnected && s.vehicles == [] && s.alerts == [] && s.crowdDetection == None
  {
    ClientState(false, [], [], None)
  }

  /** A frame as the message handler sees it: text that `JSON.parse`
      rejects (or a parsed value whose `type` cannot be read), a parsed
      object whose `type` is none of the handled ones, or a parsed message. */
  datatype Frame = Unparsable | Unrecognised(kind: string) | Parsed(message: Message)

  /** `findIndex` on the vehicle id: the first position holding `id`, or -1. */
  function FindIndex(vs: seq<Vehicle>, id: string): (r: int)
    ensures -1 <= r < |vs|
    ensures r >= 0 ==> vs[r].id == id && forall k :: 0 <= k < r ==> vs[k].id != id
    ensures r == -1 <==> forall k :: 0 <= k < |vs| ==> vs[k].id != id
  {
    if vs == [] then -1
    else if vs[0].id == id then 0
    else
      var rest := FindIndex(vs[1..], id);
      if rest < 0 then -1 else rest + 1
  }

  /** The `vehicle_update` setter: the first vehicle with the same id is
      replaced in place; a vehicle with a new id is appended. */
  function UpsertVehicle(prev: seq<Vehicle>, v: Vehicle): (r: seq<Vehicle>)
    ensures (forall k :: 0 <= k < |prev| ==> prev[k].id != v.id) ==> r == prev + [v]
    ensures forall i :: 0 <= i < |prev| && prev[i].id == v.id && (forall k :: 0 <= k < i ==> prev[k].id != v.id)
              ==> r == prev[i := v]
  {
    var i := FindIndex(prev, v.id);
    if i >= 0 then prev[i := v] else prev + [v]
  }

  /** The message handler. The connection flag is never touched; a frame
      that cannot be parsed, an unrecognised type and `analytics_update`
      leave the state as it was. */
  function OnMessage(s: ClientState, f: Frame): (r: ClientState)
    ensures r.isConnected == s.isConnected
  {
    match f
    case Unparsable => s
    case Unrecognised(_) => s
    case Parsed(m) =>
      match m
      case InitialData(vs, al) => s.(vehicles := vs.GetOr([]), alerts := al.GetOr([]))
      case VehicleUpdate(v) => s.(vehicles := UpsertVehicle(s.vehicles, v))
      case AlertRaised(a) => s.(alerts := [a] + s.alerts)
      case CrowdUpdate(d) => s.(crowdDetection := Some(d))
      case AnalyticsUpdate(_) => s
  }

  function OnOpen(s: ClientState): (r: ClientState)
    ensures r.isConnected && r.(isConnected := s.isConnected) == s
  {
    s.(isConnected := true)
  }

  function OnClose(s: ClientState): (r: ClientState)
    ensures !r.isConnected && r.(isConnected := s.isConnected) == s
  {
    s.(isConnected := false)
  }

  function OnError(s: ClientState): (r: ClientState)
    ensures !r.isConnected && r.(isConnected := s.isConnected) == s
  {
    s.(isConnected := false)
  }

  /** What the socket delivers to the hook. */
  datatype Event = Opened | Closed | Errored | Received(frame: Frame)

  function Apply(s: ClientState, e: Event): ClientState {
    match e
    case Opened => OnOpen(s)
    case Closed => OnClose(s)
    case Errored => OnError(s)
    case Received(f) => OnMessage(s, f)
  }

  /** The state after a run of events, in arrival order. */
  function Run(s: ClientState, es: seq<Event>): (r: ClientState)
    decreases |es|
  {
    if es == [] then s else Run(Apply(s, es[0]), es[1..])
  }

  /** The position of the last open, close or error event of a run, or -1
      when the run holds only messages. */
  function LastLifecycleIndex(es: seq<Event>): (j: int)
    ensures -1 <= j < |es|
    ensures j >= 0 ==> !es[j].Received? && forall k :: j < k < |es| ==> es[k].Received?
    ensures j == -1 ==> forall k :: 0 <= k < |es| ==> es[k].Received?
    decreases |es|
  {
    if es == [] then -1
    else if es[|es| - 1].Received? then LastLifecycleIndex(es[..|es| - 1])
    else |es| - 1
  }

  /** The last open, close or error event of a run, if any. */
  function LastLifecycle(es: seq<Event>): (r: Option<Event>)
    ensures r.Some? ==> !r.value.Received?
    ensures r.None? <==> forall k :: 0 <= k < |es| ==> es[k].Received?
    ensures r.Some? ==> exists j :: 0 <= j < |es| && es[j] == r.value && forall k :: j < k < |es| ==> es[k].Received?
  {
    var j := LastLifecycleIndex(es);
    if j < 0 then None else Some(es[j])
  }

  lemma {:induction false} RunSplit(s: ClientState, es: seq<Event>, e: Event)
    ensures Run(s, es + [e]) == Apply(Run(s, es), e)
    decreases |es|
  {
    if es == [] {
      assert [e][1..] == [];
    } else {
      assert (es + [e])[1..] == es[1..] + [e];
      RunSplit(Apply(s, es[0]), es[1..], e);
    }
  }

  /** The connection flag after any run of events is decided by the last
      lifecycle event alone: connected exactly when it was an open, and
      unchanged when there was none. Messages never change it. */
  lemma {:induction false} ConnectedFollowsLastLifecycle(s: ClientState, es: seq<Event>)
    ensures Run(s, es).isConnected ==
      match LastLifecycle(es)
      case None => s.isConnected
      case Some(e) => e.Opened?
    decreases |es|
  {
    if es != [] {
      var n := |es| - 1;
      assert es == es[..n] + [es[n]];
      RunSplit(s, es[..n], es[n]);
      ConnectedFollowsLastLifecycle(s, es[..n]);
    }
  }

  /** `initial_data` replaces both lists outright: what was shown before the
      message has no influence on what is shown after it, and a missing list
      shows as empty. */
  lemma InitialDataReplaces(s: ClientState, t: ClientState, vs: Option<seq<Vehicle>>, al: Option<seq<Alert>>)
    ensures var m := Parsed(InitialData(vs, al));
      && OnMessage(s, m).vehicles == OnMessage(t, m).vehicles
      && OnMessage(s, m).alerts == OnMessage(t, m).alerts
      && (vs.None? ==> OnMessage(s, m).vehicles == [])
      && (al.None? ==> OnMessage(s, m).alerts == [])
      && OnMessage(s, m).crowdDetection == s.crowdDetection
  {
  }

  /** An alert message puts the new alert at the top of the feed and keeps
      the rest in order, without looking for an earlier copy. */
  lemma AlertIsPrepended(s: ClientState, a: Alert)
    ensures var r := OnMessage(s, Parsed(AlertRaised(a)));
      && |r.alerts| == |s.alerts| + 1
      && r.alerts[0] == a
      && r.alerts[1..] == s.alerts
      && r.vehicles == s.vehicles && r.crowdDetection == s.crowdDetection
  {
    assert ([a] + s.alerts)[1..] == s.alerts;
  }

  /** A crowd detection message replaces the snapshot and nothing else. */
  lemma CrowdUpdateReplacesSnapshot(s: ClientState, d: CrowdDetection)
    ensures OnMessage(s, Parsed(CrowdUpdate(d))) == s.(crowdDetection := Some(d))
  {
  }

  /** A frame the handler does not act on leaves the whole state alone. */
  lemma IgnoredFramesChangeNothing(s: ClientState, kind: string, points: seq<PassengerData>)
    ensures OnMessage(s, Unparsable) == s
    ensures OnMessage(s, Unrecognised(kind)) == s
    ensures OnMessage(s, Parsed(AnalyticsUpdate(points))) == s
  {
  }

  /** The ids shown after an update are the ids shown before plus the
      updated vehicle's id; when the shown ids were distinct they stay
      distinct, and the updated record is the one shown under its id. */
  lemma UpsertKeepsIdsDistinct(prev: seq<Vehicle>, v: Vehicle)
    requires forall i, j :: 0 <= i < j < |prev| ==> prev[i].id != prev[j].id
    ensures var r := UpsertVehicle(prev, v);
      && (forall i, j :: 0 <= i < j < |r| ==> r[i].id != r[j].id)
      && (forall i :: 0 <= i < |r| && r[i].id == v.id ==> r[i] == v)
      && (exists i :: 0 <= i < |r| && r[i] == v)
      && (forall i :: 0 <= i < |r| && r[i].id != v.id ==> r[i] in prev)
      && (forall i :: 0 <= i < |prev| && prev[i].id != v.id ==> prev[i] in r)
  {
    var r := UpsertVehicle(prev, v);
    var i := FindIndex(prev, v.id);
    if i >= 0 {
      assert r[i] == v;
      forall k | 0 <= k < |prev| && prev[k].id != v.id ensures prev[k] in r {
        assert r[k] == prev[k];
      }
    } else {
      assert r[|prev|] == v;
    }
  }

  /** Applying the same update twice shows the same list as applying it once. */
  lemma UpsertIdempotent(prev: seq<Vehicle>, v: Vehicle)
    ensures UpsertVehicle(UpsertVehicle(prev, v), v) == UpsertVehicle(prev, v)
  {
    var i := FindIndex(prev, v.id);
    if i < 0 {
      var once := prev + [v];
      assert forall k :: 0 <= k < |prev| ==> once[k] == prev[k] && once[k].id != v.id;
      assert once[|prev|] == v;
      assert once[|prev| := v] == once;
    } else {
      var once := prev[i := v];
      assert forall k :: 0 <= k < i ==> once[k] == prev[k];
      assert once[i] == v;
      assert once[i := v] == once;
    }
  }

  /** The optimistic half of `acknowledgeAlert`: every shown alert with the
      id is marked acknowledged before the request is sent. */
  function OptimisticAcknowledge(s: ClientState, id: string): (r: ClientState)
    ensures r.(alerts := s.alerts) == s
    ensures r.alerts == WithAcknowledged(s.alerts, id, true)
  {
    s.(alerts := WithAcknowledged(s.alerts, id, true))
  }

  /** The revert when the request fails: every shown alert with the id is
      marked unacknowledged again. */
  function RevertAcknowledge(s: ClientState, id: string): (r: ClientState)
    ensures r.(alerts := s.alerts) == s
    ensures r.alerts == WithAcknowledged(s.alerts, id, false)
  {
    s.(alerts := WithAcknowledged(s.alerts, id, false))
  }

  /** How the acknowledgement request ends: `fetch` only rejects when no
      response arrives, so any HTTP status, including a 404 for an unknown
      id, counts as delivered. */
  datatype RequestOutcome = Responded | NetworkFailure

  /** The whole acknowledgement, with `during` standing for the events that
      arrive while the request is in flight. */
  function AcknowledgeAlert(s: ClientState, id: string, during: seq<Event>, outcome: RequestOutcome): (r: ClientState)
    ensures outcome == NetworkFailure ==>
      forall i :: 0 <= i < |r.alerts| && r.alerts[i].id == id ==> !r.alerts[i].acknowledged
    ensures during == [] ==> r.(alerts := s.alerts) == s
    ensures during == [] ==>
      r.alerts == WithAcknowledged(s.alerts, id, outcome == Responded)
  {
    var sent := Run(OptimisticAcknowledge(s, id), during);
    match outcome
    case Responded => sent
    case NetworkFailure => RevertAcknowledge(sent, id)
  }

  /** With nothing arriving in between, a failed acknowledgement of an alert
      that was not yet acknowledged leaves the feed exactly as it was. */
  lemma FailedAcknowledgeRestores(s: ClientState, id: string)
    requires forall i :: 0 <= i < |s.alerts| && s.alerts[i].id == id ==> !s.alerts[i].acknowledged
    ensures AcknowledgeAlert(s, id, [], NetworkFailure) == s
  {
    var r := AcknowledgeAlert(s, id, [], NetworkFailure);
    assert r.alerts == s.alerts;
  }

  /** The revert does not remember the earlier flag: an alert that was
      already acknowledged before a failed request ends up unacknowledged. */
  lemma FailedAcknowledgeClearsEarlierFlag(s: ClientState, id: string, i: nat)
    requires i < |s.alerts| && s.alerts[i].id == id && s.alerts[i].acknowledged
    ensures !AcknowledgeAlert(s, id, [], NetworkFailure).alerts[i].acknowledged
  {
  }

  /** A delivered acknowledgement marks every shown alert with the id, and
      touches no other alert and nothing but the feed. */
  lemma DeliveredAcknowledgeMarks(s: ClientState, id: string)
    ensures var r := AcknowledgeAlert(s, id, [], Responded);
      && r.(alerts := s.alerts) == s
      && |r.alerts| == |s.alerts|
      && (forall i :: 0 <= i < |r.alerts| ==> (r.alerts[i].id == id ==> r.alerts[i].acknowledged))
      && (forall i :: 0 <= i < |r.alerts| ==> (r.alerts[i].id != id ==> r.alerts[i] == s.alerts[i]))
  {
  }

  /** An alert with the same id that arrives while the request is in flight
      is not covered by the optimistic update, but a failure's revert does
      reach it. */
  lemma AlertArrivingInFlight(s: ClientState, a: Alert)
    ensures var r := AcknowledgeAlert(s, a.id, [Received(Parsed(AlertRaised(a)))], Responded);
      |r.alerts| > 0 && r.alerts[0] == a
    ensures var r := AcknowledgeAlert(s, a.id, [Received(Parsed(AlertRaised(a)))], NetworkFailure);
      |r.alerts| > 0 && r.alerts[0] == a.(acknowledged := false)
  {
    var o := OptimisticAcknowledge(s, a.id);
    var es := [Received(Parsed(AlertRaised(a)))];
    assert es[1..] == [];
    assert Run(o, es) == OnMessage(o, Parsed(AlertRaised(a)));
  }
}
