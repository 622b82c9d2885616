/**
  What a connected dashboard shows once the server's messages have reached
  it: the client state after a run of socket messages, related to the
  server-side lists those messages were produced from.
*/
module Sync {
  import opened Schema
  import opened UseWebSocket
  import Routes

  /** Socket messages as events the hook receives, in order. */
  function Frames(ms: seq<Message>): (es: seq<Event>)
    ensures |es| == |ms|
    ensures forall k :: 0 <= k < |es| ==> es[k] == Received(Parsed(ms[k]))
  {
    seq(|ms|, k requires 0 <= k < |ms| => Received(Parsed(ms[k])))
  }

  /** The client state after receiving `ms` in order. */
  function ReceiveAll(s: ClientState, ms: seq<Message>): ClientState {
    Run(s, Frames(ms))
  }

  lemma ReceiveOneMore(s: ClientState, ms: seq<Message>, m: Message)
    ensures ReceiveAll(s, ms + [m]) == OnMessage(ReceiveAll(s, ms), Parsed(m))
  {
    assert Frames(ms + [m]) == Frames(ms) + [Received(Parsed(m))];
    RunSplit(s, Frames(ms), Received(Parsed(m)));
  }

  lemma {:induction false} ReceiveConcat(s: ClientState, a: seq<Message>, b: seq<Message>)
    ensures ReceiveAll(s, a + b) == ReceiveAll(ReceiveAll(s, a), b)
    decreases |b|
  {
    if b == [] {
      assert a + b == a;
      assert Frames(b) == [];
    } else {
      var n := |b| - 1;
      assert a + b == (a + b[..n]) + [b[n]];
      assert b == b[..n] + [b[n]];
      ReceiveOneMore(s, a + b[..n], b[n]);
      ReceiveConcat(s, a, b[..n]);
      ReceiveOneMore(ReceiveAll(s, a), b[..n], b[n]);
    }
  }

  /** The moved vehicles keep their ids. */
  lemma MotionKeepsIds(vs: seq<Vehicle>, rand: nat -> real, now: string, k: nat)
    requires k < |vs|
    ensures Routes.MotionStep(vs, rand, now)[k].id == vs[k].id
  {
  }

  /** Part way through replacing `vs` by `moved` position by position, the
      update for position `k` replaces exactly position `k`. */
  lemma UpsertAtPosition(vs: seq<Vehicle>, moved: seq<Vehicle>, k: nat)
    requires |moved| == |vs| && k < |vs|
    requires forall j :: 0 <= j < |vs| ==> moved[j].id == vs[j].id
    requires forall i, j :: 0 <= i < j < |vs| ==> vs[i].id != vs[j].id
    ensures UpsertVehicle(moved[..k] + vs[k..], moved[k]) == moved[..k + 1] + vs[k + 1..]
  {
    var cur := moved[..k] + vs[k..];
    assert forall j :: 0 <= j < k ==> cur[j] == moved[j];
    assert cur[k] == vs[k];
    assert cur[k := moved[k]] == moved[..k + 1] + vs[k + 1..];
  }

  /** A client showing `vs` that receives one update per position, each
      keeping the id at that position, ends up showing exactly the updates,
      in the same order. */
  lemma UpdatesReplaceInPlace(s: ClientState, vs: seq<Vehicle>, moved: seq<Vehicle>)
    requires s.vehicles == vs && |moved| == |vs|
    requires forall j :: 0 <= j < |vs| ==> moved[j].id == vs[j].id
    requires forall i, j :: 0 <= i < j < |vs| ==> vs[i].id != vs[j].id
    ensures ReceiveAll(s, Routes.VehicleUpdates(moved)).vehicles == moved
  {
    var ms := Routes.VehicleUpdates(moved);
    var k := 0;
    assert ms[..0] == [];
    assert Frames([]) == [];
    while k < |vs|
      invariant 0 <= k <= |vs|
      invariant ReceiveAll(s, ms[..k]).vehicles == moved[..k] + vs[k..]
    {
      TrackStep(s, vs, moved, k);
      k := k + 1;
    }
    assert ms[..|vs|] == ms;
    assert moved[..|vs|] == moved;
  }

  /** One step of `UpdatesReplaceInPlace`. */
  lemma TrackStep(s: ClientState, vs: seq<Vehicle>, moved: seq<Vehicle>, k: nat)
    requires |moved| == |vs| && k < |vs|
    requires forall j :: 0 <= j < |vs| ==> moved[j].id == vs[j].id
    requires forall i, j :: 0 <= i < j < |vs| ==> vs[i].id != vs[j].id
    requires ReceiveAll(s, Routes.VehicleUpdates(moved)[..k]).vehicles == moved[..k] + vs[k..]
    ensures ReceiveAll(s, Routes.VehicleUpdates(moved)[..k + 1]).vehicles == moved[..k + 1] + vs[k + 1..]
  {
    var ms := Routes.VehicleUpdates(moved);
    SliceStep(ms, k);
    ReceiveOneMore(s, ms[..k], ms[k]);
    UpsertAtPosition(vs, moved, k);
  }

  /** A client showing the server's vehicle list keeps showing it across a
      motion tick: each update replaces the vehicle in place, so the client
      ends with the moved list, in the server's order. */
  lemma MotionUpdatesTrackServer(s: ClientState, vs: seq<Vehicle>, rand: nat -> real, now: string)
    requires s.vehicles == vs
    requires forall i, j :: 0 <= i < j < |vs| ==> vs[i].id != vs[j].id
    ensures ReceiveAll(s, Routes.VehicleUpdates(Routes.MotionStep(vs, rand, now))).vehicles == Routes.MotionStep(vs, rand, now)
  {
    var moved := Routes.MotionStep(vs, rand, now);
    forall j | 0 <= j < |vs| ensures moved[j].id == vs[j].id {
      MotionKeepsIds(vs, rand, now, j);
    }
    UpdatesReplaceInPlace(s, vs, moved);
  }

  /** A browser that connects and then receives one motion tick shows the
      moved list, whatever it showed before connecting. */
  lemma ConnectThenTick(s: ClientState, vs: seq<Vehicle>, al: seq<Alert>, rand: nat -> real, now: string)
    requires forall i, j :: 0 <= i < j < |vs| ==> vs[i].id != vs[j].id
    ensures var r := ReceiveAll(s, [InitialData(Some(vs), Some(al))] + Routes.VehicleUpdates(Routes.MotionStep(vs, rand, now)));
      r.vehicles == Routes.MotionStep(vs, rand, now) && r.alerts == al
  {
    var first := [InitialData(Some(vs), Some(al))];
    ReceiveConcat(s, first, Routes.VehicleUpdates(Routes.MotionStep(vs, rand, now)));
    ReceiveOneMore(s, [], first[0]);
    assert [] + first == first;
    assert Frames([]) == [];
    MotionUpdatesTrackServer(ReceiveAll(s, first), vs, rand, now);
    VehicleMessagesKeepAlerts(ReceiveAll(s, first), Routes.VehicleUpdates(Routes.MotionStep(vs, rand, now)));
  }

  /** Vehicle updates change nothing but the vehicle list. */
  lemma {:induction false} VehicleMessagesKeepAlerts(s: ClientState, ms: seq<Message>)
    requires forall k :: 0 <= k < |ms| ==> ms[k].VehicleUpdate?
    ensures ReceiveAll(s, ms).alerts == s.alerts
    ensures ReceiveAll(s, ms).crowdDetection == s.crowdDetection
    ensures ReceiveAll(s, ms).isConnected == s.isConnected
    decreases |ms|
  {
    if ms == [] {
      assert Frames(ms) == [];
    } else {
      var n := |ms| - 1;
      assert ms == ms[..n] + [ms[n]];
      ReceiveOneMore(s, ms[..n], ms[n]);
      VehicleMessagesKeepAlerts(s, ms[..n]);
    }
  }

  function Reverse<T>(xs: seq<T>): (r: seq<T>)
    ensures |r| == |xs|
    ensures forall k :: 0 <= k < |xs| ==> r[k] == xs[|xs| - 1 - k]
  {
    seq(|xs|, k requires 0 <= k < |xs| => xs[|xs| - 1 - k])
  }

  /** Alerts broadcast in creation order reach the feed newest first, above
      whatever it already showed. */
  lemma {:induction false} AlertsArriveNewestFirst(s: ClientState, cs: seq<Alert>)
    ensures ReceiveAll(s, Routes.AlertMessages(cs)).alerts == Reverse(cs) + s.alerts
    ensures ReceiveAll(s, Routes.AlertMessages(cs)).vehicles == s.vehicles
    decreases |cs|
  {
    if cs == [] {
      assert Frames(Routes.AlertMessages(cs)) == [];
    } else {
      var n := |cs| - 1;
      assert cs == cs[..n] + [cs[n]];
      Routes.AlertMessagesConcat(cs[..n], [cs[n]]);
      assert Routes.AlertMessages([cs[n]]) == [AlertRaised(cs[n])];
      ReceiveOneMore(s, Routes.AlertMessages(cs[..n]), AlertRaised(cs[n]));
      AlertsArriveNewestFirst(s, cs[..n]);
      ReverseLast(cs);
    }
  }

  lemma ReverseLast<T>(xs: seq<T>)
    requires |xs| > 0
    ensures Reverse(xs) == [xs[|xs| - 1]] + Reverse(xs[..|xs| - 1])
  {
    var r := [xs[|xs| - 1]] + Reverse(xs[..|xs| - 1]);
    assert forall k :: 0 <= k < |xs| ==> Reverse(xs)[k] == r[k];
  }

  /** The feed order is not uniform: `initial_data` shows the stored alerts
      oldest first, while alerts raised afterwards go on top, newest first. */
  lemma FeedOrderAfterConnect(s: ClientState, vs: seq<Vehicle>, stored: seq<Alert>, cs: seq<Alert>)
    ensures ReceiveAll(s, [InitialData(Some(vs), Some(stored))] + Routes.AlertMessages(cs)).alerts
         == Reverse(cs) + stored
  {
    var first := [InitialData(Some(vs), Some(stored))];
    ReceiveConcat(s, first, Routes.AlertMessages(cs));
    ReceiveOneMore(s, [], first[0]);
    assert [] + first == first;
    assert Frames([]) == [];
    AlertsArriveNewestFirst(ReceiveAll(s, first), cs);
  }
}
