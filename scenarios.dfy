/**
  Worked instances of the monitoring rules on concrete vehicles: the
  decisions of the first monitor tick over the seeded fleet, and the life of one overcrowding alert
  from creation through suppression to acknowledgement.
*/
module Scenarios {
  import opened Schema
  import opened Storage
  import opened Routes

  /** The numbers the seeded alerts print: the counts, the capacities and
      the Math.round percentages 75, 83 and 67. */
  lemma SeedMessageNumbers()
    ensures IntText(45) == "45" && IntText(60) == "60" && PercentText(45, 60) == "75"
    ensures IntText(150) == "150" && IntText(180) == "180" && PercentText(150, 180) == "83"
    ensures IntText(120) == "120" && PercentText(120, 180) == "67"
  {
    assert RoundedPercent(45, 60) == 75 && RoundedPercent(150, 180) == 83 && RoundedPercent(120, 180) == 67;
    assert NatText(4) == "4" && NatText(6) == "6" && NatText(7) == "7" && NatText(8) == "8";
    assert NatText(15) == "15" && NatText(18) == "18" && NatText(12) == "12";
  }

  /** The first monitor tick over the seeded fleet, vehicle by vehicle,
      each decided against the alerts raised for the vehicles listed before
      it: Bus MH-01 at 45/60 gets a capacity alert, Bus MH-02 at 28/60
      nothing, Metro M1 at 150/180 an overcrowding alert (Bus MH-01's alert
      belongs to another vehicle), Bus MH-03 at 35/60 nothing, and
      Metro M2 at 120/180 a capacity alert. */
  lemma SeedDecisions(ids: seq<string>, now: string, a0: Alert, a2: Alert)
    requires |ids| == 5
    requires forall i, j :: 0 <= i < j < 5 ==> ids[i] != ids[j]
    requires a0.vehicleId == ids[0] && a2.vehicleId == ids[2]
    ensures var vs := SeedVehicles(ids, now);
      && Decide(vs[0], []) == Some(CapacityAlert(vs[0]))
      && Decide(vs[1], [a0]) == None
      && Decide(vs[2], [a0]) == Some(OvercrowdingAlert(vs[2]))
      && Decide(vs[3], [a0, a2]) == None
      && Decide(vs[4], [a0, a2]) == Some(CapacityAlert(vs[4]))
  {
    var vs := SeedVehicles(ids, now);
    DecideRules(vs[0], []);
    DecideRules(vs[1], [a0]);
    DecideRules(vs[2], [a0]);
    DecideRules(vs[3], [a0, a2]);
    DecideRules(vs[4], [a0, a2]);
  }

  /** The load text for 50 of 60: the count, the capacity and 83%. */
  lemma LoadTextFor50Of60()
    ensures LoadText(50, 60) == "50" + "/" + "60" + " passengers (" + "83" + "%)"
  {
    assert IntText(50) == "50" by {
      assert NatText(5) == "5";
    }
    assert IntText(60) == "60" by {
      assert NatText(6) == "6";
    }
    assert PercentText(50, 60) == "83" by {
      assert RoundedPercent(50, 60) == 83;
      assert NatText(8) == "8";
    }
  }

  /** The overcrowding alert text for 50 of 60. */
  lemma OvercrowdingMessageText()
    ensures OvercrowdingMessage(50, 60) == OvercrowdingPrefix + ("50" + "/" + "60" + " passengers (" + "83" + "%)")
  {
    LoadTextFor50Of60();
  }

  /** One overcrowded bus at 50 of 60 (83%): the first tick raises one high
      alert, the next tick raises nothing, and once the alert is acknowledged
      the following tick raises the same alert again under a new id. */
  lemma OvercrowdingLifecycle(t1: string, t2: string, t3: string)
    ensures PercentText(50, 60) == "83"
    ensures var v := Vehicle("b1", "Bus MH-01", Bus, "Route 356E", 12.97, 77.59, 50, 60, Critical, 35, "t0");
      var f := AlertFields("b1", "Bus MH-01", Overcrowding, High, OvercrowdingMessage(50, 60));
      var first := Created([v], [], ["a1"], t1);
      && first == [NewAlert("a1", f, t1)]
      && Created([v], first, ["a2"], t2) == []
      && Created([v], WithAcknowledged(first, "a1", true), ["a3"], t3) == [NewAlert("a3", f, t3)]
  {
    assert RoundedPercent(50, 60) == 83;
    assert NatText(8) == "8";
    var v := Vehicle("b1", "Bus MH-01", Bus, "Route 356E", 12.97, 77.59, 50, 60, Critical, 35, "t0");
    var f := OvercrowdingAlert(v);
    DecideRules(v, []);
    assert [v][..0] == [] && ["a1"][..0] == [] && ["a3"][..0] == [];
    var first := Created([v], [], ["a1"], t1);
    assert first == [NewAlert("a1", f, t1)];
    RepeatedTickCreatesNothing([v], [], ["a1"], ["a2"], t1, t2);
    assert [] + first == first;
    AcknowledgementReopens(v, [], "a1", t1);
    var acked := WithAcknowledged(first, "a1", true);
    assert Decide(v, acked) == Some(f);
  }
}
