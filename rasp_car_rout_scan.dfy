/** The Raspberry Pi scanner whose mover carries mesh2 along with the Pi:
    the scan tick is the linear one of the basic scanner, and the mover sets
    both nodes to the same position at every step. */
module RaspCarRoutScan {
  import opened Wrappers
  import opened Geometry
  import opened PathLoss
  import opened Selection
  import opened Cycling
  import opened RaspCarScan

  /** With mesh2 on top of the Pi, that is at distance 0, the best RSSI is
      -50; mesh2 (listed last) is the AP selected exactly when neither the
      modem nor mesh1 is also at distance 0. */
  lemma Mesh2AtZero(dModem: real, dMesh1: real)
    requires dModem >= 0.0 && dMesh1 >= 0.0
    ensures var b := BestOf([Reading("modem", dModem), Reading("mesh1", dMesh1), Reading("mesh2", 0.0)]);
      && b.rssi == -50.0
      && (b.ap == Some("mesh2") <==> dModem > 0.0 && dMesh1 > 0.0)
  {
    var rs := [Reading("modem", dModem), Reading("mesh1", dMesh1), Reading("mesh2", 0.0)];
    SelectsFirstNearest(rs);
    var vals := LinearRssis(rs);
    SelectCorrect(vals);
    assert !(rs[2].distance >= MaxSelectable);
    var k := Select(vals).value;
    assert IsFirstNearest(rs, k);
    assert rs[k].distance == 0.0;
    if dModem > 0.0 && dMesh1 > 0.0 {
      assert k == 2;
    } else {
      assert rs[0].distance == 0.0 || rs[1].distance == 0.0;
      assert k != 2;
      assert rs[k].name != "mesh2";
    }
  }

  /** `rounds` passes of `move_rasp_and_mesh2`: each step sets the Pi and
      mesh2 to the same position of the six, in list order, so after every
      move the two are at the same place. */
  method MoveRaspAndMesh2(rasp: Node, mesh2: Node, rounds: nat)
    requires rasp != mesh2
    modifies rasp, mesh2
    ensures rasp.trail == old(rasp.trail) + Repeat(Positions, rounds)
    ensures mesh2.trail == old(mesh2.trail) + Repeat(Positions, rounds)
    ensures rounds > 0 ==> rasp.position == mesh2.position == Positions[|Positions| - 1]
    ensures rounds == 0 ==> rasp.position == old(rasp.position) && mesh2.position == old(mesh2.position)
  {
    ghost var t0, m0 := rasp.trail, mesh2.trail;
    var r := 0;
    while r < rounds
      invariant 0 <= r <= rounds
      invariant rasp.trail == t0 + Repeat(Positions, r)
      invariant mesh2.trail == m0 + Repeat(Positions, r)
      invariant r > 0 ==> rasp.position == mesh2.position == Positions[|Positions| - 1]
      invariant r == 0 ==> rasp.position == old(rasp.position) && mesh2.position == old(mesh2.position)
    {
      var k := 0;
      while k < |Positions|
        invariant 0 <= k <= |Positions|
        invariant rasp.trail == t0 + Repeat(Positions, r) + Positions[..k]
        invariant mesh2.trail == m0 + Repeat(Positions, r) + Positions[..k]
        invariant k > 0 ==> rasp.position == mesh2.position == Positions[k - 1]
        invariant k == 0 && r > 0 ==> rasp.position == mesh2.position == Positions[|Positions| - 1]
        invariant k == 0 && r == 0 ==> rasp.position == old(rasp.position) && mesh2.position == old(mesh2.position)
      {
        rasp.SetPosition(Positions[k]);
        mesh2.SetPosition(Positions[k]);
        assert Positions[..k + 1] == Positions[..k] + [Positions[k]];
        k := k + 1;
      }
      assert Positions[..k] == Positions;
      r := r + 1;
    }
  }
}
