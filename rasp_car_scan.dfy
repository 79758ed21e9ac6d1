/** The basic Raspberry Pi scanner: each tick turns the distance to the
    modem and the two mesh routers into the linear RSSI `-50 - 2 d`, keeps
    the strongest, and writes one row whether or not an AP was selected; a
    mover walks the Pi round and round six positions. */
module RaspCarScan {
  import opened Wrappers
  import opened Geometry
  import opened PathLoss
  import opened Selection
  import opened Cycling

  /** An AP of `[modem, mesh1, mesh2]` and `rasp.getDistanceTo(ap)`. */
  datatype Reading = Reading(name: ApName, distance: real)

  function LinearRssis(rs: seq<Reading>): (vals: seq<Option<real>>)
    ensures |vals| == |rs|
    ensures forall i :: 0 <= i < |rs| ==> vals[i] == Some(LinearRssi(rs[i].distance))
  {
    seq(|rs|, i requires 0 <= i < |rs| => Some(LinearRssi(rs[i].distance)))
  }

  /** The accumulators `best_ap`, `best_rssi`. */
  datatype Best = Best(ap: Option<ApName>, rssi: real)

  /** The accumulators after the loop has looked at the first `n` readings. */
  function BestAfter(rs: seq<Reading>, n: nat): Best
    requires n <= |rs|
  {
    var vals := LinearRssis(rs);
    match SelectPrefix(vals, n)
    case None => Best(None, Unset)
    case Some(k) => Best(Some(rs[k].name), LinearRssi(rs[k].distance))
  }

  function BestOf(rs: seq<Reading>): Best {
    BestAfter(rs, |rs|)
  }

  /** The `for ap in [modem, mesh1, mesh2]` loop. */
  method EvaluateAps(rs: seq<Reading>) returns (best: Best)
    ensures best == BestOf(rs)
  {
    var bestAp: Option<ApName> := None;
    var bestRssi := Unset;
    ghost var vals := LinearRssis(rs);
    var i := 0;
    while i < |rs|
      invariant 0 <= i <= |rs|
      invariant Best(bestAp, bestRssi) == BestAfter(rs, i)
      invariant bestRssi == BestRssi(vals, SelectPrefix(vals, i))
    {
      var rssi := LinearRssi(rs[i].distance);
      if rssi > bestRssi {
        bestRssi := rssi;
        bestAp := Some(rs[i].name);
      }
      i := i + 1;
    }
    best := Best(bestAp, bestRssi);
  }

  /** The farthest distance at which an AP can still beat the initial -999:
      `-50 - 2 d > -999` exactly when `d < 474.5`. */
  const MaxSelectable: real := 474.5

  /** `k` is the first of the nearest readings. */
  ghost predicate IsFirstNearest(rs: seq<Reading>, k: nat) {
    && k < |rs|
    && (forall j :: 0 <= j < k ==> rs[j].distance > rs[k].distance)
    && (forall j :: k < j < |rs| ==> rs[j].distance >= rs[k].distance)
  }

  /** Under the linear formula the strongest signal is the nearest AP: the
      loop selects `k` exactly when `k` is the first nearest AP and it is
      closer than 474.5 m; it selects nothing exactly when every AP is at
      474.5 m or beyond. */
  lemma SelectsFirstNearest(rs: seq<Reading>)
    ensures var b := BestOf(rs);
      && (b.ap.None? <==> forall j :: 0 <= j < |rs| ==> rs[j].distance >= MaxSelectable)
      && (forall k: nat :: Select(LinearRssis(rs)) == Some(k) <==>
            IsFirstNearest(rs, k) && rs[k].distance < MaxSelectable)
  {
    var vals := LinearRssis(rs);
    SelectCorrect(vals);
    forall k: nat
      ensures IsFirstBest(vals, k) <==> IsFirstNearest(rs, k) && rs[k].distance < MaxSelectable
    {
      if k < |rs| {
        forall j | 0 <= j < |rs|
          ensures rs[j].distance > rs[k].distance <==> vals[j].value < vals[k].value
          ensures rs[j].distance >= rs[k].distance <==> vals[j].value <= vals[k].value
        {
          LinearRssiStrictlyDecreasing(rs[k].distance, rs[j].distance);
          LinearRssiStrictlyDecreasing(rs[j].distance, rs[k].distance);
        }
      }
    }
  }

  /** The logged RSSI is the linear RSSI of the logged AP's own distance, or
      -999 with no AP; with non-negative distances it is at most -50. */
  lemma LoggedRssi(rs: seq<Reading>)
    ensures var b := BestOf(rs);
      && (b.ap.None? ==> b.rssi == Unset)
      && (b.ap.Some? ==> exists k :: 0 <= k < |rs| && rs[k].name == b.ap.value
                                  && b.rssi == -50.0 - 2.0 * rs[k].distance)
      && ((forall j :: 0 <= j < |rs| ==> rs[j].distance >= 0.0) ==> b.rssi <= -50.0)
  {
    match SelectPrefix(LinearRssis(rs), |rs|)
    case None =>
    case Some(k) =>
      if forall j :: 0 <= j < |rs| ==> rs[j].distance >= 0.0 {
        LinearRssiAtMostMinus50(rs[k].distance);
      }
  }

  /** One CSV row: the position read, the AP (possibly none) and its RSSI. */
  datatype Row = Row(position: Pos, ap: Option<ApName>, rssi: real)

  /** A tick's inputs: the Pi's `position` parameter and the readings. */
  datatype ScanInput = ScanInput(position: Pos, readings: seq<Reading>)

  function RowOf(input: ScanInput): Row {
    var b := BestOf(input.readings);
    Row(input.position, b.ap, b.rssi)
  }

  /** A bounded run of the `while True` scan loop: one row per tick, every
      tick, even one that selected no AP. */
  method ScanAndLog(inputs: seq<ScanInput>) returns (rows: seq<Row>)
    ensures |rows| == |inputs|
    ensures forall i :: 0 <= i < |inputs| ==> rows[i] == RowOf(inputs[i])
  {
    rows := [];
    var i := 0;
    while i < |inputs|
      invariant 0 <= i <= |inputs| && |rows| == i
      invariant forall k :: 0 <= k < i ==> rows[k] == RowOf(inputs[k])
    {
      var pos := inputs[i].position;
      var best := EvaluateAps(inputs[i].readings);
      rows := rows + [Row(pos, best.ap, best.rssi)];
      i := i + 1;
    }
  }

  /** The six positions of `move_rasp`. */
  const Positions: seq<Pos> := [
    Pos(15.0, 25.0, 0.0), Pos(35.0, 30.0, 0.0), Pos(55.0, 30.0, 0.0),
    Pos(75.0, 30.0, 0.0), Pos(35.0, 30.0, 0.0), Pos(15.0, 25.0, 0.0)]

  /** `rounds` passes of `while True: for pos in positions: rasp.setPosition(pos)`:
      the Pi visits the six positions in list order, again and again, so
      move `i` is at `positions[i % 6]`. */
  method MoveRounds(rasp: Node, rounds: nat)
    modifies rasp
    ensures rasp.trail == old(rasp.trail) + Repeat(Positions, rounds)
    ensures rasp.trail == old(rasp.trail) + Cycle(Positions, rounds * |Positions|)
    ensures rounds > 0 ==> rasp.position == Positions[|Positions| - 1]
    ensures rounds == 0 ==> rasp.position == old(rasp.position)
  {
    ghost var t0 := rasp.trail;
    var r := 0;
    while r < rounds
      invariant 0 <= r <= rounds
      invariant rasp.trail == t0 + Repeat(Positions, r)
      invariant r > 0 ==> rasp.position == Positions[|Positions| - 1]
      invariant r == 0 ==> rasp.position == old(rasp.position)
    {
      var k := 0;
      while k < |Positions|
        invariant 0 <= k <= |Positions|
        invariant rasp.trail == t0 + Repeat(Positions, r) + Positions[..k]
        invariant k > 0 ==> rasp.position == Positions[k - 1]
        invariant k == 0 && r > 0 ==> rasp.position == Positions[|Positions| - 1]
        invariant k == 0 && r == 0 ==> rasp.position == old(rasp.position)
      {
        rasp.SetPosition(Positions[k]);
        assert Positions[..k + 1] == Positions[..k] + [Positions[k]];
        k := k + 1;
      }
      assert Positions[..k] == Positions;
      r := r + 1;
    }
    RepeatIsCycle(Positions, rounds);
  }
}
