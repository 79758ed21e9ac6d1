/** The mesh scenario with a mobile router on a cart: the per-tick scan that
    picks the best of three routers, flags handovers and derives latency,
    throughput, packet loss and mesh connectivity; and the cart's waypoint
    mobility, which moves router3 and the Raspberry Pi together. */
module MasteringScenario {
  import opened Wrappers
  import opened Geometry
  import opened PathLoss
  import opened Selection
  import opened LinkMetrics

  /** One entry of `aps` and the distance the tick computed for it from the
      positions it read; `None` when evaluating that AP raised. */
  datatype Candidate = Candidate(name: ApName, ssid: string, distance: Option<real>)

  /** `additional_losses` for the open environment. */
  const ExtraLoss: real := 5.0

  function Distance(c: Candidate): Option<real> {
    c.distance
  }

  function Rssis(fspl: Fspl, cands: seq<Candidate>): seq<Option<real>> {
    FreeSpaceRssis(fspl, cands, Distance, ExtraLoss)
  }

  /** The loop's accumulators `best_ap`, `best_ssid`, `best_rssi`, `best_distance`. */
  datatype Best = Best(ap: Option<ApName>, ssid: string, rssi: real, distance: real)

  const NoBest: Best := Best(None, "", Unset, NoDistance)

  /** The accumulators after the loop has looked at the first `n` candidates. */
  function BestAfter(fspl: Fspl, cands: seq<Candidate>, n: nat): Best
    requires n <= |cands|
  {
    var vals := Rssis(fspl, cands);
    match SelectPrefix(vals, n)
    case None => NoBest
    case Some(k) =>
      assert vals[k] == CandidateRssi(fspl, cands[k].distance, ExtraLoss);
      Best(Some(cands[k].name), cands[k].ssid, vals[k].value, ClampDistance(cands[k].distance.value))
  }

  function BestOf(fspl: Fspl, cands: seq<Candidate>): Best {
    BestAfter(fspl, cands, |cands|)
  }

  /** The per-AP loop of `scan_and_log`. */
  method EvaluateAps(fspl: Fspl, cands: seq<Candidate>) returns (best: Best)
    ensures best == BestOf(fspl, cands)
  {
    var bestAp: Option<ApName> := None;
    var bestRssi := Unset;
    var bestDistance := NoDistance;
    var bestSsid := "";
    ghost var vals := Rssis(fspl, cands);
    var i := 0;
    while i < |cands|
      invariant 0 <= i <= |cands|
      invariant Best(bestAp, bestSsid, bestRssi, bestDistance) == BestAfter(fspl, cands, i)
      invariant bestRssi == BestRssi(vals, SelectPrefix(vals, i))
    {
      var c := cands[i];
      if c.distance.Some? {
        var distance := ClampDistance(c.distance.value);
        var rssi := FreeSpaceRssi(fspl, distance, ExtraLoss);
        if rssi > bestRssi {
          bestRssi := rssi;
          bestAp := Some(c.name);
          bestDistance := distance;
          bestSsid := c.ssid;
        }
      }
      i := i + 1;
    }
    best := Best(bestAp, bestSsid, bestRssi, bestDistance);
  }

  /** What the loop's result means: either no AP got above -999 and the
      initial values stand, or the first AP with the maximal RSSI is selected
      and the ssid, RSSI and (clamped) distance are all that AP's. */
  lemma BestOfSpec(fspl: Fspl, cands: seq<Candidate>)
    ensures var b, vals := BestOf(fspl, cands), Rssis(fspl, cands);
      && (b.ap.None? <==> NoneAboveUnset(vals))
      && (b.ap.None? ==> b == NoBest)
      && (forall k: nat :: IsFirstBest(vals, k) ==>
            && cands[k].distance.Some?
            && b == Best(Some(cands[k].name), cands[k].ssid, vals[k].value, ClampDistance(cands[k].distance.value)))
  {
    SelectCorrect(Rssis(fspl, cands));
  }

  /** `handover_detected = "YES" if last_ap and last_ap != best_ap else "NO"`. */
  predicate Handover(lastAp: Option<ApName>, bestAp: Option<ApName>) {
    lastAp.Some? && lastAp != bestAp
  }

  /** Simulated 802.11g throughput in Mbps. */
  function Throughput(bestRssi: real): real {
    if bestRssi > -50.0 then 54.0
    else if bestRssi > -60.0 then 36.0
    else if bestRssi > -70.0 then 18.0
    else 6.0
  }

  function Min(a: real, b: real): real { if a <= b then a else b }
  function Max(a: real, b: real): real { if a >= b then a else b }

  /** `min(100, max(0, (best_distance / 100) * 15))`. */
  function PacketLoss(bestDistance: real): (p: real)
    ensures 0.0 <= p <= 100.0
  {
    Min(100.0, Max(0.0, (bestDistance / 100.0) * 15.0))
  }

  /** Everything one tick derives before it writes its row. */
  datatype TickRecord = TickRecord(
    best: Best, handover: bool, latency: real, throughput: real,
    packetLoss: real, meshConnected: bool)

  function TickOf(fspl: Fspl, cands: seq<Candidate>, lastAp: Option<ApName>): TickRecord {
    var b := BestOf(fspl, cands);
    TickRecord(b, Handover(lastAp, b.ap), Latency(b.distance), Throughput(b.rssi),
               PacketLoss(b.distance), Connected(b.rssi))
  }

  lemma ThroughputMonotone(r1: real, r2: real)
    requires r1 <= r2
    ensures Throughput(r1) <= Throughput(r2)
  {
  }

  lemma MeshConnectedIffThroughput(r: real)
    ensures Connected(r) <==> Throughput(r) >= 18.0
  {
  }

  /** A tick in which every AP evaluation failed (or none got above -999)
      keeps the initial values: no AP, RSSI -999, distance 999, latency 999,
      the lowest throughput, 100% loss, not connected. */
  lemma TickWithoutAp(fspl: Fspl, cands: seq<Candidate>, lastAp: Option<ApName>)
    requires forall i :: 0 <= i < |cands| ==> cands[i].distance.None?
    ensures var t := TickOf(fspl, cands, lastAp);
      && t.best == NoBest
      && t.latency == 999.0 && t.throughput == 6.0 && t.packetLoss == 100.0
      && !t.meshConnected
      && (t.handover <==> lastAp.Some?)
  {
    BestOfSpec(fspl, cands);
  }

  /** A tick that selects AP `k` reports that AP's clamped distance, the
      affine latency when that distance is below 999, and a packet loss of
      15 per 100 m capped at 100. */
  lemma TickWithAp(fspl: Fspl, cands: seq<Candidate>, lastAp: Option<ApName>, k: nat)
    requires IsFirstBest(Rssis(fspl, cands), k)
    ensures cands[k].distance.Some?
    ensures var t, d := TickOf(fspl, cands, lastAp), ClampDistance(cands[k].distance.value);
      && t.best.ap == Some(cands[k].name)
      && t.best.distance == d >= DistanceFloor
      && (d < NoDistance ==> t.latency == 5.0 + 0.1 * d)
      && (d * 0.15 <= 100.0 ==> t.packetLoss == d * 0.15)
      && (d * 0.15 > 100.0 ==> t.packetLoss == 100.0)
      && (t.handover <==> lastAp.Some? && lastAp != Some(cands[k].name))
  {
    BestOfSpec(fspl, cands);
  }

  /** One CSV row; rounding to two decimals at write time is not modelled. */
  datatype Row = Row(
    rasp: Pos, router3: Pos, bestAp: ApName, ssid: string, rssi: real,
    distanceToAp: real, latency: real, throughput: real, packetLoss: real,
    handover: bool, meshConnected: bool)

  /** The rows a tick writes: one when `best_ap` is set, none otherwise. */
  function RowsOf(t: TickRecord, rasp: Pos, router3: Pos): (rows: seq<Row>)
    ensures |rows| <= 1
    ensures |rows| == 1 <==> t.best.ap.Some?
    ensures |rows| == 1 ==> rows[0].bestAp == t.best.ap.value && rows[0].distanceToAp == t.best.distance
  {
    match t.best.ap
    case None => []
    case Some(ap) =>
      [Row(rasp, router3, ap, t.best.ssid, t.best.rssi, t.best.distance, t.latency,
           t.throughput, t.packetLoss, t.handover, t.meshConnected)]
  }

  /** What a tick reads: the Pi's and the cart router's positions and, per AP,
      the distance computed from them. */
  datatype ScanInput = ScanInput(rasp: Pos, router3: Pos, candidates: seq<Candidate>)

  /** The records of consecutive ticks, starting from `lastAp`. */
  function Ticks(fspl: Fspl, inputs: seq<ScanInput>, lastAp: Option<ApName>): (ts: seq<TickRecord>)
    ensures |ts| == |inputs|
    decreases |inputs|
  {
    if inputs == [] then []
    else
      var t := TickOf(fspl, inputs[0].candidates, lastAp);
      [t] + Ticks(fspl, inputs[1..], t.best.ap)
  }

  /** Tick `i` of a run flags a handover exactly when the previous tick
      selected an AP and this tick selected a different one (or none); the
      first tick of a run compares against `lastAp`. */
  lemma {:induction false} TicksHandover(fspl: Fspl, inputs: seq<ScanInput>, lastAp: Option<ApName>, i: nat)
    requires i < |inputs|
    ensures var ts := Ticks(fspl, inputs, lastAp);
      && ts[i] == TickOf(fspl, inputs[i].candidates, if i == 0 then lastAp else ts[i - 1].best.ap)
      && (ts[i].handover <==>
            if i == 0 then lastAp.Some? && lastAp != ts[0].best.ap
            else ts[i - 1].best.ap.Some? && ts[i - 1].best.ap != ts[i].best.ap)
  {
    if i > 0 {
      var t := TickOf(fspl, inputs[0].candidates, lastAp);
      TicksHandover(fspl, inputs[1..], t.best.ap, i - 1);
    }
  }

  /** A run that starts with no previous AP never flags a handover on its first tick. */
  lemma FirstTickNoHandover(fspl: Fspl, inputs: seq<ScanInput>)
    requires |inputs| > 0
    ensures !Ticks(fspl, inputs, None)[0].handover
  {
    TicksHandover(fspl, inputs, None, 0);
  }

  /** The rows the ticks `ts` write, tick `i` having read `inputs[i]`. */
  function RowsFor(ts: seq<TickRecord>, inputs: seq<ScanInput>): (rows: seq<Row>)
    requires |ts| <= |inputs|
    ensures |rows| <= |ts|
    decreases |ts|
  {
    if ts == [] then []
    else
      var n := |ts| - 1;
      RowsFor(ts[..n], inputs) + RowsOf(ts[n], inputs[n].rasp, inputs[n].router3)
  }

  /** One more tick adds that tick's rows at the end. */
  lemma RowsForSnoc(ts: seq<TickRecord>, t: TickRecord, inputs: seq<ScanInput>)
    requires |ts| < |inputs|
    ensures RowsFor(ts + [t], inputs) == RowsFor(ts, inputs) + RowsOf(t, inputs[|ts|].rasp, inputs[|ts|].router3)
  {
    assert (ts + [t])[..|ts|] == ts;
  }

  /** Every row a run writes names the AP its tick selected, with that
      tick's handover flag. */
  lemma {:induction false} RowsForSelected(ts: seq<TickRecord>, inputs: seq<ScanInput>, j: nat)
    requires |ts| <= |inputs| && j < |RowsFor(ts, inputs)|
    ensures exists i :: 0 <= i < |ts| && ts[i].best.ap == Some(RowsFor(ts, inputs)[j].bestAp)
                        && ts[i].handover == RowsFor(ts, inputs)[j].handover
    decreases |ts|
  {
    var n := |ts| - 1;
    if j < |RowsFor(ts[..n], inputs)| {
      RowsForSelected(ts[..n], inputs, j);
      var i :| 0 <= i < n && ts[..n][i].best.ap == Some(RowsFor(ts[..n], inputs)[j].bestAp)
                         && ts[..n][i].handover == RowsFor(ts[..n], inputs)[j].handover;
      assert ts[..n][i] == ts[i];
    } else {
      assert ts[n].best.ap == Some(RowsFor(ts, inputs)[j].bestAp);
    }
  }

  /** What one more tick does to the run so far: its record follows the
      earlier ones and its rows follow theirs. */
  lemma ScanStep(fspl: Fspl, inputs: seq<ScanInput>, last0: Option<ApName>, rows0: seq<Row>,
                 ts: seq<TickRecord>, last: Option<ApName>, rows: seq<Row>, t: TickRecord, rows': seq<Row>)
    requires |ts| < |inputs|
    requires Ticks(fspl, inputs, last0) == ts + Ticks(fspl, inputs[|ts|..], last)
    requires rows == rows0 + RowsFor(ts, inputs)
    requires t == TickOf(fspl, inputs[|ts|].candidates, last)
    requires rows' == rows + RowsOf(t, inputs[|ts|].rasp, inputs[|ts|].router3)
    ensures Ticks(fspl, inputs, last0) == (ts + [t]) + Ticks(fspl, inputs[|ts| + 1..], t.best.ap)
    ensures rows' == rows0 + RowsFor(ts + [t], inputs)
  {
    var i := |ts|;
    var rest := Ticks(fspl, inputs[i + 1..], t.best.ap);
    assert inputs[i..][1..] == inputs[i + 1..];
    assert Ticks(fspl, inputs[i..], last) == [t] + rest;
    AppendAssoc(ts, [t], rest);
    RowsForSnoc(ts, t, inputs);
    AppendAssoc(rows0, RowsFor(ts, inputs), RowsOf(t, inputs[i].rasp, inputs[i].router3));
  }

  lemma AppendAssoc<T>(a: seq<T>, b: seq<T>, c: seq<T>)
    ensures (a + b) + c == a + (b + c)
  {
  }

  /** The scan thread's state: `last_ap` and the rows written so far. */
  class MeshScanner {
    var lastAp: Option<ApName>
    var rows: seq<Row>

    constructor ()
      ensures lastAp == None && rows == []
    {
      lastAp := None;
      rows := [];
    }

    /** One iteration of the `for i in range(total_scans)` loop. */
    method ScanTick(fspl: Fspl, input: ScanInput) returns (t: TickRecord)
      modifies this
      ensures t == TickOf(fspl, input.candidates, old(lastAp))
      ensures lastAp == t.best.ap
      ensures rows == old(rows) + RowsOf(t, input.rasp, input.router3)
    {
      var best := EvaluateAps(fspl, input.candidates);
      var handover := Handover(lastAp, best.ap);
      lastAp := best.ap;
      var latency := Latency(best.distance);
      var throughput := Throughput(best.rssi);
      var packetLoss := PacketLoss(best.distance);
      var meshConnected := Connected(best.rssi);
      t := TickRecord(best, handover, latency, throughput, packetLoss, meshConnected);
      if best.ap.Some? {
        rows := rows + [Row(input.rasp, input.router3, best.ap.value, best.ssid, best.rssi,
                            best.distance, latency, throughput, packetLoss, handover, meshConnected)];
      }
    }

    /** The scan loop over a bounded number of ticks (the scenario runs 30). */
    method ScanAndLog(fspl: Fspl, inputs: seq<ScanInput>) returns (ts: seq<TickRecord>)
      modifies this
      ensures ts == Ticks(fspl, inputs, old(lastAp))
      ensures lastAp == if inputs == [] then old(lastAp) else ts[|ts| - 1].best.ap
      ensures rows == old(rows) + RowsFor(ts, inputs)
    {
      ts := [];
      ghost var last0, rows0 := lastAp, rows;
      while |ts| < |inputs|
        invariant |ts| <= |inputs|
        invariant Ticks(fspl, inputs, last0) == ts + Ticks(fspl, inputs[|ts|..], lastAp)
        invariant lastAp == if ts == [] then last0 else ts[|ts| - 1].best.ap
        invariant rows == rows0 + RowsFor(ts, inputs)
        decreases |inputs| - |ts|
      {
        ghost var last, written := lastAp, rows;
        var t := ScanTick(fspl, inputs[|ts|]);
        ScanStep(fspl, inputs, last0, rows0, ts, last, written, t, rows);
        ts := ts + [t];
      }
      assert inputs[|ts|..] == [];
    }
  }

  // ----- mobility of the cart (router3 carrying the Raspberry Pi) -----

  const Waypoints: seq<Pos> := [
    Pos(0.0, 0.0, 0.0), Pos(25.0, 0.0, 0.0), Pos(50.0, 50.0, 0.0),
    Pos(25.0, 50.0, 0.0), Pos(0.0, 25.0, 0.0), Pos(25.0, 25.0, 0.0)]

  const WaypointRadius: real := 5.0
  const StepSize: real := 2.0

  /** The waypoint the tick steers to. The code tests `sqrt(...) < 5`; for a
      non-negative square root that is the same as the squared distance being
      below 25. */
  function NextWaypoint(i: nat, p: Pos): (j: nat)
    requires i < |Waypoints|
    ensures j < |Waypoints|
    ensures SqDist(p, Waypoints[i]) < WaypointRadius * WaypointRadius ==> j == (i + 1) % |Waypoints|
    ensures SqDist(p, Waypoints[i]) >= WaypointRadius * WaypointRadius ==> j == i
  {
    if SqDist(p, Waypoints[i]) < WaypointRadius * WaypointRadius then (i + 1) % |Waypoints| else i
  }

  /** The new position: `current + (target - current) / distance * step_size`,
      and `current + (target - current)` when the distance is 0; `norm` stands
      for `math.sqrt` of the squared distance to `target`. */
  function Step(p: Pos, target: Pos, norm: real): Pos {
    var dx, dy, dz := target.x - p.x, target.y - p.y, target.z - p.z;
    if norm > 0.0 then
      Pos(p.x + (dx / norm) * StepSize, p.y + (dy / norm) * StepSize, p.z + (dz / norm) * StepSize)
    else
      Pos(p.x + dx, p.y + dy, p.z + dz)
  }

  lemma StepFactor(d: real, norm: real)
    requires norm > 0.0
    ensures (d / norm) * StepSize == (StepSize / norm) * d
  {
  }

  /** Each coordinate of the step is the same multiple `2 / norm` of the
      difference to the target. */
  lemma StepScaled(p: Pos, target: Pos, norm: real)
    requires norm > 0.0
    ensures var q, k := Step(p, target, norm), StepSize / norm;
      q.x - p.x == k * (target.x - p.x) && q.y - p.y == k * (target.y - p.y)
      && q.z - p.z == k * (target.z - p.z)
  {
    StepFactor(target.x - p.x, norm);
    StepFactor(target.y - p.y, norm);
    StepFactor(target.z - p.z, norm);
  }

  /** With the true distance, a step away from the target has length exactly
      2 m, with no clamp; on the target, the node stays where it is. */
  lemma StepLength(p: Pos, target: Pos, norm: real)
    requires norm >= 0.0 && norm * norm == SqDist(p, target)
    ensures norm > 0.0 ==> SqDist(p, Step(p, target, norm)) == StepSize * StepSize
    ensures norm == 0.0 ==> Step(p, target, norm) == target && SqDist(p, Step(p, target, norm)) == 0.0
  {
    var q := Step(p, target, norm);
    if norm > 0.0 {
      var k := StepSize / norm;
      StepScaled(p, target, norm);
      SqDistScaled(p, q, p, target, k);
      assert k * norm == StepSize;
      ScaledSquare(norm, k);
    }
  }

  /** A move by `k` times the difference to `t`, where `k * norm == 2`,
      ends `|2 - norm|` from `t`. */
  lemma ScaledMoveRemaining(p: Pos, t: Pos, q: Pos, k: real, norm: real)
    requires q.x - p.x == k * (t.x - p.x) && q.y - p.y == k * (t.y - p.y) && q.z - p.z == k * (t.z - p.z)
    requires k * norm == StepSize && norm * norm == SqDist(p, t)
    ensures SqDist(q, t) == (StepSize - norm) * (StepSize - norm)
  {
    var c := 1.0 - k;
    assert q.x - t.x == c * (p.x - t.x);
    assert q.y - t.y == c * (p.y - t.y);
    assert q.z - t.z == c * (p.z - t.z);
    SqDistScaled(q, t, p, t, c);
    RemainingSquare(SqDist(q, t), c, norm);
  }

  lemma RemainingSquare(s: real, c: real, norm: real)
    requires s == (c * c) * (norm * norm) && c * norm == norm - StepSize
    ensures s == (StepSize - norm) * (StepSize - norm)
  {
    ScaledSquare(norm, c);
  }

  /** The step is never shortened: from distance `norm` the node ends
      `|2 - norm|` from the target, so it lands on it only from exactly 2 m
      and otherwise overshoots or falls short. */
  lemma StepOvershoots(p: Pos, target: Pos, norm: real)
    requires norm > 0.0 && norm * norm == SqDist(p, target)
    ensures SqDist(Step(p, target, norm), target) == (StepSize - norm) * (StepSize - norm)
  {
    var k := StepSize / norm;
    StepScaled(p, target, norm);
    ScaledMoveRemaining(p, target, Step(p, target, norm), k, norm);
  }

  /** `closest_router`: compares the 2-D distances to router1 at (0,0) and
      router2 at (50,50); squared distances order the same way. */
  function ClosestRouter(p: Pos): string {
    var d1 := p.x * p.x + p.y * p.y;
    var d2 := (p.x - 50.0) * (p.x - 50.0) + (p.y - 50.0) * (p.y - 50.0);
    if d1 < d2 then "router1" else "router2"
  }

  /** On the diagonal x + y = 50, exactly half-way, the tie goes to router2. */
  lemma ClosestRouterTie(p: Pos)
    requires p.x + p.y == 50.0
    ensures ClosestRouter(p) == "router2"
  {
  }

  /** A square root, which the code gets from `math.sqrt`. */
  ghost predicate IsSqrt(sqrt: real -> real) {
    forall x :: x >= 0.0 ==> sqrt(x) >= 0.0 && sqrt(x) * sqrt(x) == x
  }

  /** Below the arrival radius exactly when the square is below its square. */
  lemma SquareBelowRadius(s: real)
    requires s >= 0.0
    ensures s < WaypointRadius <==> s * s < WaypointRadius * WaypointRadius
  {
    if s < WaypointRadius {
      MulBelow(s, s, WaypointRadius);
    } else {
      MulBelow(s, WaypointRadius, s);
    }
  }

  /** Multiplying by a non-negative factor keeps `<=`. */
  lemma MulBelow(c: real, a: real, b: real)
    requires c >= 0.0 && a <= b
    ensures c * a <= c * b
  {
    assert c * b - c * a == c * (b - a);
  }

  /** The code's test `sqrt(d2) < 5` and the model's `d2 < 25` agree. */
  lemma ArrivalTest(sqrt: real -> real, p: Pos, q: Pos)
    requires IsSqrt(sqrt)
    ensures sqrt(SqDist(p, q)) < WaypointRadius <==> SqDist(p, q) < WaypointRadius * WaypointRadius
  {
    var d := SqDist(p, q);
    assert sqrt(d) >= 0.0 && sqrt(d) * sqrt(d) == d;
    SquareBelowRadius(sqrt(d));
  }

  lemma MulPositive(x: real, y: real)
    requires x > 0.0 && y > 0.0
    ensures x * y > 0.0
  {
  }

  /** Non-negative numbers order as their squares do. */
  lemma SquareOrder(ra: real, rb: real)
    requires ra >= 0.0 && rb >= 0.0
    ensures ra < rb <==> ra * ra < rb * rb
  {
    if ra < rb {
      MulPositive(rb - ra, rb + ra);
      assert (rb - ra) * (rb + ra) == rb * rb - ra * ra;
    } else {
      MulBelow(rb, rb, ra);
      MulBelow(ra, rb, ra);
    }
  }

  /** The code's test `sqrt(x² + y²) < sqrt((x-50)² + (y-50)²)` and the
      model's comparison of the squares pick the same router. */
  lemma ClosestRouterSqrt(sqrt: real -> real, p: Pos)
    requires IsSqrt(sqrt)
    ensures var d1 := p.x * p.x + p.y * p.y;
      var d2 := (p.x - 50.0) * (p.x - 50.0) + (p.y - 50.0) * (p.y - 50.0);
      ClosestRouter(p) == if sqrt(d1) < sqrt(d2) then "router1" else "router2"
  {
    var d1 := p.x * p.x + p.y * p.y;
    var d2 := (p.x - 50.0) * (p.x - 50.0) + (p.y - 50.0) * (p.y - 50.0);
    var u, v := p.x - 50.0, p.y - 50.0;
    assert u * u >= 0.0 && v * v >= 0.0;
    assert d1 >= 0.0 && d2 >= 0.0;
    SquareOrder(sqrt(d1), sqrt(d2));
  }

  /** Where the cart is: the index of the waypoint it heads for and the
      position of router3. */
  type WaypointIndex = i: nat | i < 6

  datatype Cursor = Cursor(waypoint: WaypointIndex, position: Pos)

  /** One movement tick: the new waypoint index and the new position. */
  function CartStep(c: Cursor, sqrt: real -> real): (r: Cursor)
    ensures r.waypoint == NextWaypoint(c.waypoint, c.position)
  {
    var j := NextWaypoint(c.waypoint, c.position);
    var norm := sqrt(SqDist(c.position, Waypoints[j]));
    Cursor(j, Step(c.position, Waypoints[j], norm))
  }

  /** `f` applied `n` times to `s`. */
  function Iterate<S>(f: S -> S, s: S, n: nat): S
    decreases n
  {
    if n == 0 then s else f(Iterate(f, s, n - 1))
  }

  /** The states after 1, 2, ..., `n` applications of `f` to `s`. */
  function Trace<S>(f: S -> S, s: S, n: nat): (t: seq<S>)
    ensures |t| == n
    decreases n
  {
    if n == 0 then [] else Trace(f, s, n - 1) + [Iterate(f, s, n)]
  }

  lemma {:induction false} TraceAt<S>(f: S -> S, s: S, n: nat, m: nat)
    requires m < n
    ensures Trace(f, s, n)[m] == Iterate(f, s, m + 1)
    decreases n
  {
    if m < n - 1 {
      TraceAt(f, s, n - 1, m);
    }
  }

  /** The cursor after `n` movement ticks. */
  function CartAfter(c: Cursor, n: nat, sqrt: real -> real): Cursor {
    Iterate((d: Cursor) => CartStep(d, sqrt), c, n)
  }

  /** The positions `n` movement ticks set, in order. */
  function CartRun(c: Cursor, n: nat, sqrt: real -> real): (ps: seq<Pos>)
    ensures |ps| == n
  {
    var t := Trace((d: Cursor) => CartStep(d, sqrt), c, n);
    seq(n, k requires 0 <= k < n => t[k].position)
  }

  /** A movement tick advances the waypoint index, modulo six, exactly when
      `math.sqrt` puts the cart less than 5 m from its current waypoint,
      keeps it otherwise, and steps toward the waypoint so chosen. */
  lemma WaypointAdvance(c: Cursor, sqrt: real -> real)
    requires IsSqrt(sqrt)
    ensures var r, d := CartStep(c, sqrt), sqrt(SqDist(c.position, Waypoints[c.waypoint]));
      && (d < WaypointRadius ==> r.waypoint == (c.waypoint + 1) % |Waypoints|)
      && (d >= WaypointRadius ==> r.waypoint == c.waypoint)
      && r.position == Step(c.position, Waypoints[r.waypoint], sqrt(SqDist(c.position, Waypoints[r.waypoint])))
  {
    ArrivalTest(sqrt, c.position, Waypoints[c.waypoint]);
  }

  /** One tick moves exactly 2 m, or not at all when already on the target. */
  lemma CartStepLength(c: Cursor, sqrt: real -> real)
    requires IsSqrt(sqrt)
    ensures var q := CartStep(c, sqrt).position;
      SqDist(c.position, q) == StepSize * StepSize || SqDist(c.position, q) == 0.0
  {
    var j := NextWaypoint(c.waypoint, c.position);
    StepLength(c.position, Waypoints[j], sqrt(SqDist(c.position, Waypoints[j])));
  }

  /** Every tick of a run moves exactly 2 m from the position before it, or
      not at all when the node was already on its target. */
  lemma CartRunSteps(c: Cursor, n: nat, sqrt: real -> real, m: nat)
    requires IsSqrt(sqrt) && m < n
    ensures var ps := CartRun(c, n, sqrt);
      var prev := if m == 0 then c.position else ps[m - 1];
      SqDist(prev, ps[m]) == StepSize * StepSize || SqDist(prev, ps[m]) == 0.0
  {
    var f := (d: Cursor) => CartStep(d, sqrt);
    TraceAt(f, c, n, m);
    if m > 0 {
      TraceAt(f, c, n, m - 1);
    }
    CartStepLength(Iterate(f, c, m), sqrt);
  }

  /** The `move_cart` thread's state: the waypoint index, the positions of
      router3 and of the Raspberry Pi it carries, and every position the two
      were given by `setPosition`, in order. */
  class Cart {
    var currentWaypoint: WaypointIndex
    var router3: Pos
    var raspberry: Pos
    var trail: seq<Pos>

    /** router3 and the Pi are always set together, so they share a position. */
    ghost predicate Valid()
      reads this
    {
      raspberry == router3
    }

    /** Both nodes start at (25, 25, 0) and the cart heads for waypoint 0. */
    constructor ()
      ensures Valid() && currentWaypoint == 0
      ensures router3 == raspberry == Pos(25.0, 25.0, 0.0) && trail == []
    {
      currentWaypoint := 0;
      router3 := Pos(25.0, 25.0, 0.0);
      raspberry := Pos(25.0, 25.0, 0.0);
      trail := [];
    }

    /** One iteration of `for i in range(total_moves)`: reads router3's
        position, advances the waypoint inside the radius, steps toward the
        (possibly new) target, moves both nodes there, and names the closer
        static router. */
    method MoveTick(sqrt: real -> real) returns (closest: string)
      requires Valid()
      modifies this
      ensures Valid()
      ensures Cursor(currentWaypoint, router3) == CartStep(Cursor(old(currentWaypoint), old(router3)), sqrt)
      ensures raspberry == router3
      ensures trail == old(trail) + [router3]
      ensures closest == ClosestRouter(router3)
    {
      var current := router3;
      if SqDist(current, Waypoints[currentWaypoint]) < WaypointRadius * WaypointRadius {
        currentWaypoint := (currentWaypoint + 1) % |Waypoints|;
      }
      var target := Waypoints[currentWaypoint];
      var distance := sqrt(SqDist(current, target));
      var next := Step(current, target, distance);
      router3 := next;
      raspberry := next;
      trail := trail + [next];
      closest := ClosestRouter(next);
    }

    /** The whole `move_cart` loop over `total` ticks (the scenario runs 30). */
    method MoveCart(sqrt: real -> real, total: nat) returns (closest: seq<string>)
      requires Valid()
      modifies this
      ensures Valid() && raspberry == router3
      ensures Cursor(currentWaypoint, router3) == CartAfter(Cursor(old(currentWaypoint), old(router3)), total, sqrt)
      ensures trail == old(trail) + CartRun(Cursor(old(currentWaypoint), old(router3)), total, sqrt)
      ensures |closest| == total
      ensures forall m :: 0 <= m < total ==> closest[m] == ClosestRouter(trail[|old(trail)| + m])
    {
      closest := [];
      ghost var c0, t0 := Cursor(currentWaypoint, router3), trail;
      ghost var f := (d: Cursor) => CartStep(d, sqrt);
      ghost var done: seq<Cursor> := [];
      var m := 0;
      while m < total
        invariant 0 <= m <= total && Valid()
        invariant Cursor(currentWaypoint, router3) == Iterate(f, c0, m)
        invariant done == Trace(f, c0, m) && |closest| == m
        invariant trail == t0 + seq(m, k requires 0 <= k < m => done[k].position)
        invariant forall k :: 0 <= k < m ==> closest[k] == ClosestRouter(trail[|t0| + k])
      {
        var c := MoveTick(sqrt);
        done := done + [Cursor(currentWaypoint, router3)];
        closest := closest + [c];
        m := m + 1;
      }
    }
  }
}
