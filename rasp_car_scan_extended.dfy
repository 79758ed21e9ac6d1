/** The extended Raspberry Pi scanner: each tick computes the distance to the
    modem and the two mesh routers from their coordinates, picks the AP with
    the strongest free-space RSSI, classifies the signal, and writes a row
    only when an AP was selected; a mover walks the Pi through 20 positions. */
module RaspCarScanExtended {
  import opened Wrappers
  import opened Geometry
  import opened PathLoss
  import opened Selection
  import opened LinkMetrics
  import opened Cycling

  /** An AP of `[modem, mesh1, mesh2]` and the Euclidean distance the tick
      computed from the coordinates it read; `None` when reading or
      converting them raised. */
  datatype Candidate = Candidate(name: ApName, distance: Option<real>)

  /** `additional_losses` for walls and obstacles. */
  const ExtraLoss: real := 10.0

  function Distance(c: Candidate): Option<real> {
    c.distance
  }

  function Rssis(fspl: Fspl, cands: seq<Candidate>): seq<Option<real>> {
    FreeSpaceRssis(fspl, cands, Distance, ExtraLoss)
  }

  /** The accumulators `best_ap`, `best_rssi`, `best_distance`. */
  datatype Best = Best(ap: Option<ApName>, rssi: real, distance: real)

  const NoBest: Best := Best(None, Unset, NoDistance)

  /** The accumulators after the loop has looked at the first `n` candidates. */
  function BestAfter(fspl: Fspl, cands: seq<Candidate>, n: nat): Best
    requires n <= |cands|
  {
    var vals := Rssis(fspl, cands);
    match SelectPrefix(vals, n)
    case None => NoBest
    case Some(k) =>
      assert vals[k] == CandidateRssi(fspl, cands[k].distance, ExtraLoss);
      Best(Some(cands[k].name), vals[k].value, ClampDistance(cands[k].distance.value))
  }

  function BestOf(fspl: Fspl, cands: seq<Candidate>): Best {
    BestAfter(fspl, cands, |cands|)
  }

  /** The `for ap in [modem, mesh1, mesh2]` loop. */
  method EvaluateAps(fspl: Fspl, cands: seq<Candidate>) returns (best: Best)
    ensures best == BestOf(fspl, cands)
  {
    var bestAp: Option<ApName> := None;
    var bestRssi := Unset;
    var bestDistance := NoDistance;
    ghost var vals := Rssis(fspl, cands);
    var i := 0;
    while i < |cands|
      invariant 0 <= i <= |cands|
      invariant Best(bestAp, bestRssi, bestDistance) == BestAfter(fspl, cands, i)
      invariant bestRssi == BestRssi(vals, SelectPrefix(vals, i))
    {
      var c := cands[i];
      if c.distance.Some? {
        var distance := ClampDistance(c.distance.value);
        var rssi := FreeSpaceRssi(fspl, distance, ExtraLoss);
        if rssi > bestRssi {
          bestRssi := rssi;
          bestAp := Some(c.name);
          bestDistance := distance;
        }
      }
      i := i + 1;
    }
    best := Best(bestAp, bestRssi, bestDistance);
  }

  /** Either no AP got above -999 and the initial values stand, or the first
      AP with the maximal RSSI is selected and the RSSI and the clamped
      distance are that AP's. */
  lemma BestOfSpec(fspl: Fspl, cands: seq<Candidate>)
    ensures var b, vals := BestOf(fspl, cands), Rssis(fspl, cands);
      && (b.ap.None? <==> NoneAboveUnset(vals))
      && (b.ap.None? ==> b == NoBest)
      && (forall k: nat :: IsFirstBest(vals, k) ==>
            && cands[k].distance.Some?
            && b == Best(Some(cands[k].name), vals[k].value, ClampDistance(cands[k].distance.value)))
  {
    SelectCorrect(Rssis(fspl, cands));
  }

  /** `signal_quality`. */
  datatype Quality = Excellent | Good | Fair | Poor

  function SignalQuality(rssi: real): Quality {
    if rssi > -50.0 then Excellent
    else if rssi > -60.0 then Good
    else if rssi > -70.0 then Fair
    else Poor
  }

  /** The buckets from best (0) to worst (3). */
  function QualityRank(q: Quality): nat {
    match q
    case Excellent => 0
    case Good => 1
    case Fair => 2
    case Poor => 3
  }

  /** A stronger signal never gets a worse bucket. */
  lemma SignalQualityMonotone(r1: real, r2: real)
    requires r1 <= r2
    ensures QualityRank(SignalQuality(r2)) <= QualityRank(SignalQuality(r1))
  {
  }

  /** `connected` is "YES" exactly when the quality is not POOR. */
  lemma ConnectedIffNotPoor(rssi: real)
    ensures Connected(rssi) <==> SignalQuality(rssi) != Poor
  {
  }

  /** What a tick derives before it decides whether to write a row. */
  datatype TickRecord = TickRecord(best: Best, latency: real, connected: bool, quality: Quality)

  function TickOf(fspl: Fspl, cands: seq<Candidate>): TickRecord {
    var b := BestOf(fspl, cands);
    TickRecord(b, Latency(b.distance), Connected(b.rssi), SignalQuality(b.rssi))
  }

  /** A tick in which no AP could be evaluated reports latency 999, not
      connected, POOR. */
  lemma TickWithoutAp(fspl: Fspl, cands: seq<Candidate>)
    requires forall i :: 0 <= i < |cands| ==> cands[i].distance.None?
    ensures var t := TickOf(fspl, cands);
      t.best == NoBest && t.latency == 999.0 && !t.connected && t.quality == Poor
  {
    BestOfSpec(fspl, cands);
  }

  /** One CSV row; the two-decimal rounding at write time is not modelled. */
  datatype Row = Row(position: Pos, ap: ApName, rssi: real, distance: real,
                     latency: real, connected: bool, quality: Quality)

  /** `if best_ap: writer.writerow(...)`. */
  function RowsOf(t: TickRecord, position: Pos): (rows: seq<Row>)
    ensures |rows| <= 1
    ensures |rows| == 1 <==> t.best.ap.Some?
    ensures |rows| == 1 ==> rows[0] == Row(position, t.best.ap.value, t.best.rssi, t.best.distance,
                                           t.latency, t.connected, t.quality)
  {
    match t.best.ap
    case None => []
    case Some(ap) => [Row(position, ap, t.best.rssi, t.best.distance, t.latency, t.connected, t.quality)]
  }

  /** A tick's inputs: the Pi's position as read (`None` when that raised)
      and the candidates. */
  datatype ScanInput = ScanInput(position: Option<Pos>, candidates: seq<Candidate>)

  /** The rows a run of ticks writes, in order. */
  function RunRows(fspl: Fspl, inputs: seq<ScanInput>): seq<Row>
    decreases |inputs|
  {
    if inputs == [] then []
    else RunRows(fspl, inputs[..|inputs| - 1])
         + RowsOf(TickOf(fspl, inputs[|inputs| - 1].candidates), LoggedPosition(inputs[|inputs| - 1].position))
  }

  /** A run writes at most one row per tick, and exactly one per tick exactly
      when every tick selected an AP. */
  lemma {:induction false} RunRowsCount(fspl: Fspl, inputs: seq<ScanInput>)
    ensures |RunRows(fspl, inputs)| <= |inputs|
    ensures |RunRows(fspl, inputs)| == |inputs| <==>
              forall i :: 0 <= i < |inputs| ==> TickOf(fspl, inputs[i].candidates).best.ap.Some?
    decreases |inputs|
  {
    if inputs != [] {
      var front := inputs[..|inputs| - 1];
      RunRowsCount(fspl, front);
      assert forall i :: 0 <= i < |front| ==> front[i] == inputs[i];
    }
  }

  /** Every row written names an AP that some tick of the run selected. */
  lemma {:induction false} RunRowsSelected(fspl: Fspl, inputs: seq<ScanInput>, j: nat)
    requires j < |RunRows(fspl, inputs)|
    ensures exists i :: 0 <= i < |inputs| && TickOf(fspl, inputs[i].candidates).best.ap == Some(RunRows(fspl, inputs)[j].ap)
    decreases |inputs|
  {
    var front := inputs[..|inputs| - 1];
    var last := |inputs| - 1;
    if j < |RunRows(fspl, front)| {
      RunRowsSelected(fspl, front, j);
      var i :| 0 <= i < |front| && TickOf(fspl, front[i].candidates).best.ap == Some(RunRows(fspl, front)[j].ap);
      assert front[i] == inputs[i];
    } else {
      assert TickOf(fspl, inputs[last].candidates).best.ap == Some(RunRows(fspl, inputs)[j].ap);
    }
  }

  /** The `for i in range(20)` scan loop: the rows it writes. */
  method ScanAndLog(fspl: Fspl, inputs: seq<ScanInput>) returns (rows: seq<Row>)
    ensures rows == RunRows(fspl, inputs)
  {
    rows := [];
    var i := 0;
    while i < |inputs|
      invariant 0 <= i <= |inputs|
      invariant rows == RunRows(fspl, inputs[..i])
    {
      var pos := LoggedPosition(inputs[i].position);
      var best := EvaluateAps(fspl, inputs[i].candidates);
      var latency := Latency(best.distance);
      var connected := Connected(best.rssi);
      var quality := SignalQuality(best.rssi);
      if best.ap.Some? {
        rows := rows + [Row(pos, best.ap.value, best.rssi, best.distance, latency, connected, quality)];
      }
      assert inputs[..i + 1][..i] == inputs[..i];
      i := i + 1;
    }
    assert inputs[..i] == inputs;
  }

  /** The 20 positions of `move_rasp`. */
  const Positions: seq<Pos> := [
    Pos(25.0, 25.0, 0.0), Pos(35.0, 30.0, 0.0), Pos(45.0, 30.0, 0.0), Pos(55.0, 30.0, 0.0),
    Pos(65.0, 30.0, 0.0), Pos(75.0, 30.0, 0.0), Pos(65.0, 30.0, 0.0), Pos(55.0, 30.0, 0.0),
    Pos(45.0, 30.0, 0.0), Pos(35.0, 30.0, 0.0), Pos(25.0, 25.0, 0.0), Pos(15.0, 25.0, 0.0),
    Pos(25.0, 25.0, 0.0), Pos(35.0, 30.0, 0.0), Pos(45.0, 30.0, 0.0), Pos(55.0, 30.0, 0.0),
    Pos(65.0, 30.0, 0.0), Pos(75.0, 30.0, 0.0), Pos(65.0, 30.0, 0.0), Pos(55.0, 30.0, 0.0)]

  /** `move_rasp`: its 20 ticks put the Pi at each listed position once, in
      list order, ending at the last one. */
  method MoveRasp(rasp: Node)
    modifies rasp
    ensures rasp.trail == old(rasp.trail) + Positions
    ensures rasp.position == Positions[|Positions| - 1]
  {
    MoveThrough(rasp, Positions, 20);
    CycleOnce(Positions);
  }
}
