/** The JSON-logging Raspberry Pi scanner: each tick builds one record per AP
    it could evaluate, picks the best with Python's `max` on the stored
    (rounded) RSSI, counts the connected APs, and appends one log entry; a
    mover walks the Pi through 15 positions. */
module RaspCarJsonLog {
  import opened Wrappers
  import opened Geometry
  import opened PathLoss
  import opened Selection
  import opened LinkMetrics
  import opened Cycling

  /** An AP of `[modem, mesh1, mesh2]`: its name, its `ssid` and `channel`
      parameters when set, and the distance the tick computed from the
      coordinates it read (`None` when reading or converting them raised). */
  datatype ApInput = ApInput(name: ApName, ssid: Option<string>, channel: Option<string>,
                             distance: Option<real>)

  /** `additional_losses` for walls and obstacles. */
  const ExtraLoss: real := 10.0

  /** `round(x, 2)`, left abstract. */
  type Round = real -> real

  /** `signal_strength`. */
  datatype Strength = Strong | Medium | Weak

  /** `'strong' if rssi > -50 else 'medium' if rssi > -60 else 'weak'`, on
      the unrounded RSSI. */
  function SignalStrength(rssi: real): Strength {
    if rssi > -50.0 then Strong else if rssi > -60.0 then Medium else Weak
  }

  function StrengthRank(s: Strength): nat {
    match s
    case Strong => 0
    case Medium => 1
    case Weak => 2
  }

  /** A stronger signal never gets a weaker class, and a strong or medium
      signal is always connected. */
  lemma SignalStrengthOrdered(r1: real, r2: real)
    requires r1 <= r2
    ensures StrengthRank(SignalStrength(r2)) <= StrengthRank(SignalStrength(r1))
    ensures SignalStrength(r1) != Weak ==> Connected(r1)
  {
  }

  /** One entry of `ap_data`. */
  datatype ApRecord = ApRecord(
    name: ApName, ssid: string, channel: string, rssi: real, distance: real,
    latency: real, connected: bool, strength: Strength)

  /** The record the loop appends for `ap`, or `None` when its computation
      raised and the loop skipped it. */
  function RecordOf(fspl: Fspl, round2: Round, ap: ApInput): Option<ApRecord> {
    match ap.distance
    case None => None
    case Some(d) =>
      var distance := ClampDistance(d);
      var rssi := FreeSpaceRssi(fspl, distance, ExtraLoss);
      var latency := 5.0 + distance * 0.1;
      Some(ApRecord(ap.name, ap.ssid.GetOr("Unknown"), ap.channel.GetOr("Unknown"),
                    round2(rssi), round2(distance), round2(latency),
                    Connected(rssi), SignalStrength(rssi)))
  }

  /** Each record holds its own AP's values: its name, its ssid and channel
      or "Unknown", the rounded RSSI and clamped distance, the latency from
      that distance, and connectivity and strength from the unrounded RSSI. */
  lemma RecordOfSpec(fspl: Fspl, round2: Round, ap: ApInput)
    ensures RecordOf(fspl, round2, ap).Some? <==> ap.distance.Some?
    ensures ap.distance.Some? ==>
      var r, d := RecordOf(fspl, round2, ap).value, ClampDistance(ap.distance.value);
      var rssi := FreeSpaceRssi(fspl, d, ExtraLoss);
      && r.name == ap.name
      && (ap.ssid.Some? ==> r.ssid == ap.ssid.value) && (ap.ssid.None? ==> r.ssid == "Unknown")
      && (ap.channel.Some? ==> r.channel == ap.channel.value) && (ap.channel.None? ==> r.channel == "Unknown")
      && r.rssi == round2(rssi) && r.distance == round2(d)
      && r.latency == round2(5.0 + 0.1 * d)
      && (r.connected <==> rssi > -70.0)
      && (r.strength == Strong <==> rssi > -50.0)
      && (r.strength == Medium <==> -60.0 < rssi <= -50.0)
      && (r.strength == Weak <==> rssi <= -60.0)
  {
  }

  /** `ap_data` after the loop over all APs. */
  function Records(fspl: Fspl, round2: Round, aps: seq<ApInput>): (recs: seq<ApRecord>)
    ensures |recs| <= |aps|
    decreases |aps|
  {
    if aps == [] then []
    else
      var front := Records(fspl, round2, aps[..|aps| - 1]);
      match RecordOf(fspl, round2, aps[|aps| - 1])
      case None => front
      case Some(r) => front + [r]
  }

  /** The positions in `aps` of the APs that got a record. */
  function Evaluated(aps: seq<ApInput>): (idx: seq<nat>)
    ensures forall j :: 0 <= j < |idx| ==> idx[j] < |aps|
    decreases |aps|
  {
    if aps == [] then []
    else
      var front := Evaluated(aps[..|aps| - 1]);
      if aps[|aps| - 1].distance.Some? then front + [|aps| - 1] else front
  }

  /** `Evaluated` is strictly increasing and names exactly the APs with a
      distance. */
  lemma {:induction false} EvaluatedSpec(aps: seq<ApInput>)
    ensures var idx := Evaluated(aps);
      && (forall j, j' :: 0 <= j < j' < |idx| ==> idx[j] < idx[j'])
      && (forall i :: 0 <= i < |aps| ==> (aps[i].distance.Some? <==> i in idx))
    decreases |aps|
  {
    if aps != [] {
      var front := aps[..|aps| - 1];
      EvaluatedSpec(front);
      assert forall i :: 0 <= i < |front| ==> front[i] == aps[i];
    }
  }

  /** The records are those of the evaluated APs, one each, in AP order:
      record `j` is the record of AP `Evaluated(aps)[j]`. */
  lemma {:induction false} RecordsInOrder(fspl: Fspl, round2: Round, aps: seq<ApInput>)
    ensures var recs, idx := Records(fspl, round2, aps), Evaluated(aps);
      && |recs| == |idx|
      && (forall j :: 0 <= j < |idx| ==> RecordOf(fspl, round2, aps[idx[j]]) == Some(recs[j]))
    decreases |aps|
  {
    if aps != [] {
      var front := aps[..|aps| - 1];
      RecordsInOrder(fspl, round2, front);
      var idx, idx' := Evaluated(aps), Evaluated(front);
      assert forall j :: 0 <= j < |idx'| ==> aps[idx'[j]] == front[idx'[j]];
    }
  }

  /** The `for ap in [modem, mesh1, mesh2]` loop with its `try`/`continue`. */
  method CollectAps(fspl: Fspl, round2: Round, aps: seq<ApInput>) returns (apData: seq<ApRecord>)
    ensures apData == Records(fspl, round2, aps)
  {
    apData := [];
    var i := 0;
    while i < |aps|
      invariant 0 <= i <= |aps|
      invariant apData == Records(fspl, round2, aps[..i])
    {
      assert aps[..i + 1][..i] == aps[..i];
      var ap := aps[i];
      if ap.distance.Some? {
        var distance: real := ClampDistance(ap.distance.value);
        var rssi := FreeSpaceRssi(fspl, distance, ExtraLoss);
        var latency := 5.0 + distance * 0.1;
        var connected := Connected(rssi);
        apData := apData + [ApRecord(ap.name, ap.ssid.GetOr("Unknown"), ap.channel.GetOr("Unknown"),
                                     round2(rssi), round2(distance), round2(latency),
                                     connected, SignalStrength(rssi))];
      }
      i := i + 1;
    }
    assert aps[..i] == aps;
  }

  /** The keys `max` compares: the stored, rounded RSSI values. */
  function RssiKeys(recs: seq<ApRecord>): (keys: seq<real>)
    ensures |keys| == |recs|
    ensures forall j :: 0 <= j < |recs| ==> keys[j] == recs[j].rssi
  {
    seq(|recs|, j requires 0 <= j < |recs| => recs[j].rssi)
  }

  /** `max(ap_data, key=lambda x: x['rssi']) if ap_data else None`. */
  function BestRecord(recs: seq<ApRecord>): Option<ApRecord> {
    match FirstMax(RssiKeys(recs))
    case None => None
    case Some(k) => Some(recs[k])
  }

  /** The best record is the first one with the largest rounded RSSI, and
      there is none exactly when no AP could be evaluated. */
  lemma BestRecordSpec(recs: seq<ApRecord>)
    ensures BestRecord(recs).None? <==> recs == []
    ensures forall k: nat :: IsFirstMax(RssiKeys(recs), k) ==> BestRecord(recs) == Some(recs[k])
  {
    FirstMaxCorrect(RssiKeys(recs));
  }

  /** The number of connected records: `len([ap for ap in ap_data if ap['connected']])`. */
  function CountConnected(recs: seq<ApRecord>): nat
    decreases |recs|
  {
    if recs == [] then 0
    else CountConnected(recs[..|recs| - 1]) + (if recs[|recs| - 1].connected then 1 else 0)
  }

  /** At most every record is connected, and all of them exactly when each
      one is. */
  lemma {:induction false} CountConnectedBound(recs: seq<ApRecord>)
    ensures CountConnected(recs) <= |recs|
    ensures CountConnected(recs) == |recs| <==> forall j :: 0 <= j < |recs| ==> recs[j].connected
    decreases |recs|
  {
    if recs != [] {
      var front := recs[..|recs| - 1];
      CountConnectedBound(front);
      assert forall j :: 0 <= j < |front| ==> front[j] == recs[j];
    }
  }

  /** `network_status`. */
  datatype NetworkStatus = NetworkStatus(totalAps: nat, connectedAps: nat, bestSignal: real)

  function StatusOf(recs: seq<ApRecord>): NetworkStatus {
    var best := BestRecord(recs);
    NetworkStatus(|recs|, CountConnected(recs), if best.Some? then best.value.rssi else Unset)
  }

  /** The counts are consistent, and `best_signal` is -999 without records
      and otherwise the largest stored RSSI. */
  lemma StatusSpec(recs: seq<ApRecord>)
    ensures var st := StatusOf(recs);
      && st.totalAps == |recs|
      && st.connectedAps <= st.totalAps
      && (recs == [] ==> st.bestSignal == Unset)
      && (forall j :: 0 <= j < |recs| ==> recs[j].rssi <= st.bestSignal)
      && (recs != [] ==> exists j :: 0 <= j < |recs| && recs[j].rssi == st.bestSignal)
  {
    CountConnectedBound(recs);
    var keys := RssiKeys(recs);
    FirstMaxCorrect(keys);
    if recs != [] {
      var k := FirstMax(keys).value;
      assert IsFirstMax(keys, k);
      assert recs[k].rssi == StatusOf(recs).bestSignal;
    }
  }

  /** One entry of `logs`; the timestamps are not modelled. */
  datatype LogEntry = LogEntry(
    iteration: nat, position: Pos, availableAps: seq<ApRecord>,
    bestAp: Option<ApRecord>, status: NetworkStatus)

  /** A tick's inputs: the Pi's position as read (`None` when that raised)
      and the APs. */
  datatype ScanInput = ScanInput(position: Option<Pos>, aps: seq<ApInput>)

  function EntryOf(fspl: Fspl, round2: Round, iteration: nat, input: ScanInput): LogEntry {
    var recs := Records(fspl, round2, input.aps);
    LogEntry(iteration, LoggedPosition(input.position), recs, BestRecord(recs), StatusOf(recs))
  }

  /** The `for i in range(15)` loop: one entry per tick, numbered from 1. */
  method ScanAndLog(fspl: Fspl, round2: Round, inputs: seq<ScanInput>) returns (logs: seq<LogEntry>)
    ensures |logs| == |inputs|
    ensures forall i :: 0 <= i < |inputs| ==> logs[i] == EntryOf(fspl, round2, i + 1, inputs[i])
  {
    logs := [];
    var i := 0;
    while i < |inputs|
      invariant 0 <= i <= |inputs| && |logs| == i
      invariant forall k :: 0 <= k < i ==> logs[k] == EntryOf(fspl, round2, k + 1, inputs[k])
    {
      var pos := LoggedPosition(inputs[i].position);
      var apData := CollectAps(fspl, round2, inputs[i].aps);
      var bestAp := BestRecord(apData);
      var status := NetworkStatus(|apData|, CountConnected(apData),
                                  if bestAp.Some? then bestAp.value.rssi else Unset);
      logs := logs + [LogEntry(i + 1, pos, apData, bestAp, status)];
      i := i + 1;
    }
  }

  /** A whole tick: its entry lists at most one record per AP, its best AP is
      one of them, and its counts agree with the list. */
  lemma EntrySpec(fspl: Fspl, round2: Round, iteration: nat, input: ScanInput)
    ensures var e := EntryOf(fspl, round2, iteration, input);
      && |e.availableAps| <= |input.aps|
      && e.status.totalAps == |e.availableAps|
      && e.status.connectedAps <= e.status.totalAps
      && (e.bestAp.Some? ==> e.bestAp.value in e.availableAps && e.status.bestSignal == e.bestAp.value.rssi)
      && (e.bestAp.None? <==> forall i :: 0 <= i < |input.aps| ==> input.aps[i].distance.None?)
  {
    var recs := Records(fspl, round2, input.aps);
    RecordsInOrder(fspl, round2, input.aps);
    EvaluatedSpec(input.aps);
    BestRecordSpec(recs);
    StatusSpec(recs);
    if recs != [] {
      var idx := Evaluated(input.aps);
      assert input.aps[idx[0]].distance.Some?;
    }
  }

  /** The 15 positions of `move_rasp`. */
  const Positions: seq<Pos> := [
    Pos(20.0, 20.0, 0.0), Pos(30.0, 25.0, 0.0), Pos(40.0, 25.0, 0.0), Pos(50.0, 25.0, 0.0),
    Pos(60.0, 25.0, 0.0), Pos(50.0, 25.0, 0.0), Pos(40.0, 25.0, 0.0), Pos(30.0, 25.0, 0.0),
    Pos(20.0, 20.0, 0.0), Pos(10.0, 20.0, 0.0), Pos(20.0, 20.0, 0.0), Pos(30.0, 25.0, 0.0),
    Pos(40.0, 25.0, 0.0), Pos(50.0, 25.0, 0.0), Pos(60.0, 25.0, 0.0)]

  /** `move_rasp`: its 15 ticks put the Pi at each listed position once, in
      list order. */
  method MoveRasp(rasp: Node)
    modifies rasp
    ensures rasp.trail == old(rasp.trail) + Positions
    ensures rasp.position == Positions[|Positions| - 1]
  {
    MoveThrough(rasp, Positions, 15);
    CycleOnce(Positions);
  }
}
