/** The two signal-strength models the scenarios use: the free-space path-loss
    formula (whose logarithm is left abstract) and the linear heuristic. */
module PathLoss {
  import opened Wrappers

  /** The floor distances are raised to before the free-space formula sees them. */
  const DistanceFloor: real := 0.01

  /** Transmit power, in dBm, of every access point in the free-space scenarios. */
  const TxPower: real := 20.0

  /** A distance that has been through `ClampDistance`. */
  type ClampedDistance = d: real | d >= DistanceFloor witness DistanceFloor

  /** The free-space path loss in dB, `20*log10(d) + 20*log10(f) + 20*log10(4*pi/c)`,
      as an arbitrary function: only clamped distances can be given to it. */
  type Fspl = ClampedDistance -> real

  /** `if distance < 0.01: distance = 0.01`. */
  function ClampDistance(d: real): (r: ClampedDistance)
    ensures d >= DistanceFloor ==> r == d
    ensures d < DistanceFloor ==> r == DistanceFloor
  {
    if d < DistanceFloor then DistanceFloor else d
  }

  /** `rssi = tx_power - fspl - additional_losses`. */
  function FreeSpaceRssi(fspl: Fspl, d: ClampedDistance, extraLoss: real): real {
    TxPower - fspl(d) - extraLoss
  }

  /** The RSSI of a candidate AP from its clamped distance, or `None` when
      computing its distance raised and the scan skipped it. */
  function CandidateRssi(fspl: Fspl, distance: Option<real>, extraLoss: real): (r: Option<real>)
    ensures r.None? <==> distance.None?
    ensures distance.Some? ==> r.value == TxPower - fspl(ClampDistance(distance.value)) - extraLoss
  {
    match distance
    case None => None
    case Some(d) => Some(FreeSpaceRssi(fspl, ClampDistance(d), extraLoss))
  }

  /** The RSSIs of a scan's candidate APs, in list order, each from that
      AP's own distance. */
  function FreeSpaceRssis<C>(fspl: Fspl, cands: seq<C>, distance: C -> Option<real>, extraLoss: real)
    : (vals: seq<Option<real>>)
    ensures |vals| == |cands|
    ensures forall i :: 0 <= i < |cands| ==> vals[i] == CandidateRssi(fspl, distance(cands[i]), extraLoss)
  {
    seq(|cands|, i requires 0 <= i < |cands| => CandidateRssi(fspl, distance(cands[i]), extraLoss))
  }

  /** `rssi = -50 - distance * 2`, the linear heuristic. */
  function LinearRssi(d: real): real {
    -50.0 - 2.0 * d
  }

  lemma LinearRssiStrictlyDecreasing(d1: real, d2: real)
    ensures d1 < d2 <==> LinearRssi(d2) < LinearRssi(d1)
  {
  }

  lemma LinearRssiAtMostMinus50(d: real)
    requires d >= 0.0
    ensures LinearRssi(d) <= -50.0
    ensures LinearRssi(d) == -50.0 <==> d == 0.0
  {
  }
}
