/** The link figures the scan ticks derive from the selected AP: simulated
    latency from its distance and the connectivity test on its RSSI. */
module LinkMetrics {

  /** The initial `best_distance`, also the latency reported without an AP. */
  const NoDistance: real := 999.0

  /** `5 + best_distance * 0.1 if best_distance < 999 else 999`, in ms. */
  function Latency(bestDistance: real): real {
    if bestDistance < NoDistance then 5.0 + bestDistance * 0.1 else 999.0
  }

  /** Below 999 m latency grows with the distance and stays within
      [5, 104.9) ms for a non-negative distance; from 999 m on it is the
      fallback 999 ms. */
  lemma LatencyShape(d1: real, d2: real)
    ensures d1 <= d2 < NoDistance ==> Latency(d1) <= Latency(d2)
    ensures 0.0 <= d1 < NoDistance ==> 5.0 <= Latency(d1) < 104.9
    ensures d1 >= NoDistance ==> Latency(d1) == NoDistance
  {
  }

  /** The RSSI, in dBm, a link must be above to count as connected. */
  const ConnectThreshold: real := -70.0

  /** `"YES" if best_rssi > -70 else "NO"`. */
  predicate Connected(rssi: real) {
    rssi > ConnectThreshold
  }
}
