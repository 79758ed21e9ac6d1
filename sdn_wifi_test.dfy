/** The SDN Wi-Fi scenario's controller bookkeeping: which APs are
    registered, which clients each AP serves, the QoS policy per client,
    and the load-balancing round that finds the least loaded AP and reports
    the overloaded ones. */
module SdnWifiTest {
  import opened Wrappers
  import opened Selection

  /** The AP object `register_ap` stores; only its identity matters here. */
  datatype AccessPoint = AccessPoint(id: string)

  /** A QoS policy: `{'priority': ..., 'bandwidth': ..., 'latency': ...}`. */
  type Policy = map<string, string>

  class SdnController {
    var apLoads: map<string, AccessPoint>
    var clientConnections: map<string, seq<string>>
    var qosPolicies: map<string, Policy>

    /** `register_ap` is the only way an AP enters either dictionary, and it
        enters both, so they always have the same keys. */
    ghost predicate Valid()
      reads this
    {
      apLoads.Keys == clientConnections.Keys
    }

    constructor ()
      ensures Valid()
      ensures apLoads == map[] && clientConnections == map[] && qosPolicies == map[]
    {
      apLoads := map[];
      clientConnections := map[];
      qosPolicies := map[];
    }

    /** The number of clients of `apName`: `len(client_connections.get(ap_name, []))`. */
    function Load(apName: string): nat
      reads this
    {
      if apName in clientConnections then |clientConnections[apName]| else 0
    }

    /** `register_ap`: stores the AP and resets its client list to empty,
        even when it was already registered; no other AP changes. */
    method RegisterAp(apName: string, ap: AccessPoint)
      requires Valid()
      modifies this
      ensures Valid()
      ensures apLoads == old(apLoads)[apName := ap]
      ensures clientConnections == old(clientConnections)[apName := []]
      ensures qosPolicies == old(qosPolicies)
      ensures Load(apName) == 0
      ensures forall a :: a != apName ==> Load(a) == old(Load(a))
    {
      apLoads := apLoads[apName := ap];
      clientConnections := clientConnections[apName := []];
    }

    /** `register_client`: appends the client to the end of the AP's list
        when the AP is registered (it has a client list exactly when
        `register_ap` stored it), and otherwise changes nothing. */
    method RegisterClient(apName: string, clientName: string)
      requires Valid()
      modifies this
      ensures Valid()
      ensures apName in old(clientConnections) ==>
        clientConnections == old(clientConnections)[apName := old(clientConnections)[apName] + [clientName]]
      ensures apName !in old(clientConnections) ==> clientConnections == old(clientConnections)
      ensures apName in old(apLoads) ==>
        clientConnections == old(clientConnections)[apName := old(clientConnections)[apName] + [clientName]]
      ensures apName !in old(apLoads) ==> clientConnections == old(clientConnections)
      ensures apLoads == old(apLoads) && qosPolicies == old(qosPolicies)
      ensures Load(apName) == if apName in old(clientConnections) then old(Load(apName)) + 1 else 0
      ensures forall a :: a != apName ==> Load(a) == old(Load(a))
    {
      if apName in clientConnections {
        clientConnections := clientConnections[apName := clientConnections[apName] + [clientName]];
      }
    }

    /** `set_qos_policy`: replaces that client's policy and no other. */
    method SetQosPolicy(client: string, policy: Policy)
      modifies this
      ensures qosPolicies == old(qosPolicies)[client := policy]
      ensures apLoads == old(apLoads) && clientConnections == old(clientConnections)
      ensures forall c :: c != client && c in old(qosPolicies) ==> c in qosPolicies && qosPolicies[c] == old(qosPolicies)[c]
    {
      qosPolicies := qosPolicies[client := policy];
    }
  }

  /** The APs the balancing and monitoring threads look at, in order. */
  const BalancedAps: seq<string> := ["ap1", "ap2", "ap3"]

  /** A client count above this marks an AP for migration. */
  const MigrationThreshold: nat := 2

  /** The load of `apName` in a client-connection map. */
  function LoadIn(conns: map<string, seq<string>>, apName: string): nat {
    if apName in conns then |conns[apName]| else 0
  }

  /** The `loads` dictionary, in insertion order. */
  function Loads(conns: map<string, seq<string>>, names: seq<string>): (loads: seq<nat>)
    ensures |loads| == |names|
    ensures forall i :: 0 <= i < |names| ==> loads[i] == LoadIn(conns, names[i])
  {
    seq(|names|, i requires 0 <= i < |names| => LoadIn(conns, names[i]))
  }

  /** The keys `min(loads, key=loads.get)` compares, negated so that the
      first-wins maximum of the keys is the first-wins minimum of the loads. */
  function NegatedLoads(loads: seq<nat>): (keys: seq<real>)
    ensures |keys| == |loads|
    ensures forall i :: 0 <= i < |loads| ==> keys[i] == -(loads[i] as real)
  {
    seq(|loads|, i requires 0 <= i < |loads| => -(loads[i] as real))
  }

  /** The index of `min_load_ap`; `None` only for an empty list. */
  function MinLoadIndex(loads: seq<nat>): Option<nat> {
    FirstMax(NegatedLoads(loads))
  }

  /** `k` is the first AP with the least load. */
  ghost predicate IsFirstMin(loads: seq<nat>, k: nat) {
    && k < |loads|
    && (forall j :: 0 <= j < k ==> loads[j] > loads[k])
    && (forall j :: k < j < |loads| ==> loads[j] >= loads[k])
  }

  /** `min` keeps the first AP with the smallest load. */
  lemma MinLoadIndexCorrect(loads: seq<nat>)
    ensures MinLoadIndex(loads).None? <==> loads == []
    ensures forall k: nat :: MinLoadIndex(loads) == Some(k) <==> IsFirstMin(loads, k)
  {
    var keys := NegatedLoads(loads);
    FirstMaxCorrect(keys);
    forall k: nat
      ensures IsFirstMax(keys, k) <==> IsFirstMin(loads, k)
    {
    }
  }

  /** The APs a round reports migrating from, in order: those with more
      than two clients. */
  function Overloaded(names: seq<string>, loads: seq<nat>): (r: seq<string>)
    requires |names| == |loads|
    decreases |names|
  {
    if names == [] then []
    else
      var front := Overloaded(names[..|names| - 1], loads[..|loads| - 1]);
      if loads[|loads| - 1] > MigrationThreshold then front + [names[|names| - 1]] else front
  }

  /** Migration is reported exactly for the APs with load above 2. */
  lemma {:induction false} OverloadedExactly(names: seq<string>, loads: seq<nat>, a: string)
    requires |names| == |loads|
    ensures a in Overloaded(names, loads) <==>
              exists i :: 0 <= i < |names| && names[i] == a && loads[i] > MigrationThreshold
    decreases |names|
  {
    if names != [] {
      var n := |names| - 1;
      OverloadedExactly(names[..n], loads[..n], a);
      assert forall i :: 0 <= i < n ==> names[..n][i] == names[i] && loads[..n][i] == loads[i];
    }
  }

  /** What one pass of `simulate_load_balancing` finds. */
  datatype BalanceReport = BalanceReport(loads: seq<nat>, minLoadAp: string, migrateFrom: seq<string>)

  function BalanceOf(conns: map<string, seq<string>>): BalanceReport {
    var loads := Loads(conns, BalancedAps);
    MinLoadIndexCorrect(loads);
    BalanceReport(loads, BalancedAps[MinLoadIndex(loads).value], Overloaded(BalancedAps, loads))
  }

  /** One pass of the `while True` loop of `simulate_load_balancing`. */
  method BalanceRound(ctrl: SdnController) returns (report: BalanceReport)
    ensures report == BalanceOf(ctrl.clientConnections)
  {
    var loads: seq<nat> := [];
    var i := 0;
    while i < |BalancedAps|
      invariant 0 <= i <= |BalancedAps|
      invariant loads == Loads(ctrl.clientConnections, BalancedAps[..i])
    {
      loads := loads + [ctrl.Load(BalancedAps[i])];
      i := i + 1;
    }
    assert BalancedAps[..i] == BalancedAps;
    MinLoadIndexCorrect(loads);
    var minLoadAp := BalancedAps[MinLoadIndex(loads).value];
    var migrateFrom: seq<string> := [];
    var j := 0;
    while j < |BalancedAps|
      invariant 0 <= j <= |BalancedAps|
      invariant migrateFrom == Overloaded(BalancedAps[..j], loads[..j])
    {
      assert BalancedAps[..j + 1][..j] == BalancedAps[..j] && loads[..j + 1][..j] == loads[..j];
      if loads[j] > MigrationThreshold {
        migrateFrom := migrateFrom + [BalancedAps[j]];
      }
      j := j + 1;
    }
    assert loads[..j] == loads;
    report := BalanceReport(loads, minLoadAp, migrateFrom);
  }

  /** A round's findings: the least loaded AP is the first of ap1, ap2, ap3
      with the fewest clients, and the migration list names exactly the APs
      with more than two. */
  lemma BalanceOfSpec(conns: map<string, seq<string>>)
    ensures var r := BalanceOf(conns);
      && |r.loads| == 3
      && (forall i :: 0 <= i < 3 ==> r.loads[i] == LoadIn(conns, BalancedAps[i]))
      && (exists k: nat :: IsFirstMin(r.loads, k) && r.minLoadAp == BalancedAps[k])
      && (forall a :: a in r.migrateFrom <==>
            exists i :: 0 <= i < 3 && BalancedAps[i] == a && r.loads[i] > MigrationThreshold)
  {
    var loads := Loads(conns, BalancedAps);
    MinLoadIndexCorrect(loads);
    var k := MinLoadIndex(loads).value;
    assert IsFirstMin(loads, k);
    forall a {
      OverloadedExactly(BalancedAps, loads, a);
    }
  }

  /** Simulated bandwidth in Mbps at 5 Mbps per client. */
  const MbpsPerClient: nat := 5

  /** `total_bandwidth = len(clients) * 5` for each monitored AP. */
  function Bandwidths(conns: map<string, seq<string>>): (bw: seq<nat>)
    ensures |bw| == |BalancedAps|
  {
    seq(|BalancedAps|, i requires 0 <= i < |BalancedAps| =>
      |if BalancedAps[i] in conns then conns[BalancedAps[i]] else []| * MbpsPerClient)
  }

  /** The reported bandwidth is five times the load, and zero for an AP that
      was never registered. */
  lemma BandwidthsSpec(conns: map<string, seq<string>>)
    ensures forall i :: 0 <= i < 3 ==> Bandwidths(conns)[i] == MbpsPerClient * LoadIn(conns, BalancedAps[i])
    ensures forall i :: 0 <= i < 3 && BalancedAps[i] !in conns ==> Bandwidths(conns)[i] == 0
  {
  }
}
