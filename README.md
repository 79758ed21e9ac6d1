# Wi-Fi mesh scenarios: scan ticks, mobility, SDN bookkeeping, iperf parsing and log analysis

This project models the decision logic of the framework-mininet Wi-Fi scenarios in Dafny,
and proves properties of it. The emulator itself (Mininet-WiFi) does not appear: what a tick
reads from it comes in as inputs. That means node positions, AP distances, and whether reading
an AP raised.

- **Scan tick** (`MasteringScenario`, `RaspCarScanExtended`, `RaspCarJsonLog`, `RaspCarScan`,
  `RaspCarRoutScan`). Each AP's distance is clamped to 0.01 m and turned into an RSSI. The RSSI
  is either free-space (path loss as an abstract function) or linear (`-50 - 2 d`).
  - The best AP is found by a running maximum from -999. Only a strictly greater RSSI replaces
    the current best, so the first AP wins a tie (`Selection`).
  - From the selected AP the tick derives the tick metrics: latency, throughput, packet loss,
    connectivity, quality buckets and, in the mastering scenario, a handover flag against the
    previous tick's AP.
  - A row is written only when an AP was selected. The two linear scanners are the exception:
    they write a row every tick.
  - The JSON scanner builds one record per AP it could evaluate and picks the best with Python's
    `max`, which also keeps the first of equal keys.
- **Mobility**.
  - The Raspberry Pi movers cycle through a fixed position list (`Cycling`).
  - `rasp_car_rout_scan` moves mesh2 together with the Pi.
  - The mastering cart heads for six waypoints in turn. The waypoint index moves on, modulo
    six, inside a 5 m radius, and every tick takes a full 2 m step with no clamp, so it can
    overshoot. Each tick moves router3 and the Pi to the same point and names the closer static
    router.
- **SDN controller** (`SdnWifiTest`). Three dictionaries are updated in place by `register_ap`,
  `register_client` and `set_qos_policy`. Each load-balancing round computes the per-AP loads,
  picks the first least-loaded AP with `min`, and reports the APs with more than two clients.
- **iperf parser** (`IperfTest`, `Text`).
  - Lines are split on `'\n'` and tokens on whitespace. Bandwidth is read from `bits/sec`
    lines; transfer is read from `transfer` lines, which the code tests with an `elif`.
  - Kbits/Gbits and KBytes/GBytes are scaled. A later line overwrites an earlier one.
  - The exceptions the code lets escape are modelled as error results. There are two:
    `ValueError` from `float()`, and `IndexError` when the unit token is read past the end of
    the line.
  - The tester's result list and its min/avg/max/sum summary are also modelled.
- **Log analysis** (`ShowAllLogs`, `Histogram`, `Stats`).
  - For CSV logs: record counts, first and last records, and RSSI min/max/avg over the filled
    cells. AP counts are built as an insertion-ordered dictionary with `d[k] = d.get(k, 0) + 1`.
  - For the JSON log: the same figures over entries whose `best_ap` has an rssi.
  - The overall summary: total records and logs per format.

Numbers are Dafny `real`s. Anything the code gets from `math.log10`, `math.sqrt`, `round` or
`float()` is an abstract function passed in as a parameter. The arrival test and the
closest-router test are compared on squared distances. `ArrivalTest` and `ClosestRouterSqrt`
prove that both agree with the code's `sqrt` comparisons for any square root.

Imperative code stays imperative:
- A per-AP loop becomes a method with a `while` loop, proved equal to a first-wins selection
  function.
- The scanner and cart threads become classes (`MeshScanner`, `Cart`) whose fields are updated
  tick by tick.
- The emulator's `setPosition` writes to a `Node` object that records every position it was
  given.
- The SDN controller is a class over `map` fields.

## Model

| member | source | states |
|---|---|---|
| Geometry.LoggedPosition | scenarios/rasp_car_json_log.py:48-55 | the logged position is the one read, or the origin when reading it raised |
| Geometry.SqDist | scenarios/mastering-scenario-1.py:172 | the squared distance under the square root is non-negative and zero for the same point |
| Geometry.Node.SetPosition | scenarios/mastering-scenario-1.py:313-314 | `setPosition` replaces the node's position and appends it to the positions given so far |
| PathLoss.ClampDistance | scenarios/mastering-scenario-1.py:173-174 | a distance below 0.01 becomes 0.01 and any other is kept, so the path-loss function never sees less than 0.01 |
| PathLoss.LinearRssiStrictlyDecreasing | scenarios/rasp_car_scan.py:50 | `-50 - 2 d` is strictly decreasing: one AP is nearer exactly when its RSSI is higher |
| PathLoss.LinearRssiAtMostMinus50 | scenarios/rasp_car_rout_scan.py:46 | for a non-negative distance the linear RSSI is at most -50, and equal to -50 exactly at distance 0 |
| LinkMetrics.LatencyShape | scenarios/mastering-scenario-1.py:198 | below 999 m latency is `5 + 0.1 d`, grows with d and stays in [5, 104.9); from 999 m it is 999 |
| Selection.SelectPrefix | scenarios/mastering-scenario-1.py:184-188 | a selection among the first n APs names one of them whose RSSI was computed and beats -999 |
| Selection.Select | scenarios/mastering-scenario-1.py:184-188 | the loop's selection is an AP whose RSSI was computed and beats -999 |
| Selection.SelectPrefixCorrect | scenarios/mastering-scenario-1.py:184-188 | after n steps the loop holds the first AP with the maximal RSSI among the first n, or none when none of them beat -999 |
| Selection.SelectionDetermined | scenarios/mastering-scenario-1.py:184-188 | the first-wins maximum is unique, and it excludes the no-selection case |
| Selection.SelectCorrect | scenarios/mastering-scenario-1.py:184-188 | the strict-`>` loop selects k iff k is the first AP attaining the maximum above -999, and nothing iff no AP beats -999 |
| Selection.FirstMaxPrefix | scenarios/rasp_car_json_log.py:104 | `max` over the first n keys returns an index among them |
| Selection.FirstMax | scenarios/rasp_car_json_log.py:104 | `max(...) if ap_data else None` is None exactly for an empty list |
| Selection.FirstMaxPrefixCorrect | scenarios/rasp_car_json_log.py:104 | `max` with a key keeps the first item with the largest key among the first n |
| Selection.FirstMaxCorrect | scenarios/rasp_car_json_log.py:104 | `max` returns k iff k is the first index with the largest key |
| Cycling.Cycle | scenarios/rasp_car_scan_extended.py:135-136 | tick i picks `positions[i % len]`, one pick per tick |
| Cycling.Repeat | scenarios/rasp_car_scan.py:61-63 | r passes of `for pos in positions` make r times len moves |
| Cycling.CycleOnce | scenarios/rasp_car_scan_extended.py:129-137 | as many ticks as positions visit each listed position once, in list order |
| Cycling.CyclePeriodic | scenarios/rasp_car_scan_extended.py:136 | the picks repeat with a period of the list length |
| Cycling.CycleInList | scenarios/rasp_car_scan_extended.py:136 | every pick is a listed position, so the index `i % len` is always valid |
| Cycling.RepeatIsCycle | scenarios/rasp_car_scan.py:60-64 | repeated passes over the list are the same visits as picking `positions[i % len]` |
| Cycling.MoveThrough | scenarios/rasp_car_scan_extended.py:135-137 | the node is given `positions[i % len]` for i = 0 .. total-1 in order and ends at the last of them |
| Histogram.GetAbsent | show_all_logs.py:46 | `counts.get(k, 0)` is 0 for a key not stored |
| Histogram.GetPresent | show_all_logs.py:46 | a stored key of a valid dictionary reads as at least 1 |
| Histogram.IncrementStored | show_all_logs.py:46 | incrementing a stored key keeps the key order |
| Histogram.IncrementNew | show_all_logs.py:46 | incrementing a new key appends it at the end |
| Histogram.IncrementKeys | show_all_logs.py:46 | an increment changes the key order only by appending a new key |
| Histogram.IncrementGet | show_all_logs.py:46 | an increment adds one to that key's count and leaves every other key's count alone |
| Histogram.IncrementTotal | show_all_logs.py:46 | an increment adds one to the sum of the counts |
| Histogram.IncrementValid | show_all_logs.py:46 | an increment keeps keys distinct and counts positive |
| Histogram.IncrementCounts | show_all_logs.py:46 | every count an increment stores is at least 1 when every count before it was |
| Histogram.IncrementSpec | show_all_logs.py:46 | `d[k] = d.get(k, 0) + 1`: one more for k, nothing else changes, the total grows by one, order kept |
| Histogram.CountAllSnoc | show_all_logs.py:44-46 | counting one more key is one more increment |
| Histogram.CountAllSpec | show_all_logs.py:43-47 | counts are the numbers of occurrences, each stored count is at least 1, they sum to the number counted, and exactly the occurring keys are stored |
| Text.ContainsIff | tools/iperf_test.py:74 | `pat in s` holds exactly when pat occurs at some index of s |
| Text.SplitOn | tools/iperf_test.py:65 | `split('\n')` always gives at least one piece |
| Text.SplitOnJoin | tools/iperf_test.py:65 | joining the pieces with the separator gives back the output, and no piece contains it |
| Text.WordLength | tools/iperf_test.py:76 | the leading run of non-whitespace ends at whitespace or at the end |
| Text.WordsSpec | tools/iperf_test.py:76 | `split()` gives one word per word start (non-whitespace at the start or after whitespace), in order, each the maximal run of non-whitespace beginning there; the words are non-empty, hold no whitespace, and together are the line's non-whitespace characters in order |
| Stats.MinOf | show_all_logs.py:36 | `min` is one of the values and no value is smaller |
| Stats.MaxOf | show_all_logs.py:37 | `max` is one of the values and no value is larger |
| Stats.MeanBetween | show_all_logs.py:36-38 | the average lies between the minimum and the maximum |
| IperfTest.FieldSpec | tools/iperf_test.py:77-84 | up to 6 tokens (4 for transfer) nothing is read; from 7 (5) tokens a bad number raises ValueError, exactly 7 (5) tokens with a good number raise IndexError, and from 8 (6) tokens the value is divided, multiplied or kept by its unit |
| IperfTest.ParseLineFrame | tools/iperf_test.py:73-98 | no line sets retransmits or errors; a `bits/sec` line never sets the transfer (the `elif`), a transfer line never sets the bandwidth, and any other line changes nothing |
| IperfTest.ParseLinesLastWins | tools/iperf_test.py:66-99 | a successful parse reports the last value set for bandwidth and for transfer, or 0 when no line set one, with retransmits and errors 0; a failed parse failed on some line |
| IperfTest.NoMatchesNoMetrics | tools/iperf_test.py:66-71 | output with no matching line parses to all four metrics 0 |
| IperfTest.Bandwidths | tools/iperf_test.py:140 | the bandwidth list has one entry per result, in order |
| IperfTest.Transfers | tools/iperf_test.py:141 | the transfer list has one entry per result, in order |
| IperfTest.IperfTester.constructor | tools/iperf_test.py:25-28 | a tester stores its duration and interval and starts with no results |
| IperfTest.IperfTester.AddResult | tools/iperf_test.py:60 | a result is appended at the end of the list and nothing else changes |
| IperfTest.IperfTester.ParseIperfOutput | tools/iperf_test.py:63-100 | the loop over the lines returns the metrics `ParseLines` specifies, or the first exception raised, whose properties `ParseLinesLastWins` states |
| IperfTest.IperfTester.CalculateSummary | tools/iperf_test.py:135-149 | no summary without results; otherwise average bandwidth is the sum over the count and lies between min and max, min and max are values that bound every bandwidth, total transfer is the sum and average transfer is total over count |
| MasteringScenario.EvaluateAps | scenarios/mastering-scenario-1.py:169-191 | the per-AP loop leaves the accumulators that `BestOfSpec` characterises |
| MasteringScenario.BestOfSpec | scenarios/mastering-scenario-1.py:157-191 | no AP selected iff no RSSI beat -999, and then the initial values -999/999/"" stand; otherwise the first AP with maximal RSSI is selected with its own ssid, RSSI and clamped distance |
| MasteringScenario.PacketLoss | scenarios/mastering-scenario-1.py:211 | packet loss always lies in [0, 100] |
| MasteringScenario.ThroughputMonotone | scenarios/mastering-scenario-1.py:201-208 | the throughput bucket never decreases as the RSSI grows |
| MasteringScenario.MeshConnectedIffThroughput | scenarios/mastering-scenario-1.py:201-214 | mesh connected iff RSSI > -70 iff throughput >= 18 |
| MasteringScenario.TickWithoutAp | scenarios/mastering-scenario-1.py:157-214 | a tick where every AP evaluation failed keeps no AP, -999, 999, gives latency 999, throughput 6, loss 100, not connected, and a handover iff there was a previous AP |
| MasteringScenario.TickWithAp | scenarios/mastering-scenario-1.py:184-211 | a tick that selects AP k reports k's clamped distance, latency `5 + 0.1 d` below 999, loss `0.15 d` up to 100 and exactly 100 beyond, and a handover iff a previous AP differs from k |
| MasteringScenario.RowsOf | scenarios/mastering-scenario-1.py:216-234 | a tick writes a row iff an AP was selected, naming that AP and its distance |
| MasteringScenario.TicksHandover | scenarios/mastering-scenario-1.py:194-195 | tick i compares against the AP of tick i-1 (the starting `last_ap` for i = 0), flagging a handover iff that AP is set and differs, even when the new one is None |
| MasteringScenario.FirstTickNoHandover | scenarios/mastering-scenario-1.py:136-195 | starting from `last_ap = None` the first tick never flags a handover |
| MasteringScenario.RowsForSelected | scenarios/mastering-scenario-1.py:216-234 | every row written names the AP some tick selected, with that tick's handover flag |
| MasteringScenario.MeshScanner.constructor | scenarios/mastering-scenario-1.py:136 | the scanner starts with no previous AP and no rows |
| MasteringScenario.MeshScanner.ScanTick | scenarios/mastering-scenario-1.py:138-234 | one tick computes the record `TickOf` specifies from the previous AP, overwrites `last_ap` with the selected AP (None included) and appends its row, if any |
| MasteringScenario.MeshScanner.ScanAndLog | scenarios/mastering-scenario-1.py:135-242 | the scan loop's records are the consecutive ticks from the starting `last_ap`, `last_ap` ends as the last tick's AP, and the rows are the ticks' rows in order |
| MasteringScenario.NextWaypoint | scenarios/mastering-scenario-1.py:287-288 | the waypoint index always stays in [0, 6) |
| MasteringScenario.StepLength | scenarios/mastering-scenario-1.py:301-310 | a step from a positive distance moves exactly 2 m; from distance 0 the position is unchanged |
| MasteringScenario.StepOvershoots | scenarios/mastering-scenario-1.py:302-310 | with no clamp the step ends `abs(2 - d)` from the target, so it lands on it only from exactly 2 m |
| MasteringScenario.ClosestRouterTie | scenarios/mastering-scenario-1.py:317-319 | equidistant from router1 and router2, the label is "router2" |
| MasteringScenario.ClosestRouterSqrt | scenarios/mastering-scenario-1.py:317-319 | the code's comparison of the two `sqrt` distances and the model's comparison of their squares name the same router, for any square root |
| MasteringScenario.ArrivalTest | scenarios/mastering-scenario-1.py:284-287 | the code's `sqrt(d2) < 5` and the model's `d2 < 25` agree for any square root |
| MasteringScenario.WaypointAdvance | scenarios/mastering-scenario-1.py:284-305 | inside 5 m the index becomes `(i + 1) % 6`, otherwise it is kept, and the same tick steps toward the waypoint so chosen |
| MasteringScenario.CartStepLength | scenarios/mastering-scenario-1.py:301-310 | one movement tick moves the cart exactly 2 m or not at all |
| MasteringScenario.CartRunSteps | scenarios/mastering-scenario-1.py:271-313 | every tick of a run moves exactly 2 m from the position before it, or not at all |
| MasteringScenario.Cart.constructor | scenarios/mastering-scenario-1.py:72-88 | router3 and the Pi start at (25, 25, 0), heading for waypoint 0 |
| MasteringScenario.Cart.MoveTick | scenarios/mastering-scenario-1.py:273-319 | one tick advances the index and steps as `CartStep` specifies, sets router3 and the Pi to the same new position, and names the closer static router |
| MasteringScenario.Cart.MoveCart | scenarios/mastering-scenario-1.py:271-324 | `total` ticks leave the cart where `total` steps take it, the two nodes coincide, the positions set are the run's in order, and each closest-router label belongs to its tick's position |
| RaspCarScanExtended.EvaluateAps | scenarios/rasp_car_scan_extended.py:56-89 | the per-AP loop leaves the accumulators `BestOfSpec` characterises |
| RaspCarScanExtended.BestOfSpec | scenarios/rasp_car_scan_extended.py:56-86 | no AP iff no RSSI beat -999, with -999/999 then; otherwise the first AP with maximal RSSI with its own RSSI and clamped distance |
| RaspCarScanExtended.SignalQualityMonotone | scenarios/rasp_car_scan_extended.py:98-105 | a stronger RSSI never gets a worse quality bucket |
| RaspCarScanExtended.ConnectedIffNotPoor | scenarios/rasp_car_scan_extended.py:94-105 | connected is YES exactly when the quality is not POOR |
| RaspCarScanExtended.TickWithoutAp | scenarios/rasp_car_scan_extended.py:56-105 | a tick with no AP evaluated gives latency 999, not connected, POOR |
| RaspCarScanExtended.RowsOf | scenarios/rasp_car_scan_extended.py:107-117 | a row is written iff an AP was selected, holding that AP's values |
| RaspCarScanExtended.RunRowsCount | scenarios/rasp_car_scan_extended.py:49-117 | a run writes at most one row per tick, and one per tick exactly when every tick selected an AP |
| RaspCarScanExtended.RunRowsSelected | scenarios/rasp_car_scan_extended.py:107-117 | every row names an AP some tick selected |
| RaspCarScanExtended.ScanAndLog | scenarios/rasp_car_scan_extended.py:49-120 | the scan loop writes the rows `RunRows` specifies |
| RaspCarScanExtended.MoveRasp | scenarios/rasp_car_scan_extended.py:128-139 | the 20 ticks visit the 20 positions once each, in list order, ending at the last |
| RaspCarJsonLog.SignalStrengthOrdered | scenarios/rasp_car_json_log.py:83-96 | a stronger RSSI never gets a weaker class, there is no fourth class, and strong or medium implies connected |
| RaspCarJsonLog.RecordOfSpec | scenarios/rasp_car_json_log.py:59-97 | a record exists iff the AP could be evaluated; it carries the AP's name, its ssid and channel or "Unknown", the rounded RSSI and clamped distance, latency from that distance, connected iff the unrounded RSSI > -70, and strong/medium/weak by the unrounded RSSI against -50 and -60 |
| RaspCarJsonLog.Records | scenarios/rasp_car_json_log.py:57-101 | `ap_data` holds at most one record per AP |
| RaspCarJsonLog.RecordsInOrder | scenarios/rasp_car_json_log.py:59-101 | the records are those of the evaluated APs, one each, in AP order |
| RaspCarJsonLog.CollectAps | scenarios/rasp_car_json_log.py:57-101 | the loop with `try`/`continue` builds the records `Records` specifies |
| RaspCarJsonLog.BestRecordSpec | scenarios/rasp_car_json_log.py:104 | the best record is the first with the largest rounded RSSI, and None exactly when `ap_data` is empty |
| RaspCarJsonLog.CountConnectedBound | scenarios/rasp_car_json_log.py:115 | connected_aps is at most the number of records, and equal exactly when all are connected |
| RaspCarJsonLog.StatusSpec | scenarios/rasp_car_json_log.py:113-117 | total_aps is the record count, connected_aps <= total_aps, best_signal is -999 without records and otherwise the largest stored RSSI |
| RaspCarJsonLog.ScanAndLog | scenarios/rasp_car_json_log.py:45-120 | one entry per tick, entry i numbered i + 1 and built from that tick's input |
| RaspCarJsonLog.EntrySpec | scenarios/rasp_car_json_log.py:57-118 | an entry lists at most one record per AP, its best AP is one of them with best_signal its RSSI, counts agree, and there is no best AP iff no AP could be evaluated |
| RaspCarJsonLog.MoveRasp | scenarios/rasp_car_json_log.py:140-150 | the 15 ticks visit the 15 positions once each, in list order |
| RaspCarScan.EvaluateAps | scenarios/rasp_car_scan.py:47-53 | the per-AP loop leaves the first-wins selection over the linear RSSIs |
| RaspCarScan.SelectsFirstNearest | scenarios/rasp_car_scan.py:47-53 | the loop selects k iff k is the first nearest AP and closer than 474.5 m, and nothing iff every AP is at 474.5 m or beyond |
| RaspCarScan.LoggedRssi | scenarios/rasp_car_scan.py:47-54 | the logged RSSI is -999 without an AP, otherwise `-50 - 2 d` of the logged AP's own distance, and at most -50 for non-negative distances |
| RaspCarScan.ScanAndLog | scenarios/rasp_car_scan.py:45-56 | every tick writes one row, even with no AP selected |
| RaspCarScan.MoveRounds | scenarios/rasp_car_scan.py:59-64 | r passes visit the six positions in list order r times, move i being at `positions[i % 6]`; the Pi ends at the last position, or where it was after zero passes |
| RaspCarRoutScan.Mesh2AtZero | scenarios/rasp_car_rout_scan.py:43-49 | with mesh2 at distance 0 the best RSSI is -50, and mesh2 is chosen iff neither the modem nor mesh1 is also at distance 0 |
| RaspCarRoutScan.MoveRaspAndMesh2 | scenarios/rasp_car_rout_scan.py:54-60 | the Pi and mesh2 get the same positions in the same order, and coincide after every pass |
| SdnWifiTest.SdnController.constructor | scenarios/sdn_wifi_test.py:31-35 | the three dictionaries start empty |
| SdnWifiTest.SdnController.RegisterAp | scenarios/sdn_wifi_test.py:66-70 | the AP is stored and its client list reset to empty, even when already registered; no other AP changes |
| SdnWifiTest.SdnController.RegisterClient | scenarios/sdn_wifi_test.py:72-76 | the client is appended to the list of an AP that `register_ap` stored; for an unregistered AP nothing changes |
| SdnWifiTest.SdnController.SetQosPolicy | scenarios/sdn_wifi_test.py:78-81 | that client's policy is replaced and no other entry changes |
| SdnWifiTest.Loads | scenarios/sdn_wifi_test.py:160-162 | each AP's load is the length of its client list, 0 when absent |
| SdnWifiTest.MinLoadIndexCorrect | scenarios/sdn_wifi_test.py:165 | `min(loads, key=loads.get)` is the first AP with the least load |
| SdnWifiTest.OverloadedExactly | scenarios/sdn_wifi_test.py:169-171 | migration is reported exactly for APs with load above 2 |
| SdnWifiTest.BalanceRound | scenarios/sdn_wifi_test.py:159-171 | one balancing pass computes the report `BalanceOfSpec` characterises |
| SdnWifiTest.BalanceOfSpec | scenarios/sdn_wifi_test.py:159-171 | the loads are those of ap1, ap2, ap3, the least-loaded AP is the first minimum, and the migration list is exactly the APs with more than two clients |
| SdnWifiTest.BandwidthsSpec | scenarios/sdn_wifi_test.py:186-188 | the reported bandwidth is 5 Mbps times the load, 0 for an unregistered AP |
| ShowAllLogs.RssiStatsSpec | show_all_logs.py:35-39 | min and max are values that bound every value, and min <= avg <= max |
| ShowAllLogs.RssiValuesSpec | show_all_logs.py:34 | the comprehension succeeds iff every row has the column and every filled cell converts; then there is one value per filled cell, in row order, row i's value coming right after those of the filled cells above it |
| ShowAllLogs.AnalyzeCsvLog | show_all_logs.py:19-47 | the analysis with its `ap_counts` loop returns what `CsvStatsOf` specifies |
| ShowAllLogs.CsvStatsSpec | show_all_logs.py:19-47 | None iff no rows; otherwise the count and first/last records are the rows'; RSSI statistics exist iff there is an rssi column, all None iff no cell is filled, ordered otherwise; AP counts exist iff there is an ap column and are positive, summing to the row count |
| ShowAllLogs.BestApSpec | show_all_logs.py:79-84 | one rssi value and one name per entry whose `best_ap` has an rssi, in entry order: entry i contributes its rssi and its name or "unknown" right after the entries counted before it |
| ShowAllLogs.CollectBestAps | show_all_logs.py:79-84 | the loop collects those values and counts those names |
| ShowAllLogs.AnalyzeJsonLog | show_all_logs.py:59-94 | the analysis returns what `JsonStatsOf` specifies |
| ShowAllLogs.JsonStatsSpec | show_all_logs.py:59-94 | record count is the entry count; first/last exist iff there are entries; RSSI statistics and AP distribution exist iff some entry was counted; stats ordered; counts positive and summing to the values collected |
| ShowAllLogs.CollectedSpec | show_all_logs.py:79-94 | the AP counts are positive, sum to the number of rssi values, and are empty iff nothing was collected |
| ShowAllLogs.Summarize | show_all_logs.py:110-158 | `all_stats` keeps the analyses that returned something, the total is their record sum, and the formats are counted |
| ShowAllLogs.SummarySpec | show_all_logs.py:123-158 | exactly the found analyses are kept, each one's records are within the total, and the per-format counts are positive, add up to the logs found and are all CSV or JSON |
| ShowAllLogs.FormatCounts | show_all_logs.py:155-158 | per-format counts are valid, sum to the number of logs, and CSV plus JSON covers them all |
| ShowAllLogs.PresentSpec | show_all_logs.py:123-124 | `all_stats` holds exactly the analyses that returned something, no more than were run |
| ShowAllLogs.TotalRecordsBound | show_all_logs.py:152 | the total record count is at least each log's record count |

## Left out

- The Mininet-WiFi emulator is not modelled: building nodes, `start`, `cmd`, `pingAll`, the CLI, `params` and `getDistanceTo`. Distances, positions and reading failures are inputs.
- Threads, `time.sleep`, daemon threads and the `while True` loops are not modelled. Each loop runs over a bounded sequence of ticks or rounds. The interleaving of the scan thread with the mover thread is not modelled either.
- The SDN monitoring threads (`monitor_ap_loads`, `apply_qos_policies`, `monitor_sdn_performance`) are not modelled beyond the per-AP bandwidth figure. They only log, and they do so concurrently.
- The per-station latency in `monitor_sdn_performance` is left out: it is the same `5 + 0.1 d` formula applied to an emulator distance.
- CSV and JSON writing, `flush`, `os.chmod`/`chown`, `time.time()` timestamps, log file names and the file existence checks are left out as I/O. So are reading and parsing the log files and printing in `show_all_logs.main`.
- The file-name dispatch in `main` (`.csv` versus `.json`) is not modelled. The summary takes the list of analysis results directly.
- `math.log10` in the free-space formula is not modelled. The path loss is an arbitrary real function of the clamped distance, so no monotonicity in distance is claimed for the free-space RSSI.
- `math.sqrt` is not modelled. Distances per AP are inputs. The cart's step norm is a square-root function passed in, and the arrival and closest-router tests use squared distances: `ArrivalTest` proves the arrival test equivalent, and `ClosestRouterSqrt` proves the closest-router test equivalent.
- `round(x, 2)` is an abstract function in the JSON scanner, where the best AP is chosen on the rounded RSSI. The two-decimal rounding at CSV write time is left out.
- `float()` is an abstract partial function (`FloatParser`). Python's float syntax and floating point itself are not modelled; numbers are exact reals.
- The `try`/`except` fallbacks when reading positions are not modelled in full. For the cart, router3's position is the one last set. For the mastering scanner, the positions come in as inputs.
- In `analyze_csv_log` the column list is a set, so column order is not modelled.
- ShowAllLogs.BestAp: cannot hold a JSON `null` `name` or `rssi` inside `best_ap`. Python would count a null name under the key `None` instead of "unknown" (show_all_logs.py:82-83) and append `None` for a null rssi (line 81). The JSON scanner never writes either, so the model leaves them out.
- ShowAllLogs.Summarize: summarises every analysis that returned something. In `main` a CSV log with an rssi column but no filled rssi cell gets `None` for min, max and avg, and printing those with `:.2f` raises `TypeError`. That stops `main` before its summary. The model does not capture this exception; printing is not modelled.
- `run_iperf_test`, `run_multiple_tests`, `generate_report` and the iperf `main` are left out: they spawn processes and write files. Only the parser, the result list and the summary are modelled.
- The display, plotting, web and test scripts are not part of this model, and neither are the other scenarios.
- No clamp to the waypoint is modelled. The cart always takes the full 2 m step, as the code does.
- The iperf guards `len(parts) >= 7` and `len(parts) >= 5` read one token past what they check. This is modelled as written: such a line raises `IndexError`, which escapes the parser.
