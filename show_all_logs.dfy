/** The log overview: statistics over the rows of a CSV scan log and over
    the entries of the JSON scan log (record counts, first and last record,
    RSSI minimum, maximum and average, how often each AP appears), and the
    overall summary across the logs that were found. Reading and printing
    the files is not part of the model: the analysis starts from the parsed
    rows and entries. */
module ShowAllLogs {
  import opened Wrappers
  import opened Text
  import opened Stats
  import opened Histogram

  /** A row as `csv.DictReader` yields it: column name to cell, a cell the
      line was too short to have being `None`. */
  type CsvRow = map<string, Option<string>>

  /** The exceptions the CSV analysis lets escape: `row['rssi']` on a row
      without that column, and `float()` of a cell that is not a number. */
  datatype AnalysisError = KeyError | ValueError

  /** `{'min': ..., 'max': ..., 'avg': ...}` over a non-empty list. */
  datatype RssiStats = RssiStats(min: real, max: real, avg: real)

  function RssiStatsOf(xs: seq<real>): RssiStats
    requires |xs| > 0
  {
    RssiStats(MinOf(xs), MaxOf(xs), Mean(xs))
  }

  /** The minimum and the maximum are values of the list, they bound every
      value, and the average lies between them. */
  lemma RssiStatsSpec(xs: seq<real>)
    requires |xs| > 0
    ensures var s := RssiStatsOf(xs);
      && s.min in xs && s.max in xs
      && (forall i :: 0 <= i < |xs| ==> s.min <= xs[i] <= s.max)
      && s.min <= s.avg <= s.max
  {
    MeanBetween(xs);
  }

  /** A CSV cell Python treats as true: present and not the empty string. */
  predicate Filled(cell: Option<string>) {
    cell.Some? && cell.value != ""
  }

  /** `[float(row['rssi']) for row in rows if row['rssi']]`, or the first
      exception it raises. */
  function RssiValues(parse: FloatParser, rows: seq<CsvRow>): Result<seq<real>, AnalysisError>
    decreases |rows|
  {
    if rows == [] then Ok([])
    else match RssiValues(parse, rows[..|rows| - 1])
      case Err(e) => Err(e)
      case Ok(vs) =>
        var row := rows[|rows| - 1];
        if "rssi" !in row then Err(KeyError)
        else if !Filled(row["rssi"]) then Ok(vs)
        else match parse(row["rssi"].value)
          case None => Err(ValueError)
          case Some(v) => Ok(vs + [v])
  }

  /** The number of rows whose rssi cell is filled. */
  function FilledCount(rows: seq<CsvRow>): nat
    decreases |rows|
  {
    if rows == [] then 0
    else
      var row := rows[|rows| - 1];
      FilledCount(rows[..|rows| - 1]) + (if "rssi" in row && Filled(row["rssi"]) then 1 else 0)
  }

  /** When the values are collected, every row has the column, there is one
      value per filled cell and none for an empty one, and each value is
      the conversion of some row's filled cell. */
  lemma {:induction false} RssiValuesFrom(parse: FloatParser, rows: seq<CsvRow>)
    ensures RssiValues(parse, rows).Ok? ==>
      var vs := RssiValues(parse, rows).value;
      && (forall i :: 0 <= i < |rows| ==> "rssi" in rows[i])
      && |vs| == FilledCount(rows)
      && (forall k :: 0 <= k < |vs| ==>
            exists i :: 0 <= i < |rows| && Filled(rows[i]["rssi"]) && parse(rows[i]["rssi"].value) == Some(vs[k]))
    decreases |rows|
  {
    if rows != [] {
      var n := |rows| - 1;
      var front, row := rows[..n], rows[n];
      RssiValuesFrom(parse, front);
      assert forall i :: 0 <= i < |front| ==> front[i] == rows[i];
      if RssiValues(parse, rows).Ok? {
        assert RssiValues(parse, front).Ok?;
        var vs, all := RssiValues(parse, front).value, RssiValues(parse, rows).value;
        assert "rssi" in row;
        assert all == if Filled(row["rssi"]) then vs + [parse(row["rssi"].value).value] else vs;
        forall k | 0 <= k < |all|
          ensures exists i :: 0 <= i < |rows| && Filled(rows[i]["rssi"]) && parse(rows[i]["rssi"].value) == Some(all[k])
        {
          if k < |vs| {
            assert all[k] == vs[k];
            var i :| 0 <= i < |front| && Filled(front[i]["rssi"]) && parse(front[i]["rssi"].value) == Some(vs[k]);
            assert rows[i] == front[i];
          } else {
            assert Filled(rows[n]["rssi"]) && parse(rows[n]["rssi"].value) == Some(all[k]);
          }
        }
      }
    }
  }

  /** `float()` raises, or a row lacks the column, exactly when the
      comprehension fails. */
  lemma {:induction false} RssiValuesOk(parse: FloatParser, rows: seq<CsvRow>)
    ensures RssiValues(parse, rows).Ok? <==>
      forall i :: 0 <= i < |rows| ==>
        "rssi" in rows[i] && (Filled(rows[i]["rssi"]) ==> parse(rows[i]["rssi"].value).Some?)
    decreases |rows|
  {
    if rows != [] {
      var front := rows[..|rows| - 1];
      RssiValuesOk(parse, front);
      assert forall i :: 0 <= i < |front| ==> front[i] == rows[i];
    }
  }

  /** The value of row i's filled cell sits right after the values of the
      filled cells above it. */
  lemma {:induction false} RssiValueAt(parse: FloatParser, rows: seq<CsvRow>, i: nat)
    requires RssiValues(parse, rows).Ok?
    requires i < |rows| && "rssi" in rows[i] && Filled(rows[i]["rssi"])
    ensures FilledCount(rows[..i]) < |RssiValues(parse, rows).value|
    ensures parse(rows[i]["rssi"].value) == Some(RssiValues(parse, rows).value[FilledCount(rows[..i])])
    decreases |rows|
  {
    var n := |rows| - 1;
    var front := rows[..n];
    assert RssiValues(parse, front).Ok?;
    var vs := RssiValues(parse, front).value;
    RssiValuesFrom(parse, front);
    if i < n {
      assert front[i] == rows[i];
      assert rows[..i] == front[..i];
      RssiValueAt(parse, front, i);
    } else {
      assert rows[..i] == front;
    }
  }

  /** The comprehension succeeds exactly when every row has the column and
      every filled cell converts. Then it holds one value per filled cell
      and none for an empty one, in row order: the value of row i's cell
      comes right after the values of the filled cells above it. */
  lemma RssiValuesSpec(parse: FloatParser, rows: seq<CsvRow>)
    ensures RssiValues(parse, rows).Ok? <==>
      forall i :: 0 <= i < |rows| ==>
        "rssi" in rows[i] && (Filled(rows[i]["rssi"]) ==> parse(rows[i]["rssi"].value).Some?)
    ensures RssiValues(parse, rows).Ok? ==>
      var vs := RssiValues(parse, rows).value;
      && (forall i :: 0 <= i < |rows| ==> "rssi" in rows[i])
      && |vs| == FilledCount(rows)
      && (forall i :: 0 <= i < |rows| && "rssi" in rows[i] && Filled(rows[i]["rssi"]) ==>
            && FilledCount(rows[..i]) < |vs|
            && parse(rows[i]["rssi"].value) == Some(vs[FilledCount(rows[..i])]))
      && (forall k :: 0 <= k < |vs| ==>
            exists i :: 0 <= i < |rows| && Filled(rows[i]["rssi"]) && parse(rows[i]["rssi"].value) == Some(vs[k]))
  {
    RssiValuesOk(parse, rows);
    RssiValuesFrom(parse, rows);
    if RssiValues(parse, rows).Ok? {
      forall i | 0 <= i < |rows| && "rssi" in rows[i] && Filled(rows[i]["rssi"])
        ensures FilledCount(rows[..i]) < |RssiValues(parse, rows).value|
        ensures parse(rows[i]["rssi"].value) == Some(RssiValues(parse, rows).value[FilledCount(rows[..i])])
      {
        RssiValueAt(parse, rows, i);
      }
    }
  }

  /** `row.get('ap', 'unknown')`: the cell, `None` for a short line, and
      "unknown" when the row has no such column. */
  function ApKey(row: CsvRow): Option<string> {
    if "ap" in row then row["ap"] else Some("unknown")
  }

  function ApKeys(rows: seq<CsvRow>): (ks: seq<Option<string>>)
    ensures |ks| == |rows|
    ensures forall i :: 0 <= i < |rows| ==> ks[i] == ApKey(rows[i])
  {
    seq(|rows|, i requires 0 <= i < |rows| => ApKey(rows[i]))
  }

  /** The `rssi_stats` entry of a CSV log: min, max and avg are all `None`
      when no filled cell remains. */
  datatype CsvRssi = NoValues | Values(stats: RssiStats)

  /** The dictionary `analyze_csv_log` returns; the file name and the format
      tag are left out. */
  datatype CsvStats = CsvStats(totalRecords: nat, columns: set<string>, first: CsvRow, last: CsvRow,
                               rssiStats: Option<CsvRssi>, apDistribution: Option<Counts<Option<string>>>)

  /** The `rssi_stats` entry: absent without an rssi column. */
  function CsvRssiOf(parse: FloatParser, rows: seq<CsvRow>): Result<Option<CsvRssi>, AnalysisError>
    requires rows != []
  {
    if "rssi" !in rows[0] then Ok(None)
    else match RssiValues(parse, rows)
      case Err(e) => Err(e)
      case Ok(vs) => Ok(Some(if vs == [] then NoValues else Values(RssiStatsOf(vs))))
  }

  /** `analyze_csv_log` on the parsed rows: `None` for no rows. */
  function CsvStatsOf(parse: FloatParser, rows: seq<CsvRow>): Result<Option<CsvStats>, AnalysisError> {
    if rows == [] then Ok(None)
    else match CsvRssiOf(parse, rows)
      case Err(e) => Err(e)
      case Ok(rssi) =>
        Ok(Some(CsvStats(|rows|, rows[0].Keys, rows[0], rows[|rows| - 1], rssi,
                         if "ap" in rows[0] then Some(CountAll(ApKeys(rows))) else None)))
  }

  /** `analyze_csv_log` after the file has been read: the rssi comprehension,
      then the `ap_counts` loop. */
  method AnalyzeCsvLog(parse: FloatParser, rows: seq<CsvRow>) returns (r: Result<Option<CsvStats>, AnalysisError>)
    ensures r == CsvStatsOf(parse, rows)
  {
    if rows == [] {
      return Ok(None);
    }
    var rssi := CsvRssiOf(parse, rows);
    if rssi.Err? {
      return Err(rssi.error);
    }
    var apDistribution: Option<Counts<Option<string>>> := None;
    if "ap" in rows[0] {
      var apCounts: Counts<Option<string>> := [];
      var i := 0;
      while i < |rows|
        invariant 0 <= i <= |rows|
        invariant apCounts == CountAll(ApKeys(rows)[..i])
      {
        assert ApKeys(rows)[..i + 1][..i] == ApKeys(rows)[..i];
        apCounts := Increment(apCounts, ApKey(rows[i]));
        i := i + 1;
      }
      assert ApKeys(rows)[..i] == ApKeys(rows);
      apDistribution := Some(apCounts);
    }
    return Ok(Some(CsvStats(|rows|, rows[0].Keys, rows[0], rows[|rows| - 1], rssi.value, apDistribution)));
  }

  /** No rows give `None`; otherwise the count and the first and last
      records are the rows', RSSI statistics are present exactly with an
      rssi column and ordered when values remain, and the AP counts, present
      exactly with an ap column, are positive and add up to the number of
      rows. Without an rssi column the analysis cannot fail. */
  lemma CsvStatsSpec(parse: FloatParser, rows: seq<CsvRow>)
    ensures CsvStatsOf(parse, rows) == Ok(None) <==> rows == []
    ensures rows != [] && "rssi" !in rows[0] ==> CsvStatsOf(parse, rows).Ok?
    ensures CsvStatsOf(parse, rows).Ok? && CsvStatsOf(parse, rows).value.Some? ==>
      var st := CsvStatsOf(parse, rows).value.value;
      && st.totalRecords == |rows| && st.first == rows[0] && st.last == rows[|rows| - 1]
      && (st.rssiStats.Some? <==> "rssi" in rows[0])
      && (st.rssiStats == Some(NoValues) <==> "rssi" in rows[0] && FilledCount(rows) == 0)
      && (st.rssiStats.Some? && st.rssiStats.value.Values? ==>
            st.rssiStats.value.stats.min <= st.rssiStats.value.stats.avg <= st.rssiStats.value.stats.max)
      && (st.apDistribution.Some? <==> "ap" in rows[0])
      && (st.apDistribution.Some? ==>
            Valid(st.apDistribution.value) && Total(st.apDistribution.value) == |rows|)
  {
    if rows != [] {
      RssiValuesSpec(parse, rows);
      CountAllSpec(ApKeys(rows));
      match RssiValues(parse, rows)
      case Ok(vs) =>
        if vs != [] {
          RssiStatsSpec(vs);
        }
      case Err(_) =>
    }
  }

  /** The `best_ap` object of a JSON entry: whether it has a `name` and an
      `rssi`, and their values. A JSON `null` name or rssi is not
      representable: the JSON scanner never writes one. */
  datatype BestAp = BestAp(name: Option<string>, rssi: Option<real>)

  /** A JSON log entry, of which only `best_ap` (absent or null: `None`)
      matters here. */
  datatype LogEntry = LogEntry(bestAp: Option<BestAp>)

  /** The top-level JSON object: its keys in document order, and the values of the keys the
      analysis reads (`None` where the key is absent). */
  datatype JsonLog = JsonLog(keys: seq<string>, scenario: Option<string>, description: Option<string>,
                             totalIterations: Option<int>, logs: Option<seq<LogEntry>>)

  /** `best_ap and 'rssi' in best_ap`. */
  predicate Counted(e: LogEntry) {
    e.bestAp.Some? && e.bestAp.value.rssi.Some?
  }

  /** The `rssi_values` the loop collects, in order. */
  function BestApRssis(logs: seq<LogEntry>): seq<real>
    decreases |logs|
  {
    if logs == [] then []
    else
      var e := logs[|logs| - 1];
      BestApRssis(logs[..|logs| - 1]) + (if Counted(e) then [e.bestAp.value.rssi.value] else [])
  }

  /** The AP names the loop counts, in order, `'unknown'` for a `best_ap`
      without a name. */
  function BestApNames(logs: seq<LogEntry>): seq<string>
    decreases |logs|
  {
    if logs == [] then []
    else
      var e := logs[|logs| - 1];
      BestApNames(logs[..|logs| - 1]) + (if Counted(e) then [e.bestAp.value.name.GetOr("unknown")] else [])
  }

  /** The number of entries whose `best_ap` is present and has an rssi. */
  function CountedCount(logs: seq<LogEntry>): nat
    decreases |logs|
  {
    if logs == [] then 0
    else CountedCount(logs[..|logs| - 1]) + (if Counted(logs[|logs| - 1]) then 1 else 0)
  }

  /** One value and one name per counted entry, and each value is such an
      entry's rssi. */
  lemma {:induction false} BestApFrom(logs: seq<LogEntry>)
    ensures |BestApRssis(logs)| == |BestApNames(logs)| == CountedCount(logs)
    ensures BestApRssis(logs) == [] <==> forall i :: 0 <= i < |logs| ==> !Counted(logs[i])
    ensures forall k :: 0 <= k < |BestApRssis(logs)| ==>
      exists i :: 0 <= i < |logs| && Counted(logs[i]) && logs[i].bestAp.value.rssi == Some(BestApRssis(logs)[k])
    decreases |logs|
  {
    if logs != [] {
      var front := logs[..|logs| - 1];
      BestApFrom(front);
      assert forall i :: 0 <= i < |front| ==> front[i] == logs[i];
    }
  }

  /** Entry i's rssi and name sit right after those of the counted entries
      before it. */
  lemma {:induction false} BestApAt(logs: seq<LogEntry>, i: nat)
    requires i < |logs| && Counted(logs[i])
    ensures var k := CountedCount(logs[..i]);
      && k < |BestApRssis(logs)| && k < |BestApNames(logs)|
      && BestApRssis(logs)[k] == logs[i].bestAp.value.rssi.value
      && BestApNames(logs)[k] == logs[i].bestAp.value.name.GetOr("unknown")
    decreases |logs|
  {
    var n := |logs| - 1;
    var front := logs[..n];
    BestApFrom(front);
    if i < n {
      assert front[i] == logs[i];
      assert logs[..i] == front[..i];
      BestApAt(front, i);
    } else {
      assert logs[..i] == front;
    }
  }

  /** Only entries whose `best_ap` is present and has an rssi are
      collected: one value and one name per such entry, in entry order, the
      value being that entry's rssi and the name its name or "unknown". */
  lemma BestApSpec(logs: seq<LogEntry>)
    ensures |BestApRssis(logs)| == |BestApNames(logs)| == CountedCount(logs)
    ensures BestApRssis(logs) == [] <==> forall i :: 0 <= i < |logs| ==> !Counted(logs[i])
    ensures forall i :: 0 <= i < |logs| && Counted(logs[i]) ==>
      var k := CountedCount(logs[..i]);
      && k < |BestApRssis(logs)| && k < |BestApNames(logs)|
      && BestApRssis(logs)[k] == logs[i].bestAp.value.rssi.value
      && BestApNames(logs)[k] == logs[i].bestAp.value.name.GetOr("unknown")
    ensures forall k :: 0 <= k < |BestApRssis(logs)| ==>
      exists i :: 0 <= i < |logs| && Counted(logs[i]) && logs[i].bestAp.value.rssi == Some(BestApRssis(logs)[k])
  {
    BestApFrom(logs);
    forall i | 0 <= i < |logs| && Counted(logs[i])
      ensures var k := CountedCount(logs[..i]);
        && k < |BestApRssis(logs)| && k < |BestApNames(logs)|
        && BestApRssis(logs)[k] == logs[i].bestAp.value.rssi.value
        && BestApNames(logs)[k] == logs[i].bestAp.value.name.GetOr("unknown")
    {
      BestApAt(logs, i);
    }
  }

  /** The loop `for log in logs` of `analyze_json_log`. */
  method CollectBestAps(logs: seq<LogEntry>) returns (rssiValues: seq<real>, apCounts: Counts<string>)
    ensures rssiValues == BestApRssis(logs)
    ensures apCounts == CountAll(BestApNames(logs))
  {
    rssiValues := [];
    apCounts := [];
    var i := 0;
    while i < |logs|
      invariant 0 <= i <= |logs|
      invariant rssiValues == BestApRssis(logs[..i])
      invariant apCounts == CountAll(BestApNames(logs[..i]))
    {
      assert logs[..i + 1][..i] == logs[..i];
      var bestAp := logs[i].bestAp;
      if bestAp.Some? && bestAp.value.rssi.Some? {
        rssiValues := rssiValues + [bestAp.value.rssi.value];
        var apName := bestAp.value.name.GetOr("unknown");
        CountAllSnoc(BestApNames(logs[..i]), apName);
        apCounts := Increment(apCounts, apName);
        assert BestApNames(logs[..i + 1]) == BestApNames(logs[..i]) + [apName];
      } else {
        assert BestApNames(logs[..i + 1]) == BestApNames(logs[..i]);
      }
      i := i + 1;
    }
    assert logs[..i] == logs;
  }

  /** The dictionary `analyze_json_log` returns; the file name and the
      format tag are left out. */
  datatype JsonStats = JsonStats(scenario: string, description: string, totalIterations: int,
                                 totalRecords: nat, structure: seq<string>,
                                 first: Option<LogEntry>, last: Option<LogEntry>,
                                 rssiStats: Option<RssiStats>, apDistribution: Option<Counts<string>>)

  function JsonStatsOf(data: JsonLog): JsonStats {
    var logs := data.logs.GetOr([]);
    var rssis := BestApRssis(logs);
    var counts := CountAll(BestApNames(logs));
    JsonStats(data.scenario.GetOr("Unknown"), data.description.GetOr("No description"),
              data.totalIterations.GetOr(0), |logs|, data.keys,
              if logs == [] then None else Some(logs[0]),
              if logs == [] then None else Some(logs[|logs| - 1]),
              if rssis == [] then None else Some(RssiStatsOf(rssis)),
              if counts == [] then None else Some(counts))
  }

  /** `analyze_json_log` after the file has been read. */
  method AnalyzeJsonLog(data: JsonLog) returns (stats: JsonStats)
    ensures stats == JsonStatsOf(data)
  {
    var logs := data.logs.GetOr([]);
    stats := JsonStats(data.scenario.GetOr("Unknown"), data.description.GetOr("No description"),
                       data.totalIterations.GetOr(0), |logs|, data.keys, None, None, None, None);
    if logs != [] {
      stats := stats.(first := Some(logs[0]), last := Some(logs[|logs| - 1]));
      var rssiValues, apCounts := CollectBestAps(logs);
      if rssiValues != [] {
        stats := stats.(rssiStats := Some(RssiStatsOf(rssiValues)));
      }
      if apCounts != [] {
        stats := stats.(apDistribution := Some(apCounts));
      }
    }
  }

  /** The record count is the number of entries; the first and last records
      are present exactly when there are entries; RSSI statistics and the AP
      distribution are present exactly when some entry was counted, the
      statistics are ordered, and the AP counts are positive and add up to
      the number of counted entries. */
  lemma JsonStatsSpec(data: JsonLog)
    ensures var st, logs := JsonStatsOf(data), data.logs.GetOr([]);
      && st.totalRecords == |logs|
      && (st.first.None? <==> logs == []) && (st.last.None? <==> logs == [])
      && (logs != [] ==> st.first == Some(logs[0]) && st.last == Some(logs[|logs| - 1]))
      && (st.rssiStats.Some? <==> exists i :: 0 <= i < |logs| && Counted(logs[i]))
      && (st.apDistribution.Some? <==> st.rssiStats.Some?)
      && (st.rssiStats.Some? ==> st.rssiStats.value.min <= st.rssiStats.value.avg <= st.rssiStats.value.max)
      && (st.apDistribution.Some? ==>
            Valid(st.apDistribution.value) && Total(st.apDistribution.value) == |BestApRssis(logs)|)
  {
    var logs := data.logs.GetOr([]);
    CollectedSpec(logs);
    var rssis := BestApRssis(logs);
    if rssis != [] {
      RssiStatsSpec(rssis);
    }
  }

  /** The AP counts of the collected entries are positive, add up to the
      number of collected rssi values, and are empty exactly when no entry
      was collected. */
  lemma CollectedSpec(logs: seq<LogEntry>)
    ensures BestApRssis(logs) == [] <==> forall i :: 0 <= i < |logs| ==> !Counted(logs[i])
    ensures CountAll(BestApNames(logs)) == [] <==> BestApRssis(logs) == []
    ensures Valid(CountAll(BestApNames(logs)))
    ensures Total(CountAll(BestApNames(logs))) == |BestApRssis(logs)|
  {
    var names := BestApNames(logs);
    BestApSpec(logs);
    CountAllSpec(names);
    if names != [] {
      assert names[0] in Keys(CountAll(names));
    }
  }

  /** One analysed log as `main` keeps it in `all_stats`. */
  datatype LogStats = CsvLog(csv: CsvStats) | JsonLogStats(json: JsonStats)

  /** `stats['format']`. */
  function Format(s: LogStats): string {
    match s
    case CsvLog(_) => "CSV"
    case JsonLogStats(_) => "JSON"
  }

  /** `stats['total_records']`. */
  function Records(s: LogStats): nat {
    match s
    case CsvLog(c) => c.totalRecords
    case JsonLogStats(j) => j.totalRecords
  }

  /** The analyses that returned something, in order (`if stats:`). */
  function Present(results: seq<Option<LogStats>>): seq<LogStats>
    decreases |results|
  {
    if results == [] then []
    else Present(results[..|results| - 1]) + (match results[|results| - 1]
                                              case None => []
                                              case Some(s) => [s])
  }

  /** `sum(stats['total_records'] for stats in all_stats)`. */
  function TotalRecords(all: seq<LogStats>): nat
    decreases |all|
  {
    if all == [] then 0 else TotalRecords(all[..|all| - 1]) + Records(all[|all| - 1])
  }

  function Formats(all: seq<LogStats>): (fs: seq<string>)
    ensures |fs| == |all|
    ensures forall i :: 0 <= i < |all| ==> fs[i] == Format(all[i])
  {
    seq(|all|, i requires 0 <= i < |all| => Format(all[i]))
  }

  /** The summary part of `main`: the analyses found, the total record
      count, and how many logs there are of each format. */
  method Summarize(results: seq<Option<LogStats>>)
    returns (allStats: seq<LogStats>, totalRecords: nat, formats: Counts<string>)
    ensures allStats == Present(results)
    ensures totalRecords == TotalRecords(allStats)
    ensures formats == CountAll(Formats(allStats))
  {
    allStats := [];
    var i := 0;
    while i < |results|
      invariant 0 <= i <= |results|
      invariant allStats == Present(results[..i])
    {
      assert results[..i + 1][..i] == results[..i];
      if results[i].Some? {
        allStats := allStats + [results[i].value];
      }
      i := i + 1;
    }
    assert results[..i] == results;
    totalRecords := TotalRecords(allStats);
    formats := [];
    var j := 0;
    while j < |allStats|
      invariant 0 <= j <= |allStats|
      invariant formats == CountAll(Formats(allStats)[..j])
    {
      assert Formats(allStats)[..j + 1][..j] == Formats(allStats)[..j];
      formats := Increment(formats, Format(allStats[j]));
      j := j + 1;
    }
    assert Formats(allStats)[..j] == Formats(allStats);
  }

  /** `all_stats` keeps exactly the analyses that returned something, the
      total is at least each one's record count, and the per-format counts
      are positive and add up to the number of logs found, all of them CSV
      or JSON. */
  lemma SummarySpec(results: seq<Option<LogStats>>)
    ensures |Present(results)| <= |results|
    ensures forall s :: s in Present(results) <==> Some(s) in results
    ensures forall i :: 0 <= i < |Present(results)| ==> Records(Present(results)[i]) <= TotalRecords(Present(results))
    ensures var fs := CountAll(Formats(Present(results)));
      && Valid(fs) && Total(fs) == |Present(results)|
      && Get(fs, "CSV") + Get(fs, "JSON") == |Present(results)|
  {
    PresentSpec(results);
    TotalRecordsBound(Present(results));
    FormatCounts(Present(results));
  }

  lemma FormatCounts(all: seq<LogStats>)
    ensures var fs := CountAll(Formats(all));
      && Valid(fs) && Total(fs) == |all| && Get(fs, "CSV") + Get(fs, "JSON") == |all|
  {
    var fs := Formats(all);
    CountAllSpec(fs);
    FormatsTwo(fs);
    assert Get(CountAll(fs), "CSV") == multiset(fs)["CSV"];
    assert Get(CountAll(fs), "JSON") == multiset(fs)["JSON"];
  }

  lemma {:induction false} PresentSpec(results: seq<Option<LogStats>>)
    ensures |Present(results)| <= |results|
    ensures forall s :: s in Present(results) <==> Some(s) in results
    decreases |results|
  {
    if results != [] {
      var front := results[..|results| - 1];
      PresentSpec(front);
      assert results == front + [results[|results| - 1]];
    }
  }

  lemma {:induction false} TotalRecordsBound(all: seq<LogStats>)
    ensures forall i :: 0 <= i < |all| ==> Records(all[i]) <= TotalRecords(all)
    decreases |all|
  {
    if all != [] {
      var front := all[..|all| - 1];
      TotalRecordsBound(front);
      assert forall i :: 0 <= i < |front| ==> front[i] == all[i];
    }
  }

  lemma {:induction false} FormatsTwo(fs: seq<string>)
    requires forall i :: 0 <= i < |fs| ==> fs[i] == "CSV" || fs[i] == "JSON"
    ensures multiset(fs)["CSV"] + multiset(fs)["JSON"] == |fs|
    decreases |fs|
  {
    if fs != [] {
      var front := fs[..|fs| - 1];
      assert fs == front + [fs[|fs| - 1]];
      FormatsTwo(front);
    }
  }
}
