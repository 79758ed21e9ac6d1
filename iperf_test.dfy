/** The iperf tool's output parser and result summary: the parser walks the
    lines of iperf's output, takes the bandwidth from lines mentioning
    `bits/sec` and the transfer from lines mentioning `transfer`, scales
    both to Mbps and MB, and lets a later line overwrite an earlier one;
    the tester keeps its results in a list and summarises them. */
module IperfTest {
  import opened Wrappers
  import opened Text
  import opened Stats

  /** The four metrics `parse_iperf_output` returns. */
  datatype Metrics = Metrics(bandwidth: real, transfer: real, retransmits: real, errors: real)

  /** The dictionary the parser starts from: every metric 0. */
  const NoMetrics: Metrics := Metrics(0.0, 0.0, 0.0, 0.0)

  /** The exceptions the parser lets escape: `float()` of a token that is
      not a number, and reading a token past the end of the line. */
  datatype ParseError = ValueError | IndexError

  /** The value a matching line reports and its unit: the number at `at`,
      divided by `factor` when the unit token contains `smaller`, otherwise
      multiplied by `factor` when it contains `larger`. A line with no more
      than `at` tokens reports nothing; the number is converted before the
      unit token is read, so a line with exactly `at + 1` tokens raises. */
  function Field(parse: FloatParser, parts: seq<string>, at: nat,
                 smaller: string, larger: string, factor: real): Result<Option<real>, ParseError>
    requires factor > 0.0
  {
    if |parts| <= at then Ok(None)
    else match parse(parts[at])
      case None => Err(ValueError)
      case Some(v) =>
        if |parts| == at + 1 then Err(IndexError)
        else
          var unit := parts[at + 1];
          Ok(Some(if Contains(unit, smaller) then v / factor
                  else if Contains(unit, larger) then v * factor
                  else v))
  }

  /** `bandwidth = float(parts[6])`, `unit = parts[7]`, Kbits and Gbits
      scaled to Mbps. */
  function BandwidthField(parse: FloatParser, parts: seq<string>): Result<Option<real>, ParseError> {
    Field(parse, parts, 6, "Kbits", "Gbits", 1000.0)
  }

  /** `transfer = float(parts[4])`, `unit = parts[5]`, KBytes and GBytes
      scaled to MB. */
  function TransferField(parse: FloatParser, parts: seq<string>): Result<Option<real>, ParseError> {
    Field(parse, parts, 4, "KBytes", "GBytes", 1024.0)
  }

  /** One pass of `for line in lines`: the `bits/sec` test comes first and
      the `transfer` test is its `elif`. */
  function ParseLine(parse: FloatParser, m: Metrics, line: string): Result<Metrics, ParseError> {
    if Contains(line, "bits/sec") then
      match BandwidthField(parse, Words(line))
      case Err(e) => Err(e)
      case Ok(None) => Ok(m)
      case Ok(Some(b)) => Ok(m.(bandwidth := b))
    else if Contains(line, "transfer") then
      match TransferField(parse, Words(line))
      case Err(e) => Err(e)
      case Ok(None) => Ok(m)
      case Ok(Some(t)) => Ok(m.(transfer := t))
    else Ok(m)
  }

  /** The metrics after the loop has looked at `lines`, or the first
      exception raised on the way. */
  function ParseLines(parse: FloatParser, lines: seq<string>): Result<Metrics, ParseError>
    decreases |lines|
  {
    if lines == [] then Ok(NoMetrics)
    else match ParseLines(parse, lines[..|lines| - 1])
      case Err(e) => Err(e)
      case Ok(m) => ParseLine(parse, m, lines[|lines| - 1])
  }

  /** The number of tokens at which a line is read and its unit: with exactly
      `at + 1` tokens a line whose number converts raises `IndexError`, one
      whose number does not convert raises `ValueError`, and from `at + 2`
      tokens on the scaled value is reported. */
  lemma FieldSpec(parse: FloatParser, parts: seq<string>, at: nat,
                  smaller: string, larger: string, factor: real)
    requires factor > 0.0
    ensures var r := Field(parse, parts, at, smaller, larger, factor);
      && (|parts| <= at <==> r == Ok(None))
      && (|parts| > at && parse(parts[at]).None? ==> r == Err(ValueError))
      && (|parts| == at + 1 && parse(parts[at]).Some? ==> r == Err(IndexError))
      && (|parts| >= at + 2 && parse(parts[at]).Some? ==>
            var v := parse(parts[at]).value;
            && (Contains(parts[at + 1], smaller) ==> r == Ok(Some(v / factor)))
            && (!Contains(parts[at + 1], smaller) && Contains(parts[at + 1], larger) ==> r == Ok(Some(v * factor)))
            && (!Contains(parts[at + 1], smaller) && !Contains(parts[at + 1], larger) ==> r == Ok(Some(v))))
  {
  }

  /** No line sets retransmits or errors, a `bits/sec` line never touches
      the transfer (the `elif`), and a transfer line never touches the
      bandwidth. */
  lemma ParseLineFrame(parse: FloatParser, m: Metrics, line: string)
    ensures ParseLine(parse, m, line).Ok? ==>
      var n := ParseLine(parse, m, line).value;
      && n.retransmits == m.retransmits && n.errors == m.errors
      && (Contains(line, "bits/sec") ==> n.transfer == m.transfer)
      && (!Contains(line, "bits/sec") ==> n.bandwidth == m.bandwidth)
      && (!Contains(line, "bits/sec") && !Contains(line, "transfer") ==> n == m)
  {
  }

  /** The bandwidth a line sets when it is parsed, if it sets one. */
  function SetsBandwidth(parse: FloatParser, line: string): Option<real> {
    if Contains(line, "bits/sec") then
      match BandwidthField(parse, Words(line))
      case Ok(Some(b)) => Some(b)
      case _ => None
    else None
  }

  /** The transfer a line sets when it is parsed, if it sets one. */
  function SetsTransfer(parse: FloatParser, line: string): Option<real> {
    if !Contains(line, "bits/sec") && Contains(line, "transfer") then
      match TransferField(parse, Words(line))
      case Ok(Some(t)) => Some(t)
      case _ => None
    else None
  }

  /** The value the last setting line gave, or 0 when no line set one. */
  ghost predicate LastSet(sets: nat -> Option<real>, n: nat, v: real) {
    || ((forall i :: 0 <= i < n ==> sets(i).None?) && v == 0.0)
    || (exists i :: 0 <= i < n && sets(i) == Some(v) && forall j :: i < j < n ==> sets(j).None?)
  }

  /** A parse that succeeds reports, for bandwidth and for transfer, the
      value of the last line that set it, or 0 when none did; retransmits
      and errors stay 0. A parse that fails fails on some line. */
  lemma {:induction false} ParseLinesLastWins(parse: FloatParser, lines: seq<string>)
    ensures ParseLines(parse, lines).Ok? ==>
      var m := ParseLines(parse, lines).value;
      && m.retransmits == 0.0 && m.errors == 0.0
      && LastSet(i => if 0 <= i < |lines| then SetsBandwidth(parse, lines[i]) else None, |lines|, m.bandwidth)
      && LastSet(i => if 0 <= i < |lines| then SetsTransfer(parse, lines[i]) else None, |lines|, m.transfer)
    ensures ParseLines(parse, lines).Err? ==>
      exists i :: 0 <= i < |lines| && ParseLines(parse, lines[..i]).Ok?
                  && ParseLine(parse, ParseLines(parse, lines[..i]).value, lines[i]).Err?
    decreases |lines|
  {
    if lines != [] {
      var n := |lines| - 1;
      var front := lines[..n];
      ParseLinesLastWins(parse, front);
      assert forall i :: 0 <= i < n ==> front[i] == lines[i];
      match ParseLines(parse, front)
      case Err(_) =>
        var i :| 0 <= i < n && ParseLines(parse, front[..i]).Ok?
                 && ParseLine(parse, ParseLines(parse, front[..i]).value, front[i]).Err?;
        assert front[..i] == lines[..i];
      case Ok(m) =>
        assert front == lines[..n];
        ParseLineFrame(parse, m, lines[n]);
        var setsB := i => if 0 <= i < |lines| then SetsBandwidth(parse, lines[i]) else None;
        var setsF := i => if 0 <= i < |front| then SetsBandwidth(parse, front[i]) else None;
        var setsT := i => if 0 <= i < |lines| then SetsTransfer(parse, lines[i]) else None;
        var setsG := i => if 0 <= i < |front| then SetsTransfer(parse, front[i]) else None;
        if ParseLines(parse, lines).Ok? {
          var r := ParseLines(parse, lines).value;
          LastSetExtend(setsF, setsB, n, m.bandwidth, r.bandwidth);
          LastSetExtend(setsG, setsT, n, m.transfer, r.transfer);
        }
    }
  }

  /** Appending one line to the ones looked at: the line sets the value, or
      it leaves it as it was. */
  lemma LastSetExtend(before: nat -> Option<real>, after: nat -> Option<real>, n: nat, v: real, w: real)
    requires forall i :: 0 <= i < n ==> after(i) == before(i)
    requires LastSet(before, n, v)
    requires after(n) == Some(w) || (after(n).None? && w == v)
    ensures LastSet(after, n + 1, w)
  {
    if after(n).Some? {
    } else if forall i :: 0 <= i < n ==> before(i).None? {
      assert forall i :: 0 <= i < n + 1 ==> after(i).None?;
    } else {
      var i :| 0 <= i < n && before(i) == Some(v) && forall j :: i < j < n ==> before(j).None?;
      assert after(i) == Some(w);
      assert forall j :: i < j < n + 1 ==> after(j).None?;
    }
  }

  /** Output in which no line mentions `bits/sec` or `transfer` parses to
      all four metrics 0. */
  lemma {:induction false} NoMatchesNoMetrics(parse: FloatParser, lines: seq<string>)
    requires forall i :: 0 <= i < |lines| ==> !Contains(lines[i], "bits/sec") && !Contains(lines[i], "transfer")
    ensures ParseLines(parse, lines) == Ok(NoMetrics)
    decreases |lines|
  {
    if lines != [] {
      NoMatchesNoMetrics(parse, lines[..|lines| - 1]);
    }
  }

  /** Once a prefix of the lines raised, so does the whole parse, with the
      same exception. */
  lemma {:induction false} ErrPersists(parse: FloatParser, lines: seq<string>, n: nat)
    requires n <= |lines| && ParseLines(parse, lines[..n]).Err?
    ensures ParseLines(parse, lines) == ParseLines(parse, lines[..n])
    decreases |lines| - n
  {
    if n < |lines| {
      assert lines[..n + 1][..n] == lines[..n];
      ErrPersists(parse, lines, n + 1);
    } else {
      assert lines[..n] == lines;
    }
  }

  /** One test's result: the parsed metrics and the endpoints and time
      `run_iperf_test` adds to them. */
  datatype TestResult = TestResult(metrics: Metrics, serverIp: string, clientIp: string, timestamp: string)

  /** The summary `calculate_summary` returns for a non-empty result list. */
  datatype Summary = Summary(avgBandwidth: real, maxBandwidth: real, minBandwidth: real,
                             avgTransfer: real, totalTransfer: real)

  function Bandwidths(results: seq<TestResult>): (bws: seq<real>)
    ensures |bws| == |results|
    ensures forall i :: 0 <= i < |results| ==> bws[i] == results[i].metrics.bandwidth
  {
    seq(|results|, i requires 0 <= i < |results| => results[i].metrics.bandwidth)
  }

  function Transfers(results: seq<TestResult>): (ts: seq<real>)
    ensures |ts| == |results|
    ensures forall i :: 0 <= i < |results| ==> ts[i] == results[i].metrics.transfer
  {
    seq(|results|, i requires 0 <= i < |results| => results[i].metrics.transfer)
  }

  class IperfTester {
    var duration: int
    var interval: int
    var results: seq<TestResult>

    constructor (duration: int, interval: int)
      ensures this.duration == duration && this.interval == interval && results == []
    {
      this.duration := duration;
      this.interval := interval;
      results := [];
    }

    /** `self.results.append(result)` at the end of a test. */
    method AddResult(result: TestResult)
      modifies this
      ensures results == old(results) + [result]
      ensures duration == old(duration) && interval == old(interval)
    {
      results := results + [result];
    }

    /** The guarded read of a number token and its unit token shared by the
        bandwidth and the transfer branches. */
    static method ReadField(parse: FloatParser, parts: seq<string>, at: nat,
                            smaller: string, larger: string, factor: real)
      returns (r: Result<Option<real>, ParseError>)
      requires factor > 0.0
      ensures r == Field(parse, parts, at, smaller, larger, factor)
    {
      if |parts| < at + 1 {
        return Ok(None);
      }
      var value := parse(parts[at]);
      if value.None? {
        return Err(ValueError);
      }
      if |parts| == at + 1 {
        return Err(IndexError);
      }
      var unit := parts[at + 1];
      var v := value.value;
      ghost var f := Field(parse, parts, at, smaller, larger, factor);
      assert f.Ok? && f.value.Some?;
      if Contains(unit, smaller) {
        v := v / factor;
      } else if Contains(unit, larger) {
        v := v * factor;
      }
      assert f.value.value == v;
      return Ok(Some(v));
    }

    /** `parse_iperf_output`: the lines of `output.split('\n')` one by one,
        stopping at the first exception. */
    method ParseIperfOutput(parse: FloatParser, output: string) returns (r: Result<Metrics, ParseError>)
      ensures r == ParseLines(parse, SplitOn(output, '\n'))
    {
      var lines := SplitOn(output, '\n');
      var result := NoMetrics;
      var i := 0;
      while i < |lines|
        invariant 0 <= i <= |lines|
        invariant ParseLines(parse, lines[..i]) == Ok(result)
      {
        var line := lines[i];
        assert lines[..i + 1][..i] == lines[..i];
        if Contains(line, "bits/sec") {
          var bandwidth := ReadField(parse, Words(line), 6, "Kbits", "Gbits", 1000.0);
          match bandwidth
          case Err(e) =>
            ErrPersists(parse, lines, i + 1);
            return Err(e);
          case Ok(None) =>
          case Ok(Some(b)) =>
            result := result.(bandwidth := b);
        } else if Contains(line, "transfer") {
          var transfer := ReadField(parse, Words(line), 4, "KBytes", "GBytes", 1024.0);
          match transfer
          case Err(e) =>
            ErrPersists(parse, lines, i + 1);
            return Err(e);
          case Ok(None) =>
          case Ok(Some(t)) =>
            result := result.(transfer := t);
        }
        i := i + 1;
      }
      assert lines[..i] == lines;
      return Ok(result);
    }

    /** `calculate_summary`: `{}` (here `None`) without results; otherwise
        the average bandwidth is the sum over the count and lies between the
        smallest and the largest, the total transfer is the sum of the
        transfers and the average transfer is that total over the number
        of tests. */
    function CalculateSummary(): (s: Option<Summary>)
      reads this
      ensures s.None? <==> results == []
      ensures s.Some? ==>
        && s.value.avgBandwidth == Sum(Bandwidths(results)) / (|results| as real)
        && s.value.minBandwidth <= s.value.avgBandwidth <= s.value.maxBandwidth
        && s.value.minBandwidth in Bandwidths(results) && s.value.maxBandwidth in Bandwidths(results)
        && (forall i :: 0 <= i < |results| ==>
              s.value.minBandwidth <= results[i].metrics.bandwidth <= s.value.maxBandwidth)
        && s.value.totalTransfer == Sum(Transfers(results))
        && s.value.avgTransfer == s.value.totalTransfer / (|results| as real)
    {
      if results == [] then None
      else
        var bws, ts := Bandwidths(results), Transfers(results);
        MeanBetween(bws);
        Some(Summary(Mean(bws), MaxOf(bws), MinOf(bws), Mean(ts), Sum(ts)))
    }
  }
}
