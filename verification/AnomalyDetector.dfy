/** Spikes, drops and slow spells: windows whose count lies far from the mean of all windows. */
module AnomalyDetector {

  import opened Wrappers
  import opened Statistics
  import opened TimeWindows
  import opened Clock

  const MINUTE: int := 60_000_000_000

  datatype Detector = Detector(
    errorSpikeThreshold: real, slowRequestThreshold: real, timeWindowMinutes: int, minSampleSize: int)
  {
    function Width(): int {
      timeWindowMinutes * MINUTE
    }
  }

  const DEFAULT := Detector(2.0, 3.0, 5, 10)

  datatype Kind = ErrorSpike | SlowRequests | TrafficSpike | TrafficDrop
  datatype Severity = Low | Medium | High | Critical

  /** `deviation` is None where the source divides by a zero mean. */
  datatype Stats = Stats(current: real, baseline: real, stdDev: real, deviation: Option<real>, samples: nat)
  datatype Anomaly = Anomaly(
    kind: Kind, severity: Severity, start: Instant, end: Instant, stats: Stats, related: seq<LogEntry>)

  datatype NginxLogEntry = NginxLogEntry(entry: LogEntry, responseTime: real)

  predicate IsError(e: LogEntry) {
    e.level == "ERROR" || e.level == "FATAL" || e.level == "CRITICAL"
  }

  function SeverityByDeviation(deviation: real): Severity {
    if deviation > 4.0 then Critical
    else if deviation > 3.0 then High
    else if deviation > 2.0 then Medium
    else Low
  }

  // ---------------------------------------------------------------------------
  // Mean and deviation of the counts, which the source collects in the map's arbitrary order.
  // ---------------------------------------------------------------------------

  function Values(ws: seq<Instant>, counts: map<Instant, nat>): (values: seq<real>)
    ensures |values| == |ws|
  {
    if ws == [] then [] else Values(ws[..|ws| - 1], counts) + [CountAt(counts, ws[|ws| - 1]) as real]
  }

  /** math.Sqrt over the reals. */
  ghost predicate IsSquareRoot(sqrt: real -> real) {
    forall x :: x >= 0.0 ==> sqrt(x) >= 0.0 && Square(sqrt(x)) == x
  }

  function StdDev(xs: seq<real>, sqrt: real -> real): real {
    if |xs| < 2 then 0.0 else sqrt(SquaredDistance(xs, Mean(xs)) / (|xs| as real - 1.0))
  }

  lemma {:induction false} QuotientTimes(q: real, n1: real)
    requires q >= 0.0 && n1 > 0.0
    ensures q / n1 >= 0.0 && (q / n1) * n1 == q
  {
  }

  lemma {:induction false} StdDevIsStdDev(xs: seq<real>, sqrt: real -> real)
    requires IsSquareRoot(sqrt)
    ensures IsStdDev(xs, StdDev(xs, sqrt))
  {
    if |xs| >= 2 {
      SumSquaresNonNegative(Centered(xs, Mean(xs)));
      QuotientTimes(SquaredDistance(xs, Mean(xs)), |xs| as real - 1.0);
    }
  }

  method CalculateStdDev(values: seq<real>, mean: real, sqrt: real -> real) returns (stdDev: real)
    requires mean == Mean(values)
    ensures stdDev == StdDev(values, sqrt)
  {
    if |values| < 2 {
      return 0.0;
    }
    var variance := CalculateVariance(values, mean);
    return sqrt(variance);
  }

  method CollectValues(counts: map<Instant, nat>) returns (values: seq<real>, ghost order: seq<Instant>)
    ensures values == Values(order, counts)
    ensures multiset(order) == multiset(counts.Keys)
  {
    values, order := [], [];
    var rest := counts.Keys;
    while rest != {}
      invariant rest <= counts.Keys
      invariant values == Values(order, counts)
      invariant multiset(order) == multiset(counts.Keys - rest)
      decreases rest
    {
      var w :| w in rest by {
        var _ := Member(rest);
      }
      assert (order + [w])[..|order|] == order;
      assert counts.Keys - (rest - {w}) == (counts.Keys - rest) + {w};
      values, order, rest := values + [counts[w] as real], order + [w], rest - {w};
    }
  }

  function SumBy(f: Instant -> real, ws: seq<Instant>): real {
    if ws == [] then 0.0 else SumBy(f, ws[..|ws| - 1]) + f(ws[|ws| - 1])
  }

  lemma {:induction false} SumByTakeOut(f: Instant -> real, a: seq<Instant>, w: Instant, b: seq<Instant>)
    ensures SumBy(f, a + ([w] + b)) == SumBy(f, a + b) + f(w)
  {
    var all := a + ([w] + b);
    if b == [] {
      assert all[..|all| - 1] == a && a + b == a;
    } else {
      assert all[..|all| - 1] == a + ([w] + b[..|b| - 1]);
      assert (a + b)[..|a + b| - 1] == a + b[..|b| - 1];
      SumByTakeOut(f, a, w, b[..|b| - 1]);
    }
  }

  lemma {:induction false} SplitAt(ws: seq<Instant>, w: Instant) returns (a: seq<Instant>, b: seq<Instant>)
    requires w in ws
    ensures ws == a + ([w] + b)
    ensures multiset(ws) == multiset(a + b) + multiset{w}
  {
    var j :| 0 <= j < |ws| && ws[j] == w;
    a, b := ws[..j], ws[j + 1..];
    assert ws == a + ([w] + b);
    assert multiset(ws) == multiset(a) + (multiset([w]) + multiset(b));
    assert multiset(a + b) == multiset(a) + multiset(b);
  }

  /** A sum over windows does not depend on the order in which they are visited. */
  lemma {:induction false} SumByIgnoresOrder(f: Instant -> real, ws: seq<Instant>, vs: seq<Instant>)
    requires multiset(ws) == multiset(vs)
    ensures |ws| == |vs| && SumBy(f, ws) == SumBy(f, vs)
  {
    assert |multiset(ws)| == |multiset(vs)|;
    if ws == [] {
    } else {
      var front, w := ws[..|ws| - 1], ws[|ws| - 1];
      assert ws == front + [w];
      assert multiset(ws) == multiset(front) + multiset{w};
      assert w in multiset(vs);
      var a, b := SplitAt(vs, w);
      assert multiset(front) == multiset(ws) - multiset{w} == multiset(a + b);
      SumByIgnoresOrder(f, front, a + b);
      SumByTakeOut(f, a, w, b);
    }
  }

  lemma {:induction false} SumBySum(ws: seq<Instant>, counts: map<Instant, nat>, f: Instant -> real)
    requires forall w :: f(w) == CountAt(counts, w) as real
    ensures Sum(Values(ws, counts)) == SumBy(f, ws)
  {
    if ws == [] {
    } else {
      SumBySum(ws[..|ws| - 1], counts, f);
    }
  }

  lemma {:induction false} SumByDistance(ws: seq<Instant>, counts: map<Instant, nat>, m: real, g: Instant -> real)
    requires forall w :: g(w) == Square(CountAt(counts, w) as real - m)
    ensures SquaredDistance(Values(ws, counts), m) == SumBy(g, ws)
  {
    if ws == [] {
    } else {
      var front, w := ws[..|ws| - 1], ws[|ws| - 1];
      SumByDistance(front, counts, m, g);
      DistanceOfAppend(Values(front, counts), CountAt(counts, w) as real, m, g(w));
    }
  }

  lemma {:induction false} DistanceOfAppend(xs: seq<real>, x: real, m: real, share: real)
    requires share == Square(x - m)
    ensures SquaredDistance(xs + [x], m) == SquaredDistance(xs, m) + share
  {
    Append(xs, x, m);
  }

  lemma {:induction false} SameSum(ws: seq<Instant>, vs: seq<Instant>, counts: map<Instant, nat>)
    requires multiset(ws) == multiset(vs)
    ensures |ws| == |vs| && Sum(Values(ws, counts)) == Sum(Values(vs, counts))
  {
    var f := w => CountAt(counts, w) as real;
    SumBySum(ws, counts, f);
    SumBySum(vs, counts, f);
    SumByIgnoresOrder(f, ws, vs);
  }

  lemma {:induction false} SameDistance(ws: seq<Instant>, vs: seq<Instant>, counts: map<Instant, nat>, m: real)
    requires multiset(ws) == multiset(vs)
    ensures SquaredDistance(Values(ws, counts), m) == SquaredDistance(Values(vs, counts), m)
  {
    var g := w => Square(CountAt(counts, w) as real - m);
    SumByDistance(ws, counts, m, g);
    SumByDistance(vs, counts, m, g);
    SumByIgnoresOrder(g, ws, vs);
  }

  lemma {:induction false} SortedKeysListKeys(keys: set<Instant>)
    ensures multiset(SortedKeys(keys)) == multiset(keys)
    decreases keys
  {
    if keys == {} {
    } else {
      SortedKeysListKeys(keys - {Min(keys)});
      assert keys == {Min(keys)} + (keys - {Min(keys)});
    }
  }

  lemma {:induction false} SameMean(xs: seq<real>, ys: seq<real>)
    requires |xs| == |ys| && Sum(xs) == Sum(ys)
    ensures Mean(xs) == Mean(ys)
  {
    var n := |xs| as real;
    assert Mean(xs) == if xs == [] then 0.0 else Sum(xs) / n;
  }

  lemma {:induction false} SameStdDev(xs: seq<real>, ys: seq<real>, m: real, sqrt: real -> real)
    requires |xs| == |ys| && m == Mean(xs) == Mean(ys) && SquaredDistance(xs, m) == SquaredDistance(ys, m)
    ensures StdDev(xs, sqrt) == StdDev(ys, sqrt)
  {
  }

  /** Mean and deviation do not depend on the map's iteration order. */
  lemma {:induction false} StatisticsIgnoreOrder(order: seq<Instant>, sorted: seq<Instant>,
          counts: map<Instant, nat>, sqrt: real -> real)
    requires multiset(order) == multiset(sorted)
    ensures |order| == |sorted|
    ensures Mean(Values(order, counts)) == Mean(Values(sorted, counts))
    ensures StdDev(Values(order, counts), sqrt) == StdDev(Values(sorted, counts), sqrt)
  {
    var xs, ys := Values(order, counts), Values(sorted, counts);
    SameSum(order, sorted, counts);
    SameMean(xs, ys);
    SameDistance(order, sorted, counts, Mean(xs));
    SameStdDev(xs, ys, Mean(xs), sqrt);
  }

  // ---------------------------------------------------------------------------
  // Error spikes.
  // ---------------------------------------------------------------------------

  /** What a detection knows about all windows: counts, mean, deviation. */
  datatype Baseline = Baseline(counts: map<Instant, nat>, mean: real, stdDev: real, samples: nat)

  ghost function BaselineOf(counts: map<Instant, nat>, sqrt: real -> real): Baseline {
    var values := Values(SortedKeys(counts.Keys), counts);
    Baseline(counts, Mean(values), StdDev(values, sqrt), |values|)
  }

  method ComputeBaseline(counts: map<Instant, nat>, sqrt: real -> real) returns (b: Baseline)
    ensures b == BaselineOf(counts, sqrt)
  {
    var values, order := CollectValues(counts);
    var mean := CalculateMean(values);
    var stdDev := CalculateStdDev(values, mean, sqrt);
    SortedKeysListKeys(counts.Keys);
    StatisticsIgnoreOrder(order, SortedKeys(counts.Keys), counts, sqrt);
    return Baseline(counts, mean, stdDev, |values|);
  }

  function DeviationIn(b: Baseline, w: Instant): real
    requires b.stdDev > 0.0
  {
    (CountAt(b.counts, w) as real - b.mean) / b.stdDev
  }

  function Report(det: Detector, b: Baseline, w: Instant, kind: Kind, severity: Severity, deviation: real,
                  related: seq<LogEntry>): Anomaly {
    Anomaly(kind, severity, w, w + det.Width(),
            Stats(CountAt(b.counts, w) as real, b.mean, b.stdDev, Some(deviation), b.samples), related)
  }

  predicate Spiking(det: Detector, b: Baseline, w: Instant) {
    b.stdDev > 0.0 && DeviationIn(b, w) > det.errorSpikeThreshold
  }

  predicate Dropping(det: Detector, b: Baseline, w: Instant) {
    b.stdDev > 0.0 && DeviationIn(b, w) < -det.errorSpikeThreshold
  }

  function ErrorSpikeAt(det: Detector, logs: seq<LogEntry>, b: Baseline, w: Instant): Anomaly
    requires b.stdDev > 0.0
  {
    var d := DeviationIn(b, w);
    Report(det, b, w, ErrorSpike, SeverityByDeviation(d), d, EntriesInWindow(logs, w, det.Width()))
  }

  function ErrorSpikes(det: Detector, logs: seq<LogEntry>, b: Baseline, ws: seq<Instant>): seq<Anomaly> {
    if ws == [] then []
    else
      var w := ws[|ws| - 1];
      ErrorSpikes(det, logs, b, ws[..|ws| - 1]) + if Spiking(det, b, w) then [ErrorSpikeAt(det, logs, b, w)] else []
  }

  function ErrorCounts(det: Detector, logs: seq<LogEntry>): map<Instant, nat> {
    WindowCounts(logs, (e: LogEntry) => IsError(e), det.Width())
  }

  /** No report from too few entries or fewer than three windows. */
  predicate TooFew(det: Detector, logs: seq<LogEntry>, counts: map<Instant, nat>) {
    |logs| < det.minSampleSize || |counts| < 3
  }

  method ScanForErrors(det: Detector, logs: seq<LogEntry>, b: Baseline, windows: seq<Instant>)
    returns (anomalies: seq<Anomaly>)
    ensures anomalies == ErrorSpikes(det, logs, b, windows)
  {
    anomalies := [];
    for i := 0 to |windows|
      invariant anomalies == ErrorSpikes(det, logs, b, windows[..i])
    {
      assert windows[..i + 1][..i] == windows[..i];
      var w := windows[i];
      if b.stdDev > 0.0 && DeviationIn(b, w) > det.errorSpikeThreshold {
        var deviation := DeviationIn(b, w);
        var related := GetEntriesInWindow(logs, w, det.Width());
        anomalies := anomalies + [Report(det, b, w, ErrorSpike, SeverityByDeviation(deviation), deviation, related)];
      }
    }
    assert windows[..|windows|] == windows;
  }

  method DetectErrorSpike(det: Detector, logs: seq<LogEntry>, sqrt: real -> real) returns (anomalies: seq<Anomaly>)
    ensures var counts := ErrorCounts(det, logs);
      anomalies == if TooFew(det, logs, counts) then []
                   else ErrorSpikes(det, logs, BaselineOf(counts, sqrt), SortedKeys(counts.Keys))
  {
    anomalies := [];
    if |logs| < det.minSampleSize {
      return;
    }
    var counts := CountByTimeWindow(logs, (e: LogEntry) => IsError(e), det.Width());
    if |counts| < 3 {
      return;
    }
    var b := ComputeBaseline(counts, sqrt);
    var windows := GetSortedWindows(counts);
    anomalies := ScanForErrors(det, logs, b, windows);
  }

  // ---------------------------------------------------------------------------
  // Traffic spikes and drops.
  // ---------------------------------------------------------------------------

  function TrafficAt(det: Detector, b: Baseline, w: Instant): seq<Anomaly> {
    (if Spiking(det, b, w) then [Report(det, b, w, TrafficSpike, Medium, DeviationIn(b, w), [])] else []) +
    (if Dropping(det, b, w) then [Report(det, b, w, TrafficDrop, High, Abs(DeviationIn(b, w)), [])] else [])
  }

  function Abs(x: real): real {
    if x < 0.0 then -x else x
  }

  function TrafficAnomalies(det: Detector, b: Baseline, ws: seq<Instant>): seq<Anomaly> {
    if ws == [] then [] else TrafficAnomalies(det, b, ws[..|ws| - 1]) + TrafficAt(det, b, ws[|ws| - 1])
  }

  function TrafficCounts(det: Detector, logs: seq<LogEntry>): map<Instant, nat> {
    WindowCounts(logs, _ => true, det.Width())
  }

  method ScanForTraffic(det: Detector, b: Baseline, windows: seq<Instant>) returns (anomalies: seq<Anomaly>)
    requires b.stdDev >= 0.0
    ensures anomalies == TrafficAnomalies(det, b, windows)
  {
    anomalies := [];
    for i := 0 to |windows|
      invariant anomalies == TrafficAnomalies(det, b, windows[..i])
    {
      assert windows[..i + 1][..i] == windows[..i];
      if b.stdDev == 0.0 {
        continue;
      }
      var w := windows[i];
      var deviation := DeviationIn(b, w);
      if deviation > det.errorSpikeThreshold {
        anomalies := anomalies + [Report(det, b, w, TrafficSpike, Medium, deviation, [])];
      }
      if deviation < -det.errorSpikeThreshold {
        anomalies := anomalies + [Report(det, b, w, TrafficDrop, High, Abs(deviation), [])];
      }
    }
    assert windows[..|windows|] == windows;
  }

  method DetectTrafficAnomaly(det: Detector, logs: seq<LogEntry>, sqrt: real -> real) returns (anomalies: seq<Anomaly>)
    requires IsSquareRoot(sqrt)
    ensures var counts := TrafficCounts(det, logs);
      anomalies == if TooFew(det, logs, counts) then []
                   else TrafficAnomalies(det, BaselineOf(counts, sqrt), SortedKeys(counts.Keys))
  {
    anomalies := [];
    if |logs| < det.minSampleSize {
      return;
    }
    var counts := CountByTimeWindow(logs, _ => true, det.Width());
    if |counts| < 3 {
      return;
    }
    var b := ComputeBaseline(counts, sqrt);
    StdDevIsStdDev(Values(SortedKeys(counts.Keys), counts), sqrt);
    var windows := GetSortedWindows(counts);
    anomalies := ScanForTraffic(det, b, windows);
  }

  // ---------------------------------------------------------------------------
  // Slow requests.
  // ---------------------------------------------------------------------------

  function PositiveTimes(logs: seq<NginxLogEntry>): seq<real> {
    if logs == [] then []
    else
      var last := logs[|logs| - 1];
      PositiveTimes(logs[..|logs| - 1]) + if last.responseTime > 0.0 then [last.responseTime] else []
  }

  function Slow(det: Detector, logs: seq<NginxLogEntry>): seq<LogEntry> {
    if logs == [] then []
    else
      var last := logs[|logs| - 1];
      Slow(det, logs[..|logs| - 1]) + if last.responseTime > det.slowRequestThreshold then [last.entry] else []
  }

  function SlowSpell(det: Detector, slow: seq<LogEntry>, b: Baseline, w: Instant): Anomaly {
    Anomaly(SlowRequests, Medium, w, w + det.Width(),
            Stats(CountAt(b.counts, w) as real, b.mean, b.stdDev,
                  if b.mean == 0.0 then None else Some(det.slowRequestThreshold / b.mean), b.samples),
            EntriesInWindow(slow, w, det.Width()))
  }

  function SlowSpells(det: Detector, slow: seq<LogEntry>, b: Baseline, ws: seq<Instant>): seq<Anomaly> {
    if ws == [] then []
    else
      var w := ws[|ws| - 1];
      SlowSpells(det, slow, b, ws[..|ws| - 1]) + if CountAt(b.counts, w) >= 3 then [SlowSpell(det, slow, b, w)] else []
  }

  /** The spells come in the arbitrary order in which the map of windows is visited. */
  method DetectSlowRequests(det: Detector, logs: seq<NginxLogEntry>, sqrt: real -> real)
    returns (anomalies: seq<Anomaly>, ghost order: seq<Instant>)
    ensures |logs| < det.minSampleSize || |PositiveTimes(logs)| < det.minSampleSize ==> anomalies == []
    ensures var times, counts := PositiveTimes(logs), TrafficCounts(det, Slow(det, logs));
      |logs| >= det.minSampleSize && |times| >= det.minSampleSize ==>
        && multiset(order) == multiset(counts.Keys)
        && anomalies
           == SlowSpells(det, Slow(det, logs), Baseline(counts, Mean(times), StdDev(times, sqrt), |times|), order)
  {
    anomalies, order := [], [];
    if |logs| < det.minSampleSize {
      return;
    }
    var times := CollectTimes(logs);
    if |times| < det.minSampleSize {
      return;
    }
    var mean := CalculateMean(times);
    var stdDev := CalculateStdDev(times, mean, sqrt);
    var slow := CollectSlow(det, logs);
    if |slow| > 0 {
      var counts := CountByTimeWindow(slow, _ => true, det.Width());
      anomalies, order := CollectSpells(det, slow, Baseline(counts, mean, stdDev, |times|));
    }
  }

  method CollectTimes(logs: seq<NginxLogEntry>) returns (times: seq<real>)
    ensures times == PositiveTimes(logs)
  {
    times := [];
    for i := 0 to |logs|
      invariant times == PositiveTimes(logs[..i])
    {
      assert logs[..i + 1][..i] == logs[..i];
      if logs[i].responseTime > 0.0 {
        times := times + [logs[i].responseTime];
      }
    }
    assert logs[..|logs|] == logs;
  }

  method CollectSlow(det: Detector, logs: seq<NginxLogEntry>) returns (slow: seq<LogEntry>)
    ensures slow == Slow(det, logs)
  {
    slow := [];
    for i := 0 to |logs|
      invariant slow == Slow(det, logs[..i])
    {
      assert logs[..i + 1][..i] == logs[..i];
      if logs[i].responseTime > det.slowRequestThreshold {
        slow := slow + [logs[i].entry];
      }
    }
    assert logs[..|logs|] == logs;
  }

  method ReportSpell(det: Detector, slow: seq<LogEntry>, b: Baseline, w: Instant) returns (spell: Anomaly)
    ensures spell == SlowSpell(det, slow, b, w)
  {
    var related := GetEntriesInWindow(slow, w, det.Width());
    var factor := if b.mean == 0.0 then None else Some(det.slowRequestThreshold / b.mean);
    var stats := Stats(CountAt(b.counts, w) as real, b.mean, b.stdDev, factor, b.samples);
    return Anomaly(SlowRequests, Medium, w, w + det.Width(), stats, related);
  }

  lemma {:induction false} OneMoreKey(keys: set<Instant>, rest: set<Instant>, w: Instant)
    requires w in rest && rest <= keys
    ensures keys - (rest - {w}) == (keys - rest) + {w}
    ensures multiset(keys - (rest - {w})) == multiset(keys - rest) + multiset{w}
  {
    assert keys - (rest - {w}) == (keys - rest) + {w};
  }

  lemma {:induction false} SpellsAppend(det: Detector, slow: seq<LogEntry>, b: Baseline, order: seq<Instant>,
          w: Instant)
    ensures SlowSpells(det, slow, b, order + [w])
         == SlowSpells(det, slow, b, order) + if CountAt(b.counts, w) >= 3 then [SlowSpell(det, slow, b, w)] else []
  {
    assert (order + [w])[..|order|] == order;
  }

  method CollectSpells(det: Detector, slow: seq<LogEntry>, b: Baseline)
    returns (anomalies: seq<Anomaly>, ghost order: seq<Instant>)
    ensures multiset(order) == multiset(b.counts.Keys)
    ensures anomalies == SlowSpells(det, slow, b, order)
  {
    anomalies, order := [], [];
    var rest := b.counts.Keys;
    while rest != {}
      invariant rest <= b.counts.Keys
      invariant anomalies == SlowSpells(det, slow, b, order)
      invariant multiset(order) == multiset(b.counts.Keys - rest)
      decreases rest
    {
      var w :| w in rest by {
        var _ := Member(rest);
      }
      OneMoreKey(b.counts.Keys, rest, w);
      SpellsAppend(det, slow, b, order, w);
      if b.counts[w] >= 3 {
        var spell := ReportSpell(det, slow, b, w);
        anomalies := anomalies + [spell];
      }
      order, rest := order + [w], rest - {w};
    }
  }

  // ---------------------------------------------------------------------------
  // How many reports there can be, and what each one takes.
  // ---------------------------------------------------------------------------

  lemma {:induction false} TrafficCount(det: Detector, b: Baseline, ws: seq<Instant>)
    requires b.stdDev > 0.0 && det.errorSpikeThreshold >= 0.0
    ensures |TrafficAnomalies(det, b, ws)|
         == CountFarOut(Centered(Values(ws, b.counts), b.mean), b.stdDev, det.errorSpikeThreshold)
  {
    if ws == [] {
    } else {
      TrafficCount(det, b, ws[..|ws| - 1]);
    }
  }

  lemma {:induction false} ErrorSpikesAmongFarOut(det: Detector, logs: seq<LogEntry>, b: Baseline, ws: seq<Instant>)
    requires b.stdDev > 0.0
    ensures |ErrorSpikes(det, logs, b, ws)|
         <= CountFarOut(Centered(Values(ws, b.counts), b.mean), b.stdDev, det.errorSpikeThreshold)
  {
    if ws == [] {
    } else {
      ErrorSpikesAmongFarOut(det, logs, b, ws[..|ws| - 1]);
    }
  }

  lemma {:induction false} NothingWithoutSpread(det: Detector, logs: seq<LogEntry>, b: Baseline, ws: seq<Instant>)
    requires b.stdDev == 0.0
    ensures TrafficAnomalies(det, b, ws) == [] && ErrorSpikes(det, logs, b, ws) == []
  {
    if ws == [] {
    } else {
      NothingWithoutSpread(det, logs, b, ws[..|ws| - 1]);
    }
  }

  /** b is the mean and deviation of the windows ws. */
  predicate Describes(b: Baseline, ws: seq<Instant>) {
    && b.samples == |ws|
    && b.mean == Mean(Values(ws, b.counts))
    && IsStdDev(Values(ws, b.counts), b.stdDev)
  }

  lemma {:induction false} BaselineDescribes(counts: map<Instant, nat>, sqrt: real -> real)
    requires IsSquareRoot(sqrt)
    ensures Describes(BaselineOf(counts, sqrt), SortedKeys(counts.Keys))
    ensures |SortedKeys(counts.Keys)| == |counts|
  {
    SortedKeysSorted(counts.Keys);
    StdDevIsStdDev(Values(SortedKeys(counts.Keys), counts), sqrt);
  }

  lemma {:induction false} DeviationEquation(xs: seq<real>, m: real, s: real)
    requires m == Mean(xs) && IsStdDev(xs, s) && s > 0.0
    ensures Square(s) * (|xs| as real - 1.0) == SumSquares(Centered(xs, m))
  {
  }

  lemma {:induction false} FarOutBound(ys: seq<real>, s: real, t: real, k: nat, n1: real)
    requires s > 0.0 && t >= 0.0 && Square(s) * n1 == SumSquares(ys) && k <= CountFarOut(ys, s, t)
    ensures k > 0 ==> Square(t) * k as real < n1
  {
    ChebyshevCentered(ys, s, t, n1, SumSquares(ys));
    FewerIsLess(t, k, CountFarOut(ys, s, t), n1);
  }

  lemma {:induction false} FlaggedBound(b: Baseline, ws: seq<Instant>, t: real, k: nat)
    requires Describes(b, ws) && b.stdDev > 0.0 && t >= 0.0
    requires k <= CountFarOut(Centered(Values(ws, b.counts), b.mean), b.stdDev, t)
    ensures k > 0 ==> Square(t) * k as real < |ws| as real - 1.0
  {
    var xs := Values(ws, b.counts);
    DeviationEquation(xs, b.mean, b.stdDev);
    FarOutBound(Centered(xs, b.mean), b.stdDev, t, k, |ws| as real - 1.0);
  }

  /** Of n windows, the k reported as spike or drop satisfy t*t*k < n-1 at threshold t. */
  lemma {:induction false} TrafficBound(det: Detector, b: Baseline, ws: seq<Instant>)
    requires Describes(b, ws) && det.errorSpikeThreshold >= 0.0
    ensures var k := |TrafficAnomalies(det, b, ws)|;
      k > 0 ==> Square(det.errorSpikeThreshold) * k as real < |ws| as real - 1.0
  {
    if b.stdDev > 0.0 {
      TrafficCount(det, b, ws);
      FlaggedBound(b, ws, det.errorSpikeThreshold, |TrafficAnomalies(det, b, ws)|);
    } else {
      NothingWithoutSpread(det, [], b, ws);
    }
  }

  /** Likewise for the k error spikes. */
  lemma {:induction false} ErrorSpikeBound(det: Detector, logs: seq<LogEntry>, b: Baseline, ws: seq<Instant>)
    requires Describes(b, ws) && det.errorSpikeThreshold >= 0.0
    ensures var k := |ErrorSpikes(det, logs, b, ws)|;
      k > 0 ==> Square(det.errorSpikeThreshold) * k as real < |ws| as real - 1.0
  {
    if b.stdDev > 0.0 {
      ErrorSpikesAmongFarOut(det, logs, b, ws);
      FlaggedBound(b, ws, det.errorSpikeThreshold, |ErrorSpikes(det, logs, b, ws)|);
    } else {
      NothingWithoutSpread(det, logs, b, ws);
    }
  }

  lemma {:induction false} FewerIsLess(t: real, k: nat, far: nat, n1: real)
    requires k <= far && (far > 0 ==> Square(t) * far as real < n1)
    ensures k > 0 ==> Square(t) * k as real < n1
  {
    SquareSign(t);
    MulMonotone(k as real, far as real, Square(t));
    assert k as real * Square(t) == Square(t) * k as real;
    assert far as real * Square(t) == Square(t) * far as real;
  }

  lemma {:induction false} SpikeIsReported(det: Detector, logs: seq<LogEntry>, b: Baseline, ws: seq<Instant>,
          w: Instant)
    requires w in ws && Spiking(det, b, w)
    ensures ErrorSpikeAt(det, logs, b, w) in ErrorSpikes(det, logs, b, ws)
  {
    var front, last := ws[..|ws| - 1], ws[|ws| - 1];
    if w != last {
      assert ws == front + [last];
      SpikeIsReported(det, logs, b, front, w);
    }
  }

  lemma {:induction false} ReportIsASpike(det: Detector, logs: seq<LogEntry>, b: Baseline, ws: seq<Instant>,
          a: Anomaly)
    requires a in ErrorSpikes(det, logs, b, ws)
    ensures a.start in ws && Spiking(det, b, a.start) && a == ErrorSpikeAt(det, logs, b, a.start)
  {
    var front, last := ws[..|ws| - 1], ws[|ws| - 1];
    if a in ErrorSpikes(det, logs, b, front) {
      ReportIsASpike(det, logs, b, front, a);
    }
  }

  lemma {:induction false} SpikesAscend(det: Detector, logs: seq<LogEntry>, b: Baseline, ws: seq<Instant>)
    requires forall i, j :: 0 <= i < j < |ws| ==> ws[i] < ws[j]
    ensures var found := ErrorSpikes(det, logs, b, ws);
      forall i, j :: 0 <= i < j < |found| ==> found[i].start < found[j].start
  {
    if ws == [] {
    } else {
      var front := ws[..|ws| - 1];
      var before := ErrorSpikes(det, logs, b, front);
      SpikesAscend(det, logs, b, front);
      forall i | 0 <= i < |before| ensures before[i].start < ws[|ws| - 1] {
        ReportIsASpike(det, logs, b, front, before[i]);
      }
    }
  }

  lemma {:induction false} ValueAt(ws: seq<Instant>, counts: map<Instant, nat>, j: nat)
    requires j < |ws|
    ensures Values(ws, counts)[j] == CountAt(counts, ws[j]) as real
  {
    if j < |ws| - 1 {
      ValueAt(ws[..|ws| - 1], counts, j);
    }
  }

  lemma {:induction false} DeviationTakes(b: Baseline, ws: seq<Instant>, w: Instant, t: nat)
    requires Describes(b, ws) && w in ws && b.stdDev > 0.0
    requires DeviationIn(b, w) > t as real || DeviationIn(b, w) < -(t as real)
    ensures t == 2 ==> b.samples >= 6
    ensures t == 3 ==> b.samples >= 11
    ensures t == 4 ==> b.samples >= 18
  {
    var j :| 0 <= j < |ws| && ws[j] == w;
    ValueAt(ws, b.counts, j);
    SamplesNeeded(Values(ws, b.counts), b.stdDev, j, t);
  }

  /**
   At a threshold of 2 or more an error spike takes 6 windows and is at least medium; at any threshold a
   high one takes 11 windows and a critical one 18.
   */
  lemma {:induction false} ErrorSpikeTakesWindows(det: Detector, logs: seq<LogEntry>, b: Baseline, ws: seq<Instant>,
          a: Anomaly)
    requires Describes(b, ws) && a in ErrorSpikes(det, logs, b, ws)
    requires forall i, j :: 0 <= i < j < |ws| ==> ws[i] < ws[j]
    ensures det.errorSpikeThreshold >= 2.0 ==> b.samples >= 6 && !a.severity.Low?
    ensures a.severity == High ==> b.samples >= 11
    ensures a.severity == Critical ==> b.samples >= 18
  {
    ReportIsASpike(det, logs, b, ws, a);
    SpikeSeverityTakes(det, logs, b, ws, a.start);
  }

  lemma {:induction false} SpikeSeverityTakes(det: Detector, logs: seq<LogEntry>, b: Baseline, ws: seq<Instant>,
          w: Instant)
    requires Describes(b, ws) && w in ws && Spiking(det, b, w)
    ensures det.errorSpikeThreshold >= 2.0 ==> b.samples >= 6 && !ErrorSpikeAt(det, logs, b, w).severity.Low?
    ensures ErrorSpikeAt(det, logs, b, w).severity == High ==> b.samples >= 11
    ensures ErrorSpikeAt(det, logs, b, w).severity == Critical ==> b.samples >= 18
  {
    var d := DeviationIn(b, w);
    if d > 2.0 {
      DeviationTakes(b, ws, w, 2);
    }
    if d > 3.0 {
      DeviationTakes(b, ws, w, 3);
    }
    if d > 4.0 {
      DeviationTakes(b, ws, w, 4);
    }
  }

  /** At a threshold of 2 or more a traffic spike or drop takes 6 windows. */
  lemma {:induction false} TrafficTakesWindows(det: Detector, b: Baseline, ws: seq<Instant>, all: seq<Instant>)
    requires Describes(b, all) && ws <= all && det.errorSpikeThreshold >= 2.0 && TrafficAnomalies(det, b, ws) != []
    ensures b.samples >= 6
  {
    var w := ws[|ws| - 1];
    assert all[|ws| - 1] == w;
    if TrafficAt(det, b, w) == [] {
      TrafficTakesWindows(det, b, ws[..|ws| - 1], all);
    } else {
      DeviationTakes(b, all, w, 2);
    }
  }

  /** A slow spell lists the slow requests it counts, and counts at least three. */
  lemma {:induction false} SlowSpellListsItsRequests(det: Detector, slow: seq<LogEntry>, b: Baseline,
          ws: seq<Instant>, a: Anomaly)
    requires det.timeWindowMinutes > 0 && b.counts == TrafficCounts(det, slow) && a in SlowSpells(det, slow, b, ws)
    ensures a.stats.current == |a.related| as real && |a.related| >= 3
    ensures a.start in ws && a.related == EntriesInWindow(slow, a.start, det.Width())
  {
    var front, w := ws[..|ws| - 1], ws[|ws| - 1];
    if a in SlowSpells(det, slow, b, front) {
      SlowSpellListsItsRequests(det, slow, b, front, a);
    } else {
      assert w in b.counts;
      CountMatchesEntriesIffWide(slow, det.Width(), w);
    }
  }

  lemma {:induction false} FourTimes(t: real, k: nat, n: nat)
    requires t == 2.0 && Square(t) * k as real < n as real - 1.0
    ensures 4 * k < n - 1
  {
    assert Square(t) == 4.0;
  }

  lemma {:induction false} DefaultTrafficFew(b: Baseline, ws: seq<Instant>)
    requires Describes(b, ws) && TrafficAnomalies(DEFAULT, b, ws) != []
    ensures 4 * |TrafficAnomalies(DEFAULT, b, ws)| < |ws| - 1
  {
    TrafficBound(DEFAULT, b, ws);
    FourTimes(DEFAULT.errorSpikeThreshold, |TrafficAnomalies(DEFAULT, b, ws)|, |ws|);
  }

  lemma {:induction false} DefaultErrorsFew(logs: seq<LogEntry>, b: Baseline, ws: seq<Instant>)
    requires Describes(b, ws) && ErrorSpikes(DEFAULT, logs, b, ws) != []
    ensures 4 * |ErrorSpikes(DEFAULT, logs, b, ws)| < |ws| - 1
  {
    ErrorSpikeBound(DEFAULT, logs, b, ws);
    FourTimes(DEFAULT.errorSpikeThreshold, |ErrorSpikes(DEFAULT, logs, b, ws)|, |ws|);
  }

  /** With the default settings, k traffic reports, or k error spikes, take more than 4k+1 windows, and at least 6. */
  lemma {:induction false} DefaultsReportFew(logs: seq<LogEntry>, counts: map<Instant, nat>, sqrt: real -> real)
    requires IsSquareRoot(sqrt)
    ensures var k := |TrafficAnomalies(DEFAULT, BaselineOf(counts, sqrt), SortedKeys(counts.Keys))|;
      k > 0 ==> 4 * k < |counts| - 1 && |counts| >= 6
    ensures var k := |ErrorSpikes(DEFAULT, logs, BaselineOf(counts, sqrt), SortedKeys(counts.Keys))|;
      k > 0 ==> 4 * k < |counts| - 1 && |counts| >= 6
  {
    var b, ws := BaselineOf(counts, sqrt), SortedKeys(counts.Keys);
    var j, k := |TrafficAnomalies(DEFAULT, b, ws)|, |ErrorSpikes(DEFAULT, logs, b, ws)|;
    BaselineDescribes(counts, sqrt);
    if j > 0 {
      DefaultTrafficFew(b, ws);
    }
    if k > 0 {
      DefaultErrorsFew(logs, b, ws);
    }
  }
}
