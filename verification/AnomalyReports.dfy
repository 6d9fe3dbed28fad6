/**
 What the detections report, said without the functions that compute it: which windows, of which kind and
 severity, and what each report states.
 */
module AnomalyReports {

  import opened Wrappers
  import opened Clock
  import opened Statistics
  import opened TimeWindows
  import opened AnomalyDetector

  /** The window's count lies more than t standard deviations above the mean. */
  predicate Above(b: Baseline, w: Instant, t: real) {
    b.stdDev > 0.0 && CountAt(b.counts, w) as real > b.mean + t * b.stdDev
  }

  predicate Below(b: Baseline, w: Instant, t: real) {
    b.stdDev > 0.0 && CountAt(b.counts, w) as real < b.mean - t * b.stdDev
  }

  /** A report on its window: where it begins and ends, the count, the baseline. */
  predicate Describes(a: Anomaly, det: Detector, b: Baseline) {
    && a.end == a.start + det.timeWindowMinutes * 60_000_000_000
    && a.stats.current == CountAt(b.counts, a.start) as real
    && a.stats.baseline == b.mean && a.stats.stdDev == b.stdDev && a.stats.samples == b.samples
  }

  /** The stated deviation is the signed distance from the mean, in standard deviations. */
  predicate Signed(a: Anomaly, b: Baseline) {
    a.stats.deviation.Some? && a.stats.deviation.value * b.stdDev == a.stats.current - b.mean
  }

  /** The stated deviation is the distance from the mean, in standard deviations. */
  predicate Unsigned(a: Anomaly, b: Baseline) {
    && a.stats.deviation.Some? && a.stats.deviation.value >= 0.0
    && (a.stats.deviation.value * b.stdDev == a.stats.current - b.mean
        || a.stats.deviation.value * b.stdDev == b.mean - a.stats.current)
  }

  // ---------------------------------------------------------------------------
  // Deviations without division.
  // ---------------------------------------------------------------------------

  lemma {:induction false} QuotientTimes(x: real, s: real)
    requires s > 0.0
    ensures x / s * s == x
  {
  }

  lemma {:induction false} TimesCompares(d: real, t: real, s: real)
    requires s > 0.0
    ensures d > t <==> d * s > t * s
    ensures d < t <==> d * s < t * s
  {
    if d > t {
      MulStrict(t, d, s);
    } else if d < t {
      MulStrict(d, t, s);
    }
  }

  lemma {:induction false} DeviationTimes(b: Baseline, w: Instant, t: real)
    requires b.stdDev > 0.0
    ensures DeviationIn(b, w) * b.stdDev == CountAt(b.counts, w) as real - b.mean
    ensures DeviationIn(b, w) > t <==> Above(b, w, t)
    ensures DeviationIn(b, w) < -t <==> Below(b, w, t)
  {
    QuotientTimes(CountAt(b.counts, w) as real - b.mean, b.stdDev);
    TimesCompares(DeviationIn(b, w), t, b.stdDev);
    TimesCompares(DeviationIn(b, w), -t, b.stdDev);
    assert -t * b.stdDev == -(t * b.stdDev);
  }

  lemma {:induction false} NotBoth(b: Baseline, w: Instant, t: real)
    requires t >= 0.0
    ensures !(Above(b, w, t) && Below(b, w, t))
  {
    if b.stdDev > 0.0 {
      MulMonotone(0.0, t, b.stdDev);
    }
  }

  // ---------------------------------------------------------------------------
  // Error spikes.
  // ---------------------------------------------------------------------------

  /** Severity goes by how many deviations the count lies above the mean. */
  predicate Graded(a: Anomaly, b: Baseline) {
    && (a.severity == Critical <==> Above(b, a.start, 4.0))
    && (a.severity == High <==> Above(b, a.start, 3.0) && !Above(b, a.start, 4.0))
    && (a.severity == Medium <==> Above(b, a.start, 2.0) && !Above(b, a.start, 3.0))
    && (a.severity == Low <==> !Above(b, a.start, 2.0))
  }

  lemma {:induction false} SpikeSays(det: Detector, logs: seq<LogEntry>, b: Baseline, w: Instant)
    requires b.stdDev > 0.0
    ensures var a := ErrorSpikeAt(det, logs, b, w);
      && a.start == w && a.kind == ErrorSpike && Describes(a, det, b) && Signed(a, b) && Graded(a, b)
      && a.related == EntriesInWindow(logs, w, det.timeWindowMinutes * 60_000_000_000)
  {
    DeviationTimes(b, w, 4.0);
    DeviationTimes(b, w, 3.0);
    DeviationTimes(b, w, 2.0);
  }

  /**
   The error spikes, exactly: a window is reported if and only if its count lies more than the threshold above the
   mean; reports ascend, one to a window; and each says what it should.
   */
  lemma {:induction false} ErrorSpikesExactly(det: Detector, logs: seq<LogEntry>, b: Baseline, ws: seq<Instant>,
          w: Instant)
    requires forall i, j :: 0 <= i < j < |ws| ==> ws[i] < ws[j]
    ensures var found := ErrorSpikes(det, logs, b, ws);
      && ((exists a :: a in found && a.start == w) <==> w in ws && Above(b, w, det.errorSpikeThreshold))
      && (forall i, j :: 0 <= i < j < |found| ==> found[i].start < found[j].start)
      && (forall a :: a in found ==>
            && a.start in ws && a.kind == ErrorSpike && Describes(a, det, b) && Signed(a, b) && Graded(a, b)
            && a.related == EntriesInWindow(logs, a.start, det.timeWindowMinutes * 60_000_000_000))
  {
    var found := ErrorSpikes(det, logs, b, ws);
    SpikesAscend(det, logs, b, ws);
    if b.stdDev > 0.0 {
      DeviationTimes(b, w, det.errorSpikeThreshold);
    }
    if w in ws && Spiking(det, b, w) {
      SpikeIsReported(det, logs, b, ws, w);
      SpikeSays(det, logs, b, w);
    }
    forall a | a in found
      ensures a.start in ws && Spiking(det, b, a.start) && a == ErrorSpikeAt(det, logs, b, a.start)
      ensures a.kind == ErrorSpike && Describes(a, det, b) && Signed(a, b) && Graded(a, b)
      ensures a.related == EntriesInWindow(logs, a.start, det.timeWindowMinutes * 60_000_000_000)
    {
      ReportIsASpike(det, logs, b, ws, a);
      SpikeSays(det, logs, b, a.start);
    }
  }

  // ---------------------------------------------------------------------------
  // Traffic spikes and drops.
  // ---------------------------------------------------------------------------

  lemma {:induction false} TrafficHas(det: Detector, b: Baseline, ws: seq<Instant>, w: Instant, a: Anomaly)
    requires w in ws && a in TrafficAt(det, b, w)
    ensures a in TrafficAnomalies(det, b, ws)
  {
    var front, last := ws[..|ws| - 1], ws[|ws| - 1];
    if w != last {
      assert ws == front + [last];
      TrafficHas(det, b, front, w, a);
    }
  }

  lemma {:induction false} TrafficOf(det: Detector, b: Baseline, ws: seq<Instant>, a: Anomaly)
    requires a in TrafficAnomalies(det, b, ws)
    ensures a.start in ws && a in TrafficAt(det, b, a.start)
  {
    var front := ws[..|ws| - 1];
    if a in TrafficAnomalies(det, b, front) {
      TrafficOf(det, b, front, a);
    }
  }

  /** A report on traffic: a medium spike or a high drop, each for its own side of the mean. */
  predicate SaysTraffic(a: Anomaly, det: Detector, b: Baseline) {
    && Describes(a, det, b) && a.related == []
    && (|| (a.kind == TrafficSpike && a.severity == Medium && Signed(a, b)
            && Above(b, a.start, det.errorSpikeThreshold))
        || (a.kind == TrafficDrop && a.severity == High && Unsigned(a, b)
            && Below(b, a.start, det.errorSpikeThreshold)))
  }

  lemma {:induction false} TrafficAtSays(det: Detector, b: Baseline, w: Instant)
    requires b.stdDev >= 0.0
    ensures forall a :: a in TrafficAt(det, b, w) ==> a.start == w && SaysTraffic(a, det, b)
    ensures (exists a :: a in TrafficAt(det, b, w) && a.kind == TrafficSpike) <==> Above(b, w, det.errorSpikeThreshold)
    ensures (exists a :: a in TrafficAt(det, b, w) && a.kind == TrafficDrop) <==> Below(b, w, det.errorSpikeThreshold)
  {
    if b.stdDev > 0.0 {
      DeviationTimes(b, w, det.errorSpikeThreshold);
      var d := DeviationIn(b, w);
      assert -d * b.stdDev == -(d * b.stdDev);
      if Spiking(det, b, w) {
        var a := Report(det, b, w, TrafficSpike, Medium, d, []);
        assert a in TrafficAt(det, b, w) && a.kind == TrafficSpike;
      }
      if Dropping(det, b, w) {
        var a := Report(det, b, w, TrafficDrop, High, Abs(d), []);
        assert a in TrafficAt(det, b, w) && a.kind == TrafficDrop;
      }
    }
  }

  lemma {:induction false} TrafficAscends(det: Detector, b: Baseline, ws: seq<Instant>)
    requires det.errorSpikeThreshold >= 0.0 && b.stdDev >= 0.0
    requires forall i, j :: 0 <= i < j < |ws| ==> ws[i] < ws[j]
    ensures var found := TrafficAnomalies(det, b, ws);
      forall i, j :: 0 <= i < j < |found| ==> found[i].start < found[j].start
  {
    if ws == [] {
    } else {
      var front, w := ws[..|ws| - 1], ws[|ws| - 1];
      var before := TrafficAnomalies(det, b, front);
      TrafficAscends(det, b, front);
      forall i | 0 <= i < |before| ensures before[i].start < w {
        TrafficOf(det, b, front, before[i]);
      }
      AtMostOne(det, b, w);
    }
  }

  lemma {:induction false} AtMostOne(det: Detector, b: Baseline, w: Instant)
    requires det.errorSpikeThreshold >= 0.0
    ensures |TrafficAt(det, b, w)| <= 1
    ensures forall a :: a in TrafficAt(det, b, w) ==> a.start == w
  {
    if b.stdDev > 0.0 {
      DeviationTimes(b, w, det.errorSpikeThreshold);
      NotBoth(b, w, det.errorSpikeThreshold);
    }
  }

  lemma {:induction false} TrafficKind(det: Detector, b: Baseline, ws: seq<Instant>, w: Instant, kind: Kind)
    requires b.stdDev >= 0.0
    ensures (exists a :: a in TrafficAnomalies(det, b, ws) && a.start == w && a.kind == kind)
      <==> w in ws && exists a :: a in TrafficAt(det, b, w) && a.kind == kind
  {
    TrafficAtSays(det, b, w);
    if a :| a in TrafficAnomalies(det, b, ws) && a.start == w && a.kind == kind {
      TrafficOf(det, b, ws, a);
    }
    if w in ws {
      if a :| a in TrafficAt(det, b, w) && a.kind == kind {
        TrafficHas(det, b, ws, w, a);
        assert a.start == w;
      }
    }
  }

  /**
   The traffic reports, exactly: a medium spike starts at a window if and only if its count lies more than the
   threshold above the mean, a high drop if and only if it lies more than the threshold below; each says what it
   should; and with a threshold of zero or more they ascend, one to a window.
   */
  lemma {:induction false} TrafficExactly(det: Detector, b: Baseline, ws: seq<Instant>, w: Instant)
    requires b.stdDev >= 0.0 && forall i, j :: 0 <= i < j < |ws| ==> ws[i] < ws[j]
    ensures var found, t := TrafficAnomalies(det, b, ws), det.errorSpikeThreshold;
      && ((exists a :: a in found && a.start == w && a.kind == TrafficSpike) <==> w in ws && Above(b, w, t))
      && ((exists a :: a in found && a.start == w && a.kind == TrafficDrop) <==> w in ws && Below(b, w, t))
      && (forall a :: a in found ==> a.start in ws && SaysTraffic(a, det, b))
      && (t >= 0.0 ==> forall i, j :: 0 <= i < j < |found| ==> found[i].start < found[j].start)
  {
    TrafficAtSays(det, b, w);
    TrafficKind(det, b, ws, w, TrafficSpike);
    TrafficKind(det, b, ws, w, TrafficDrop);
    forall a | a in TrafficAnomalies(det, b, ws)
      ensures a.start in ws && SaysTraffic(a, det, b)
    {
      TrafficOf(det, b, ws, a);
      TrafficAtSays(det, b, a.start);
    }
    if det.errorSpikeThreshold >= 0.0 {
      TrafficAscends(det, b, ws);
    }
  }

  // ---------------------------------------------------------------------------
  // Slow spells.
  // ---------------------------------------------------------------------------

  /** Three or more slow requests in a window, next to mean and deviation of all response times. */
  predicate SaysSlow(a: Anomaly, det: Detector, slow: seq<LogEntry>, b: Baseline) {
    && a.kind == SlowRequests && a.severity == Medium && Describes(a, det, b) && a.stats.current >= 3.0
    && a.related == EntriesInWindow(slow, a.start, det.timeWindowMinutes * 60_000_000_000)
    && (a.stats.deviation.None? <==> b.mean == 0.0)
    && (a.stats.deviation.Some? ==> a.stats.deviation.value * b.mean == det.slowRequestThreshold)
  }

  lemma {:induction false} SpellSays(det: Detector, slow: seq<LogEntry>, b: Baseline, w: Instant)
    requires CountAt(b.counts, w) >= 3
    ensures SlowSpell(det, slow, b, w).start == w && SaysSlow(SlowSpell(det, slow, b, w), det, slow, b)
  {
  }

  /** A window is reported as slow if and only if it counts at least three slow requests, and the report says so. */
  lemma {:induction false} SlowExactly(det: Detector, slow: seq<LogEntry>, b: Baseline, ws: seq<Instant>, w: Instant)
    ensures var found := SlowSpells(det, slow, b, ws);
      && ((exists a :: a in found && a.start == w) <==> w in ws && CountAt(b.counts, w) >= 3)
      && (forall a :: a in found ==> a.start in ws && SaysSlow(a, det, slow, b))
  {
    if ws == [] {
    } else {
      var front, last := ws[..|ws| - 1], ws[|ws| - 1];
      SlowExactly(det, slow, b, front, w);
      assert ws == front + [last];
      var found, before := SlowSpells(det, slow, b, ws), SlowSpells(det, slow, b, front);
      if CountAt(b.counts, last) >= 3 {
        SpellSays(det, slow, b, last);
        assert found == before + [SlowSpell(det, slow, b, last)];
        assert SlowSpell(det, slow, b, last) in found;
        assert forall a :: a in found <==> a in before || a == SlowSpell(det, slow, b, last);
      } else {
        assert found == before;
      }
    }
  }

  function TimesOver(logs: seq<NginxLogEntry>, limit: real): nat {
    if logs == [] then 0
    else TimesOver(logs[..|logs| - 1], limit) + if logs[|logs| - 1].responseTime > limit then 1 else 0
  }

  lemma {:induction false} TimesCounted(det: Detector, logs: seq<NginxLogEntry>)
    ensures |PositiveTimes(logs)| == TimesOver(logs, 0.0)
    ensures |Slow(det, logs)| == TimesOver(logs, det.slowRequestThreshold)
  {
    if logs == [] {
    } else {
      TimesCounted(det, logs[..|logs| - 1]);
    }
  }

  lemma {:induction false} TakenIn(det: Detector, logs: seq<NginxLogEntry>, k: nat)
    requires k < |logs|
    ensures logs[k].responseTime > 0.0 ==> logs[k].responseTime in PositiveTimes(logs)
    ensures logs[k].responseTime > det.slowRequestThreshold ==> logs[k].entry in Slow(det, logs)
  {
    if k < |logs| - 1 {
      TakenIn(det, logs[..|logs| - 1], k);
    }
  }

  lemma {:induction false} TimesArePositive(logs: seq<NginxLogEntry>, t: real)
    requires t in PositiveTimes(logs)
    ensures t > 0.0 && exists k :: 0 <= k < |logs| && logs[k].responseTime == t
  {
    var front := logs[..|logs| - 1];
    if t in PositiveTimes(front) {
      TimesArePositive(front, t);
      var k :| 0 <= k < |front| && front[k].responseTime == t;
      assert logs[k] == front[k];
    } else {
      assert logs[|logs| - 1].responseTime == t;
    }
  }

  lemma {:induction false} SlowAreOver(det: Detector, logs: seq<NginxLogEntry>, e: LogEntry)
    requires e in Slow(det, logs)
    ensures exists k :: 0 <= k < |logs| && logs[k].entry == e && logs[k].responseTime > det.slowRequestThreshold
  {
    var front := logs[..|logs| - 1];
    if e in Slow(det, front) {
      SlowAreOver(det, front, e);
      var k :| 0 <= k < |front| && front[k].entry == e && front[k].responseTime > det.slowRequestThreshold;
      assert logs[k] == front[k];
    } else {
      assert logs[|logs| - 1].entry == e && logs[|logs| - 1].responseTime > det.slowRequestThreshold;
    }
  }

  /** The response times that enter the mean are the positive ones; the slow requests are those over the threshold. */
  lemma {:induction false} TimesTaken(det: Detector, logs: seq<NginxLogEntry>, t: real, e: LogEntry)
    ensures |PositiveTimes(logs)| == TimesOver(logs, 0.0)
    ensures |Slow(det, logs)| == TimesOver(logs, det.slowRequestThreshold)
    ensures t in PositiveTimes(logs) <==> t > 0.0 && exists k :: 0 <= k < |logs| && logs[k].responseTime == t
    ensures e in Slow(det, logs) <==>
      exists k :: 0 <= k < |logs| && logs[k].entry == e && logs[k].responseTime > det.slowRequestThreshold
  {
    TimesCounted(det, logs);
    if t in PositiveTimes(logs) {
      TimesArePositive(logs, t);
    }
    if e in Slow(det, logs) {
      SlowAreOver(det, logs, e);
    }
    forall k | 0 <= k < |logs|
      ensures logs[k].responseTime > 0.0 ==> logs[k].responseTime in PositiveTimes(logs)
      ensures logs[k].responseTime > det.slowRequestThreshold ==> logs[k].entry in Slow(det, logs)
    {
      TakenIn(det, logs, k);
    }
  }

  // ---------------------------------------------------------------------------
  // The detections.
  // ---------------------------------------------------------------------------

  /**
   DetectTrafficAnomaly, as its contract gives its result: a window is reported as a spike, or a drop, if and only
   if there are enough entries and at least three windows, the window is counted, and its count lies beyond the
   threshold above, or below, the mean.
   */
  lemma {:induction false} TrafficReports(det: Detector, logs: seq<LogEntry>, sqrt: real -> real, w: Instant)
    requires IsSquareRoot(sqrt)
    ensures var counts := TrafficCounts(det, logs);
      var b, enough := BaselineOf(counts, sqrt), |logs| >= det.minSampleSize && |counts| >= 3;
      var found := if TooFew(det, logs, counts) then [] else TrafficAnomalies(det, b, SortedKeys(counts.Keys));
      && ((exists a :: a in found && a.start == w && a.kind == TrafficSpike)
          <==> enough && w in counts && Above(b, w, det.errorSpikeThreshold))
      && ((exists a :: a in found && a.start == w && a.kind == TrafficDrop)
          <==> enough && w in counts && Below(b, w, det.errorSpikeThreshold))
  {
    var counts := TrafficCounts(det, logs);
    StdDevIsStdDev(Values(SortedKeys(counts.Keys), counts), sqrt);
    SortedKeysSorted(counts.Keys);
    TrafficExactly(det, BaselineOf(counts, sqrt), SortedKeys(counts.Keys), w);
  }

  /** DetectErrorSpike likewise; an entry counts if its level is one of three. */
  lemma {:induction false} ErrorReports(det: Detector, logs: seq<LogEntry>, sqrt: real -> real, w: Instant)
    ensures var counts := ErrorCounts(det, logs);
      var b, enough := BaselineOf(counts, sqrt), |logs| >= det.minSampleSize && |counts| >= 3;
      var found := if TooFew(det, logs, counts) then [] else ErrorSpikes(det, logs, b, SortedKeys(counts.Keys));
      (exists a :: a in found && a.start == w) <==> enough && w in counts && Above(b, w, det.errorSpikeThreshold)
    ensures w in ErrorCounts(det, logs) <==> CountIn(logs, Grave, det.timeWindowMinutes * 60_000_000_000, w) > 0
    ensures w in ErrorCounts(det, logs) ==>
      ErrorCounts(det, logs)[w] == CountIn(logs, Grave, det.timeWindowMinutes * 60_000_000_000, w)
  {
    var counts := ErrorCounts(det, logs);
    SortedKeysSorted(counts.Keys);
    ErrorSpikesExactly(det, logs, BaselineOf(counts, sqrt), SortedKeys(counts.Keys), w);
    CountsCount(logs, (e: LogEntry) => IsError(e), det.Width(), w);
    SameFilterSameCount(logs, (e: LogEntry) => IsError(e), Grave, det.Width(), w);
  }

  predicate Grave(e: LogEntry) {
    e.level in ["ERROR", "FATAL", "CRITICAL"]
  }

  lemma {:induction false} SameFilterSameCount(logs: seq<LogEntry>, f: LogEntry -> bool, g: LogEntry -> bool,
          width: int, w: Instant)
    requires forall e :: f(e) == g(e)
    ensures CountIn(logs, f, width, w) == CountIn(logs, g, width, w)
  {
    if logs == [] {
    } else {
      SameFilterSameCount(logs[..|logs| - 1], f, g, width, w);
    }
  }
}
