/** Log entries grouped into fixed time windows. Instants are integers counted from the Go zero time. */
module TimeWindows {

  import opened Clock

  datatype LogEntry = LogEntry(timestamp: Instant, level: string, raw: string)

  /** time.Time.Truncate: round down to a multiple of the width; a width that is not positive changes nothing. */
  function Truncate(t: Instant, width: int): Instant {
    if width <= 0 then t else t - t % width
  }

  function CountAt(counts: map<Instant, nat>, w: Instant): nat {
    if w in counts then counts[w] else 0
  }

  function WindowCounts(logs: seq<LogEntry>, filter: LogEntry -> bool, width: int): map<Instant, nat> {
    if logs == [] then map[]
    else
      var last := logs[|logs| - 1];
      var counts := WindowCounts(logs[..|logs| - 1], filter, width);
      var w := Truncate(last.timestamp, width);
      if filter(last) then counts[w := CountAt(counts, w) + 1] else counts
  }

  method CountByTimeWindow(logs: seq<LogEntry>, filter: LogEntry -> bool, width: int)
    returns (counts: map<Instant, nat>)
    ensures counts == WindowCounts(logs, filter, width)
  {
    counts := map[];
    for i := 0 to |logs|
      invariant counts == WindowCounts(logs[..i], filter, width)
    {
      assert logs[..i + 1][..i] == logs[..i];
      if !filter(logs[i]) {
        continue;
      }
      var start := Truncate(logs[i].timestamp, width);
      counts := counts[start := CountAt(counts, start) + 1];
    }
    assert logs[..|logs|] == logs;
  }

  predicate Within(e: LogEntry, start: Instant, width: int) {
    start <= e.timestamp < start + width
  }

  function EntriesInWindow(logs: seq<LogEntry>, start: Instant, width: int): seq<LogEntry> {
    if logs == [] then []
    else
      var last := logs[|logs| - 1];
      EntriesInWindow(logs[..|logs| - 1], start, width) + if Within(last, start, width) then [last] else []
  }

  method GetEntriesInWindow(logs: seq<LogEntry>, start: Instant, width: int) returns (entries: seq<LogEntry>)
    ensures entries == EntriesInWindow(logs, start, width)
  {
    var end := start + width;
    entries := [];
    for i := 0 to |logs|
      invariant entries == EntriesInWindow(logs[..i], start, width)
    {
      assert logs[..i + 1][..i] == logs[..i];
      if start <= logs[i].timestamp && logs[i].timestamp < end {
        entries := entries + [logs[i]];
      }
    }
    assert logs[..|logs|] == logs;
  }

  // ---------------------------------------------------------------------------
  // What the counts mean.
  // ---------------------------------------------------------------------------

  /** How many entries pass the filter and fall into window w. */
  function CountIn(logs: seq<LogEntry>, filter: LogEntry -> bool, width: int, w: Instant): nat {
    if logs == [] then 0
    else
      var last := logs[|logs| - 1];
      CountIn(logs[..|logs| - 1], filter, width, w)
        + if filter(last) && Truncate(last.timestamp, width) == w then 1 else 0
  }

  function Passing(logs: seq<LogEntry>, filter: LogEntry -> bool): nat {
    if logs == [] then 0
    else Passing(logs[..|logs| - 1], filter) + if filter(logs[|logs| - 1]) then 1 else 0
  }

  lemma {:induction false} CountsCount(logs: seq<LogEntry>, filter: LogEntry -> bool, width: int, w: Instant)
    ensures CountAt(WindowCounts(logs, filter, width), w) == CountIn(logs, filter, width, w)
    ensures w in WindowCounts(logs, filter, width) <==> CountIn(logs, filter, width, w) > 0
  {
    if logs == [] {
    } else {
      CountsCount(logs[..|logs| - 1], filter, width, w);
    }
  }

  function OccurrencesWithin(logs: seq<LogEntry>, e: LogEntry, start: Instant, end: Instant): nat {
    if logs == [] then 0
    else
      var last := logs[|logs| - 1];
      OccurrencesWithin(logs[..|logs| - 1], e, start, end)
        + if last == e && start <= e.timestamp && e.timestamp < end then 1 else 0
  }

  /** The entries of a window: from its start up to but not including its end, each as often as it was logged. */
  lemma {:induction false} EntriesAreWithin(logs: seq<LogEntry>, start: Instant, width: int, e: LogEntry)
    ensures multiset(EntriesInWindow(logs, start, width))[e] == OccurrencesWithin(logs, e, start, start + width)
  {
    if logs == [] {
    } else {
      EntriesAreWithin(logs[..|logs| - 1], start, width, e);
    }
  }

  predicate Distinct(ws: seq<Instant>) {
    forall i, j :: 0 <= i < j < |ws| ==> ws[i] != ws[j]
  }

  function Total(ws: seq<Instant>, counts: map<Instant, nat>): nat {
    if ws == [] then 0 else Total(ws[..|ws| - 1], counts) + CountAt(counts, ws[|ws| - 1])
  }

  lemma {:induction false} TotalOfUpdate(ws: seq<Instant>, counts: map<Instant, nat>, w: Instant)
    requires Distinct(ws)
    ensures Total(ws, counts[w := CountAt(counts, w) + 1]) == Total(ws, counts) + if w in ws then 1 else 0
  {
    if ws == [] {
    } else {
      TotalOfUpdate(ws[..|ws| - 1], counts, w);
      assert ws == ws[..|ws| - 1] + [ws[|ws| - 1]];
    }
  }

  lemma {:induction false} TotalOfNothing(ws: seq<Instant>)
    ensures Total(ws, map[]) == 0
  {
    if ws == [] {
    } else {
      TotalOfNothing(ws[..|ws| - 1]);
    }
  }

  /** The counts of all windows, listed once each in any order, sum to the number of entries passing the filter. */
  lemma {:induction false} CountsPartition(logs: seq<LogEntry>, filter: LogEntry -> bool, width: int, ws: seq<Instant>)
    requires Distinct(ws) && forall w :: w in WindowCounts(logs, filter, width) ==> w in ws
    ensures Total(ws, WindowCounts(logs, filter, width)) == Passing(logs, filter)
  {
    if logs == [] {
      TotalOfNothing(ws);
    } else {
      var front := logs[..|logs| - 1];
      var w := Truncate(logs[|logs| - 1].timestamp, width);
      CountsPartition(front, filter, width, ws);
      TotalOfUpdate(ws, WindowCounts(front, filter, width), w);
    }
  }

  lemma {:induction false} AtLeastOnce(a: int, width: int)
    requires width > 0 && a >= 1
    ensures a * width >= width
  {
    assert (a - 1) * width >= 0;
  }

  lemma {:induction false} QuotientUnique(q: int, p: int, width: int, r: int)
    requires width > 0 && (q - p) * width == r && -width < r < width
    ensures q == p
  {
    Opposite(q - p, width);
    if q > p {
      AtLeastOnce(q - p, width);
    } else if q < p {
      AtLeastOnce(p - q, width);
    }
  }

  lemma {:induction false} Opposite(a: int, width: int)
    ensures (-a) * width == -(a * width)
  {
  }

  /** An aligned window holds exactly the instants that truncate to its start. */
  lemma {:induction false} WindowIsTruncation(t: Instant, w: Instant, width: int)
    requires width > 0 && w % width == 0
    ensures w <= t < w + width <==> Truncate(t, width) == w
  {
    var q, p := t / width, w / width;
    assert t == q * width + t % width && w == p * width;
    if w <= t < w + width {
      assert (q - p) * width == q * width - p * width;
      QuotientUnique(q, p, width, t - t % width - w);
    }
  }

  lemma {:induction false} TruncateAligns(t: Instant, width: int)
    requires width > 0
    ensures Truncate(t, width) % width == 0
  {
    var q := t / width;
    assert Truncate(t, width) == q * width;
    MultipleIsAligned(q, width);
  }

  lemma {:induction false} MultipleIsAligned(q: int, width: int)
    requires width > 0
    ensures (q * width) % width == 0
  {
    var x := q * width;
    assert x == (x / width) * width + x % width;
    assert (q - x / width) * width == x % width;
    QuotientUnique(q, x / width, width, x % width);
  }

  lemma {:induction false} CountedWindowIsAligned(logs: seq<LogEntry>, filter: LogEntry -> bool, width: int, w: Instant)
    requires width > 0 && w in WindowCounts(logs, filter, width)
    ensures w % width == 0
  {
    var last := logs[|logs| - 1];
    var front := logs[..|logs| - 1];
    TruncateAligns(last.timestamp, width);
    if w in WindowCounts(front, filter, width) {
      CountedWindowIsAligned(front, filter, width, w);
    }
  }

  /** Different windows share no instant. */
  lemma {:induction false} WindowsDisjoint(v: Instant, w: Instant, width: int, t: Instant)
    requires width > 0 && v % width == 0 && w % width == 0
    requires v <= t < v + width && w <= t < w + width
    ensures v == w
  {
    WindowIsTruncation(t, v, width);
    WindowIsTruncation(t, w, width);
  }

  /** A count never exceeds the number of entries in its window, and equals it when all of them pass the filter. */
  lemma {:induction false} CountAndEntries(logs: seq<LogEntry>, filter: LogEntry -> bool, width: int, w: Instant)
    requires width > 0 && w % width == 0
    ensures CountIn(logs, filter, width, w) <= |EntriesInWindow(logs, w, width)|
    ensures CountIn(logs, filter, width, w) == |EntriesInWindow(logs, w, width)| <==>
      forall e :: e in EntriesInWindow(logs, w, width) ==> filter(e)
  {
    if logs == [] {
    } else {
      var front, last := logs[..|logs| - 1], logs[|logs| - 1];
      CountAndEntries(front, filter, width, w);
      WindowIsTruncation(last.timestamp, w, width);
      var before := EntriesInWindow(front, w, width);
      if Within(last, w, width) {
        assert EntriesInWindow(logs, w, width) == before + [last];
        assert last in before + [last];
        assert forall e :: e in before ==> e in before + [last];
      } else {
        assert EntriesInWindow(logs, w, width) == before;
      }
    }
  }

  /** With a width that is not positive every window is empty, although it was counted. */
  lemma {:induction false} NoWidthNoEntries(logs: seq<LogEntry>, w: Instant, width: int)
    requires width <= 0
    ensures EntriesInWindow(logs, w, width) == []
  {
    if logs == [] {
    } else {
      NoWidthNoEntries(logs[..|logs| - 1], w, width);
    }
  }

  /**
   Counting every entry, a window's count is the number of entries found in it, exactly when the
   configured width is positive.
   */
  lemma {:induction false} CountMatchesEntriesIffWide(logs: seq<LogEntry>, width: int, w: Instant)
    requires w in WindowCounts(logs, _ => true, width)
    ensures WindowCounts(logs, _ => true, width)[w] == |EntriesInWindow(logs, w, width)| <==> width > 0
  {
    CountsCount(logs, _ => true, width, w);
    if width > 0 {
      CountedWindowIsAligned(logs, _ => true, width, w);
      CountAndEntries(logs, _ => true, width, w);
    } else {
      NoWidthNoEntries(logs, w, width);
    }
  }

  // ---------------------------------------------------------------------------
  // The windows in order.
  // ---------------------------------------------------------------------------

  lemma {:induction false} Member<T>(keys: set<T>) returns (m: T)
    requires keys != {}
    ensures m in keys
  {
    m :| m in keys;
  }

  lemma {:induction false} MinExists(keys: set<Instant>) returns (m: Instant)
    requires keys != {}
    ensures m in keys
    ensures forall k :: k in keys ==> m <= k
    decreases keys
  {
    m := Member(keys);
    if keys != {m} {
      var n := MinExists(keys - {m});
      assert forall k :: k in keys ==> k == m || k in keys - {m};
      m := if n < m then n else m;
    } else {
      assert forall k :: k in keys ==> k == m;
    }
  }

  ghost function Min(keys: set<Instant>): (m: Instant)
    requires keys != {}
    ensures m in keys && forall k :: k in keys ==> m <= k
  {
    assert exists m :: m in keys && forall k :: k in keys ==> m <= k by {
      var m := MinExists(keys);
    }
    var m :| m in keys && forall k :: k in keys ==> m <= k;
    m
  }

  ghost function SortedKeys(keys: set<Instant>): seq<Instant>
    decreases keys
  {
    if keys == {} then [] else [Min(keys)] + SortedKeys(keys - {Min(keys)})
  }

  lemma {:induction false} SortedKeysSorted(keys: set<Instant>)
    ensures forall w :: w in SortedKeys(keys) <==> w in keys
    ensures |SortedKeys(keys)| == |keys|
    ensures forall i, j :: 0 <= i < j < |SortedKeys(keys)| ==> SortedKeys(keys)[i] < SortedKeys(keys)[j]
    decreases keys
  {
    if keys == {} {
    } else {
      var m := Min(keys);
      var rest := SortedKeys(keys - {m});
      SortedKeysSorted(keys - {m});
      assert SortedKeys(keys) == [m] + rest;
      forall j | 0 < j < |[m] + rest|
        ensures m < ([m] + rest)[j]
      {
        assert rest[j - 1] in rest;
      }
    }
  }

  method GetSortedWindows(counts: map<Instant, nat>) returns (windows: seq<Instant>)
    ensures windows == SortedKeys(counts.Keys)
  {
    windows := [];
    var rest := counts.Keys;
    while rest != {}
      invariant rest <= counts.Keys
      invariant windows + SortedKeys(rest) == SortedKeys(counts.Keys)
      decreases rest
    {
      var m :| m in rest;
      var others := rest - {m};
      while others != {}
        invariant m in rest && others <= rest
        invariant forall k :: k in rest && k !in others ==> m <= k
        decreases others
      {
        var k :| k in others;
        if k < m {
          m := k;
        }
        others := others - {k};
      }
      assert m == Min(rest);
      assert windows + ([m] + SortedKeys(rest - {m})) == windows + [m] + SortedKeys(rest - {m});
      windows := windows + [m];
      rest := rest - {m};
    }
    assert windows + [] == windows;
  }
}
