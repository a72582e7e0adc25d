/**
 The record of readings over time: recording, `Fold` (internal/core/samples.go) and
 `PruneSamples` (internal/core/retention.go) against the two watermarks.

 `history` is every reading that arrived at or above the minute watermark, pruned or not. The
 invariant ties every stored row to it, and each operation says exactly what it writes, so the
 facts hold after any run. A later reading is stored too, but no fold ever reads it.
 */
module Recorder {
  import opened Sorting
  import opened Intervals
  import opened Model
  import opened Series
  import opened Decimal
  import opened Folding
  import opened Evidence
  import opened EvidenceMeaning
  import opened FoldingLoops

  const PRUNE_LIMIT := 5000

  predicate ByTime(a: Reading, b: Reading) { a.startedAt <= b.startedAt }

  predicate ByBucketStart(a: Bucket, b: Bucket) { a.start <= b.start }

  // ----- the queries -----

  function FilterReadings(rs: seq<Reading>, keep: Reading -> bool): seq<Reading> {
    if rs == [] then []
    else
      var front := FilterReadings(rs[..|rs| - 1], keep);
      if keep(rs[|rs| - 1]) then front + [rs[|rs| - 1]] else front
  }

  lemma {:induction false} FilterMembers(rs: seq<Reading>, keep: Reading -> bool)
    ensures forall r :: r in FilterReadings(rs, keep) <==> r in rs && keep(r)
    ensures Distinct(rs) ==> Distinct(FilterReadings(rs, keep))
  {
    hide Distinct;
    if rs == [] {
    } else {
      var front, last := rs[..|rs| - 1], rs[|rs| - 1];
      FilterMembers(front, keep);
      assert rs == front + [last];
      DistinctNext(front, last, FilterReadings(front, keep));
    }
  }

  lemma DistinctNext(rs: seq<Reading>, last: Reading, kept: seq<Reading>)
    requires (Distinct(rs) ==> Distinct(kept)) && forall r | r in kept :: r in rs
    ensures Distinct(rs + [last]) ==> Distinct(kept) && Distinct(kept + [last])
  {
    if Distinct(rs + [last]) {
      var all := rs + [last];
      assert forall i | 0 <= i < |rs| :: all[i] == rs[i];
      forall i | 0 <= i < |kept| ensures kept[i].id != last.id {
        assert kept[i] in kept;
        var j :| 0 <= j < |rs| && rs[j] == kept[i];
        assert all[j].id != all[|rs|].id;
      }
    }
  }

  /** The readings of the service in [lo, hi), oldest first; manual runs are left out. */
  function Unfolded(samples: seq<Reading>, lo: int, hi: int): seq<Reading> {
    Sort(FilterReadings(samples, (r: Reading) => !r.manual && lo <= r.startedAt < hi), ByTime)
  }

  /** The committed minute rows in [lo, hi), oldest first. */
  function MinuteRows(rows: seq<Bucket>, lo: int, hi: int): seq<Bucket> {
    Sort(Query(rows, WIDTH_MINUTE, lo, hi), ByBucketStart)
  }

  /** The oldest start on the grid, when the table holds anything. */
  function Oldest(samples: seq<Reading>): int
    requires samples != []
  {
    var last := samples[|samples| - 1].startedAt;
    if |samples| == 1 then last else MinOf(Oldest(samples[..|samples| - 1]), last)
  }

  /** The oldest committed minute row, when there is one. */
  function OldestRow(rows: seq<Bucket>): Option<int> {
    if rows == [] then None
    else
      var b := rows[|rows| - 1];
      var before := OldestRow(rows[..|rows| - 1]);
      if !IsMinute(b) then before
      else if before.None? then Some(b.start)
      else Some(MinOf(before.value, b.start))
  }

  /** Where the next minute fold starts: the watermark, or the first reading when there is none. */
  function MinuteFrom(samples: seq<Reading>, mark: int): Option<int> {
    if mark != 0 then Some(mark)
    else if samples == [] then None
    else Some(MinuteOfTime(Oldest(samples)))
  }

  function HourFrom(rows: seq<Bucket>, mark: int): Option<int> {
    if mark != 0 then Some(mark)
    else if OldestRow(rows).None? then None
    else Some(HourOf(OldestRow(rows).value))
  }

  predicate Due(from: Option<int>, end: int) { from.Some? && from.value < end }

  /** The minute rows one fold writes. */
  ghost predicate MinuteWritten(samples: seq<Reading>, mark: int, end: int, b: Bucket) {
    var from := MinuteFrom(samples, mark);
    && Due(from, end)
    && exists k :: Group(Unfolded(samples, from.value, end), k) != []
                   && b == MinuteRow(Unfolded(samples, from.value, end), k)
  }

  /** The hour rows one fold writes: folds of the minute rows committed before the call. */
  ghost predicate HourWritten(rows: seq<Bucket>, mark: int, end: int, b: Bucket)
    requires forall r | r in rows :: Counted(r)
  {
    var from := HourFrom(rows, mark);
    && Due(from, end)
    && (MinuteRowsMembers(rows, from.value, end);
        exists k :: HourGroup(MinuteRows(rows, from.value, end), k) != []
                    && b == HourRow(MinuteRows(rows, from.value, end), k))
  }

  lemma MinuteRowsMembers(rows: seq<Bucket>, lo: int, hi: int)
    ensures forall b :: b in MinuteRows(rows, lo, hi) <==> b in rows && IsMinute(b) && lo <= b.start < hi
    ensures UniqueKeys(rows) ==> UniqueKeys(MinuteRows(rows, lo, hi))
  {
    QueryMembers(rows, WIDTH_MINUTE, lo, hi);
    SameMembers(Query(rows, WIDTH_MINUTE, lo, hi), MinuteRows(rows, lo, hi));
    if UniqueKeys(rows) {
      UniqueSorted(Query(rows, WIDTH_MINUTE, lo, hi), MinuteRows(rows, lo, hi));
    }
  }

  lemma UnfoldedMembers(samples: seq<Reading>, lo: int, hi: int)
    ensures forall r :: r in Unfolded(samples, lo, hi) <==> r in samples && !r.manual && lo <= r.startedAt < hi
    ensures Distinct(samples) ==> Distinct(Unfolded(samples, lo, hi))
  {
    var keep := (r: Reading) => !r.manual && lo <= r.startedAt < hi;
    var kept := FilterReadings(samples, keep);
    FilterMembers(samples, keep);
    SameMembers(kept, Unfolded(samples, lo, hi));
    if Distinct(samples) { DistinctSorted(kept, Unfolded(samples, lo, hi)); }
  }

  lemma DistinctSorted(a: seq<Reading>, out: seq<Reading>)
    requires Distinct(a) && multiset(out) == multiset(a)
    ensures Distinct(out)
  {
    SameMembers(a, out);
    NoRepeatsKept(a, out);
    forall i, j | 0 <= i < j < |out| ensures out[i].id != out[j].id {
      assert out[i] in a && out[j] in a;
      var k :| 0 <= k < |a| && a[k] == out[i];
      var l :| 0 <= l < |a| && a[l] == out[j];
    }
  }

  lemma {:induction false} OldestIsLeast(samples: seq<Reading>)
    requires samples != []
    ensures forall r | r in samples :: Oldest(samples) <= r.startedAt
    ensures exists r :: r in samples && r.startedAt == Oldest(samples)
  {
    var n := |samples| - 1;
    assert samples == samples[..n] + [samples[n]];
    assert samples[n] in samples;
    if n > 0 { OldestIsLeast(samples[..n]); }
  }

  lemma {:induction false} OldestRowIsLeast(rows: seq<Bucket>)
    ensures OldestRow(rows).None? <==> forall b | b in rows :: !IsMinute(b)
    ensures OldestRow(rows).Some? ==> forall b | b in rows && IsMinute(b) :: OldestRow(rows).value <= b.start
    ensures OldestRow(rows).Some? ==> exists b :: b in rows && IsMinute(b) && b.start == OldestRow(rows).value
  {
    if rows != [] {
      var n := |rows| - 1;
      assert rows == rows[..n] + [rows[n]];
      assert rows[n] in rows;
      OldestRowIsLeast(rows[..n]);
    }
  }

  // ----- the invariant -----

  /** The readings of the service that belong to one minute of one monitor, of all that arrived in time. */
  ghost function KeySet(history: seq<Reading>, k: Key): set<Reading> {
    set r | r in history && !r.manual && MinuteKey(r) == k
  }

  ghost function OfVerdict(rs: set<Reading>, v: Verdict): set<Reading> { set r | r in rs && r.verdict == v }

  /** The row counts every reading of the set once, under its verdict, and no other. */
  ghost predicate Summarises(b: Bucket, rs: set<Reading>) {
    && rs != {}
    && b.up == |OfVerdict(rs, Up)| && b.degraded == |OfVerdict(rs, Degraded)|
    && b.down == |OfVerdict(rs, Down)| && b.errors == |OfVerdict(rs, Error)|
    && b.verdict == VerdictOf(WIDTH_MINUTE, Tally(|OfVerdict(rs, Up)|, |OfVerdict(rs, Degraded)|,
                                                  |OfVerdict(rs, Down)|, |OfVerdict(rs, Error)|, 0, 0, 0))
  }

  ghost predicate MinutesKept(rows: seq<Bucket>, mark: int, history: seq<Reading>) {
    && (forall b | b in rows && IsMinute(b) ::
          0 <= b.start && b.start + WIDTH_MINUTE <= mark && Summarises(b, KeySet(history, (b.monitor, b.start))))
    && (forall r | r in history && !r.manual && r.startedAt < mark :: HasMinuteRow(rows, MinuteKey(r)))
  }

  ghost predicate HasMinuteRow(rows: seq<Bucket>, k: Key) {
    exists b :: b in rows && IsMinute(b) && b.monitor == k.0 && b.start == k.1
  }

  /** The hour row sums the minute rows of its hour that started before `mark`, and no other. */
  ghost predicate SumsVisible(rows: seq<Bucket>, hour: Bucket, mark: int) {
    exists ms: seq<Bucket> {:trigger FoldOf(hour, ms)} ::
      && FoldOf(hour, ms) && UniqueKeys(ms)
      && forall b :: b in ms <==> b in rows && IsMinute(b) && HourKey(b) == (hour.monitor, hour.start) && b.start < mark
  }

  /** When each hour row was written: the minute watermark its fold saw. */
  ghost function Stamped(foldedAt: map<Key, int>, written: seq<Bucket>, mark: int): map<Key, int> {
    if written == [] then foldedAt
    else
      var stamped, h := Stamped(foldedAt, written[..|written| - 1], mark), written[|written| - 1];
      if IsHour(h) then stamped[(h.monitor, h.start) := mark] else stamped
  }

  lemma {:induction false} StampedKeys(foldedAt: map<Key, int>, written: seq<Bucket>, mark: int, k: Key)
    ensures var stamped := Stamped(foldedAt, written, mark);
            if exists h :: h in written && IsHour(h) && (h.monitor, h.start) == k
            then k in stamped && stamped[k] == mark
            else (k in stamped <==> k in foldedAt) && (k in foldedAt ==> stamped[k] == foldedAt[k])
  {
    if written == [] {
    } else {
      var n := |written| - 1;
      StampedKeys(foldedAt, written[..n], mark, k);
      assert written == written[..n] + [written[n]];
      assert written[n] in written;
    }
  }

  ghost predicate HoursKept(rows: seq<Bucket>, minuteMark: int, hourMark: int, foldedAt: map<Key, int>) {
    forall h | h in rows && IsHour(h) ::
      && h.start + WIDTH_HOUR <= hourMark
      && (h.monitor, h.start) in foldedAt
      && foldedAt[(h.monitor, h.start)] <= minuteMark
      && SumsVisible(rows, h, foldedAt[(h.monitor, h.start)])
  }

  ghost predicate ReadingsKept(samples: seq<Reading>, mark: int, history: seq<Reading>) {
    && Distinct(history) && Distinct(samples)
    && (forall r | r in history :: r.startedAt >= 0)
    && (forall r | r in samples && r.startedAt >= mark :: r in history)
    && (forall r | r in samples :: r.startedAt >= 0)
    && (forall r | r in history && r.startedAt >= mark :: r in samples)
  }

  ghost predicate Marks(minuteMark: int, hourMark: int) {
    0 <= hourMark <= minuteMark && minuteMark % WIDTH_MINUTE == 0 && hourMark % WIDTH_HOUR == 0
  }

  ghost predicate RowsKept(rows: seq<Bucket>) {
    Stored(rows) && forall b | b in rows :: IsMinute(b) || IsHour(b)
  }

  ghost predicate Inv(samples: seq<Reading>, rows: seq<Bucket>, minuteMark: int, hourMark: int,
                      history: seq<Reading>, foldedAt: map<Key, int>) {
    && ReadingsKept(samples, minuteMark, history)
    && Marks(minuteMark, hourMark)
    && RowsKept(rows)
    && MinutesKept(rows, minuteMark, history)
    && HoursKept(rows, minuteMark, hourMark, foldedAt)
  }

  // ----- one fold keeps the invariant -----

  lemma {:induction false} TallyIsSummary(g: seq<Reading>)
    requires Distinct(g)
    ensures var t, s := TallyReadings(g), set r | r in g;
            && t.up == |OfVerdict(s, Up)| && t.degraded == |OfVerdict(s, Degraded)|
            && t.down == |OfVerdict(s, Down)| && t.errors == |OfVerdict(s, Error)|
  {
    hide OfVerdict, Distinct;
    if g == [] {
      NoneOfVerdict(set r | r in g);
    } else {
      Members(g);
      var prefix := g[..|g| - 1];
      var front := set r | r in prefix;
      TallyIsSummary(prefix);
      OneMoreReading(front, g[|g| - 1]);
    }
  }

  lemma NoneOfVerdict(rs: set<Reading>)
    requires rs == {}
    ensures |OfVerdict(rs, Up)| == 0 && |OfVerdict(rs, Degraded)| == 0
    ensures |OfVerdict(rs, Down)| == 0 && |OfVerdict(rs, Error)| == 0
  {}

  lemma Members(g: seq<Reading>)
    requires g != [] && Distinct(g)
    ensures var prefix, last := g[..|g| - 1], g[|g| - 1];
            && (set r | r in g) == (set r | r in prefix) + {last}
            && last !in prefix && Distinct(prefix)
  {
    assert g == g[..|g| - 1] + [g[|g| - 1]];
  }

  lemma OneMoreReading(front: set<Reading>, r: Reading)
    requires r !in front
    ensures forall v :: |OfVerdict(front + {r}, v)| == |OfVerdict(front, v)| + if r.verdict == v then 1 else 0
  {
    forall v ensures |OfVerdict(front + {r}, v)| == |OfVerdict(front, v)| + if r.verdict == v then 1 else 0 {
      assert OfVerdict(front + {r}, v) == OfVerdict(front, v) + if r.verdict == v then {r} else {};
    }
  }

  /** The bounds of a due minute fold. */
  lemma MinuteBounds(samples: seq<Reading>, mark: int, history: seq<Reading>, end: int)
    requires ReadingsKept(samples, mark, history) && mark >= 0 && mark % WIDTH_MINUTE == 0
    requires Due(MinuteFrom(samples, mark), end)
    ensures var lo := MinuteFrom(samples, mark).value;
            && mark <= lo && lo % WIDTH_MINUTE == 0
            && forall r | r in history && r.startedAt >= mark :: r in samples && lo <= r.startedAt
  {
    if mark == 0 {
      OldestIsLeast(samples);
      var first :| first in samples && first.startedAt == Oldest(samples);
      assert first.startedAt >= 0;
    }
  }

  lemma OnMinuteGrid(t: int, lo: int, hi: int)
    requires 0 <= lo <= t < hi && lo % WIDTH_MINUTE == 0 && hi % WIDTH_MINUTE == 0
    ensures lo <= MinuteOfTime(t) <= t < MinuteOfTime(t) + WIDTH_MINUTE <= hi
    ensures MinuteOfTime(t) % WIDTH_MINUTE == 0
  {}

  lemma SameMinute(t: int, u: int)
    requires t >= 0 && u >= 0 && MinuteOfTime(t) == MinuteOfTime(u)
    ensures MinuteOfTime(t) <= u < MinuteOfTime(t) + WIDTH_MINUTE
  {}

  /** A minute row written now summarises everything ever recorded for its minute. */
  lemma NewMinute(samples: seq<Reading>, mark: int, history: seq<Reading>, end: int, b: Bucket)
    requires ReadingsKept(samples, mark, history) && mark >= 0 && mark % WIDTH_MINUTE == 0 && end % WIDTH_MINUTE == 0
    requires MinuteWritten(samples, mark, end, b)
    ensures IsMinute(b) && b.start % WIDTH_MINUTE == 0 && Counted(b)
    ensures mark <= b.start && b.start + WIDTH_MINUTE <= end
    ensures Summarises(b, KeySet(history, (b.monitor, b.start)))
  {
    hide TallyReadings, FilterReadings, Oldest, Distinct, Group;
    MinuteBounds(samples, mark, history, end);
    var lo := MinuteFrom(samples, mark).value;
    var pending := Unfolded(samples, lo, end);
    UnfoldedMembers(samples, lo, end);
    var k :| Group(pending, k) != [] && b == MinuteRow(pending, k);
    var g := Group(pending, k);
    GroupMembers(pending, k);
    assert g[0] in pending;
    OnMinuteGrid(g[0].startedAt, lo, end);
    TallyIsSummary(g);
    var rs := set r | r in g;
    forall r | r in KeySet(history, k) ensures r in rs {
      SameMinute(g[0].startedAt, r.startedAt);
    }
    forall r | r in rs ensures r in KeySet(history, k) {
      assert r in pending;
    }
    assert rs == KeySet(history, k);
    assert g[0] in rs;
    VerdictIgnoresMaintenance(TallyReadings(g));
    TallyCounts(g);
  }

  lemma VerdictIgnoresMaintenance(t: Tally)
    ensures VerdictOf(WIDTH_MINUTE, t) == VerdictOf(WIDTH_MINUTE, Tally(t.up, t.degraded, t.down, t.errors, 0, 0, 0))
  {}

  /** Every reading below the new watermark has its minute row. */
  lemma MinutesComplete(samples: seq<Reading>, mark: int, history: seq<Reading>, end: int, r: Reading)
    requires ReadingsKept(samples, mark, history) && mark >= 0 && mark % WIDTH_MINUTE == 0
    requires Due(MinuteFrom(samples, mark), end)
    requires r in history && !r.manual && mark <= r.startedAt < end
    ensures exists b :: MinuteWritten(samples, mark, end, b) && (b.monitor, b.start) == MinuteKey(r)
  {
    hide FilterReadings, Oldest, Distinct, Group, TallyReadings;
    MinuteBounds(samples, mark, history, end);
    var lo := MinuteFrom(samples, mark).value;
    var pending := Unfolded(samples, lo, end);
    UnfoldedMembers(samples, lo, end);
    GroupMembers(pending, MinuteKey(r));
    assert r in Group(pending, MinuteKey(r));
    var b := MinuteRow(pending, MinuteKey(r));
    assert MinuteWritten(samples, mark, end, b);
  }

  lemma HourBounds(rows: seq<Bucket>, minuteMark: int, hourMark: int, history: seq<Reading>, end: int)
    requires RowsKept(rows) && Marks(minuteMark, hourMark) && MinutesKept(rows, minuteMark, history)
    requires Due(HourFrom(rows, hourMark), end)
    ensures var lo := HourFrom(rows, hourMark).value; hourMark <= lo && lo % WIDTH_HOUR == 0
    ensures hourMark == 0 ==> forall b | b in rows && IsMinute(b) :: HourFrom(rows, hourMark).value <= b.start
    ensures minuteMark > 0
  {
    hide Summarises, UniqueKeys;
    OldestRowIsLeast(rows);
    if hourMark == 0 {
      var b :| b in rows && IsMinute(b) && b.start == OldestRow(rows).value;
      HourGrid(b.start);
      HourGrows(b.start, b.start);
    }
  }

  lemma OnHourGrid(t: int, lo: int, hi: int)
    requires 0 <= lo <= t < hi && lo % WIDTH_HOUR == 0 && hi % WIDTH_HOUR == 0
    ensures lo <= HourOf(t) <= t < HourOf(t) + WIDTH_HOUR <= hi
    ensures HourOf(t) % WIDTH_HOUR == 0
  {}

  lemma SameHour(t: int, u: int)
    requires t >= 0 && u >= 0 && HourOf(t) == HourOf(u)
    ensures HourOf(t) <= u < HourOf(t) + WIDTH_HOUR
  {}

  /** An hour row written now sums exactly the minute rows committed before the call. */
  lemma NewHour(rows: seq<Bucket>, minuteMark: int, hourMark: int, history: seq<Reading>, end: int, h: Bucket)
    requires RowsKept(rows) && Marks(minuteMark, hourMark) && MinutesKept(rows, minuteMark, history)
    requires end % WIDTH_HOUR == 0
    requires HourWritten(rows, hourMark, end, h)
    ensures IsHour(h) && h.start % WIDTH_HOUR == 0 && Counted(h)
    ensures hourMark <= h.start && h.start + WIDTH_HOUR <= end
    ensures SumsVisible(rows, h, minuteMark)
  {
    hide Summarises, UniqueKeys, TallyBuckets, HourGroup, Query, OldestRow;
    HourBounds(rows, minuteMark, hourMark, history, end);
    var lo := HourFrom(rows, hourMark).value;
    var bs := MinuteRows(rows, lo, end);
    MinuteRowsMembers(rows, lo, end);
    var k :| HourGroup(bs, k) != [] && h == HourRow(bs, k);
    var ms := HourGroup(bs, k);
    HourGroupMembers(bs, k);
    assert ms[0] in bs;
    OnHourGrid(ms[0].start, lo, end);
    assert FoldOf(h, ms);
    forall b | b in rows && IsMinute(b) && HourKey(b) == k ensures b in ms {
      SameHour(ms[0].start, b.start);
    }
  }

  /** The rows after a fold: what was there, and what the fold writes. */
  ghost predicate RowsAfter(rows: seq<Bucket>, rows': seq<Bucket>, samples: seq<Reading>,
                            minuteMark: int, minuteEnd: int, hourMark: int, hourEnd: int)
    requires forall r | r in rows :: Counted(r)
  {
    && rows <= rows'
    && UniqueKeys(rows'[|rows|..])
    && forall b :: b in rows'[|rows|..] <==>
         MinuteWritten(samples, minuteMark, minuteEnd, b) || HourWritten(rows, hourMark, hourEnd, b)
  }

  lemma FoldKeepsRows(samples: seq<Reading>, rows: seq<Bucket>, minuteMark: int, hourMark: int,
                      history: seq<Reading>, foldedAt: map<Key, int>, minuteEnd: int, hourEnd: int, rows': seq<Bucket>)
    requires Inv(samples, rows, minuteMark, hourMark, history, foldedAt)
    requires minuteEnd % WIDTH_MINUTE == 0 && hourEnd % WIDTH_HOUR == 0
    requires RowsAfter(rows, rows', samples, minuteMark, minuteEnd, hourMark, hourEnd)
    ensures RowsKept(rows')
    ensures forall b | b in rows' && IsMinute(b) && b !in rows :: minuteMark <= b.start
  {
    hide MinuteWritten, HourWritten, Summarises, UniqueKeys, SumsVisible, KeySet, Distinct;
    var more := rows'[|rows|..];
    assert rows' == rows + more;
    forall b | b in more
      ensures MinuteWritten(samples, minuteMark, minuteEnd, b) ==> IsMinute(b) && b.start % WIDTH_MINUTE == 0 && Counted(b) && minuteMark <= b.start
      ensures !MinuteWritten(samples, minuteMark, minuteEnd, b) ==> IsHour(b) && b.start % WIDTH_HOUR == 0 && Counted(b) && hourMark <= b.start
    {
      if MinuteWritten(samples, minuteMark, minuteEnd, b) {
        NewMinute(samples, minuteMark, history, minuteEnd, b);
      } else {
        NewHour(rows, minuteMark, hourMark, history, hourEnd, b);
      }
    }
    UniqueConcat(rows, more);
  }

  /** One fold keeps the invariant. */
  lemma FoldKeeps(samples: seq<Reading>, rows: seq<Bucket>, minuteMark: int, hourMark: int,
                  history: seq<Reading>, foldedAt: map<Key, int>, before: int,
                  rows': seq<Bucket>, minuteMark': int, hourMark': int, foldedAt': map<Key, int>)
    requires Inv(samples, rows, minuteMark, hourMark, history, foldedAt)
    requires RowsAfter(rows, rows', samples, minuteMark, MinuteOfTime(before), hourMark, HourOf(before))
    requires minuteMark' == if Due(MinuteFrom(samples, minuteMark), MinuteOfTime(before)) then MinuteOfTime(before) else minuteMark
    requires hourMark' == if Due(HourFrom(rows, hourMark), HourOf(before)) then HourOf(before) else hourMark
    requires foldedAt' == Stamped(foldedAt, rows'[|rows|..], minuteMark)
    ensures Inv(samples, rows', minuteMark', hourMark', history, foldedAt')
    ensures minuteMark <= minuteMark' && hourMark <= hourMark'
  {
    hide Summarises, UniqueKeys, SumsVisible, Distinct, KeySet, MinuteWritten, HourWritten, Stored, OldestRow, Oldest;
    FoldMarks(samples, rows, minuteMark, hourMark, history, foldedAt, before);
    FoldKeepsRows(samples, rows, minuteMark, hourMark, history, foldedAt, MinuteOfTime(before), HourOf(before), rows');
    FoldKeepsMinutes(samples, rows, minuteMark, hourMark, history, foldedAt, before, rows');
    FoldKeepsHours(samples, rows, minuteMark, hourMark, history, foldedAt, before, rows', minuteMark', hourMark', foldedAt');
  }

  lemma FoldMarks(samples: seq<Reading>, rows: seq<Bucket>, minuteMark: int, hourMark: int,
                  history: seq<Reading>, foldedAt: map<Key, int>, before: int)
    requires Inv(samples, rows, minuteMark, hourMark, history, foldedAt)
    ensures var minuteMark' := if Due(MinuteFrom(samples, minuteMark), MinuteOfTime(before)) then MinuteOfTime(before) else minuteMark;
            var hourMark' := if Due(HourFrom(rows, hourMark), HourOf(before)) then HourOf(before) else hourMark;
            && minuteMark <= minuteMark' && hourMark <= hourMark' && Marks(minuteMark', hourMark')
    ensures MinuteOfTime(before) % WIDTH_MINUTE == 0 && HourOf(before) % WIDTH_HOUR == 0
    ensures Due(HourFrom(rows, hourMark), HourOf(before)) ==> minuteMark > 0
  {
    hide Summarises, UniqueKeys, SumsVisible, Distinct, KeySet, Stored, OldestRow, Oldest, MinuteOfTime, HourOf, HourFrom;
    HourGrid(before);
    MinuteGrid(before);
    if Due(MinuteFrom(samples, minuteMark), MinuteOfTime(before)) {
      MinuteBounds(samples, minuteMark, history, MinuteOfTime(before));
    }
    if Due(HourFrom(rows, hourMark), HourOf(before)) {
      HourBounds(rows, minuteMark, hourMark, history, HourOf(before));
      Ends(before);
    }
  }

  lemma MinuteGrid(t: int)
    ensures MinuteOfTime(t) % WIDTH_MINUTE == 0
  {
    assert MinuteOfTime(t) == WIDTH_MINUTE * Quo(t, WIDTH_MINUTE);
  }

  lemma Ends(before: int)
    requires HourOf(before) > 0
    ensures HourOf(before) <= MinuteOfTime(before)
  {}

  lemma FoldKeepsMinutes(samples: seq<Reading>, rows: seq<Bucket>, minuteMark: int, hourMark: int,
                         history: seq<Reading>, foldedAt: map<Key, int>, before: int, rows': seq<Bucket>)
    requires Inv(samples, rows, minuteMark, hourMark, history, foldedAt)
    requires RowsAfter(rows, rows', samples, minuteMark, MinuteOfTime(before), hourMark, HourOf(before))
    ensures var mark := if Due(MinuteFrom(samples, minuteMark), MinuteOfTime(before)) then MinuteOfTime(before) else minuteMark;
            MinutesKept(rows', mark, history)
  {
    hide Summarises, UniqueKeys, SumsVisible, Distinct, KeySet, Stored, OldestRow, Oldest, MinuteWritten, HourWritten, RowsKept;
    var end := MinuteOfTime(before);
    FoldMarks(samples, rows, minuteMark, hourMark, history, foldedAt, before);
    var mark := if Due(MinuteFrom(samples, minuteMark), end) then end else minuteMark;
    var more := rows'[|rows|..];
    assert rows' == rows + more;
    forall b | b in rows' && IsMinute(b)
      ensures 0 <= b.start && b.start + WIDTH_MINUTE <= mark && Summarises(b, KeySet(history, (b.monitor, b.start)))
    {
      if b !in rows {
        WrittenMinute(samples, rows, minuteMark, hourMark, history, end, HourOf(before), b);
      }
    }
    forall r | r in history && !r.manual && r.startedAt < mark ensures HasMinuteRow(rows', MinuteKey(r)) {
      if r.startedAt < minuteMark {
        var b :| b in rows && IsMinute(b) && b.monitor == MinuteKey(r).0 && b.start == MinuteKey(r).1;
        assert b in rows';
      } else {
        MinutesComplete(samples, minuteMark, history, end, r);
        var b :| MinuteWritten(samples, minuteMark, end, b) && (b.monitor, b.start) == MinuteKey(r);
        NewMinute(samples, minuteMark, history, end, b);
        assert b in more;
      }
    }
  }

  lemma WrittenMinute(samples: seq<Reading>, rows: seq<Bucket>, minuteMark: int, hourMark: int,
                      history: seq<Reading>, end: int, hourEnd: int, b: Bucket)
    requires ReadingsKept(samples, minuteMark, history) && Marks(minuteMark, hourMark) && RowsKept(rows)
    requires MinutesKept(rows, minuteMark, history)
    requires end % WIDTH_MINUTE == 0 && hourEnd % WIDTH_HOUR == 0 && IsMinute(b)
    requires MinuteWritten(samples, minuteMark, end, b) || HourWritten(rows, hourMark, hourEnd, b)
    ensures Due(MinuteFrom(samples, minuteMark), end)
    ensures minuteMark <= b.start && b.start + WIDTH_MINUTE <= end
    ensures Summarises(b, KeySet(history, (b.monitor, b.start)))
  {
    hide Summarises, UniqueKeys, SumsVisible, Distinct, KeySet, HourWritten;
    if HourWritten(rows, hourMark, hourEnd, b) {
      NewHour(rows, minuteMark, hourMark, history, hourEnd, b);
    } else {
      NewMinute(samples, minuteMark, history, end, b);
    }
  }

  lemma FoldKeepsHours(samples: seq<Reading>, rows: seq<Bucket>, minuteMark: int, hourMark: int,
                       history: seq<Reading>, foldedAt: map<Key, int>, before: int,
                       rows': seq<Bucket>, minuteMark': int, hourMark': int, foldedAt': map<Key, int>)
    requires Inv(samples, rows, minuteMark, hourMark, history, foldedAt)
    requires RowsAfter(rows, rows', samples, minuteMark, MinuteOfTime(before), hourMark, HourOf(before))
    requires minuteMark <= minuteMark' && hourMark <= hourMark'
    requires hourMark' == if Due(HourFrom(rows, hourMark), HourOf(before)) then HourOf(before) else hourMark
    requires foldedAt' == Stamped(foldedAt, rows'[|rows|..], minuteMark)
    ensures HoursKept(rows', minuteMark', hourMark', foldedAt')
  {
    hide Summarises, UniqueKeys, SumsVisible, Distinct, KeySet, Stored, OldestRow, Oldest, MinuteWritten, HourWritten, MinutesKept, RowsKept, ReadingsKept;
    FoldMarks(samples, rows, minuteMark, hourMark, history, foldedAt, before);
    FoldKeepsRows(samples, rows, minuteMark, hourMark, history, foldedAt, MinuteOfTime(before), HourOf(before), rows');
    var more := rows'[|rows|..];
    assert rows' == rows + more;
    forall h | h in more && IsHour(h)
      ensures hourMark <= h.start && h.start + WIDTH_HOUR <= hourMark' && SumsVisible(rows, h, minuteMark)
    {
      WrittenHour(samples, rows, minuteMark, hourMark, history, MinuteOfTime(before), HourOf(before), h);
    }
    forall h | h in rows' && IsHour(h)
      ensures h.start + WIDTH_HOUR <= hourMark' && (h.monitor, h.start) in foldedAt'
      ensures foldedAt'[(h.monitor, h.start)] <= minuteMark'
      ensures SumsVisible(rows', h, foldedAt'[(h.monitor, h.start)])
    {
      StampedKeys(foldedAt, more, minuteMark, (h.monitor, h.start));
      if h in more {
        StillVisible(rows, rows', h, minuteMark, minuteMark);
      } else {
        assert h in rows;
        StillVisible(rows, rows', h, foldedAt[(h.monitor, h.start)], minuteMark);
      }
    }
  }

  lemma WrittenHour(samples: seq<Reading>, rows: seq<Bucket>, minuteMark: int, hourMark: int,
                    history: seq<Reading>, end: int, hourEnd: int, h: Bucket)
    requires ReadingsKept(samples, minuteMark, history) && Marks(minuteMark, hourMark) && RowsKept(rows)
    requires MinutesKept(rows, minuteMark, history)
    requires end % WIDTH_MINUTE == 0 && hourEnd % WIDTH_HOUR == 0 && IsHour(h)
    requires MinuteWritten(samples, minuteMark, end, h) || HourWritten(rows, hourMark, hourEnd, h)
    ensures Due(HourFrom(rows, hourMark), hourEnd)
    ensures hourMark <= h.start && h.start + WIDTH_HOUR <= hourEnd
    ensures SumsVisible(rows, h, minuteMark)
  {
    hide Summarises, UniqueKeys, SumsVisible, Distinct, KeySet, MinuteWritten;
    if MinuteWritten(samples, minuteMark, end, h) {
      NewMinute(samples, minuteMark, history, end, h);
    } else {
      NewHour(rows, minuteMark, hourMark, history, hourEnd, h);
    }
  }

  /** Minutes written later start at or after the mark, so an hour's sum is final. */
  lemma StillVisible(rows: seq<Bucket>, rows': seq<Bucket>, h: Bucket, mark: int, minuteMark: int)
    requires SumsVisible(rows, h, mark) && mark <= minuteMark && rows <= rows'
    requires forall b | b in rows' && IsMinute(b) && b !in rows :: minuteMark <= b.start
    ensures SumsVisible(rows', h, mark)
  {
    hide TallyBuckets, UniqueKeys;
    var ms: seq<Bucket> :| FoldOf(h, ms) && UniqueKeys(ms)
      && forall b :: b in ms <==> b in rows && IsMinute(b) && HourKey(b) == (h.monitor, h.start) && b.start < mark;
    forall b ensures b in ms <==> b in rows' && IsMinute(b) && HourKey(b) == (h.monitor, h.start) && b.start < mark {}
  }

  // ----- which hours are complete -----

  ghost predicate SumsAll(rows: seq<Bucket>, h: Bucket) {
    SumsVisible(rows, h, h.start + WIDTH_HOUR)
  }

  function Count(b: Bucket): int { b.up + b.degraded + b.down + b.errors }

  function CountAll(ms: seq<Bucket>): int {
    if ms == [] then 0 else CountAll(ms[..|ms| - 1]) + Count(ms[|ms| - 1])
  }

  lemma {:induction false} CountOfFold(ms: seq<Bucket>)
    requires AllCounted(ms)
    ensures var t := TallyBuckets(ms); CountAll(ms) == t.up + t.degraded + t.down + t.errors
  {
    if ms != [] { CountOfFold(ms[..|ms| - 1]); }
  }

  lemma {:induction false} CountConcat(a: seq<Bucket>, b: seq<Bucket>)
    ensures CountAll(a + b) == CountAll(a) + CountAll(b)
  {
    if b == [] {
      assert a + b == a;
    } else {
      CountConcat(a, b[..|b| - 1]);
      assert (a + b)[..|a + b| - 1] == a + b[..|b| - 1];
    }
  }

  /** More rows hold at least as many readings, strictly more when a row is added. */
  lemma {:induction false} CountGrows(ms: seq<Bucket>, all: seq<Bucket>)
    requires UniqueKeys(ms) && AllCounted(all) && forall b | b in ms :: b in all
    ensures CountAll(ms) <= CountAll(all)
    decreases |ms|
  {
    if ms == [] {
      CountNonNegative(all);
    } else {
      var n := |ms| - 1;
      var b := ms[n];
      assert b in ms;
      var i :| 0 <= i < |all| && all[i] == b;
      var rest := all[..i] + all[i + 1..];
      Without(all, i);
      forall x | x in ms[..n] ensures x in rest {
        assert x in ms;
        var k :| 0 <= k < n && ms[k] == x;
        var j :| 0 <= j < |all| && all[j] == x;
        assert if j < i then rest[j] == x else rest[j - 1] == x;
      }
      CountGrows(ms[..n], rest);
    }
  }

  lemma {:induction false} CountNonNegative(all: seq<Bucket>)
    requires AllCounted(all)
    ensures CountAll(all) >= 0
  {
    if all != [] {
      assert all == all[..|all| - 1] + [all[|all| - 1]];
      assert all[|all| - 1] in all;
      CountNonNegative(all[..|all| - 1]);
    }
  }

  lemma Without(all: seq<Bucket>, i: nat)
    requires i < |all|
    ensures CountAll(all) == CountAll(all[..i] + all[i + 1..]) + Count(all[i])
  {
    hide CountAll, Count;
    var front, one, back := all[..i], [all[i]], all[i + 1..];
    assert all == (front + one) + back;
    CountConcat(front + one, back);
    CountConcat(front, one);
    CountConcat(front, back);
    CountOne(all[i]);
  }

  lemma CountOne(b: Bucket)
    ensures CountAll([b]) == Count(b)
  {
    assert [b][..0] == [];
  }

  /** Two folds that give one row fold equally many readings. */
  lemma SameFoldSameRows(h: Bucket, ms: seq<Bucket>, all: seq<Bucket>, extra: Bucket)
    requires FoldOf(h, ms) && FoldOf(h, all) && UniqueKeys(ms) && UniqueKeys(all)
    requires forall b | b in ms :: b in all
    requires extra in all && Count(extra) >= 1
    ensures extra in ms
  {
    hide TallyBuckets;
    CountOfFold(ms);
    CountOfFold(all);
    if extra !in ms {
      var i :| 0 <= i < |all| && all[i] == extra;
      Without(all, i);
      var rest := all[..i] + all[i + 1..];
      forall x | x in ms ensures x in rest {
        var j :| 0 <= j < |all| && all[j] == x;
        assert if j < i then rest[j] == x else rest[j - 1] == x;
      }
      CountGrows(ms, rest);
    }
  }

  /**
   The hour row a fold writes sums all the minutes of its hour if and only if no reading of
   the monitor in that hour was still waiting at the minute watermark. Minutes folded in the
   same call are not committed yet, so the hour misses them, and it is never written again.
   */
  lemma HourCompleteExactly(samples: seq<Reading>, rows: seq<Bucket>, minuteMark: int, hourMark: int,
                            history: seq<Reading>, foldedAt: map<Key, int>, before: int, rows': seq<Bucket>, h: Bucket)
    requires Inv(samples, rows, minuteMark, hourMark, history, foldedAt)
    requires RowsAfter(rows, rows', samples, minuteMark, MinuteOfTime(before), hourMark, HourOf(before))
    requires h in rows'[|rows|..] && IsHour(h)
    ensures SumsAll(rows', h)
            <==> (forall r | r in samples && !r.manual && r.monitor == h.monitor && HourOf(r.startedAt) == h.start ::
                    r.startedAt < minuteMark)
  {
    hide Summarises, UniqueKeys, SumsVisible, Distinct, KeySet, MinuteWritten, HourWritten, Stored, OldestRow, Oldest, MinutesKept, HoursKept;
    var end := MinuteOfTime(before);
    FoldMarks(samples, rows, minuteMark, hourMark, history, foldedAt, before);
    FoldKeepsRows(samples, rows, minuteMark, hourMark, history, foldedAt, end, HourOf(before), rows');
    WrittenHour(samples, rows, minuteMark, hourMark, history, end, HourOf(before), h);
    StillVisible(rows, rows', h, minuteMark, minuteMark);
    var waiting := exists r :: r in samples && !r.manual && r.monitor == h.monitor
                               && HourOf(r.startedAt) == h.start && minuteMark <= r.startedAt;
    if waiting {
      var r :| r in samples && !r.manual && r.monitor == h.monitor
               && HourOf(r.startedAt) == h.start && minuteMark <= r.startedAt;
      WaitingMinute(samples, rows, minuteMark, hourMark, history, foldedAt, before, rows', h, r);
    } else {
      NothingWaiting(samples, rows, minuteMark, hourMark, history, foldedAt, before, rows', h);
    }
  }

  lemma HourThenMinute(before: int, t: int)
    requires t >= 0 && HourOf(t) + WIDTH_HOUR <= HourOf(before)
    ensures t < MinuteOfTime(before)
  {
    Ends(before);
  }

  lemma MinuteSameHour(t: int)
    requires t >= 0
    ensures HourOf(MinuteOfTime(t)) == HourOf(t) && 0 <= MinuteOfTime(t) <= t
  {
    var h := HourOf(t);
    OnHourGrid(t, 0, h + WIDTH_HOUR);
    OnMinuteGrid(t, h, h + WIDTH_HOUR);
    OnGrid(MinuteOfTime(t), h, WIDTH_HOUR);
  }

  /** A reading still waiting becomes a minute row the hour row does not hold. */
  lemma WaitingMinute(samples: seq<Reading>, rows: seq<Bucket>, minuteMark: int, hourMark: int,
                      history: seq<Reading>, foldedAt: map<Key, int>, before: int, rows': seq<Bucket>, h: Bucket, r: Reading)
    requires Inv(samples, rows, minuteMark, hourMark, history, foldedAt)
    requires RowsAfter(rows, rows', samples, minuteMark, MinuteOfTime(before), hourMark, HourOf(before))
    requires IsHour(h) && h.start + WIDTH_HOUR <= HourOf(before) && SumsVisible(rows', h, minuteMark)
    requires RowsKept(rows')
    requires r in samples && !r.manual && r.monitor == h.monitor && HourOf(r.startedAt) == h.start && minuteMark <= r.startedAt
    ensures !SumsAll(rows', h)
  {
    hide Summarises, Distinct, KeySet, MinuteWritten, HourWritten, OldestRow, Oldest, HoursKept, TallyBuckets, UniqueKeys, SumsVisible;
    var end := MinuteOfTime(before);
    FoldMarks(samples, rows, minuteMark, hourMark, history, foldedAt, before);
    HourThenMinute(before, r.startedAt);
    MinuteSameHour(r.startedAt);
    DueNow(samples, minuteMark, history, end, r);
    MinutesComplete(samples, minuteMark, history, end, r);
    var b :| MinuteWritten(samples, minuteMark, end, b) && (b.monitor, b.start) == MinuteKey(r);
    NewMinute(samples, minuteMark, history, end, b);
    assert b in rows'[|rows|..] && b in rows';
    RealMinute(b, KeySet(history, (b.monitor, b.start)));
    FoldKeepsMinutes(samples, rows, minuteMark, hourMark, history, foldedAt, before, rows');
    SameHour(r.startedAt, b.start);
    NotSummed(rows', h, minuteMark, b);
  }

  lemma DueNow(samples: seq<Reading>, mark: int, history: seq<Reading>, end: int, r: Reading)
    requires ReadingsKept(samples, mark, history) && mark >= 0 && r in samples && mark <= r.startedAt < end
    ensures Due(MinuteFrom(samples, mark), end)
  {
    hide Distinct;
    OldestIsLeast(samples);
    var first :| first in samples && first.startedAt == Oldest(samples);
    assert first.startedAt >= 0;
  }

  lemma RealMinute(b: Bucket, rs: set<Reading>)
    requires Summarises(b, rs)
    ensures Count(b) >= 1
  {
    var r := Pick(rs);
    assert r in OfVerdict(rs, r.verdict);
  }

  lemma NotSummed(rows: seq<Bucket>, h: Bucket, mark: int, b: Bucket)
    requires SumsVisible(rows, h, mark) && b in rows && IsMinute(b) && HourKey(b) == (h.monitor, h.start)
    requires mark <= b.start < h.start + WIDTH_HOUR && Count(b) >= 1
    requires forall x | x in rows && IsMinute(x) :: x.start >= 0
    ensures !SumsAll(rows, h)
  {
    hide TallyBuckets, UniqueKeys;
    if SumsAll(rows, h) {
      var all: seq<Bucket> :| FoldOf(h, all) && UniqueKeys(all)
        && forall x :: x in all <==> x in rows && IsMinute(x) && HourKey(x) == (h.monitor, h.start) && x.start < h.start + WIDTH_HOUR;
      var ms: seq<Bucket> :| FoldOf(h, ms) && UniqueKeys(ms)
        && forall x :: x in ms <==> x in rows && IsMinute(x) && HourKey(x) == (h.monitor, h.start) && x.start < mark;
      forall x | x in ms ensures x in all {
        SameHour(b.start, x.start);
      }
      SameFoldSameRows(h, ms, all, b);
    }
  }

  lemma NothingWaiting(samples: seq<Reading>, rows: seq<Bucket>, minuteMark: int, hourMark: int,
                       history: seq<Reading>, foldedAt: map<Key, int>, before: int, rows': seq<Bucket>, h: Bucket)
    requires Inv(samples, rows, minuteMark, hourMark, history, foldedAt)
    requires RowsAfter(rows, rows', samples, minuteMark, MinuteOfTime(before), hourMark, HourOf(before))
    requires IsHour(h) && SumsVisible(rows', h, minuteMark)
    requires forall r | r in samples && !r.manual && r.monitor == h.monitor && HourOf(r.startedAt) == h.start :: r.startedAt < minuteMark
    ensures SumsAll(rows', h)
  {
    hide UniqueKeys, TallyBuckets, Distinct, HourWritten, MinuteWritten, Stored, OldestRow, Oldest, HoursKept, MinutesKept;
    var ms: seq<Bucket> :| FoldOf(h, ms) && UniqueKeys(ms)
      && forall x :: x in ms <==> x in rows' && IsMinute(x) && HourKey(x) == (h.monitor, h.start) && x.start < minuteMark;
    var end := MinuteOfTime(before);
    FoldMarks(samples, rows, minuteMark, hourMark, history, foldedAt, before);
    assert rows' == rows + rows'[|rows|..];
    forall b ensures b in ms <==> b in rows' && IsMinute(b) && HourKey(b) == (h.monitor, h.start) && b.start < h.start + WIDTH_HOUR {
      if b in rows' && IsMinute(b) && HourKey(b) == (h.monitor, h.start) {
        MinuteOrigin(samples, rows, minuteMark, hourMark, history, foldedAt, before, rows', b);
      }
    }
  }

  /** A minute row at or past the mark comes from a reading that was waiting in its hour. */
  lemma MinuteOrigin(samples: seq<Reading>, rows: seq<Bucket>, minuteMark: int, hourMark: int,
                     history: seq<Reading>, foldedAt: map<Key, int>, before: int, rows': seq<Bucket>, b: Bucket)
    requires Inv(samples, rows, minuteMark, hourMark, history, foldedAt)
    requires RowsAfter(rows, rows', samples, minuteMark, MinuteOfTime(before), hourMark, HourOf(before))
    requires b in rows' && IsMinute(b)
    ensures b.start >= 0 && b.start < HourOf(b.start) + WIDTH_HOUR
    ensures minuteMark <= b.start ==>
              exists r :: r in samples && !r.manual && r.monitor == b.monitor
                          && HourOf(r.startedAt) == HourOf(b.start) && minuteMark <= r.startedAt
  {
    hide UniqueKeys, TallyBuckets, Distinct, HourWritten, MinuteWritten, Stored, OldestRow, Oldest, HoursKept;
    var end := MinuteOfTime(before);
    FoldMarks(samples, rows, minuteMark, hourMark, history, foldedAt, before);
    assert rows' == rows + rows'[|rows|..];
    if b !in rows {
      WrittenMinute(samples, rows, minuteMark, hourMark, history, end, HourOf(before), b);
    }
    SameHour(b.start, b.start);
    if minuteMark <= b.start {
      var r := Pick(KeySet(history, (b.monitor, b.start)));
      MinuteSameHour(r.startedAt);
      assert r in samples;
    }
  }

  // ----- the recorder -----

  class Recorder {
    var samples: seq<Reading>
    var rows: seq<Bucket>
    var minuteMark: int
    var hourMark: int
    ghost var history: seq<Reading>
    ghost var foldedAt: map<Key, int>

    ghost predicate Valid()
      reads this
    {
      Inv(samples, rows, minuteMark, hourMark, history, foldedAt)
    }

    constructor ()
      ensures Valid() && history == [] && rows == [] && minuteMark == 0 && hourMark == 0
    {
      samples, rows, minuteMark, hourMark, history, foldedAt := [], [], 0, 0, [], map[];
    }

    /** Any reading; one below the minute watermark comes too late to be part of the history that is folded. */
    method Record(r: Reading)
      requires Valid()
      requires r.startedAt >= 0 && forall o | o in history || o in samples :: o.id != r.id
      modifies this
      ensures Valid()
      ensures samples == old(samples) + [r]
      ensures history == if r.startedAt >= minuteMark then old(history) + [r] else old(history)
      ensures rows == old(rows) && minuteMark == old(minuteMark) && hourMark == old(hourMark) && foldedAt == old(foldedAt)
    {
      hide UniqueKeys, SumsVisible, Summarises;
      samples := samples + [r];
      if r.startedAt >= minuteMark {
        LaterReading(history, r, rows, minuteMark);
        history := history + [r];
      }
    }

    /** Folds every closed minute and hour; what is written is never written again. */
    method Fold(before: int)
      requires Valid()
      modifies this
      ensures Valid()
      ensures samples == old(samples) && history == old(history)
      ensures RowsAfter(old(rows), rows, samples, old(minuteMark), MinuteOfTime(before), old(hourMark), HourOf(before))
      ensures minuteMark == if Due(MinuteFrom(samples, old(minuteMark)), MinuteOfTime(before))
                            then MinuteOfTime(before) else old(minuteMark)
      ensures hourMark == if Due(HourFrom(old(rows), old(hourMark)), HourOf(before))
                          then HourOf(before) else old(hourMark)
      ensures minuteMark >= old(minuteMark) && hourMark >= old(hourMark)
      ensures foldedAt == Stamped(old(foldedAt), rows[|old(rows)|..], old(minuteMark))
    {
      hide *;
      ValidGives(this);
      var minuteEnd := MinuteOfTime(before);
      var hourEnd := HourOf(before);
      var ops: seq<Bucket> := [];
      var hourOps: seq<Bucket> := [];
      var mark', hour' := minuteMark, hourMark;
      NoRows();
      RowsAreCounted(samples, rows, minuteMark, hourMark, history, foldedAt);
      var from := MinuteFrom(samples, minuteMark);
      if Due(from, minuteEnd) {
        DueIsSome(from, minuteEnd);
        ops := CollectMinutes(Unfolded(samples, from.value, minuteEnd));
        mark' := minuteEnd;
      }
      var hourFrom := HourFrom(rows, hourMark);
      if Due(hourFrom, hourEnd) {
        DueIsSome(hourFrom, hourEnd);
        VisibleAreCounted(rows, hourFrom.value, hourEnd);
        hourOps := CollectHours(MinuteRows(rows, hourFrom.value, hourEnd));
        hour' := hourEnd;
      }
      MinutesWritten(samples, minuteMark, minuteEnd, ops);
      HoursWritten(rows, hourMark, hourEnd, hourOps);
      Committed(samples, rows, minuteMark, hourMark, history, foldedAt, before, ops, hourOps);
      ghost var rows' := rows + (ops + hourOps);
      ghost var folded := Stamped(foldedAt, rows'[|rows|..], minuteMark);
      FoldKeeps(samples, rows, minuteMark, hourMark, history, foldedAt, before, rows', mark', hour', folded);
      rows := rows + (ops + hourOps);
      minuteMark, hourMark, foldedAt := mark', hour', folded;
      assert Inv(samples, rows, minuteMark, hourMark, history, foldedAt);
      IsValid(this);
    }

    /** Removes the oldest folded readings past the retention window, at most 5000 a time. */
    method PruneSamples(before: int, now: int, retentionDays: int) returns (removed: seq<Reading>)
      requires Valid()
      modifies this
      ensures Valid()
      ensures rows == old(rows) && minuteMark == old(minuteMark) && hourMark == old(hourMark) && history == old(history)
      ensures removed == Prunable(old(samples), PruneCutoff(before, now, retentionDays, minuteMark))
      ensures samples == FilterReadings(old(samples), (r: Reading) => r !in removed)
      ensures forall r | r in removed :: r.startedAt < minuteMark
    {
      hide UniqueKeys, SumsVisible, Summarises, MinutesKept, HoursKept, Distinct, Prunable, FilterReadings;
      var cutoff := before;
      if cutoff <= 0 {
        var days := retentionDays;
        if days <= 0 {
          days := DEFAULT_RETENTION_DAYS;
        }
        cutoff := now - days * 86400;
      }
      if minuteMark < cutoff {
        cutoff := minuteMark;
      }
      if cutoff <= 0 {
        removed := [];
        FilterAll(samples);
        NothingPrunable(samples, cutoff);
        return;
      }
      removed := Prunable(samples, cutoff);
      PrunableMembers(samples, cutoff);
      FilterMembers(samples, (r: Reading) => r !in removed);
      samples := FilterReadings(samples, (r: Reading) => r !in removed);
    }
  }

  lemma RowsAreCounted(samples: seq<Reading>, rows: seq<Bucket>, minuteMark: int, hourMark: int,
                       history: seq<Reading>, foldedAt: map<Key, int>)
    requires Inv(samples, rows, minuteMark, hourMark, history, foldedAt)
    ensures AllCounted(rows) && forall r | r in rows :: Counted(r)
  {}

  lemma DueIsSome(from: Option<int>, end: int)
    requires Due(from, end)
    ensures from.Some?
  {}

  lemma VisibleAreCounted(rows: seq<Bucket>, lo: int, hi: int)
    requires AllCounted(rows)
    ensures AllCounted(MinuteRows(rows, lo, hi))
  {
    MinuteRowsMembers(rows, lo, hi);
  }

  lemma MinutesWritten(samples: seq<Reading>, mark: int, end: int, ops: seq<Bucket>)
    requires var from := MinuteFrom(samples, mark);
             if Due(from, end) then
               var pending := Unfolded(samples, from.value, end);
               forall b :: b in ops <==> exists k :: Group(pending, k) != [] && b == MinuteRow(pending, k)
             else ops == []
    ensures forall b :: b in ops <==> MinuteWritten(samples, mark, end, b)
  {
    hide Group, Unfolded, Oldest;
  }

  lemma HoursWritten(rows: seq<Bucket>, mark: int, end: int, ops: seq<Bucket>)
    requires forall r | r in rows :: Counted(r)
    requires var from := HourFrom(rows, mark);
             if Due(from, end) then
               var bs := MinuteRows(rows, from.value, end);
               AllCounted(bs) && forall b :: b in ops <==> exists k :: HourGroup(bs, k) != [] && b == HourRow(bs, k)
             else ops == []
    ensures forall b :: b in ops <==> HourWritten(rows, mark, end, b)
  {
    hide HourGroup, MinuteRows, OldestRow, TallyBuckets;
  }

  lemma IsValid(r: Recorder)
    requires Inv(r.samples, r.rows, r.minuteMark, r.hourMark, r.history, r.foldedAt)
    ensures r.Valid()
  {}

  lemma ValidGives(r: Recorder)
    requires r.Valid()
    ensures Inv(r.samples, r.rows, r.minuteMark, r.hourMark, r.history, r.foldedAt)
  {}

  lemma NothingPrunable(samples: seq<Reading>, cutoff: int)
    requires cutoff <= 0
    ensures Prunable(samples, cutoff) == []
  {}

  const DEFAULT_RETENTION_DAYS := 90

  function PruneCutoff(before: int, now: int, retentionDays: int, mark: int): int {
    MinOf(if before > 0 then before
          else now - (if retentionDays <= 0 then DEFAULT_RETENTION_DAYS else retentionDays) * 86400, mark)
  }

  /** The oldest readings below the cut-off, up to the limit of one prune. */
  function Prunable(samples: seq<Reading>, cutoff: int): seq<Reading> {
    if cutoff <= 0 then []
    else
      var aged := Sort(FilterReadings(samples, (r: Reading) => r.startedAt < cutoff), ByTime);
      aged[..MinOf(|aged|, PRUNE_LIMIT)]
  }

  lemma PrunableMembers(samples: seq<Reading>, cutoff: int)
    ensures forall r | r in Prunable(samples, cutoff) :: r in samples && r.startedAt < cutoff
    ensures |Prunable(samples, cutoff)| <= PRUNE_LIMIT
  {
    if cutoff > 0 {
      var keep := (r: Reading) => r.startedAt < cutoff;
      FilterMembers(samples, keep);
      SameMembers(FilterReadings(samples, keep), Sort(FilterReadings(samples, keep), ByTime));
    }
  }

  lemma {:induction false} FilterAll(samples: seq<Reading>)
    ensures FilterReadings(samples, (r: Reading) => r !in []) == samples
  {
    if samples != [] {
      FilterAll(samples[..|samples| - 1]);
      assert samples == samples[..|samples| - 1] + [samples[|samples| - 1]];
    }
  }

  /** A reading at or above the mark touches no minute already folded. */
  lemma LaterReading(history: seq<Reading>, r: Reading, rows: seq<Bucket>, mark: int)
    requires mark >= 0 && mark % WIDTH_MINUTE == 0 && r.startedAt >= mark && MinutesKept(rows, mark, history)
    ensures MinutesKept(rows, mark, history + [r])
  {
    hide Summarises;
    forall b | b in rows && IsMinute(b)
      ensures KeySet(history + [r], (b.monitor, b.start)) == KeySet(history, (b.monitor, b.start))
    {
      OnMinuteGrid(r.startedAt, mark, MinuteOfTime(r.startedAt) + WIDTH_MINUTE);
    }
  }

  /** What the two loops collected is what a fold writes. */
  lemma Committed(samples: seq<Reading>, rows: seq<Bucket>, minuteMark: int, hourMark: int,
                  history: seq<Reading>, foldedAt: map<Key, int>, before: int, ops: seq<Bucket>, hourOps: seq<Bucket>)
    requires Inv(samples, rows, minuteMark, hourMark, history, foldedAt)
    requires UniqueKeys(ops) && UniqueKeys(hourOps)
    requires forall b :: b in ops <==> MinuteWritten(samples, minuteMark, MinuteOfTime(before), b)
    requires forall b :: b in hourOps <==> HourWritten(rows, hourMark, HourOf(before), b)
    ensures RowsAfter(rows, rows + (ops + hourOps), samples, minuteMark, MinuteOfTime(before), hourMark, HourOf(before))
  {
    hide UniqueKeys, SumsVisible, Summarises, MinutesKept, HoursKept, ReadingsKept, MinuteWritten, HourWritten;
    FoldMarks(samples, rows, minuteMark, hourMark, history, foldedAt, before);
    forall x, y | x in ops && y in hourOps ensures x.width != y.width {
      NewMinute(samples, minuteMark, history, MinuteOfTime(before), x);
      NewHour(rows, minuteMark, hourMark, history, HourOf(before), y);
    }
    UniqueConcat(ops, hourOps);
    assert (rows + (ops + hourOps))[|rows|..] == ops + hourOps;
  }
}
