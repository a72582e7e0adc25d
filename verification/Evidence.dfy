/**
 Which folded readings a report ships: `evidenceBuckets` of internal/core/reports.go.

 A report ships every hour row, and minute rows only where an hour was unclean or the period
 begins or ends. `EvidenceMeaning` says when that loses nothing.
 */
module Evidence {
  import opened Sorting
  import opened Intervals
  import opened Model
  import opened Series
  import opened Decimal
  import opened Text
  import opened Folding

  function HourOf(t: int): int { Quo(t, WIDTH_HOUR) * WIDTH_HOUR }

  // ----- the stored rows -----

  predicate IsHour(b: Bucket) { b.width == WIDTH_HOUR }

  predicate IsMinute(b: Bucket) { b.width == WIDTH_MINUTE }

  /** What the table guarantees: one row per (monitor, width, start), starts on the grid. */
  ghost predicate Stored(table: seq<Bucket>) {
    && UniqueKeys(table)
    && forall b | b in table ::
         && (IsHour(b) ==> b.start % WIDTH_HOUR == 0)
         && (IsMinute(b) ==> b.start % WIDTH_MINUTE == 0)
         && Counted(b)
  }

  /** An hour that was not uniformly up. */
  predicate Unclean(b: Bucket) { b.verdict != Up || b.errors > 0 }

  predicate HourInRange(b: Bucket, from: int, to: int) {
    IsHour(b) && HourOf(from) <= b.start < to
  }

  /** The hours whose minutes are read. */
  ghost predicate Interesting(table: seq<Bucket>, from: int, to: int, h: int) {
    || h == HourOf(from)
    || h == HourOf(to - 1)
    || exists b :: b in table && HourInRange(b, from, to) && b.start == h && Unclean(b)
  }

  ghost predicate MinuteSelected(table: seq<Bucket>, from: int, to: int, b: Bucket) {
    IsMinute(b) && exists h :: Interesting(table, from, to, h) && h <= b.start < h + WIDTH_HOUR
  }

  ghost predicate Selected(table: seq<Bucket>, from: int, to: int, b: Bucket) {
    b in table && (HourInRange(b, from, to) || MinuteSelected(table, from, to, b))
  }

  predicate KeyLe(a: Bucket, b: Bucket) {
    if a.monitor != b.monitor then StringLe(a.monitor, b.monitor)
    else if a.width != b.width then a.width < b.width
    else a.start <= b.start
  }

  lemma KeyOrder()
    ensures TotalPreorder(KeyLe)
  {
    forall a, b ensures KeyLe(a, b) || KeyLe(b, a) {
      StringLeTotal(a.monitor, b.monitor);
    }
    forall a, b, c | KeyLe(a, b) && KeyLe(b, c) ensures KeyLe(a, c) {
      StringLeTotal(a.monitor, b.monitor);
      StringLeTotal(b.monitor, c.monitor);
      StringLeTotal(a.monitor, c.monitor);
      if a.monitor != b.monitor && b.monitor != c.monitor {
        StringLeTransitive(a.monitor, b.monitor, c.monitor);
      }
    }
  }

  // ----- the selection -----

  /** The rows of one width whose start lies in [lo, hi). */
  function Query(table: seq<Bucket>, width: int, lo: int, hi: int): seq<Bucket> {
    if table == [] then []
    else
      var b := table[|table| - 1];
      Query(table[..|table| - 1], width, lo, hi) + if b.width == width && lo <= b.start < hi then [b] else []
  }

  lemma {:induction false} QueryMembers(table: seq<Bucket>, width: int, lo: int, hi: int)
    ensures forall b :: b in Query(table, width, lo, hi) <==> b in table && b.width == width && lo <= b.start < hi
    ensures UniqueKeys(table) ==> UniqueKeys(Query(table, width, lo, hi))
  {
    if table != [] {
      var n := |table| - 1;
      var b := table[n];
      QueryMembers(table[..n], width, lo, hi);
      assert table == table[..n] + [b];
      if UniqueKeys(table) && b.width == width && lo <= b.start < hi {
        NewKey(table[..n], Query(table[..n], width, lo, hi), b);
      }
    }
  }

  lemma NewKey(rows: seq<Bucket>, some: seq<Bucket>, b: Bucket)
    requires UniqueKeys(rows + [b]) && UniqueKeys(some) && forall r | r in some :: r in rows
    ensures UniqueKeys(some + [b])
  {
    forall i | 0 <= i < |some|
      ensures some[i].monitor != b.monitor || some[i].width != b.width || some[i].start != b.start
    {
      assert some[i] in rows;
      var k :| 0 <= k < |rows| && rows[k] == some[i];
      assert (rows + [b])[k] == rows[k] && (rows + [b])[|rows|] == b;
    }
  }

  lemma UniqueConcat(a: seq<Bucket>, b: seq<Bucket>)
    requires UniqueKeys(a) && UniqueKeys(b)
    requires forall x, y | x in a && y in b ::
               x.monitor != y.monitor || x.width != y.width || x.start != y.start
    ensures UniqueKeys(a + b)
  {
    var c := a + b;
    forall i, j | 0 <= i < j < |c|
      ensures c[i].monitor != c[j].monitor || c[i].width != c[j].width || c[i].start != c[j].start
    {
      assert i < |a| ==> c[i] in a;
      assert j >= |a| ==> c[j] in b;
      assert j < |a| ==> a[i] == c[i] && a[j] == c[j];
      assert i >= |a| ==> b[i - |a|] == c[i] && b[j - |a|] == c[j];
    }
  }

  lemma UniqueSorted(a: seq<Bucket>, out: seq<Bucket>)
    requires UniqueKeys(a) && multiset(out) == multiset(a)
    ensures UniqueKeys(out)
  {
    SameMembers(a, out);
    NoRepeatsKept(a, out);
    forall i, j | 0 <= i < j < |out|
      ensures out[i].monitor != out[j].monitor || out[i].width != out[j].width || out[i].start != out[j].start
    {
      assert out[i] in a && out[j] in a;
      var k :| 0 <= k < |a| && a[k] == out[i];
      var l :| 0 <= l < |a| && a[l] == out[j];
    }
  }

  /** The folded readings a report rests on, in key order. */
  method EvidenceBuckets(table: seq<Bucket>, from: int, to: int) returns (out: seq<Bucket>)
    requires Stored(table)
    ensures forall b :: b in out <==> Selected(table, from, to, b)
    ensures UniqueKeys(out) && Sorted(out, KeyLe)
  {
    hide Query, KeyLe, TotalPreorder;
    var hourFrom := HourOf(from);
    var rows := Query(table, WIDTH_HOUR, hourFrom, to);
    QueryMembers(table, WIDTH_HOUR, hourFrom, to);
    var interesting: set<int> := {};
    for i := 0 to |rows|
      invariant forall h :: h in interesting <==> exists b :: b in rows[..i] && b.start == h && Unclean(b)
    {
      assert rows[..i + 1] == rows[..i] + [rows[i]];
      if rows[i].verdict != Up || rows[i].errors > 0 {
        interesting := interesting + {rows[i].start};
      }
    }
    assert rows[..|rows|] == rows;
    interesting := interesting + {hourFrom};
    interesting := interesting + {HourOf(to - 1)};
    HoursRead(table, from, to, rows, interesting);
    var starts := SortedPoints(interesting);
    assert forall i | 0 <= i < |starts| :: starts[i] in interesting;
    out := rows;
    for k := 0 to |starts|
      invariant forall b :: b in out <==> b in rows || MinuteOf(table, starts[..k], b)
      invariant UniqueKeys(out)
    {
      var minutes := Query(table, WIDTH_MINUTE, starts[k], starts[k] + WIDTH_HOUR);
      AddMinutes(table, rows, out, starts, k, minutes);
      out := out + minutes;
    }
    assert starts[..|starts|] == starts;
    Chosen(table, from, to, rows, starts);
    KeyOrder();
    var sorted := Sort(out, KeyLe);
    SameMembers(out, sorted);
    UniqueSorted(out, sorted);
    out := sorted;
  }

  ghost predicate MinuteOf(table: seq<Bucket>, starts: seq<int>, b: Bucket) {
    b in table && IsMinute(b) && exists h :: h in starts && h <= b.start < h + WIDTH_HOUR
  }

  lemma HourGrid(t: int)
    ensures HourOf(t) % WIDTH_HOUR == 0
  {
    assert HourOf(t) == WIDTH_HOUR * Quo(t, WIDTH_HOUR);
  }

  lemma HoursRead(table: seq<Bucket>, from: int, to: int, rows: seq<Bucket>, interesting: set<int>)
    requires Stored(table)
    requires forall b :: b in rows <==> b in table && b.width == WIDTH_HOUR && HourOf(from) <= b.start < to
    requires forall h :: h in interesting <==>
               h == HourOf(from) || h == HourOf(to - 1) || exists b :: b in rows && b.start == h && Unclean(b)
    ensures forall h :: h in interesting <==> Interesting(table, from, to, h)
    ensures forall h | h in interesting :: h % WIDTH_HOUR == 0
  {
    HourGrid(from);
    HourGrid(to - 1);
    forall h ensures h in interesting <==> Interesting(table, from, to, h) {
      if exists b :: b in rows && b.start == h && Unclean(b) {
        var b :| b in rows && b.start == h && Unclean(b);
        assert HourInRange(b, from, to);
      }
    }
  }

  lemma AddMinutes(table: seq<Bucket>, rows: seq<Bucket>, out: seq<Bucket>, starts: seq<int>, k: nat, minutes: seq<Bucket>)
    requires Stored(table) && UniqueKeys(out) && k < |starts|
    requires forall b | b in rows :: b.width == WIDTH_HOUR
    requires forall b :: b in out <==> b in rows || MinuteOf(table, starts[..k], b)
    requires minutes == Query(table, WIDTH_MINUTE, starts[k], starts[k] + WIDTH_HOUR)
    requires Increasing(starts) && forall i | 0 <= i < |starts| :: starts[i] % WIDTH_HOUR == 0
    ensures UniqueKeys(out + minutes)
    ensures forall b :: b in out + minutes <==> b in rows || MinuteOf(table, starts[..k + 1], b)
  {
    hide UniqueKeys, Query;
    QueryMembers(table, WIDTH_MINUTE, starts[k], starts[k] + WIDTH_HOUR);
    forall x, y | x in out && y in minutes
      ensures x.monitor != y.monitor || x.width != y.width || x.start != y.start
    {
      if x !in rows {
        var h :| h in starts[..k] && h <= x.start < h + WIDTH_HOUR;
        var i :| 0 <= i < k && starts[i] == h;
        assert starts[i] < starts[k] && starts[i] % WIDTH_HOUR == 0 && starts[k] % WIDTH_HOUR == 0;
        GridGap(starts[i], starts[k]);
      }
    }
    UniqueConcat(out, minutes);
    assert starts[..k + 1] == starts[..k] + [starts[k]];
    forall b ensures b in out + minutes <==> b in rows || MinuteOf(table, starts[..k + 1], b) {
      assert b in minutes ==> starts[k] in starts[..k + 1];
      if b in out && b !in rows {
        var h :| h in starts[..k] && h <= b.start < h + WIDTH_HOUR;
        assert h in starts[..k + 1];
      }
    }
  }

  lemma GridGap(a: int, b: int)
    requires a < b && a % WIDTH_HOUR == 0 && b % WIDTH_HOUR == 0
    ensures a + WIDTH_HOUR <= b
  {}

  lemma Chosen(table: seq<Bucket>, from: int, to: int, rows: seq<Bucket>, starts: seq<int>)
    requires forall b :: b in rows <==> b in table && b.width == WIDTH_HOUR && HourOf(from) <= b.start < to
    requires forall h :: h in starts <==> Interesting(table, from, to, h)
    ensures forall b :: (b in rows || MinuteOf(table, starts, b)) <==> Selected(table, from, to, b)
  {
    hide Interesting;
  }
}
