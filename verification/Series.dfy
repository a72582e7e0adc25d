/**
 From the readings of a component to when it was down and when it was seen:
 `monitorSegments` and `ComponentSeries` of internal/availability/compute.go.

 The specification is per second. At each second the finest reading of a monitor wins, the
 monitors whose winner holds readings are the ones seen, and the rollup rule is applied to
 them. The sweep over boundaries is proved to compute exactly that.
 */
module Series {
  import opened Sorting
  import opened Intervals
  import opened Model

  // ----- the per-second definition -----

  /** Whether the row says anything about the service: errors alone do not. */
  predicate HasReadings(b: Bucket) { b.up + b.degraded + b.down > 0 }

  predicate Speaks(b: Bucket, t: int) { b.width > 0 && b.start <= t < b.start + b.width }

  /** Finest first: least width, then least start, then first in the input. */
  predicate Finer(a: Bucket, i: int, b: Bucket, j: int) {
    if a.width != b.width then a.width < b.width
    else if a.start != b.start then a.start < b.start
    else i <= j
  }

  /** Reading `i` is the one that speaks for second `t`. */
  ghost predicate Wins(bs: seq<Bucket>, i: int, t: int) {
    && 0 <= i < |bs|
    && Speaks(bs[i], t)
    && forall j | 0 <= j < |bs| && Speaks(bs[j], t) :: Finer(bs[i], i, bs[j], j)
  }

  ghost predicate MonitorObserved(bs: seq<Bucket>, t: int) {
    exists i :: Wins(bs, i, t) && HasReadings(bs[i])
  }

  ghost predicate MonitorDown(bs: seq<Bucket>, t: int) {
    exists i :: Wins(bs, i, t) && HasReadings(bs[i]) && bs[i].verdict == Down
  }

  /** The readings of one monitor, in input order. */
  function OfMonitor(bs: seq<Bucket>, m: string): seq<Bucket> {
    if bs == [] then []
    else
      var front := OfMonitor(bs[..|bs| - 1], m);
      if bs[|bs| - 1].monitor == m then front + [bs[|bs| - 1]] else front
  }

  ghost function Ids(bs: seq<Bucket>): set<string> { set b | b in bs :: b.monitor }

  ghost function SeenAt(bs: seq<Bucket>, ids: set<string>, t: int): set<string> {
    set m | m in ids && MonitorObserved(OfMonitor(bs, m), t)
  }

  ghost function DownAt(bs: seq<Bucket>, ids: set<string>, t: int): set<string> {
    set m | m in ids && MonitorDown(OfMonitor(bs, m), t)
  }

  /** The rollup rule over the monitors seen; an unknown or empty rule means `any`. */
  predicate Rule(rollup: string, down: int, seen: int) {
    if rollup == ROLLUP_ALL then down == seen
    else if rollup == ROLLUP_MAJORITY then down * 2 > seen
    else down > 0
  }

  datatype ComponentInput = ComponentInput(
    id: string,
    name: string,
    userWeight: int,
    rollup: string,
    buckets: seq<Bucket>)

  ghost predicate ComponentObserved(bs: seq<Bucket>, t: int) {
    |SeenAt(bs, Ids(bs), t)| > 0
  }

  ghost predicate ComponentDown(rollup: string, bs: seq<Bucket>, t: int) {
    && ComponentObserved(bs, t)
    && Rule(rollup, |DownAt(bs, Ids(bs), t)|, |SeenAt(bs, Ids(bs), t)|)
  }

  /** The seconds any reading could speak for: what makes the two sets below finite. */
  function Spans(bs: seq<Bucket>): seq<Interval> {
    seq(|bs|, i requires 0 <= i < |bs| => Interval(bs[i].start, bs[i].start + bs[i].width))
  }

  ghost function ObservedSet(bs: seq<Bucket>): set<int> {
    set t | t in Points(Spans(bs)) && ComponentObserved(bs, t)
  }

  ghost function DownSet(rollup: string, bs: seq<Bucket>): set<int> {
    set t | t in Points(Spans(bs)) && ComponentDown(rollup, bs, t)
  }

  // ----- facts about the definition -----

  lemma {:induction false} OfMonitorMembers(bs: seq<Bucket>, m: string)
    ensures forall b :: b in OfMonitor(bs, m) <==> b in bs && b.monitor == m
  {
    if bs != [] {
      OfMonitorMembers(bs[..|bs| - 1], m);
      assert bs == bs[..|bs| - 1] + [bs[|bs| - 1]];
    }
  }

  lemma SpansMembers(bs: seq<Bucket>, b: Bucket, t: int)
    requires b in bs && Speaks(b, t)
    ensures t in Points(Spans(bs))
  {
    var i :| 0 <= i < |bs| && bs[i] == b;
    assert Spans(bs)[i].Has(t);
    Covered(Spans(bs), t);
  }

  lemma InSets(rollup: string, bs: seq<Bucket>, t: int)
    ensures t in ObservedSet(bs) <==> ComponentObserved(bs, t)
    ensures t in DownSet(rollup, bs) <==> ComponentDown(rollup, bs, t)
  {
    if ComponentObserved(bs, t) {
      var m := Pick(SeenAt(bs, Ids(bs), t));
      var i :| Wins(OfMonitor(bs, m), i, t) && HasReadings(OfMonitor(bs, m)[i]);
      OfMonitorMembers(bs, m);
      SpansMembers(bs, OfMonitor(bs, m)[i], t);
    }
  }

  lemma SubsetSize<T>(a: set<T>, b: set<T>)
    requires a <= b
    ensures |a| <= |b|
  {
    assert b == a + (b - a);
  }

  /** The rules are ordered: down under `all` is down under `majority`, and so under `any`. */
  lemma RollupOrder(bs: seq<Bucket>)
    ensures DownSet(ROLLUP_ALL, bs) <= DownSet(ROLLUP_MAJORITY, bs)
    ensures DownSet(ROLLUP_MAJORITY, bs) <= DownSet(ROLLUP_ANY, bs)
    ensures DownSet(ROLLUP_ANY, bs) <= ObservedSet(bs)
  {}

  // ----- independence of the input order -----

  /** (monitor, width, start) is the primary key of the folded readings. */
  ghost predicate UniqueKeys(bs: seq<Bucket>) {
    forall i, j | 0 <= i < j < |bs| ::
      bs[i].monitor != bs[j].monitor || bs[i].width != bs[j].width || bs[i].start != bs[j].start
  }

  ghost predicate Leads(bs: seq<Bucket>, b: Bucket, t: int) {
    && b in bs && Speaks(b, t)
    && forall o | o in bs && Speaks(o, t) :: b.width < o.width || (b.width == o.width && b.start <= o.start)
  }

  lemma {:induction false} OfMonitorUnique(bs: seq<Bucket>, m: string)
    requires UniqueKeys(bs)
    ensures UniqueKeys(OfMonitor(bs, m))
  {
    if bs != [] {
      var n := |bs| - 1;
      OfMonitorUnique(bs[..n], m);
      OfMonitorMembers(bs[..n], m);
      var front := OfMonitor(bs[..n], m);
      forall i | 0 <= i < |front|
        ensures front[i].monitor != bs[n].monitor || front[i].width != bs[n].width || front[i].start != bs[n].start
      {
        assert front[i] in bs[..n];
        var k :| 0 <= k < n && bs[k] == front[i];
      }
    }
  }

  /** With unique keys the winner does not depend on its position. */
  lemma WinnerLeads(bs: seq<Bucket>, m: string, t: int)
    requires UniqueKeys(bs)
    ensures var own := OfMonitor(bs, m);
            && (MonitorObserved(own, t) <==> exists b :: Leads(own, b, t) && HasReadings(b))
            && (MonitorDown(own, t) <==> exists b :: Leads(own, b, t) && HasReadings(b) && b.verdict == Down)
  {
    var own := OfMonitor(bs, m);
    OfMonitorUnique(bs, m);
    OfMonitorMembers(bs, m);
    forall i | Wins(own, i, t) ensures Leads(own, own[i], t) {}
    forall b | Leads(own, b, t) ensures exists i :: Wins(own, i, t) && own[i] == b {
      var i :| 0 <= i < |own| && own[i] == b;
      forall j | 0 <= j < |own| && Speaks(own[j], t) ensures Finer(own[i], i, own[j], j) {
        assert own[j] in own;
      }
      assert Wins(own, i, t);
    }
  }

  /** The answer does not depend on the order the readings are given in. */
  lemma OrderIrrelevant(rollup: string, bs: seq<Bucket>, bs': seq<Bucket>)
    requires UniqueKeys(bs) && UniqueKeys(bs')
    requires forall b :: b in bs <==> b in bs'
    ensures ObservedSet(bs) == ObservedSet(bs') && DownSet(rollup, bs) == DownSet(rollup, bs')
  {
    hide ObservedSet, DownSet, Wins, UniqueKeys, OfMonitor;
    assert Ids(bs) == Ids(bs');
    forall m, t
      ensures MonitorObserved(OfMonitor(bs, m), t) <==> MonitorObserved(OfMonitor(bs', m), t)
      ensures MonitorDown(OfMonitor(bs, m), t) <==> MonitorDown(OfMonitor(bs', m), t)
    {
      WinnerLeads(bs, m, t);
      WinnerLeads(bs', m, t);
      OfMonitorMembers(bs, m);
      OfMonitorMembers(bs', m);
      forall b ensures Leads(OfMonitor(bs, m), b, t) <==> Leads(OfMonitor(bs', m), b, t) {}
    }
    forall t
      ensures t in ObservedSet(bs) <==> t in ObservedSet(bs')
      ensures t in DownSet(rollup, bs) <==> t in DownSet(rollup, bs')
    {
      SameMonitors(rollup, bs, bs', t);
    }
  }

  lemma SameMonitors(rollup: string, bs: seq<Bucket>, bs': seq<Bucket>, t: int)
    requires Ids(bs) == Ids(bs')
    requires forall m | m in Ids(bs) ::
               && (MonitorObserved(OfMonitor(bs, m), t) <==> MonitorObserved(OfMonitor(bs', m), t))
               && (MonitorDown(OfMonitor(bs, m), t) <==> MonitorDown(OfMonitor(bs', m), t))
    ensures t in ObservedSet(bs) <==> t in ObservedSet(bs')
    ensures t in DownSet(rollup, bs) <==> t in DownSet(rollup, bs')
  {
    hide MonitorObserved, MonitorDown, OfMonitor, ObservedSet, DownSet;
    InSets(rollup, bs, t);
    InSets(rollup, bs', t);
    assert SeenAt(bs, Ids(bs), t) == SeenAt(bs', Ids(bs'), t);
    assert DownAt(bs, Ids(bs), t) == DownAt(bs', Ids(bs'), t);
  }

  // ----- one monitor -----

  datatype Segment = Segment(from: int, to: int, observed: bool, down: bool) {
    predicate Has(t: int) { from <= t < to }
  }

  datatype Placed = Placed(bucket: Bucket, pos: int)

  predicate PlacedLe(a: Placed, b: Placed) { Finer(a.bucket, a.pos, b.bucket, b.pos) }

  function Whole(b: Bucket): Interval { Interval(b.start, b.start + b.width) }

  /** Position `q` holds the first reading of the list that speaks for `t`. */
  ghost predicate FirstAt(ordered: seq<Placed>, q: int, t: int) {
    && 0 <= q < |ordered|
    && Speaks(ordered[q].bucket, t)
    && forall p | 0 <= p < q :: !Speaks(ordered[p].bucket, t)
  }

  /** A stable sort by (width, start): the input position is the last key. */
  function Order(bs: seq<Bucket>): (ordered: seq<Placed>)
    ensures Sorted(ordered, PlacedLe)
    ensures multiset(ordered) == multiset(seq(|bs|, i requires 0 <= i < |bs| => Placed(bs[i], i)))
  {
    Sort(seq(|bs|, i requires 0 <= i < |bs| => Placed(bs[i], i)), PlacedLe)
  }

  lemma OrderMembers(bs: seq<Bucket>)
    ensures forall i | 0 <= i < |bs| :: Placed(bs[i], i) in Order(bs)
    ensures forall p | p in Order(bs) :: 0 <= p.pos < |bs| && p.bucket == bs[p.pos]
  {
    var placed := seq(|bs|, i requires 0 <= i < |bs| => Placed(bs[i], i));
    SameMembers(placed, Order(bs));
    forall i | 0 <= i < |bs| ensures Placed(bs[i], i) in Order(bs) {
      assert placed[i] == Placed(bs[i], i);
    }
  }

  /** The first reading in sorted order is the winner of the definition. */
  lemma FirstWins(bs: seq<Bucket>, q: int, t: int)
    requires FirstAt(Order(bs), q, t)
    ensures var p := Order(bs)[q]; Wins(bs, p.pos, t) && p.bucket == bs[p.pos]
  {
    var ordered := Order(bs);
    OrderMembers(bs);
    var p := ordered[q];
    forall j | 0 <= j < |bs| && Speaks(bs[j], t) ensures Finer(bs[p.pos], p.pos, bs[j], j) {
      assert Placed(bs[j], j) in ordered;
      var r :| 0 <= r < |ordered| && ordered[r] == Placed(bs[j], j);
      assert q <= r;
      assert q < r ==> PlacedLe(ordered[q], ordered[r]);
    }
  }

  lemma WinnerUnique(bs: seq<Bucket>, i: int, j: int, t: int)
    requires Wins(bs, i, t) && Wins(bs, j, t)
    ensures i == j
  {}

  /** The segments say what the winner of every second says, each second once. */
  ghost predicate Describes(out: seq<Segment>, bs: seq<Bucket>) {
    && (forall k, t | 0 <= k < |out| && out[k].Has(t) ::
          exists i :: Wins(bs, i, t) && out[k].observed == HasReadings(bs[i])
                      && out[k].down == (bs[i].verdict == Down))
    && (forall i, t | Wins(bs, i, t) :: exists k :: 0 <= k < |out| && out[k].Has(t))
    && (forall k, l, t | 0 <= k < l < |out| && out[k].Has(t) :: !out[l].Has(t))
  }

  ghost predicate Spoken(ordered: seq<Placed>, p: int, t: int)
    requires 0 <= p <= |ordered|
  {
    exists q | 0 <= q < p :: Speaks(ordered[q].bucket, t)
  }

  function SegmentsOf(pieces: seq<Interval>, b: Bucket): seq<Segment> {
    seq(|pieces|, i requires 0 <= i < |pieces| =>
      Segment(pieces[i].from, pieces[i].to, HasReadings(b), b.verdict == Down))
  }

  /** Segment `k` comes from reading `src[k]`, which is the first to speak for all of it. */
  ghost predicate FromFirst(out: seq<Segment>, src: seq<int>, ordered: seq<Placed>, p: int)
    requires 0 <= p <= |ordered|
  {
    && |src| == |out|
    && (forall k | 0 <= k < |out| ::
          && 0 <= src[k] < p
          && out[k].observed == HasReadings(ordered[src[k]].bucket)
          && out[k].down == (ordered[src[k]].bucket.verdict == Down))
    && (forall k, t | 0 <= k < |out| && out[k].Has(t) :: FirstAt(ordered, src[k], t))
  }

  ghost predicate Disjoint(out: seq<Segment>) {
    forall k, l, t | 0 <= k < l < |out| && out[k].Has(t) :: !out[l].Has(t)
  }

  ghost predicate Inside(out: seq<Segment>, t: int) {
    exists k | 0 <= k < |out| :: out[k].Has(t)
  }

  lemma InsideConcat(a: seq<Segment>, b: seq<Segment>, t: int)
    ensures Inside(a + b, t) <==> Inside(a, t) || Inside(b, t)
  {
    if Inside(a, t) {
      var k :| 0 <= k < |a| && a[k].Has(t);
      assert (a + b)[k].Has(t);
    }
    if Inside(b, t) {
      var k :| 0 <= k < |b| && b[k].Has(t);
      assert (a + b)[|a| + k].Has(t);
    }
    if Inside(a + b, t) {
      var k :| 0 <= k < |a + b| && (a + b)[k].Has(t);
      assert if k < |a| then a[k].Has(t) else b[k - |a|].Has(t);
    }
  }

  lemma PieceSegments(pieces: seq<Interval>, b: Bucket, t: int)
    ensures Inside(SegmentsOf(pieces, b), t) <==> t in Points(pieces)
  {
    Covered(pieces, t);
    if t in Points(pieces) {
      var iv :| iv in pieces && iv.Has(t);
      var k :| 0 <= k < |pieces| && pieces[k] == iv;
      assert SegmentsOf(pieces, b)[k].Has(t);
    }
    if Inside(SegmentsOf(pieces, b), t) {
      var k :| 0 <= k < |pieces| && SegmentsOf(pieces, b)[k].Has(t);
      assert pieces[k] in pieces && pieces[k].Has(t);
    }
  }

  lemma PiecesDisjoint(pieces: seq<Interval>, b: Bucket)
    requires Normal(pieces)
    ensures Disjoint(SegmentsOf(pieces, b))
  {
    var s := SegmentsOf(pieces, b);
    forall k, l, t | 0 <= k < l < |s| && s[k].Has(t) ensures !s[l].Has(t) {
      NormalAt(pieces, k, l);
    }
  }

  /** Adding the part of one reading that nothing finer speaks for. */
  lemma AddReading(out: seq<Segment>, src: seq<int>, ordered: seq<Placed>, p: nat, pieces: seq<Interval>)
    requires p < |ordered| && FromFirst(out, src, ordered, p) && Disjoint(out)
    requires Normal(pieces)
    requires forall t :: t in Points(pieces) <==> Speaks(ordered[p].bucket, t) && !Spoken(ordered, p, t)
    ensures var more := SegmentsOf(pieces, ordered[p].bucket);
            && FromFirst(out + more, src + seq(|more|, _ => p), ordered, p + 1)
            && Disjoint(out + more)
  {
    var b := ordered[p].bucket;
    var more := SegmentsOf(pieces, b);
    PiecesDisjoint(pieces, b);
    forall k, t | 0 <= k < |more| && more[k].Has(t) ensures FirstAt(ordered, p, t) {
      assert Inside(more, t);
      PieceSegments(pieces, b, t);
    }
    forall k, l, t | 0 <= k < l < |out + more| && (out + more)[k].Has(t) ensures !(out + more)[l].Has(t) {
      assert k < |out| ==> FirstAt(ordered, src[k], t);
      assert k >= |out| ==> more[k - |out|].Has(t);
      assert l >= |out| && more[l - |out|].Has(t) ==> FirstAt(ordered, p, t);
    }
  }

  lemma SpokenNext(ordered: seq<Placed>, p: nat, t: int)
    requires p < |ordered|
    ensures Spoken(ordered, p + 1, t) <==> Spoken(ordered, p, t) || Speaks(ordered[p].bucket, t)
  {}

  /** One monitor's folded readings as a non-overlapping series in which the finest wins. */
  method MonitorSegments(bs: seq<Bucket>) returns (out: seq<Segment>)
    ensures Describes(out, bs)
    ensures forall k | 0 <= k < |out| :: out[k].from < out[k].to
  {
    hide FromFirst, Spoken, Inside, Disjoint, Points, Normal, Describes, Order;
    var ordered := Order(bs);
    var covered: seq<Interval> := [];
    out := [];
    ghost var src: seq<int> := [];
    Nothing(ordered);
    for p := 0 to |ordered|
      invariant FromFirst(out, src, ordered, p) && Disjoint(out)
      invariant forall t :: t in Points(covered) <==> Spoken(ordered, p, t)
      invariant forall t :: Inside(out, t) <==> Spoken(ordered, p, t)
      invariant forall k | 0 <= k < |out| :: out[k].from < out[k].to
    {
      var b := ordered[p].bucket;
      if b.width <= 0 {
        Skip(out, src, ordered, p);
        continue;
      }
      var pieces := Subtract([Whole(b)], covered);
      WholePoints(b);
      AddReading(out, src, ordered, p, pieces);
      var more := SegmentsOf(pieces, b);
      forall t ensures Inside(out + more, t) <==> Spoken(ordered, p + 1, t) {
        InsideConcat(out, more, t);
        PieceSegments(pieces, b, t);
        SpokenNext(ordered, p, t);
      }
      forall k | 0 <= k < |more| ensures more[k].from < more[k].to {
        NormalAt(pieces, k, k);
      }
      out := out + more;
      src := src + seq(|more|, _ => p);
      PointsAppend(covered, Whole(b));
      covered := Merge(covered + [Whole(b)]);
      forall t ensures t in Points(covered) <==> Spoken(ordered, p + 1, t) {
        SpokenNext(ordered, p, t);
      }
    }
    Finished(bs, out, src);
  }

  lemma Nothing(ordered: seq<Placed>)
    ensures FromFirst([], [], ordered, 0) && Disjoint([])
    ensures forall t :: t !in Points([]) && !Inside([], t) && !Spoken(ordered, 0, t)
  {}

  lemma Skip(out: seq<Segment>, src: seq<int>, ordered: seq<Placed>, p: nat)
    requires p < |ordered| && ordered[p].bucket.width <= 0
    requires FromFirst(out, src, ordered, p)
    ensures FromFirst(out, src, ordered, p + 1)
    ensures forall t :: Spoken(ordered, p + 1, t) <==> Spoken(ordered, p, t)
  {
    forall t ensures Spoken(ordered, p + 1, t) <==> Spoken(ordered, p, t) {
      SpokenNext(ordered, p, t);
    }
  }

  lemma WholePoints(b: Bucket)
    requires b.width > 0
    ensures forall t :: t in Points([Whole(b)]) <==> Speaks(b, t)
    ensures forall t :: t in Whole(b).Points() <==> Speaks(b, t)
  {
    assert [Whole(b)] == [] + [Whole(b)];
    PointsAppend([], Whole(b));
    forall t ensures t in Whole(b).Points() <==> Speaks(b, t) {
      assert Whole(b).Has(t) <==> Speaks(b, t);
    }
  }

  lemma Finished(bs: seq<Bucket>, out: seq<Segment>, src: seq<int>)
    requires FromFirst(out, src, Order(bs), |Order(bs)|) && Disjoint(out)
    requires forall t :: Inside(out, t) <==> Spoken(Order(bs), |Order(bs)|, t)
    ensures Describes(out, bs)
  {
    hide Order;
    var ordered := Order(bs);
    OrderMembers(bs);
    forall k, t | 0 <= k < |out| && out[k].Has(t)
      ensures exists i :: Wins(bs, i, t) && out[k].observed == HasReadings(bs[i])
                          && out[k].down == (bs[i].verdict == Down)
    {
      FirstWins(bs, src[k], t);
    }
    forall i, t | Wins(bs, i, t) ensures exists k :: 0 <= k < |out| && out[k].Has(t) {
      assert Placed(bs[i], i) in ordered;
      assert Spoken(ordered, |ordered|, t);
      assert Inside(out, t);
    }
  }

  // ----- the rollup sweep -----

  ghost predicate Counts(s: Segment, t: int, onlyDown: bool) {
    s.Has(t) && s.observed && (onlyDown ==> s.down)
  }

  /** How many observed (and, when asked, down) segments hold second `t`. */
  ghost function CountAt(all: seq<Segment>, t: int, onlyDown: bool): nat {
    if all == [] then 0
    else CountAt(all[..|all| - 1], t, onlyDown) + if Counts(all[|all| - 1], t, onlyDown) then 1 else 0
  }

  lemma {:induction false} CountConcat(a: seq<Segment>, b: seq<Segment>, t: int, onlyDown: bool)
    ensures CountAt(a + b, t, onlyDown) == CountAt(a, t, onlyDown) + CountAt(b, t, onlyDown)
  {
    if b == [] {
      assert a + b == a;
    } else {
      CountConcat(a, b[..|b| - 1], t, onlyDown);
      assert (a + b)[..|a + b| - 1] == a + b[..|b| - 1];
    }
  }

  lemma {:induction false} CountDisjoint(out: seq<Segment>, t: int, onlyDown: bool)
    requires Disjoint(out)
    ensures CountAt(out, t, onlyDown) ==
            if exists k :: 0 <= k < |out| && Counts(out[k], t, onlyDown) then 1 else 0
  {
    if out != [] {
      var n := |out| - 1;
      var front := out[..n];
      assert forall k | 0 <= k < n :: front[k] == out[k];
      CountDisjoint(front, t, onlyDown);
      if exists k :: 0 <= k < n && Counts(front[k], t, onlyDown) {
        var k :| 0 <= k < n && Counts(front[k], t, onlyDown);
        assert Counts(out[k], t, onlyDown) && !out[n].Has(t);
      } else if Counts(out[n], t, onlyDown) {
        assert 0 <= n < |out| && Counts(out[n], t, onlyDown);
      }
    }
  }

  /** A monitor's segments count once where it is seen (or down), and nowhere else. */
  lemma CountMonitor(out: seq<Segment>, bs: seq<Bucket>, t: int)
    requires Describes(out, bs)
    ensures CountAt(out, t, false) == if MonitorObserved(bs, t) then 1 else 0
    ensures CountAt(out, t, true) == if MonitorDown(bs, t) then 1 else 0
  {
    CountDisjoint(out, t, false);
    CountDisjoint(out, t, true);
    if MonitorObserved(bs, t) {
      var i :| Wins(bs, i, t) && HasReadings(bs[i]);
      var k :| 0 <= k < |out| && out[k].Has(t);
      var j :| Wins(bs, j, t) && out[k].observed == HasReadings(bs[j]) && out[k].down == (bs[j].verdict == Down);
      WinnerUnique(bs, i, j, t);
      assert Counts(out[k], t, false);
      assert MonitorDown(bs, t) ==> Counts(out[k], t, true);
    }
    if k :| 0 <= k < |out| && Counts(out[k], t, false) {
      var i :| Wins(bs, i, t) && out[k].observed == HasReadings(bs[i]) && out[k].down == (bs[i].verdict == Down);
      assert MonitorObserved(bs, t);
      assert Counts(out[k], t, true) ==> MonitorDown(bs, t);
    }
    if k :| 0 <= k < |out| && Counts(out[k], t, true) {
      var i :| Wins(bs, i, t) && out[k].observed == HasReadings(bs[i]) && out[k].down == (bs[i].verdict == Down);
      assert MonitorDown(bs, t);
    }
  }

  /** The segments collected so far count, at each second, the monitors of `ids` seen and down there. */
  ghost predicate Tallies(all: seq<Segment>, bs: seq<Bucket>, ids: set<string>) {
    forall t ::
      && CountAt(all, t, false) == |SeenAt(bs, ids, t)|
      && CountAt(all, t, true) == |DownAt(bs, ids, t)|
  }

  lemma TallyMonitor(all: seq<Segment>, segs: seq<Segment>, bs: seq<Bucket>, ids: set<string>, m: string)
    requires Tallies(all, bs, ids) && m !in ids && Describes(segs, OfMonitor(bs, m))
    ensures Tallies(all + segs, bs, ids + {m})
  {
    hide Describes, CountAt, SeenAt, DownAt, OfMonitor;
    forall t ensures CountAt(all + segs, t, false) == |SeenAt(bs, ids + {m}, t)|
              ensures CountAt(all + segs, t, true) == |DownAt(bs, ids + {m}, t)|
    {
      CountConcat(all, segs, t, false);
      CountConcat(all, segs, t, true);
      CountMonitor(segs, OfMonitor(bs, m), t);
      OneMore(bs, ids, m, t);
    }
  }

  lemma OneMore(bs: seq<Bucket>, ids: set<string>, m: string, t: int)
    requires m !in ids
    ensures |SeenAt(bs, ids + {m}, t)| == |SeenAt(bs, ids, t)| + if MonitorObserved(OfMonitor(bs, m), t) then 1 else 0
    ensures |DownAt(bs, ids + {m}, t)| == |DownAt(bs, ids, t)| + if MonitorDown(OfMonitor(bs, m), t) then 1 else 0
  {
    hide MonitorObserved, MonitorDown, OfMonitor;
    OneMoreMember(SeenAt(bs, ids, t), m, MonitorObserved(OfMonitor(bs, m), t), SeenAt(bs, ids + {m}, t));
    OneMoreMember(DownAt(bs, ids, t), m, MonitorDown(OfMonitor(bs, m), t), DownAt(bs, ids + {m}, t));
  }

  lemma OneMoreMember(before: set<string>, m: string, joins: bool, after: set<string>)
    requires m !in before
    requires forall x :: x in after <==> x in before || (x == m && joins)
    ensures |after| == |before| + if joins then 1 else 0
  {
    assert after == before + if joins then {m} else {};
  }

  /** Groups readings by monitor, keeping their order. */
  method ByMonitor(bs: seq<Bucket>) returns (groups: map<string, seq<Bucket>>)
    ensures groups.Keys == Ids(bs)
    ensures forall m | m in groups :: groups[m] == OfMonitor(bs, m)
  {
    hide Ids, OfMonitor;
    groups := map[];
    NoReadings();
    for i := 0 to |bs|
      invariant groups.Keys == Ids(bs[..i])
      invariant forall m | m in groups :: groups[m] == OfMonitor(bs[..i], m)
      invariant forall m | m !in groups :: OfMonitor(bs[..i], m) == []
    {
      var b := bs[i];
      var sofar := if b.monitor in groups then groups[b.monitor] else [];
      groups := groups[b.monitor := sofar + [b]];
      AppendReading(bs[..i], b);
      assert bs[..i + 1] == bs[..i] + [b];
    }
    assert bs[..|bs|] == bs;
  }

  lemma NoReadings()
    ensures Ids([]) == {} && forall m :: OfMonitor([], m) == []
  {}

  lemma AppendReading(bs: seq<Bucket>, b: Bucket)
    ensures Ids(bs + [b]) == Ids(bs) + {b.monitor}
    ensures forall m :: OfMonitor(bs + [b], m) == OfMonitor(bs, m) + if m == b.monitor then [b] else []
  {
    assert (bs + [b])[..|bs|] == bs;
  }

  /** Every segment starts and ends on a boundary. */
  ghost predicate Bounded(all: seq<Segment>, points: set<int>) {
    forall k | 0 <= k < |all| :: all[k].from < all[k].to && all[k].from in points && all[k].to in points
  }

  /**
   Collects the segments of every monitor. The order in which a Go map is walked is
   unspecified: each round takes any monitor not yet done.
   */
  method Collect(bs: seq<Bucket>) returns (all: seq<Segment>, points: set<int>)
    ensures Tallies(all, bs, Ids(bs))
    ensures Bounded(all, points)
  {
    hide Describes, Tallies, OfMonitor;
    var groups := ByMonitor(bs);
    all, points := [], {};
    var todo := groups.Keys;
    NoTally(bs);
    while todo != {}
      invariant todo <= groups.Keys
      invariant Tallies(all, bs, groups.Keys - todo)
      invariant Bounded(all, points)
      decreases |todo|
    {
      ghost var some := Pick(todo);
      var m :| m in todo;
      var segs := MonitorSegments(groups[m]);
      TallyMonitor(all, segs, bs, groups.Keys - todo, m);
      all := all + segs;
      for k := 0 to |segs|
        invariant Bounded(all[..|all| - |segs|], points)
        invariant Bounded(segs[..k], points)
      {
        points := points + {segs[k].from, segs[k].to};
      }
      assert groups.Keys - todo + {m} == groups.Keys - (todo - {m});
      todo := todo - {m};
    }
    assert groups.Keys - todo == Ids(bs);
  }

  lemma NoTally(bs: seq<Bucket>)
    ensures forall ids | ids == {} :: Tallies([], bs, ids)
  {
    forall t ensures SeenAt(bs, {}, t) == {} && DownAt(bs, {}, t) == {} {}
  }

  ghost predicate Increasing(s: seq<int>) {
    forall i, j | 0 <= i < j < |s| :: s[i] < s[j]
  }

  method SortedPoints(points: set<int>) returns (bounds: seq<int>)
    ensures Increasing(bounds)
    ensures forall p :: p in bounds <==> p in points
  {
    var todo := points;
    bounds := [];
    while todo != {}
      invariant todo <= points
      invariant forall p :: p in bounds <==> p in points - todo
      invariant NoRepeats(bounds)
      decreases |todo|
    {
      ghost var some := Pick(todo);
      var p :| p in todo;
      bounds := bounds + [p];
      todo := todo - {p};
    }
    bounds := SortDistinct(bounds);
  }

  method SortDistinct(s: seq<int>) returns (out: seq<int>)
    requires NoRepeats(s)
    ensures Increasing(out)
    ensures forall p :: p in out <==> p in s
  {
    out := Sort(s, (a: int, b: int) => a <= b);
    SameMembers(s, out);
    NoRepeatsKept(s, out);
  }

  /** Counting the segments that cover a whole slice. */
  ghost function Covering(all: seq<Segment>, from: int, to: int, onlyDown: bool): nat {
    if all == [] then 0
    else
      var s := all[|all| - 1];
      Covering(all[..|all| - 1], from, to, onlyDown)
      + if s.from <= from && s.to >= to && s.observed && (onlyDown ==> s.down) then 1 else 0
  }

  ghost predicate NoneBetween(points: set<int>, from: int, to: int) {
    from < to && forall p | p in points :: p <= from || p >= to
  }

  /** Between two neighbouring boundaries a segment covers everything or nothing. */
  lemma {:induction false} CoveringIsCount(all: seq<Segment>, points: set<int>, from: int, to: int, t: int, onlyDown: bool)
    requires Bounded(all, points) && NoneBetween(points, from, to) && from <= t < to
    ensures Covering(all, from, to, onlyDown) == CountAt(all, t, onlyDown)
  {
    if all != [] {
      CoveringIsCount(all[..|all| - 1], points, from, to, t, onlyDown);
    }
  }

  lemma {:induction false} CountPositive(all: seq<Segment>, points: set<int>, t: int)
    requires Bounded(all, points) && CountAt(all, t, false) > 0
    ensures exists lo, hi :: lo in points && hi in points && lo <= t < hi
  {
    if Counts(all[|all| - 1], t, false) {
      var s := all[|all| - 1];
      assert s.from in points && s.to in points && s.from <= t < s.to;
    } else {
      CountPositive(all[..|all| - 1], points, t);
    }
  }

  method CountSlice(all: seq<Segment>, from: int, to: int) returns (seen: nat, isDown: nat)
    ensures seen == Covering(all, from, to, false)
    ensures isDown == Covering(all, from, to, true)
  {
    seen, isDown := 0, 0;
    for k := 0 to |all|
      invariant seen == Covering(all[..k], from, to, false)
      invariant isDown == Covering(all[..k], from, to, true)
    {
      var s := all[k];
      assert all[..k + 1][..k] == all[..k];
      if s.from > from || s.to < to || !s.observed {
        continue;
      }
      seen := seen + 1;
      if s.down {
        isDown := isDown + 1;
      }
    }
    assert all[..|all|] == all;
  }

  /** The part of the answer the sweep has reached: everything below `limit`. */
  ghost predicate Swept(bs: seq<Bucket>, rollup: string, down: seq<Interval>, observed: seq<Interval>, first: int, limit: int) {
    forall t ::
      && (t in Points(observed) <==> first <= t < limit && ComponentObserved(bs, t))
      && (t in Points(down) <==> first <= t < limit && ComponentDown(rollup, bs, t))
  }

  /**
   Rolls a component's monitors up into the seconds it was down and the seconds it was
   observed at all. Both results are the normal lists of the per-second definition, so they
   cannot depend on the order a map is walked in.
   */
  method ComponentSeries(c: ComponentInput) returns (down: seq<Interval>, observed: seq<Interval>)
    ensures down == Runs(DownSet(c.rollup, c.buckets))
    ensures observed == Runs(ObservedSet(c.buckets))
  {
    hide Tallies, Points, DownSet, ObservedSet, ComponentDown, ComponentObserved, Rule;
    var all, points := Collect(c.buckets);
    down, observed := [], [];
    if |all| == 0 {
      NothingSeen(c, all);
      return;
    }
    var bounds := SortedPoints(points);
    var rollup := if c.rollup == "" then ROLLUP_ANY else c.rollup;
    SweptNothing(c.buckets, c.rollup, if bounds == [] then 0 else bounds[0]);
    var i := 0;
    while i + 1 < |bounds|
      invariant 0 <= i && (i < |bounds| || i == 0)
      invariant |bounds| > 0 ==> Swept(c.buckets, c.rollup, down, observed, bounds[0], bounds[i])
    {
      var from, to := bounds[i], bounds[i + 1];
      var seen, isDown := CountSlice(all, from, to);
      SliceIsClear(points, bounds, i);
      SliceFacts(c, all, points, from, to);
      ghost var down0, observed0 := down, observed;
      if seen != 0 {
        observed := observed + [Interval(from, to)];
        if Rule(rollup, isDown, seen) {
          down := down + [Interval(from, to)];
        }
      }
      SweepStep(c.buckets, c.rollup, down0, observed0, bounds[0], from, to, down, observed);
      i := i + 1;
    }
    SweptAll(c, all, points, bounds, down, observed);
    down := Merge(down);
    observed := Merge(observed);
  }

  lemma SliceIsClear(points: set<int>, bounds: seq<int>, i: nat)
    requires Increasing(bounds) && i + 1 < |bounds|
    requires forall p :: p in bounds <==> p in points
    ensures NoneBetween(points, bounds[i], bounds[i + 1])
  {
    forall p | p in points ensures p <= bounds[i] || p >= bounds[i + 1] {
      var k :| 0 <= k < |bounds| && bounds[k] == p;
      assert k < i ==> bounds[k] < bounds[i];
      assert k > i + 1 ==> bounds[i + 1] < bounds[k];
    }
  }

  /** What the two counters say about every second of the slice. */
  lemma SliceFacts(c: ComponentInput, all: seq<Segment>, points: set<int>, from: int, to: int)
    requires Tallies(all, c.buckets, Ids(c.buckets)) && Bounded(all, points) && NoneBetween(points, from, to)
    ensures var seen := Covering(all, from, to, false);
            var isDown := Covering(all, from, to, true);
            var rollup := if c.rollup == "" then ROLLUP_ANY else c.rollup;
            forall t | from <= t < to ::
              && (ComponentObserved(c.buckets, t) <==> seen != 0)
              && (ComponentDown(c.rollup, c.buckets, t) <==> seen != 0 && Rule(rollup, isDown, seen))
  {
    forall t | from <= t < to
      ensures |SeenAt(c.buckets, Ids(c.buckets), t)| == Covering(all, from, to, false)
      ensures |DownAt(c.buckets, Ids(c.buckets), t)| == Covering(all, from, to, true)
    {
      CoveringIsCount(all, points, from, to, t, false);
      CoveringIsCount(all, points, from, to, t, true);
    }
  }

  lemma SweptNothing(bs: seq<Bucket>, rollup: string, first: int)
    ensures Swept(bs, rollup, [], [], first, first)
  {}

  lemma SweepStep(bs: seq<Bucket>, rollup: string, down: seq<Interval>, observed: seq<Interval>,
                  first: int, from: int, to: int, down': seq<Interval>, observed': seq<Interval>)
    requires first <= from < to && Swept(bs, rollup, down, observed, first, from)
    requires var slice := [Interval(from, to)];
             && (observed' == observed || observed' == observed + slice)
             && (down' == down || down' == down + slice)
             && forall t | from <= t < to ::
                  && (ComponentObserved(bs, t) <==> observed' == observed + slice)
                  && (ComponentDown(rollup, bs, t) <==> down' == down + slice)
    ensures Swept(bs, rollup, down', observed', first, to)
  {
    hide Points, ComponentObserved, ComponentDown;
    var iv := Interval(from, to);
    PointsAppend(observed, iv);
    PointsAppend(down, iv);
    forall t ensures t in iv.Points() <==> from <= t < to {
      assert iv.Has(t) <==> from <= t < to;
    }
  }

  lemma SweptAll(c: ComponentInput, all: seq<Segment>, points: set<int>, bounds: seq<int>,
                 down: seq<Interval>, observed: seq<Interval>)
    requires Tallies(all, c.buckets, Ids(c.buckets)) && Bounded(all, points) && all != []
    requires Increasing(bounds) && forall p :: p in bounds <==> p in points
    requires bounds != [] ==> Swept(c.buckets, c.rollup, down, observed, bounds[0], bounds[|bounds| - 1])
    ensures Points(down) == DownSet(c.rollup, c.buckets)
    ensures Points(observed) == ObservedSet(c.buckets)
  {
    hide DownSet, ObservedSet, Points;
    assert all[0].from in bounds;
    forall t | ComponentObserved(c.buckets, t) ensures bounds[0] <= t < bounds[|bounds| - 1] {
      assert CountAt(all, t, false) > 0;
      CountPositive(all, points, t);
      var lo, hi :| lo in points && hi in points && lo <= t < hi;
      assert lo in bounds && hi in bounds;
    }
    forall t
      ensures t in Points(down) <==> t in DownSet(c.rollup, c.buckets)
      ensures t in Points(observed) <==> t in ObservedSet(c.buckets)
    {
      InSets(c.rollup, c.buckets, t);
    }
  }

  lemma NothingSeen(c: ComponentInput, all: seq<Segment>)
    requires all == [] && Tallies(all, c.buckets, Ids(c.buckets))
    ensures Runs(DownSet(c.rollup, c.buckets)) == [] && Runs(ObservedSet(c.buckets)) == []
  {
    forall t ensures t !in DownSet(c.rollup, c.buckets) && t !in ObservedSet(c.buckets) {
      InSets(c.rollup, c.buckets, t);
      assert CountAt(all, t, false) == 0;
    }
    RunsUnique([]);
    assert DownSet(c.rollup, c.buckets) == {} && ObservedSet(c.buckets) == {};
  }
}