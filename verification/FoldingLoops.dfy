/**
 The two grouping loops of `foldMinutes` and `foldHours` (internal/core/samples.go): readings
 into minute rows, and minute rows into hour rows, one accumulator per (monitor, start).
 */
module FoldingLoops {
  import opened Sorting
  import opened Intervals
  import opened Model
  import opened Series
  import opened Decimal
  import opened Folding
  import opened Evidence
  import opened EvidenceMeaning

  function MinuteOfTime(t: int): int { Quo(t, WIDTH_MINUTE) * WIDTH_MINUTE }

  type Key = (string, int)

  // ----- folding readings into minutes -----

  function MinuteKey(r: Reading): Key { (r.monitor, MinuteOfTime(r.startedAt)) }

  function Group(rs: seq<Reading>, k: Key): seq<Reading> {
    if rs == [] then []
    else
      var front := Group(rs[..|rs| - 1], k);
      if MinuteKey(rs[|rs| - 1]) == k then front + [rs[|rs| - 1]] else front
  }

  lemma {:induction false} GroupMembers(rs: seq<Reading>, k: Key)
    ensures forall r :: r in Group(rs, k) <==> r in rs && MinuteKey(r) == k
    ensures Distinct(rs) ==> Distinct(Group(rs, k))
  {
    if rs != [] {
      var n := |rs| - 1;
      var front := Group(rs[..n], k);
      GroupMembers(rs[..n], k);
      assert rs == rs[..n] + [rs[n]];
      if Distinct(rs) {
        forall i | 0 <= i < |front| ensures front[i].id != rs[n].id {
          assert front[i] in rs[..n];
          var j :| 0 <= j < n && rs[j] == front[i];
        }
      }
    }
  }

  ghost predicate Distinct(rs: seq<Reading>) {
    forall i, j | 0 <= i < j < |rs| :: rs[i].id != rs[j].id
  }

  /** The row a minute of one monitor folds to. */
  function MinuteRow(rs: seq<Reading>, k: Key): Bucket
    requires Group(rs, k) != []
  {
    RowOf(k.0, Group(rs, k)[0].component, k.1, WIDTH_MINUTE, TallyReadings(Group(rs, k)))
  }

  /** The accumulator of one key has seen exactly the readings of that key. */
  ghost predicate Tracks(f: Fold, rs: seq<Reading>, k: Key)
    reads f
  {
    && Group(rs, k) != []
    && f.monitor == k.0 && f.start == k.1 && f.width == WIDTH_MINUTE
    && f.component == Group(rs, k)[0].component
    && f.State() == TallyReadings(Group(rs, k))
  }

  /** The accumulators in use, one per key, none shared. */
  ghost predicate Tracking(folds: map<Key, Fold>, rs: seq<Reading>)
    reads folds.Values
  {
    && (forall k | k in folds :: Tracks(folds[k], rs, k))
    && (forall k | k !in folds :: Group(rs, k) == [])
    && (forall k, l | k in folds && l in folds && k != l :: folds[k] != folds[l])
  }

  lemma GroupAppend(rs: seq<Reading>, r: Reading)
    ensures forall k :: Group(rs + [r], k) == if MinuteKey(r) == k then Group(rs, k) + [r] else Group(rs, k)
  {
    assert (rs + [r])[..|rs|] == rs;
  }

  lemma TallyAppend(rs: seq<Reading>, r: Reading)
    ensures TallyReadings(rs + [r]) == WithReading(TallyReadings(rs), r)
  {
    assert (rs + [r])[..|rs|] == rs;
  }

  /** The body of the folding loop: find or make the accumulator, and add the reading. */
  method AddReading(folds: map<Key, Fold>, ghost rs: seq<Reading>, r: Reading) returns (next: map<Key, Fold>)
    requires Tracking(folds, rs)
    modifies folds.Values
    ensures Tracking(next, rs + [r])
    ensures forall k | k in next :: (k in folds && next[k] == folds[k]) || fresh(next[k])
  {
    hide Group, TallyReadings, WithReading;
    var k := MinuteKey(r);
    GroupAppend(rs, r);
    TallyAppend(Group(rs, k), r);
    next := folds;
    if k !in folds {
      TallyNone();
      var f := new Fold(r.monitor, r.component, k.1, WIDTH_MINUTE);
      next := folds[k := f];
    }
    next[k].AddReading(r);
  }

  method CollectMinutes(rs: seq<Reading>) returns (out: seq<Bucket>)
    ensures UniqueKeys(out)
    ensures forall b :: b in out <==> exists k :: Group(rs, k) != [] && b == MinuteRow(rs, k)
  {
    hide Group, TallyReadings, WithReading, UniqueKeys;
    var folds: map<Key, Fold> := map[];
    GroupNone();
    for i := 0 to |rs|
      invariant forall k | k in folds :: fresh(folds[k])
      invariant Tracking(folds, rs[..i])
    {
      assert rs[..i + 1] == rs[..i] + [rs[i]];
      folds := AddReading(folds, rs[..i], rs[i]);
    }
    assert rs[..|rs|] == rs;
    var todo := folds.Keys;
    out := [];
    NoRows();
    while todo != {}
      invariant todo <= folds.Keys
      invariant Tracking(folds, rs)
      invariant UniqueKeys(out)
      invariant forall b :: b in out <==> exists k :: k in folds && k !in todo && b == MinuteRow(rs, k)
      decreases |todo|
    {
      ghost var some := Pick(todo);
      var k :| k in todo;
      var b := folds[k].Row();
      AddUnique(out, b, todo, folds.Keys, rs, k);
      out := out + [b];
      todo := todo - {k};
    }
  }

  lemma GroupNone()
    ensures forall k :: Group([], k) == []
  {}

  lemma TallyNone()
    ensures TallyReadings([]) == EMPTY
  {}

  lemma NoRows()
    ensures UniqueKeys([])
  {}

  lemma AddUnique(out: seq<Bucket>, b: Bucket, todo: set<Key>, keys: set<Key>, rs: seq<Reading>, k: Key)
    requires UniqueKeys(out) && k in todo && todo <= keys && Group(rs, k) != [] && b == MinuteRow(rs, k)
    requires forall x | x in keys :: Group(rs, x) != []
    requires forall x :: x in out <==> exists l :: l in keys && l !in todo && x == MinuteRow(rs, l)
    ensures UniqueKeys(out + [b])
  {
    forall i | 0 <= i < |out|
      ensures out[i].monitor != b.monitor || out[i].width != b.width || out[i].start != b.start
    {
      assert out[i] in out;
      var l :| l in keys && l !in todo && out[i] == MinuteRow(rs, l);
    }
  }

  // ----- folding minutes into hours -----

  function HourKey(b: Bucket): Key { (b.monitor, HourOf(b.start)) }

  function HourGroup(bs: seq<Bucket>, k: Key): seq<Bucket> {
    if bs == [] then []
    else
      var front := HourGroup(bs[..|bs| - 1], k);
      if HourKey(bs[|bs| - 1]) == k then front + [bs[|bs| - 1]] else front
  }

  lemma {:induction false} HourGroupMembers(bs: seq<Bucket>, k: Key)
    ensures forall b :: b in HourGroup(bs, k) <==> b in bs && HourKey(b) == k
    ensures UniqueKeys(bs) ==> UniqueKeys(HourGroup(bs, k))
  {
    if bs != [] {
      var n := |bs| - 1;
      HourGroupMembers(bs[..n], k);
      assert bs == bs[..n] + [bs[n]];
      if UniqueKeys(bs) && HourKey(bs[n]) == k {
        NewKey(bs[..n], HourGroup(bs[..n], k), bs[n]);
      }
    }
  }

  ghost predicate AllCounted(bs: seq<Bucket>) { forall b | b in bs :: Counted(b) }

  /** The row an hour of one monitor folds to. */
  function HourRow(bs: seq<Bucket>, k: Key): Bucket
    requires AllCounted(bs) && HourGroup(bs, k) != []
  {
    HourGroupMembers(bs, k);
    RowOf(k.0, HourGroup(bs, k)[0].component, k.1, WIDTH_HOUR, TallyBuckets(HourGroup(bs, k)))
  }

  ghost predicate HourTracks(f: Fold, bs: seq<Bucket>, k: Key)
    requires AllCounted(HourGroup(bs, k))
    reads f
  {
    && HourGroup(bs, k) != []
    && f.monitor == k.0 && f.start == k.1 && f.width == WIDTH_HOUR
    && f.component == HourGroup(bs, k)[0].component
    && f.State() == TallyBuckets(HourGroup(bs, k))
  }

  ghost predicate HourTracking(folds: map<Key, Fold>, bs: seq<Bucket>)
    requires AllCounted(bs)
    reads folds.Values
  {
    && (forall k | k in folds :: HourGroupMembers(bs, k); HourTracks(folds[k], bs, k))
    && (forall k | k !in folds :: HourGroup(bs, k) == [])
    && (forall k, l | k in folds && l in folds && k != l :: folds[k] != folds[l])
  }

  lemma HourGroupAppend(bs: seq<Bucket>, b: Bucket)
    ensures forall k :: HourGroup(bs + [b], k) == if HourKey(b) == k then HourGroup(bs, k) + [b] else HourGroup(bs, k)
  {
    assert (bs + [b])[..|bs|] == bs;
  }

  lemma BucketsAppend(bs: seq<Bucket>, b: Bucket)
    requires AllCounted(bs) && Counted(b)
    ensures AllCounted(bs + [b]) && TallyBuckets(bs + [b]) == WithBucket(TallyBuckets(bs), b)
  {
    assert (bs + [b])[..|bs|] == bs;
  }

  lemma BucketsNone()
    ensures AllCounted([]) && TallyBuckets([]) == EMPTY
  {}

  method AddRow(folds: map<Key, Fold>, ghost bs: seq<Bucket>, b: Bucket) returns (next: map<Key, Fold>)
    requires AllCounted(bs) && Counted(b) && HourTracking(folds, bs)
    modifies folds.Values
    ensures AllCounted(bs + [b]) && HourTracking(next, bs + [b])
    ensures forall k | k in next :: (k in folds && next[k] == folds[k]) || fresh(next[k])
  {
    hide HourGroup, TallyBuckets, WithBucket;
    var k := HourKey(b);
    HourGroupMembers(bs, k);
    HourGroupAppend(bs, b);
    BucketsAppend(HourGroup(bs, k), b);
    next := folds;
    if k !in folds {
      BucketsNone();
      var f := new Fold(b.monitor, b.component, k.1, WIDTH_HOUR);
      next := folds[k := f];
    }
    next[k].AddBucket(b);
  }

  method CollectHours(bs: seq<Bucket>) returns (out: seq<Bucket>)
    requires AllCounted(bs)
    ensures UniqueKeys(out)
    ensures forall b :: b in out <==> exists k :: HourGroup(bs, k) != [] && b == HourRow(bs, k)
  {
    hide HourGroup, TallyBuckets, WithBucket, UniqueKeys;
    var folds: map<Key, Fold> := map[];
    HourGroupNone();
    for i := 0 to |bs|
      invariant forall k | k in folds :: fresh(folds[k])
      invariant AllCounted(bs[..i]) && HourTracking(folds, bs[..i])
    {
      assert bs[..i + 1] == bs[..i] + [bs[i]];
      folds := AddRow(folds, bs[..i], bs[i]);
    }
    assert bs[..|bs|] == bs;
    var todo := folds.Keys;
    out := [];
    NoRows();
    while todo != {}
      invariant todo <= folds.Keys
      invariant HourTracking(folds, bs)
      invariant UniqueKeys(out)
      invariant forall b :: b in out <==> exists k :: k in folds && k !in todo && b == HourRow(bs, k)
      decreases |todo|
    {
      ghost var some := Pick(todo);
      var k :| k in todo;
      var b := folds[k].Row();
      HourUnique(out, b, todo, folds.Keys, bs, k);
      out := out + [b];
      todo := todo - {k};
    }
  }

  lemma HourGroupNone()
    ensures forall k :: HourGroup([], k) == []
  {}

  lemma HourUnique(out: seq<Bucket>, b: Bucket, todo: set<Key>, keys: set<Key>, bs: seq<Bucket>, k: Key)
    requires AllCounted(bs) && UniqueKeys(out) && k in todo && todo <= keys
    requires HourGroup(bs, k) != [] && b == HourRow(bs, k)
    requires forall x | x in keys :: HourGroup(bs, x) != []
    requires forall x :: x in out <==> exists l :: l in keys && l !in todo && x == HourRow(bs, l)
    ensures UniqueKeys(out + [b])
  {
    forall i | 0 <= i < |out|
      ensures out[i].monitor != b.monitor || out[i].width != b.width || out[i].start != b.start
    {
      assert out[i] in out;
      var l :| l in keys && l !in todo && out[i] == HourRow(bs, l);
    }
  }
}
