/**
 The interval algebra of internal/availability/interval.go.

 An interval is a half-open range of Unix seconds and a list of intervals stands for a set of
 seconds. Every operation is proved equal to `Runs` of a set operation, where `Runs(p)` is
 the only normal list (non-empty, increasing, strictly separated) that covers exactly `p`.
 */
module Intervals {
  import opened Sorting

  datatype Interval = Interval(from: int, to: int) {
    predicate Has(t: int) { from <= t < to }

    function Seconds(): int { if to <= from then 0 else to - from }

    ghost function Points(): set<int> { set t | from <= t < to && Has(t) }
  }

  /** The seconds a list covers. */
  ghost function Points(s: seq<Interval>): set<int> {
    if s == [] then {} else Points(s[..|s| - 1]) + s[|s| - 1].Points()
  }

  /** Sorted, non-empty and strictly separated: nothing overlaps and nothing touches. */
  ghost predicate Normal(s: seq<Interval>) {
    s != [] ==>
      var n := |s| - 1;
      && Normal(s[..n])
      && s[n].from < s[n].to
      && (n > 0 ==> s[n - 1].to < s[n].from)
  }

  lemma {:induction false} NormalAt(s: seq<Interval>, i: nat, j: nat)
    requires Normal(s) && i <= j < |s|
    ensures s[i].from < s[i].to && Normal(s[..j])
    ensures i < j ==> s[i].to < s[j].from
  {
    var n := |s| - 1;
    if j < n {
      NormalAt(s[..n], i, j);
      assert s[..n][..j] == s[..j];
    } else if i < j {
      NormalAt(s[..n], i, n - 1);
    }
  }

  lemma {:induction false} Covered(s: seq<Interval>, t: int)
    ensures t in Points(s) <==> exists iv :: iv in s && iv.Has(t)
  {
    if s != [] {
      Covered(s[..|s| - 1], t);
      assert s == s[..|s| - 1] + [s[|s| - 1]];
    }
  }

  lemma PointsAppend(s: seq<Interval>, iv: Interval)
    ensures Points(s + [iv]) == Points(s) + iv.Points()
  {
    assert (s + [iv])[..|s|] == s;
  }

  lemma {:induction false} PointsConcat(a: seq<Interval>, b: seq<Interval>)
    ensures Points(a + b) == Points(a) + Points(b)
  {
    if b == [] {
      assert a + b == a;
    } else {
      var n := |b| - 1;
      assert (a + b)[..|a + b| - 1] == a + b[..n];
      PointsConcat(a, b[..n]);
    }
  }

  lemma PointsSameMembers(a: seq<Interval>, b: seq<Interval>)
    requires forall iv :: iv in a <==> iv in b
    ensures Points(a) == Points(b)
  {
    forall t ensures t in Points(a) <==> t in Points(b) {
      Covered(a, t);
      Covered(b, t);
    }
  }

  lemma NormalAppend(s: seq<Interval>, iv: Interval)
    requires Normal(s) && iv.from < iv.to
    requires s != [] ==> s[|s| - 1].to < iv.from
    ensures Normal(s + [iv]) && Points(s + [iv]) == Points(s) + iv.Points()
  {
    PointsAppend(s, iv);
    assert (s + [iv])[..|s|] == s;
  }

  /** Where the last interval of a normal list sits. */
  lemma {:induction false} NormalLast(a: seq<Interval>)
    requires Normal(a) && a != []
    ensures forall t | t in Points(a) :: t < a[|a| - 1].to
    ensures var front := a[..|a| - 1]; forall t | t in Points(front) :: t + 1 < a[|a| - 1].from
    ensures Normal(a[..|a| - 1])
    ensures a[|a| - 1].to - 1 in a[|a| - 1].Points()
  {
    var n := |a| - 1;
    assert a[n].Has(a[n].to - 1);
    if n > 0 {
      NormalLast(a[..n]);
    }
  }

  // ----- the canonical list of a set -----

  /** Some member of a non-empty set. */
  ghost function Pick<T>(p: set<T>): (x: T)
    requires p != {}
    ensures x in p
  {
    var x :| x in p;
    x
  }

  lemma {:induction false} MaxExists(p: set<int>)
    requires p != {}
    ensures exists m :: m in p && forall t | t in p :: t <= m
    decreases |p|
  {
    var x := Pick(p);
    var rest := p - {x};
    if rest == {} {
      assert p == {x};
    } else {
      MaxExists(rest);
      var m :| m in rest && forall t | t in rest :: t <= m;
      var top := if m < x then x else m;
      forall t | t in p ensures t <= top {
        assert t == x || t in rest;
      }
    }
  }

  /** Every finite set of seconds has a normal list. */
  lemma {:induction false} RunsExist(p: set<int>)
    ensures exists out :: Normal(out) && Points(out) == p
    decreases |p|
  {
    hide WithSecond, Interval.Points;
    if p == {} {
      assert Normal([]) && Points([]) == p;
    } else {
      MaxExists(p);
      var t :| t in p && forall u | u in p :: u <= t;
      RunsExist(p - {t});
      var rest :| Normal(rest) && Points(rest) == p - {t};
      AddLast(rest, t);
      assert Points(WithSecond(rest, t)) == p;
    }
  }

  /** The normal list of a set of seconds. */
  ghost function Runs(p: set<int>): (out: seq<Interval>)
    ensures Normal(out) && Points(out) == p
  {
    RunsExist(p);
    var out :| Normal(out) && Points(out) == p;
    out
  }

  ghost function WithSecond(rest: seq<Interval>, t: int): seq<Interval> {
    var n := |rest| - 1;
    if rest != [] && rest[n].to == t
    then rest[..n] + [Interval(rest[n].from, t + 1)]
    else rest + [Interval(t, t + 1)]
  }

  lemma AddLast(rest: seq<Interval>, t: int)
    requires Normal(rest) && forall u | u in Points(rest) :: u < t
    ensures rest != [] ==> rest[|rest| - 1].to <= t
    ensures Normal(WithSecond(rest, t)) && Points(WithSecond(rest, t)) == Points(rest) + {t}
  {
    assert Interval(t, t + 1).Points() == {t};
    if rest == [] {
      NormalAppend(rest, Interval(t, t + 1));
    } else {
      LastBelow(rest, t);
      if rest[|rest| - 1].to == t {
        Widen(rest, t);
        assert Interval(rest[|rest| - 1].from, t + 1).Points() == rest[|rest| - 1].Points() + {t};
      } else {
        NormalAppend(rest, Interval(t, t + 1));
      }
    }
  }

  lemma LastBelow(rest: seq<Interval>, t: int)
    requires Normal(rest) && rest != [] && forall u | u in Points(rest) :: u < t
    ensures rest[|rest| - 1].to <= t
  {
    NormalLast(rest);
    assert rest[|rest| - 1].to - 1 in Points(rest);
  }

  lemma Widen(rest: seq<Interval>, t: int)
    requires Normal(rest) && rest != [] && rest[|rest| - 1].to <= t
    ensures var out := rest[..|rest| - 1] + [Interval(rest[|rest| - 1].from, t + 1)];
            Normal(out) && Points(out) == Points(rest) + Interval(rest[|rest| - 1].from, t + 1).Points()
  {
    var n := |rest| - 1;
    var wider := Interval(rest[n].from, t + 1);
    NormalAppend(rest[..n], wider);
    assert Points(rest) == Points(rest[..n]) + rest[n].Points();
    assert rest[n].Points() <= wider.Points();
  }

  /** Equal sets of seconds give identical lists: the normal form is unique. */
  lemma {:induction false} NormalUnique(a: seq<Interval>, b: seq<Interval>)
    requires Normal(a) && Normal(b) && Points(a) == Points(b)
    ensures a == b
    decreases |a|
  {
    if a == [] || b == [] {
      if a != [] { NormalLast(a); }
      if b != [] { NormalLast(b); }
    } else {
      NormalLast(a);
      NormalLast(b);
      var x, y := a[|a| - 1], b[|b| - 1];
      assert x.to - 1 in Points(b) && y.to - 1 in Points(a);
      assert x.to == y.to;
      SameStart(a, b);
      NormalUnique(a[..|a| - 1], b[..|b| - 1]);
      assert a == a[..|a| - 1] + [x] && b == b[..|b| - 1] + [y];
    }
  }

  lemma SameStart(a: seq<Interval>, b: seq<Interval>)
    requires Normal(a) && Normal(b) && Points(a) == Points(b)
    requires a != [] && b != [] && a[|a| - 1].to == b[|b| - 1].to
    ensures a[|a| - 1] == b[|b| - 1]
    ensures Points(a[..|a| - 1]) == Points(b[..|b| - 1])
  {
    NormalLast(a);
    NormalLast(b);
    var x, y := a[|a| - 1], b[|b| - 1];
    assert x.from < y.from ==> x.Has(y.from - 1) && y.from - 1 in Points(a);
    assert y.from < x.from ==> y.Has(x.from - 1) && x.from - 1 in Points(b);
    forall t ensures t in Points(a[..|a| - 1]) <==> t in Points(a) && t !in x.Points() {}
    forall t ensures t in Points(b[..|b| - 1]) <==> t in Points(b) && t !in y.Points() {}
  }

  lemma RunsUnique(a: seq<Interval>)
    requires Normal(a)
    ensures a == Runs(Points(a))
  {
    NormalUnique(a, Runs(Points(a)));
  }

  // ----- totals -----

  ghost function Sum(s: seq<Interval>): int {
    if s == [] then 0 else Sum(s[..|s| - 1]) + s[|s| - 1].Seconds()
  }

  lemma {:induction false} RangeSize(lo: int, hi: int)
    requires lo <= hi
    ensures |Interval(lo, hi).Points()| == hi - lo
    decreases hi - lo
  {
    if lo < hi {
      RangeSize(lo, hi - 1);
      assert Interval(lo, hi).Points() == Interval(lo, hi - 1).Points() + {hi - 1};
    }
  }

  /** The lengths of a normal list add up to the number of seconds it covers. */
  lemma {:induction false} NormalSum(a: seq<Interval>)
    requires Normal(a)
    ensures Sum(a) == |Points(a)|
  {
    if a != [] {
      var n := |a| - 1;
      NormalLast(a);
      NormalSum(a[..n]);
      RangeSize(a[n].from, a[n].to);
      assert Points(a[..n]) !! a[n].Points();
      assert |Points(a)| == |Points(a[..n])| + |a[n].Points()|;
    }
  }

  // ----- the operations -----

  predicate IntervalLe(a: Interval, b: Interval) {
    if a.from != b.from then a.from < b.from else a.to <= b.to
  }

  /** One step of the coalescing loop: `last.To` is raised in place, or `iv` is appended. */
  function Coalesce(out: seq<Interval>, iv: Interval): seq<Interval>
    requires out != []
  {
    var n := |out| - 1;
    if iv.from <= out[n].to then
      if iv.to > out[n].to then out[n := Interval(out[n].from, iv.to)] else out
    else
      out + [iv]
  }

  lemma CoalesceAdds(out: seq<Interval>, iv: Interval)
    requires out != [] && Normal(out) && iv.from < iv.to && out[|out| - 1].from <= iv.from
    ensures Normal(Coalesce(out, iv))
    ensures Points(Coalesce(out, iv)) == Points(out) + iv.Points()
    ensures Coalesce(out, iv)[|Coalesce(out, iv)| - 1].from <= iv.from
  {
    hide Interval.Points, Normal;
    var n := |out| - 1;
    if iv.from > out[n].to {
      NormalAppend(out, iv);
    } else if iv.to > out[n].to {
      assert out[n := Interval(out[n].from, iv.to)] == out[..n] + [Interval(out[n].from, iv.to)];
      Widen(out, iv.to - 1);
      Join(out[n], iv);
      JoinLast(out, iv);
    } else {
      Join(out[n], iv);
      JoinLast(out, iv);
    }
  }

  /** Two intervals that overlap or touch make one. */
  lemma Join(a: Interval, b: Interval)
    requires a.from <= b.from <= a.to && b.from < b.to
    ensures a.Points() + b.Points() == Interval(a.from, MaxOf(a.to, b.to)).Points()
  {}

  lemma JoinLast(out: seq<Interval>, iv: Interval)
    requires out != []
    ensures Points(out) + (out[|out| - 1].Points() + iv.Points()) == Points(out) + iv.Points()
  {}

  /** Sorts and coalesces overlapping or touching intervals. */
  method Merge(s: seq<Interval>) returns (out: seq<Interval>)
    ensures out == Runs(Points(s))
  {
    hide Interval.Points;
    var cp: seq<Interval> := [];
    for i := 0 to |s|
      invariant Points(cp) == Points(s[..i])
      invariant forall iv | iv in cp :: iv.from < iv.to
    {
      assert s[..i + 1] == s[..i] + [s[i]];
      PointsAppend(s[..i], s[i]);
      if s[i].to > s[i].from {
        PointsAppend(cp, s[i]);
        cp := cp + [s[i]];
      } else {
        EmptyInterval(s[i]);
      }
    }
    assert s[..|s|] == s;
    if |cp| == 0 {
      RunsUnique([]);
      return [];
    }
    cp := SortedCopy(cp);
    out := [cp[0]];
    for i := 1 to |cp|
      invariant out != [] && Normal(out)
      invariant Points(out) == Points(cp[..i])
      invariant out[|out| - 1].from <= cp[i - 1].from
    {
      assert cp[..i + 1][..i] == cp[..i];
      assert IntervalLe(cp[i - 1], cp[i]);
      CoalesceAdds(out, cp[i]);
      out := Coalesce(out, cp[i]);
    }
    assert cp[..|cp|] == cp;
    RunsUnique(out);
  }

  lemma EmptyInterval(iv: Interval)
    requires iv.to <= iv.from
    ensures iv.Points() == {}
  {}

  method SortedCopy(cp: seq<Interval>) returns (out: seq<Interval>)
    requires forall iv | iv in cp :: iv.from < iv.to
    ensures multiset(out) == multiset(cp) && Sorted(out, IntervalLe)
    ensures |out| == |cp| && Points(out) == Points(cp)
    ensures forall i | 0 <= i < |out| :: out[i].from < out[i].to
  {
    out := Sort(cp, IntervalLe);
    SameMembers(cp, out);
    PointsSameMembers(cp, out);
  }

  /** Splitting the first interval off the tail of a normal list. */
  lemma NormalFrom(a: seq<Interval>, i: nat)
    requires Normal(a) && i < |a|
    ensures Points(a[i..]) == a[i].Points() + Points(a[i + 1..])
    ensures var rest := a[i + 1..]; forall t | t in Points(rest) :: a[i].to < t
  {
    var rest := a[i + 1..];
    assert a[i..] == [a[i]] + rest;
    PointsConcat([a[i]], rest);
    assert Points([a[i]]) == Points([]) + a[i].Points();
    forall t | t in Points(rest) ensures a[i].to < t {
      Covered(rest, t);
      var iv :| iv in rest && iv.Has(t);
      var k :| 0 <= k < |rest| && rest[k] == iv;
      NormalAt(a, i, i + 1 + k);
    }
  }

  ghost predicate Before(out: seq<Interval>, x: seq<Interval>, i: nat, y: seq<Interval>, j: nat) {
    out != [] && i < |x| && j < |y| ==> out[|out| - 1].to < MaxOf(x[i].from, y[j].from)
  }

  /** What is still to come: the overlap of both tails. */
  ghost function Ahead(x: seq<Interval>, i: nat, y: seq<Interval>, j: nat): set<int>
    requires i <= |x| && j <= |y|
  {
    Points(x[i..]) * Points(y[j..])
  }

  lemma AdvanceX(x: seq<Interval>, i: nat, y: seq<Interval>, j: nat)
    requires Normal(x) && Normal(y) && i < |x| && j < |y| && x[i].to < y[j].to
    ensures Ahead(x, i, y, j) == x[i].Points() * y[j].Points() + Ahead(x, i + 1, y, j)
  {
    NormalFrom(x, i);
    NormalFrom(y, j);
  }

  lemma AdvanceY(x: seq<Interval>, i: nat, y: seq<Interval>, j: nat)
    requires Normal(x) && Normal(y) && i < |x| && j < |y| && y[j].to <= x[i].to
    ensures Ahead(x, i, y, j) == x[i].Points() * y[j].Points() + Ahead(x, i, y, j + 1)
  {
    NormalFrom(x, i);
    NormalFrom(y, j);
  }

  /** Emitting the overlap at hand keeps the output normal and behind both pointers. */
  lemma Emit(out: seq<Interval>, a: Interval, b: Interval)
    requires Normal(out) && (out != [] ==> out[|out| - 1].to < MaxOf(a.from, b.from))
    ensures var iv := Interval(MaxOf(a.from, b.from), MinOf(a.to, b.to));
            var next := if iv.to > iv.from then out + [iv] else out;
            && Normal(next)
            && Points(next) == Points(out) + a.Points() * b.Points()
            && (next != [] ==> next[|next| - 1].to <= MinOf(a.to, b.to) || next == out)
  {
    var iv := Interval(MaxOf(a.from, b.from), MinOf(a.to, b.to));
    Overlap(a, b, iv.from, iv.to);
    if iv.to > iv.from {
      NormalAppend(out, iv);
    }
  }

  /** What the two lists have in common, as a normal list. */
  method Intersect(a: seq<Interval>, b: seq<Interval>) returns (out: seq<Interval>)
    ensures out == Runs(Points(a) * Points(b))
  {
    var x := Merge(a);
    var y := Merge(b);
    out := Walk(x, y);
    RunsUnique(out);
  }

  /** The two-pointer walk of `Intersect` over both normal lists. */
  method Walk(x: seq<Interval>, y: seq<Interval>) returns (out: seq<Interval>)
    requires Normal(x) && Normal(y)
    ensures Normal(out) && Points(out) == Points(x) * Points(y)
  {
    hide Points, Interval.Points;
    out := [];
    var i, j := 0, 0;
    ghost var left := Ahead(x, i, y, j);
    Start(x, y);
    while i < |x| && j < |y|
      invariant i <= |x| && j <= |y|
      invariant Normal(out) && Before(out, x, i, y, j)
      invariant left == Ahead(x, i, y, j)
      invariant Points(out) + left == Points(x) * Points(y)
      decreases |x| - i + |y| - j
    {
      Emit(out, x[i], y[j]);
      ghost var here, done := x[i].Points() * y[j].Points(), Points(out);
      var from := MaxOf(x[i].from, y[j].from);
      var to := MinOf(x[i].to, y[j].to);
      if to > from {
        out := out + [Interval(from, to)];
      }
      ghost var rest;
      if x[i].to < y[j].to {
        AdvanceX(x, i, y, j);
        if i + 1 < |x| { NormalAt(x, i, i + 1); }
        i := i + 1;
      } else {
        AdvanceY(x, i, y, j);
        if j + 1 < |y| { NormalAt(y, j, j + 1); }
        j := j + 1;
      }
      rest := Ahead(x, i, y, j);
      Regroup(done, here, rest, left, Points(out));
      left := rest;
    }
    Finish(x, i, y, j, Points(out));
  }

  lemma Start(x: seq<Interval>, y: seq<Interval>)
    ensures Points([]) + Ahead(x, 0, y, 0) == Points(x) * Points(y)
  {
    assert x[0..] == x && y[0..] == y;
  }

  lemma Finish(x: seq<Interval>, i: nat, y: seq<Interval>, j: nat, done: set<int>)
    requires i <= |x| && j <= |y| && (i == |x| || j == |y|)
    ensures done + Ahead(x, i, y, j) == done
  {}

  lemma Regroup(done: set<int>, here: set<int>, rest: set<int>, left: set<int>, out: set<int>)
    requires left == here + rest && out == done + here
    ensures done + left == out + rest
  {}

  lemma Overlap(a: Interval, b: Interval, from: int, to: int)
    requires from == MaxOf(a.from, b.from) && to == MinOf(a.to, b.to)
    ensures a.Points() * b.Points() == Interval(from, to).Points()
    ensures to <= from ==> a.Points() * b.Points() == {}
  {}

  /** Removes `cut` from `base`. */
  method Subtract(base: seq<Interval>, cut: seq<Interval>) returns (out: seq<Interval>)
    ensures out == Runs(Points(base) - Points(cut))
  {
    var x := Merge(base);
    var y := Merge(cut);
    out := [];
    for k := 0 to |x|
      invariant Points(out) == Points(x[..k]) - Points(y)
    {
      var pieces := Pieces(x[k], y);
      assert x[..k + 1][..k] == x[..k];
      PointsConcat(out, pieces);
      DifferenceOfUnion(Points(x[..k]), x[k].Points(), Points(y));
      out := out + pieces;
    }
    assert x[..|x|] == x;
    out := Merge(out);
  }

  lemma DifferenceOfUnion(a: set<int>, b: set<int>, c: set<int>)
    ensures (a + b) - c == (a - c) + (b - c)
  {}

  /** The inner loop of `Subtract`: what the cuts leave of one interval. */
  method Pieces(b: Interval, cut: seq<Interval>) returns (out: seq<Interval>)
    requires Normal(cut)
    ensures Points(out) == b.Points() - Points(cut)
  {
    hide Interval.Points, Normal;
    var cur := b;
    out := [];
    var j := 0;
    assert cut[0..] == cut;
    while j < |cut|
      invariant j <= |cut| && cur.to == b.to
      invariant Points(out) + (cur.Points() - Points(cut[j..])) == b.Points() - Points(cut)
    {
      var c := cut[j];
      NormalFrom(cut, j);
      NormalAt(cut, j, j);
      j := j + 1;
      SplitAt(cur, c, Points(cut[j..]));
      if c.to <= cur.from {
        continue;
      }
      if c.from >= cur.to {
        break;
      }
      if c.from > cur.from {
        PointsAppend(out, Interval(cur.from, MinOf(c.from, cur.to)));
        out := out + [Interval(cur.from, MinOf(c.from, cur.to))];
      }
      if c.to >= cur.to {
        cur := Interval(cur.to, cur.to);
        EmptyInterval(cur);
        break;
      }
      cur := Interval(c.to, cur.to);
    }
    if cur.to > cur.from {
      PointsAppend(out, cur);
      out := out + [cur];
    } else {
      EmptyInterval(cur);
    }
  }

  /** What one cut `c`, and the later ones, leave of the current piece. */
  lemma SplitAt(cur: Interval, c: Interval, later: set<int>)
    requires c.from < c.to && forall t | t in later :: c.to < t
    ensures var cuts := c.Points() + later;
            && (c.to <= cur.from ==> cur.Points() - cuts == cur.Points() - later)
            && (c.from >= cur.to ==> cur.Points() - cuts == cur.Points())
            && (c.from < cur.to && cur.from < c.to ==>
                  var head := if c.from > cur.from then Interval(cur.from, MinOf(c.from, cur.to)).Points() else {};
                  cur.Points() - cuts
                  == head + (if c.to >= cur.to then {} else Interval(c.to, cur.to).Points() - later))
  {}

  /** The number of seconds a list covers. */
  method Total(s: seq<Interval>) returns (sum: int)
    ensures sum == |Points(s)|
  {
    var m := Merge(s);
    sum := 0;
    for i := 0 to |m|
      invariant sum == Sum(m[..i])
    {
      assert m[..i + 1][..i] == m[..i];
      sum := sum + m[i].Seconds();
    }
    assert m[..|m|] == m;
    NormalSum(m);
  }

  /** Restricts a list to a window. */
  method Clip(s: seq<Interval>, from: int, to: int) returns (out: seq<Interval>)
    ensures out == Runs(Points(s) * Interval(from, to).Points())
  {
    out := Intersect(s, [Interval(from, to)]);
    assert [Interval(from, to)] == [] + [Interval(from, to)];
    PointsAppend([], Interval(from, to));
    assert Points([Interval(from, to)]) == Interval(from, to).Points();
  }

  /** Cutting and intersecting split a list exactly: no second is lost or counted twice. */
  lemma SplitConserves(a: seq<Interval>, b: seq<Interval>)
    ensures Sum(Runs(Points(a) - Points(b))) + Sum(Runs(Points(a) * Points(b))) == Sum(Runs(Points(a)))
  {
    hide Points, Normal;
    NormalSum(Runs(Points(a) - Points(b)));
    NormalSum(Runs(Points(a) * Points(b)));
    NormalSum(Runs(Points(a)));
    SplitSize(Points(a), Points(b));
  }

  lemma SplitSize(a: set<int>, b: set<int>)
    ensures |a - b| + |a * b| == |a|
  {
    assert a == (a - b) + a * b;
  }

  function MaxOf(a: int, b: int): int { if a > b then a else b }

  function MinOf(a: int, b: int): int { if a < b then a else b }
}
