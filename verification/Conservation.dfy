/** What the calculation of `Availability.Compute` keeps: no second is lost or counted twice. */
module Conservation {
  import opened Sorting
  import opened Intervals
  import opened Series
  import opened Ratios
  import opened Availability

  function SumGaps(gaps: seq<Gap>): int {
    if gaps == [] then 0 else SumGaps(gaps[..|gaps| - 1]) + gaps[|gaps| - 1].seconds
  }

  function SumOutages(outages: seq<Outage>): int {
    if outages == [] then 0 else SumOutages(outages[..|outages| - 1]) + outages[|outages| - 1].seconds
  }

  function SumDowntime(results: seq<ComponentResult>): int {
    if results == [] then 0 else SumDowntime(results[..|results| - 1]) + results[|results| - 1].downtime
  }

  lemma {:induction false} AppliedInside(exs: seq<Exclusion>, scheduled: set<int>)
    ensures AppliedSet(exs, scheduled) <= scheduled
  {
    if exs != [] { AppliedInside(exs[..|exs| - 1], scheduled); }
  }

  lemma SizeOfPart(part: set<int>, whole: set<int>)
    requires part <= whole
    ensures |part| + |whole - part| == |whole| && |part| <= |whole|
  {
    assert whole == part + (whole - part);
  }

  /** Net and excluded time make up the scheduled time. */
  lemma NetAndExcluded(inp: Input)
    ensures var ast := Expected(inp).ast; ast.net + ast.excluded == ast.scheduled && ast.net >= 0
    ensures Sum(Expected(inp).ast.intervals) == Expected(inp).ast.scheduled
  {
    AppliedInside(inp.exclusions, ScheduledSet(inp));
    SizeOfPart(AppliedSet(inp.exclusions, ScheduledSet(inp)), ScheduledSet(inp));
    NormalSum(Runs(ScheduledSet(inp)));
  }

  lemma {:induction false} GapSum(runs: seq<Interval>)
    ensures SumGaps(GapsOf(runs)) == Sum(runs)
  {
    if runs != [] {
      GapSum(runs[..|runs| - 1]);
      assert GapsOf(runs)[..|runs| - 1] == GapsOf(runs[..|runs| - 1]);
    }
  }

  lemma {:induction false} ServiceSets(cs: seq<ComponentInput>, net: set<int>)
    ensures ServiceDown(cs, net) <= ServiceObserved(cs, net) <= net
    ensures forall i | 0 <= i < |cs| :: DownIn(cs[i], net) <= ServiceDown(cs, net)
    ensures forall i | 0 <= i < |cs| :: DownIn(cs[i], net) <= ObservedIn(cs[i], net) <= ServiceObserved(cs, net)
  {
    hide DownSet, ObservedSet;
    if cs != [] {
      var n := |cs| - 1;
      ServiceSets(cs[..n], net);
      DownInsideObserved(cs[n]);
      forall i | 0 <= i < |cs|
        ensures DownIn(cs[i], net) <= ServiceDown(cs, net)
        ensures DownIn(cs[i], net) <= ObservedIn(cs[i], net) <= ServiceObserved(cs, net)
      {
        if i < n { assert cs[..n][i] == cs[i]; }
      }
    }
  }

  lemma DownInsideObserved(c: ComponentInput)
    ensures DownSet(c.rollup, c.buckets) <= ObservedSet(c.buckets)
  {}

  /** Observed time and gaps make up the net time, and downtime is always observed time. */
  lemma ObservedAndGaps(inp: Input)
    ensures var e := Expected(inp);
            && e.results.observedSeconds + SumGaps(e.gaps) == e.ast.net
            && 0 <= e.downtime.seconds <= e.results.observedSeconds <= e.ast.net
  {
    hide Points, Normal, ServiceDown, ServiceObserved, NetSet, DownIn, ObservedIn, ResultOf, AllOutages, Kept;
    var cs, net := inp.components, NetSet(inp);
    ServiceSets(cs, net);
    var seen := ServiceObserved(cs, net);
    SizeOfPart(seen, net);
    SizeOfPart(ServiceDown(cs, net), seen);
    GapSum(Runs(net - seen));
    NormalSum(Runs(net - seen));
  }

  lemma {:induction false} SumOfDowntimes(cs: seq<ComponentInput>, net: set<int>, results: seq<ComponentResult>)
    requires |results| == |cs| && forall i | 0 <= i < |cs| :: results[i] == ResultOf(cs[i], net)
    ensures |ServiceDown(cs, net)| <= SumDowntime(results)
    ensures SumOutages(AllOutages(cs, net)) == SumDowntime(results)
  {
    hide DownIn;
    if cs != [] {
      var n := |cs| - 1;
      SumOfDowntimes(cs[..n], net, results[..n]);
      UnionSize(ServiceDown(cs[..n], net), DownIn(cs[n], net));
      var runs := Runs(DownIn(cs[n], net));
      OutageSum(cs[n].id, runs);
      NormalSum(runs);
      OutageConcat(AllOutages(cs[..n], net), OutagesOf(cs[n].id, runs));
    }
  }

  lemma UnionSize(a: set<int>, b: set<int>)
    ensures |a + b| <= |a| + |b|
  {
    assert a + b == a + (b - a);
    SizeOfPart(b - a, b);
  }

  lemma {:induction false} OutageSum(id: string, runs: seq<Interval>)
    ensures SumOutages(OutagesOf(id, runs)) == Sum(runs)
  {
    if runs != [] {
      OutageSum(id, runs[..|runs| - 1]);
      assert OutagesOf(id, runs)[..|runs| - 1] == OutagesOf(id, runs[..|runs| - 1]);
    }
  }

  lemma {:induction false} OutageConcat(a: seq<Outage>, b: seq<Outage>)
    ensures SumOutages(a + b) == SumOutages(a) + SumOutages(b)
  {
    if b == [] {
      assert a + b == a;
    } else {
      OutageConcat(a, b[..|b| - 1]);
      assert (a + b)[..|a + b| - 1] == a + b[..|b| - 1];
    }
  }

  /**
   The service is down at least as long as its worst component and at most as long as all of
   them together, and the outages listed add up to the component downtimes.
   */
  lemma ServiceDowntimeBounds(inp: Input)
    ensures var e := Expected(inp);
            && (forall i | 0 <= i < |e.components| ::
                  0 <= e.components[i].downtime <= e.downtime.seconds)
            && e.downtime.seconds <= SumDowntime(e.components)
            && SumOutages(e.outages) == SumDowntime(e.components)
  {
    hide Points, Normal, NetSet, DownIn, ServiceDown;
    var cs, net := inp.components, NetSet(inp);
    SumOfDowntimes(cs, net, Expected(inp).components);
    ServiceSets(cs, net);
    forall i | 0 <= i < |cs| ensures |DownIn(cs[i], net)| <= |ServiceDown(cs, net)| {
      SizeOfPart(DownIn(cs[i], net), ServiceDown(cs, net));
    }
  }

  /** The seconds of the outages listed for one component. */
  function SumFor(outages: seq<Outage>, id: string): int {
    if outages == [] then 0
    else
      var o := outages[|outages| - 1];
      SumFor(outages[..|outages| - 1], id) + if o.component == id then o.seconds else 0
  }

  lemma {:induction false} SumForConcat(a: seq<Outage>, b: seq<Outage>, id: string)
    ensures SumFor(a + b, id) == SumFor(a, id) + SumFor(b, id)
  {
    if b == [] {
      assert a + b == a;
    } else {
      SumForConcat(a, b[..|b| - 1], id);
      assert (a + b)[..|a + b| - 1] == a + b[..|b| - 1];
    }
  }

  lemma Without(b: seq<Outage>, k: nat, id: string)
    requires k < |b|
    ensures multiset(b[..k] + b[k + 1..]) == multiset(b) - multiset{b[k]}
    ensures SumFor(b, id) == SumFor(b[..k] + b[k + 1..], id) + if b[k].component == id then b[k].seconds else 0
  {
    hide SumFor;
    var front, one, back := b[..k], [b[k]], b[k + 1..];
    assert b == front + one + back;
    SumForConcat(front + one, back, id);
    SumForConcat(front, one, id);
    SumForConcat(front, back, id);
    SumForOne(b[k], id);
  }

  lemma SumForOne(o: Outage, id: string)
    ensures SumFor([o], id) == if o.component == id then o.seconds else 0
  {
    assert [o][..0] == [];
  }

  /** The order of the list does not matter. */
  lemma {:induction false} SumForPermutation(a: seq<Outage>, b: seq<Outage>, id: string)
    requires multiset(a) == multiset(b)
    ensures SumFor(a, id) == SumFor(b, id)
  {
    SameMembers(a, b);
    if a == [] {
    } else {
      hide SumFor;
      var n := |a| - 1;
      assert a[n] in a;
      var k :| 0 <= k < |b| && b[k] == a[n];
      Without(a, n, id);
      Without(b, k, id);
      SumForPermutation(a[..n] + a[n + 1..], b[..k] + b[k + 1..], id);
    }
  }

  lemma {:induction false} OutagesSumFor(id: string, runs: seq<Interval>, other: string)
    ensures SumFor(OutagesOf(id, runs), other) == if id == other then Sum(runs) else 0
  {
    if runs != [] {
      OutagesSumFor(id, runs[..|runs| - 1], other);
      assert OutagesOf(id, runs)[..|runs| - 1] == OutagesOf(id, runs[..|runs| - 1]);
    }
  }

  lemma {:induction false} ListedForOne(cs: seq<ComponentInput>, net: set<int>, id: string)
    requires DistinctComponents(cs)
    ensures forall i | 0 <= i < |cs| && cs[i].id == id :: SumFor(AllOutages(cs, net), id) == |DownIn(cs[i], net)|
    ensures (forall i | 0 <= i < |cs| :: cs[i].id != id) ==> SumFor(AllOutages(cs, net), id) == 0
  {
    hide DownIn, OutagesOf, SumFor, Normal, Points;
    if cs == [] {
      NoneListed(id);
    } else {
      var n := |cs| - 1;
      var runs := Runs(DownIn(cs[n], net));
      ListedForOne(cs[..n], net, id);
      OutagesSumFor(cs[n].id, runs, id);
      NormalSum(runs);
      SumForConcat(AllOutages(cs[..n], net), OutagesOf(cs[n].id, runs), id);
      assert forall i | 0 <= i < n :: cs[..n][i] == cs[i];
      assert cs[n].id == id ==> forall i | 0 <= i < n :: cs[..n][i].id != id;
    }
  }

  lemma NoneListed(id: string)
    ensures SumFor([], id) == 0
  {}

  /** In any order of the list, the outages of each component sum to its downtime. */
  lemma OutagesSumToDowntime(inp: Input, outages: seq<Outage>, i: nat)
    requires DistinctComponents(inp.components) && multiset(outages) == multiset(Expected(inp).outages)
    requires i < |inp.components|
    ensures |Expected(inp).components| == |inp.components|
    ensures SumFor(outages, inp.components[i].id) == Expected(inp).components[i].downtime
  {
    hide NetSet, DownIn, ServiceDown, ServiceObserved, Kept, UserSeconds, UserOutage, AllOutages, SumFor, Scores, DowntimeOf, ResultsOf;
    ListedForOne(inp.components, NetSet(inp), inp.components[i].id);
    SumForPermutation(outages, Expected(inp).outages, inp.components[i].id);
  }

  predicate DistinctComponents(cs: seq<ComponentInput>) {
    forall i, j | 0 <= i < j < |cs| :: cs[i].id != cs[j].id
  }

  /** Component ids are primary keys, so every listed outage belongs to one component's down time. */
  lemma {:induction false} OutageMembers(cs: seq<ComponentInput>, net: set<int>, o: Outage)
    ensures o in AllOutages(cs, net)
            <==> exists i, k :: 0 <= i < |cs| && 0 <= k < |Runs(DownIn(cs[i], net))|
                                && o == OutagesOf(cs[i].id, Runs(DownIn(cs[i], net)))[k]
  {
    hide DownIn, OutagesOf;
    if cs != [] {
      var n := |cs| - 1;
      OutageMembers(cs[..n], net, o);
      OutagesLength(cs[n].id, Runs(DownIn(cs[n], net)));
      assert forall i | 0 <= i < n :: cs[..n][i] == cs[i];
      forall i | 0 <= i < |cs| ensures |OutagesOf(cs[i].id, Runs(DownIn(cs[i], net)))| == |Runs(DownIn(cs[i], net))| {
        OutagesLength(cs[i].id, Runs(DownIn(cs[i], net)));
      }
    }
  }

  lemma OutagesLength(id: string, runs: seq<Interval>)
    ensures |OutagesOf(id, runs)| == |runs|
  {}

  /** Two outages of one component never overlap and never touch. */
  lemma OutagesSeparate(inp: Input, a: Outage, b: Outage)
    requires DistinctComponents(inp.components)
    requires a in Expected(inp).outages && b in Expected(inp).outages && a.component == b.component
    ensures a == b || a.to < b.from || b.to < a.from
    ensures a.from < a.to && a.seconds == a.to - a.from
  {
    hide Points, DownIn, NetSet, ServiceDown, ServiceObserved, ResultOf, Kept;
    var cs, net := inp.components, NetSet(inp);
    OutageMembers(cs, net, a);
    OutageMembers(cs, net, b);
    var i, k :| 0 <= i < |cs| && 0 <= k < |Runs(DownIn(cs[i], net))|
                && a == OutagesOf(cs[i].id, Runs(DownIn(cs[i], net)))[k];
    var j, l :| 0 <= j < |cs| && 0 <= l < |Runs(DownIn(cs[j], net))|
                && b == OutagesOf(cs[j].id, Runs(DownIn(cs[j], net)))[l];
    assert i == j;
    var runs := Runs(DownIn(cs[i], net));
    NormalAt(runs, if k <= l then k else l, if k <= l then l else k);
    NormalAt(runs, k, k);
  }

  lemma {:induction false} UserBounds(cs: seq<ComponentInput>, net: set<int>)
    requires forall c | c in cs :: c.userWeight >= 0
    ensures 0 <= UserOutage(cs, net) <= UserSeconds(cs, net)
  {
    hide DownSet, ObservedSet;
    if cs != [] {
      var n := |cs| - 1;
      UserBounds(cs[..n], net);
      SizeOfPart(DownIn(cs[n], net), net);
      var w := cs[n].userWeight;
      assert cs[n] in cs;
      assert w * |DownIn(cs[n], net)| <= w * |net| && 0 <= w * |DownIn(cs[n], net)| by {
        Scaled(|DownIn(cs[n], net)|, |net|, w);
      }
    }
  }

  lemma Scaled(a: int, b: int, w: int)
    requires 0 <= a <= b && w >= 0
    ensures 0 <= w * a <= w * b
  {}

  /** With non-negative weights no user loses more time than was agreed. */
  lemma UserTimeBounds(inp: Input)
    requires forall c | c in inp.components :: c.userWeight >= 0
    ensures var r := Expected(inp).results; 0 <= r.userOutageSeconds <= r.potentialUserSeconds
  {
    hide UserOutage, UserSeconds, NetSet;
    UserBounds(inp.components, NetSet(inp));
  }

  predicate Percentage(ppm: int) { 0 <= ppm <= PPM }

  /** Every figure the calculation reports lies between nothing and the whole. */
  lemma FiguresAreShares(inp: Input)
    ensures var e := Expected(inp);
            && Percentage(e.results.availabilityPPM)
            && Percentage(e.results.userAvailabilityPPM)
            && Percentage(e.results.coveragePPM)
            && forall i | 0 <= i < |e.components| ::
                 Percentage(e.components[i].availabilityPPM) && Percentage(e.components[i].coveragePPM)
  {
    hide NetSet, ServiceDown, ServiceObserved, DownIn, ObservedIn, AllOutages, Kept, DowntimeOf, UserSeconds, UserOutage;
  }

  /** The headline figure is the exact share of net time that was not down, to the nearest ppm. */
  lemma HeadlineIsNearest(inp: Input)
    requires Expected(inp).ast.net > 0
    ensures var e := Expected(inp);
            var up := e.ast.net - e.downtime.seconds;
            -e.ast.net < 2 * (e.results.availabilityPPM * e.ast.net - PPM * up) <= e.ast.net
  {
    ObservedAndGaps(inp);
    hide NetSet, ServiceDown, ServiceObserved, DownIn, ObservedIn, AllOutages, Kept, ResultOf, UserSeconds, UserOutage;
  }

  lemma {:induction false} LongestIsMax(runs: seq<Interval>)
    ensures forall i | 0 <= i < |runs| :: runs[i].Seconds() <= LongestOf(runs)
    ensures LongestOf(runs) == 0 || exists i :: 0 <= i < |runs| && runs[i].Seconds() == LongestOf(runs)
    ensures 0 <= LongestOf(runs) <= Sum(runs)
  {
    if runs != [] {
      var n := |runs| - 1;
      LongestIsMax(runs[..n]);
      if LongestOf(runs) != runs[n].Seconds() && LongestOf(runs) != 0 {
        var i :| 0 <= i < n && runs[..n][i].Seconds() == LongestOf(runs[..n]);
        assert runs[i].Seconds() == LongestOf(runs);
      }
      forall i | 0 <= i < |runs| ensures runs[i].Seconds() <= LongestOf(runs) {
        if i < n { assert runs[..n][i] == runs[i]; }
      }
    }
  }

  /** Mean times are averages: outages times their mean never exceed the time there was. */
  lemma MeansAreAverages(inp: Input)
    ensures var e := Expected(inp);
            && e.downtime.outages * e.downtime.mtrs <= e.downtime.seconds
            && e.downtime.outages * e.downtime.mtbf <= e.ast.net - e.downtime.seconds
            && e.downtime.mtrs <= e.downtime.longest <= e.downtime.seconds
  {
    hide Points, Normal, NetSet, DownIn, ServiceDown, ServiceObserved, AllOutages, Kept, ResultOf, DowntimeOf;
    ServiceSets(inp.components, NetSet(inp));
    Means(NetSet(inp), ServiceDown(inp.components, NetSet(inp)));
  }

  lemma Means(net: set<int>, down: set<int>)
    requires down <= net
    ensures var d := DowntimeOf(net, down);
            && d.outages * d.mtrs <= d.seconds == |down|
            && d.outages * d.mtbf <= |net| - |down|
            && d.mtrs <= d.longest <= d.seconds
  {
    hide Points, Normal, LongestOf, Sum;
    var runs := Runs(down);
    SizeOfPart(down, net);
    LongestIsMax(runs);
    NormalSum(runs);
    SumAtMost(runs, LongestOf(runs));
    if |runs| > 0 {
      Divided(|down|, |runs|, LongestOf(runs));
      Shared(|net| - |down|, |runs|);
    }
  }

  lemma Shared(total: int, n: int)
    requires n > 0 && total >= 0
    ensures n * (total / n) <= total
  {}

  lemma Divided(total: int, n: int, most: int)
    requires n > 0 && 0 <= total <= n * most
    ensures n * (total / n) <= total && total / n <= most
  {
    if total / n >= most + 1 { Scaled(most + 1, total / n, n); }
  }

  lemma {:induction false} SumAtMost(runs: seq<Interval>, most: int)
    requires most >= 0 && forall i | 0 <= i < |runs| :: runs[i].Seconds() <= most
    ensures Sum(runs) <= |runs| * most
  {
    if runs != [] {
      var front := runs[..|runs| - 1];
      assert forall i | 0 <= i < |front| :: front[i] == runs[i];
      SumAtMost(front, most);
      assert |runs| * most == |front| * most + most;
    }
  }
}
