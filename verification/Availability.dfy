/**
 `Compute` of internal/availability/compute.go: agreed service time, exclusions, downtime,
 coverage, outages, gaps and objectives.

 The specification speaks of sets of seconds only. `Expected(in)` is the whole result written
 over those sets, and `Compute`, with its accumulating loops, is proved to return it.
 */
module Availability {
  import opened Sorting
  import opened Intervals
  import opened Model
  import opened Series
  import opened Ratios
  import opened Decimal
  import opened Text

  const METRIC_AVAILABILITY := "availability"
  const METRIC_USER_AVAILABILITY := "user_availability"
  const METRIC_LATENCY_P95 := "latency_p95"

  datatype Exclusion = Exclusion(id: string, from: int, to: int, applied: bool, seconds: int)
  datatype CreditBand = CreditBand(belowPPM: int, creditPercent: int)
  datatype Objective = Objective(
    id: string, metric: string, targetPPM: int, latencyBudgetMs: int, credits: seq<CreditBand>)
  datatype ObjectiveVerdict = Unscored | Met | Breached | Indeterminate
  datatype ObjectiveResult = ObjectiveResult(
    id: string, metric: string, targetPPM: int, achievedPPM: int,
    result: ObjectiveVerdict, reason: string, creditPercent: int)

  datatype Input = Input(
    from: int, to: int,
    scheduled: seq<Interval>,
    exclusions: seq<Exclusion>,
    components: seq<ComponentInput>,
    coverageFloorPPM: int,
    objectives: seq<Objective>)

  datatype AST = AST(scheduled: int, excluded: int, net: int, intervals: seq<Interval>)
  datatype Downtime = Downtime(seconds: int, outages: int, mtbf: int, mtrs: int, longest: int)
  datatype Results = Results(
    availabilityPPM: int, userAvailabilityPPM: int, coveragePPM: int,
    potentialUserSeconds: int, userOutageSeconds: int, observedSeconds: int)
  datatype ComponentResult = ComponentResult(
    id: string, name: string, userWeight: int, downtime: int, outages: int,
    availabilityPPM: int, coveragePPM: int)
  datatype Outage = Outage(component: string, from: int, to: int, seconds: int)
  datatype Gap = Gap(from: int, to: int, seconds: int)
  datatype Output = Output(
    ast: AST, downtime: Downtime, results: Results,
    components: seq<ComponentResult>, outages: seq<Outage>, exclusions: seq<Exclusion>,
    gaps: seq<Gap>, objectives: seq<ObjectiveResult>)

  // ----- the sets of seconds -----

  ghost function ScheduledSet(inp: Input): set<int> {
    Points(inp.scheduled) * Interval(inp.from, inp.to).Points()
  }

  ghost function WindowSet(ex: Exclusion, scheduled: set<int>): set<int> {
    Interval(ex.from, ex.to).Points() * scheduled
  }

  /** Only a window declared in time leaves the agreed service time. */
  ghost function AppliedSet(exs: seq<Exclusion>, scheduled: set<int>): set<int> {
    if exs == [] then {}
    else
      var ex := exs[|exs| - 1];
      AppliedSet(exs[..|exs| - 1], scheduled) + if ex.applied then WindowSet(ex, scheduled) else {}
  }

  ghost function NetSet(inp: Input): set<int> {
    ScheduledSet(inp) - AppliedSet(inp.exclusions, ScheduledSet(inp))
  }

  ghost function DownIn(c: ComponentInput, net: set<int>): set<int> { DownSet(c.rollup, c.buckets) * net }

  ghost function ObservedIn(c: ComponentInput, net: set<int>): set<int> { ObservedSet(c.buckets) * net }

  /** The seconds at which some component is down. */
  ghost function ServiceDown(cs: seq<ComponentInput>, net: set<int>): set<int> {
    if cs == [] then {} else ServiceDown(cs[..|cs| - 1], net) + DownIn(cs[|cs| - 1], net)
  }

  ghost function ServiceObserved(cs: seq<ComponentInput>, net: set<int>): set<int> {
    if cs == [] then {} else ServiceObserved(cs[..|cs| - 1], net) + ObservedIn(cs[|cs| - 1], net)
  }

  // ----- the expected result -----

  ghost function Kept(exs: seq<Exclusion>, scheduled: set<int>): seq<Exclusion> {
    if exs == [] then []
    else
      var ex := exs[|exs| - 1];
      var seconds := |WindowSet(ex, scheduled)|;
      Kept(exs[..|exs| - 1], scheduled) + if seconds == 0 then [] else [ex.(seconds := seconds)]
  }

  ghost function ResultOf(c: ComponentInput, net: set<int>): ComponentResult {
    ComponentResult(c.id, c.name, c.userWeight, |DownIn(c, net)|, |Runs(DownIn(c, net))|,
      Availability(|net|, |DownIn(c, net)|), Ratio(|ObservedIn(c, net)|, |net|))
  }

  function OutagesOf(id: string, runs: seq<Interval>): seq<Outage> {
    seq(|runs|, i requires 0 <= i < |runs| => Outage(id, runs[i].from, runs[i].to, runs[i].Seconds()))
  }

  ghost function AllOutages(cs: seq<ComponentInput>, net: set<int>): seq<Outage> {
    if cs == [] then []
    else
      var c := cs[|cs| - 1];
      AllOutages(cs[..|cs| - 1], net) + OutagesOf(c.id, Runs(DownIn(c, net)))
  }

  ghost function UserSeconds(cs: seq<ComponentInput>, net: set<int>): int {
    if cs == [] then 0 else UserSeconds(cs[..|cs| - 1], net) + cs[|cs| - 1].userWeight * |net|
  }

  ghost function UserOutage(cs: seq<ComponentInput>, net: set<int>): int {
    if cs == [] then 0
    else UserOutage(cs[..|cs| - 1], net) + cs[|cs| - 1].userWeight * |DownIn(cs[|cs| - 1], net)|
  }

  function LongestOf(runs: seq<Interval>): int {
    if runs == [] then 0
    else
      var best := LongestOf(runs[..|runs| - 1]);
      if runs[|runs| - 1].Seconds() > best then runs[|runs| - 1].Seconds() else best
  }

  ghost function DowntimeOf(net: set<int>, down: set<int>): Downtime {
    var n := |Runs(down)|;
    var uptime := if |net| - |down| < 0 then 0 else |net| - |down|;
    Downtime(|down|, n, if n > 0 then uptime / n else 0, if n > 0 then |down| / n else 0, LongestOf(Runs(down)))
  }

  ghost function ResultsOf(cs: seq<ComponentInput>, net: set<int>): Results {
    var availability := Availability(|net|, |ServiceDown(cs, net)|);
    var potential, lost := UserSeconds(cs, net), UserOutage(cs, net);
    Results(availability,
      if potential > 0 then Ratio(potential - lost, potential) else availability,
      Ratio(|ServiceObserved(cs, net)|, |net|), potential, lost, |ServiceObserved(cs, net)|)
  }

  function GapsOf(runs: seq<Interval>): seq<Gap> {
    seq(|runs|, i requires 0 <= i < |runs| => Gap(runs[i].from, runs[i].to, runs[i].Seconds()))
  }

  /** The result of the calculation; outages are listed component by component, before sorting. */
  ghost function Expected(inp: Input): Output {
    var scheduled, net := ScheduledSet(inp), NetSet(inp);
    var cs := inp.components;
    var results := ResultsOf(cs, net);
    Output(
      AST(|scheduled|, |AppliedSet(inp.exclusions, scheduled)|, |net|, Runs(scheduled)),
      DowntimeOf(net, ServiceDown(cs, net)),
      results,
      seq(|cs|, i requires 0 <= i < |cs| => ResultOf(cs[i], net)),
      AllOutages(cs, net),
      Kept(inp.exclusions, scheduled),
      GapsOf(Runs(net - ServiceObserved(cs, net))),
      Scores(inp, |net|, results))
  }

  // ----- objectives -----

  function CoverageReason(coverage: int, floor: int): string {
    "monitoring coverage was " + FormatPPM(coverage) + ", below the " + FormatPPM(floor) + " floor for this service"
  }

  /** Three decimal places, the resolution an agreement is usually written to. */
  function FormatPPM(ppm: int): string {
    Integer(Quo(ppm, 10000)) + "." + Padded(Quo(Rem(ppm, 10000), 10), 3) + "%"
  }

  function CreditOf(bands: seq<CreditBand>, achieved: int): int {
    if bands == [] then 0
    else
      var best := CreditOf(bands[..|bands| - 1], achieved);
      var b := bands[|bands| - 1];
      if achieved < b.belowPPM && b.creditPercent > best then b.creditPercent else best
  }

  predicate Measured(b: Bucket) { b.up + b.degraded != 0 }

  function CountMeasured(bs: seq<Bucket>): nat {
    if bs == [] then 0 else CountMeasured(bs[..|bs| - 1]) + if Measured(bs[|bs| - 1]) then 1 else 0
  }

  function CountWithin(bs: seq<Bucket>, budget: int): nat {
    if bs == [] then 0
    else CountWithin(bs[..|bs| - 1], budget)
         + if Measured(bs[|bs| - 1]) && bs[|bs| - 1].latencyP95 <= budget then 1 else 0
  }

  function AllBuckets(cs: seq<ComponentInput>): seq<Bucket> {
    if cs == [] then [] else AllBuckets(cs[..|cs| - 1]) + cs[|cs| - 1].buckets
  }

  /** The fraction of folded intervals that were fast enough. */
  function LatencyWithin(cs: seq<ComponentInput>, budget: int): int {
    if budget <= 0 then PPM
    else Ratio(CountWithin(AllBuckets(cs), budget), CountMeasured(AllBuckets(cs)))
  }

  predicate KnownMetric(metric: string) {
    metric == METRIC_AVAILABILITY || metric == METRIC_USER_AVAILABILITY || metric == METRIC_LATENCY_P95
  }

  function Achieved(inp: Input, o: Objective, results: Results): int {
    if o.metric == METRIC_AVAILABILITY then results.availabilityPPM
    else if o.metric == METRIC_USER_AVAILABILITY then results.userAvailabilityPPM
    else LatencyWithin(inp.components, o.latencyBudgetMs)
  }

  function Score(inp: Input, o: Objective, net: int, results: Results): ObjectiveResult {
    if !KnownMetric(o.metric) then
      ObjectiveResult(o.id, o.metric, o.targetPPM, 0, Indeterminate, "unknown metric " + o.metric, 0)
    else
      var achieved := Achieved(inp, o, results);
      var r := ObjectiveResult(o.id, o.metric, o.targetPPM, achieved, Unscored, "", 0);
      if net == 0 then
        r.(result := Indeterminate, reason := "the period contained no agreed service time")
      else if inp.coverageFloorPPM > 0 && results.coveragePPM < inp.coverageFloorPPM then
        r.(result := Indeterminate, reason := CoverageReason(results.coveragePPM, inp.coverageFloorPPM))
      else if achieved >= o.targetPPM then
        r.(result := Met)
      else
        r.(result := Breached, creditPercent := CreditOf(o.credits, achieved))
  }

  function Scores(inp: Input, net: int, results: Results): seq<ObjectiveResult> {
    seq(|inp.objectives|, i requires 0 <= i < |inp.objectives| => Score(inp, inp.objectives[i], net, results))
  }

  /** The credit is the highest band the achieved figure falls under, and nothing otherwise. */
  lemma {:induction false} CreditIsHighest(bands: seq<CreditBand>, achieved: int)
    ensures var best := CreditOf(bands, achieved);
            && (forall b | b in bands && achieved < b.belowPPM :: b.creditPercent <= best)
            && (best == 0 || exists b :: b in bands && achieved < b.belowPPM && b.creditPercent == best)
            && best >= 0
  {
    if bands != [] {
      var n := |bands| - 1;
      CreditIsHighest(bands[..n], achieved);
      assert bands == bands[..n] + [bands[n]];
      assert bands[n] in bands;
    }
  }

  method Credit(bands: seq<CreditBand>, achieved: int) returns (best: int)
    ensures best == CreditOf(bands, achieved)
  {
    best := 0;
    for i := 0 to |bands|
      invariant best == CreditOf(bands[..i], achieved)
    {
      assert bands[..i + 1][..i] == bands[..i];
      if achieved < bands[i].belowPPM && bands[i].creditPercent > best {
        best := bands[i].creditPercent;
      }
    }
    assert bands[..|bands|] == bands;
  }

  lemma CountAppend(bs: seq<Bucket>, b: Bucket, budget: int)
    ensures CountMeasured(bs + [b]) == CountMeasured(bs) + if Measured(b) then 1 else 0
    ensures CountWithin(bs + [b], budget) ==
            CountWithin(bs, budget) + if Measured(b) && b.latencyP95 <= budget then 1 else 0
  {
    assert (bs + [b])[..|bs|] == bs;
  }

  lemma NextBuckets(cs: seq<ComponentInput>, i: nat)
    requires i < |cs|
    ensures AllBuckets(cs[..i + 1]) == AllBuckets(cs[..i]) + cs[i].buckets
  {
    assert cs[..i + 1][..i] == cs[..i];
  }

  method LatencyWithinBudget(cs: seq<ComponentInput>, budget: int) returns (r: int)
    ensures r == LatencyWithin(cs, budget)
  {
    if budget <= 0 {
      return PPM;
    }
    var within, total := 0, 0;
    for i := 0 to |cs|
      invariant within == CountWithin(AllBuckets(cs[..i]), budget)
      invariant total == CountMeasured(AllBuckets(cs[..i]))
    {
      within, total := AddBuckets(AllBuckets(cs[..i]), cs[i].buckets, budget, within, total);
      NextBuckets(cs, i);
    }
    assert cs[..|cs|] == cs;
    r := Ratio(within, total);
  }

  /** The inner loop of `LatencyWithinBudget`: one component's readings. */
  method AddBuckets(ghost done: seq<Bucket>, bs: seq<Bucket>, budget: int, within0: nat, total0: nat)
    returns (within: nat, total: nat)
    requires within0 == CountWithin(done, budget) && total0 == CountMeasured(done)
    ensures within == CountWithin(done + bs, budget) && total == CountMeasured(done + bs)
  {
    hide CountWithin, CountMeasured;
    within, total := within0, total0;
    assert done + bs[..0] == done;
    for k := 0 to |bs|
      invariant within == CountWithin(done + bs[..k], budget)
      invariant total == CountMeasured(done + bs[..k])
    {
      CountAppend(done + bs[..k], bs[k], budget);
      assert done + bs[..k + 1] == (done + bs[..k]) + [bs[k]];
      if bs[k].up + bs[k].degraded == 0 {
        continue;
      }
      total := total + 1;
      if bs[k].latencyP95 <= budget {
        within := within + 1;
      }
    }
    assert bs[..|bs|] == bs;
  }

  method Evaluate(inp: Input, net: int, results: Results) returns (scores: seq<ObjectiveResult>)
    ensures scores == Scores(inp, net, results)
  {
    scores := [];
    for i := 0 to |inp.objectives|
      invariant |scores| == i
      invariant forall k | 0 <= k < i :: scores[k] == Score(inp, inp.objectives[k], net, results)
    {
      var o := inp.objectives[i];
      var r := ObjectiveResult(o.id, o.metric, o.targetPPM, 0, Unscored, "", 0);
      if o.metric == METRIC_AVAILABILITY {
        r := r.(achievedPPM := results.availabilityPPM);
      } else if o.metric == METRIC_USER_AVAILABILITY {
        r := r.(achievedPPM := results.userAvailabilityPPM);
      } else if o.metric == METRIC_LATENCY_P95 {
        var achieved := LatencyWithinBudget(inp.components, o.latencyBudgetMs);
        r := r.(achievedPPM := achieved);
      } else {
        scores := scores + [r.(result := Indeterminate, reason := "unknown metric " + o.metric)];
        continue;
      }
      if net == 0 {
        r := r.(result := Indeterminate, reason := "the period contained no agreed service time");
      } else if inp.coverageFloorPPM > 0 && results.coveragePPM < inp.coverageFloorPPM {
        r := r.(result := Indeterminate, reason := CoverageReason(results.coveragePPM, inp.coverageFloorPPM));
      } else if r.achievedPPM >= o.targetPPM {
        r := r.(result := Met);
      } else {
        var percent := Credit(o.credits, r.achievedPPM);
        r := r.(result := Breached, creditPercent := percent);
      }
      scores := scores + [r];
    }
  }

  // ----- the calculation -----

  predicate OutageLe(a: Outage, b: Outage) {
    if a.from != b.from then a.from < b.from else StringLe(a.component, b.component)
  }

  lemma OutageOrder()
    ensures TotalPreorder(OutageLe)
  {
    forall a, b ensures OutageLe(a, b) || OutageLe(b, a) {
      StringLeTotal(a.component, b.component);
    }
    forall a, b, c | OutageLe(a, b) && OutageLe(b, c) ensures OutageLe(a, c) {
      if a.from == b.from == c.from { StringLeTransitive(a.component, b.component, c.component); }
    }
  }

  /** Clips every window to the schedule, keeps those that touch it, collects those applied. */
  method Exclude(exs: seq<Exclusion>, scheduled: seq<Interval>)
    returns (kept: seq<Exclusion>, applied: seq<Interval>)
    ensures kept == Kept(exs, Points(scheduled))
    ensures Points(applied) == AppliedSet(exs, Points(scheduled))
  {
    hide Points;
    kept, applied := [], [];
    PointsOfNone();
    for i := 0 to |exs|
      invariant kept == Kept(exs[..i], Points(scheduled))
      invariant Points(applied) == AppliedSet(exs[..i], Points(scheduled))
    {
      var ex := exs[i];
      assert exs[..i + 1][..i] == exs[..i];
      var clipped := Intersect([Interval(ex.from, ex.to)], scheduled);
      PointsOfOne(Interval(ex.from, ex.to));
      var seconds := Total(clipped);
      if seconds == 0 {
        assert WindowSet(ex, Points(scheduled)) == {};
        continue;
      }
      if ex.applied {
        PointsConcat(applied, clipped);
        applied := applied + clipped;
      }
      kept := kept + [ex.(seconds := seconds)];
    }
    assert exs[..|exs|] == exs;
  }

  lemma PointsOfNone()
    ensures Points([]) == {}
  {}

  lemma PointsOfOne(iv: Interval)
    ensures Points([iv]) == iv.Points()
  {
    assert [iv] == [] + [iv];
    PointsAppend([], iv);
    PointsOfNone();
  }

  /** One component: its figures, its outages, and what it adds to the service's lists. */
  method Component(c: ComponentInput, net: seq<Interval>, netSeconds: int)
    returns (cr: ComponentResult, outages: seq<Outage>, downIn: seq<Interval>, observedIn: seq<Interval>)
    requires netSeconds == |Points(net)|
    ensures cr == ResultOf(c, Points(net))
    ensures outages == OutagesOf(c.id, Runs(DownIn(c, Points(net))))
    ensures Points(downIn) == DownIn(c, Points(net)) && Points(observedIn) == ObservedIn(c, Points(net))
  {
    hide Points, DownSet, ObservedSet;
    var down, observed := ComponentSeries(c);
    downIn := Intersect(down, net);
    observedIn := Intersect(observed, net);
    var downtime := Total(downIn);
    var seen := Total(observedIn);
    var runs := Merge(downIn);
    cr := ComponentResult(c.id, c.name, c.userWeight, downtime, |runs|,
      Availability(netSeconds, downtime), Ratio(seen, netSeconds));
    outages := [];
    for k := 0 to |runs|
      invariant |outages| == k
      invariant forall j | 0 <= j < k :: outages[j] == OutagesOf(c.id, runs)[j]
    {
      outages := outages + [Outage(c.id, runs[k].from, runs[k].to, runs[k].Seconds())];
    }
  }

  /** How often, how long, and how long in between. */
  method Summarise(merged: seq<Interval>, netSeconds: int) returns (d: Downtime)
    requires Normal(merged) && netSeconds >= 0
    ensures forall net: set<int> | |net| == netSeconds :: d == DowntimeOf(net, Points(merged))
  {
    RunsUnique(merged);
    var seconds := Total(merged);
    var longest := 0;
    for k := 0 to |merged|
      invariant longest == LongestOf(merged[..k])
    {
      assert merged[..k + 1][..k] == merged[..k];
      if merged[k].Seconds() > longest {
        longest := merged[k].Seconds();
      }
    }
    assert merged[..|merged|] == merged;
    var mtrs, mtbf := 0, 0;
    if |merged| > 0 {
      mtrs := seconds / |merged|;
      var uptime := netSeconds - seconds;
      if uptime < 0 {
        uptime := 0;
      }
      mtbf := uptime / |merged|;
    }
    d := Downtime(seconds, |merged|, mtbf, mtrs, longest);
  }

  /** What the component loop has gathered after the components of `cs`. */
  ghost predicate Gathered(cs: seq<ComponentInput>, net: set<int>, results: seq<ComponentResult>,
                           outages: seq<Outage>, down: seq<Interval>, observed: seq<Interval>,
                           potential: int, lost: int) {
    && |results| == |cs|
    && (forall i | 0 <= i < |cs| :: results[i] == ResultOf(cs[i], net))
    && outages == AllOutages(cs, net)
    && Points(down) == ServiceDown(cs, net)
    && Points(observed) == ServiceObserved(cs, net)
    && potential == UserSeconds(cs, net)
    && lost == UserOutage(cs, net)
  }

  lemma GatherNone(net: set<int>)
    ensures Gathered([], net, [], [], [], [], 0, 0)
  {}

  lemma GatherOne(cs: seq<ComponentInput>, c: ComponentInput, net: set<int>, results: seq<ComponentResult>,
                  outages: seq<Outage>, down: seq<Interval>, observed: seq<Interval>, potential: int, lost: int,
                  downIn: seq<Interval>, observedIn: seq<Interval>)
    requires Gathered(cs, net, results, outages, down, observed, potential, lost)
    requires Points(downIn) == DownIn(c, net) && Points(observedIn) == ObservedIn(c, net)
    ensures Gathered(cs + [c], net, results + [ResultOf(c, net)],
                     outages + OutagesOf(c.id, Runs(DownIn(c, net))), down + downIn, observed + observedIn,
                     potential + c.userWeight * |net|, lost + c.userWeight * |DownIn(c, net)|)
  {
    hide Points, DownIn, ObservedIn, ResultOf;
    assert (cs + [c])[..|cs|] == cs;
    PointsConcat(down, downIn);
    PointsConcat(observed, observedIn);
  }

  /** The schedule clipped to the period, the windows applied to it, and what is left. */
  method AgreedTime(inp: Input) returns (ast: AST, kept: seq<Exclusion>, net: seq<Interval>)
    ensures ast == AST(|ScheduledSet(inp)|, |AppliedSet(inp.exclusions, ScheduledSet(inp))|, |NetSet(inp)|,
                       Runs(ScheduledSet(inp)))
    ensures kept == Kept(inp.exclusions, ScheduledSet(inp))
    ensures Points(net) == NetSet(inp)
  {
    hide Points, Kept, AppliedSet;
    var scheduled := Clip(inp.scheduled, inp.from, inp.to);
    var seconds := Total(scheduled);
    var applied;
    kept, applied := Exclude(inp.exclusions, scheduled);
    var excluded := Total(applied);
    net := Subtract(scheduled, applied);
    var netSeconds := Total(net);
    ast := AST(seconds, excluded, netSeconds, scheduled);
  }

  /** The loop over the components. */
  method Gather(cs: seq<ComponentInput>, net: seq<Interval>, netSeconds: int)
    returns (results: seq<ComponentResult>, outages: seq<Outage>, down: seq<Interval>, observed: seq<Interval>,
             potential: int, lost: int)
    requires netSeconds == |Points(net)|
    ensures Gathered(cs, Points(net), results, outages, down, observed, potential, lost)
  {
    hide Points, Gathered, ResultOf, DownIn, OutagesOf;
    results, outages, down, observed := [], [], [], [];
    potential, lost := 0, 0;
    GatherNone(Points(net));
    for i := 0 to |cs|
      invariant Gathered(cs[..i], Points(net), results, outages, down, observed, potential, lost)
    {
      var c := cs[i];
      var cr, more, downIn, observedIn := Component(c, net, netSeconds);
      GatherOne(cs[..i], c, Points(net), results, outages, down, observed, potential, lost, downIn, observedIn);
      assert cs[..i + 1] == cs[..i] + [c];
      DowntimeField(c, Points(net));
      results := results + [cr];
      outages := outages + more;
      down := down + downIn;
      observed := observed + observedIn;
      potential := potential + c.userWeight * netSeconds;
      lost := lost + c.userWeight * cr.downtime;
    }
    assert cs[..|cs|] == cs;
  }

  /** The headline figures and the gaps. */
  method Headline(cs: seq<ComponentInput>, net: seq<Interval>, netSeconds: int,
                  down: seq<Interval>, observed: seq<Interval>, potential: int, lost: int)
    returns (downtime: Downtime, results: Results, gaps: seq<Gap>)
    requires netSeconds == |Points(net)|
    requires Points(down) == ServiceDown(cs, Points(net))
    requires Points(observed) == ServiceObserved(cs, Points(net))
    requires potential == UserSeconds(cs, Points(net)) && lost == UserOutage(cs, Points(net))
    ensures downtime == DowntimeOf(Points(net), ServiceDown(cs, Points(net)))
    ensures results == ResultsOf(cs, Points(net))
    ensures gaps == GapsOf(Runs(Points(net) - ServiceObserved(cs, Points(net))))
  {
    hide Points, ServiceDown, ServiceObserved, UserSeconds, UserOutage, DowntimeOf;
    var merged := Merge(down);
    downtime := Summarise(merged, netSeconds);
    DowntimeSeconds(Points(net), ServiceDown(cs, Points(net)));
    var availability := Availability(netSeconds, downtime.seconds);
    var observedMerged := Merge(observed);
    var observedSeconds := Total(observedMerged);
    var user := availability;
    if potential > 0 {
      user := Ratio(potential - lost, potential);
    }
    results := Results(availability, user, Ratio(observedSeconds, netSeconds), potential, lost, observedSeconds);
    var holes := Subtract(net, observedMerged);
    gaps := [];
    for k := 0 to |holes|
      invariant |gaps| == k
      invariant forall j | 0 <= j < k :: gaps[j] == GapsOf(holes)[j]
    {
      gaps := gaps + [Gap(holes[k].from, holes[k].to, holes[k].Seconds())];
    }
  }

  /** The whole calculation. */
  method Compute(inp: Input) returns (out: Output)
    ensures out == Expected(inp).(outages := out.outages)
    ensures multiset(out.outages) == multiset(Expected(inp).outages)
    ensures Sorted(out.outages, OutageLe)
  {
    hide *;
    var ast, kept, net := AgreedTime(inp);
    var results, outages, down, observed, potential, lost := Gather(inp.components, net, ast.net);
    Unpack(inp.components, Points(net), results, outages, down, observed, potential, lost);
    OutageOrder();
    var sorted := Sort(outages, OutageLe);
    var downtime, figures, gaps := Headline(inp.components, net, ast.net, down, observed, potential, lost);
    var scores := Evaluate(inp, ast.net, figures);
    out := Output(ast, downtime, figures, results, sorted, kept, gaps, scores);
    Assembled(inp, results, outages, down, observed, potential, lost);
  }

  lemma DowntimeField(c: ComponentInput, net: set<int>)
    ensures ResultOf(c, net).downtime == |DownIn(c, net)|
  {}

  lemma DowntimeSeconds(net: set<int>, down: set<int>)
    ensures DowntimeOf(net, down).seconds == |down|
  {}

  lemma Unpack(cs: seq<ComponentInput>, net: set<int>, results: seq<ComponentResult>, outages: seq<Outage>,
               down: seq<Interval>, observed: seq<Interval>, potential: int, lost: int)
    requires Gathered(cs, net, results, outages, down, observed, potential, lost)
    ensures Points(down) == ServiceDown(cs, net)
    ensures Points(observed) == ServiceObserved(cs, net)
    ensures potential == UserSeconds(cs, net) && lost == UserOutage(cs, net)
  {}

  lemma Assembled(inp: Input, results: seq<ComponentResult>, outages: seq<Outage>,
                  down: seq<Interval>, observed: seq<Interval>, potential: int, lost: int)
    requires Gathered(inp.components, NetSet(inp), results, outages, down, observed, potential, lost)
    ensures var cs, net := inp.components, NetSet(inp);
            && results == Expected(inp).components
            && outages == Expected(inp).outages
            && Expected(inp) == Output(
                 AST(|ScheduledSet(inp)|, |AppliedSet(inp.exclusions, ScheduledSet(inp))|, |net|, Runs(ScheduledSet(inp))),
                 DowntimeOf(net, ServiceDown(cs, net)), ResultsOf(cs, net), results, outages,
                 Kept(inp.exclusions, ScheduledSet(inp)), GapsOf(Runs(net - ServiceObserved(cs, net))),
                 Scores(inp, |net|, ResultsOf(cs, net)))
  {
    hide ResultOf, DowntimeOf, DownIn, OutagesOf, Scores, UserSeconds, UserOutage, ServiceDown, ServiceObserved,
         ResultsOf, Kept, GapsOf, AllOutages, NetSet, ScheduledSet, AppliedSet;
  }
}
