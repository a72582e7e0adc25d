/**
 What a report says because of the evidence it ships (internal/core/reports.go): with full hours,
 the calculation over the selected rows is the calculation over all minute rows.
 */
module ReportMeaning {
  import opened Intervals
  import opened Model
  import opened Series
  import opened Availability
  import opened Evidence
  import opened EvidenceMeaning
  import opened Report

  /** Two inputs that name the same components and see them alike inside the net time. */
  ghost predicate SeenAlike(a: seq<ComponentInput>, b: seq<ComponentInput>, net: set<int>) {
    && |a| == |b|
    && forall i | 0 <= i < |a| ::
         && a[i].id == b[i].id && a[i].name == b[i].name && a[i].userWeight == b[i].userWeight
         && DownIn(a[i], net) == DownIn(b[i], net) && ObservedIn(a[i], net) == ObservedIn(b[i], net)
  }

  lemma {:induction false} SameTotals(a: seq<ComponentInput>, b: seq<ComponentInput>, net: set<int>)
    requires SeenAlike(a, b, net)
    ensures ServiceDown(a, net) == ServiceDown(b, net) && ServiceObserved(a, net) == ServiceObserved(b, net)
    ensures AllOutages(a, net) == AllOutages(b, net)
    ensures UserSeconds(a, net) == UserSeconds(b, net) && UserOutage(a, net) == UserOutage(b, net)
  {
    hide DownIn, ObservedIn, OutagesOf;
    if a != [] {
      var n := |a| - 1;
      assert a[n].id == b[n].id;
      SameTotals(a[..n], b[..n], net);
    }
  }

  lemma SameResults(a: seq<ComponentInput>, b: seq<ComponentInput>, net: set<int>)
    requires SeenAlike(a, b, net)
    ensures forall i | 0 <= i < |a| :: ResultOf(a[i], net) == ResultOf(b[i], net)
  {
    hide DownIn, ObservedIn;
  }

  lemma SameResultsOf(a: seq<ComponentInput>, b: seq<ComponentInput>, net: set<int>)
    requires ServiceDown(a, net) == ServiceDown(b, net) && ServiceObserved(a, net) == ServiceObserved(b, net)
    requires UserSeconds(a, net) == UserSeconds(b, net) && UserOutage(a, net) == UserOutage(b, net)
    ensures ResultsOf(a, net) == ResultsOf(b, net)
  {
    hide ServiceDown, ServiceObserved, UserSeconds, UserOutage;
  }

  /** The same agreed time and components seen alike give the same figures. */
  lemma SameOutput(a: Input, b: Input)
    requires ScheduledSet(a) == ScheduledSet(b) && NetSet(a) == NetSet(b) && a.exclusions == b.exclusions
    requires SeenAlike(a.components, b.components, NetSet(a))
    ensures Expected(a) == Expected(b).(objectives := Expected(a).objectives)
    ensures Expected(a).objectives == Scores(a, |NetSet(a)|, Expected(a).results)
    ensures Expected(b).objectives == Scores(b, |NetSet(a)|, Expected(a).results)
  {
    hide ScheduledSet, NetSet, AppliedSet, Kept, ResultsOf, ResultOf, AllOutages, DowntimeOf, GapsOf, ServiceDown, ServiceObserved,
         DownIn, ObservedIn, Scores, UserSeconds, UserOutage;
    var net := NetSet(a);
    SameTotals(a.components, b.components, net);
    SameResults(a.components, b.components, net);
    SameResultsOf(a.components, b.components, net);
  }

  /** Every agreed second lies in the period. */
  lemma NetInPeriod(inp: Input, t: int)
    requires t in NetSet(inp)
    ensures inp.from <= t < inp.to
  {
    hide Points, AppliedSet;
  }

  lemma SeenAlikeInPeriod(c: ComponentInput, d: ComponentInput, net: set<int>)
    requires c.rollup == d.rollup
    requires forall t | t in net :: t in ObservedSet(c.buckets) <==> t in ObservedSet(d.buckets)
    requires forall t | t in net :: t in DownSet(c.rollup, c.buckets) <==> t in DownSet(c.rollup, d.buckets)
    ensures DownIn(c, net) == DownIn(d, net) && ObservedIn(c, net) == ObservedIn(d, net)
  {
    hide ObservedSet, DownSet;
    SameInside(DownSet(c.rollup, c.buckets), DownSet(d.rollup, d.buckets), net);
    SameInside(ObservedSet(c.buckets), ObservedSet(d.buckets), net);
  }

  lemma SameInside(p: set<int>, q: set<int>, net: set<int>)
    requires forall t | t in net :: t in p <==> t in q
    ensures p * net == q * net
  {
    forall t ensures t in p * net <==> t in q * net {}
  }

  /**
   With full hours a report over the evidence it ships states the same agreed time, downtime,
   outages, gaps, coverage and component figures as one over every minute, and the same verdict on
   every objective that is not about latency.
   */
  lemma ReportOfSelectionIsReportOfMinutes(cfg: Config, table: seq<Bucket>, shipped: seq<Bucket>, minutes: seq<Bucket>)
    requires Stored(table) && RealMinutes(table) && FullHours(table) && HoursPresent(table, cfg.from, cfg.to)
    requires Shipped(table, cfg.from, cfg.to, shipped) && MinuteTable(table, minutes) && 0 <= cfg.from < cfg.to
    ensures var a, b := Expected(ReportInput(cfg, shipped)), Expected(ReportInput(cfg, minutes));
            && a == b.(objectives := a.objectives) && |a.objectives| == |b.objectives| == |cfg.objectives|
            && forall i | 0 <= i < |cfg.objectives| && cfg.objectives[i].metric != METRIC_LATENCY_P95 :: a.objectives[i] == b.objectives[i]
  {
    hide *;
    var a, b := ReportInput(cfg, shipped), ReportInput(cfg, minutes);
    SameAgreed(cfg, shipped, minutes);
    var net := NetSet(a);
    forall i | 0 <= i < |cfg.components|
      ensures DownIn(a.components[i], net) == DownIn(b.components[i], net)
      ensures ObservedIn(a.components[i], net) == ObservedIn(b.components[i], net)
    {
      var c := cfg.components[i];
      SelectionPreserves(table, cfg.from, cfg.to, shipped, minutes, c.id, c.rollup);
      forall t | t in net ensures cfg.from <= t < cfg.to { NetInPeriod(a, t); }
      SeenAlikeInPeriod(a.components[i], b.components[i], net);
    }
    MakeSeenAlike(cfg, shipped, minutes, net);
    SameOutput(a, b);
    SameScores(cfg, shipped, minutes, |net|, Expected(a).results);
  }

  lemma SameAgreed(cfg: Config, shipped: seq<Bucket>, minutes: seq<Bucket>)
    ensures var a, b := ReportInput(cfg, shipped), ReportInput(cfg, minutes);
            && ScheduledSet(a) == ScheduledSet(b) && NetSet(a) == NetSet(b) && a.exclusions == b.exclusions
            && a.from == cfg.from && a.to == cfg.to && |a.components| == |b.components| == |cfg.components|
            && forall i | 0 <= i < |cfg.components| ::
                 a.components[i] == InputOf(cfg.components[i], shipped) && b.components[i] == InputOf(cfg.components[i], minutes)
                 && a.components[i].rollup == b.components[i].rollup == cfg.components[i].rollup
                 && a.components[i].buckets == OfComponent(shipped, cfg.components[i].id)
                 && b.components[i].buckets == OfComponent(minutes, cfg.components[i].id)
  {
    hide Points, AppliedSet, OfComponent;
  }

  lemma MakeSeenAlike(cfg: Config, shipped: seq<Bucket>, minutes: seq<Bucket>, net: set<int>)
    requires var a, b := ReportInput(cfg, shipped).components, ReportInput(cfg, minutes).components;
             |a| == |b| == |cfg.components| && forall i | 0 <= i < |cfg.components| ::
               DownIn(a[i], net) == DownIn(b[i], net) && ObservedIn(a[i], net) == ObservedIn(b[i], net)
    ensures SeenAlike(ReportInput(cfg, shipped).components, ReportInput(cfg, minutes).components, net)
  {
    hide DownIn, ObservedIn, OfComponent;
  }

  lemma SameScores(cfg: Config, shipped: seq<Bucket>, minutes: seq<Bucket>, net: int, results: Results)
    ensures var a, b := Scores(ReportInput(cfg, shipped), net, results), Scores(ReportInput(cfg, minutes), net, results);
            && |a| == |b| == |cfg.objectives|
            && forall i | 0 <= i < |cfg.objectives| && cfg.objectives[i].metric != METRIC_LATENCY_P95 :: a[i] == b[i]
  {
    hide OfComponent, LatencyWithin, CreditOf, CoverageReason;
  }
}
