/**
 The report and its offline verifier: the arithmetic part of `buildReport`
 (internal/core/reports.go) and `recompute`, `impliedFloor`, `undeclared`
 (cmd/monitor-verify/main.go).

 The verifier has only the document. It recomputes every figure from the folded readings the
 document carries, and reads the coverage floor back out of the text of a verdict.
 */
module Report {
  import opened Sorting
  import opened Intervals
  import opened Model
  import opened Series
  import opened Ratios
  import opened Decimal
  import opened Availability
  import opened Conservation
  import opened EvidenceMeaning
  import opened Text

  datatype ComponentDef = ComponentDef(id: string, name: string, userWeight: int, rollup: string)

  /** What the service reads before the calculation. */
  datatype Config = Config(
    from: int, to: int,
    scheduled: seq<Interval>,
    windows: seq<Exclusion>,
    components: seq<ComponentDef>,
    coverageFloorPPM: int,
    objectives: seq<Objective>)

  datatype RatedComponent = RatedComponent(result: ComponentResult, rollup: string)

  datatype Document = Document(
    from: int, to: int,
    ast: AST, downtime: Downtime, results: Results,
    components: seq<RatedComponent>, outages: seq<Outage>, exclusions: seq<Exclusion>,
    gaps: seq<Gap>, objectives: seq<ObjectiveResult>,
    buckets: seq<Bucket>)

  // ----- building the document -----

  function InputOf(c: ComponentDef, buckets: seq<Bucket>): ComponentInput {
    ComponentInput(c.id, c.name, c.userWeight, c.rollup, OfComponent(buckets, c.id))
  }

  function ReportInput(cfg: Config, buckets: seq<Bucket>): Input {
    Input(cfg.from, cfg.to, cfg.scheduled, cfg.windows,
      seq(|cfg.components|, i requires 0 <= i < |cfg.components| => InputOf(cfg.components[i], buckets)),
      cfg.coverageFloorPPM, cfg.objectives)
  }

  predicate DistinctDefs(cs: seq<ComponentDef>) {
    forall i, j | 0 <= i < j < |cs| :: cs[i].id != cs[j].id
  }

  /** The document states the calculation over its own readings, and the rule of each component. */
  ghost predicate Reports(doc: Document, cfg: Config, buckets: seq<Bucket>) {
    var e := Expected(ReportInput(cfg, buckets));
    && doc.from == cfg.from && doc.to == cfg.to && doc.buckets == buckets
    && doc.ast == e.ast && doc.downtime == e.downtime && doc.results == e.results
    && doc.exclusions == e.exclusions && doc.gaps == e.gaps && doc.objectives == e.objectives
    && multiset(doc.outages) == multiset(e.outages) && Sorted(doc.outages, OutageLe)
    && |doc.components| == |cfg.components|
    && forall i | 0 <= i < |cfg.components| ::
         doc.components[i] == RatedComponent(e.components[i], cfg.components[i].rollup)
  }

  method ByComponent(bs: seq<Bucket>) returns (groups: map<string, seq<Bucket>>)
    ensures forall c | c in groups :: groups[c] == OfComponent(bs, c)
    ensures forall c | c !in groups :: OfComponent(bs, c) == []
  {
    hide OfComponent;
    groups := map[];
    NoComponents();
    for i := 0 to |bs|
      invariant forall c | c in groups :: groups[c] == OfComponent(bs[..i], c)
      invariant forall c | c !in groups :: OfComponent(bs[..i], c) == []
    {
      var b := bs[i];
      var sofar := if b.component in groups then groups[b.component] else [];
      groups := groups[b.component := sofar + [b]];
      ComponentAppend(bs[..i], b);
      assert bs[..i + 1] == bs[..i] + [b];
    }
    assert bs[..|bs|] == bs;
  }

  lemma NoComponents()
    ensures forall c :: OfComponent([], c) == []
  {}

  lemma ComponentAppend(bs: seq<Bucket>, b: Bucket)
    ensures forall c :: OfComponent(bs + [b], c) ==
                        if c == b.component then OfComponent(bs, c) + [b] else OfComponent(bs, c)
  {
    assert (bs + [b])[..|bs|] == bs;
  }

  method BuildReport(cfg: Config, buckets: seq<Bucket>) returns (doc: Document)
    requires DistinctDefs(cfg.components)
    ensures Reports(doc, cfg, buckets)
  {
    hide Expected, OfComponent;
    var groups := ByComponent(buckets);
    var inputs: seq<ComponentInput> := [];
    var rollups: map<string, string> := map[];
    for i := 0 to |cfg.components|
      invariant |inputs| == i
      invariant forall k | 0 <= k < i :: inputs[k] == InputOf(cfg.components[k], buckets)
      invariant forall k | 0 <= k < i :: cfg.components[k].id in rollups && rollups[cfg.components[k].id] == cfg.components[k].rollup
    {
      var c := cfg.components[i];
      inputs := inputs + [ComponentInput(c.id, c.name, c.userWeight, c.rollup, if c.id in groups then groups[c.id] else [])];
      rollups := rollups[c.id := c.rollup];
    }
    var inp := Input(cfg.from, cfg.to, cfg.scheduled, cfg.windows, inputs, cfg.coverageFloorPPM, cfg.objectives);
    assert inp == ReportInput(cfg, buckets);
    var out := Compute(inp);
    ResultIds(inp);
    var rated: seq<RatedComponent> := [];
    for i := 0 to |out.components|
      invariant |rated| == i
      invariant forall k | 0 <= k < i :: rated[k] == RatedComponent(out.components[k], cfg.components[k].rollup)
    {
      var r := out.components[i];
      assert r.id == cfg.components[i].id;
      rated := rated + [RatedComponent(r, rollups[r.id])];
    }
    doc := Document(cfg.from, cfg.to, out.ast, out.downtime, out.results, rated, out.outages, out.exclusions,
      out.gaps, out.objectives, buckets);
  }

  lemma ResultIds(inp: Input)
    ensures |Expected(inp).components| == |inp.components|
    ensures forall i | 0 <= i < |inp.components| ::
              && Expected(inp).components[i].id == inp.components[i].id
              && Expected(inp).components[i].name == inp.components[i].name
              && Expected(inp).components[i].userWeight == inp.components[i].userWeight
  {
    hide NetSet, DownIn, ObservedIn, ServiceDown, ServiceObserved, AllOutages, Kept, DowntimeOf, ResultsOf, Scores;
  }

  // ----- reading the floor back -----

  const MARKER := "below the "

  /** The first occurrence of `p` in `s`. */
  function Index(s: string, p: string): (r: Option<int>)
    ensures r.Some? ==> 0 <= r.value && r.value + |p| <= |s|
  {
    if StartsWith(s, p) then Some(0)
    else if s == [] then None
    else
      match Index(s[1..], p)
      case None => None
      case Some(i) => Some(i + 1)
  }

  function SkipSpaces(s: string): string {
    if s != [] && (s[0] == ' ' || s[0] == '\t') then SkipSpaces(s[1..]) else s
  }

  /** `%d`: spaces, a sign, digits; nothing without a digit or past 64 bits. */
  function ScanInt(s: string): Option<(int, string)> {
    var t := SkipSpaces(s);
    var negative := t != [] && t[0] == '-';
    var u := if t != [] && (t[0] == '-' || t[0] == '+') then t[1..] else t;
    if u == [] || !IsDigit(u[0]) then None
    else
      var r := ReadDigits(u, 0);
      if r.0 > MAX_INT64 then None
      else
        var value := r.0 as int;
        Some((if negative then 0 - value else value, r.1))
  }

  /** `%d.%d%%` */
  function ScanPercent(s: string): Option<(int, int)> {
    match ScanInt(s)
    case None => None
    case Some((whole, rest)) =>
      if rest == [] || rest[0] != '.' then None
      else
        match ScanInt(rest[1..])
        case None => None
        case Some((frac, rest')) =>
          var tail := SkipSpaces(rest');
          if tail != [] && tail[0] == '%' then Some((whole, frac)) else None
  }

  /** The floor a reason states, if it states one. */
  function FloorIn(reason: string): Option<int> {
    match Index(reason, MARKER)
    case None => None
    case Some(i) =>
      match ScanPercent(reason[i + |MARKER|..])
      case None => None
      case Some((whole, frac)) => Some(Wrapped(whole * 10000 + frac * 10))
  }

  /** Go's 64-bit arithmetic wraps around. */
  function Wrapped(i: int): int { (i + MAX_INT64 + 1) % (2 * (MAX_INT64 + 1)) - (MAX_INT64 + 1) }

  function ImpliedFloorOf(objs: seq<ObjectiveResult>): int {
    if objs == [] then 0
    else if objs[0].result == Indeterminate && FloorIn(objs[0].reason).Some? then FloorIn(objs[0].reason).value
    else ImpliedFloorOf(objs[1..])
  }

  method ImpliedFloor(objs: seq<ObjectiveResult>) returns (floor: int)
    ensures floor == ImpliedFloorOf(objs)
  {
    hide FloorIn;
    assert objs[0..] == objs;
    for i := 0 to |objs|
      invariant ImpliedFloorOf(objs) == ImpliedFloorOf(objs[i..])
    {
      assert objs[i..][1..] == objs[i + 1..];
      if objs[i].result != Indeterminate {
        continue;
      }
      var f := FloorIn(objs[i].reason);
      if f.Some? {
        return f.value;
      }
    }
    return 0;
  }

  predicate NoB(s: string) { forall i | 0 <= i < |s| :: s[i] != 'b' }

  lemma {:induction false} IndexSkips(prefix: string, rest: string)
    requires NoB(prefix) && StartsWith(rest, MARKER)
    ensures Index(prefix + rest, MARKER) == Some(|prefix|)
  {
    if prefix == [] {
      assert prefix + rest == rest;
    } else {
      assert (prefix + rest)[0] == prefix[0] != MARKER[0];
      assert !StartsWith(prefix + rest, MARKER);
      assert (prefix + rest)[1..] == prefix[1..] + rest;
      IndexSkips(prefix[1..], rest);
    }
  }

  lemma {:induction false} IndexNone(s: string)
    requires NoB(s)
    ensures Index(s, MARKER) == None
  {
    assert s != [] ==> s[0] != MARKER[0];
    assert s != [] ==> s[..1][0] == s[0];
    if s != [] { IndexNone(s[1..]); }
  }

  lemma ScanNatural(n: nat, digits: string, tail: string)
    requires n <= MAX_INT64 && digits != [] && IsDigit(digits[0])
    requires tail != [] && !IsDigit(tail[0])
    requires ReadDigits(digits + tail, 0) == ReadDigits(tail, n)
    ensures ScanInt(digits + tail) == Some((n, tail))
  {}

  /** A printed percentage reads back without its last ppm digit. */
  lemma PercentReadsBack(f: nat, tail: string)
    requires f <= MAX_INT64
    ensures ScanPercent(FormatPPM(f) + tail) == Some((f / 10000, f % 10000 / 10))
  {
    hide ScanInt, ReadDigits, Natural, Zeros;
    var whole, frac := f / 10000, f % 10000 / 10;
    assert Rem(f, 10000) == f % 10000;
    var rest := Zeros(Natural(frac), 3) + ("%" + tail);
    assert FormatPPM(f) + tail == Natural(whole) + ("." + rest);
    ReadNatural(whole, "." + rest);
    ScanNatural(whole, Natural(whole), "." + rest);
    assert ("." + rest)[1..] == rest;
    ZerosDigits(Natural(frac), 3);
    ReadZeros(Natural(frac), 3, "%" + tail);
    ReadNatural(frac, "%" + tail);
    ScanNatural(frac, Zeros(Natural(frac), 3), "%" + tail);
  }

  /** The floor stated in a reason reads back rounded down to 10 ppm. */
  lemma FloorReadsBack(prefix: string, f: nat, tail: string)
    requires NoB(prefix) && f <= MAX_INT64
    ensures FloorIn(prefix + (MARKER + (FormatPPM(f) + tail))) == Some(f - f % 10)
  {
    hide *;
    var text := FormatPPM(f) + tail;
    Begins(text);
    IndexSkips(prefix, MARKER + text);
    PercentReadsBack(f, tail);
    AfterMarker(prefix, text);
    FloorFrom(prefix + (MARKER + text), |prefix|, f / 10000, f % 10000 / 10);
    LastDigit(f);
  }

  lemma Begins(text: string)
    ensures StartsWith(MARKER + text, MARKER)
  {}

  lemma AfterMarker(prefix: string, text: string)
    ensures |prefix| + |MARKER| <= |prefix + (MARKER + text)|
    ensures (prefix + (MARKER + text))[|prefix| + |MARKER|..] == text
  {}

  lemma FloorFrom(reason: string, i: nat, whole: int, frac: int)
    requires Index(reason, MARKER) == Some(i) && i + |MARKER| <= |reason|
    requires ScanPercent(reason[i + |MARKER|..]) == Some((whole, frac))
    ensures FloorIn(reason) == Some(Wrapped(whole * 10000 + frac * 10))
  {
    hide ScanPercent, Index, Wrapped;
  }

  lemma LastDigit(f: nat)
    requires f <= MAX_INT64
    ensures Wrapped(f / 10000 * 10000 + f % 10000 / 10 * 10) == f - f % 10
  {
    assert f / 10000 * 10000 + f % 10000 / 10 * 10 == f - f % 10;
  }

  lemma NaturalNoB(n: nat)
    ensures NoB(Natural(n))
  {}

  lemma {:induction false} ZerosNoB(s: string, width: nat)
    requires NoB(s)
    ensures NoB(Zeros(s, width))
    decreases width - |s|
  {
    if |s| < width { ZerosNoB("0" + s, width); }
  }

  lemma PercentNoB(f: nat)
    ensures NoB(FormatPPM(f))
  {
    hide Natural, Zeros;
    NaturalNoB(f / 10000);
    NaturalNoB(f % 10000 / 10);
    ZerosNoB(Natural(f % 10000 / 10), 3);
    assert Rem(f, 10000) == f % 10000;
  }

  lemma CoverageReasonFloor(coverage: nat, f: nat)
    requires f <= MAX_INT64
    ensures FloorIn(CoverageReason(coverage, f)) == Some(f - f % 10)
  {
    hide FormatPPM, FloorIn, NoB;
    var prefix := "monitoring coverage was " + FormatPPM(coverage) + ", ";
    PrefixNoB(coverage);
    FloorReadsBack(prefix, f, " floor for this service");
    assert CoverageReason(coverage, f) == prefix + (MARKER + (FormatPPM(f) + " floor for this service"));
  }

  lemma PrefixNoB(coverage: nat)
    ensures NoB("monitoring coverage was " + FormatPPM(coverage) + ", ")
  {
    hide FormatPPM;
    PercentNoB(coverage);
    assert NoB("monitoring coverage was ") && NoB(", ");
  }

  lemma NoBConcat(a: string, b: string)
    requires NoB(a) && NoB(b)
    ensures NoB(a + b)
  {}

  const NO_TIME := "the period contained no agreed service time"

  lemma PlainReason()
    ensures FloorIn(NO_TIME) == None
  {
    hide FloorIn, Index;
    var a, b, c := "the period con", "tained no agree", "d service time";
    assert NoB(a);
    assert NoB(b);
    assert NoB(c);
    NoBConcat(a, b);
    NoBConcat(a + b, c);
    assert NO_TIME == a + b + c;
    IndexNone(NO_TIME);
    NoFloor(NO_TIME);
  }

  lemma NoFloor(reason: string)
    requires Index(reason, MARKER) == None
    ensures FloorIn(reason) == None
  {}

  // ----- the verifier's recomputation -----

  function ReadBack(o: ObjectiveResult): Objective { Objective(o.id, o.metric, o.targetPPM, 0, []) }

  function RecomputeInput(doc: Document): Input {
    Input(doc.from, doc.to, doc.ast.intervals, doc.exclusions,
      seq(|doc.components|, i requires 0 <= i < |doc.components| =>
        var c := doc.components[i];
        ComponentInput(c.result.id, c.result.name, c.result.userWeight, c.rollup, OfComponent(doc.buckets, c.result.id))),
      ImpliedFloorOf(doc.objectives),
      seq(|doc.objectives|, i requires 0 <= i < |doc.objectives| => ReadBack(doc.objectives[i])))
  }

  method Recompute(doc: Document) returns (out: Output)
    ensures out == Expected(RecomputeInput(doc)).(outages := out.outages)
    ensures multiset(out.outages) == multiset(Expected(RecomputeInput(doc)).outages)
    ensures Sorted(out.outages, OutageLe)
  {
    hide Expected, OfComponent, ImpliedFloorOf;
    var groups := ByComponent(doc.buckets);
    var floor := ImpliedFloor(doc.objectives);
    var inputs: seq<ComponentInput> := [];
    for i := 0 to |doc.components|
      invariant |inputs| == i
      invariant forall k | 0 <= k < i :: inputs[k] == RecomputeInput(doc).components[k]
    {
      var c := doc.components[i].result;
      inputs := inputs + [ComponentInput(c.id, c.name, c.userWeight, doc.components[i].rollup,
                                         if c.id in groups then groups[c.id] else [])];
    }
    var objectives: seq<Objective> := [];
    for i := 0 to |doc.objectives|
      invariant |objectives| == i
      invariant forall k | 0 <= k < i :: objectives[k] == ReadBack(doc.objectives[k])
    {
      var o := doc.objectives[i];
      objectives := objectives + [Objective(o.id, o.metric, o.targetPPM, 0, [])];
    }
    var inp := Input(doc.from, doc.to, doc.ast.intervals, doc.exclusions, inputs, floor, objectives);
    assert inp == RecomputeInput(doc);
    out := Compute(inp);
  }

  lemma KeptAppend(kept: seq<Exclusion>, ex: Exclusion, scheduled: set<int>)
    ensures Kept(kept + [ex], scheduled) == Kept(kept, scheduled)
              + if |WindowSet(ex, scheduled)| == 0 then [] else [ex.(seconds := |WindowSet(ex, scheduled)|)]
    ensures AppliedSet(kept + [ex], scheduled) ==
            AppliedSet(kept, scheduled) + if ex.applied then WindowSet(ex, scheduled) else {}
  {
    hide WindowSet;
    assert (kept + [ex])[..|kept|] == kept;
  }

  lemma WindowOf(ex: Exclusion, seconds: int, scheduled: set<int>)
    ensures WindowSet(ex.(seconds := seconds), scheduled) == WindowSet(ex, scheduled)
  {
    hide Interval.Points;
  }

  /** Keeping the kept windows changes neither what is applied nor what is kept. */
  lemma {:induction false} KeptAgain(exs: seq<Exclusion>, scheduled: set<int>)
    ensures AppliedSet(Kept(exs, scheduled), scheduled) == AppliedSet(exs, scheduled)
    ensures Kept(Kept(exs, scheduled), scheduled) == Kept(exs, scheduled)
  {
    if exs == [] {
    } else {
      hide *;
      var front, ex := exs[..|exs| - 1], exs[|exs| - 1];
      var window := WindowSet(ex, scheduled);
      KeptAgain(front, scheduled);
      KeptAppend(front, ex, scheduled);
      assert exs == front + [ex];
      var kept := ex.(seconds := |window|);
      WindowOf(ex, |window|, scheduled);
      KeptAppend(Kept(front, scheduled), kept, scheduled);
      if |window| == 0 {
        assert window == {};
        assert Kept(exs, scheduled) == Kept(front, scheduled);
      }
    }
  }

  /** What the document says about the agreed time. */
  lemma AgreedTimeOf(doc: Document, cfg: Config, buckets: seq<Bucket>)
    requires Reports(doc, cfg, buckets)
    ensures var a, b := ReportInput(cfg, buckets), RecomputeInput(doc);
            && b.scheduled == Runs(ScheduledSet(a)) && b.exclusions == Kept(a.exclusions, ScheduledSet(a))
            && b.from == a.from && b.to == a.to
  {
    hide NetSet, ScheduledSet, Kept, AppliedSet, ResultsOf, AllOutages, GapsOf, DowntimeOf, Scores, ResultOf, ServiceDown,
         ServiceObserved, OfComponent, ImpliedFloorOf;
  }

  lemma SameSchedule(a: Input, b: Input)
    requires b.from == a.from && b.to == a.to && b.scheduled == Runs(ScheduledSet(a))
    ensures ScheduledSet(b) == ScheduledSet(a)
  {
    hide Points, Interval.Points;
  }

  lemma SameNet(a: Input, b: Input)
    requires ScheduledSet(b) == ScheduledSet(a)
    requires AppliedSet(b.exclusions, ScheduledSet(b)) == AppliedSet(a.exclusions, ScheduledSet(a))
    ensures NetSet(b) == NetSet(a)
  {
    hide ScheduledSet, AppliedSet;
  }

  /** The agreed time of the recomputation is the agreed time of the report. */
  lemma SameAgreedTime(doc: Document, cfg: Config, buckets: seq<Bucket>)
    requires Reports(doc, cfg, buckets)
    ensures var a, b := ReportInput(cfg, buckets), RecomputeInput(doc);
            && ScheduledSet(b) == ScheduledSet(a)
            && NetSet(b) == NetSet(a)
            && AppliedSet(b.exclusions, ScheduledSet(b)) == AppliedSet(a.exclusions, ScheduledSet(a))
            && Kept(b.exclusions, ScheduledSet(b)) == Kept(a.exclusions, ScheduledSet(a))
  {
    hide *;
    var a, b := ReportInput(cfg, buckets), RecomputeInput(doc);
    AgreedTimeOf(doc, cfg, buckets);
    KeptAgain(a.exclusions, ScheduledSet(a));
    SameSchedule(a, b);
    SameNet(a, b);
  }

  lemma SameComponents(doc: Document, cfg: Config, buckets: seq<Bucket>)
    requires Reports(doc, cfg, buckets)
    ensures RecomputeInput(doc).components == ReportInput(cfg, buckets).components
  {
    hide OfComponent, ImpliedFloorOf, Expected;
    var a := ReportInput(cfg, buckets);
    ResultIds(a);
    assert |RecomputeInput(doc).components| == |a.components|;
    forall i | 0 <= i < |a.components| ensures RecomputeInput(doc).components[i] == a.components[i] {
      assert doc.components[i] == RatedComponent(Expected(a).components[i], cfg.components[i].rollup);
    }
  }

  /** What the calculation gives depends only on these parts of its input. */
  lemma SameFigures(a: Input, b: Input)
    requires ScheduledSet(b) == ScheduledSet(a) && NetSet(b) == NetSet(a) && b.components == a.components
    requires AppliedSet(b.exclusions, ScheduledSet(b)) == AppliedSet(a.exclusions, ScheduledSet(a))
    requires Kept(b.exclusions, ScheduledSet(b)) == Kept(a.exclusions, ScheduledSet(a))
    ensures Expected(b) == Expected(a).(objectives := Expected(b).objectives)
    ensures Expected(b).objectives == Scores(b, Expected(a).ast.net, Expected(a).results)
  {
    hide NetSet, ScheduledSet, AppliedSet, Kept, ResultsOf, AllOutages, GapsOf, DowntimeOf, Scores, ResultOf, ServiceDown, ServiceObserved;
  }

  /**
   The verifier reproduces the report: recomputing from the document alone gives the same
   agreed time, downtime, outages, gaps, coverage and component figures.
   */
  lemma VerifierReproduces(doc: Document, cfg: Config, buckets: seq<Bucket>)
    requires Reports(doc, cfg, buckets)
    ensures var e := Expected(RecomputeInput(doc));
            && e.ast == doc.ast && e.downtime == doc.downtime && e.results == doc.results
            && e.exclusions == doc.exclusions && e.gaps == doc.gaps
            && multiset(e.outages) == multiset(doc.outages)
            && |e.components| == |doc.components|
            && forall i | 0 <= i < |doc.components| :: e.components[i] == doc.components[i].result
  {
    hide *;
    SameAgreedTime(doc, cfg, buckets);
    SameComponents(doc, cfg, buckets);
    SameFigures(ReportInput(cfg, buckets), RecomputeInput(doc));
    FiguresOf(doc, cfg, buckets);
  }

  lemma FiguresOf(doc: Document, cfg: Config, buckets: seq<Bucket>)
    requires Reports(doc, cfg, buckets)
    ensures var e := Expected(ReportInput(cfg, buckets));
            && doc.ast == e.ast && doc.downtime == e.downtime && doc.results == e.results
            && doc.exclusions == e.exclusions && doc.gaps == e.gaps && doc.objectives == e.objectives
            && multiset(doc.outages) == multiset(e.outages)
            && |doc.components| == |e.components|
            && forall i | 0 <= i < |doc.components| :: e.components[i] == doc.components[i].result
  {
    hide Expected, OfComponent;
    ResultIds(ReportInput(cfg, buckets));
  }

  // ----- the objectives -----

  /** The coverage rule bites. */
  predicate Bites(net: int, floor: int, coverage: int) { net != 0 && floor > 0 && coverage < floor }

  function UnknownReason(metric: string): string { "unknown metric " + metric }

  /**
   The floor a report's objectives make the verifier read: that of the first objective whose
   reason states one. A known metric states the configured floor when the coverage rule bites;
   an unknown one states whatever its name can be read as.
   */
  function StatedFloor(objectives: seq<Objective>, net: int, f: int, coverage: int): int {
    if objectives == [] then 0
    else
      var metric := objectives[0].metric;
      if !KnownMetric(metric) && FloorIn(UnknownReason(metric)).Some? then FloorIn(UnknownReason(metric)).value
      else if KnownMetric(metric) && Bites(net, f, coverage) then f - f % 10
      else StatedFloor(objectives[1..], net, f, coverage)
  }

  /** The floor the verifier reads back, in terms of the configuration. */
  lemma FloorReadByVerifier(inp: Input, net: int, results: Results)
    requires inp.coverageFloorPPM <= MAX_INT64 && results.coveragePPM >= 0
    ensures ImpliedFloorOf(Scores(inp, net, results))
         == StatedFloor(inp.objectives, net, inp.coverageFloorPPM, results.coveragePPM)
  {
    hide Score, ImpliedFloorOf, StatedFloor;
    FloorOfScores(inp, net, results, inp.objectives, Scores(inp, net, results));
  }

  lemma {:induction false} FloorOfScores(inp: Input, net: int, results: Results, objectives: seq<Objective>, scores: seq<ObjectiveResult>)
    requires inp.coverageFloorPPM <= MAX_INT64 && results.coveragePPM >= 0 && |scores| == |objectives|
    requires forall i | 0 <= i < |scores| :: scores[i] == Score(inp, objectives[i], net, results)
    ensures ImpliedFloorOf(scores) == StatedFloor(objectives, net, inp.coverageFloorPPM, results.coveragePPM)
  {
    hide Score, FloorIn;
    if objectives != [] {
      FloorOfScore(inp, objectives[0], net, results);
      FloorOfScores(inp, net, results, objectives[1..], scores[1..]);
    }
  }

  /** Which floor the reason of one verdict states. */
  lemma FloorOfScore(inp: Input, o: Objective, net: int, results: Results)
    requires inp.coverageFloorPPM <= MAX_INT64 && results.coveragePPM >= 0
    ensures var r, f := Score(inp, o, net, results), inp.coverageFloorPPM;
            if !KnownMetric(o.metric) then r.result == Indeterminate && r.reason == UnknownReason(o.metric)
            else if Bites(net, f, results.coveragePPM) then r.result == Indeterminate && FloorIn(r.reason) == Some(f - f % 10)
            else r.result == Indeterminate ==> FloorIn(r.reason) == None
  {
    hide FloorIn, CoverageReason, LatencyWithin, CreditOf;
    if Bites(net, inp.coverageFloorPPM, results.coveragePPM) { CoverageReasonFloor(results.coveragePPM, inp.coverageFloorPPM); }
    PlainReason();
  }

  predicate Availabilities(metric: string) { metric == METRIC_AVAILABILITY || metric == METRIC_USER_AVAILABILITY }

  /**
   Exactly when an availability verdict is reproduced, for every document: when there is no
   agreed time, or the coverage rule bites under the floor read back just when it bit before.
   */
  lemma VerdictReproducedExactly(doc: Document, cfg: Config, buckets: seq<Bucket>, i: nat)
    requires Reports(doc, cfg, buckets) && cfg.coverageFloorPPM <= MAX_INT64
    requires i < |doc.objectives| && Availabilities(doc.objectives[i].metric)
    ensures var e, net, coverage := Expected(RecomputeInput(doc)), doc.ast.net, doc.results.coveragePPM;
            var read := StatedFloor(cfg.objectives, net, cfg.coverageFloorPPM, coverage);
            && |e.objectives| == |doc.objectives|
            && e.objectives[i].achievedPPM == doc.objectives[i].achievedPPM
            && (e.objectives[i].result == doc.objectives[i].result
                <==> (Bites(net, cfg.coverageFloorPPM, coverage) <==> Bites(net, read, coverage)))
  {
    hide *;
    var a, b := ReportInput(cfg, buckets), RecomputeInput(doc);
    SameAgreedTime(doc, cfg, buckets);
    SameComponents(doc, cfg, buckets);
    SameFigures(a, b);
    FiguresOf(doc, cfg, buckets);
    DocumentScores(doc, cfg, buckets);
    FiguresAreShares(a);
    CoverageIsShare(a);
    FloorReadByVerifier(a, doc.ast.net, doc.results);
    ReadBackScores(doc, cfg, buckets, i);
  }

  lemma CoverageIsShare(inp: Input)
    requires Percentage(Expected(inp).results.coveragePPM)
    ensures Expected(inp).results.coveragePPM >= 0
  {
    hide Expected;
  }

  lemma DocumentScores(doc: Document, cfg: Config, buckets: seq<Bucket>)
    requires Reports(doc, cfg, buckets)
    ensures doc.objectives == Scores(ReportInput(cfg, buckets), doc.ast.net, doc.results)
    ensures ReportInput(cfg, buckets).objectives == cfg.objectives
    ensures ReportInput(cfg, buckets).coverageFloorPPM == cfg.coverageFloorPPM
  {
    hide NetSet, ScheduledSet, AppliedSet, Kept, ResultsOf, AllOutages, GapsOf, DowntimeOf, Scores, ResultOf, ServiceDown,
         ServiceObserved, OfComponent;
  }

  lemma ReadBackScores(doc: Document, cfg: Config, buckets: seq<Bucket>, i: nat)
    requires doc.objectives == Scores(ReportInput(cfg, buckets), doc.ast.net, doc.results)
    requires Expected(RecomputeInput(doc)).objectives == Scores(RecomputeInput(doc), doc.ast.net, doc.results)
    requires i < |doc.objectives| && Availabilities(doc.objectives[i].metric)
    ensures var e, net, coverage := Expected(RecomputeInput(doc)), doc.ast.net, doc.results.coveragePPM;
            && |e.objectives| == |doc.objectives|
            && e.objectives[i].achievedPPM == doc.objectives[i].achievedPPM
            && (e.objectives[i].result == doc.objectives[i].result
                <==> (Bites(net, cfg.coverageFloorPPM, coverage) <==> Bites(net, ImpliedFloorOf(doc.objectives), coverage)))
  {
    hide Expected, OfComponent, ImpliedFloorOf, CoverageReason, LatencyWithin, CreditOf;
    var a, b := ReportInput(cfg, buckets), RecomputeInput(doc);
    var o := cfg.objectives[i];
    assert doc.objectives[i] == Score(a, o, doc.ast.net, doc.results);
    assert o.metric == doc.objectives[i].metric && KnownMetric(o.metric);
    assert b.objectives[i] == ReadBack(doc.objectives[i]);
    assert Scores(b, doc.ast.net, doc.results)[i] == Score(b, b.objectives[i], doc.ast.net, doc.results);
  }

  /** No unknown metric is named so that its reason reads as a floor. */
  predicate Quiet(objectives: seq<Objective>) {
    forall o | o in objectives && !KnownMetric(o.metric) :: FloorIn(UnknownReason(o.metric)) == None
  }

  lemma {:induction false} QuietFloor(objectives: seq<Objective>, net: int, f: int, coverage: int)
    requires Quiet(objectives)
    ensures StatedFloor(objectives, net, f, coverage) ==
            if Bites(net, f, coverage) && exists o :: o in objectives && KnownMetric(o.metric) then f - f % 10 else 0
  {
    hide FloorIn;
    if objectives != [] {
      assert objectives == [objectives[0]] + objectives[1..];
      assert objectives[0] in objectives;
      QuietFloor(objectives[1..], net, f, coverage);
    }
  }

  /**
   With no metric named like a floor, a verdict is lost exactly when the coverage lies between
   the floor rounded down to 10 ppm, which is all the text keeps, and the floor itself.
   */
  lemma QuietVerdictExactly(doc: Document, cfg: Config, buckets: seq<Bucket>, i: nat)
    requires Reports(doc, cfg, buckets) && Quiet(cfg.objectives) && cfg.coverageFloorPPM <= MAX_INT64
    requires i < |doc.objectives| && Availabilities(doc.objectives[i].metric)
    ensures var e, f := Expected(RecomputeInput(doc)), cfg.coverageFloorPPM;
            && |e.objectives| == |doc.objectives|
            && (e.objectives[i].result == doc.objectives[i].result
                <==> !(doc.ast.net != 0 && f > 0 && f - f % 10 <= doc.results.coveragePPM < f))
  {
    hide Expected, Reports, RecomputeInput, StatedFloor, Quiet;
    VerdictReproducedExactly(doc, cfg, buckets, i);
    QuietFloor(cfg.objectives, doc.ast.net, cfg.coverageFloorPPM, doc.results.coveragePPM);
    MetricsKept(doc, cfg, buckets);
    assert cfg.objectives[i] in cfg.objectives;
    NonNegativeCoverage(doc, cfg, buckets);
  }

  lemma NonNegativeCoverage(doc: Document, cfg: Config, buckets: seq<Bucket>)
    requires Reports(doc, cfg, buckets)
    ensures doc.results.coveragePPM >= 0
  {
    hide *;
    FiguresOf(doc, cfg, buckets);
    FiguresAreShares(ReportInput(cfg, buckets));
    CoverageIsShare(ReportInput(cfg, buckets));
  }

  lemma MetricsKept(doc: Document, cfg: Config, buckets: seq<Bucket>)
    requires Reports(doc, cfg, buckets)
    ensures |doc.objectives| == |cfg.objectives|
    ensures forall i | 0 <= i < |doc.objectives| :: doc.objectives[i].metric == cfg.objectives[i].metric
  {
    hide Expected, OfComponent, CoverageReason, LatencyWithin, CreditOf;
    DocumentScores(doc, cfg, buckets);
    var a := ReportInput(cfg, buckets);
    assert forall i | 0 <= i < |doc.objectives| :: doc.objectives[i] == Score(a, cfg.objectives[i], doc.ast.net, doc.results);
  }

  /** With no metric named like a floor and a floor that is a multiple of 10 ppm every availability verdict is reproduced. */
  lemma RoundFloorReproduces(doc: Document, cfg: Config, buckets: seq<Bucket>, i: nat)
    requires Reports(doc, cfg, buckets) && Quiet(cfg.objectives) && cfg.coverageFloorPPM <= MAX_INT64
    requires cfg.coverageFloorPPM % 10 == 0
    requires i < |doc.objectives| && Availabilities(doc.objectives[i].metric)
    ensures var e := Expected(RecomputeInput(doc));
            |e.objectives| == |doc.objectives| && e.objectives[i].result == doc.objectives[i].result
  {
    hide *;
    QuietVerdictExactly(doc, cfg, buckets, i);
  }

  /** An unknown metric can be named so that any floor is read back. */
  lemma UnknownMetricPlantsFloor(f: nat)
    requires f <= MAX_INT64
    ensures FloorIn(UnknownReason(MARKER + FormatPPM(f))) == Some(f - f % 10)
  {
    hide FloorIn, FormatPPM;
    FloorReadsBack("unknown metric ", f, "");
    assert FormatPPM(f) + "" == FormatPPM(f);
  }

  /** A service without a floor: the planted one changes every availability verdict its coverage lies below. */
  lemma PlantedFloorFlips(doc: Document, cfg: Config, buckets: seq<Bucket>, f: nat, i: nat)
    requires Reports(doc, cfg, buckets) && cfg.coverageFloorPPM == 0 && f <= MAX_INT64
    requires i < |doc.objectives| && Availabilities(doc.objectives[i].metric)
    requires |cfg.objectives| > 0 && cfg.objectives[0].metric == MARKER + FormatPPM(f)
    requires doc.ast.net != 0 && doc.results.coveragePPM < f - f % 10
    ensures var e := Expected(RecomputeInput(doc));
            |e.objectives| == |doc.objectives| && e.objectives[i].result != doc.objectives[i].result
  {
    hide Expected, Reports, RecomputeInput, FloorIn, FormatPPM;
    VerdictReproducedExactly(doc, cfg, buckets, i);
    UnknownMetricPlantsFloor(f);
    NonNegativeCoverage(doc, cfg, buckets);
    assert cfg.objectives[0].metric[0] == 'b';
  }

  /** Ten agreed seconds, nothing watched, no floor, and an objective named like one beside an availability. */
  function PlantedConfig(): Config {
    Config(0, 10, [Interval(0, 10)], [], [], 0,
      [Objective("x", MARKER + "99.000%", 0, 0, []), Objective("y", METRIC_AVAILABILITY, 999_000, 0, [])])
  }

  /** The report of that service, whose second verdict the verifier does not reproduce. */
  lemma VerdictNotReproduced() returns (doc: Document)
    ensures Reports(doc, PlantedConfig(), [])
    ensures |Expected(RecomputeInput(doc)).objectives| == |doc.objectives| == 2
    ensures Expected(RecomputeInput(doc)).objectives[1].result != doc.objectives[1].result
  {
    hide Expected, RecomputeInput, FloorIn, FormatPPM, OutageLe;
    var cfg := PlantedConfig();
    var inp := ReportInput(cfg, []);
    var e := Expected(inp);
    doc := Document(0, 10, e.ast, e.downtime, e.results, [], e.outages, e.exclusions, e.gaps, e.objectives, []);
    PlantedFigures();
    PlantedText();
    MetricsKept(doc, cfg, []);
    PlantedFloorFlips(doc, cfg, [], 990_000, 1);
  }

  lemma PlantedText()
    ensures FormatPPM(990_000) == "99.000%"
  {
    assert Natural(9) == "9" && Natural(99) == "99" && Natural(0) == "0";
    assert Zeros("000", 3) == "000";
    assert "0" + "00" == "000" && "0" + "0" == "00";
    assert Zeros("00", 3) == "000";
    assert Zeros("0", 3) == "000";
  }

  lemma PlantedFigures()
    ensures var e := Expected(ReportInput(PlantedConfig(), []));
            e.outages == [] && e.ast.net != 0 && e.results.coveragePPM == 0 && e.components == []
  {
    hide Scores, DowntimeOf, GapsOf, Kept, UserSeconds, UserOutage;
    var inp := ReportInput(PlantedConfig(), []);
    PointsOfOne(Interval(0, 10));
    assert Interval(0, 10).Has(5);
    assert 5 in Interval(0, 10).Points();
    assert 5 in NetSet(inp);
    assert |NetSet(inp)| > 0;
  }

  // ----- undeclared downtime -----

  function DeclaredFor(declared: seq<Outage>, c: string): seq<Interval> {
    if declared == [] then []
    else
      var front := DeclaredFor(declared[..|declared| - 1], c);
      var o := declared[|declared| - 1];
      if o.component == c then front + [Interval(o.from, o.to)] else front
  }

  ghost function Hidden(o: Outage, declared: seq<Outage>): set<int> {
    Interval(o.from, o.to).Points() - Points(DeclaredFor(declared, o.component))
  }

  ghost function Missing(outages: seq<Outage>, declared: seq<Outage>): int {
    if outages == [] then 0
    else Missing(outages[..|outages| - 1], declared) + |Hidden(outages[|outages| - 1], declared)|
  }

  method GroupDeclared(declared: seq<Outage>) returns (groups: map<string, seq<Interval>>)
    ensures forall c :: (if c in groups then groups[c] else []) == DeclaredFor(declared, c)
  {
    hide DeclaredFor;
    groups := map[];
    NoneDeclared();
    for i := 0 to |declared|
      invariant forall c :: (if c in groups then groups[c] else []) == DeclaredFor(declared[..i], c)
    {
      var o := declared[i];
      DeclaredAppend(declared[..i], o);
      assert declared[..i + 1] == declared[..i] + [o];
      groups := groups[o.component := (if o.component in groups then groups[o.component] else []) + [Interval(o.from, o.to)]];
    }
    assert declared[..|declared|] == declared;
  }

  lemma NoneDeclared()
    ensures forall c :: DeclaredFor([], c) == []
  {}

  lemma DeclaredAppend(declared: seq<Outage>, o: Outage)
    ensures forall c :: DeclaredFor(declared + [o], c) ==
                        if c == o.component then DeclaredFor(declared, c) + [Interval(o.from, o.to)] else DeclaredFor(declared, c)
  {
    assert (declared + [o])[..|declared|] == declared;
  }

  /** The seconds of downtime the readings show and the report does not declare. */
  method Undeclared(doc: Document, out: Output) returns (missing: int)
    ensures missing == Missing(out.outages, doc.outages)
  {
    hide Points, Interval.Points;
    var declared := GroupDeclared(doc.outages);
    missing := 0;
    for i := 0 to |out.outages|
      invariant missing == Missing(out.outages[..i], doc.outages)
    {
      var o := out.outages[i];
      assert out.outages[..i + 1][..i] == out.outages[..i];
      var remainder := Subtract([Interval(o.from, o.to)], if o.component in declared then declared[o.component] else []);
      PointsOfOne(Interval(o.from, o.to));
      var n := Total(remainder);
      missing := missing + n;
    }
    assert out.outages[..|out.outages|] == out.outages;
  }

  /** Nothing is reported missing exactly when every down second is declared for its component. */
  lemma {:induction false} NothingMissingExactly(outages: seq<Outage>, declared: seq<Outage>)
    ensures Missing(outages, declared) >= 0
    ensures Missing(outages, declared) == 0 <==> forall o | o in outages :: Hidden(o, declared) == {}
  {
    hide Hidden;
    if outages != [] {
      var n := |outages| - 1;
      assert outages == outages[..n] + [outages[n]];
      assert outages[n] in outages;
      NothingMissingExactly(outages[..n], declared);
    }
  }

  lemma {:induction false} DeclaredCovers(declared: seq<Outage>, o: Outage)
    requires o in declared
    ensures Hidden(o, declared) == {}
  {
    var n := |declared| - 1;
    assert declared == declared[..n] + [declared[n]];
    if declared[n] == o {
      PointsAppend(DeclaredFor(declared[..n], o.component), Interval(o.from, o.to));
    } else {
      DeclaredCovers(declared[..n], o);
      if declared[n].component == o.component {
        PointsAppend(DeclaredFor(declared[..n], o.component), Interval(declared[n].from, declared[n].to));
      }
    }
  }

  /** A report the service built hides nothing from its own verifier. */
  lemma ReportHidesNothing(doc: Document, cfg: Config, buckets: seq<Bucket>, out: Output)
    requires Reports(doc, cfg, buckets)
    requires multiset(out.outages) == multiset(Expected(RecomputeInput(doc)).outages)
    ensures Missing(out.outages, doc.outages) == 0
  {
    hide Expected, Hidden, Missing, RecomputeInput;
    VerifierReproduces(doc, cfg, buckets);
    SameMembers(out.outages, doc.outages);
    forall o | o in out.outages ensures Hidden(o, doc.outages) == {} {
      DeclaredCovers(doc.outages, o);
    }
    NothingMissingExactly(out.outages, doc.outages);
  }
}
