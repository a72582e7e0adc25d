/**
 When the live verdict of a component is the one its rule gives its monitors
 (internal/core/detect.go). A tick judges only the components one of whose monitors turned, so a
 monitor read for the first time that does not turn changes the rule's value unnoticed.
 */
module Judgement {
  import opened Model
  import Threshold
  import opened Sorting
  import opened Detect
  import opened Incidents
  import Intervals
  import Series

  // ----- one tick, under any configuration -----

  /**
   After a tick with readings a component has the verdict its rule gives its monitors if and only
   if one of its monitors turned, or the verdict it had is that one already.
   */
  lemma JudgedExactly(db: Database, t: Tick, c: string)
    requires Answered(db, t) && Ordered(db, t) && t.latest != map[] && c in t.cfg.components
    requires Seen(t.cfg, Ticked(db, t).monitors, c) != {}
    ensures StateOf(Ticked(db, t), c, t.now).verdict == Verdicts(t.cfg, Ticked(db, t).monitors, c, t.cfg.components[c].rollup)
            <==> c in Touched(db, t)
                 || StateOf(db, c, t.now).verdict == Verdicts(t.cfg, Ticked(db, t).monitors, c, t.cfg.components[c].rollup)
  {
    hide Updated, Touched, Seen, Verdicts, Like, Found;
    CommittedState(db, t, |t.order|, c);
    assert t.order[..|t.order|] == t.order;
  }

  /** After a tick, every component one of whose monitors turned has the verdict its rule gives its monitors. */
  lemma TouchedIsJudged(db: Database, t: Tick, c: string)
    requires Answered(db, t) && Ordered(db, t) && c in Touched(db, t) && c in t.cfg.components
    requires Seen(t.cfg, Ticked(db, t).monitors, c) != {}
    ensures StateOf(Ticked(db, t), c, t.now).verdict == Verdicts(t.cfg, Ticked(db, t).monitors, c, t.cfg.components[c].rollup)
  {
    hide *;
    SomethingRead(db, t, c);
    JudgedExactly(db, t, c);
  }

  lemma SomethingRead(db: Database, t: Tick, c: string)
    requires c in Touched(db, t)
    ensures t.latest != map[]
  {}

  /**
   A new monitor's first pass goes unnoticed: its state starts as up, so nothing turns and its
   component is not judged again, although its rule would now say otherwise.
   */
  lemma FirstPassGoesUnnoticed(db: Database, t: Tick, id: string, c: string)
    requires t.latest.Keys == {id} && t.latest[id].verdict == Up && id !in db.monitors
    requires id in t.cfg.monitors && t.cfg.monitors[id].component == c && t.cfg.monitors[id].enabled
    requires c in t.cfg.components && t.cfg.components[c].rollup == ROLLUP_ALL && StateOf(db, c, t.now).verdict == Down
    requires Ordered(db, t)
    ensures StateOf(Ticked(db, t), c, t.now).verdict == Down
    ensures Seen(t.cfg, Ticked(db, t).monitors, c) != {} && Verdicts(t.cfg, Ticked(db, t).monitors, c, ROLLUP_ALL) != Down
  {
    assert id in t.latest;
    assert !Turns(db, t, id);
    assert Touched(db, t) == {};
    if t.order != [] { HasMember(t.order); }
    var states := Ticked(db, t).monitors;
    assert id in Updated(db, t) && states[id] == UpdatedMonitor(db, t, id);
    var seen, down := Seen(t.cfg, states, c), DownOf(t.cfg, states, c);
    assert id in seen && id !in down && down <= seen;
    FewerDown(seen, down, id);
  }

  lemma HasMember(s: seq<string>)
    requires s != []
    ensures exists c :: c in s
  {
    assert s[0] in s;
  }

  lemma FewerDown(seen: set<string>, down: set<string>, id: string)
    requires down <= seen && id in seen && id !in down
    ensures |down| < |seen|
  {
    Series.SubsetSize(down, seen - {id});
  }

  // ----- one configuration over a run -----

  /** Readings carry the component their monitor is configured for, and clocks are past zero. */
  ghost predicate Labelled(cfg: Config, t: Tick) {
    && t.cfg == cfg && t.now > 0
    && forall id | Read(t, id) :: t.latest[id].component == cfg.monitors[id].component
  }

  ghost predicate Timed(db: Database) { forall id | id in db.monitors :: db.monitors[id].since > 0 }

  /** The component's verdict, where none is stored, is up. */
  function VerdictIn(db: Database, c: string): Verdict { if c in db.components then db.components[c].verdict else Up }

  ghost function RuleSays(cfg: Config, db: Database, c: string): Verdict
    requires c in cfg.components
  {
    Verdicts(cfg, db.monitors, c, cfg.components[c].rollup)
  }

  lemma TimedStays(db: Database, cfg: Config, t: Tick)
    requires Timed(db) && Labelled(cfg, t)
    ensures forall id | id in db.monitors + Updated(db, t) :: (db.monitors + Updated(db, t))[id].since > 0
  {}

  /** An untouched component's monitors keep their verdicts, and those seen for the first time are up. */
  lemma UntouchedMonitors(db: Database, cfg: Config, t: Tick, c: string)
    requires Timed(db) && Labelled(cfg, t) && c !in Touched(db, t)
    ensures var states := db.monitors + Updated(db, t);
            var before, later := Seen(cfg, db.monitors, c), Seen(cfg, states, c);
            && before <= later
            && (forall id | id in before :: states[id].verdict == db.monitors[id].verdict)
            && (forall id | id in later - before :: states[id].verdict == Up)
  {
    hide Threshold.Advanced;
    var states := db.monitors + Updated(db, t);
    forall id | id in cfg.monitors && cfg.monitors[id].component == c && id in states
      ensures states[id].verdict == StoredMonitor(db, id, t.now).verdict && states[id].since > 0
    {
      TimedStays(db, cfg, t);
      if Read(t, id) { assert !Turns(db, t, id); }
    }
  }

  /** More monitors that are up leave the worst verdict and the number down as they were. */
  lemma NewcomersUp(cfg: Config, old_: map<string, Threshold.MonitorState>, states: map<string, Threshold.MonitorState>, c: string)
    requires var before, later := Seen(cfg, old_, c), Seen(cfg, states, c);
             && before <= later
             && (forall id | id in before :: states[id].verdict == old_[id].verdict)
             && (forall id | id in later - before :: states[id].verdict == Up)
    ensures DownOf(cfg, states, c) == DownOf(cfg, old_, c) && WorstOf(cfg, states, c) == WorstOf(cfg, old_, c)
    ensures |Seen(cfg, old_, c)| <= |Seen(cfg, states, c)| && |DownOf(cfg, old_, c)| <= |Seen(cfg, old_, c)|
    ensures |DownOf(cfg, old_, c)| > 0 <==> WorstOf(cfg, old_, c) == Down
  {
    var before, later := Seen(cfg, old_, c), Seen(cfg, states, c);
    Series.SubsetSize(before, later);
    SameShown(before, later, old_, states, Down);
    SameShown(before, later, old_, states, Degraded);
    SameShown(before, later, old_, states, Error);
    assert DownOf(cfg, states, c) == DownOf(cfg, old_, c);
    DownCounted(cfg, old_, c);
  }

  lemma DownCounted(cfg: Config, states: map<string, Threshold.MonitorState>, c: string)
    ensures |DownOf(cfg, states, c)| <= |Seen(cfg, states, c)|
    ensures |DownOf(cfg, states, c)| > 0 <==> WorstOf(cfg, states, c) == Down
  {
    var down := DownOf(cfg, states, c);
    Series.SubsetSize(down, Seen(cfg, states, c));
    if id :| id in Seen(cfg, states, c) && states[id].verdict == Down { assert id in down; }
    if |down| > 0 {
      var id := Intervals.Pick(down);
      assert states[id].verdict == Down;
    }
  }

  lemma SameShown(before: set<string>, later: set<string>, old_: map<string, Threshold.MonitorState>, states: map<string, Threshold.MonitorState>, v: Verdict)
    requires before <= later <= states.Keys && before <= old_.Keys && v != Up
    requires forall id | id in before :: states[id].verdict == old_[id].verdict
    requires forall id | id in later - before :: states[id].verdict == Up
    ensures (exists id :: id in later && states[id].verdict == v) <==> (exists id :: id in before && old_[id].verdict == v)
  {
    if id :| id in before && old_[id].verdict == v { assert id in later && states[id].verdict == v; }
    if id :| id in later && states[id].verdict == v { assert id in before; }
  }

  /** What the rule makes of the newcomers of an untouched component: it can only stop saying down. */
  lemma UntouchedRule(db: Database, cfg: Config, t: Tick, c: string)
    requires Timed(db) && Labelled(cfg, t) && c !in Touched(db, t) && c in cfg.components
    ensures var rollup, states := cfg.components[c].rollup, db.monitors + Updated(db, t);
            var down, seen, was := |DownOf(cfg, db.monitors, c)|, |Seen(cfg, states, c)|, RuleSays(cfg, db, c);
            && (Seen(cfg, states, c) == {} ==> Seen(cfg, db.monitors, c) == {})
            && (Seen(cfg, db.monitors, c) == {} && Seen(cfg, states, c) != {} ==> Verdicts(cfg, states, c, rollup) == Up)
            && (Seen(cfg, db.monitors, c) != {} ==>
                  && (was == Down <==> Series.Rule(rollup, down, |Seen(cfg, db.monitors, c)|))
                  && Verdicts(cfg, states, c, rollup) == if was == Down && !Series.Rule(rollup, down, seen) then Degraded else was)
            && (Series.Rule(rollup, down, seen) && Seen(cfg, db.monitors, c) != {} ==> Series.Rule(rollup, down, |Seen(cfg, db.monitors, c)|))
  {
    hide Seen, DownOf, WorstOf, Updated, Touched, Timed, Labelled;
    UntouchedMonitors(db, cfg, t, c);
    NewcomersUp(cfg, db.monitors, db.monitors + Updated(db, t), c);
    if Seen(cfg, db.monitors, c) == {} { OnlyNewcomers(cfg, db.monitors + Updated(db, t), c); }
  }

  lemma OnlyNewcomers(cfg: Config, states: map<string, Threshold.MonitorState>, c: string)
    requires forall id | id in Seen(cfg, states, c) :: states[id].verdict == Up
    ensures WorstOf(cfg, states, c) == Up && |DownOf(cfg, states, c)| == 0
    ensures Seen(cfg, states, c) != {} ==> |Seen(cfg, states, c)| > 0
  {
    assert DownOf(cfg, states, c) == {};
  }

  /** The component's verdict is the one its rule gives the monitors it has. */
  ghost predicate Rightly(cfg: Config, db: Database, c: string) {
    c in cfg.components && (Seen(cfg, db.monitors, c) != {} ==> VerdictIn(db, c) == RuleSays(cfg, db, c))
  }

  /** First readings, none of which turned a monitor, took a component shown as down below its rule. */
  ghost predicate Dropped(cfg: Config, db: Database, t: Tick, c: string) {
    && c in cfg.components && c !in Touched(db, t) && VerdictIn(db, c) == Down
    && var rollup, down := cfg.components[c].rollup, |DownOf(cfg, db.monitors, c)|;
       && Series.Rule(rollup, down, |Seen(cfg, db.monitors, c)|)
       && !Series.Rule(rollup, down, |Seen(cfg, db.monitors + Updated(db, t), c)|)
  }

  /** What every run keeps: a component not shown as its rule says is shown as down, and only degraded. */
  ghost predicate Sober(cfg: Config, db: Database, c: string) {
    && Timed(db) && c in cfg.components
    && if Seen(cfg, db.monitors, c) == {} then VerdictIn(db, c) == Up
       else VerdictIn(db, c) == RuleSays(cfg, db, c) || (VerdictIn(db, c) == Down && RuleSays(cfg, db, c) == Degraded)
  }

  /** What a tick leaves of a component's verdict and monitors. */
  lemma TickedVerdict(db: Database, cfg: Config, t: Tick, c: string)
    requires Labelled(cfg, t) && Answered(db, t) && Ordered(db, t) && c in cfg.components
    ensures var db' := Ticked(db, t);
            && db'.monitors == db.monitors + Updated(db, t)
            && VerdictIn(db', c) == if c in Touched(db, t) && Seen(cfg, db'.monitors, c) != {} then RuleSays(cfg, db', c) else VerdictIn(db, c)
  {
    hide Touched, Seen, Verdicts, Like, Found, UpdatedMonitor, RollUp;
    if t.latest == map[] {
      NothingTouched(db, t);
      assert db.monitors + Updated(db, t) == db.monitors;
    } else {
      CommittedState(db, t, |t.order|, c);
      assert t.order[..|t.order|] == t.order;
      DecidedVerdict(db, t, c);
    }
  }

  lemma DecidedVerdict(db: Database, t: Tick, c: string)
    requires Answered(db, t) && c in t.cfg.components
    ensures var o, states := Decide(db, t, c), db.monitors + Updated(db, t);
            && (o.Changed? ==> Seen(t.cfg, states, c) != {} && o.state.verdict == Verdicts(t.cfg, states, c, t.cfg.components[c].rollup))
            && (o.Unchanged? && Seen(t.cfg, states, c) != {} ==> VerdictIn(db, c) == Verdicts(t.cfg, states, c, t.cfg.components[c].rollup))
  {
    hide Seen, Verdicts, Like, Found, Updated;
  }

  /** One tick: a component is judged rightly after it if and only if it was touched, or was right before and nothing dropped it. */
  lemma TickJudged(db: Database, cfg: Config, t: Tick, c: string)
    requires Sober(cfg, db, c) && Labelled(cfg, t) && Answered(db, t) && Ordered(db, t)
    ensures Sober(cfg, Ticked(db, t), c)
    ensures Rightly(cfg, Ticked(db, t), c) <==> c in Touched(db, t) || (Rightly(cfg, db, c) && !Dropped(cfg, db, t, c))
  {
    hide Seen, DownOf, WorstOf, Touched, Updated, Ticked, Verdicts, Answered, Ordered, Labelled, Timed;
    TickedVerdict(db, cfg, t, c);
    StillTimed(db, cfg, t);
    if c in Touched(db, t) {
      SeenStays(db, cfg, t, c);
    } else {
      UntouchedRule(db, cfg, t, c);
    }
  }

  lemma SeenStays(db: Database, cfg: Config, t: Tick, c: string)
    requires Timed(db) && Labelled(cfg, t)
    ensures Seen(cfg, db.monitors, c) <= Seen(cfg, db.monitors + Updated(db, t), c)
  {
    hide Threshold.Advanced;
    TimedStays(db, cfg, t);
  }

  lemma StillTimed(db: Database, cfg: Config, t: Tick)
    requires Timed(db) && Labelled(cfg, t) && Ticked(db, t).monitors == db.monitors + Updated(db, t)
    ensures Timed(Ticked(db, t))
  {
    hide Ticked, Updated;
    TimedStays(db, cfg, t);
  }

  // ----- whole runs -----

  ghost predicate FixedRun(ticks: seq<Tick>, homes: set<(string, string)>, cfg: Config) {
    Run(ticks, homes) && forall k | 0 <= k < |ticks| :: Labelled(cfg, ticks[k])
  }

  /** Tick `k` dropped the component, and nothing has touched it since. */
  ghost predicate DroppedAt(ticks: seq<Tick>, cfg: Config, c: string, k: int) {
    && 0 <= k < |ticks| && Dropped(cfg, After(ticks[..k]), ticks[k], c)
    && forall j | k < j < |ticks| :: c !in Touched(After(ticks[..j]), ticks[j])
  }

  lemma DroppedStep(ticks: seq<Tick>, cfg: Config, c: string)
    requires ticks != []
    ensures var n := |ticks| - 1;
            var front, db := ticks[..n], After(ticks[..n]);
            (exists k :: DroppedAt(ticks, cfg, c, k))
            <==> Dropped(cfg, db, ticks[n], c) || ((exists k :: DroppedAt(front, cfg, c, k)) && c !in Touched(db, ticks[n]))
  {
    hide Dropped, Touched, After;
    var n := |ticks| - 1;
    var front := ticks[..n];
    forall k ensures DroppedAt(ticks, cfg, c, k)
                     <==> (k == n && Dropped(cfg, After(front), ticks[n], c))
                          || (DroppedAt(front, cfg, c, k) && c !in Touched(After(front), ticks[n]))
    {
      assert forall j | 0 <= j < n :: front[j] == ticks[j] && front[..j] == ticks[..j];
    }
    assert DroppedAt(ticks, cfg, c, n) <==> Dropped(cfg, After(front), ticks[n], c);
  }

  lemma {:induction false} RunJudges(ticks: seq<Tick>, homes: set<(string, string)>, cfg: Config, c: string)
    requires FixedRun(ticks, homes, cfg) && c in cfg.components
    ensures Sober(cfg, After(ticks), c)
    ensures Rightly(cfg, After(ticks), c) <==> !exists k :: DroppedAt(ticks, cfg, c, k)
  {
    hide Sober, Rightly, DroppedAt, Dropped, Touched, Ticked, Answered, Ordered, Labelled, Apart, AtHome;
    if ticks == [] {
      StartsSober(cfg, c);
      NeverDropped(cfg, c);
    } else {
      var n := |ticks| - 1;
      var front, t := ticks[..n], ticks[n];
      forall k | 0 <= k < n ensures front[k] == ticks[k] && front[..k] == ticks[..k] {}
      RunJudges(front, homes, cfg, c);
      TickJudged(After(front), cfg, t, c);
      DroppedStep(ticks, cfg, c);
      if Dropped(cfg, After(front), t, c) { DroppedIsUntouched(cfg, After(front), t, c); }
    }
  }

  lemma DroppedIsUntouched(cfg: Config, db: Database, t: Tick, c: string)
    requires Dropped(cfg, db, t, c)
    ensures c !in Touched(db, t)
  {
    hide Touched;
  }

  lemma StartsSober(cfg: Config, c: string)
    requires c in cfg.components
    ensures Sober(cfg, EMPTY, c) && Rightly(cfg, EMPTY, c)
  {
    assert Seen(cfg, EMPTY.monitors, c) == {};
  }

  lemma NeverDropped(cfg: Config, c: string)
    ensures !exists k :: DroppedAt([], cfg, c, k)
  {}

  /**
   Over every run under one configuration, a component's live verdict is the one its rule gives
   its monitors, unless it is shown as down where the rule says degraded; and that is so exactly
   when first readings took it below its rule and none of its monitors has turned since.
   */
  lemma JudgedOverRuns(ticks: seq<Tick>, homes: set<(string, string)>, cfg: Config, c: string)
    requires FixedRun(ticks, homes, cfg) && c in cfg.components && Seen(cfg, After(ticks).monitors, c) != {}
    ensures var db := After(ticks);
            && (VerdictIn(db, c) == RuleSays(cfg, db, c) || (VerdictIn(db, c) == Down && RuleSays(cfg, db, c) == Degraded))
            && (VerdictIn(db, c) == RuleSays(cfg, db, c) <==> !exists k :: DroppedAt(ticks, cfg, c, k))
  {
    hide After, Seen, VerdictIn, RuleSays, DroppedAt, FixedRun;
    RunJudges(ticks, homes, cfg, c);
  }

  // ----- a component that stays down although its rule says otherwise -----

  const TWO_MONITORS := Config(
    map["a" := MonitorDef("c", true, 1, 1), "b" := MonitorDef("c", true, 1, 1)],
    map["c" := ComponentDef("s", ROLLUP_ALL)])
  const FIRST_DOWN := Tick(TWO_MONITORS, map["a" := Sample("a", "c", 10, Down, false, false)], 10, ["c"], map["c" := None], map["c" := "i"])
  const SECOND_UP := Tick(TWO_MONITORS, map["b" := Sample("b", "c", 20, Up, false, false)], 20, [], map["c" := Some("i")], map["c" := "j"])

  /** The tables after the first tick: monitor `a` is down, so the component is, with an incident. */
  const SHOWN_DOWN := Database(
    map["a" := Threshold.MonitorState(Down, Some(Down), 10, 1, 10)],
    map["c" := ComponentState(Down, 10, 1, 0, "i", 10)],
    map["i" := Incident("s", "c", 10, false, true)],
    [Alert(WentDown, "c", "i", 10, 0)])

  lemma FirstTickUpdates()
    ensures Updated(EMPTY, FIRST_DOWN) == SHOWN_DOWN.monitors && Touched(EMPTY, FIRST_DOWN) == {"c"}
  {
    var t := FIRST_DOWN;
    assert "a" in t.latest && Turns(EMPTY, t, "a");
    assert UpdatedMonitor(EMPTY, t, "a") == SHOWN_DOWN.monitors["a"];
  }

  lemma FirstTickAnswered()
    ensures Answered(EMPTY, FIRST_DOWN) && Ordered(EMPTY, FIRST_DOWN)
  {
    hide Touched, Updated, Like;
    FirstTickUpdates();
    assert FIRST_DOWN.order[0] == "c";
  }

  /** Monitor `a` alone is seen and down. */
  lemma SeenFirst()
    ensures Seen(TWO_MONITORS, SHOWN_DOWN.monitors, "c") == {"a"} && DownOf(TWO_MONITORS, SHOWN_DOWN.monitors, "c") == {"a"}
    ensures Verdicts(TWO_MONITORS, SHOWN_DOWN.monitors, "c", ROLLUP_ALL) == Down
  {
    assert Seen(TWO_MONITORS, SHOWN_DOWN.monitors, "c") == {"a"};
    assert DownOf(TWO_MONITORS, SHOWN_DOWN.monitors, "c") == {"a"};
  }

  lemma AfterFirst()
    ensures After([FIRST_DOWN]) == SHOWN_DOWN
  {
    hide Decide, Updated, Touched;
    var t := FIRST_DOWN;
    FirstTickUpdates();
    FirstDecision();
    assert [t][..0] == [] && After([]) == EMPTY && ["c"][..0] == [];
    var start := EMPTY.(monitors := EMPTY.monitors + Updated(EMPTY, t));
    assert Committed(EMPTY, t, []) == start;
    assert Committed(EMPTY, t, ["c"]) == Commit(start, "c", Decide(EMPTY, t, "c"));
    assert "a" in t.latest && After([t]) == Committed(EMPTY, t, ["c"]);
    var db := After([t]);
    assert db.monitors == SHOWN_DOWN.monitors && db.components == SHOWN_DOWN.components;
    assert db.incidents == SHOWN_DOWN.incidents && db.alerts == SHOWN_DOWN.alerts;
  }

  lemma FirstDecision()
    ensures Decide(EMPTY, FIRST_DOWN, "c") ==
            Changed(SHOWN_DOWN.components["c"], Some(("i", SHOWN_DOWN.incidents["i"])), None, SHOWN_DOWN.alerts)
  {
    hide Verdicts, Seen, DownOf, Touched, Updated;
    FirstTickUpdates();
    SeenFirst();
    assert EMPTY.monitors + Updated(EMPTY, FIRST_DOWN) == SHOWN_DOWN.monitors;
    assert !FIRST_DOWN.latest["a"].inMaintenance;
  }

  lemma SecondTickUpdates()
    ensures Touched(SHOWN_DOWN, SECOND_UP) == {} && Updated(SHOWN_DOWN, SECOND_UP).Keys == {"b"}
    ensures Updated(SHOWN_DOWN, SECOND_UP)["b"].verdict == Up && Updated(SHOWN_DOWN, SECOND_UP)["b"].since == 20
  {
    assert "b" in SECOND_UP.latest && Read(SECOND_UP, "b");
    assert !Turns(SHOWN_DOWN, SECOND_UP, "b");
  }

  lemma SecondTickAnswered()
    ensures Answered(SHOWN_DOWN, SECOND_UP) && Ordered(SHOWN_DOWN, SECOND_UP)
  {
    hide Touched, Updated;
    SecondTickUpdates();
    assert LikeAt("c", "c", 0);
    assert Matches(SHOWN_DOWN, "s", "c", "i");
  }

  lemma SecondTickDrops()
    ensures Dropped(TWO_MONITORS, SHOWN_DOWN, SECOND_UP, "c")
    ensures Seen(TWO_MONITORS, SHOWN_DOWN.monitors + Updated(SHOWN_DOWN, SECOND_UP), "c") == {"a", "b"}
  {
    hide Touched, Updated;
    SecondTickUpdates();
    SeenFirst();
    assert Seen(TWO_MONITORS, SHOWN_DOWN.monitors + Updated(SHOWN_DOWN, SECOND_UP), "c") == {"a", "b"};
  }

  /** The failing run: `a` takes the component down, `b` passes for the first time, and the component stays down. */
  lemma RunShowsDownTooLong()
    ensures var ticks := [FIRST_DOWN, SECOND_UP];
            && FixedRun(ticks, {("c", "s")}, TWO_MONITORS) && Seen(TWO_MONITORS, After(ticks).monitors, "c") != {}
            && VerdictIn(After(ticks), "c") == Down && RuleSays(TWO_MONITORS, After(ticks), "c") == Degraded
  {
    hide Touched, Updated, Answered, Ordered, Dropped, Seen, Verdicts, Apart, Ticked;
    var ticks := [FIRST_DOWN, SECOND_UP];
    FirstTickAnswered();
    SecondTickAnswered();
    SecondTickDrops();
    AfterFirst();
    OnlyOne();
    assert ticks[..0] == [] && ticks[..1] == [FIRST_DOWN] && After([]) == EMPTY;
    assert FixedRun(ticks, {("c", "s")}, TWO_MONITORS);
    assert DroppedAt(ticks, TWO_MONITORS, "c", 1);
    TickedVerdict(SHOWN_DOWN, TWO_MONITORS, SECOND_UP, "c");
    assert After(ticks) == Ticked(SHOWN_DOWN, SECOND_UP);
    JudgedOverRuns(ticks, {("c", "s")}, TWO_MONITORS, "c");
    SecondTickUpdates();
  }

  lemma OnlyOne()
    ensures Apart({("c", "s")})
  {
    hide Like;
  }
}
