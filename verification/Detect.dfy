/**
 Detection: `detect`, `rollUpComponent`, `openAutoIncident` and `resolveAutoIncident` of
 internal/core/detect.go.

 The database is four tables. A tick reads the tables as they were when it began and commits all
 its writes at the end, so a component rolled up later in a tick does not see what an earlier one
 wrote. Query results with a free choice (row order, which open incident is newest) and the fresh
 identifiers are inputs of the tick, constrained by what the queries ask for.
 */
module Detect {
  import opened Model
  import opened Keys
  import opened Sorting
  import opened Threshold
  import Series

  const FLAP_WINDOW := 3600
  const FLAP_THRESHOLD := 6

  datatype Sample = Sample(monitor: string, component: string, startedAt: int, verdict: Verdict, manual: bool, inMaintenance: bool)
  datatype MonitorDef = MonitorDef(component: string, enabled: bool, failure: int, recovery: int)
  datatype ComponentDef = ComponentDef(service: string, rollup: string)
  datatype Config = Config(monitors: map<string, MonitorDef>, components: map<string, ComponentDef>)

  datatype ComponentState = ComponentState(verdict: Verdict, since: int, flaps: int, flapsSince: int, incident: string, updatedAt: int)
  datatype Incident = Incident(service: string, components: string, openedAt: int, resolved: bool, auto: bool)
  datatype AlertKind = WentDown | WentUp | Flapping
  datatype Alert = Alert(kind: AlertKind, component: string, incident: string, at: int, window: int)

  datatype Database = Database(
    monitors: map<string, MonitorState>,
    components: map<string, ComponentState>,
    incidents: map<string, Incident>,
    alerts: seq<Alert>)

  function NewComponent(now: int): ComponentState { ComponentState(Up, now, 0, 0, "", 0) }

  // ----- the latest reading of each monitor -----

  function Newer(latest: map<string, Sample>, s: Sample): map<string, Sample> {
    if s.manual || (s.monitor in latest && s.startedAt < latest[s.monitor].startedAt) then latest
    else latest[s.monitor := s]
  }

  function Latest(samples: seq<Sample>): map<string, Sample> {
    if samples == [] then map[] else Newer(Latest(samples[..|samples| - 1]), samples[|samples| - 1])
  }

  predicate Moves(s: Sample, m: string) { s.monitor == m && !s.manual }

  /** Reading `i` is the monitor's latest: automatic, none started later, and the last of those. */
  ghost predicate Newest(samples: seq<Sample>, m: string, i: nat) {
    && i < |samples| && Moves(samples[i], m)
    && forall k | 0 <= k < |samples| && Moves(samples[k], m) ::
         samples[k].startedAt <= samples[i].startedAt && (k > i ==> samples[k].startedAt < samples[i].startedAt)
  }

  lemma {:induction false} LatestIsNewest(samples: seq<Sample>, m: string)
    ensures m !in Latest(samples) ==> forall i | 0 <= i < |samples| :: !Moves(samples[i], m)
    ensures m in Latest(samples) ==> exists i: nat :: i < |samples| && Newest(samples, m, i) && samples[i] == Latest(samples)[m]
  {
    hide Newest;
    if samples != [] {
      var n := |samples| - 1;
      var front := samples[..n];
      LatestIsNewest(front, m);
      if m in Latest(front) {
        var i: nat :| i < |front| && Newest(front, m, i) && front[i] == Latest(front)[m];
        NewestNext(samples, m, i);
        assert Newest(samples, m, if Moves(samples[n], m) && samples[n].startedAt >= front[i].startedAt then n else i);
      } else {
        assert forall i | 0 <= i < n :: samples[i] == front[i];
        if m in Latest(samples) { NewestFirst(samples, m); }
      }
    }
  }

  lemma NewestNext(samples: seq<Sample>, m: string, i: nat)
    requires samples != [] && Newest(samples[..|samples| - 1], m, i)
    ensures var n := |samples| - 1;
            i < n && samples[i] == samples[..n][i] && samples[i].monitor == m
            && Newest(samples, m, if Moves(samples[n], m) && samples[n].startedAt >= samples[i].startedAt then n else i)
  {
    var front := samples[..|samples| - 1];
    assert forall k | 0 <= k < |front| :: front[k] == samples[k];
  }

  lemma NewestFirst(samples: seq<Sample>, m: string)
    requires samples != [] && Moves(samples[|samples| - 1], m)
    requires forall i | 0 <= i < |samples| - 1 :: !Moves(samples[i], m)
    ensures Newest(samples, m, |samples| - 1)
  {}

  // ----- rolling monitors up into a component -----

  function Rank(v: Verdict): nat {
    match v
    case Up => 0
    case Error => 1
    case Degraded => 2
    case Down => 3
  }

  function Worse(a: Verdict, b: Verdict): Verdict { if Rank(b) > Rank(a) then b else a }

  /** A monitor without a usable reading yet. */
  predicate Skipped(s: MonitorState) { s.raw == Some(Error) && s.verdict == Up && s.since == 0 }

  /** The enabled monitors of a component that have a state. */
  ghost function Seen(cfg: Config, states: map<string, MonitorState>, c: string): set<string> {
    set id | id in cfg.monitors && cfg.monitors[id].component == c && cfg.monitors[id].enabled
             && id in states && !Skipped(states[id])
  }

  ghost function DownOf(cfg: Config, states: map<string, MonitorState>, c: string): set<string> {
    set id | id in Seen(cfg, states, c) && states[id].verdict == Down
  }

  /** The most severe verdict of any of them. */
  ghost function WorstOf(cfg: Config, states: map<string, MonitorState>, c: string): Verdict {
    var ids := Seen(cfg, states, c);
    if exists id :: id in ids && states[id].verdict == Down then Down
    else if exists id :: id in ids && states[id].verdict == Degraded then Degraded
    else if exists id :: id in ids && states[id].verdict == Error then Error
    else Up
  }

  function Capped(v: Verdict): Verdict { if v == Down then Degraded else v }

  function Judge(rollup: string, seen: nat, down: nat, worst: Verdict): Verdict {
    if rollup == ROLLUP_ALL then if down == seen then Down else Capped(worst)
    else if rollup == ROLLUP_MAJORITY then if down * 2 > seen then Down else Capped(worst)
    else worst
  }

  ghost function Verdicts(cfg: Config, states: map<string, MonitorState>, c: string, rollup: string): Verdict {
    Judge(rollup, |Seen(cfg, states, c)|, |DownOf(cfg, states, c)|, WorstOf(cfg, states, c))
  }

  /** The live verdict is down by the same rule the availability calculation applies. */
  lemma LiveRuleIsReportRule(cfg: Config, states: map<string, MonitorState>, c: string, rollup: string)
    requires Seen(cfg, states, c) != {}
    ensures Verdicts(cfg, states, c, rollup) == Down
            <==> Series.Rule(rollup, |DownOf(cfg, states, c)|, |Seen(cfg, states, c)|)
  {
    var down := DownOf(cfg, states, c);
    if id :| id in Seen(cfg, states, c) && states[id].verdict == Down {
      assert id in down;
      assert |down| > 0;
    } else {
      assert down == {};
    }
  }

  /** What the query for a component's enabled monitors returns, in any order. */
  ghost predicate Rows(cfg: Config, c: string, rows: seq<string>) {
    && NoRepeats(rows)
    && forall id :: id in rows <==> id in cfg.monitors && cfg.monitors[id].component == c && cfg.monitors[id].enabled
  }

  ghost function Among(rows: seq<string>, ids: set<string>): set<string> { set id | id in rows && id in ids }

  lemma AmongNext(rows: seq<string>, n: nat, ids: set<string>)
    requires n < |rows| && NoRepeats(rows)
    ensures Among(rows[..n + 1], ids) == Among(rows[..n], ids) + if rows[n] in ids then {rows[n]} else {}
    ensures rows[n] !in Among(rows[..n], ids)
  {
    assert rows[..n + 1] == rows[..n] + [rows[n]];
  }

  /** The most severe verdict among some of the monitors. */
  ghost predicate IsWorst(states: map<string, MonitorState>, ids: set<string>, worst: Verdict) {
    && (worst == Up || exists id :: id in ids && id in states && states[id].verdict == worst)
    && forall id | id in ids && id in states :: Rank(states[id].verdict) <= Rank(worst)
  }

  lemma WorstIsWorst(cfg: Config, states: map<string, MonitorState>, c: string, worst: Verdict)
    requires IsWorst(states, Seen(cfg, states, c), worst)
    ensures worst == WorstOf(cfg, states, c)
  {}

  ghost predicate Tallied(cfg: Config, states: map<string, MonitorState>, c: string, rows: seq<string>,
                          seen: nat, down: nat, worst: Verdict)
  {
    && seen == |Among(rows, Seen(cfg, states, c))| && down == |Among(rows, DownOf(cfg, states, c))|
    && IsWorst(states, Among(rows, Seen(cfg, states, c)), worst)
  }

  lemma TallyNone(cfg: Config, states: map<string, MonitorState>, c: string)
    ensures Tallied(cfg, states, c, [], 0, 0, Up)
  {
    assert Among([], Seen(cfg, states, c)) == {} && Among([], DownOf(cfg, states, c)) == {};
  }

  lemma TallyNext(cfg: Config, states: map<string, MonitorState>, c: string, rows: seq<string>, i: nat,
                  seen: nat, down: nat, worst: Verdict)
    requires Rows(cfg, c, rows) && i < |rows| && Tallied(cfg, states, c, rows[..i], seen, down, worst)
    ensures rows[i] !in states || Skipped(states[rows[i]]) ==> Tallied(cfg, states, c, rows[..i + 1], seen, down, worst)
    ensures rows[i] in states && !Skipped(states[rows[i]]) ==>
              Tallied(cfg, states, c, rows[..i + 1], seen + 1, if states[rows[i]].verdict == Down then down + 1 else down,
                      Worse(worst, states[rows[i]].verdict))
  {
    hide Seen, DownOf, Among, IsWorst, Skipped;
    var ids := Seen(cfg, states, c);
    AmongNext(rows, i, ids);
    AmongNext(rows, i, DownOf(cfg, states, c));
    SeenOrNot(cfg, states, c, rows, rows[i]);
    if rows[i] in states { WorstNext(states, Among(rows[..i], ids), rows[i], worst); }
  }

  /** Counts a component's monitors. */
  method Tally(cfg: Config, stored: map<string, MonitorState>, updated: map<string, MonitorState>,
               c: string, rows: seq<string>) returns (seen: nat, down: nat, worst: Verdict)
    requires Rows(cfg, c, rows)
    ensures Tallied(cfg, stored + updated, c, rows, seen, down, worst)
  {
    hide Tallied, Rows;
    seen, down, worst := 0, 0, Up;
    TallyNone(cfg, stored + updated, c);
    for i := 0 to |rows|
      invariant Tallied(cfg, stored + updated, c, rows[..i], seen, down, worst)
    {
      var id := rows[i];
      TallyNext(cfg, stored + updated, c, rows, i, seen, down, worst);
      if id !in updated && id !in stored {
        continue;
      }
      var st := if id in updated then updated[id] else stored[id];
      if st.raw == Some(Error) && st.verdict == Up && st.since == 0 {
        continue;
      }
      seen := seen + 1;
      if st.verdict == Down {
        down := down + 1;
      }
      worst := Worse(worst, st.verdict);
    }
    assert rows[..|rows|] == rows;
  }

  /** A component's verdict from its monitors, and how many of them had one. */
  method Judged(cfg: Config, stored: map<string, MonitorState>, updated: map<string, MonitorState>,
                c: string, rollup: string, rows: seq<string>) returns (seen: nat, verdict: Verdict)
    requires Rows(cfg, c, rows)
    ensures var states := stored + updated;
            && seen == |Seen(cfg, states, c)|
            && (seen > 0 ==> verdict == Verdicts(cfg, states, c, rollup))
  {
    hide Seen, DownOf, IsWorst, WorstOf, Rows, Among;
    var down, worst;
    seen, down, worst := Tally(cfg, stored, updated, c, rows);
    verdict := Up;
    if seen == 0 {
      AllAmong(cfg, stored + updated, c, rows);
      return;
    }
    if rollup == ROLLUP_ALL {
      if down == seen {
        verdict := Down;
      } else {
        verdict := worst;
        if verdict == Down {
          verdict := Degraded;
        }
      }
    } else if rollup == ROLLUP_MAJORITY {
      if down * 2 > seen {
        verdict := Down;
      } else {
        verdict := worst;
        if verdict == Down {
          verdict := Degraded;
        }
      }
    } else {
      verdict := worst;
    }
    AllAmong(cfg, stored + updated, c, rows);
    WorstIsWorst(cfg, stored + updated, c, worst);
  }

  lemma SeenOrNot(cfg: Config, states: map<string, MonitorState>, c: string, rows: seq<string>, id: string)
    requires Rows(cfg, c, rows) && id in rows
    ensures id in Seen(cfg, states, c) <==> id in states && !Skipped(states[id])
    ensures id in DownOf(cfg, states, c) <==> id in Seen(cfg, states, c) && states[id].verdict == Down
  {}

  lemma AllAmong(cfg: Config, states: map<string, MonitorState>, c: string, rows: seq<string>)
    requires Rows(cfg, c, rows)
    ensures Among(rows, Seen(cfg, states, c)) == Seen(cfg, states, c)
    ensures Among(rows, DownOf(cfg, states, c)) == DownOf(cfg, states, c)
  {}

  lemma WorstNext(states: map<string, MonitorState>, ids: set<string>, id: string, worst: Verdict)
    requires IsWorst(states, ids, worst) && id in states
    ensures IsWorst(states, ids + {id}, Worse(worst, states[id].verdict))
  {
    if Worse(worst, states[id].verdict) == states[id].verdict { assert id in ids + {id}; }
    if k :| k in ids && k in states && states[k].verdict == worst { assert k in ids + {id}; }
  }

  // ----- what a change of verdict does -----

  datatype Outcome =
    | Unchanged
    | Changed(state: ComponentState, opening: Option<(string, Incident)>, closing: Option<string>, alerts: seq<Alert>)

  function StateOf(db: Database, c: string, now: int): ComponentState {
    if c in db.components then db.components[c] else NewComponent(now)
  }

  /** The change is counted in the current window, or starts a new one. */
  function Moved(st: ComponentState, verdict: Verdict, now: int): ComponentState {
    var t := st.(verdict := verdict, since := now, updatedAt := now);
    if now - st.flapsSince > FLAP_WINDOW then t.(flaps := 1, flapsSince := now) else t.(flaps := st.flaps + 1)
  }

  function RollUp(db: Database, service: string, c: string, verdict: Verdict, maintenance: bool, now: int,
                  found: Option<string>, id: string): Outcome
  {
    var prior := StateOf(db, c, now);
    if prior.verdict == verdict then Unchanged
    else
      var st := Moved(prior, verdict, now);
      var flapping := st.flaps > FLAP_THRESHOLD;
      var quiet := maintenance || flapping;
      var settled := if flapping && st.flaps == FLAP_THRESHOLD + 1 && !maintenance
                     then [Alert(Flapping, c, "", now, st.flapsSince)] else [];
      if verdict == Down then
        var incident := if found.Some? then found.value else id;
        Changed(st.(incident := incident),
          if found.Some? then None else Some((id, Incident(service, c, now, false, true))), None,
          (if quiet then [] else [Alert(WentDown, c, incident, now, st.flapsSince)]) + settled)
      else if prior.verdict == Down then
        var i := st.incident;
        Changed(st.(incident := ""), None,
          if i != "" && i in db.incidents && db.incidents[i].auto && !db.incidents[i].resolved then Some(i) else None,
          (if quiet then [] else [Alert(WentUp, c, i, now, st.flapsSince)]) + settled)
      else
        Changed(st, None, None, settled)
  }

  /** SQL's LIKE with the pattern `%id%`: an underscore matches any one character. */
  predicate Like(s: string, id: string) {
    exists i :: 0 <= i <= |s| - |id| && LikeAt(s, id, i)
  }

  predicate LikeAt(s: string, id: string, i: int)
    requires 0 <= i <= |s| - |id|
  {
    forall k | 0 <= k < |id| :: id[k] == '_' || s[i + k] == id[k]
  }

  ghost predicate Matches(db: Database, service: string, c: string, i: string) {
    i in db.incidents && db.incidents[i].service == service && !db.incidents[i].resolved && Like(db.incidents[i].components, c)
  }

  /** The newest open incident that names the component, if there is one. */
  ghost predicate Found(db: Database, service: string, c: string, found: Option<string>) {
    match found
    case None => forall i :: !Matches(db, service, c, i)
    case Some(i) => Matches(db, service, c, i) && forall j | Matches(db, service, c, j) :: db.incidents[j].openedAt <= db.incidents[i].openedAt
  }

  function Commit(db: Database, c: string, o: Outcome): Database {
    if o.Unchanged? then db
    else
      var extended := if o.opening.Some? then db.incidents[o.opening.value.0 := o.opening.value.1] else db.incidents;
      var incidents := if o.closing.Some? && o.closing.value in extended
                       then extended[o.closing.value := extended[o.closing.value].(resolved := true)] else extended;
      db.(components := db.components[c := o.state], incidents := incidents, alerts := db.alerts + o.alerts)
  }

  // ----- a tick -----

  /** Everything a tick is given. */
  datatype Tick = Tick(
    cfg: Config, latest: map<string, Sample>, now: int,
    order: seq<string>, found: map<string, Option<string>>, ids: map<string, string>)

  function StoredMonitor(db: Database, id: string, now: int): MonitorState {
    if id in db.monitors then db.monitors[id] else NewState(now)
  }

  /** The monitor has a reading this tick and is still configured. */
  predicate Read(t: Tick, id: string) { id in t.latest && id in t.cfg.monitors }

  function UpdatedMonitor(db: Database, t: Tick, id: string): MonitorState
    requires Read(t, id)
  {
    Advanced(StoredMonitor(db, id, t.now), t.cfg.monitors[id].failure, t.cfg.monitors[id].recovery, t.latest[id].verdict, t.now)
  }

  function Updated(db: Database, t: Tick): map<string, MonitorState> {
    map id | id in t.latest && Read(t, id) :: UpdatedMonitor(db, t, id)
  }

  /** The monitor's verdict changes this tick. */
  predicate Turns(db: Database, t: Tick, id: string) {
    Read(t, id) && UpdatedMonitor(db, t, id).verdict != StoredMonitor(db, id, t.now).verdict
  }

  /** The components with a monitor whose verdict changed. */
  ghost function Touched(db: Database, t: Tick): set<string> {
    set id | id in t.latest && Turns(db, t, id) :: t.latest[id].component
  }

  predicate InMaintenance(latest: map<string, Sample>, c: string) {
    exists m :: m in latest && latest[m].component == c && latest[m].inMaintenance
  }

  ghost function Decide(db: Database, t: Tick, c: string): Outcome {
    var states := db.monitors + Updated(db, t);
    if c !in t.cfg.components || Seen(t.cfg, states, c) == {} || c !in t.found || c !in t.ids then Unchanged
    else
      var def := t.cfg.components[c];
      RollUp(db, def.service, c, Verdicts(t.cfg, states, c, def.rollup), InMaintenance(t.latest, c), t.now, t.found[c], t.ids[c])
  }

  /** The tables after the first components of the tick's order are committed. */
  ghost function Committed(db: Database, t: Tick, order: seq<string>): Database {
    if order == [] then db.(monitors := db.monitors + Updated(db, t))
    else
      var c := order[|order| - 1];
      Commit(Committed(db, t, order[..|order| - 1]), c, Decide(db, t, c))
  }

  ghost function Ticked(db: Database, t: Tick): Database {
    if t.latest == map[] then db else Committed(db, t, t.order)
  }

  /** The queries were answered truthfully and the new identifiers are new. */
  ghost predicate Answered(db: Database, t: Tick) {
    && (forall c | c in t.cfg.components :: c in t.found && c in t.ids)
    && (forall c | c in t.cfg.components :: Found(db, t.cfg.components[c].service, c, t.found[c]))
    && (forall c | c in t.cfg.components :: t.ids[c] != "" && t.ids[c] !in db.incidents)
    && (forall c, d | c in t.cfg.components && d in t.cfg.components && c != d :: t.ids[c] != t.ids[d])
  }

  /** The tick rolls up exactly the touched components, each once. */
  ghost predicate Ordered(db: Database, t: Tick) {
    NoRepeats(t.order) && (forall c :: c in t.order <==> c in Touched(db, t))
  }

  // ----- the loops -----

  method CountChange(prior: ComponentState, verdict: Verdict, now: int) returns (st: ComponentState)
    ensures st == Moved(prior, verdict, now)
  {
    st := prior.(verdict := verdict, since := now, updatedAt := now);
    if now - st.flapsSince > FLAP_WINDOW {
      st := st.(flaps := 1, flapsSince := now);
    } else {
      st := st.(flaps := st.flaps + 1);
    }
  }

  /** `rollUpComponent`: updates the component's state field by field and collects what to write. */
  method RollUpComponent(db: Database, service: string, c: string, verdict: Verdict, maintenance: bool, now: int,
                         found: Option<string>, id: string) returns (o: Outcome)
    ensures o == RollUp(db, service, c, verdict, maintenance, now, found, id)
  {
    var st := if c in db.components then db.components[c] else NewComponent(now);
    if st.verdict == verdict {
      return Unchanged;
    }
    hide Moved;
    var previous := st.verdict;
    st := CountChange(st, verdict, now);
    var alerts: seq<Alert> := [];
    var opening: Option<(string, Incident)> := None;
    var closing: Option<string> := None;
    var flapping := st.flaps > FLAP_THRESHOLD;
    if verdict == Down {
      if found.Some? {
        st := st.(incident := found.value);
      } else {
        opening := Some((id, Incident(service, c, now, false, true)));
        st := st.(incident := id);
      }
      if !maintenance && !flapping {
        alerts := alerts + [Alert(WentDown, c, st.incident, now, st.flapsSince)];
      }
    } else if previous == Down {
      if st.incident != "" {
        if st.incident in db.incidents && db.incidents[st.incident].auto && !db.incidents[st.incident].resolved {
          closing := Some(st.incident);
        }
      }
      if !maintenance && !flapping {
        alerts := alerts + [Alert(WentUp, c, st.incident, now, st.flapsSince)];
      }
      st := st.(incident := "");
    }
    if flapping && st.flaps == FLAP_THRESHOLD + 1 && !maintenance {
      alerts := alerts + [Alert(Flapping, c, "", now, st.flapsSince)];
    }
    return Changed(st, opening, closing, alerts);
  }

  /** The monitors handled so far, and the components they touched. */
  ghost predicate Handled(db: Database, t: Tick, done: seq<string>, updated: map<string, MonitorState>, touched: set<string>) {
    && (forall id :: id in updated <==> id in done && Read(t, id))
    && (forall id | id in updated :: updated[id] == UpdatedMonitor(db, t, id))
    && (forall c :: c in touched <==> exists id :: id in done && Turns(db, t, id) && t.latest[id].component == c)
  }

  lemma HandledNext(db: Database, t: Tick, done: seq<string>, updated: map<string, MonitorState>, touched: set<string>, id: string)
    requires Handled(db, t, done, updated, touched)
    ensures var updated' := if Read(t, id) then updated[id := UpdatedMonitor(db, t, id)] else updated;
            var touched' := if Turns(db, t, id) then touched + {t.latest[id].component} else touched;
            Handled(db, t, done + [id], updated', touched')
  {
    hide UpdatedMonitor;
    var touched' := if Turns(db, t, id) then touched + {t.latest[id].component} else touched;
    forall c ensures c in touched' <==> exists k :: k in done + [id] && Turns(db, t, k) && t.latest[k].component == c {
      if k :| k in done && Turns(db, t, k) && t.latest[k].component == c { assert k in done + [id]; }
      if Turns(db, t, id) && t.latest[id].component == c { assert id in done + [id]; }
    }
  }

  lemma HandledAll(db: Database, t: Tick, done: seq<string>, updated: map<string, MonitorState>, touched: set<string>)
    requires Handled(db, t, done, updated, touched) && forall id :: id in done <==> id in t.latest
    ensures updated == Updated(db, t) && touched == Touched(db, t)
  {
    hide UpdatedMonitor, Turns;
    assert forall id :: id in updated <==> id in Updated(db, t);
  }

  /** The monitor's tables, and `detect` over them. */
  class Detector {
    var monitors: map<string, MonitorState>
    var components: map<string, ComponentState>
    var incidents: map<string, Incident>
    var alerts: seq<Alert>

    ghost function View(): Database reads this { Database(monitors, components, incidents, alerts) }

    constructor ()
      ensures View() == Database(map[], map[], map[], [])
    {
      monitors, components, incidents, alerts := map[], map[], map[], [];
    }

    /** Advances each monitor that has a reading, and notes the components whose monitors moved. */
    method AdvanceMonitors(t: Tick) returns (updated: map<string, MonitorState>, touched: set<string>)
      ensures updated == Updated(View(), t) && touched == Touched(View(), t)
    {
      hide Handled, Updated, Touched, Advanced;
      var order := Listed(t.latest.Keys);
      updated, touched := map[], {};
      HandledNone(View(), t);
      for i := 0 to |order|
        invariant Handled(View(), t, order[..i], updated, touched)
      {
        var id := order[i];
        assert id in t.latest.Keys;
        assert order[..i + 1] == order[..i] + [id];
        HandledNext(View(), t, order[..i], updated, touched, id);
        if id !in t.cfg.monitors {
          continue;
        }
        var s, def := t.latest[id], t.cfg.monitors[id];
        var st := new Monitor(if id in monitors then monitors[id] else NewState(t.now));
        var first := st.verdict;
        st.Advance(def.failure, def.recovery, s.verdict, t.now);
        var row := st.Row();
        updated := updated[id := row];
        if row.verdict != first {
          touched := touched + {s.component};
        }
      }
      assert order[..|order|] == order;
      HandledAll(View(), t, order, updated, touched);
    }

    /** What one touched component writes, read from the tables as the tick found them. */
    method DecideComponent(t: Tick, updated: map<string, MonitorState>, c: string, rows: map<string, seq<string>>)
      returns (o: Outcome)
      requires updated == Updated(View(), t) && Supplied(t, rows)
      ensures o == Decide(View(), t, c)
    {
      hide RollUp, Updated, Verdicts, Seen, Rows;
      if c !in t.cfg.components {
        return Unchanged;
      }
      var def := t.cfg.components[c];
      var seen, verdict := Judged(t.cfg, monitors, updated, c, def.rollup, rows[c]);
      if seen == 0 {
        return Unchanged;
      }
      var maintenance := exists m :: m in t.latest && t.latest[m].component == c && t.latest[m].inMaintenance;
      o := RollUpComponent(Database(monitors, components, incidents, alerts), def.service, c, verdict, maintenance, t.now, t.found[c], t.ids[c]);
    }

    method CommitOutcome(c: string, o: Outcome)
      modifies this
      ensures View() == Commit(old(View()), c, o)
    {
      if o.Unchanged? {
        return;
      }
      if o.opening.Some? {
        incidents := incidents[o.opening.value.0 := o.opening.value.1];
      }
      if o.closing.Some? && o.closing.value in incidents {
        incidents := incidents[o.closing.value := incidents[o.closing.value].(resolved := true)];
      }
      components := components[c := o.state];
      alerts := alerts + o.alerts;
    }

    /** One tick's readings: states advanced, components rolled up in order, everything committed at the end. */
    method Detect(samples: seq<Sample>, given: Tick, rows: map<string, seq<string>>) returns (ghost t: Tick)
      requires Supplied(given, rows)
      modifies this
      ensures t == given.(latest := Latest(samples), order := t.order)
      ensures Ordered(old(View()), t) && View() == Ticked(old(View()), t)
    {
      hide Updated, Touched, Decide, Commit, Latest, Newer;
      var latest: map<string, Sample> := map[];
      LatestOfNone();
      for i := 0 to |samples|
        invariant View() == old(View()) && latest == Latest(samples[..i])
      {
        LatestNext(samples[..i], samples[i]);
        assert samples[..i + 1] == samples[..i] + [samples[i]];
        latest := Newer(latest, samples[i]);
      }
      assert samples[..|samples|] == samples;
      ghost var db := View();
      var work := given.(latest := latest);
      if |latest| == 0 {
        t := work.(order := []);
        assert latest == map[];
        NothingTouched(db, t);
        return;
      }
      var updated, touched := AdvanceMonitors(work);
      var order := Listed(touched);
      t := work.(order := order);
      SameWork(db, t, work);
      var outcomes: seq<Outcome> := [];
      for i := 0 to |order|
        invariant View() == db
        invariant |outcomes| == i && forall k | 0 <= k < i :: outcomes[k] == Decide(db, t, order[k])
      {
        var o := DecideComponent(work, updated, order[i], rows);
        SameDecision(db, t, work, order[i]);
        outcomes := outcomes + [o];
      }
      monitors := monitors + updated;
      for i := 0 to |order|
        invariant View() == Committed(db, t, order[..i])
      {
        assert order[..i + 1][..i] == order[..i];
        CommitOutcome(order[i], outcomes[i]);
      }
      assert order[..|order|] == order;
    }
  }

  /** What the queries and the identifier source give for every configured component. */
  ghost predicate Supplied(t: Tick, rows: map<string, seq<string>>) {
    forall c | c in t.cfg.components :: c in t.found && c in t.ids && c in rows && Rows(t.cfg, c, rows[c])
  }

  lemma LatestOfNone()
    ensures Latest([]) == map[]
  {}

  lemma LatestNext(samples: seq<Sample>, s: Sample)
    ensures Latest(samples + [s]) == Newer(Latest(samples), s)
  {
    assert (samples + [s])[..|samples|] == samples;
  }

  /** The order of a tick plays no part in what its monitors and components do. */
  lemma SameWork(db: Database, t: Tick, u: Tick)
    requires u.(order := t.order) == t
    ensures Updated(db, t) == Updated(db, u) && Touched(db, t) == Touched(db, u)
  {
    assert forall id :: Read(t, id) <==> Read(u, id);
    assert forall id | Read(t, id) :: UpdatedMonitor(db, t, id) == UpdatedMonitor(db, u, id);
    assert forall id :: Turns(db, t, id) <==> Turns(db, u, id);
  }

  lemma SameDecision(db: Database, t: Tick, u: Tick, c: string)
    requires u.(order := t.order) == t
    ensures Decide(db, t, c) == Decide(db, u, c)
  {
    hide Updated, Touched, RollUp, Seen, Verdicts;
    SameWork(db, t, u);
  }

  lemma NothingTouched(db: Database, t: Tick)
    requires t.latest == map[]
    ensures Touched(db, t) == {}
  {}

  lemma HandledNone(db: Database, t: Tick)
    ensures Handled(db, t, [], map[], {})
  {}
}
