/**
 What runs of detection keep: components, the incidents the monitor opens itself, and flap
 damping (internal/core/detect.go). Nobody edits an incident by hand in these runs.
 */
module Incidents {
  import opened Model
  import opened Threshold
  import opened Sorting
  import opened Detect
  import Series

  // ----- components and incidents -----

  /** Within one service, no component's identifier is found inside another's by the query for open incidents. */
  ghost predicate Apart(homes: set<(string, string)>) {
    forall a, b, service | (a, service) in homes && (b, service) in homes && Like(a, b) :: a == b
  }

  /** Every component is configured in a service it has a home in. */
  ghost predicate AtHome(cfg: Config, homes: set<(string, string)>) {
    forall c | c in cfg.components :: (c, cfg.components[c].service) in homes
  }

  /** Identifiers of one length with the same prefix, as the service makes them, are apart. */
  lemma SameLengthApart(homes: set<(string, string)>, prefix: string)
    requires forall a, b | a in homes && b in homes :: |a.0| == |b.0|
    requires forall a | a in homes :: prefix <= a.0 && forall k | |prefix| <= k < |a.0| :: a.0[k] != '_'
    ensures Apart(homes)
  {
    forall a, b, service | (a, service) in homes && (b, service) in homes && Like(a, b) ensures a == b {
      assert |(a, service).0| == |(b, service).0| && prefix <= (a, service).0 && prefix <= (b, service).0;
      assert LikeAt(a, b, 0);
      forall k | 0 <= k < |a| ensures a[k] == b[k] {
        if k < |prefix| { assert a[k] == prefix[k] == b[k]; }
      }
    }
  }

  ghost predicate ComponentsLinked(db: Database) {
    forall c | c in db.components ::
      var i := db.components[c].incident;
      && (db.components[c].verdict == Down <==> i != "")
      && (i != "" ==> i in db.incidents && !db.incidents[i].resolved && db.incidents[i].components == c)
  }

  ghost predicate IncidentsLinked(db: Database, homes: set<(string, string)>) {
    forall i | i in db.incidents ::
      var incident := db.incidents[i];
      && i != "" && incident.auto && (incident.components, incident.service) in homes
      && (!incident.resolved ==> incident.components in db.components && db.components[incident.components].incident == i)
  }

  ghost predicate Linked(db: Database, homes: set<(string, string)>) { ComponentsLinked(db) && IncidentsLinked(db, homes) }

  /** The tables a tick is committing still show the component as it was read. */
  ghost predicate Untouched(db: Database, cur: Database, c: string) {
    && (c in db.components <==> c in cur.components)
    && (c in db.components ==> cur.components[c] == db.components[c])
    && forall i | i in db.incidents && db.incidents[i].components == c :: i in cur.incidents && cur.incidents[i] == db.incidents[i]
  }

  /** A component that is not down has no open incident to adopt. */
  lemma NothingToAdopt(db: Database, homes: set<(string, string)>, service: string, c: string, found: Option<string>)
    requires Linked(db, homes) && Apart(homes) && (c, service) in homes && Found(db, service, c, found)
    requires c !in db.components || db.components[c].verdict != Down
    ensures found == None
  {
    hide Like;
  }

  /** What a component writes: its own state, a new incident of its own, or the end of its own incident. */
  ghost predicate Proper(cur: Database, service: string, c: string, id: string, o: Outcome) {
    o.Changed? ==>
      var wasDown := c in cur.components && cur.components[c].verdict == Down;
      if o.state.verdict == Down then
        && !wasDown && o.state.incident == id && o.closing == None
        && o.opening.Some? && o.opening.value.0 == id
        && o.opening.value.1.components == c && o.opening.value.1.service == service && !o.opening.value.1.resolved && o.opening.value.1.auto
      else
        && o.opening == None && o.state.incident == ""
        && o.closing == if wasDown then Some(cur.components[c].incident) else None
  }

  lemma DecisionIsProper(db: Database, cur: Database, homes: set<(string, string)>, t: Tick, c: string)
    requires Linked(db, homes) && Apart(homes) && AtHome(t.cfg, homes)
    requires Answered(db, t) && Untouched(db, cur, c) && c in t.cfg.components
    ensures Proper(cur, t.cfg.components[c].service, c, t.ids[c], Decide(db, t, c))
  {
    hide Like, Seen, Verdicts, Updated, Apart;
    var service := t.cfg.components[c].service;
    if c !in db.components || db.components[c].verdict != Down {
      NothingToAdopt(db, homes, service, c, t.found[c]);
    }
  }

  lemma CommitKeepsLinks(cur: Database, homes: set<(string, string)>, service: string, c: string, id: string, o: Outcome)
    requires Linked(cur, homes) && (c, service) in homes && Proper(cur, service, c, id, o)
    requires id != "" && id !in cur.incidents
    ensures Linked(Commit(cur, c, o), homes)
  {
    hide Apart;
  }

  lemma CommitLeavesOthers(db: Database, cur: Database, homes: set<(string, string)>, service: string, c: string, id: string, o: Outcome, d: string)
    requires Linked(cur, homes) && Proper(cur, service, c, id, o) && id !in cur.incidents
    requires Untouched(db, cur, d) && d != c
    ensures Untouched(db, Commit(cur, c, o), d)
    ensures forall i | i in Commit(cur, c, o).incidents :: i in cur.incidents || i == id
  {}

  /** Before a component's turn, the tick has left it alone. */
  lemma {:induction false} TickKeepsLinks(db: Database, homes: set<(string, string)>, t: Tick, n: nat)
    requires Linked(db, homes) && Apart(homes) && AtHome(t.cfg, homes)
    requires Answered(db, t) && NoRepeats(t.order) && n <= |t.order|
    ensures var cur := Committed(db, t, t.order[..n]);
            && Linked(cur, homes)
            && (forall d | d !in t.order[..n] :: Untouched(db, cur, d))
            && (forall d | d in t.cfg.components && d !in t.order[..n] :: t.ids[d] !in cur.incidents)
  {
    hide Linked, Untouched, Commit, Decide, Proper, Apart, Found, Updated;
    if n == 0 {
      NothingCommitted(db, homes, t);
    } else {
      TickKeepsLinks(db, homes, t, n - 1);
      var done, c := t.order[..n - 1], t.order[n - 1];
      assert t.order[..n][..n - 1] == done && t.order[..n] == done + [c];
      var cur, o := Committed(db, t, done), Decide(db, t, c);
      assert c !in done;
      if c in t.cfg.components {
        DecisionIsProper(db, cur, homes, t, c);
        CommitKeepsLinks(cur, homes, t.cfg.components[c].service, c, t.ids[c], o);
        forall d | d !in t.order[..n] ensures Untouched(db, Commit(cur, c, o), d) {
          CommitLeavesOthers(db, cur, homes, t.cfg.components[c].service, c, t.ids[c], o, d);
        }
        forall d | d in t.cfg.components && d !in t.order[..n] ensures t.ids[d] !in Commit(cur, c, o).incidents {
          CommitLeavesOthers(db, cur, homes, t.cfg.components[c].service, c, t.ids[c], o, d);
        }
      } else {
        UnknownDoesNothing(db, cur, t, c);
      }
    }
  }

  lemma UnknownDoesNothing(db: Database, cur: Database, t: Tick, c: string)
    requires c !in t.cfg.components
    ensures Commit(cur, c, Decide(db, t, c)) == cur
  {}

  lemma NothingCommitted(db: Database, homes: set<(string, string)>, t: Tick)
    requires Linked(db, homes) && Answered(db, t)
    ensures var cur := Committed(db, t, []);
            && Linked(cur, homes) && (forall d :: Untouched(db, cur, d))
            && (forall d | d in t.cfg.components :: t.ids[d] !in cur.incidents)
  {
    hide Updated, Found;
  }

  // ----- flap damping -----

  predicate ChangeAlert(a: Alert, c: string, window: int) { a.component == c && a.window == window && a.kind != Flapping }

  predicate FlapAlert(a: Alert, c: string, window: int) { a.component == c && a.window == window && a.kind == Flapping }

  function Changes(alerts: seq<Alert>, c: string, window: int): nat {
    if alerts == [] then 0
    else Changes(alerts[..|alerts| - 1], c, window) + if ChangeAlert(alerts[|alerts| - 1], c, window) then 1 else 0
  }

  function Flaps(alerts: seq<Alert>, c: string, window: int): nat {
    if alerts == [] then 0
    else Flaps(alerts[..|alerts| - 1], c, window) + if FlapAlert(alerts[|alerts| - 1], c, window) then 1 else 0
  }

  lemma CountAppend(alerts: seq<Alert>, a: Alert, c: string, window: int)
    ensures Changes(alerts + [a], c, window) == Changes(alerts, c, window) + if ChangeAlert(a, c, window) then 1 else 0
    ensures Flaps(alerts + [a], c, window) == Flaps(alerts, c, window) + if FlapAlert(a, c, window) then 1 else 0
  {
    assert (alerts + [a])[..|alerts|] == alerts;
  }

  /** How a window's alerts stand to the changes counted in the component's current window. */
  predicate WindowBounded(alerts: seq<Alert>, c: string, window: int, st: ComponentState) {
    && Changes(alerts, c, window) <= FLAP_THRESHOLD && Flaps(alerts, c, window) <= 1
    && (window == st.flapsSince ==>
          Changes(alerts, c, window) <= st.flaps && (st.flaps <= FLAP_THRESHOLD ==> Flaps(alerts, c, window) == 0))
    && (window > st.flapsSince ==> Changes(alerts, c, window) == 0 && Flaps(alerts, c, window) == 0)
  }

  ghost predicate Damped(db: Database) {
    && (forall c, w | c in db.components :: WindowBounded(db.alerts, c, w, db.components[c]))
    && (forall c, w | c !in db.components :: Changes(db.alerts, c, w) == 0 && Flaps(db.alerts, c, w) == 0)
  }

  /** What a component's change announces: at most one change and one flapping alert, of its own window. */
  lemma Announced(db: Database, service: string, c: string, verdict: Verdict, maintenance: bool, now: int,
                  found: Option<string>, id: string)
    requires StateOf(db, c, now).verdict != verdict
    ensures var o, st := RollUp(db, service, c, verdict, maintenance, now, found, id), Moved(StateOf(db, c, now), verdict, now);
            && o.Changed? && o.state.flaps == st.flaps && o.state.flapsSince == st.flapsSince
            && (o.alerts == []
                || (|o.alerts| == 1 && o.alerts[0].component == c && o.alerts[0].window == st.flapsSince
                    && if o.alerts[0].kind == Flapping then st.flaps == FLAP_THRESHOLD + 1 else st.flaps <= FLAP_THRESHOLD))
  {}

  lemma OneMoreAlert(alerts: seq<Alert>, new_: seq<Alert>, c: string, prior: ComponentState, verdict: Verdict, now: int, w: int)
    requires WindowBounded(alerts, c, w, prior)
    requires var st := Moved(prior, verdict, now);
             new_ == [] || (|new_| == 1 && new_[0].component == c && new_[0].window == st.flapsSince
                            && if new_[0].kind == Flapping then st.flaps == FLAP_THRESHOLD + 1 else st.flaps <= FLAP_THRESHOLD)
    ensures WindowBounded(alerts + new_, c, w, Moved(prior, verdict, now))
  {
    hide Changes, Flaps;
    if new_ == [] {
      assert alerts + new_ == alerts;
    } else {
      assert new_ == [new_[0]];
      CountAppend(alerts, new_[0], c, w);
    }
  }

  lemma OthersUncounted(alerts: seq<Alert>, new_: seq<Alert>, c: string, d: string, w: int)
    requires |new_| <= 1 && (forall a | a in new_ :: a.component == c) && c != d
    ensures Changes(alerts + new_, d, w) == Changes(alerts, d, w) && Flaps(alerts + new_, d, w) == Flaps(alerts, d, w)
  {
    hide Changes, Flaps;
    if new_ == [] {
      assert alerts + new_ == alerts;
    } else {
      assert new_ == [new_[0]];
      CountAppend(alerts, new_[0], d, w);
    }
  }

  lemma NewBounded(alerts: seq<Alert>, c: string, w: int, now: int)
    requires Changes(alerts, c, w) == 0 && Flaps(alerts, c, w) == 0
    ensures WindowBounded(alerts, c, w, NewComponent(now))
  {}

  lemma BoundedByFlaps(alerts: seq<Alert>, c: string, w: int, a: ComponentState, b: ComponentState)
    requires WindowBounded(alerts, c, w, a) && a.flaps == b.flaps && a.flapsSince == b.flapsSince
    ensures WindowBounded(alerts, c, w, b)
  {}

  lemma CommitKeepsDamped(db: Database, cur: Database, t: Tick, c: string)
    requires Damped(cur) && Untouched(db, cur, c)
    ensures Damped(Commit(cur, c, Decide(db, t, c)))
  {
    hide Seen, Verdicts, Updated, RollUp, WindowBounded, Moved, Changes, Flaps;
    var o := Decide(db, t, c);
    if o.Changed? {
      var def := t.cfg.components[c];
      var prior := StateOf(db, c, t.now);
      var verdict := Verdicts(t.cfg, db.monitors + Updated(db, t), c, def.rollup);
      SameVerdictUnchanged(db, t, c);
      Announced(db, def.service, c, verdict, InMaintenance(t.latest, c), t.now, t.found[c], t.ids[c]);
      var next := Commit(cur, c, o);
      forall d, w | d in next.components ensures WindowBounded(next.alerts, d, w, next.components[d]) {
        if d == c {
          if c !in cur.components { NewBounded(cur.alerts, c, w, t.now); }
          OneMoreAlert(cur.alerts, o.alerts, c, prior, verdict, t.now, w);
          BoundedByFlaps(next.alerts, c, w, Moved(prior, verdict, t.now), o.state);
        } else {
          OthersUncounted(cur.alerts, o.alerts, c, d, w);
          SameCounts(cur.alerts, next.alerts, d, w, cur.components[d]);
        }
      }
      forall d, w | d !in next.components ensures Changes(next.alerts, d, w) == 0 && Flaps(next.alerts, d, w) == 0 {
        OthersUncounted(cur.alerts, o.alerts, c, d, w);
      }
    }
  }

  lemma SameVerdictUnchanged(db: Database, t: Tick, c: string)
    requires Decide(db, t, c).Changed?
    ensures c in t.cfg.components && c in t.found && c in t.ids
    ensures StateOf(db, c, t.now).verdict != Verdicts(t.cfg, db.monitors + Updated(db, t), c, t.cfg.components[c].rollup)
  {
    hide Seen, Verdicts, Updated;
  }

  lemma SameCounts(a: seq<Alert>, b: seq<Alert>, c: string, w: int, st: ComponentState)
    requires WindowBounded(a, c, w, st) && Changes(b, c, w) == Changes(a, c, w) && Flaps(b, c, w) == Flaps(a, c, w)
    ensures WindowBounded(b, c, w, st)
  {}

  lemma {:induction false} TickKeepsDamped(db: Database, homes: set<(string, string)>, t: Tick, n: nat)
    requires Linked(db, homes) && Apart(homes) && AtHome(t.cfg, homes) && Damped(db)
    requires Answered(db, t) && NoRepeats(t.order) && n <= |t.order|
    ensures Damped(Committed(db, t, t.order[..n]))
  {
    hide Linked, Untouched, Commit, Decide, Apart, Found, Updated, WindowBounded, Changes, Flaps, Answered;
    if n > 0 {
      TickKeepsDamped(db, homes, t, n - 1);
      TickKeepsLinks(db, homes, t, n - 1);
      var c := t.order[n - 1];
      assert t.order[..n][..n - 1] == t.order[..n - 1];
      assert c !in t.order[..n - 1];
      CommitKeepsDamped(db, Committed(db, t, t.order[..n - 1]), t, c);
    }
  }

  // ----- whole runs -----

  const EMPTY := Database(map[], map[], map[], [])

  ghost function After(ticks: seq<Tick>): Database {
    if ticks == [] then EMPTY else Ticked(After(ticks[..|ticks| - 1]), ticks[|ticks| - 1])
  }

  /** Every tick's queries are answered from the tables it finds; the component identifiers of each service are apart. */
  ghost predicate Run(ticks: seq<Tick>, homes: set<(string, string)>) {
    && Apart(homes)
    && forall k | 0 <= k < |ticks| ::
         && AtHome(ticks[k].cfg, homes)
         && Answered(After(ticks[..k]), ticks[k]) && Ordered(After(ticks[..k]), ticks[k])
  }

  lemma {:induction false} RunKeeps(ticks: seq<Tick>, homes: set<(string, string)>)
    requires Run(ticks, homes)
    ensures Linked(After(ticks), homes) && Damped(After(ticks))
  {
    hide Linked, Damped, Apart, Answered, Committed;
    if ticks == [] {
      StartsLinked(homes);
    } else {
      var n := |ticks| - 1;
      var front, t := ticks[..n], ticks[n];
      forall k | 0 <= k < n ensures front[k] == ticks[k] && front[..k] == ticks[..k] {}
      RunKeeps(front, homes);
      TickKeepsLinks(After(front), homes, t, |t.order|);
      TickKeepsDamped(After(front), homes, t, |t.order|);
      assert t.order[..|t.order|] == t.order;
    }
  }

  lemma StartsLinked(homes: set<(string, string)>)
    ensures Linked(EMPTY, homes) && Damped(EMPTY)
  {}

  /** Over every run, a component is down exactly while it carries an incident, and that incident is open and its own. */
  lemma DownMeansIncident(ticks: seq<Tick>, homes: set<(string, string)>, c: string)
    requires Run(ticks, homes) && c in After(ticks).components
    ensures var db := After(ticks);
            var i := db.components[c].incident;
            && (db.components[c].verdict == Down <==> i != "")
            && (i != "" ==> i in db.incidents && !db.incidents[i].resolved && db.incidents[i].components == c)
  {
    hide After, Apart, IncidentsLinked, Damped;
    RunKeeps(ticks, homes);
  }

  /** Every unresolved incident belongs to a component that is down, and no component has two. */
  lemma OneIncidentPerOutage(ticks: seq<Tick>, homes: set<(string, string)>, i: string, j: string)
    requires Run(ticks, homes) && i in After(ticks).incidents && !After(ticks).incidents[i].resolved
    ensures var db := After(ticks);
            var c := db.incidents[i].components;
            && c in db.components && db.components[c].verdict == Down && db.components[c].incident == i
            && (j in db.incidents && !db.incidents[j].resolved && db.incidents[j].components == c ==> j == i)
  {
    hide After, Apart, Damped;
    RunKeeps(ticks, homes);
  }

  /** In one flap window a component raises at most six alerts of a change and one of flapping. */
  lemma AlertsPerWindow(ticks: seq<Tick>, homes: set<(string, string)>, c: string, window: int)
    requires Run(ticks, homes)
    ensures Changes(After(ticks).alerts, c, window) <= FLAP_THRESHOLD
    ensures Flaps(After(ticks).alerts, c, window) <= 1
  {
    hide After, Apart, Linked, Changes, Flaps;
    RunKeeps(ticks, homes);
    assert c in After(ticks).components ==> WindowBounded(After(ticks).alerts, c, window, After(ticks).components[c]);
  }

  /** A component's windows are more than an hour apart, whatever the clock does. */
  lemma WindowsApart(st: ComponentState, verdict: Verdict, now: int)
    ensures var next := Moved(st, verdict, now);
            next.flapsSince == st.flapsSince || next.flapsSince > st.flapsSince + FLAP_WINDOW
  {}

  /**
   Why identifiers must be apart: when one component's identifier is found inside that of a
   component of its service that is down, its own outage opens no incident; it adopts the other's.
   */
  lemma NameInsideName(db: Database, homes: set<(string, string)>, service: string, c: string, d: string, maintenance: bool,
                       now: int, found: Option<string>, id: string)
    requires Linked(db, homes) && c != d && Like(d, c)
    requires d in db.components && db.components[d].verdict == Down && db.incidents[db.components[d].incident].service == service
    requires StateOf(db, c, now).verdict != Down && Found(db, service, c, found)
    ensures var o := RollUp(db, service, c, Down, maintenance, now, found, id);
            && o.Changed? && o.opening == None && o.state.incident in db.incidents
            && !ComponentsLinked(Commit(db, c, o))
  {
    hide Like;
    var i := db.components[d].incident;
    assert Matches(db, service, c, i);
    var o := RollUp(db, service, c, Down, maintenance, now, found, id);
    var next := Commit(db, c, o);
    assert next.components[c].incident == found.value;
  }

  // ----- what a tick makes of the components -----

  lemma CommitOne(cur: Database, c: string, d: string, o: Outcome)
    ensures d != c ==> (d in Commit(cur, c, o).components <==> d in cur.components)
                       && (d in cur.components ==> Commit(cur, c, o).components[d] == cur.components[d])
    ensures o.Changed? ==> c in Commit(cur, c, o).components && Commit(cur, c, o).components[c] == o.state
    ensures o.Unchanged? ==> Commit(cur, c, o) == cur
    ensures Commit(cur, c, o).monitors == cur.monitors
  {}

  /** Each component has, at the end of a tick, what it had or what its own decision says. */
  lemma {:induction false} CommittedState(db: Database, t: Tick, n: nat, c: string)
    requires NoRepeats(t.order) && n <= |t.order|
    ensures var cur := Committed(db, t, t.order[..n]);
            && cur.monitors == db.monitors + Updated(db, t)
            && if c in t.order[..n] && Decide(db, t, c).Changed? then c in cur.components && cur.components[c] == Decide(db, t, c).state
               else (c in cur.components <==> c in db.components) && (c in db.components ==> cur.components[c] == db.components[c])
  {
    hide Decide, Commit, Updated;
    if n == 0 {
      assert t.order[..n] == [];
    } else {
      CommittedState(db, t, n - 1, c);
      var done, last := t.order[..n - 1], t.order[n - 1];
      assert t.order[..n][..n - 1] == done && t.order[..n] == done + [last];
      assert last !in done;
      CommitOne(Committed(db, t, done), last, c, Decide(db, t, last));
    }
  }
}
