/**
 Flap damping in real time (internal/core/detect.go): windows are labels on alerts, but those of one
 component begin more than an hour apart and none lasts longer than an hour, so what is bounded per
 window is bounded in any stretch of an hour. For runs whose clock does not go back.
 */
module Damping {
  import opened Model
  import opened Sorting
  import opened Detect
  import opened Incidents

  /** An alert is raised within the hour of its window. */
  predicate InWindow(a: Alert) { a.window <= a.at <= a.window + FLAP_WINDOW }

  predicate FarApart(v: int, w: int) { v == w || v > w + FLAP_WINDOW || w > v + FLAP_WINDOW }

  /** The component's alerts lie in windows apart from each other, none later than the current one. */
  ghost predicate SpacedFor(alerts: seq<Alert>, c: string, since: int) {
    && (forall a | a in alerts && a.component == c :: InWindow(a) && (a.window == since || since > a.window + FLAP_WINDOW))
    && (forall a, b | a in alerts && b in alerts && a.component == c && b.component == c :: FarApart(a.window, b.window))
  }

  ghost predicate Spaced(db: Database, now: int) {
    && (forall c | c in db.components :: db.components[c].flapsSince <= now && SpacedFor(db.alerts, c, db.components[c].flapsSince))
    && (forall a | a in db.alerts :: a.component in db.components)
  }

  /** One component's change: its new alerts lie in its new window. */
  lemma ChangeSpaced(alerts: seq<Alert>, new_: seq<Alert>, c: string, prior: ComponentState, verdict: Verdict, now: int)
    requires SpacedFor(alerts, c, prior.flapsSince) && prior.flapsSince <= now
    requires forall a | a in new_ :: a.component == c && a.at == now && a.window == Moved(prior, verdict, now).flapsSince
    ensures SpacedFor(alerts + new_, c, Moved(prior, verdict, now).flapsSince) && Moved(prior, verdict, now).flapsSince <= now
  {
    WindowsApart(prior, verdict, now);
  }

  lemma OthersSpaced(alerts: seq<Alert>, new_: seq<Alert>, c: string, d: string, since: int)
    requires SpacedFor(alerts, d, since) && d != c && forall a | a in new_ :: a.component == c
    ensures SpacedFor(alerts + new_, d, since)
  {}

  lemma AnnouncedNow(db: Database, service: string, c: string, verdict: Verdict, maintenance: bool, now: int,
                     found: Option<string>, id: string)
    requires StateOf(db, c, now).verdict != verdict
    ensures var o, st := RollUp(db, service, c, verdict, maintenance, now, found, id), Moved(StateOf(db, c, now), verdict, now);
            && o.Changed? && o.state.flapsSince == st.flapsSince
            && forall a | a in o.alerts :: a.component == c && a.at == now && a.window == st.flapsSince
  {
    hide Moved;
  }

  lemma CommitKeepsSpaced(db: Database, cur: Database, t: Tick, c: string)
    requires Spaced(cur, t.now) && Untouched(db, cur, c) && t.now >= 0
    ensures Spaced(Commit(cur, c, Decide(db, t, c)), t.now)
  {
    hide Seen, Verdicts, Updated, RollUp, Moved, SpacedFor;
    var o := Decide(db, t, c);
    if o.Changed? {
      var def := t.cfg.components[c];
      var prior := StateOf(db, c, t.now);
      var verdict := Verdicts(t.cfg, db.monitors + Updated(db, t), c, def.rollup);
      SameVerdictUnchanged(db, t, c);
      AnnouncedNow(db, def.service, c, verdict, InMaintenance(t.latest, c), t.now, t.found[c], t.ids[c]);
      if c !in cur.components { NoneSpaced(cur.alerts, c); }
      ChangeSpaced(cur.alerts, o.alerts, c, prior, verdict, t.now);
      var next := Commit(cur, c, o);
      forall d | d in next.components
        ensures next.components[d].flapsSince <= t.now && SpacedFor(next.alerts, d, next.components[d].flapsSince)
      {
        if d != c { OthersSpaced(cur.alerts, o.alerts, c, d, cur.components[d].flapsSince); }
      }
    }
  }

  lemma NoneSpaced(alerts: seq<Alert>, c: string)
    requires forall a | a in alerts :: a.component != c
    ensures SpacedFor(alerts, c, 0)
  {}

  lemma {:induction false} TickKeepsSpaced(db: Database, homes: set<(string, string)>, t: Tick, n: nat)
    requires Linked(db, homes) && Apart(homes) && AtHome(t.cfg, homes) && Spaced(db, t.now) && t.now >= 0
    requires Answered(db, t) && NoRepeats(t.order) && n <= |t.order|
    ensures Spaced(Committed(db, t, t.order[..n]), t.now)
  {
    hide Linked, Untouched, Commit, Decide, Apart, AtHome, Found, Updated, SpacedFor, Answered;
    if n > 0 {
      TickKeepsSpaced(db, homes, t, n - 1);
      TickKeepsLinks(db, homes, t, n - 1);
      var c := t.order[n - 1];
      assert t.order[..n][..n - 1] == t.order[..n - 1];
      assert c !in t.order[..n - 1];
      CommitKeepsSpaced(db, Committed(db, t, t.order[..n - 1]), t, c);
    }
  }

  /** The clock of the run starts past zero and does not go back. */
  ghost predicate InOrder(ticks: seq<Tick>) {
    && (forall k | 0 <= k < |ticks| :: ticks[k].now >= 0)
    && forall j, k | 0 <= j < k < |ticks| :: ticks[j].now <= ticks[k].now
  }

  lemma TickSpaced(db: Database, homes: set<(string, string)>, t: Tick, before: int)
    requires Linked(db, homes) && Apart(homes) && AtHome(t.cfg, homes) && Spaced(db, before) && before <= t.now && t.now >= 0
    requires Answered(db, t) && NoRepeats(t.order)
    ensures Spaced(Ticked(db, t), t.now)
  {
    hide Linked, Apart, AtHome, Answered, Committed, SpacedFor;
    TickKeepsSpaced(db, homes, t, |t.order|);
    assert t.order[..|t.order|] == t.order;
  }

  lemma StillSpaced(db: Database, now: int, later: int)
    requires Spaced(db, now) && now <= later
    ensures Spaced(db, later)
  {
    hide SpacedFor;
  }

  lemma RunFront(ticks: seq<Tick>, homes: set<(string, string)>)
    requires Run(ticks, homes) && InOrder(ticks) && ticks != []
    ensures var front, t := ticks[..|ticks| - 1], ticks[|ticks| - 1];
            && Run(front, homes) && InOrder(front) && Apart(homes) && t.now >= 0 && (forall k | 0 <= k < |front| :: front[k].now <= t.now)
            && AtHome(t.cfg, homes) && Answered(After(front), t) && NoRepeats(t.order)
  {
    hide After, Apart, AtHome, Answered;
    var n := |ticks| - 1;
    forall k | 0 <= k < n ensures ticks[..n][k] == ticks[k] && ticks[..n][..k] == ticks[..k] {}
  }

  lemma {:induction false} RunKeepsSpaced(ticks: seq<Tick>, homes: set<(string, string)>, now: int)
    requires Run(ticks, homes) && InOrder(ticks) && now >= 0 && forall k | 0 <= k < |ticks| :: ticks[k].now <= now
    ensures Spaced(After(ticks), now)
  {
    hide Linked, Damped, Apart, AtHome, Answered, Ticked, Spaced, Run, InOrder;
    if ticks == [] {
      NothingSpaced(now);
    } else {
      var front, t := ticks[..|ticks| - 1], ticks[|ticks| - 1];
      RunFront(ticks, homes);
      RunKeepsSpaced(front, homes, t.now);
      RunKeeps(front, homes);
      TickSpaced(After(front), homes, t, t.now);
      StillSpaced(After(ticks), t.now, now);
    }
  }

  lemma NothingSpaced(now: int)
    ensures Spaced(EMPTY, now)
  {}

  // ----- counting in a stretch of time -----

  predicate Within(a: Alert, c: string, from: int, flapping: bool) {
    a.component == c && from <= a.at <= from + FLAP_WINDOW && (a.kind == Flapping) == flapping
  }

  /** The alerts of a component in the hour that begins at `from`. */
  function CountWithin(alerts: seq<Alert>, c: string, from: int, flapping: bool): nat {
    if alerts == [] then 0
    else CountWithin(alerts[..|alerts| - 1], c, from, flapping) + if Within(alerts[|alerts| - 1], c, from, flapping) then 1 else 0
  }

  /** Alerts of at most two windows are no more than what the two windows hold. */
  lemma {:induction false} TwoWindows(alerts: seq<Alert>, c: string, from: int, v: int, w: int)
    requires forall a | a in alerts && a.component == c && from <= a.at <= from + FLAP_WINDOW :: a.window == v || a.window == w
    ensures CountWithin(alerts, c, from, false) <= Changes(alerts, c, v) + Changes(alerts, c, w)
    ensures CountWithin(alerts, c, from, true) <= Flaps(alerts, c, v) + Flaps(alerts, c, w)
  {
    if alerts != [] {
      assert alerts == alerts[..|alerts| - 1] + [alerts[|alerts| - 1]];
      TwoWindows(alerts[..|alerts| - 1], c, from, v, w);
    }
  }

  /** The alerts of one hour lie in at most two windows. */
  lemma WindowsOfAnHour(alerts: seq<Alert>, c: string, since: int, from: int) returns (v: int, w: int)
    requires SpacedFor(alerts, c, since)
    ensures forall a | a in alerts && a.component == c && from <= a.at <= from + FLAP_WINDOW :: a.window == v || a.window == w
  {
    v, w := since, since;
    if a :| a in alerts && a.component == c && from <= a.at <= from + FLAP_WINDOW {
      v, w := a.window, a.window;
      if b :| b in alerts && b.component == c && from <= b.at <= from + FLAP_WINDOW && b.window != v {
        w := b.window;
        assert FarApart(v, w);
        forall x | x in alerts && x.component == c && from <= x.at <= from + FLAP_WINDOW ensures x.window == v || x.window == w {
          assert FarApart(x.window, v) && FarApart(x.window, w);
          assert InWindow(x) && InWindow(a) && InWindow(b);
        }
      }
    }
  }

  /** Over every run whose clock does not go back, a component raises in any hour at most twelve alerts of a change and two of flapping. */
  lemma AlertsPerHour(ticks: seq<Tick>, homes: set<(string, string)>, c: string, from: int)
    requires Run(ticks, homes) && InOrder(ticks)
    ensures CountWithin(After(ticks).alerts, c, from, false) <= 2 * FLAP_THRESHOLD
    ensures CountWithin(After(ticks).alerts, c, from, true) <= 2
  {
    hide After, Run, Changes, Flaps, CountWithin, SpacedFor, InOrder;
    var db := After(ticks);
    var now := LastTime(ticks);
    RunKeepsSpaced(ticks, homes, now);
    if c !in db.components { NoneSpaced(db.alerts, c); }
    var since := if c in db.components then db.components[c].flapsSince else 0;
    var v, w := WindowsOfAnHour(db.alerts, c, since, from);
    TwoWindows(db.alerts, c, from, v, w);
    AlertsPerWindow(ticks, homes, c, v);
    AlertsPerWindow(ticks, homes, c, w);
  }

  lemma LastTime(ticks: seq<Tick>) returns (now: int)
    requires InOrder(ticks)
    ensures now >= 0 && forall k | 0 <= k < |ticks| :: ticks[k].now <= now
  {
    now := if ticks == [] then 0 else ticks[|ticks| - 1].now;
  }
}
