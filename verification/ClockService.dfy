/**
 The platform-clock state machine: `Poll`, `advance`, `act`, `alertOnVault`,
 `clearUnconfiguredAlert` and `setPlatformQuarantined` of internal/clock/service.go.

 A poll is one step. Everything outside the monitor is an input of the step: what the runtime
 answered, whether the platform and the store answer, and what happens elsewhere between the poll's
 read of the list and its call to the platform. A poll holds the lock of its enclave throughout, so
 two polls of one enclave are one after the other.

 The control plane has a state of its own, `holds`: who has taken each enclave out of service since
 it was last in service. The monitor knows it only through lists, fetched at one moment and
 installed at a later one.
 */
module ClockService {
  import opened Model
  import opened Clock

  /** Who has taken an enclave out of service since it was last in service. */
  datatype Hold = Hold(monitor: bool, operator: bool)

  const FREE := Hold(false, false)
  const OURS := Hold(true, false)

  /** A request to the platform, what the monitor knew when it made it, and what held the enclave then. */
  datatype Request = Request(enclave: string, decision: Decision, vault: bool, armed: bool, never: bool, shown: bool, length: nat, seen: nat, hold: Hold)

  /** What the record holds about one enclave, in order. */
  datatype Entry = Read(reading: Reading, shown: bool) | Acted(decision: Decision, applied: bool)

  /**
   What really happened, in order, whether or not the record holds it: a reading written to the
   record; a call to the platform, with whether it was answered as applied, whether it took effect
   all the same, and whether the record of it was kept; and what an operator did.
   */
  datatype Fact =
    | Looked(enclave: string, reading: Reading, shown: bool)
    | Called(enclave: string, decision: Decision, applied: bool, reached: bool, kept: bool)
    | Operated(enclave: string, out: bool)

  /** What happens beside the polls: a list is fetched, the list fetched is installed, an operator acts. */
  datatype Event = Fetched(list: map<string, Enclave>) | Installed | Acts(enclave: string, out: bool)

  datatype State = State(
    list: map<string, Enclave>,
    positions: map<string, Position>,
    standing: map<string, string>,
    record: map<string, seq<Entry>>,
    alerts: map<string, seq<string>>,
    requests: seq<Request>,
    log: seq<Fact>,
    flight: Option<map<string, Enclave>>,
    holds: map<string, Hold>)

  const START := State(map[], map[], map[], map[], map[], [], [], None, map[])

  /** What the world outside does during a poll; `reached` is a call that took effect although its answer was lost. */
  datatype World = World(
    exchange: Option<Exchange>, sentMs: int, receivedMs: int,
    positionRead: bool, readingRecorded: bool, alertRead: bool, alertWritten: bool,
    platformOn: bool, callOK: bool, reached: bool, named: bool, actionRecorded: bool,
    meanwhile: seq<Event>)

  // ----- one poll -----

  function PositionOf(s: State, id: string): Position { if id in s.positions then s.positions[id] else NO_POSITION }

  function StandingOn(s: State, id: string): string { if id in s.standing then s.standing[id] else "" }

  function RecordOf(s: State, id: string): seq<Entry> { if id in s.record then s.record[id] else [] }

  function AlertsOf(s: State, id: string): seq<string> { if id in s.alerts then s.alerts[id] else [] }

  function HoldOf(s: State, id: string): Hold { if id in s.holds then s.holds[id] else FREE }

  predicate Shown(s: State, id: string) { id in s.list && s.list[id].quarantined }

  /** The enclave polled, with the clock config the latest list gives it. */
  function Current(s: State, e: Enclave): Enclave {
    if e.id in s.list then
      var known := s.list[e.id];
      e.(configVersion := known.configVersion, configCurrent := known.configCurrent, configKnown := known.configKnown)
    else e
  }

  function Note(s: State, id: string, position: Position, entry: Entry): State {
    s.(positions := s.positions[id := position], record := s.record[id := RecordOf(s, id) + [entry]])
  }

  function WriteAlert(s: State, id: string, event: string, standing: string): State {
    s.(standing := s.standing[id := standing], alerts := s.alerts[id := AlertsOf(s, id) + [event]])
  }

  function AlertStep(s: State, id: string, prev: Position, r: Reading, ev: AlertEvents, key: string, w: World): State {
    var event := DecideAlert(ev, prev, r, StandingOn(s, id), key);
    if !w.alertRead || event == "" || !w.alertWritten then s
    else WriteAlert(s, id, event, if event == VAULT_EVENTS.back || event == UNCONFIGURED_EVENTS.back then "" else event)
  }

  const UNCONFIGURED_PREFIX := "clock.unconfigured_"

  function ClearStep(s: State, id: string, w: World): State {
    if !w.alertRead || !(UNCONFIGURED_PREFIX <= StandingOn(s, id)) || StandingOn(s, id) == UNCONFIGURED_EVENTS.back || !w.alertWritten
    then s
    else WriteAlert(s, id, UNCONFIGURED_EVENTS.back, "")
  }

  /** What a call that takes effect does at the platform. */
  function HoldsAfter(s: State, id: string, d: Decision, w: World): map<string, Hold> {
    if !w.callOK && !w.reached then s.holds
    else s.holds[id := if d.Quarantine? then HoldOf(s, id).(monitor := true) else FREE]
  }

  function ActStep(s: State, e: Enclave, next: Position, shown: bool, d: Decision, w: World): State {
    if !w.platformOn then s
    else
      var asked := s.(
        requests := s.requests + [Request(e.id, d, IsVault(e), Armed(e), NeverConfigured(e), shown, |RecordOf(s, e.id)|, |s.log|, HoldOf(s, e.id))],
        log := s.log + [Called(e.id, d, w.callOK, w.reached, w.named && w.actionRecorded)],
        holds := HoldsAfter(s, e.id, d, w));
      if !w.named then asked
      else
        var listed := if w.callOK && e.id in asked.list
                      then asked.(list := asked.list[e.id := asked.list[e.id].(quarantined := d.Quarantine?)]) else asked;
        var position := if w.callOK then next.(quarantined := d.Quarantine?) else next;
        if w.actionRecorded then Note(listed, e.id, position, Acted(d, w.callOK)) else listed
  }

  /** What the poll decides, once its reading is recorded. */
  function Respond(s: State, e: Enclave, prev: Position, next: Position, r: Reading, shown: bool, key: string, w: World): State {
    if IsVault(e) then AlertStep(s, e.id, prev, r, VAULT_EVENTS, key, w)
    else if !Armed(e) then
      var s' := AlertStep(s, e.id, prev, r, UNCONFIGURED_EVENTS, key, w);
      if next.quarantined && shown && NeverConfigured(e) then ActStep(s', e, next, shown, Release(NeverAcknowledged), w) else s'
    else
      var s' := ClearStep(s, e.id, w);
      var d := Decide(prev.(quarantined := next.quarantined), r, shown, key);
      if d == Nothing then s' else ActStep(s', e, next, shown, d, w)
  }

  function Heard(given: Enclave, w: World): Reading
    requires w.exchange.Some?
  {
    ReadingOf(w.exchange.value, given.id, w.sentMs, w.receivedMs)
  }

  function NextPosition(s: State, given: Enclave, key: string, w: World): Position
    requires w.exchange.Some?
  {
    Advance(PositionOf(s, given.id), Heard(given, w), key, Shown(s, given.id))
  }

  /** Nothing of the monitor's own books changes. */
  ghost predicate OwnBooksSame(s: State, s': State) {
    && s'.positions == s.positions && s'.standing == s.standing && s'.record == s.record
    && s'.alerts == s.alerts && s'.requests == s.requests
  }

  function Happen(s: State, event: Event): (s': State)
    ensures OwnBooksSame(s, s')
  {
    match event
    case Fetched(list) => s.(flight := Some(list))
    case Installed => if s.flight.None? then s else s.(list := s.flight.value, flight := None)
    case Acts(id, out) =>
      s.(holds := s.holds[id := if out then HoldOf(s, id).(operator := true) else FREE], log := s.log + [Operated(id, out)])
  }

  function Happened(s: State, events: seq<Event>): (s': State)
    ensures OwnBooksSame(s, s')
  {
    if events == [] then s else Happen(Happened(s, events[..|events| - 1]), events[|events| - 1])
  }

  function Look(s: State, id: string, r: Reading, shown: bool): State { s.(log := s.log + [Looked(id, r, shown)]) }

  /** The state once the poll's reading is recorded. */
  function Noted(s: State, given: Enclave, key: string, w: World): State
    requires w.exchange.Some?
  {
    var r, shown := Heard(given, w), Shown(s, given.id);
    Note(Look(Happened(s, w.meanwhile), given.id, r, shown), given.id, NextPosition(s, given, key, w), Read(r, shown))
  }

  function PollStep(s: State, given: Enclave, key: string, w: World): State {
    if !w.positionRead || w.exchange.None? then s
    else if !w.readingRecorded then Happened(s, w.meanwhile)
    else
      Respond(Noted(s, given, key, w), Current(s, given), PositionOf(s, given.id), NextPosition(s, given, key, w),
              Heard(given, w), Shown(s, given.id), key, w)
  }

  // ----- the service -----

  class Service {
    const key: string
    var enclaves: map<string, Enclave>
    var positions: map<string, Position>
    var standing: map<string, string>
    ghost var record: map<string, seq<Entry>>
    ghost var alerts: map<string, seq<string>>
    ghost var requests: seq<Request>
    var flight: Option<map<string, Enclave>>
    ghost var log: seq<Fact>
    ghost var holds: map<string, Hold>

    ghost function View(): State reads this {
      State(enclaves, positions, standing, record, alerts, requests, log, flight, holds)
    }

    constructor (key: string)
      ensures View() == START && this.key == key
    {
      this.key := key;
      enclaves, positions, standing := map[], map[], map[];
      record, alerts, requests, log, flight, holds := map[], map[], [], [], None, map[];
    }

    /** The answer to a request for the list arrives; it is installed under the lock later. */
    method FetchList(listed: map<string, Enclave>)
      modifies this`flight
      ensures View() == Happen(old(View()), Fetched(listed))
    {
      flight := Some(listed);
    }

    method InstallList()
      modifies this`enclaves, this`flight
      ensures View() == Happen(old(View()), Installed)
    {
      if flight.Some? {
        enclaves, flight := flight.value, None;
      }
    }

    ghost method OperatorActs(id: string, out: bool)
      modifies this`holds, this`log
      ensures View() == Happen(old(View()), Acts(id, out))
    {
      holds := holds[id := if out then HoldOf(View(), id).(operator := true) else FREE];
      log := log + [Operated(id, out)];
    }

    /** What happens beside the poll. */
    method Meanwhile(events: seq<Event>)
      modifies this`enclaves, this`flight, this`holds, this`log
      ensures View() == Happened(old(View()), events)
    {
      for i := 0 to |events|
        invariant View() == Happened(old(View()), events[..i])
      {
        assert events[..i + 1][..i] == events[..i];
        match events[i] {
          case Fetched(list) => FetchList(list);
          case Installed => InstallList();
          case Acts(id, out) => OperatorActs(id, out);
        }
      }
      assert events[..|events|] == events;
    }

    method SetPlatformQuarantined(id: string, q: bool)
      modifies this`enclaves
      ensures View() == old(View()).(list := if id in old(enclaves) then old(enclaves)[id := old(enclaves)[id].(quarantined := q)] else old(enclaves))
    {
      if id in enclaves {
        enclaves := enclaves[id := enclaves[id].(quarantined := q)];
      }
    }

    /** The enclave's position after a reading, field by field. */
    method AdvancePosition(prev: Position, r: Reading, shown: bool) returns (next: Position)
      ensures next == Advance(prev, r, key, shown)
    {
      next := prev;
      next := next.(lastOutcome := Some(r.outcome), lastMs := r.monitorMs);
      if r.outcome == Answered {
        next := next.(lastOKMs := r.monitorMs, lastVerdict := r.verdict, lastFlagged := r.flagged, lastReason := r.reason);
        next := next.(lastDriftMs := r.driftMs);
      }
      if r.outcome == Answered || r.outcome == Refused {
        next := next.(configMissing := ConfigMissing(r, key));
      }
      if r.outcome == Unreachable {
        next := next.(failedPolls := prev.failedPolls + 1);
      } else {
        next := next.(failedPolls := 0);
      }
      if next.quarantined && !shown {
        next := next.(quarantined := false);
      }
    }

    method RecordAlert(id: string, event: string, now: string)
      modifies this`standing, this`alerts
      ensures View() == WriteAlert(old(View()), id, event, now)
    {
      standing := standing[id := now];
      alerts := alerts[id := AlertsOf(View(), id) + [event]];
    }

    /** Raises the alert a reading calls for on a runtime that is not quarantined. */
    method AlertOnVault(id: string, prev: Position, r: Reading, ev: AlertEvents, w: World)
      modifies this`standing, this`alerts
      ensures View() == AlertStep(old(View()), id, prev, r, ev, key, w)
    {
      if !w.alertRead {
        return;
      }
      var inForce := if id in standing then standing[id] else "";
      var event := DecideAlert(ev, prev, r, inForce, key);
      if event == "" {
        return;
      }
      var now := event;
      if event == VAULT_EVENTS.back || event == UNCONFIGURED_EVENTS.back {
        now := "";
      }
      if w.alertWritten {
        RecordAlert(id, event, now);
      }
    }

    /** Ends an alert from before the runtime acknowledged the clock config. */
    method ClearUnconfiguredAlert(id: string, w: World)
      modifies this`standing, this`alerts
      ensures View() == ClearStep(old(View()), id, w)
    {
      if !w.alertRead || id !in standing || !(UNCONFIGURED_PREFIX <= standing[id]) || standing[id] == UNCONFIGURED_EVENTS.back {
        return;
      }
      if w.alertWritten {
        RecordAlert(id, UNCONFIGURED_EVENTS.back, "");
      }
    }

    method WritePosition(id: string, position: Position, ghost entry: Entry)
      modifies this`positions, this`record
      ensures View() == Note(old(View()), id, position, entry)
    {
      positions := positions[id := position];
      record := record[id := RecordOf(View(), id) + [entry]];
    }

    /** One call to the platform; its outcome is recorded in any case, and acted on only if it was applied. */
    method Act(e: Enclave, next: Position, shown: bool, d: Decision, w: World)
      modifies this
      ensures View() == ActStep(old(View()), e, next, shown, d, w)
    {
      if !w.platformOn {
        return;
      }
      requests := requests + [Request(e.id, d, IsVault(e), Armed(e), NeverConfigured(e), shown, |RecordOf(View(), e.id)|, |log|,
                                      HoldOf(View(), e.id))];
      log := log + [Called(e.id, d, w.callOK, w.reached, w.named && w.actionRecorded)];
      holds := HoldsAfter(View(), e.id, d, w);
      if !w.named {
        return;
      }
      var position := next;
      if w.callOK {
        position := position.(quarantined := d.Quarantine?);
        SetPlatformQuarantined(e.id, d.Quarantine?);
      }
      if w.actionRecorded {
        WritePosition(e.id, position, Acted(d, w.callOK));
      }
    }

    /** One poll of one enclave, from reading its position to the reaction. */
    method Poll(given: Enclave, w: World)
      modifies this
      ensures View() == PollStep(old(View()), given, key, w)
    {
      hide Advance, ReadingOf, Respond, Note;
      if !w.positionRead {
        return;
      }
      var prev := if given.id in positions then positions[given.id] else NO_POSITION;
      if w.exchange.None? {
        return;
      }
      var r := ReadingOf(w.exchange.value, given.id, w.sentMs, w.receivedMs);
      var e := given;
      var shown := false;
      if e.id in enclaves {
        var known := enclaves[e.id];
        shown := known.quarantined;
        e := e.(configVersion := known.configVersion, configCurrent := known.configCurrent, configKnown := known.configKnown);
      }
      Meanwhile(w.meanwhile);
      var next := AdvancePosition(prev, r, shown);
      if !w.readingRecorded {
        return;
      }
      log := log + [Looked(e.id, r, shown)];
      WritePosition(e.id, next, Read(r, shown));
      React(e, prev, next, r, shown, w);
    }

    /** What the poll does once its reading is recorded. */
    method React(e: Enclave, prev: Position, next: Position, r: Reading, shown: bool, w: World)
      modifies this
      ensures View() == Respond(old(View()), e, prev, next, r, shown, key, w)
    {
      hide Decide, AlertStep, ClearStep, ActStep, Armed, NeverConfigured, IsVault;
      if IsVault(e) {
        AlertOnVault(e.id, prev, r, VAULT_EVENTS, w);
        return;
      }
      if !Armed(e) {
        AlertOnVault(e.id, prev, r, UNCONFIGURED_EVENTS, w);
        if next.quarantined && shown && NeverConfigured(e) {
          Act(e, next, shown, Release(NeverAcknowledged), w);
        }
        return;
      }
      ClearUnconfiguredAlert(e.id, w);
      var before := prev.(quarantined := next.quarantined);
      var d := Decide(before, r, shown, key);
      if d != Nothing {
        Act(e, next, shown, d, w);
      }
    }
  }
}
