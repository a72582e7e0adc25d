/**
 What runs of the platform clock keep (internal/clock/service.go, decide.go): the stored position
 sums up the recorded history, quarantines are asked for and lifted only by right, and alerts
 follow a language. A run is any sequence of polls, fetches and installations of the list
 and actions of operators, with any failures of the store and of the platform.
 */
module ClockRuns {
  import opened Model
  import opened Clock
  import opened ClockService

  datatype Step = Polled(e: Enclave, w: World) | Elsewhere(event: Event)

  function Apply(s: State, step: Step, key: string): State {
    match step
    case Polled(e, w) => PollStep(s, e, key, w)
    case Elsewhere(event) => Happen(s, event)
  }

  function Run(steps: seq<Step>, key: string): State {
    if steps == [] then START else Apply(Run(steps[..|steps| - 1], key), steps[|steps| - 1], key)
  }

  // ----- what the record says -----

  predicate Placed(e: Entry) { e.Acted? && e.decision.Quarantine? && e.applied }

  predicate Lifted(e: Entry) { (e.Acted? && e.decision.Release? && e.applied) || (e.Read? && !e.shown) }

  /** A quarantine this monitor placed stands: nothing recorded since has lifted it. */
  function Own(record: seq<Entry>): bool {
    if record == [] then false
    else
      var last := record[|record| - 1];
      if Placed(last) then true else if Lifted(last) then false else Own(record[..|record| - 1])
  }

  /** Entry `k` placed a quarantine and nothing after it lifted it. */
  predicate StandsSince(record: seq<Entry>, k: int) {
    0 <= k < |record| && Placed(record[k]) && forall j | k < j < |record| :: !Lifted(record[j])
  }

  lemma {:induction false} OwnExactly(record: seq<Entry>)
    ensures Own(record) <==> exists k :: StandsSince(record, k)
  {
    hide Placed, Lifted;
    if record != [] {
      var n := |record| - 1;
      OwnExactly(record[..n]);
      forall k ensures StandsSince(record, k) <==> (k == n && Placed(record[n])) || (StandsSince(record[..n], k) && !Lifted(record[n])) {
        assert forall j | 0 <= j < n :: record[j] == record[..n][j];
      }
      assert StandsSince(record, n) <==> Placed(record[n]);
    }
  }

  /** The readings recorded, in order. */
  function Reads(record: seq<Entry>): seq<Reading> {
    if record == [] then []
    else
      var last := record[|record| - 1];
      Reads(record[..|record| - 1]) + if last.Read? then [last.reading] else []
  }

  /** How many readings at the end of the run got no answer. */
  function Silence(taken: seq<Reading>): (n: nat)
    ensures n <= |taken| && forall i :: |taken| - n <= i < |taken| ==> taken[i].outcome == Unreachable
    ensures n < |taken| ==> taken[|taken| - n - 1].outcome != Unreachable
  {
    if taken == [] || taken[|taken| - 1].outcome != Unreachable then 0 else Silence(taken[..|taken| - 1]) + 1
  }

  /** The latest reading in which the runtime answered. */
  function LastAnswer(taken: seq<Reading>): (r: Option<Reading>)
    ensures r.None? ==> forall i | 0 <= i < |taken| :: taken[i].outcome != Answered
    ensures r.Some? ==> exists i :: 0 <= i < |taken| && taken[i] == r.value && taken[i].outcome == Answered
                                    && forall j | i < j < |taken| :: taken[j].outcome != Answered
  {
    if taken == [] then None
    else if taken[|taken| - 1].outcome == Answered then Some(taken[|taken| - 1])
    else LastAnswer(taken[..|taken| - 1])
  }

  /** The latest reading that says whether the runtime holds the key: an answer or a refusal. */
  function LastTold(taken: seq<Reading>): (r: Option<Reading>)
    ensures r.None? ==> forall i | 0 <= i < |taken| :: taken[i].outcome != Answered && taken[i].outcome != Refused
    ensures r.Some? ==> exists i :: 0 <= i < |taken| && taken[i] == r.value && taken[i].outcome in {Answered, Refused}
                                    && forall j | i < j < |taken| :: taken[j].outcome !in {Answered, Refused}
  {
    if taken == [] then None
    else if taken[|taken| - 1].outcome in {Answered, Refused} then Some(taken[|taken| - 1])
    else LastTold(taken[..|taken| - 1])
  }

  /** The position is what the record says, field by field. */
  predicate Summarises(p: Position, record: seq<Entry>, key: string) {
    var taken := Reads(record);
    && p.quarantined == Own(record)
    && p.failedPolls == Silence(taken)
    && p.configMissing == (LastTold(taken).Some? && ConfigMissing(LastTold(taken).value, key))
    && (if LastAnswer(taken).None? then !p.lastFlagged && p.lastVerdict == "" && p.lastReason == "" && p.lastOKMs == 0
        else
          var r := LastAnswer(taken).value;
          p.lastFlagged == r.flagged && p.lastVerdict == r.verdict && p.lastReason == r.reason
          && p.lastDriftMs == r.driftMs && p.lastOKMs == r.monitorMs)
    && (if taken == [] then p.lastOutcome == None
        else p.lastOutcome == Some(taken[|taken| - 1].outcome) && p.lastMs == taken[|taken| - 1].monitorMs)
  }

  lemma SummaryStarts(key: string)
    ensures Summarises(NO_POSITION, [], key)
  {}

  lemma OneMoreRead(record: seq<Entry>, r: Reading, shown: bool)
    ensures var longer := record + [Read(r, shown)];
            Own(longer) == (Own(record) && shown) && Reads(longer) == Reads(record) + [r]
  {
    assert (record + [Read(r, shown)])[..|record|] == record;
  }

  lemma OneMore(taken: seq<Reading>, r: Reading)
    ensures var longer := taken + [r];
            && Silence(longer) == (if r.outcome == Unreachable then Silence(taken) + 1 else 0)
            && LastAnswer(longer) == (if r.outcome == Answered then Some(r) else LastAnswer(taken))
            && LastTold(longer) == (if r.outcome in {Answered, Refused} then Some(r) else LastTold(taken))
  {
    assert (taken + [r])[..|taken|] == taken;
  }

  lemma ReadSummarised(p: Position, record: seq<Entry>, key: string, r: Reading, shown: bool)
    requires Summarises(p, record, key)
    ensures Summarises(Advance(p, r, key, shown), record + [Read(r, shown)], key)
  {
    hide ConfigMissing, Own, Reads, Silence, LastAnswer, LastTold;
    OneMoreRead(record, r, shown);
    OneMore(Reads(record), r);
  }

  lemma ActionSummarised(p: Position, record: seq<Entry>, key: string, d: Decision, applied: bool)
    requires Summarises(p, record, key) && d != Nothing
    ensures Summarises(if applied then p.(quarantined := d.Quarantine?) else p, record + [Acted(d, applied)], key)
  {
    hide ConfigMissing, Silence, LastAnswer, LastTold;
    var longer := record + [Acted(d, applied)];
    assert longer[..|record|] == record;
    assert Reads(longer) == Reads(record);
  }

  // ----- requests -----

  /** What calls for taking the enclave out of service, on the record and the new reading alone. */
  predicate CalledFor(taken: seq<Reading>, r: Reading, key: string) {
    if r.outcome == Answered then ClockProblem(r).Some?
    else
      && !ConfigMissing(r, key)
      && (FailedClosed(r)
          || (r.outcome == Unreachable && Silence(taken) + 1 >= MAX_FAILED_POLLS)
          || (LastAnswer(taken).Some? && LastAnswer(taken).value.flagged))
  }

  /** The decision on the stored position is a decision on the whole history. */
  lemma DecisionFromHistory(p: Position, record: seq<Entry>, r: Reading, shown: bool, key: string)
    requires Summarises(p, record, key)
    ensures var own := Own(record + [Read(r, shown)]);
            var d := Decide(p.(quarantined := own), r, shown, key);
            && (d.Quarantine? <==> CalledFor(Reads(record), r, key) && !own && !shown)
            && (d.Release? <==> own && r.outcome == Answered && ClockProblem(r) == None && Clean(r))
  {
    hide ClockProblem, Clean, FailedClosed, ConfigMissing, Reads, Silence, LastTold, Own;
  }

  /** Why a request was made, on what was recorded before it. */
  predicate Justified(q: Request, record: seq<Entry>, key: string) {
    && 1 <= q.length <= |record|
    && var upTo := record[..q.length];
    && var last := record[q.length - 1];
    && last.Read? && last.shown == q.shown && !q.vault
    && match q.decision
       case Nothing => false
       case Quarantine(_) =>
         q.armed && !q.shown && !Own(upTo) && CalledFor(Reads(record[..q.length - 1]), last.reading, key)
       case Release(_) =>
         && q.shown && Own(upTo)
         && if q.armed then ClockProblem(last.reading) == None && Clean(last.reading) else q.never
  }

  lemma JustifiedLater(q: Request, record: seq<Entry>, longer: seq<Entry>, key: string)
    requires Justified(q, record, key) && record <= longer
    ensures Justified(q, longer, key)
  {
    hide Own, CalledFor, Clean, ClockProblem;
    assert longer[..q.length] == record[..q.length] && longer[..q.length - 1] == record[..q.length - 1];
  }

  // ----- alerts -----

  predicate IsBack(event: string) { event == VAULT_EVENTS.back || event == UNCONFIGURED_EVENTS.back }

  predicate IsProblem(event: string) {
    event in {VAULT_EVENTS.clockWrong, VAULT_EVENTS.unreachable, UNCONFIGURED_EVENTS.clockWrong, UNCONFIGURED_EVENTS.unreachable}
  }

  /** The last problem not followed by a recovery, or nothing. */
  function Standing(log: seq<string>): string { if log == [] || IsBack(log[|log| - 1]) then "" else log[|log| - 1] }

  /** A problem is raised only when it is not the one standing; a recovery only when one stands. */
  predicate Language(log: seq<string>) {
    log != [] ==>
      var front, last := log[..|log| - 1], log[|log| - 1];
      Language(front) && if IsBack(last) then Standing(front) != "" else IsProblem(last) && last != Standing(front)
  }

  lemma EventNames()
    ensures forall e | e == VAULT_EVENTS.clockWrong || e == VAULT_EVENTS.unreachable
                       || e == UNCONFIGURED_EVENTS.clockWrong || e == UNCONFIGURED_EVENTS.unreachable :: !IsBack(e) && e != ""
    ensures VAULT_EVENTS.back != "" && UNCONFIGURED_EVENTS.back != ""
  {
    assert |VAULT_EVENTS.clockWrong| == 28 && |VAULT_EVENTS.unreachable| == 23 && |VAULT_EVENTS.back| == 21;
    assert |UNCONFIGURED_EVENTS.clockWrong| == 30 && |UNCONFIGURED_EVENTS.unreachable| == 30 && |UNCONFIGURED_EVENTS.back| == 28;
    assert UNCONFIGURED_EVENTS.back[6] == 'u' && VAULT_EVENTS.clockWrong[6] == 'v';
  }

  lemma AlertFollows(log: seq<string>, event: string)
    requires Language(log) && if IsBack(event) then Standing(log) != "" else IsProblem(event) && event != Standing(log)
    ensures Language(log + [event]) && Standing(log + [event]) == if IsBack(event) then "" else event
  {
    hide IsBack, IsProblem;
    assert (log + [event])[..|log|] == log;
  }

  /** Two alerts in a row are never the same. */
  lemma {:induction false} NeverTwiceInARow(log: seq<string>, k: nat)
    requires Language(log) && k + 1 < |log|
    ensures log[k] != log[k + 1]
  {
    hide IsBack, IsProblem;
    if k + 2 < |log| {
      NeverTwiceInARow(log[..|log| - 1], k);
    } else {
      var front := log[..|log| - 1];
      assert front[|front| - 1] == log[k];
    }
  }

  // ----- the invariant -----

  ghost predicate AllSummarised(s: State, key: string) {
    forall id :: Summarises(PositionOf(s, id), RecordOf(s, id), key)
  }

  ghost predicate AllJustified(s: State, key: string) {
    forall q | q in s.requests :: Justified(q, RecordOf(s, q.enclave), key)
  }

  ghost predicate AllSpoken(s: State) {
    forall id :: Language(AlertsOf(s, id)) && StandingOn(s, id) == Standing(AlertsOf(s, id))
  }

  ghost predicate Inv(s: State, key: string) { AllSummarised(s, key) && AllJustified(s, key) && AllSpoken(s) }

  lemma NoteKeeps(s: State, id: string, p: Position, entry: Entry, key: string)
    requires Inv(s, key) && Summarises(p, RecordOf(s, id) + [entry], key)
    ensures Inv(Note(s, id, p, entry), key)
  {
    hide Summarises, Justified, Language;
    var s' := Note(s, id, p, entry);
    forall q | q in s'.requests ensures Justified(q, RecordOf(s', q.enclave), key) {
      JustifiedLater(q, RecordOf(s, q.enclave), RecordOf(s', q.enclave), key);
    }
    forall k ensures Summarises(PositionOf(s', k), RecordOf(s', k), key) {
      assert k != id ==> PositionOf(s', k) == PositionOf(s, k) && RecordOf(s', k) == RecordOf(s, k);
    }
    assert forall k :: AlertsOf(s', k) == AlertsOf(s, k) && StandingOn(s', k) == StandingOn(s, k);
  }

  lemma WriteAlertKeeps(s: State, id: string, event: string, key: string)
    requires Inv(s, key)
    requires if IsBack(event) then StandingOn(s, id) != "" else IsProblem(event) && event != StandingOn(s, id)
    ensures Inv(WriteAlert(s, id, event, if IsBack(event) then "" else event), key)
  {
    hide Summarises, Justified, Language, IsBack, IsProblem, Standing;
    var s' := WriteAlert(s, id, event, if IsBack(event) then "" else event);
    assert Language(AlertsOf(s, id));
    AlertFollows(AlertsOf(s, id), event);
    forall k ensures Language(AlertsOf(s', k)) && StandingOn(s', k) == Standing(AlertsOf(s', k)) {
      assert k != id ==> AlertsOf(s', k) == AlertsOf(s, k) && StandingOn(s', k) == StandingOn(s, k);
    }
    assert forall k :: PositionOf(s', k) == PositionOf(s, k) && RecordOf(s', k) == RecordOf(s, k);
  }

  /** Which alert a reading raises: a problem that does not stand, or the recovery of one that does. */
  lemma AlertDecided(ev: AlertEvents, prev: Position, r: Reading, standing: string, key: string)
    requires ev == VAULT_EVENTS || ev == UNCONFIGURED_EVENTS
    ensures var event := DecideAlert(ev, prev, r, standing, key);
            event != "" ==> (event == ev.back && standing != "" && IsBack(event))
                            || (event in {ev.clockWrong, ev.unreachable} && IsProblem(event) && !IsBack(event) && event != standing)
  {
    hide ClockProblem, Clean, FailedClosed, ConfigMissing, IsBack;
    EventNames();
    assert IsBack(ev.back) by { BackIsBack(ev); }
  }

  lemma BackIsBack(ev: AlertEvents)
    requires ev == VAULT_EVENTS || ev == UNCONFIGURED_EVENTS
    ensures IsBack(ev.back)
  {}

  lemma AlertStepKeeps(s: State, id: string, prev: Position, r: Reading, ev: AlertEvents, key: string, w: World)
    requires Inv(s, key) && (ev == VAULT_EVENTS || ev == UNCONFIGURED_EVENTS)
    ensures Inv(AlertStep(s, id, prev, r, ev, key, w), key)
  {
    hide Inv, DecideAlert, IsProblem, WriteAlert;
    var event := DecideAlert(ev, prev, r, StandingOn(s, id), key);
    AlertDecided(ev, prev, r, StandingOn(s, id), key);
    if w.alertRead && event != "" && w.alertWritten {
      WriteAlertKeeps(s, id, event, key);
    }
  }

  lemma ClearStepKeeps(s: State, id: string, key: string, w: World)
    requires Inv(s, key)
    ensures Inv(ClearStep(s, id, w), key)
  {
    hide Inv, WriteAlert;
    BackIsBack(UNCONFIGURED_EVENTS);
    if ClearStep(s, id, w) != s {
      assert StandingOn(s, id) != "";
      WriteAlertKeeps(s, id, UNCONFIGURED_EVENTS.back, key);
    }
  }

  lemma AskKeeps(s: State, s': State, q: Request, key: string)
    requires Inv(s, key) && Justified(q, RecordOf(s, q.enclave), key)
    requires s'.requests == s.requests + [q] && OwnBooksSame(s, s'.(requests := s.requests))
    ensures Inv(s', key)
  {
    hide Summarises, Justified, Language, Standing;
    assert forall k :: PositionOf(s', k) == PositionOf(s, k) && RecordOf(s', k) == RecordOf(s, k);
    assert forall k :: AlertsOf(s', k) == AlertsOf(s, k) && StandingOn(s', k) == StandingOn(s, k);
  }

  lemma ElsewhereKeeps(s: State, s': State, key: string)
    requires Inv(s, key) && OwnBooksSame(s, s')
    ensures Inv(s', key)
  {
    hide Summarises, Justified, Language, Standing;
    assert forall k :: PositionOf(s', k) == PositionOf(s, k) && RecordOf(s', k) == RecordOf(s, k);
    assert forall k :: AlertsOf(s', k) == AlertsOf(s, k) && StandingOn(s', k) == StandingOn(s, k);
  }

  lemma ActStepKeeps(s: State, e: Enclave, next: Position, shown: bool, d: Decision, key: string, w: World)
    requires Inv(s, key) && Summarises(next, RecordOf(s, e.id), key) && d != Nothing
    requires Justified(Request(e.id, d, IsVault(e), Armed(e), NeverConfigured(e), shown, |RecordOf(s, e.id)|, |s.log|, HoldOf(s, e.id)), RecordOf(s, e.id), key)
    ensures Inv(ActStep(s, e, next, shown, d, w), key)
  {
    hide Inv, Summarises, Justified, Note, IsVault, Armed, NeverConfigured;
    var q := Request(e.id, d, IsVault(e), Armed(e), NeverConfigured(e), shown, |RecordOf(s, e.id)|, |s.log|, HoldOf(s, e.id));
    if w.platformOn {
      var log := s.log + [Called(e.id, d, w.callOK, w.reached, w.named && w.actionRecorded)];
      var asked := s.(requests := s.requests + [q], log := log, holds := HoldsAfter(s, e.id, d, w));
      AskKeeps(s, asked, q, key);
      if w.named {
        var listed := if w.callOK && e.id in asked.list
                      then asked.(list := asked.list[e.id := asked.list[e.id].(quarantined := d.Quarantine?)]) else asked;
        ElsewhereKeeps(asked, listed, key);
        ActionSummarised(next, RecordOf(s, e.id), key, d, w.callOK);
        var position := if w.callOK then next.(quarantined := d.Quarantine?) else next;
        if w.actionRecorded { NoteKeeps(listed, e.id, position, Acted(d, w.callOK), key); }
      }
    }
  }

  /** A request the poll makes is justified by the reading just recorded. */
  lemma RequestJustified(record: seq<Entry>, e: Enclave, prev: Position, r: Reading, shown: bool, d: Decision, key: string, seen: nat, hold: Hold)
    requires Summarises(prev, record, key) && !IsVault(e)
    requires var next := Advance(prev, r, key, shown);
             if Armed(e) then d == Decide(prev.(quarantined := next.quarantined), r, shown, key) && d != Nothing
             else d.Release? && next.quarantined && shown && NeverConfigured(e)
    ensures var longer := record + [Read(r, shown)];
            Justified(Request(e.id, d, IsVault(e), Armed(e), NeverConfigured(e), shown, |longer|, seen, hold), longer, key)
  {
    hide Decide, Summarises, CalledFor, Clean, ClockProblem, Armed, NeverConfigured, IsVault;
    var longer := record + [Read(r, shown)];
    ReadSummarised(prev, record, key, r, shown);
    QuarantinedIsOwn(Advance(prev, r, key, shown), longer, key);
    DecisionFromHistory(prev, record, r, shown, key);
    assert longer[..|longer|] == longer && longer[..|longer| - 1] == record;
  }

  lemma QuarantinedIsOwn(p: Position, record: seq<Entry>, key: string)
    requires Summarises(p, record, key)
    ensures p.quarantined == Own(record)
  {}

  lemma RespondKeeps(s: State, e: Enclave, prev: Position, record: seq<Entry>, r: Reading, shown: bool, key: string, w: World)
    requires Inv(s, key) && Summarises(prev, record, key) && RecordOf(s, e.id) == record + [Read(r, shown)]
    ensures Inv(Respond(s, e, prev, Advance(prev, r, key, shown), r, shown, key, w), key)
  {
    hide Inv, Summarises, Justified, AlertStep, ClearStep, ActStep, Advance, Decide, IsVault, Armed, NeverConfigured;
    var next := Advance(prev, r, key, shown);
    ReadSummarised(prev, record, key, r, shown);
    if IsVault(e) {
      AlertStepKeeps(s, e.id, prev, r, VAULT_EVENTS, key, w);
    } else if !Armed(e) {
      AlertStepKeeps(s, e.id, prev, r, UNCONFIGURED_EVENTS, key, w);
      var s' := AlertStep(s, e.id, prev, r, UNCONFIGURED_EVENTS, key, w);
      AlertsTouchNoRecord(s, e.id, prev, r, UNCONFIGURED_EVENTS, key, w);
      if next.quarantined && shown && NeverConfigured(e) {
        RequestJustified(record, e, prev, r, shown, Release(NeverAcknowledged), key, |s'.log|, HoldOf(s', e.id));
        ActStepKeeps(s', e, next, shown, Release(NeverAcknowledged), key, w);
      }
    } else {
      ClearStepKeeps(s, e.id, key, w);
      AlertsTouchNoRecord(s, e.id, prev, r, UNCONFIGURED_EVENTS, key, w);
      var s' := ClearStep(s, e.id, w);
      var d := Decide(prev.(quarantined := next.quarantined), r, shown, key);
      if d != Nothing {
        RequestJustified(record, e, prev, r, shown, d, key, |s'.log|, HoldOf(s', e.id));
        ActStepKeeps(s', e, next, shown, d, key, w);
      }
    }
  }

  lemma AlertsTouchNoRecord(s: State, id: string, prev: Position, r: Reading, ev: AlertEvents, key: string, w: World)
    ensures RecordOf(AlertStep(s, id, prev, r, ev, key, w), id) == RecordOf(s, id)
    ensures RecordOf(ClearStep(s, id, w), id) == RecordOf(s, id)
  {
    hide DecideAlert;
  }

  lemma PollKeeps(s: State, given: Enclave, key: string, w: World)
    requires Inv(s, key)
    ensures Inv(PollStep(s, given, key, w), key)
  {
    hide Inv, Summarises, Justified, Respond, Advance, Heard, Note, Current, PositionOf, Shown, RecordOf;
    if w.positionRead && w.exchange.Some? {
      var r, shown, prev, record := Heard(given, w), Shown(s, given.id), PositionOf(s, given.id), RecordOf(s, given.id);
      var happened := Happened(s, w.meanwhile);
      ElsewhereKeeps(s, happened, key);
      PositionSummarises(s, given.id, key);
      if w.readingRecorded {
        SameRecord(s, w, given.id);
        ReadSummarised(prev, record, key, r, shown);
        var looked := Look(happened, given.id, r, shown);
        ElsewhereKeeps(s, looked, key);
        NoteKeeps(looked, given.id, Advance(prev, r, key, shown), Read(r, shown), key);
        CurrentId(s, given);
        NotedRecord(looked, given.id, Advance(prev, r, key, shown), Read(r, shown));
        RespondKeeps(Noted(s, given, key, w), Current(s, given), prev, record, r, shown, key, w);
      }
    }
  }

  lemma SameRecord(s: State, w: World, id: string)
    ensures forall r, shown :: RecordOf(Look(Happened(s, w.meanwhile), id, r, shown), id) == RecordOf(s, id)
  {}

  lemma NotedRecord(s: State, id: string, p: Position, entry: Entry)
    ensures RecordOf(Note(s, id, p, entry), id) == RecordOf(s, id) + [entry]
  {}

  lemma PositionSummarises(s: State, id: string, key: string)
    requires Inv(s, key)
    ensures Summarises(PositionOf(s, id), RecordOf(s, id), key)
  {
    hide Summarises;
  }

  lemma StartKeeps(key: string)
    ensures Inv(START, key)
  {
    SummaryStarts(key);
  }

  lemma {:induction false} RunKeeps(steps: seq<Step>, key: string)
    ensures Inv(Run(steps, key), key)
  {
    hide Inv, PollStep, Happen;
    if steps == [] {
      StartKeeps(key);
    } else {
      var front, last := steps[..|steps| - 1], steps[|steps| - 1];
      RunKeeps(front, key);
      match last
      case Polled(e, w) => PollKeeps(Run(front, key), e, key, w);
      case Elsewhere(event) => ElsewhereKeeps(Run(front, key), Happen(Run(front, key), event), key);
    }
  }

  // ----- the theorems -----

  /** After any run, the stored position is what the recorded history says. */
  lemma PositionIsHistory(steps: seq<Step>, key: string, id: string)
    ensures var s := Run(steps, key); Summarises(PositionOf(s, id), RecordOf(s, id), key)
  {
    hide *;
    RunKeeps(steps, key);
    PositionSummarises(Run(steps, key), id, key);
  }

  /**
   Quarantine safety, over every run: no vault and no unarmed runtime is ever asked to be taken
   out of service, nor anything the list shows out of service already; and a release is asked for
   only while a recorded, applied quarantine of this monitor stands, with no recorded release of
   its own and no recorded poll that saw it lifted since.
   */
  lemma QuarantineSafety(steps: seq<Step>, key: string, q: Request)
    requires q in Run(steps, key).requests
    ensures var record := RecordOf(Run(steps, key), q.enclave);
            && q.length <= |record|
            && (q.decision.Quarantine? ==> !q.vault && q.armed && !q.shown)
            && (q.decision.Release? ==>
                  && q.shown && !q.vault
                  && exists k :: StandsSince(record[..q.length], k))
            && (q.decision.Quarantine? || q.decision.Release?)
  {
    hide Run, CalledFor, Clean, ClockProblem, Own, StandsSince, Summarises, Language, Standing;
    RunKeeps(steps, key);
    var record := RecordOf(Run(steps, key), q.enclave);
    assert Justified(q, record, key);
    OwnExactly(record[..q.length]);
  }

  /** Exactly when the poll of an armed enclave asks for a quarantine, and for a release. */
  lemma RequestsExactly(steps: seq<Step>, key: string, given: Enclave, w: World)
    requires w.positionRead && w.exchange.Some? && w.readingRecorded && w.platformOn
    requires var e := Current(Run(steps, key), given); Armed(e) && !IsVault(e)
    ensures var s := Run(steps, key);
            var asked := PollStep(s, given, key, w).requests;
            var r, record, shown := Heard(given, w), RecordOf(s, given.id), Shown(s, given.id);
            var own := Own(record + [Read(r, shown)]);
            && |s.requests| <= |asked|
            && (AsksQuarantine(asked[|s.requests|..]) <==> CalledFor(Reads(record), r, key) && !own && !shown)
            && (AsksRelease(asked[|s.requests|..]) <==> own && r.outcome == Answered && ClockProblem(r) == None && Clean(r))
  {
    hide *;
    var s := Run(steps, key);
    PositionIsHistory(steps, key, given.id);
    DecidedFromHistory(s, key, given, w);
    ArmedPollAsks(s, key, given, w);
    AskedLast(s.requests, PollStep(s, given, key, w).requests, DecisionOf(s, key, given, w));
  }

  function DecisionOf(s: State, key: string, given: Enclave, w: World): Decision
    requires w.exchange.Some?
  {
    Decide(PositionOf(s, given.id).(quarantined := NextPosition(s, given, key, w).quarantined), Heard(given, w), Shown(s, given.id), key)
  }

  lemma DecidedFromHistory(s: State, key: string, given: Enclave, w: World)
    requires w.exchange.Some? && Summarises(PositionOf(s, given.id), RecordOf(s, given.id), key)
    ensures var r, record, shown := Heard(given, w), RecordOf(s, given.id), Shown(s, given.id);
            var own, d := Own(record + [Read(r, shown)]), DecisionOf(s, key, given, w);
            && (d.Quarantine? <==> CalledFor(Reads(record), r, key) && !own && !shown)
            && (d.Release? <==> own && r.outcome == Answered && ClockProblem(r) == None && Clean(r))
  {
    hide Summarises, Own, Decide, Advance, CalledFor, Clean, ClockProblem, Heard, PositionOf, RecordOf, Shown, Reads;
    var r, record, shown, prev := Heard(given, w), RecordOf(s, given.id), Shown(s, given.id), PositionOf(s, given.id);
    ReadSummarised(prev, record, key, r, shown);
    QuarantinedIsOwn(NextPosition(s, given, key, w), record + [Read(r, shown)], key);
    DecisionFromHistory(prev, record, r, shown, key);
  }

  /** The poll of an armed enclave asks for what its decision says, and for nothing else. */
  lemma ArmedPollAsks(s: State, key: string, given: Enclave, w: World)
    requires w.positionRead && w.exchange.Some? && w.readingRecorded && w.platformOn
    requires var e := Current(s, given); Armed(e) && !IsVault(e)
    ensures Asks(s.requests, PollStep(s, given, key, w).requests, DecisionOf(s, key, given, w))
  {
    hide Shown, Current, PositionOf, Armed, IsVault, NeverConfigured, NextPosition, Heard, Decide, ClearStep, ActStep, Noted;
    var e := Current(s, given);
    NotedTouchesLittle(s, given, key, w);
    ClearAsksNothing(Noted(s, given, key, w), e.id, w);
    ActAsks(ClearStep(Noted(s, given, key, w), e.id, w), e, NextPosition(s, given, key, w), Shown(s, given.id), DecisionOf(s, key, given, w), w);
  }

  lemma NotedTouchesLittle(s: State, given: Enclave, key: string, w: World)
    requires w.exchange.Some?
    ensures var noted := Noted(s, given, key, w);
            noted.requests == s.requests && noted.alerts == s.alerts && noted.standing == s.standing
  {}

  predicate AsksQuarantine(asked: seq<Request>) { exists q: Request :: q in asked && q.decision.Quarantine? }

  predicate AsksRelease(asked: seq<Request>) { exists q: Request :: q in asked && q.decision.Release? }

  lemma CurrentId(s: State, e: Enclave)
    ensures Current(s, e).id == e.id && IsVault(Current(s, e)) == IsVault(e)
  {}

  ghost predicate Asks(before: seq<Request>, later: seq<Request>, d: Decision) {
    if d == Nothing then later == before else exists q: Request :: q.decision == d && later == before + [q]
  }

  lemma AskedLast(before: seq<Request>, later: seq<Request>, d: Decision)
    requires Asks(before, later, d)
    ensures |before| <= |later|
    ensures AsksQuarantine(later[|before|..]) <==> d.Quarantine?
    ensures AsksRelease(later[|before|..]) <==> d.Release?
  {
    if d != Nothing {
      var q: Request :| q.decision == d && later == before + [q];
      assert later[|before|..] == [q];
      assert q in later[|before|..];
    }
  }

  lemma ClearAsksNothing(s: State, id: string, w: World)
    ensures ClearStep(s, id, w).requests == s.requests
  {}

  lemma ActAsks(s: State, e: Enclave, next: Position, shown: bool, d: Decision, w: World)
    requires w.platformOn
    ensures exists q: Request :: q.decision == d && ActStep(s, e, next, shown, d, w).requests == s.requests + [q]
  {
    hide IsVault, Armed, NeverConfigured;
    var q := Request(e.id, d, IsVault(e), Armed(e), NeverConfigured(e), shown, |RecordOf(s, e.id)|, |s.log|, HoldOf(s, e.id));
    assert ActStep(s, e, next, shown, d, w).requests == s.requests + [q];
  }

  /** After any run, the alerts on a runtime follow the language and the row standing is their last word. */
  lemma AlertLanguage(steps: seq<Step>, key: string, id: string)
    ensures var s := Run(steps, key); Language(AlertsOf(s, id)) && StandingOn(s, id) == Standing(AlertsOf(s, id))
  {
    hide Run, Language, Standing, AllSummarised, AllJustified;
    RunKeeps(steps, key);
  }

  /** The problem a reading shows on a runtime that is alerted on, on the record and the reading alone. */
  function ProblemShown(ev: AlertEvents, taken: seq<Reading>, r: Reading, key: string): string {
    if r.outcome == Answered then if ClockProblem(r).Some? then ev.clockWrong else ""
    else if ConfigMissing(r, key) then ""
    else if FailedClosed(r) then ev.clockWrong
    else if r.outcome == Unreachable && Silence(taken) + 1 >= MAX_FAILED_POLLS then ev.unreachable
    else ""
  }

  /**
   Exactly what the poll of a vault announces when the store answers: a problem that is not the
   one standing, or the recovery of the one that is; otherwise nothing.
   */
  lemma VaultAlertExactly(steps: seq<Step>, key: string, given: Enclave, w: World)
    requires w.positionRead && w.exchange.Some? && w.readingRecorded && w.alertRead && w.alertWritten && IsVault(given)
    ensures var s := Run(steps, key);
            var log, r := AlertsOf(s, given.id), Heard(given, w);
            var problem := ProblemShown(VAULT_EVENTS, Reads(RecordOf(s, given.id)), r, key);
            AlertsOf(PollStep(s, given, key, w), given.id) ==
            if problem != "" && problem != Standing(log) then log + [problem]
            else if r.outcome == Answered && problem == "" && Standing(log) != "" && Clean(r) then log + [VAULT_EVENTS.back]
            else log
  {
    hide *;
    var s := Run(steps, key);
    var prev := PositionOf(s, given.id);
    PositionIsHistory(steps, key, given.id);
    AlertLanguage(steps, key, given.id);
    SummarisedSilence(prev, RecordOf(s, given.id), key);
    DecidedAlert(VAULT_EVENTS, prev, Reads(RecordOf(s, given.id)), Heard(given, w), StandingOn(s, given.id), key);
    VaultPoll(s, key, given, w);
  }

  lemma SummarisedSilence(p: Position, record: seq<Entry>, key: string)
    requires Summarises(p, record, key)
    ensures p.failedPolls == Silence(Reads(record))
  {}

  lemma DecidedAlert(ev: AlertEvents, prev: Position, taken: seq<Reading>, r: Reading, standing: string, key: string)
    requires prev.failedPolls == Silence(taken) && ev == VAULT_EVENTS
    ensures var problem := ProblemShown(ev, taken, r, key);
            DecideAlert(ev, prev, r, standing, key) ==
            if problem != "" && problem != standing then problem
            else if r.outcome == Answered && problem == "" && standing != "" && Clean(r) then ev.back
            else ""
    ensures ev.back != ""
  {
    hide ClockProblem, ConfigMissing, FailedClosed, Clean, Silence, IsBack;
    EventNames();
  }

  /** The poll of a vault raises what is decided, and nothing else. */
  lemma VaultPoll(s: State, key: string, given: Enclave, w: World)
    requires w.positionRead && w.exchange.Some? && w.readingRecorded && w.alertRead && w.alertWritten && IsVault(given)
    ensures var event := DecideAlert(VAULT_EVENTS, PositionOf(s, given.id), Heard(given, w), StandingOn(s, given.id), key);
            AlertsOf(PollStep(s, given, key, w), given.id) == if event == "" then AlertsOf(s, given.id) else AlertsOf(s, given.id) + [event]
  {
    hide DecideAlert, Heard, PositionOf, Shown, Current, NextPosition, IsVault, Armed, NeverConfigured, Noted;
    CurrentId(s, given);
    NotedTouchesLittle(s, given, key, w);
  }

  /** After a recorded poll, no alert of an unconfigured runtime stands on an enclave that holds the config. */
  lemma ArmedHasNoUnconfiguredAlert(steps: seq<Step>, key: string, given: Enclave, w: World)
    requires w.positionRead && w.exchange.Some? && w.readingRecorded && w.alertRead && w.alertWritten
    requires var e := Current(Run(steps, key), given); Armed(e) && !IsVault(e)
    ensures var standing := StandingOn(PollStep(Run(steps, key), given, key, w), given.id);
            standing != UNCONFIGURED_EVENTS.clockWrong && standing != UNCONFIGURED_EVENTS.unreachable
  {
    hide Run, Current, Armed, IsVault, NeverConfigured, Heard, NextPosition, Noted, Decide, ClearStep, ActStep, StandingOn, Shown, PositionOf;
    var s := Run(steps, key);
    var e := Current(s, given);
    CurrentId(s, given);
    var noted := Noted(s, given, key, w);
    Cleared(noted, given.id, w);
    ActTouchesNoAlert(ClearStep(noted, given.id, w), e, NextPosition(s, given, key, w), Shown(s, given.id), DecisionOf(s, key, given, w), w);
  }

  lemma Cleared(s: State, id: string, w: World)
    requires w.alertRead && w.alertWritten
    ensures var standing := StandingOn(ClearStep(s, id, w), id);
            standing != UNCONFIGURED_EVENTS.clockWrong && standing != UNCONFIGURED_EVENTS.unreachable
  {
    EventNames();
    assert UNCONFIGURED_PREFIX <= UNCONFIGURED_EVENTS.clockWrong && UNCONFIGURED_PREFIX <= UNCONFIGURED_EVENTS.unreachable;
  }

  lemma ActTouchesNoAlert(s: State, e: Enclave, next: Position, shown: bool, d: Decision, w: World)
    ensures StandingOn(ActStep(s, e, next, shown, d, w), e.id) == StandingOn(s, e.id)
  {
    hide IsVault, Armed, NeverConfigured;
  }

  // ----- runtimes of a fixed kind -----

  ghost predicate OfKind(steps: seq<Step>, id: string, vault: bool) {
    forall i | 0 <= i < |steps| :: steps[i].Polled? && steps[i].e.id == id ==> IsVault(steps[i].e) == vault
  }

  predicate EventOf(event: string, ev: AlertEvents) { event == ev.clockWrong || event == ev.unreachable || event == ev.back }

  /** A runtime that is always a vault, or never one, only ever has alerts of its kind. */
  lemma {:induction false} AlertsOfKind(steps: seq<Step>, key: string, id: string, vault: bool)
    requires OfKind(steps, id, vault)
    ensures forall i | 0 <= i < |AlertsOf(Run(steps, key), id)| ::
              EventOf(AlertsOf(Run(steps, key), id)[i], if vault then VAULT_EVENTS else UNCONFIGURED_EVENTS)
  {
    hide PollStep, EventOf, IsVault;
    if steps != [] {
      var front, last := steps[..|steps| - 1], steps[|steps| - 1];
      AlertsOfKind(front, key, id, vault);
      var s, s' := Run(front, key), Run(steps, key);
      if last.Polled? {
        PollAlerts(s, last.e, key, last.w, id);
        assert OneMoreAlert(s, s', id, last.e);
        assert last.e.id == id ==> IsVault(last.e) == vault;
      } else {
        assert AlertsOf(s', id) == AlertsOf(s, id);
      }
    }
  }

  /** A poll adds at most one alert, of the kind of the runtime polled. */
  lemma PollAlerts(s: State, given: Enclave, key: string, w: World, id: string)
    ensures OneMoreAlert(s, PollStep(s, given, key, w), id, given)
  {
    hide Armed, NeverConfigured, IsVault, Heard, NextPosition, Noted, Decide, EventOf, AlertStep, ClearStep, ActStep, Shown, PositionOf, Current;
    if w.positionRead && w.exchange.Some? && w.readingRecorded {
      var r, e, shown, prev, next := Heard(given, w), Current(s, given), Shown(s, given.id), PositionOf(s, given.id), NextPosition(s, given, key, w);
      CurrentId(s, given);
      var noted := Noted(s, given, key, w);
      NotedTouchesLittle(s, given, key, w);
      StepAlerts(noted, e, prev, r, if IsVault(e) then VAULT_EVENTS else UNCONFIGURED_EVENTS, key, w, id);
      ActAlerts(AlertStep(noted, e.id, prev, r, UNCONFIGURED_EVENTS, key, w), e, next, shown, Release(NeverAcknowledged), w);
      ActAlerts(ClearStep(noted, e.id, w), e, next, shown, DecisionOf(s, key, given, w), w);
    }
  }

  /** At most one alert more, on the runtime polled, and of its kind. */
  ghost predicate OneMoreAlert(s: State, s': State, id: string, e: Enclave) {
    || AlertsOf(s', id) == AlertsOf(s, id)
    || (id == e.id && exists event :: EventOf(event, if IsVault(e) then VAULT_EVENTS else UNCONFIGURED_EVENTS)
                                      && AlertsOf(s', id) == AlertsOf(s, id) + [event])
  }

  lemma StepAlerts(s: State, e: Enclave, prev: Position, r: Reading, ev: AlertEvents, key: string, w: World, id: string)
    requires ev == if IsVault(e) then VAULT_EVENTS else UNCONFIGURED_EVENTS
    ensures OneMoreAlert(s, AlertStep(s, e.id, prev, r, ev, key, w), id, e)
    ensures !IsVault(e) ==> OneMoreAlert(s, ClearStep(s, e.id, w), id, e)
  {
    hide IsVault, EventOf, DecideAlert;
    DecidedOfKind(ev, prev, r, StandingOn(s, e.id), key);
  }

  lemma ActAlerts(s: State, e: Enclave, next: Position, shown: bool, d: Decision, w: World)
    ensures ActStep(s, e, next, shown, d, w).alerts == s.alerts
  {
    hide IsVault, Armed, NeverConfigured;
  }

  lemma DecidedOfKind(ev: AlertEvents, prev: Position, r: Reading, standing: string, key: string)
    ensures var event := DecideAlert(ev, prev, r, standing, key); event != "" ==> EventOf(event, ev)
    ensures EventOf(ev.back, ev)
  {}
}
