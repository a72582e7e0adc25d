/**
 What the monitor's record cannot know (internal/clock/service.go `act`, internal/clock/listing.go):
 a call takes effect at the platform before its answer is recorded, and what operators do is seen
 only through lists that are fetched at one moment and installed at another. Exactly when a release
 the monitor asks for is the release of its own standing quarantine, judged by the platform's state.
 */
module ClockTruth {
  import opened Model
  import opened Clock
  import opened ClockService
  import opened ClockRuns

  /** The record of an enclave is what was kept of what happened. */
  function RecordIn(log: seq<Fact>, id: string): seq<Entry> {
    if log == [] then []
    else
      var front := RecordIn(log[..|log| - 1], id);
      match log[|log| - 1]
      case Looked(e, r, shown) => if e == id then front + [Read(r, shown)] else front
      case Called(e, d, applied, _, kept) => if e == id && kept then front + [Acted(d, applied)] else front
      case Operated(_, _) => front
  }

  /** A call that took effect, whatever came back. */
  predicate TookEffect(f: Fact) { f.Called? && (f.applied || f.reached) }

  /** The platform took the enclave out of service because the monitor asked. */
  predicate Places(f: Fact, id: string) { TookEffect(f) && f.enclave == id && f.decision.Quarantine? }

  /** The enclave went back into service, by a release of the monitor or by an operator. */
  predicate PutsBack(f: Fact, id: string) {
    || (TookEffect(f) && f.enclave == id && f.decision.Release?)
    || (f.Operated? && f.enclave == id && !f.out)
  }

  predicate OperatorPlaces(f: Fact, id: string) { f.Operated? && f.enclave == id && f.out }

  /** A way back into service that the record of the monitor does not hold. */
  predicate Slips(f: Fact, id: string) { PutsBack(f, id) && !(f.Called? && f.applied && f.kept) }

  /** What holds the enclave after everything that happened. */
  function HoldIn(log: seq<Fact>, id: string): Hold {
    if log == [] then FREE
    else
      var before, f := HoldIn(log[..|log| - 1], id), log[|log| - 1];
      if Places(f, id) then before.(monitor := true)
      else if PutsBack(f, id) then FREE
      else if OperatorPlaces(f, id) then before.(operator := true)
      else before
  }

  predicate SlippedAt(log: seq<Fact>, id: string, j: int) {
    0 <= j < |log| && Slips(log[j], id) && forall k | j < k < |log| :: !Places(log[k], id)
  }

  /** Since the monitor's last quarantine took effect, the enclave went back into service past its record. */
  ghost predicate LiftSlipped(log: seq<Fact>, id: string) { exists j :: SlippedAt(log, id, j) }

  predicate JoinedAt(log: seq<Fact>, id: string, j: int) {
    0 <= j < |log| && OperatorPlaces(log[j], id) && forall k | j < k < |log| :: !PutsBack(log[k], id)
  }

  /** An operator took the enclave out of service and it has not been back since. */
  ghost predicate OperatorJoined(log: seq<Fact>, id: string) { exists j :: JoinedAt(log, id, j) }

  ghost predicate EverPlaced(log: seq<Fact>, id: string) { exists k :: 0 <= k < |log| && Places(log[k], id) }

  // ----- belief against truth -----

  lemma HoldStep(log: seq<Fact>, f: Fact, id: string)
    ensures var before := HoldIn(log, id);
            HoldIn(log + [f], id) == if Places(f, id) then before.(monitor := true)
                                     else if PutsBack(f, id) then FREE
                                     else if OperatorPlaces(f, id) then before.(operator := true) else before
  {
    assert (log + [f])[..|log|] == log;
  }

  lemma SlipsStep(log: seq<Fact>, f: Fact, id: string)
    ensures LiftSlipped(log + [f], id) <==> Slips(f, id) || (LiftSlipped(log, id) && !Places(f, id))
  {
    hide Places, Slips;
    var longer, n := log + [f], |log|;
    forall j ensures SlippedAt(longer, id, j) <==> (j == n && Slips(f, id)) || (SlippedAt(log, id, j) && !Places(f, id)) {
      assert longer[n] == f && forall k | 0 <= k < n :: longer[k] == log[k];
    }
    assert SlippedAt(longer, id, n) <==> Slips(f, id);
  }

  lemma JoinsStep(log: seq<Fact>, f: Fact, id: string)
    ensures OperatorJoined(log + [f], id) <==> OperatorPlaces(f, id) || (OperatorJoined(log, id) && !PutsBack(f, id))
  {
    hide PutsBack, OperatorPlaces;
    var longer, n := log + [f], |log|;
    forall j ensures JoinedAt(longer, id, j) <==> (j == n && OperatorPlaces(f, id)) || (JoinedAt(log, id, j) && !PutsBack(f, id)) {
      assert longer[n] == f && forall k | 0 <= k < n :: longer[k] == log[k];
    }
    assert JoinedAt(longer, id, n) <==> OperatorPlaces(f, id);
  }

  lemma PlacedStep(log: seq<Fact>, f: Fact, id: string)
    ensures EverPlaced(log, id) || Places(f, id) ==> EverPlaced(log + [f], id)
  {
    hide Places;
    var longer := log + [f];
    assert forall k | 0 <= k < |log| :: longer[k] == log[k];
    assert longer[|log|] == f;
  }

  lemma OwnStep(record: seq<Entry>, last: Entry)
    ensures Own(record + [last]) <==> Placed(last) || (Own(record) && !Lifted(last))
  {
    assert (record + [last])[..|record|] == record;
  }

  /**
   While the record says a quarantine of this monitor stands, one took effect, and it stands at the
   platform exactly when since the last one no way back into service slipped past the record;
   whatever the record says, an operator's quarantine stands exactly when one was placed since the
   enclave was last in service.
   */
  lemma {:induction false} BeliefAgainstTruth(log: seq<Fact>, id: string)
    ensures Own(RecordIn(log, id)) ==> EverPlaced(log, id) && (HoldIn(log, id).monitor <==> !LiftSlipped(log, id))
    ensures HoldIn(log, id).operator <==> OperatorJoined(log, id)
  {
    hide Own, LiftSlipped, OperatorJoined, EverPlaced;
    if log == [] {
      NothingHappened(id);
    } else {
      var front, f := log[..|log| - 1], log[|log| - 1];
      assert log == front + [f];
      BeliefAgainstTruth(front, id);
      HoldStep(front, f, id);
      SlipsStep(front, f, id);
      JoinsStep(front, f, id);
      PlacedStep(front, f, id);
      OwnStep(RecordIn(front, id), if f.Looked? then Read(f.reading, f.shown) else if f.Called? then Acted(f.decision, f.applied) else Acted(Nothing, false));
    }
  }

  lemma NothingHappened(id: string)
    ensures RecordIn([], id) == [] && !Own([]) && HoldIn([], id) == FREE && !OperatorJoined([], id)
  {}

  // ----- the log of a run -----

  /** The record and the platform's state are what the log says. */
  ghost predicate Accounted(s: State) {
    forall id :: RecordOf(s, id) == RecordIn(s.log, id) && HoldOf(s, id) == HoldIn(s.log, id)
  }

  /** A request was made on the record, and of the platform's state, there was then. */
  ghost predicate MadeOn(q: Request, log: seq<Fact>, record: seq<Entry>) {
    && q.seen <= |log| && q.length <= |record|
    && RecordIn(log[..q.seen], q.enclave) == record[..q.length] && HoldIn(log[..q.seen], q.enclave) == q.hold
  }

  ghost predicate Books(s: State) { Accounted(s) && forall q | q in s.requests :: MadeOn(q, s.log, RecordOf(s, q.enclave)) }

  lemma MadeOnLater(q: Request, log: seq<Fact>, record: seq<Entry>, longerLog: seq<Fact>, longer: seq<Entry>)
    requires MadeOn(q, log, record) && log <= longerLog && record <= longer
    ensures MadeOn(q, longerLog, longer)
  {
    hide RecordIn, HoldIn;
    assert longerLog[..q.seen] == log[..q.seen] && longer[..q.length] == record[..q.length];
  }

  /** One fact more, with what the record keeps of it. */
  lemma FactKeeps(s: State, s': State, f: Fact)
    requires Books(s) && s'.log == s.log + [f] && s'.requests == s.requests
    requires forall id :: RecordOf(s, id) <= RecordOf(s', id)
    requires Accounted(s')
    ensures Books(s')
  {
    hide MadeOn, RecordOf, RecordIn, HoldIn, HoldOf;
    forall q | q in s'.requests ensures MadeOn(q, s'.log, RecordOf(s', q.enclave)) {
      MadeOnLater(q, s.log, RecordOf(s, q.enclave), s'.log, RecordOf(s', q.enclave));
    }
  }

  lemma HappenKeeps(s: State, event: Event)
    requires Books(s)
    ensures Books(Happen(s, event))
  {
    var s' := Happen(s, event);
    if event.Acts? {
      var f := Operated(event.enclave, event.out);
      assert s'.log[..|s.log|] == s.log;
      forall id ensures RecordOf(s', id) == RecordIn(s'.log, id) && HoldOf(s', id) == HoldIn(s'.log, id) { HoldStep(s.log, f, id); }
      FactKeeps(s, s', f);
    } else {
      SameBooksKept(s, s');
    }
  }

  lemma {:induction false} HappenedKeeps(s: State, events: seq<Event>)
    requires Books(s)
    ensures Books(Happened(s, events))
  {
    hide Books, Happen;
    if events != [] {
      HappenedKeeps(s, events[..|events| - 1]);
      HappenKeeps(Happened(s, events[..|events| - 1]), events[|events| - 1]);
    }
  }

  lemma ReadKeeps(s: State, id: string, p: Position, r: Reading, shown: bool)
    requires Books(s)
    ensures Books(Note(Look(s, id, r, shown), id, p, Read(r, shown)))
  {
    var s' := Note(Look(s, id, r, shown), id, p, Read(r, shown));
    assert s'.log[..|s.log|] == s.log;
    FactKeeps(s, s', Looked(id, r, shown));
  }

  lemma ActKeeps(s: State, e: Enclave, next: Position, shown: bool, d: Decision, w: World)
    requires Books(s) && d != Nothing
    ensures Books(ActStep(s, e, next, shown, d, w))
  {
    hide IsVault, Armed, NeverConfigured;
    if w.platformOn {
      var q := Request(e.id, d, IsVault(e), Armed(e), NeverConfigured(e), shown, |RecordOf(s, e.id)|, |s.log|, HoldOf(s, e.id));
      AskedBooks(s, q);
      CallBooks(s.(requests := s.requests + [q]), ActStep(s, e, next, shown, d, w), e.id, d, w);
    }
  }

  /** A call, its effect, and what is kept of it. */
  lemma CallBooks(s: State, s': State, id: string, d: Decision, w: World)
    requires Books(s) && s'.requests == s.requests && d != Nothing
    requires var kept := w.named && w.actionRecorded;
             && s'.log == s.log + [Called(id, d, w.callOK, w.reached, kept)] && s'.holds == HoldsAfter(s, id, d, w)
             && s'.record == if kept then s.record[id := RecordOf(s, id) + [Acted(d, w.callOK)]] else s.record
    ensures Books(s')
  {
    var f := Called(id, d, w.callOK, w.reached, w.named && w.actionRecorded);
    assert s'.log[..|s.log|] == s.log;
    forall k ensures RecordOf(s', k) == RecordIn(s'.log, k) && HoldOf(s', k) == HoldIn(s'.log, k) { HoldStep(s.log, f, k); }
    FactKeeps(s, s', f);
  }

  lemma AskedBooks(s: State, q: Request)
    requires Books(s) && q.seen == |s.log| && q.length == |RecordOf(s, q.enclave)| && q.hold == HoldOf(s, q.enclave)
    ensures Books(s.(requests := s.requests + [q]))
  {
    hide RecordIn, HoldIn;
    var asked := s.(requests := s.requests + [q]);
    assert forall id :: RecordOf(asked, id) == RecordOf(s, id) && HoldOf(asked, id) == HoldOf(s, id);
    assert s.log[..q.seen] == s.log && RecordOf(s, q.enclave)[..q.length] == RecordOf(s, q.enclave);
  }

  ghost predicate SameBooks(s: State, s': State) { s'.log == s.log && s'.record == s.record && s'.requests == s.requests && s'.holds == s.holds }

  lemma SameBooksKept(s: State, s': State)
    requires Books(s) && SameBooks(s, s')
    ensures Books(s')
  {
    hide RecordIn, HoldIn;
    assert forall id :: RecordOf(s', id) == RecordOf(s, id) && HoldOf(s', id) == HoldOf(s, id);
  }

  lemma AlertsTouchNoBooks(s: State, id: string, prev: Position, r: Reading, ev: AlertEvents, key: string, w: World)
    ensures SameBooks(s, AlertStep(s, id, prev, r, ev, key, w)) && SameBooks(s, ClearStep(s, id, w))
  {
    hide DecideAlert;
  }

  lemma PollBooks(s: State, given: Enclave, key: string, w: World)
    requires Books(s)
    ensures Books(PollStep(s, given, key, w))
  {
    hide Books, AlertStep, ClearStep, ActStep, IsVault, Armed, NeverConfigured, Decide, Advance, Heard, Current, Note, Look, Happened, SameBooks;
    if w.positionRead && w.exchange.Some? {
      HappenedKeeps(s, w.meanwhile);
      if w.readingRecorded {
        var r, e, shown, prev, next := Heard(given, w), Current(s, given), Shown(s, given.id), PositionOf(s, given.id), NextPosition(s, given, key, w);
        var noted := Noted(s, given, key, w);
        ReadKeeps(Happened(s, w.meanwhile), given.id, next, r, shown);
        var vault, unarmed, clear := AlertStep(noted, e.id, prev, r, VAULT_EVENTS, key, w),
                                     AlertStep(noted, e.id, prev, r, UNCONFIGURED_EVENTS, key, w), ClearStep(noted, e.id, w);
        AlertsTouchNoBooks(noted, e.id, prev, r, VAULT_EVENTS, key, w);
        AlertsTouchNoBooks(noted, e.id, prev, r, UNCONFIGURED_EVENTS, key, w);
        SameBooksKept(noted, vault);
        SameBooksKept(noted, unarmed);
        SameBooksKept(noted, clear);
        ActKeeps(unarmed, e, next, shown, Release(NeverAcknowledged), w);
        var d := Decide(prev.(quarantined := next.quarantined), r, shown, key);
        if d != Nothing { ActKeeps(clear, e, next, shown, d, w); }
      }
    }
  }

  lemma {:induction false} RunBooks(steps: seq<Step>, key: string)
    ensures Books(Run(steps, key))
  {
    hide Books, PollStep, Happen;
    if steps == [] {
      StartBooks();
    } else {
      var front, last := steps[..|steps| - 1], steps[|steps| - 1];
      RunBooks(front, key);
      match last
      case Polled(e, w) => PollBooks(Run(front, key), e, key, w);
      case Elsewhere(event) => HappenKeeps(Run(front, key), event);
    }
  }

  lemma StartBooks()
    ensures Books(START)
  {}

  /**
   Over every run, a release is asked for only after a quarantine of this monitor took effect. What
   it lifts is that quarantine and nothing else exactly when, since the last one took effect, no
   operator put the enclave back and no release took effect without a record of it, and no operator
   took the enclave out since it was last in service.
   */
  lemma ReleaseExactly(steps: seq<Step>, key: string, q: Request)
    requires q in Run(steps, key).requests && q.decision.Release?
    ensures q.seen <= |Run(steps, key).log|
    ensures var log := Run(steps, key).log[..q.seen];
            && q.hold == HoldIn(log, q.enclave) && EverPlaced(log, q.enclave)
            && (q.hold == OURS <==> !LiftSlipped(log, q.enclave) && !OperatorJoined(log, q.enclave))
  {
    hide *;
    RunBooks(steps, key);
    RunKeeps(steps, key);
    BelievedWhenAsked(Run(steps, key), q, key);
    BeliefAgainstTruth(Run(steps, key).log[..q.seen], q.enclave);
    OursAlone(q.hold);
  }

  lemma OursAlone(hold: Hold)
    ensures hold == OURS <==> hold.monitor && !hold.operator
  {}

  lemma BelievedWhenAsked(s: State, q: Request, key: string)
    requires Books(s) && Inv(s, key) && q in s.requests && q.decision.Release?
    ensures q.seen <= |s.log| && Own(RecordIn(s.log[..q.seen], q.enclave)) && q.hold == HoldIn(s.log[..q.seen], q.enclave)
  {
    hide Own, RecordIn, HoldIn, Summarises, Language, Clean, ClockProblem, CalledFor, RecordOf;
    assert Justified(q, RecordOf(s, q.enclave), key);
    assert MadeOn(q, s.log, RecordOf(s, q.enclave));
  }

  /** After every run, the platform's state is what happened to it. */
  lemma HoldIsHistory(steps: seq<Step>, key: string, id: string)
    ensures HoldOf(Run(steps, key), id) == HoldIn(Run(steps, key).log, id)
  {
    hide Run, RecordIn, HoldIn, HoldOf, RecordOf;
    RunBooks(steps, key);
  }

  // ----- releases of an operator's quarantine -----

  /** The list says of each enclave it names what the platform's state is when the list is fetched. */
  ghost predicate Truthful(s: State, event: Event) {
    event.Fetched? ==> forall id | id in event.list :: event.list[id].quarantined <==> HoldOf(s, id) != FREE
  }

  ghost predicate TruthfulStep(s: State, step: Step) {
    match step
    case Elsewhere(event) => Truthful(s, event)
    case Polled(_, w) => forall i | 0 <= i < |w.meanwhile| :: Truthful(Happened(s, w.meanwhile[..i]), w.meanwhile[i])
  }

  /** A run in which every list fetched is true at that moment. */
  ghost predicate TruthfulRun(steps: seq<Step>, key: string) {
    steps != [] ==>
      var front := steps[..|steps| - 1];
      TruthfulRun(front, key) && TruthfulStep(Run(front, key), steps[|steps| - 1])
  }

  const IN_SERVICE := Enclave("e", "app", 1, 1, true, false)
  const OUT_OF_SERVICE := IN_SERVICE.(quarantined := true)

  /** An answered poll whose calls the platform applies; `kept` is whether the action is recorded. */
  function Answer(verdict: string, kept: bool): (w: World)
    ensures w.exchange.Some?
  {
    World(Some(Response(200, "", Some(Reply("e", 0, 1, false, "", verdict, "key")))), 0, 0,
      true, true, true, true, true, true, false, true, kept, [])
  }

  const FETCHED_IN := Elsewhere(Fetched(map["e" := IN_SERVICE]))
  const FETCHED_OUT := Elsewhere(Fetched(map["e" := OUT_OF_SERVICE]))
  const INSTALLED := Elsewhere(Installed)
  const OPERATOR_OUT := Elsewhere(Acts("e", true))
  const OPERATOR_BACK := Elsewhere(Acts("e", false))
  const TAKEN_OUT := Polled(IN_SERVICE, Answer(VERDICT_HOST_WRONG, true))
  const PUT_BACK_UNRECORDED := Polled(IN_SERVICE, Answer(VERDICT_IN_SYNC, false))
  const PUT_BACK := Polled(IN_SERVICE, Answer(VERDICT_IN_SYNC, true))

  lemma AnswerWorld(verdict: string, kept: bool)
    ensures var w := Answer(verdict, kept);
            && w.platformOn && w.positionRead && w.readingRecorded && w.callOK && w.named && w.actionRecorded == kept && w.meanwhile == []
  {}

  lemma AnswerHeard(verdict: string, kept: bool)
    ensures var r := Heard(IN_SERVICE, Answer(verdict, kept));
            r.outcome == Answered && r.verdict == verdict && r.trustedMs == 1 && !r.flagged && r.driftMs == 0 && r.reason == ""
  {}

  lemma AnswerDecided(prev: Position, r: Reading, shown: bool, key: string)
    requires r.outcome == Answered && r.trustedMs == 1 && !r.flagged && r.driftMs == 0 && r.reason == ""
    ensures r.verdict == VERDICT_IN_SYNC && prev.quarantined ==> Decide(prev, r, shown, key) == Release(BackInSync)
    ensures r.verdict == VERDICT_HOST_WRONG && !prev.quarantined && !shown ==> Decide(prev, r, shown, key) == Quarantine(Found(HostClockWrong))
  {}

  lemma ArmedNoVault()
    ensures Armed(IN_SERVICE) && !IsVault(IN_SERVICE) && IN_SERVICE.id == "e"
  {
    assert |Lowered("app")| == 3;
  }

  /** The poll of an armed enclave that decides something is the call. */
  lemma ArmedPoll(s: State, key: string, given: Enclave, w: World)
    requires w.positionRead && w.exchange.Some? && w.readingRecorded && DecisionOf(s, key, given, w) != Nothing
    requires var e := Current(s, given); Armed(e) && !IsVault(e)
    ensures var e := Current(s, given);
            PollStep(s, given, key, w) == ActStep(ClearStep(Noted(s, given, key, w), e.id, w), e, NextPosition(s, given, key, w),
                                                  Shown(s, given.id), DecisionOf(s, key, given, w), w)
  {
    hide Shown, Current, PositionOf, Armed, IsVault, NeverConfigured, NextPosition, Heard, Decide, ClearStep, ActStep, Noted;
  }

  /** What is left of the poll's state when its reading is recorded and alerts are seen to. */
  lemma BeforeTheCall(s: State, w: World)
    requires w.exchange.Some? && w.meanwhile == []
    ensures var s' := ClearStep(Noted(s, IN_SERVICE, "key", w), "e", w);
            && s'.requests == s.requests && s'.holds == s.holds && s'.list == s.list
            && s'.positions == s.positions["e" := NextPosition(s, IN_SERVICE, "key", w)]
  {
    hide NextPosition, Heard;
  }

  lemma NextQuarantined(s: State, w: World)
    requires w.exchange.Some?
    ensures NextPosition(s, IN_SERVICE, "key", w).quarantined <==> PositionOf(s, "e").quarantined && Shown(s, "e")
  {
    hide PositionOf, Shown, Heard, ConfigMissing;
  }

  /** What an applied call leaves: the list, the platform's state and, if it is recorded, the position. */
  lemma ApplyEffect(s: State, e: Enclave, next: Position, shown: bool, d: Decision, w: World)
    requires d != Nothing && w.platformOn && w.callOK && w.named
    ensures var s' := ActStep(s, e, next, shown, d, w);
            && s'.holds == HoldsAfter(s, e.id, d, w)
            && s'.list == (if e.id in s.list then s.list[e.id := s.list[e.id].(quarantined := d.Quarantine?)] else s.list)
            && s'.positions == (if w.actionRecorded then s.positions[e.id := next.(quarantined := d.Quarantine?)] else s.positions)
            && exists q: Request :: s'.requests == s.requests + [q] && q.enclave == e.id && q.decision == d && q.hold == HoldOf(s, e.id)
  {
    hide IsVault, Armed, NeverConfigured, HoldsAfter, HoldOf;
    var q := Request(e.id, d, IsVault(e), Armed(e), NeverConfigured(e), shown, |RecordOf(s, e.id)|, |s.log|, HoldOf(s, e.id));
    assert ActStep(s, e, next, shown, d, w).requests == s.requests + [q];
  }

  /** A poll whose call is applied: the request, and what it leaves. */
  lemma AppliedPoll(s: State, verdict: string, kept: bool)
    requires Current(s, IN_SERVICE) == IN_SERVICE && DecisionOf(s, "key", IN_SERVICE, Answer(verdict, kept)) != Nothing
    ensures var w := Answer(verdict, kept);
            var d, s' := DecisionOf(s, "key", IN_SERVICE, w), PollStep(s, IN_SERVICE, "key", w);
            && s'.holds == HoldsAfter(s, "e", d, w)
            && s'.list == (if "e" in s.list then s.list["e" := s.list["e"].(quarantined := d.Quarantine?)] else s.list)
            && "e" in s'.positions
            && s'.positions["e"].quarantined == (if kept then d.Quarantine? else NextPosition(s, IN_SERVICE, "key", w).quarantined)
            && exists q: Request :: s'.requests == s.requests + [q] && q.enclave == "e" && q.decision == d && q.hold == HoldOf(s, "e")
  {
    hide *;
    var w := Answer(verdict, kept);
    AnswerWorld(verdict, kept);
    ArmedNoVault();
    ArmedPoll(s, "key", IN_SERVICE, w);
    BeforeTheCall(s, w);
    var cleared, next, d := ClearStep(Noted(s, IN_SERVICE, "key", w), "e", w), NextPosition(s, IN_SERVICE, "key", w), DecisionOf(s, "key", IN_SERVICE, w);
    ApplyEffect(cleared, IN_SERVICE, next, Shown(s, "e"), d, w);
    SameHold(s, cleared, d, w);
  }

  lemma SameHold(s: State, s': State, d: Decision, w: World)
    requires s'.holds == s.holds
    ensures HoldOf(s', "e") == HoldOf(s, "e") && HoldsAfter(s', "e", d, w) == HoldsAfter(s, "e", d, w)
  {}

  lemma DecisionFor(s: State, verdict: string, kept: bool)
    ensures var w := Answer(verdict, kept);
            var ours, d := PositionOf(s, "e").quarantined && Shown(s, "e"), DecisionOf(s, "key", IN_SERVICE, w);
            && (NextPosition(s, IN_SERVICE, "key", w).quarantined <==> ours)
            && (verdict == VERDICT_IN_SYNC && ours ==> d == Release(BackInSync))
            && (verdict == VERDICT_HOST_WRONG && !ours && !Shown(s, "e") ==> d == Quarantine(Found(HostClockWrong)))
  {
    hide Decide, Heard, NextPosition, Answer, Shown, PositionOf;
    var w := Answer(verdict, kept);
    AnswerHeard(verdict, kept);
    NextQuarantined(s, w);
    AnswerDecided(PositionOf(s, "e").(quarantined := NextPosition(s, IN_SERVICE, "key", w).quarantined), Heard(IN_SERVICE, w), Shown(s, "e"), "key");
  }

  /** A clean poll of an enclave believed to be in our quarantine: the release, and what it leaves. */
  lemma CleanPoll(s: State, kept: bool)
    requires PositionOf(s, "e").quarantined && Shown(s, "e") && Current(s, IN_SERVICE) == IN_SERVICE
    ensures var s' := PollStep(s, IN_SERVICE, "key", Answer(VERDICT_IN_SYNC, kept));
            && PositionOf(s', "e").quarantined == !kept && HoldOf(s', "e") == FREE
            && exists q: Request :: s'.requests == s.requests + [q] && q.enclave == "e" && q.decision.Release? && q.hold == HoldOf(s, "e")
  {
    hide PollStep, NextPosition, DecisionOf, Shown, Current, Heard;
    DecisionFor(s, VERDICT_IN_SYNC, kept);
    AppliedPoll(s, VERDICT_IN_SYNC, kept);
  }

  /** The enclave is believed to be in our quarantine, and held by `hold`. */
  ghost predicate Believed(s: State, hold: Hold) {
    PositionOf(s, "e").quarantined && HoldOf(s, "e") == hold
  }

  lemma OneStep(steps: seq<Step>, step: Step)
    ensures Run(steps + [step], "key") == Apply(Run(steps, "key"), step, "key")
    ensures TruthfulRun(steps + [step], "key") <==> TruthfulRun(steps, "key") && TruthfulStep(Run(steps, "key"), step)
    ensures Run([], "key") == START && TruthfulRun([], "key")
  {
    assert (steps + [step])[..|steps|] == steps;
  }

  /** The platform lists the enclave as out of service, as it is, and the list is installed. */
  lemma ListedOut(steps: seq<Step>, hold: Hold)
    requires TruthfulRun(steps, "key") && Believed(Run(steps, "key"), hold) && hold != FREE
    ensures var longer := (steps + [FETCHED_OUT]) + [INSTALLED];
            var s := Run(longer, "key");
            TruthfulRun(longer, "key") && Believed(s, hold) && Shown(s, "e") && Current(s, IN_SERVICE) == IN_SERVICE
  {
    hide Run, TruthfulRun;
    OneStep(steps, FETCHED_OUT);
    OneStep(steps + [FETCHED_OUT], INSTALLED);
  }

  lemma OperatorStep(steps: seq<Step>, hold: Hold, out: bool)
    requires TruthfulRun(steps, "key") && Believed(Run(steps, "key"), hold)
    ensures var longer := steps + [Elsewhere(Acts("e", out))];
            TruthfulRun(longer, "key") && Believed(Run(longer, "key"), if out then hold.(operator := true) else FREE)
  {
    hide Run, TruthfulRun;
    OneStep(steps, Elsewhere(Acts("e", out)));
  }

  lemma CleanStep(steps: seq<Step>, hold: Hold, kept: bool)
    requires TruthfulRun(steps, "key") && Believed(Run(steps, "key"), hold)
    requires Shown(Run(steps, "key"), "e") && Current(Run(steps, "key"), IN_SERVICE) == IN_SERVICE
    ensures var longer := steps + [Polled(IN_SERVICE, Answer(VERDICT_IN_SYNC, kept))];
            var s := Run(longer, "key");
            && TruthfulRun(longer, "key") && (!kept ==> Believed(s, FREE))
            && exists q: Request :: q in s.requests && q.decision.Release? && q.hold == hold
  {
    hide Run, TruthfulRun, PollStep, Shown, Current, PositionOf, HoldOf, Answer;
    var step := Polled(IN_SERVICE, Answer(VERDICT_IN_SYNC, kept));
    OneStep(steps, step);
    CleanPoll(Run(steps, "key"), kept);
    AnswerWorld(VERDICT_IN_SYNC, kept);
    var s, s' := Run(steps, "key"), Run(steps + [step], "key");
    var q: Request :| s'.requests == s.requests + [q] && q.enclave == "e" && q.decision.Release? && q.hold == HoldOf(s, "e");
    assert q in s'.requests;
  }

  const LISTED_STEPS := [FETCHED_IN, INSTALLED]

  lemma ListedIn()
    ensures TruthfulRun(LISTED_STEPS, "key")
    ensures Run(LISTED_STEPS, "key") == START.(list := map["e" := IN_SERVICE])
  {
    OneStep([], FETCHED_IN);
    OneStep([FETCHED_IN], INSTALLED);
    assert [] + [FETCHED_IN] == [FETCHED_IN] && [FETCHED_IN] + [INSTALLED] == LISTED_STEPS;
  }

  /** The monitor takes the enclave out of service; whoever held it before holds it still. */
  lemma TakenOut(s: State)
    requires s.list == map["e" := IN_SERVICE] && s.positions == map[] && s.flight == None
    ensures var s' := PollStep(s, IN_SERVICE, "key", Answer(VERDICT_HOST_WRONG, true));
            && Believed(s', HoldOf(s, "e").(monitor := true))
            && Shown(s', "e") && Current(s', IN_SERVICE) == IN_SERVICE
  {
    hide PollStep, NextPosition, DecisionOf, Heard;
    DecisionFor(s, VERDICT_HOST_WRONG, true);
    AppliedPoll(s, VERDICT_HOST_WRONG, true);
  }

  lemma TakenOutStep(steps: seq<Step>)
    requires TruthfulRun(steps, "key")
    requires var s := Run(steps, "key"); s.list == map["e" := IN_SERVICE] && s.positions == map[] && s.flight == None
    ensures var longer := steps + [TAKEN_OUT];
            var s' := Run(longer, "key");
            && TruthfulRun(longer, "key") && Believed(s', HoldOf(Run(steps, "key"), "e").(monitor := true))
            && Shown(s', "e") && Current(s', IN_SERVICE) == IN_SERVICE
  {
    hide Run, TruthfulRun, PollStep, Shown, Current, Believed, HoldOf, Answer;
    OneStep(steps, TAKEN_OUT);
    AnswerWorld(VERDICT_HOST_WRONG, true);
    TakenOut(Run(steps, "key"));
  }

  /** The run asks for a release of what only an operator holds. */
  ghost predicate ReleasesOperators(steps: seq<Step>) {
    TruthfulRun(steps, "key")
    && exists q: Request :: q in Run(steps, "key").requests && q.decision.Release? && q.hold == Hold(false, true)
  }

  /** A lost record: the monitor's release took effect unrecorded, and an operator then took the enclave out. */
  lemma LostRecordRun()
    ensures ReleasesOperators(LISTED_STEPS + [TAKEN_OUT, PUT_BACK_UNRECORDED, OPERATOR_OUT, FETCHED_OUT, INSTALLED, PUT_BACK])
  {
    hide Run, TruthfulRun, Believed, Shown, Current, HoldOf, Answer;
    ListedIn();
    assert HoldOf(Run(LISTED_STEPS, "key"), "e") == FREE by { Unheld(Run(LISTED_STEPS, "key")); }
    var a := LISTED_STEPS + [TAKEN_OUT];
    TakenOutStep(LISTED_STEPS);
    CleanStep(a, OURS, false);
    var b := a + [PUT_BACK_UNRECORDED];
    OperatorStep(b, FREE, true);
    var c := b + [OPERATOR_OUT];
    ListedOut(c, Hold(false, true));
    var d := (c + [FETCHED_OUT]) + [INSTALLED];
    CleanStep(d, Hold(false, true), true);
    assert d + [PUT_BACK] == LISTED_STEPS + [TAKEN_OUT, PUT_BACK_UNRECORDED, OPERATOR_OUT, FETCHED_OUT, INSTALLED, PUT_BACK];
  }

  lemma Unheld(s: State)
    requires s.holds == map[]
    ensures HoldOf(s, "e") == FREE
  {}

  /** Between two lists: an operator puts the enclave back and takes it out again, which no list can show. */
  lemma BetweenListsRun()
    ensures ReleasesOperators(LISTED_STEPS + [TAKEN_OUT, OPERATOR_BACK, OPERATOR_OUT, FETCHED_OUT, INSTALLED, PUT_BACK])
  {
    hide Run, TruthfulRun, Believed, Shown, Current, HoldOf, Answer;
    ListedIn();
    assert HoldOf(Run(LISTED_STEPS, "key"), "e") == FREE by { Unheld(Run(LISTED_STEPS, "key")); }
    var a := LISTED_STEPS + [TAKEN_OUT];
    TakenOutStep(LISTED_STEPS);
    OperatorStep(a, OURS, false);
    var b := a + [OPERATOR_BACK];
    OperatorStep(b, FREE, true);
    var c := b + [OPERATOR_OUT];
    ListedOut(c, Hold(false, true));
    var d := (c + [FETCHED_OUT]) + [INSTALLED];
    CleanStep(d, Hold(false, true), true);
    assert d + [PUT_BACK] == LISTED_STEPS + [TAKEN_OUT, OPERATOR_BACK, OPERATOR_OUT, FETCHED_OUT, INSTALLED, PUT_BACK];
  }

  /** An operator first: the enclave is out of service, the list does not say so yet, and the monitor takes it out too. */
  lemma OperatorFirstRun()
    ensures var steps := LISTED_STEPS + [OPERATOR_OUT, TAKEN_OUT, PUT_BACK];
            && TruthfulRun(steps, "key")
            && exists q: Request :: q in Run(steps, "key").requests && q.decision.Release? && q.hold == Hold(true, true)
  {
    hide Run, TruthfulRun, Believed, Shown, Current, Answer;
    ListedIn();
    OneStep(LISTED_STEPS, OPERATOR_OUT);
    var a := LISTED_STEPS + [OPERATOR_OUT];
    TakenOutStep(a);
    var b := a + [TAKEN_OUT];
    CleanStep(b, Hold(true, true), true);
    assert b + [PUT_BACK] == LISTED_STEPS + [OPERATOR_OUT, TAKEN_OUT, PUT_BACK];
  }
}
