/**
 The shutdown protocol: `goBackground`, `Shutdown` and `withStore` of internal/clock/shutdown.go
 as interleaved steps of any number of threads over one reader-writer lock, one wait group and
 two flags.

 Every state keeps the history of what happened in it, so what is proved of reachable states is
 proved of whole runs.
 */
module Shutdown {

  /** Where a thread is inside `goBackground` or `withStore`. */
  datatype Place =
    | Entered            // goBackground: holds the lock shared
    | MayStart           // saw that closing is not set
    | Refused            // saw closing or gone: about to return
    | Added(work: nat)   // counted its work in the wait group
    | Started            // the work runs on its own
    | StoreEntered       // withStore: holds the lock shared
    | Writing            // saw that gone is not set: runs the guarded write

  /** Where `Shutdown` is. */
  datatype Phase =
    | NotCalled | Closing | ClosingSet | Closed | Cancelled | Selecting | Proceeding | Letting | GoneSet | Returned

  /** Where the goroutine that waits is. */
  datatype Waiter = NotStarted | Stopping | Waiting | Finished

  datatype Event =
    | StartedWork(work: nat) | CountedWork(work: nat) | SetClosing | BeganWait | WaitOver | Wrote(thread: nat) | ShutdownReturned

  datatype State = State(
    exclusive: bool,
    places: map<nat, Place>,
    closing: bool,
    gone: bool,
    phase: Phase,
    waiter: Waiter,
    counter: nat,
    running: set<nat>,
    history: seq<Event>)

  const START := State(false, map[], false, false, NotCalled, NotStarted, 0, {}, [])

  datatype Step =
    | Enter(t: nat) | Check(t: nat) | Add(t: nat, work: nat) | Go(t: nat) | Leave(t: nat) | Done(work: nat)
    | EnterStore(t: nat) | CheckStore(t: nat) | Write(t: nat)
    | LockClosing | SetsClosing | UnlockClosing | Cancel | SpawnWaiter
    | StopReturned | WaitReturned | SelectFinished | SelectTimeout
    | LockGone | SetsGone | Return

  predicate At(s: State, t: nat, p: Place) { t in s.places && s.places[t] == p }

  /** Taking the lock shared needs no exclusive holder; taking it exclusively needs no holder at all. */
  predicate Enabled(s: State, step: Step) {
    match step
    case Enter(t) => t !in s.places && !s.exclusive
    case Check(t) => At(s, t, Entered)
    case Add(t, work) => At(s, t, MayStart) && CountedWork(work) !in s.history
    case Go(t) => t in s.places && s.places[t].Added?
    case Leave(t) => At(s, t, Refused) || At(s, t, Started) || At(s, t, Writing)
    case Done(work) => work in s.running && s.counter > 0
    case EnterStore(t) => t !in s.places && !s.exclusive
    case CheckStore(t) => At(s, t, StoreEntered)
    case Write(t) => At(s, t, Writing)
    case LockClosing => s.phase.NotCalled? && !s.exclusive && s.places == map[]
    case SetsClosing => s.phase.Closing?
    case UnlockClosing => s.phase.ClosingSet?
    case Cancel => s.phase.Closed?
    case SpawnWaiter => s.phase.Cancelled?
    case StopReturned => s.waiter.Stopping?
    case WaitReturned => s.waiter.Waiting? && s.counter == 0
    case SelectFinished => s.phase.Selecting? && s.waiter.Finished?
    case SelectTimeout => s.phase.Selecting?
    case LockGone => s.phase.Proceeding? && !s.exclusive && s.places == map[]
    case SetsGone => s.phase.Letting?
    case Return => s.phase.GoneSet?
  }

  function Moved(s: State, t: nat, p: Place): State { s.(places := s.places[t := p]) }

  function Log(s: State, e: Event): State { s.(history := s.history + [e]) }

  function Apply(s: State, step: Step): State
    requires Enabled(s, step)
  {
    match step
    case Enter(t) => Moved(s, t, Entered)
    case Check(t) => Moved(s, t, if s.closing then Refused else MayStart)
    case Add(t, work) => Log(Moved(s, t, Added(work)).(counter := s.counter + 1), CountedWork(work))
    case Go(t) =>
      Log(Moved(s, t, Started).(running := s.running + {s.places[t].work}), StartedWork(s.places[t].work))
    case Leave(t) => s.(places := s.places - {t})
    case Done(work) => s.(running := s.running - {work}, counter := s.counter - 1)
    case EnterStore(t) => Moved(s, t, StoreEntered)
    case CheckStore(t) => Moved(s, t, if s.gone then Refused else Writing)
    case Write(t) => Log(s, Wrote(t))
    case LockClosing => s.(phase := Closing, exclusive := true)
    case SetsClosing => Log(s.(phase := ClosingSet, closing := true), SetClosing)
    case UnlockClosing => s.(phase := Closed, exclusive := false)
    case Cancel => s.(phase := Cancelled)
    case SpawnWaiter => s.(phase := Selecting, waiter := Stopping)
    case StopReturned => Log(s.(waiter := Waiting), BeganWait)
    case WaitReturned => Log(s.(waiter := Finished), WaitOver)
    case SelectFinished => s.(phase := Proceeding)
    case SelectTimeout => s.(phase := Proceeding)
    case LockGone => s.(phase := Letting, exclusive := true)
    case SetsGone => s.(phase := GoneSet, gone := true)
    case Return => Log(s.(phase := Returned, exclusive := false), ShutdownReturned)
  }

  /** A run: every step was enabled where it was taken. */
  ghost predicate Run(states: seq<State>, steps: seq<Step>) {
    && |states| == |steps| + 1 && states[0] == START
    && forall i | 0 <= i < |steps| :: Enabled(states[i], steps[i]) && states[i + 1] == Apply(states[i], steps[i])
  }

  // ----- the invariant -----

  predicate Held(phase: Phase) { phase.Closing? || phase.ClosingSet? || phase.Letting? || phase.GoneSet? }

  predicate Begun(phase: Phase) { !phase.NotCalled? && !phase.Closing? }

  predicate LetGo(phase: Phase) { phase.GoneSet? || phase.Returned? }

  /** Work counted in the wait group but not started yet. */
  ghost function Pending(s: State): set<nat> {
    set t | t in s.places && s.places[t].Added? :: s.places[t].work
  }

  ghost predicate Flags(s: State) {
    && s.exclusive == Held(s.phase)
    && (s.exclusive ==> s.places == map[])
    && s.closing == Begun(s.phase)
    && s.gone == LetGo(s.phase)
    && (s.waiter.NotStarted? <==> s.phase in {NotCalled, Closing, ClosingSet, Closed, Cancelled})
  }

  /** Once a flag is set no thread is past the check of it. */
  ghost predicate Gates(s: State) {
    && (s.closing ==> forall t | t in s.places :: !s.places[t].MayStart? && !s.places[t].Added?)
    && (s.gone ==> forall t | t in s.places :: !s.places[t].Writing?)
  }

  /** The wait group counts exactly the work that is pending or running. */
  ghost predicate Counts(s: State) {
    && DistinctWork(s)
    && Pending(s) !! s.running
    && s.counter == |Pending(s)| + |s.running|
    && (forall w | w in Pending(s) || w in s.running :: CountedWork(w) in s.history)
    && (s.waiter.Finished? ==> s.counter == 0)
  }

  predicate Before(history: seq<Event>, a: Event, b: Event) {
    forall i, j | 0 <= i < |history| && 0 <= j < |history| && history[i] == a && history[j] == b :: i < j
  }

  /** What the history never shows. */
  ghost predicate Ordered(history: seq<Event>) {
    && (forall w :: Before(history, CountedWork(w), SetClosing) && Before(history, StartedWork(w), SetClosing))
    && (forall w :: Before(history, CountedWork(w), BeganWait))
    && (forall t :: Before(history, Wrote(t), ShutdownReturned))
  }

  ghost predicate Recorded(s: State) {
    && (SetClosing in s.history <==> s.closing)
    && (BeganWait in s.history <==> s.waiter.Waiting? || s.waiter.Finished?)
    && (ShutdownReturned in s.history <==> s.phase.Returned?)
  }

  ghost predicate Inv(s: State) { Flags(s) && Gates(s) && Counts(s) && Ordered(s.history) && Recorded(s) }

  lemma BeforeAppend(history: seq<Event>, e: Event, a: Event, b: Event)
    requires Before(history, a, b) && a != b && (e == a ==> b !in history)
    ensures Before(history + [e], a, b)
  {
    assert forall i | 0 <= i < |history| :: (history + [e])[i] == history[i] && history[i] in history;
  }

  lemma AppendOrdered(history: seq<Event>, e: Event)
    requires Ordered(history)
    requires e.CountedWork? ==> SetClosing !in history && BeganWait !in history
    requires e.StartedWork? ==> SetClosing !in history
    requires e.Wrote? ==> ShutdownReturned !in history
    ensures Ordered(history + [e])
  {
    hide Before;
    forall w ensures Before(history + [e], CountedWork(w), SetClosing) && Before(history + [e], StartedWork(w), SetClosing) {
      BeforeAppend(history, e, CountedWork(w), SetClosing);
      BeforeAppend(history, e, StartedWork(w), SetClosing);
    }
    forall w ensures Before(history + [e], CountedWork(w), BeganWait) { BeforeAppend(history, e, CountedWork(w), BeganWait); }
    forall t ensures Before(history + [e], Wrote(t), ShutdownReturned) { BeforeAppend(history, e, Wrote(t), ShutdownReturned); }
  }

  lemma InAppend(history: seq<Event>, e: Event)
    ensures forall x :: x in history + [e] <==> x in history || x == e
  {}

  lemma KeepsFlags(s: State, step: Step)
    requires Flags(s) && Enabled(s, step)
    ensures Flags(Apply(s, step))
  {}

  lemma KeepsGates(s: State, step: Step)
    requires Flags(s) && Gates(s) && Enabled(s, step)
    ensures Gates(Apply(s, step))
  {}

  lemma KeepsRecorded(s: State, step: Step)
    requires Flags(s) && Recorded(s) && Enabled(s, step)
    ensures Recorded(Apply(s, step))
  {
    var s' := Apply(s, step);
    if s'.history != s.history { InAppend(s.history, s'.history[|s.history|]); }
  }

  lemma KeepsOrdered(s: State, step: Step)
    requires Flags(s) && Gates(s) && Recorded(s) && Ordered(s.history) && Enabled(s, step)
    ensures Ordered(Apply(s, step).history)
  {
    hide Ordered, Before;
    if Apply(s, step).history != s.history {
      var e := Apply(s, step).history[|s.history|];
      AppendOrdered(s.history, e);
    }
  }

  ghost predicate DistinctWork(s: State) {
    forall t, t' | t in s.places && t' in s.places && t != t' && s.places[t].Added? && s.places[t'].Added? ::
      s.places[t].work != s.places[t'].work
  }

  /** A thread that is not about to start work moves without changing what is pending. */
  lemma PendingMoved(s: State, t: nat, p: Place)
    requires !p.Added? && (t in s.places ==> !s.places[t].Added?)
    ensures Pending(Moved(s, t, p)) == Pending(s) && (DistinctWork(s) ==> DistinctWork(Moved(s, t, p)))
  {
    var s' := Moved(s, t, p);
    forall w ensures w in Pending(s') <==> w in Pending(s) {
      if u :| u in s.places && s.places[u].Added? && s.places[u].work == w { assert s'.places[u] == s.places[u]; }
      if u :| u in s'.places && s'.places[u].Added? && s'.places[u].work == w { assert s'.places[u] == s.places[u]; }
    }
  }

  lemma PendingLeft(s: State, t: nat)
    requires t in s.places && !s.places[t].Added?
    ensures Pending(s.(places := s.places - {t})) == Pending(s)
    ensures DistinctWork(s) ==> DistinctWork(s.(places := s.places - {t}))
  {
    var s' := s.(places := s.places - {t});
    forall w ensures w in Pending(s') <==> w in Pending(s) {
      if u :| u in s.places && s.places[u].Added? && s.places[u].work == w { assert s'.places[u] == s.places[u]; }
      if u :| u in s'.places && s'.places[u].Added? && s'.places[u].work == w { assert s'.places[u] == s.places[u]; }
    }
  }

  lemma PendingAdded(s: State, t: nat, work: nat)
    requires At(s, t, MayStart) && work !in Pending(s) && DistinctWork(s)
    ensures Pending(Moved(s, t, Added(work))) == Pending(s) + {work} && DistinctWork(Moved(s, t, Added(work)))
  {
    var s' := Moved(s, t, Added(work));
    assert s'.places[t] == Added(work);
    forall u | u in s.places && s.places[u].Added? ensures s.places[u].work in Pending(s) && s'.places[u] == s.places[u] {}
    forall w ensures w in Pending(s') <==> w in Pending(s) + {work} {
      if u :| u in s.places && s.places[u].Added? && s.places[u].work == w { assert s'.places[u] == s.places[u]; }
      if u :| u in s'.places && s'.places[u].Added? && s'.places[u].work == w { assert u == t || s'.places[u] == s.places[u]; }
    }
  }

  lemma PendingGone(s: State, t: nat)
    requires t in s.places && s.places[t].Added? && DistinctWork(s)
    ensures s.places[t].work in Pending(s)
    ensures Pending(Moved(s, t, Started)) == Pending(s) - {s.places[t].work} && DistinctWork(Moved(s, t, Started))
  {
    var s' := Moved(s, t, Started);
    forall w ensures w in Pending(s') <==> w in Pending(s) - {s.places[t].work} {
      if u :| u in s.places && u != t && s.places[u].Added? && s.places[u].work == w { assert s'.places[u] == s.places[u]; }
      if u :| u in s'.places && s'.places[u].Added? && s'.places[u].work == w { assert s'.places[u] == s.places[u]; }
    }
  }

  lemma MoveCounts(s: State, s': State)
    requires Counts(s) && s'.history == s.history && s'.counter == s.counter && s'.running == s.running
    requires Pending(s') == Pending(s) && (DistinctWork(s) ==> DistinctWork(s'))
    requires s'.waiter.Finished? ==> s'.counter == 0
    ensures Counts(s')
  {
    hide Pending;
  }

  lemma AddCounts(s: State, t: nat, work: nat)
    requires Flags(s) && Gates(s) && Counts(s) && Enabled(s, Add(t, work))
    ensures Counts(Apply(s, Add(t, work)))
  {
    hide Pending;
    PendingAdded(s, t, work);
    assert Pending(Apply(s, Add(t, work))) == Pending(Moved(s, t, Added(work))) by { SamePending(Apply(s, Add(t, work)), Moved(s, t, Added(work))); }
  }

  lemma SamePending(s: State, s': State)
    requires s.places == s'.places
    ensures Pending(s) == Pending(s')
  {}

  lemma GoCounts(s: State, t: nat)
    requires Flags(s) && Gates(s) && Counts(s) && Enabled(s, Go(t))
    ensures Counts(Apply(s, Go(t)))
  {
    hide Pending;
    PendingGone(s, t);
    SamePending(Apply(s, Go(t)), Moved(s, t, Started));
  }

  lemma DoneCounts(s: State, work: nat)
    requires Counts(s) && Enabled(s, Done(work))
    ensures Counts(Apply(s, Done(work)))
  {
    hide Pending;
    SamePending(Apply(s, Done(work)), s);
  }

  lemma LogCounts(s: State, s': State)
    requires Counts(s) && s'.places == s.places && s'.counter == s.counter && s'.running == s.running
    requires s.history <= s'.history && (s'.waiter.Finished? ==> s'.counter == 0)
    ensures Counts(s')
  {
    hide Pending;
    SamePending(s, s');
    assert forall w | CountedWork(w) in s.history :: CountedWork(w) in s'.history;
  }

  lemma KeepsCounts(s: State, step: Step)
    requires Flags(s) && Gates(s) && Counts(s) && Enabled(s, step)
    ensures Counts(Apply(s, step))
  {
    hide Counts, Pending, Gates;
    WaitOverMeansZero(s);
    var s' := Apply(s, step);
    match step
    case Add(t, work) => AddCounts(s, t, work);
    case Go(t) => GoCounts(s, t);
    case Done(work) => DoneCounts(s, work);
    case Leave(t) =>
      PendingLeft(s, t);
      MoveCounts(s, s');
    case Enter(t) =>
      PendingMoved(s, t, s'.places[t]);
      MoveCounts(s, s');
    case Check(t) =>
      PendingMoved(s, t, s'.places[t]);
      MoveCounts(s, s');
    case EnterStore(t) =>
      PendingMoved(s, t, s'.places[t]);
      MoveCounts(s, s');
    case CheckStore(t) =>
      PendingMoved(s, t, s'.places[t]);
      MoveCounts(s, s');
    case _ => LogCounts(s, s');
  }

  lemma WaitOverMeansZero(s: State)
    requires Counts(s)
    ensures s.waiter.Finished? ==> s.counter == 0
  {}

  lemma {:induction false} Reachable(states: seq<State>, steps: seq<Step>, i: nat)
    requires Run(states, steps) && i < |states|
    ensures Inv(states[i])
  {
    hide Flags, Gates, Counts, Ordered, Recorded;
    if i == 0 {
      StartInv();
    } else {
      Reachable(states, steps, i - 1);
      var s, step := states[i - 1], steps[i - 1];
      KeepsFlags(s, step);
      KeepsGates(s, step);
      KeepsCounts(s, step);
      KeepsOrdered(s, step);
      KeepsRecorded(s, step);
    }
  }

  lemma StartInv()
    ensures Inv(START)
  {}

  // ----- the protocol's promises, in every interleaving -----

  /** No background work starts, and none is counted, once closing is set. */
  lemma NoStartAfterClosing(states: seq<State>, steps: seq<Step>, i: nat, a: nat, b: nat)
    requires Run(states, steps) && i < |states|
    requires var h := states[i].history; a < |h| && b < |h| && h[a] == SetClosing && (h[b].StartedWork? || h[b].CountedWork?)
    ensures b < a
  {
    Reachable(states, steps, i);
    var h := states[i].history;
    assert Before(h, CountedWork(h[b].work), SetClosing) && Before(h, StartedWork(h[b].work), SetClosing);
  }

  /** The wait group is never added to once the wait has begun. */
  lemma NoAddAfterWait(states: seq<State>, steps: seq<Step>, i: nat, a: nat, b: nat)
    requires Run(states, steps) && i < |states|
    requires var h := states[i].history; a < |h| && b < |h| && h[a] == BeganWait && h[b].CountedWork?
    ensures b < a
  {
    Reachable(states, steps, i);
    assert Before(states[i].history, CountedWork(states[i].history[b].work), BeganWait);
  }

  /** No guarded write runs after `Shutdown` has returned, even for work that outlived the wait. */
  lemma NoWriteAfterReturn(states: seq<State>, steps: seq<Step>, i: nat, a: nat, b: nat)
    requires Run(states, steps) && i < |states|
    requires var h := states[i].history; a < |h| && b < |h| && h[a] == ShutdownReturned && h[b].Wrote?
    ensures b < a
  {
    Reachable(states, steps, i);
    assert Before(states[i].history, Wrote(states[i].history[b].thread), ShutdownReturned);
  }

  /** From the moment gone is set, no thread is inside a guarded write and none can enter one. */
  lemma NoWriterOnceGone(states: seq<State>, steps: seq<Step>, i: nat, t: nat)
    requires Run(states, steps) && i < |states| && states[i].gone
    ensures !At(states[i], t, Writing) && !Enabled(states[i], Write(t))
  {
    Reachable(states, steps, i);
  }

  /** When the wait ends by itself, all the work ever counted has run and ended. */
  lemma WaitMeansDone(states: seq<State>, steps: seq<Step>, i: nat)
    requires Run(states, steps) && i < |states| && states[i].waiter.Finished?
    ensures states[i].running == {} && forall t | t in states[i].places :: !states[i].places[t].Added?
  {
    Reachable(states, steps, i);
    var s := states[i];
    assert |Pending(s)| == 0 && |s.running| == 0;
    assert forall t | t in s.places && s.places[t].Added? :: s.places[t].work in Pending(s);
  }

  /** A step of `Shutdown` itself. */
  predicate OfShutdown(step: Step) {
    step in {SetsClosing, UnlockClosing, Cancel, SpawnWaiter, SelectTimeout, LockGone, SetsGone, Return}
  }

  /** A step with which a thread moves on towards letting go of the lock. */
  predicate MovesOn(step: Step, t: nat) { step == Check(t) || step == CheckStore(t) || step == Leave(t) }

  /**
   Shutdown never waits for background work: once it holds or has held the lock, its own next step
   is open, or it wants the lock and every thread that holds it can move on without any work ending.
   */
  lemma NeverStuck(states: seq<State>, steps: seq<Step>, i: nat)
    requires Run(states, steps) && i < |states| && !states[i].phase.NotCalled? && !states[i].phase.Returned?
    ensures var s := states[i];
            || (exists step :: OfShutdown(step) && Enabled(s, step))
            || (s.phase.Proceeding? && s.places != map[] && forall t | t in s.places :: exists step :: MovesOn(step, t) && Enabled(s, step))
  {
    Reachable(states, steps, i);
    var s := states[i];
    match s.phase
    case Closing => assert Enabled(s, SetsClosing);
    case ClosingSet => assert Enabled(s, UnlockClosing);
    case Closed => assert Enabled(s, Cancel);
    case Cancelled => assert Enabled(s, SpawnWaiter);
    case Selecting => assert Enabled(s, SelectTimeout);
    case Letting => assert Enabled(s, SetsGone);
    case GoneSet => assert Enabled(s, Return);
    case Proceeding =>
      if s.places == map[] {
        assert Enabled(s, LockGone);
      } else {
        forall t | t in s.places ensures exists step :: MovesOn(step, t) && Enabled(s, step) {
          HolderMoves(s, t);
        }
      }
    case _ =>
  }

  /** Once closing is set a thread inside the lock checks, or leaves. */
  lemma HolderMoves(s: State, t: nat)
    requires Gates(s) && s.closing && t in s.places
    ensures exists step :: MovesOn(step, t) && Enabled(s, step)
  {
    assert MovesOn(Check(t), t) && MovesOn(CheckStore(t), t) && MovesOn(Leave(t), t);
    if s.places[t].Entered? {
      assert Enabled(s, Check(t));
    } else if s.places[t].StoreEntered? {
      assert Enabled(s, CheckStore(t));
    } else {
      assert Enabled(s, Leave(t));
    }
  }
}
