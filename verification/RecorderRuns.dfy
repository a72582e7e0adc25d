/**
 What any run of recording, folding and pruning keeps (internal/core/samples.go,
 internal/core/retention.go), with the operations as steps on values. `Recorder.Recorder` is the
 same state as an object; its methods promise these steps.
 */
module RecorderRuns {
  import opened Sorting
  import opened Model
  import opened Series
  import opened Folding
  import opened FoldingLoops
  import opened Evidence
  import opened Recorder

  datatype State = State(samples: seq<Reading>, rows: seq<Bucket>, minuteMark: int, hourMark: int,
                         history: seq<Reading>, foldedAt: map<Key, int>)

  const START := State([], [], 0, 0, [], map[])

  datatype Step = Recorded(r: Reading) | Folded(before: int) | Pruned(before: int, now: int, retentionDays: int)

  ghost predicate Holds(s: State) { Inv(s.samples, s.rows, s.minuteMark, s.hourMark, s.history, s.foldedAt) }

  ghost predicate FoldStep(s: State, s': State, before: int)
    requires forall r | r in s.rows :: Counted(r)
  {
    && RowsAfter(s.rows, s'.rows, s.samples, s.minuteMark, MinuteOfTime(before), s.hourMark, HourOf(before))
    && s'.minuteMark == (if Due(MinuteFrom(s.samples, s.minuteMark), MinuteOfTime(before)) then MinuteOfTime(before) else s.minuteMark)
    && s'.hourMark == (if Due(HourFrom(s.rows, s.hourMark), HourOf(before)) then HourOf(before) else s.hourMark)
    && s'.foldedAt == Stamped(s.foldedAt, s'.rows[|s.rows|..], s.minuteMark)
    && s'.samples == s.samples && s'.history == s.history
  }

  /** Any reading may arrive, with an identifier of its own; one below the watermark is not part of the history. */
  ghost predicate Next(s: State, step: Step, s': State) {
    match step
    case Recorded(r) =>
      && r.startedAt >= 0 && (forall o | o in s.history || o in s.samples :: o.id != r.id)
      && s' == s.(samples := s.samples + [r], history := if r.startedAt >= s.minuteMark then s.history + [r] else s.history)
    case Folded(before) => (forall r | r in s.rows :: Counted(r)) && FoldStep(s, s', before)
    case Pruned(before, now, days) =>
      var removed := Prunable(s.samples, PruneCutoff(before, now, days, s.minuteMark));
      s' == s.(samples := FilterReadings(s.samples, (r: Reading) => r !in removed))
  }

  ghost predicate Run(states: seq<State>, steps: seq<Step>) {
    && |states| == |steps| + 1 && states[0] == START
    && forall i | 0 <= i < |steps| :: Next(states[i], steps[i], states[i + 1])
  }

  /** What only grows. */
  predicate Grows(s: State, s': State) {
    s.rows <= s'.rows && s.history <= s'.history && s.minuteMark <= s'.minuteMark && s.hourMark <= s'.hourMark
  }

  lemma RecordKeeps(s: State, r: Reading, s': State)
    requires Holds(s) && Next(s, Recorded(r), s')
    ensures Holds(s') && Grows(s, s')
  {
    hide UniqueKeys, SumsVisible, Summarises;
    if r.startedAt >= s.minuteMark { LaterReading(s.history, r, s.rows, s.minuteMark); }
  }

  lemma FoldStepKeeps(s: State, before: int, s': State)
    requires Holds(s) && Next(s, Folded(before), s')
    ensures Holds(s') && Grows(s, s')
  {
    hide Inv, MinuteOfTime, HourOf, Due, MinuteFrom, HourFrom;
    FoldKeeps(s.samples, s.rows, s.minuteMark, s.hourMark, s.history, s.foldedAt, before,
              s'.rows, s'.minuteMark, s'.hourMark, s'.foldedAt);
  }

  lemma PruneKeeps(s: State, before: int, now: int, days: int, s': State)
    requires Holds(s) && Next(s, Pruned(before, now, days), s')
    ensures Holds(s') && Grows(s, s')
  {
    hide UniqueKeys, SumsVisible, Summarises, MinutesKept, HoursKept, Distinct, Prunable, FilterReadings;
    var removed := Prunable(s.samples, PruneCutoff(before, now, days, s.minuteMark));
    PrunableMembers(s.samples, PruneCutoff(before, now, days, s.minuteMark));
    FilterMembers(s.samples, (r: Reading) => r !in removed);
  }

  lemma StepKeeps(s: State, step: Step, s': State)
    requires Holds(s) && Next(s, step, s')
    ensures Holds(s') && Grows(s, s')
  {
    hide Holds, Next, Grows;
    match step
    case Recorded(r) => RecordKeeps(s, r, s');
    case Folded(before) => FoldStepKeeps(s, before, s');
    case Pruned(before, now, days) => PruneKeeps(s, before, now, days, s');
  }

  lemma {:induction false} Reachable(states: seq<State>, steps: seq<Step>, i: nat)
    requires Run(states, steps) && i < |states|
    ensures Holds(states[i])
  {
    hide Next, Inv;
    if i == 0 {
      StartHolds();
    } else {
      Reachable(states, steps, i - 1);
      StepKeeps(states[i - 1], steps[i - 1], states[i]);
    }
  }

  lemma StartHolds()
    ensures Holds(START)
  {}

  /** Watermarks only grow, and a row once written is never changed or removed. */
  lemma {:induction false} NothingTakenBack(states: seq<State>, steps: seq<Step>, i: nat, j: nat)
    requires Run(states, steps) && i <= j < |states|
    ensures Grows(states[i], states[j])
    decreases j - i
  {
    hide Next, Holds;
    if i < j {
      Reachable(states, steps, i);
      StepKeeps(states[i], steps[i], states[i + 1]);
      NothingTakenBack(states, steps, i + 1, j);
    }
  }

  /** The history is exactly the readings that arrived in time. */
  lemma {:induction false} HistoryExactly(states: seq<State>, steps: seq<Step>, i: nat, r: Reading)
    requires Run(states, steps) && i < |states|
    ensures r in states[i].history <==> exists k :: 0 <= k < i && steps[k] == Recorded(r) && r.startedAt >= states[k].minuteMark
  {
    if i > 0 {
      HistoryExactly(states, steps, i - 1, r);
      assert Next(states[i - 1], steps[i - 1], states[i]);
    }
  }

  /** A minute row of the reading's monitor and minute. */
  predicate RowFor(b: Bucket, r: Reading) { IsMinute(b) && b.monitor == r.monitor && b.start == MinuteOfTime(r.startedAt) }

  /**
   Every reading of the service that arrived in time and lies below the watermark is counted in
   exactly one minute row, and that row counts exactly the readings of its minute that arrived in time.
   */
  lemma CountedInOneRow(states: seq<State>, steps: seq<Step>, i: nat, r: Reading)
    requires Run(states, steps) && i < |states|
    requires r in states[i].history && !r.manual && r.startedAt < states[i].minuteMark
    ensures exists b :: b in states[i].rows && RowFor(b, r) && Summarises(b, KeySet(states[i].history, MinuteKey(r)))
                        && forall b' | b' in states[i].rows && RowFor(b', r) :: b' == b
    ensures r in KeySet(states[i].history, MinuteKey(r))
  {
    hide Run, Summarises, UniqueKeys, MinuteOfTime;
    Reachable(states, steps, i);
    var s := states[i];
    assert HasMinuteRow(s.rows, MinuteKey(r));
    var b :| b in s.rows && IsMinute(b) && b.monitor == MinuteKey(r).0 && b.start == MinuteKey(r).1;
    assert RowFor(b, r) && (b.monitor, b.start) == MinuteKey(r);
    forall b' | b' in s.rows && RowFor(b', r) ensures b' == b { SameRow(s.rows, b, b'); }
  }

  lemma SameRow(rows: seq<Bucket>, a: Bucket, b: Bucket)
    requires UniqueKeys(rows) && a in rows && b in rows && a.monitor == b.monitor && a.width == b.width && a.start == b.start
    ensures a == b
  {
    var i :| 0 <= i < |rows| && rows[i] == a;
    var j :| 0 <= j < |rows| && rows[j] == b;
  }

  /** No minute row counts a reading that only ever arrived below the watermark. */
  lemma LateIsNeverCounted(states: seq<State>, steps: seq<Step>, i: nat, r: Reading, b: Bucket)
    requires Run(states, steps) && i < |states| && b in states[i].rows && IsMinute(b)
    requires forall k | 0 <= k < i && steps[k] == Recorded(r) :: r.startedAt < states[k].minuteMark
    ensures Summarises(b, KeySet(states[i].history, (b.monitor, b.start))) && r !in KeySet(states[i].history, (b.monitor, b.start))
  {
    hide Run, Summarises, HoursKept, RowsKept, ReadingsKept;
    Reachable(states, steps, i);
    HistoryExactly(states, steps, i, r);
  }

  /** Pruning loses nothing: a reading that is gone was below the watermark, so it is counted. */
  lemma PrunedIsCounted(states: seq<State>, steps: seq<Step>, i: nat, r: Reading)
    requires Run(states, steps) && i < |states|
    requires r in states[i].history && r !in states[i].samples
    ensures r.startedAt < states[i].minuteMark
    ensures !r.manual ==> exists b :: b in states[i].rows && RowFor(b, r)
  {
    hide Run, MinutesKept, HoursKept, RowsKept, Summarises;
    Reachable(states, steps, i);
    if !r.manual { CountedInOneRow(states, steps, i, r); }
  }

  /** A minute row counts the reading, with the others of its minute. */
  ghost predicate CountedIn(s: State, r: Reading) {
    r in KeySet(s.history, MinuteKey(r))
    && exists b :: b in s.rows && RowFor(b, r) && Summarises(b, KeySet(s.history, MinuteKey(r)))
  }

  /** A reading of the service that was recorded and is gone is counted if and only if it once arrived in time. */
  lemma PrunedCountedExactly(states: seq<State>, steps: seq<Step>, i: nat, r: Reading)
    requires Run(states, steps) && i < |states| && !r.manual
    requires r !in states[i].samples && exists k :: 0 <= k < i && steps[k] == Recorded(r)
    ensures CountedIn(states[i], r) <==> exists k :: 0 <= k < i && steps[k] == Recorded(r) && r.startedAt >= states[k].minuteMark
  {
    hide Run, Summarises, MinuteKey, RowFor;
    HistoryExactly(states, steps, i, r);
    if r in states[i].history {
      PrunedIsCounted(states, steps, i, r);
      CountedInOneRow(states, steps, i, r);
    }
  }

  /** An hour row is, for good, the sum of the minute rows committed before the fold that wrote it. */
  lemma HourRowIsFinal(states: seq<State>, steps: seq<Step>, i: nat, j: nat, h: Bucket)
    requires Run(states, steps) && i <= j < |states| && h in states[i].rows && IsHour(h)
    ensures h in states[j].rows && (h.monitor, h.start) in states[j].foldedAt
    ensures SumsVisible(states[j].rows, h, states[j].foldedAt[(h.monitor, h.start)])
  {
    hide Run, MinutesKept, RowsKept, SumsVisible;
    NothingTakenBack(states, steps, i, j);
    Reachable(states, steps, j);
  }
}
