/**
 What a report loses of what the service stores: the selection of internal/core/reports.go over the
 rows that runs of recording, folding and pruning (internal/core/samples.go) leave behind.

 An hour is folded from the minute rows committed before the call, so it is complete exactly when
 no reading of that hour was still waiting. Over a whole run, every hour is complete if and only if
 no hour fold was due while a reading from before the hour's end was waiting; then a report under
 rollup `any` has every down second. A run of four steps shows what happens otherwise, and another
 one removes a reading that came too late to be counted.
 */
module EvidenceRuns {
  import opened Sorting
  import opened Intervals
  import opened Model
  import opened Series
  import opened Folding
  import opened FoldingLoops
  import opened Evidence
  import opened EvidenceMeaning
  import opened Recorder
  import opened RecorderRuns

  // ----- complete hours, over any run -----

  /** An hour row of the minute row's monitor and hour. */
  ghost predicate HasHourRow(rows: seq<Bucket>, b: Bucket) {
    exists h :: h in rows && IsHour(h) && h.monitor == b.monitor && h.start == HourOf(b.start)
  }

  /** Every hour row sums all the minute rows of its hour, and every minute row below the hour watermark has its hour row. */
  ghost predicate AllComplete(s: State) {
    && (forall h | h in s.rows && IsHour(h) :: SumsAll(s.rows, h))
    && (forall b | b in s.rows && IsMinute(b) && b.start < s.hourMark :: HasHourRow(s.rows, b))
  }

  /** When an hour fold is due, no reading from before its end is still waiting to be folded into a minute. */
  ghost predicate CaughtUp(s: State, before: int) {
    Due(HourFrom(s.rows, s.hourMark), HourOf(before)) ==>
      forall r | r in s.samples && !r.manual && s.minuteMark <= r.startedAt :: HourOf(before) <= r.startedAt
  }

  ghost predicate StepCaughtUp(s: State, step: Step) { step.Folded? ==> CaughtUp(s, step.before) }

  /** The rows of a fold split into those there were and the minutes and hours it writes. */
  lemma FoldWrites(s: State, before: int, s': State, b: Bucket)
    requires Holds(s) && Next(s, Folded(before), s') && b in s'.rows && b !in s.rows
    ensures IsMinute(b) ==> Due(MinuteFrom(s.samples, s.minuteMark), MinuteOfTime(before)) && s.minuteMark <= b.start
    ensures IsHour(b) ==> Due(HourFrom(s.rows, s.hourMark), HourOf(before))
                          && s.hourMark <= b.start && b.start + WIDTH_HOUR <= HourOf(before)
                          && b in s'.rows[|s.rows|..] && HourWritten(s.rows, s.hourMark, HourOf(before), b)
  {
    hide MinuteWritten, HourWritten, Summarises, UniqueKeys, SumsVisible, Distinct, HourOf, MinuteOfTime, MinuteFrom, HourFrom;
    FoldMarks(s.samples, s.rows, s.minuteMark, s.hourMark, s.history, s.foldedAt, before);
    assert s'.rows == s.rows + s'.rows[|s.rows|..];
    if IsMinute(b) {
      WrittenMinute(s.samples, s.rows, s.minuteMark, s.hourMark, s.history, MinuteOfTime(before), HourOf(before), b);
    }
    if IsHour(b) {
      WrittenHour(s.samples, s.rows, s.minuteMark, s.hourMark, s.history, MinuteOfTime(before), HourOf(before), b);
      if MinuteWritten(s.samples, s.minuteMark, MinuteOfTime(before), b) {
        NewMinute(s.samples, s.minuteMark, s.history, MinuteOfTime(before), b);
      }
    }
  }

  /** An hour below the hour watermark is settled: later minutes do not touch it. */
  lemma Settled(s: State, s': State, h: Bucket)
    requires Holds(s) && h in s.rows && IsHour(h) && s.rows <= s'.rows
    requires forall b | b in s'.rows && IsMinute(b) && b !in s.rows :: s.minuteMark <= b.start
    ensures SumsAll(s'.rows, h) <==> SumsAll(s.rows, h)
  {
    hide FoldOf, UniqueKeys, MinutesKept, Summarises;
    forall b ensures OfHour(s.rows, h, b) <==> OfHour(s'.rows, h, b) {}
    if SumsAll(s.rows, h) { SameSums(s.rows, s'.rows, h); }
    if SumsAll(s'.rows, h) { SameSums(s'.rows, s.rows, h); }
  }

  predicate OfHour(rows: seq<Bucket>, h: Bucket, b: Bucket) {
    b in rows && IsMinute(b) && HourKey(b) == (h.monitor, h.start) && b.start < h.start + WIDTH_HOUR
  }

  lemma SameSums(rows: seq<Bucket>, rows': seq<Bucket>, h: Bucket)
    requires forall b :: OfHour(rows, h, b) <==> OfHour(rows', h, b)
    requires SumsAll(rows, h)
    ensures SumsAll(rows', h)
  {
    hide FoldOf, UniqueKeys;
    var ms: seq<Bucket> :| FoldOf(h, ms) && UniqueKeys(ms)
      && forall b :: b in ms <==> b in rows && IsMinute(b) && HourKey(b) == (h.monitor, h.start) && b.start < h.start + WIDTH_HOUR;
    forall b ensures b in ms <==> b in rows' && IsMinute(b) && HourKey(b) == (h.monitor, h.start) && b.start < h.start + WIDTH_HOUR {
      assert OfHour(rows, h, b) <==> OfHour(rows', h, b);
    }
  }

  /** An hour row this fold writes sums all its minutes exactly when nothing of its hour was waiting. */
  lemma WrittenComplete(s: State, before: int, s': State, h: Bucket)
    requires Holds(s) && Next(s, Folded(before), s') && h in s'.rows && h !in s.rows && IsHour(h)
    ensures SumsAll(s'.rows, h)
            <==> forall r | r in s.samples && !r.manual && r.monitor == h.monitor && HourOf(r.startedAt) == h.start :: r.startedAt < s.minuteMark
  {
    hide Inv, RowsAfter, SumsAll, HourOf, MinuteOfTime, MinuteFrom, HourFrom;
    FoldWrites(s, before, s', h);
    HourCompleteExactly(s.samples, s.rows, s.minuteMark, s.hourMark, s.history, s.foldedAt, before, s'.rows, h);
  }

  /** A due hour fold writes the hour of every minute row committed below its end. */
  lemma HourOfCommitted(s: State, before: int, s': State, b: Bucket)
    requires Holds(s) && Next(s, Folded(before), s') && Due(HourFrom(s.rows, s.hourMark), HourOf(before))
    requires b in s.rows && IsMinute(b) && s.hourMark <= b.start < HourOf(before)
    ensures HasHourRow(s'.rows, b)
  {
    hide UniqueKeys, Summarises, SumsVisible, Distinct, Stored, MinutesKept, HoursKept, ReadingsKept, HourOf, MinuteOfTime, MinuteFrom,
         MinuteWritten, Query, OldestRow, HourGroup, TallyBuckets;
    var lo := HourFrom(s.rows, s.hourMark).value;
    FirstHour(s, before, b);
    var bs := MinuteRows(s.rows, lo, HourOf(before));
    MinuteRowsMembers(s.rows, lo, HourOf(before));
    HourGroupMembers(bs, HourKey(b));
    assert b in HourGroup(bs, HourKey(b));
    var h := HourRow(bs, HourKey(b));
    assert HourWritten(s.rows, s.hourMark, HourOf(before), h);
    assert h in s'.rows[|s.rows|..];
    assert s'.rows == s.rows + s'.rows[|s.rows|..];
    assert h in s'.rows;
  }

  lemma FirstHour(s: State, before: int, b: Bucket)
    requires Holds(s) && Due(HourFrom(s.rows, s.hourMark), HourOf(before))
    requires b in s.rows && IsMinute(b) && s.hourMark <= b.start
    ensures HourFrom(s.rows, s.hourMark).value <= b.start
  {
    hide UniqueKeys, Summarises, SumsVisible, Distinct, HourOf;
    HourBounds(s.rows, s.minuteMark, s.hourMark, s.history, HourOf(before));
  }

  lemma CaughtUpCompletes(s: State, before: int, s': State)
    requires Holds(s) && Next(s, Folded(before), s') && AllComplete(s) && CaughtUp(s, before)
    ensures AllComplete(s')
  {
    hide Inv, RowsAfter, SumsAll, MinuteFrom, HourFrom, HasHourRow, HourOf, MinuteOfTime;
    FoldStepKeeps(s, before, s');
    forall b | b in s'.rows && IsMinute(b) && b !in s.rows ensures s.minuteMark <= b.start { FoldWrites(s, before, s', b); }
    forall h | h in s'.rows && IsHour(h) ensures SumsAll(s'.rows, h) {
      if h in s.rows {
        Settled(s, s', h);
      } else {
        FoldWrites(s, before, s', h);
        NothingLeft(s, before, h);
        WrittenComplete(s, before, s', h);
      }
    }
    forall b | b in s'.rows && IsMinute(b) && b.start < s'.hourMark ensures HasHourRow(s'.rows, b) {
      MinuteHasHour(s, before, s', b);
    }
  }

  lemma NothingLeft(s: State, before: int, h: Bucket)
    requires Holds(s) && CaughtUp(s, before) && Due(HourFrom(s.rows, s.hourMark), HourOf(before))
    requires h.start + WIDTH_HOUR <= HourOf(before)
    ensures forall r | r in s.samples && !r.manual && r.monitor == h.monitor && HourOf(r.startedAt) == h.start :: r.startedAt < s.minuteMark
  {
    hide UniqueKeys, Summarises, SumsVisible, Distinct, MinutesKept, HoursKept, HourFrom;
    forall r | r in s.samples && !r.manual && r.monitor == h.monitor && HourOf(r.startedAt) == h.start ensures r.startedAt < s.minuteMark {
      assert r.startedAt >= 0;
      SameHour(r.startedAt, r.startedAt);
    }
  }

  lemma MinuteHasHour(s: State, before: int, s': State, b: Bucket)
    requires Holds(s) && Next(s, Folded(before), s') && AllComplete(s) && CaughtUp(s, before)
    requires b in s'.rows && IsMinute(b) && b.start < s'.hourMark
    ensures HasHourRow(s'.rows, b)
  {
    hide UniqueKeys, Summarises, SumsVisible, Distinct, SumsAll, MinuteFrom, HourFrom, HourOf, MinuteOfTime, MinuteWritten, HourWritten;
    if b in s.rows && b.start < s.hourMark {
      var h :| h in s.rows && IsHour(h) && h.monitor == b.monitor && h.start == HourOf(b.start);
      assert h in s'.rows;
    } else if b in s.rows {
      HourOfCommitted(s, before, s', b);
    } else {
      FoldWrites(s, before, s', b);
      MarkAbove(s);
      WrittenLate(s, before, s', b);
    }
  }

  lemma MarkAbove(s: State)
    requires Holds(s)
    ensures 0 <= s.hourMark <= s.minuteMark
  {}

  /** A minute row written by a fold comes from a waiting reading of its hour. */
  lemma WrittenLate(s: State, before: int, s': State, b: Bucket)
    requires Holds(s) && Next(s, Folded(before), s') && CaughtUp(s, before)
    requires b in s'.rows && b !in s.rows && IsMinute(b)
    ensures s'.hourMark <= b.start
  {
    hide UniqueKeys, Summarises, SumsVisible, Distinct, MinuteFrom, HourFrom, MinuteOfTime, MinuteWritten, HourWritten, HourOf;
    FoldWrites(s, before, s', b);
    MarkAbove(s);
    if Due(HourFrom(s.rows, s.hourMark), HourOf(before)) {
      MinuteOrigin(s.samples, s.rows, s.minuteMark, s.hourMark, s.history, s.foldedAt, before, s'.rows, b);
      var r :| r in s.samples && !r.manual && r.monitor == b.monitor && HourOf(r.startedAt) == HourOf(b.start) && s.minuteMark <= r.startedAt;
      HourGrid(before);
      SameHourSide(HourOf(before), r.startedAt, b.start);
    }
  }

  lemma SameHourSide(end: int, t: int, u: int)
    requires end % WIDTH_HOUR == 0 && t >= 0 && u >= 0 && HourOf(t) == HourOf(u) && end <= t
    ensures end <= u
  {
    OnGridBelow(end, t);
  }

  lemma OnGridBelow(end: int, t: int)
    requires end % WIDTH_HOUR == 0 && end <= t && t >= 0
    ensures end <= HourOf(t)
  {
    assert HourOf(t) == WIDTH_HOUR * (t / WIDTH_HOUR);
    assert end == WIDTH_HOUR * (end / WIDTH_HOUR);
  }

  /** A fold that leaves everything complete found everything complete and nothing waiting. */
  lemma CompleteWasCaughtUp(s: State, before: int, s': State)
    requires Holds(s) && Next(s, Folded(before), s') && AllComplete(s')
    ensures AllComplete(s) && CaughtUp(s, before)
  {
    hide Inv, RowsAfter, SumsAll, MinuteFrom, HourFrom, HasHourRow, HourOf, MinuteOfTime;
    FoldStepKeeps(s, before, s');
    forall b | b in s'.rows && IsMinute(b) && b !in s.rows ensures s.minuteMark <= b.start { FoldWrites(s, before, s', b); }
    forall h | h in s.rows && IsHour(h) ensures SumsAll(s.rows, h) {
      assert h in s'.rows;
      Settled(s, s', h);
    }
    forall b | b in s.rows && IsMinute(b) && b.start < s.hourMark ensures HasHourRow(s.rows, b) {
      HadHour(s, before, s', b);
    }
    if Due(HourFrom(s.rows, s.hourMark), HourOf(before)) {
      forall r | r in s.samples && !r.manual && s.minuteMark <= r.startedAt ensures HourOf(before) <= r.startedAt {
        if r.startedAt < HourOf(before) { WaitingShows(s, before, s', r); }
      }
    }
  }

  lemma HadHour(s: State, before: int, s': State, b: Bucket)
    requires Holds(s) && Next(s, Folded(before), s') && AllComplete(s')
    requires b in s.rows && IsMinute(b) && b.start < s.hourMark
    ensures HasHourRow(s.rows, b)
  {
    hide UniqueKeys, Summarises, SumsVisible, Distinct, SumsAll, MinuteFrom, HourFrom, MinuteOfTime, MinuteWritten, HourWritten, HourOf;
    FoldStepKeeps(s, before, s');
    assert b in s'.rows;
    var h :| h in s'.rows && IsHour(h) && h.monitor == b.monitor && h.start == HourOf(b.start);
    if h !in s.rows {
      FoldWrites(s, before, s', h);
      RowAtLeast(s, b);
      HourGrows(b.start, b.start);
    }
    assert h in s.rows;
  }

  lemma RowAtLeast(s: State, b: Bucket)
    requires Holds(s) && b in s.rows && IsMinute(b)
    ensures b.start >= 0
  {
    hide UniqueKeys, Summarises, SumsVisible, Distinct, HoursKept, ReadingsKept;
  }

  /** A reading waiting below the end of a due hour fold leaves an hour row missing or incomplete. */
  lemma WaitingShows(s: State, before: int, s': State, r: Reading)
    requires Holds(s) && Next(s, Folded(before), s') && Due(HourFrom(s.rows, s.hourMark), HourOf(before))
    requires r in s.samples && !r.manual && s.minuteMark <= r.startedAt < HourOf(before)
    ensures !AllComplete(s')
  {
    hide UniqueKeys, Summarises, SumsVisible, Distinct, SumsAll, MinuteFrom, HourFrom, MinuteOfTime, MinuteWritten, HourWritten, HourOf, HoursKept;
    MinuteOfWaiting(s, before, s', r);
    var b :| b in s'.rows && IsMinute(b) && (b.monitor, b.start) == MinuteKey(r);
    if HasHourRow(s'.rows, b) {
      var h :| h in s'.rows && IsHour(h) && h.monitor == b.monitor && h.start == HourOf(b.start);
      assert h !in s.rows by { if h in s.rows { OldHour(s, h, r.startedAt); } }
      WrittenComplete(s, before, s', h);
    }
  }

  /** An hour row there is already lies below the minute watermark. */
  lemma OldHour(s: State, h: Bucket, t: int)
    requires Holds(s) && h in s.rows && IsHour(h) && t >= 0 && h.start == HourOf(t)
    ensures t < s.minuteMark
  {
    hide UniqueKeys, Summarises, SumsVisible, Distinct, MinutesKept, ReadingsKept;
    SameHour(t, t);
  }

  lemma MinuteOfWaiting(s: State, before: int, s': State, r: Reading)
    requires Holds(s) && Next(s, Folded(before), s') && Due(HourFrom(s.rows, s.hourMark), HourOf(before))
    requires r in s.samples && !r.manual && s.minuteMark <= r.startedAt < HourOf(before)
    ensures r.startedAt >= 0 && s'.hourMark == HourOf(before)
    ensures exists b :: b in s'.rows && IsMinute(b) && (b.monitor, b.start) == MinuteKey(r)
                        && HourOf(b.start) == HourOf(r.startedAt) && b.start <= r.startedAt
  {
    hide UniqueKeys, Summarises, SumsVisible, Distinct, MinuteFrom, HourFrom, HourWritten, MinuteWritten, HoursKept, HourOf, MinuteOfTime;
    assert r.startedAt >= 0;
    var end := MinuteOfTime(before);
    FoldMarks(s.samples, s.rows, s.minuteMark, s.hourMark, s.history, s.foldedAt, before);
    HourEnds(before, r.startedAt);
    DueNow(s.samples, s.minuteMark, s.history, end, r);
    MinutesComplete(s.samples, s.minuteMark, s.history, end, r);
    var b :| MinuteWritten(s.samples, s.minuteMark, end, b) && (b.monitor, b.start) == MinuteKey(r);
    NewMinute(s.samples, s.minuteMark, s.history, end, b);
    assert b in s'.rows[|s.rows|..] && s'.rows == s.rows + s'.rows[|s.rows|..];
    MinuteSameHour(r.startedAt);
  }

  lemma HourEnds(before: int, t: int)
    requires 0 <= t < HourOf(before)
    ensures t < MinuteOfTime(before)
  {
    Ends(before);
  }

  /** Recording and pruning write no row. */
  lemma OtherSteps(s: State, step: Step, s': State)
    requires Next(s, step, s') && !step.Folded?
    ensures AllComplete(s') <==> AllComplete(s)
  {
    hide SumsAll, HasHourRow, Prunable, FilterReadings;
    assert s'.rows == s.rows && s'.hourMark == s.hourMark;
  }

  /**
   Over every run: all hour rows are complete and none is missing if and only if every hour fold
   was due only when no reading from before its end was still waiting.
   */
  lemma {:induction false} HoursCompleteExactly(states: seq<State>, steps: seq<Step>, i: nat)
    requires Run(states, steps) && i < |states|
    ensures AllComplete(states[i]) <==> forall k | 0 <= k < i :: StepCaughtUp(states[k], steps[k])
  {
    hide Next, Holds, AllComplete, CaughtUp;
    if i == 0 {
      StartComplete();
    } else {
      HoursCompleteExactly(states, steps, i - 1);
      Reachable(states, steps, i - 1);
      var s, step, s' := states[i - 1], steps[i - 1], states[i];
      assert Next(s, step, s');
      match step {
        case Folded(before) =>
          if AllComplete(s) && CaughtUp(s, before) { CaughtUpCompletes(s, before, s'); }
          if AllComplete(s') { CompleteWasCaughtUp(s, before, s'); }
        case _ => OtherSteps(s, step, s');
      }
      assert AllComplete(s') <==> AllComplete(s) && StepCaughtUp(s, step);
    }
  }

  lemma StartComplete()
    ensures AllComplete(START)
  {}

  // ----- what a report has of them -----

  lemma SumsHold(s: State, h: Bucket)
    requires Holds(s) && h in s.rows && IsHour(h) && SumsAll(s.rows, h)
    ensures HourHolds(s.rows, h)
  {
    hide FoldOf, UniqueKeys, Summarises, HoursKept, ReadingsKept;
    var ms: seq<Bucket> :| FoldOf(h, ms) && UniqueKeys(ms)
      && forall b :: b in ms <==> b in s.rows && IsMinute(b) && HourKey(b) == (h.monitor, h.start) && b.start < h.start + WIDTH_HOUR;
    forall b | b in s.rows && InHour(b, h) ensures b in ms {
      assert b.start >= 0;
      OnGrid(b.start, h.start, WIDTH_HOUR);
    }
  }

  lemma CompleteIsPresent(s: State, from: int, to: int)
    requires Holds(s) && AllComplete(s) && 0 <= from < to && HourOf(to - 1) <= s.hourMark
    ensures HoursPresent(s.rows, from, to) && HoursHold(s.rows)
  {
    hide SumsAll, Summarises, UniqueKeys, HourHolds, HoursKept, ReadingsKept;
    forall h | h in s.rows && IsHour(h) ensures HourHolds(s.rows, h) { SumsHold(s, h); }
    forall b | b in s.rows && IsMinute(b) && HourOf(from) < HourOf(b.start) < HourOf(to - 1)
      ensures exists h :: h in s.rows && IsHour(h) && h.monitor == b.monitor && h.start == HourOf(b.start)
    {
      assert b.start >= 0;
      HourBelow(b.start, to - 1);
      assert HasHourRow(s.rows, b);
    }
  }

  lemma HourBelow(t: int, u: int)
    requires 0 <= t && 0 <= u && HourOf(t) < HourOf(u)
    ensures t < HourOf(u)
  {}

  /**
   A report over hours that are folded has every second its minutes show as down, under rollup
   `any`, after every run whose hour folds found nothing waiting.
   */
  lemma ReportHasEveryDownSecond(states: seq<State>, steps: seq<Step>, i: nat, from: int, to: int,
                                 out: seq<Bucket>, minutes: seq<Bucket>, c: string)
    requires Run(states, steps) && i < |states| && forall k | 0 <= k < i :: StepCaughtUp(states[k], steps[k])
    requires 0 <= from < to && HourOf(to - 1) <= states[i].hourMark
    requires Shipped(states[i].rows, from, to, out) && MinuteTable(states[i].rows, minutes)
    ensures forall t | from <= t < to && t in DownSet(ROLLUP_ANY, OfComponent(minutes, c)) ::
              t in DownSet(ROLLUP_ANY, OfComponent(out, c))
  {
    hide *;
    HoursCompleteExactly(states, steps, i);
    Reachable(states, steps, i);
    CompleteIsPresent(states[i], from, to);
    StoredRows(states[i]);
    NoDownLost(states[i].rows, from, to, out, minutes, c);
  }

  lemma StoredRows(s: State)
    requires Holds(s)
    ensures Stored(s.rows)
  {}

  // ----- a run that loses a down second -----

  const EARLY := Reading("1", "m", "c", 3600, Up, false, false)
  const LATE := Reading("2", "m", "c", 7140, Down, false, false)
  const EARLY_ROW := Bucket("m", "c", 3600, WIDTH_MINUTE, 1, 0, 0, 0, 0, 0, Up)
  const LATE_ROW := Bucket("m", "c", 7140, WIDTH_MINUTE, 0, 0, 1, 0, 0, 0, Down)
  const HOUR_ROW := Bucket("m", "c", 3600, WIDTH_HOUR, 1, 0, 0, 0, 0, 0, Up)

  /** A reading, its fold, a reading in the last minute of the hour, and a fold just after the hour. */
  const LOSSY_STEPS := [Recorded(EARLY), Folded(3660), Recorded(LATE), Folded(7200)]
  const LOSSY_STATES := [
    START,
    State([EARLY], [], 0, 0, [EARLY], map[]),
    State([EARLY], [EARLY_ROW], 3660, 0, [EARLY], map[]),
    State([EARLY, LATE], [EARLY_ROW], 3660, 0, [EARLY, LATE], map[]),
    State([EARLY, LATE], [EARLY_ROW, LATE_ROW, HOUR_ROW], 7200, 7200, [EARLY, LATE], map[("m", 3600) := 3660])]

  lemma OneReading(rs: seq<Reading>, r: Reading)
    requires Distinct(rs) && forall x :: x in rs <==> x == r
    ensures rs == [r]
  {
    assert r in rs;
    forall i | 0 <= i < |rs| ensures rs[i] == r { assert rs[i] in rs; }
    assert |rs| > 1 ==> rs[0].id != rs[1].id;
  }

  lemma OneRow(rows: seq<Bucket>, b: Bucket)
    requires UniqueKeys(rows) && forall x :: x in rows <==> x == b
    ensures rows == [b]
  {
    assert b in rows;
    forall i | 0 <= i < |rows| ensures rows[i] == b { assert rows[i] in rows; }
    var last := |rows| - 1;
    assert rows[0] == b && rows[last] == b;
  }

  /** A fold of one pending reading writes its minute and nothing else. */
  lemma OneMinute(samples: seq<Reading>, mark: int, lo: int, end: int, r: Reading, b: Bucket)
    requires Distinct(samples) && MinuteFrom(samples, mark) == Some(lo) && lo < end
    requires forall x :: x in samples && !x.manual && lo <= x.startedAt < end <==> x == r
    requires b == RowOf(r.monitor, r.component, MinuteOfTime(r.startedAt), WIDTH_MINUTE, WithReading(EMPTY, r))
    ensures forall x :: MinuteWritten(samples, mark, end, x) <==> x == b
  {
    hide Oldest, MinuteFrom, MinuteOfTime, Unfolded, Group, TallyReadings, Distinct;
    var pending := Unfolded(samples, lo, end);
    UnfoldedMembers(samples, lo, end);
    OneReading(pending, r);
    GroupOfOne(r);
    forall x ensures MinuteWritten(samples, mark, end, x) <==> x == b {
      assert Group(pending, MinuteKey(r)) == [r];
      assert MinuteRow(pending, MinuteKey(r)) == b;
    }
  }

  lemma GroupOfOne(r: Reading)
    ensures forall k :: Group([r], k) == if MinuteKey(r) == k then [r] else []
    ensures TallyReadings([r]) == WithReading(EMPTY, r)
  {
    assert [r][..0] == [];
    GroupAppend([], r);
    assert [] + [r] == [r];
  }

  /** An hour fold that sees one minute row writes its hour and nothing else. */
  lemma OneHour(rows: seq<Bucket>, mark: int, lo: int, end: int, m: Bucket, h: Bucket)
    requires UniqueKeys(rows) && AllCounted(rows) && HourFrom(rows, mark) == Some(lo) && lo < end && Counted(m)
    requires forall x :: x in rows && IsMinute(x) && lo <= x.start < end <==> x == m
    requires h == RowOf(m.monitor, m.component, HourOf(m.start), WIDTH_HOUR, WithBucket(EMPTY, m))
    ensures forall x :: HourWritten(rows, mark, end, x) <==> x == h
  {
    hide HourFrom, HourOf, MinuteRows, HourGroup, TallyBuckets, UniqueKeys;
    var bs := MinuteRows(rows, lo, end);
    MinuteRowsMembers(rows, lo, end);
    OneRow(bs, m);
    HourOfOne(m);
    forall x ensures HourWritten(rows, mark, end, x) <==> x == h {
      assert HourGroup(bs, HourKey(m)) == [m];
      assert HourRow(bs, HourKey(m)) == h;
    }
  }

  lemma HourOfOne(m: Bucket)
    requires Counted(m)
    ensures forall k :: HourGroup([m], k) == if HourKey(m) == k then [m] else []
    ensures TallyBuckets([m]) == WithBucket(EMPTY, m)
  {
    assert [m][..0] == [];
    HourGroupAppend([], m);
    assert [] + [m] == [m];
  }

  lemma FirstFold()
    ensures Next(LOSSY_STATES[1], Folded(3660), LOSSY_STATES[2])
  {
    hide Sort, FilterReadings, Group, TallyReadings, Query, UniqueKeys, MinuteWritten, HourWritten;
    assert MinuteFrom([EARLY], 0) == Some(3600);
    OneMinute([EARLY], 0, 3600, 3660, EARLY, EARLY_ROW);
    assert HourFrom([], 0) == None;
    NoHour();
    UniqueOne(EARLY_ROW);
    assert LOSSY_STATES[2].rows[0..] == [EARLY_ROW];
    NoStamp(EARLY_ROW);
  }

  lemma NoHour()
    ensures forall x :: !HourWritten([], 0, 3600, x)
  {}

  lemma UniqueOne(b: Bucket)
    ensures UniqueKeys([b])
  {}

  lemma NoStamp(b: Bucket)
    requires !IsHour(b)
    ensures Stamped(map[], [b], 0) == map[]
  {
    assert [b][..0] == [];
  }

  lemma SecondFold()
    ensures Next(LOSSY_STATES[3], Folded(7200), LOSSY_STATES[4])
  {
    hide RowsAfter, Oldest, OldestRow, Stamped;
    FirstOfOne();
    SecondRows();
    StampTwo();
    assert [EARLY_ROW, LATE_ROW, HOUR_ROW][1..] == [LATE_ROW, HOUR_ROW];
  }

  lemma SecondRows()
    ensures Counted(EARLY_ROW) && RowsAfter([EARLY_ROW], [EARLY_ROW, LATE_ROW, HOUR_ROW], [EARLY, LATE], 3660, 7200, 0, 7200)
  {
    hide UniqueKeys, MinuteWritten, HourWritten, MinuteFrom, HourFrom, HourOf, MinuteOfTime;
    SecondMinute();
    SecondHour();
    UniqueTwo();
    var rows' := [EARLY_ROW, LATE_ROW, HOUR_ROW];
    assert rows' == [EARLY_ROW] + [LATE_ROW, HOUR_ROW];
    assert rows'[1..] == [LATE_ROW, HOUR_ROW];
  }

  lemma SecondMinute()
    ensures forall x :: MinuteWritten([EARLY, LATE], 3660, 7200, x) <==> x == LATE_ROW
  {
    hide MinuteWritten;
    OneMinute([EARLY, LATE], 3660, 3660, 7200, LATE, LATE_ROW);
  }

  lemma SecondHour()
    ensures forall x :: HourWritten([EARLY_ROW], 0, 7200, x) <==> x == HOUR_ROW
  {
    hide HourWritten;
    FirstOfOne();
    UniqueOne(EARLY_ROW);
    OneHour([EARLY_ROW], 0, 3600, 7200, EARLY_ROW, HOUR_ROW);
  }

  lemma FirstOfOne()
    ensures HourFrom([EARLY_ROW], 0) == Some(3600)
  {
    assert [EARLY_ROW][..0] == [];
    assert OldestRow([]) == None;
    assert OldestRow([EARLY_ROW]) == Some(3600);
  }

  lemma UniqueTwo()
    ensures UniqueKeys([LATE_ROW, HOUR_ROW])
  {}

  lemma StampTwo()
    ensures Stamped(map[], [LATE_ROW, HOUR_ROW], 3660) == map[("m", 3600) := 3660]
  {
    var written := [LATE_ROW, HOUR_ROW];
    assert written[..1] == [LATE_ROW] && written[1] == HOUR_ROW && [LATE_ROW][..0] == [];
    assert Stamped(map[], [LATE_ROW], 3660) == map[];
  }

  lemma LossyRun()
    ensures Run(LOSSY_STATES, LOSSY_STEPS)
  {
    hide FoldStep;
    FirstFold();
    SecondFold();
    forall i | 0 <= i < 4 ensures Next(LOSSY_STATES[i], LOSSY_STEPS[i], LOSSY_STATES[i + 1]) {
      assert i == 0 || i == 1 || i == 2 || i == 3;
    }
  }

  /**
   The failing run: the hour is folded just after it ends, together with its last minute, which it
   therefore misses; the down minute is in the store and not in the report, and nothing corrects it.
   */
  lemma RunLosesDownSecond(out: seq<Bucket>, minutes: seq<Bucket>)
    requires Shipped(LOSSY_STATES[4].rows, 0, 10800, out) && MinuteTable(LOSSY_STATES[4].rows, minutes)
    ensures Run(LOSSY_STATES, LOSSY_STEPS) && !StepCaughtUp(LOSSY_STATES[3], LOSSY_STEPS[3])
    ensures HOUR_ROW in LOSSY_STATES[4].rows && !SumsAll(LOSSY_STATES[4].rows, HOUR_ROW)
    ensures exists t :: 0 <= t < 10800 && t in DownSet(ROLLUP_ANY, OfComponent(minutes, "c"))
                        && t !in DownSet(ROLLUP_ANY, OfComponent(out, "c"))
  {
    hide OfComponent, DownSet, Run, SumsAll, Next, Holds, Shipped, MinuteTable;
    LossyRun();
    Reachable(LOSSY_STATES, LOSSY_STEPS, 3);
    Reachable(LOSSY_STATES, LOSSY_STEPS, 4);
    FirstOfOne();
    SecondFold();
    WrittenComplete(LOSSY_STATES[3], 7200, LOSSY_STATES[4], HOUR_ROW);
    assert LATE in LOSSY_STATES[3].samples;
    StoredRows(LOSSY_STATES[4]);
    var table := LOSSY_STATES[4].rows;
    assert table[1] == LATE_ROW && DownMinute(table, 0, 10800, "c", LATE_ROW);
    DownLost(table, 0, 10800, out, minutes, "c", LATE_ROW);
  }

  // ----- a run that prunes a reading nothing counts -----

  const STRAGGLER := Reading("3", "m", "c", 3620, Down, false, false)

  /** A reading arrives for a minute already folded, and both are pruned. */
  const STRAGGLER_STEPS := [Recorded(EARLY), Folded(3660), Recorded(STRAGGLER), Pruned(3660, 0, 0)]
  const STRAGGLER_STATES := [
    START,
    State([EARLY], [], 0, 0, [EARLY], map[]),
    State([EARLY], [EARLY_ROW], 3660, 0, [EARLY], map[]),
    State([EARLY, STRAGGLER], [EARLY_ROW], 3660, 0, [EARLY], map[]),
    State([], [EARLY_ROW], 3660, 0, [EARLY], map[])]

  lemma BothPruned()
    ensures Next(STRAGGLER_STATES[3], Pruned(3660, 0, 0), STRAGGLER_STATES[4])
  {
    hide Sort, FilterReadings;
    var samples := [EARLY, STRAGGLER];
    var old_ := (r: Reading) => r.startedAt < 3660;
    FilterMembers(samples, old_);
    var aged := Sort(FilterReadings(samples, old_), ByTime);
    SameMembers(FilterReadings(samples, old_), aged);
    AtMostAll(samples, old_);
    assert PruneCutoff(3660, 0, 0, 3660) == 3660;
    assert Prunable(samples, 3660) == aged[..|aged|] == aged;
    var keep := (r: Reading) => r !in Prunable(samples, 3660);
    assert samples[0] in aged && samples[1] in aged;
    NoneKept(samples, keep);
  }

  lemma {:induction false} AtMostAll(samples: seq<Reading>, keep: Reading -> bool)
    ensures |FilterReadings(samples, keep)| <= |samples|
  {
    if samples != [] { AtMostAll(samples[..|samples| - 1], keep); }
  }

  lemma {:induction false} NoneKept(samples: seq<Reading>, keep: Reading -> bool)
    requires forall r | r in samples :: !keep(r)
    ensures FilterReadings(samples, keep) == []
  {
    if samples != [] {
      assert samples[|samples| - 1] in samples && forall r | r in samples[..|samples| - 1] :: r in samples;
      NoneKept(samples[..|samples| - 1], keep);
    }
  }

  /** The failing run: a reading is removed that no minute row counts. */
  lemma RunPrunesUncounted()
    ensures Run(STRAGGLER_STATES, STRAGGLER_STEPS) && STRAGGLER_STEPS[2] == Recorded(STRAGGLER)
    ensures STRAGGLER !in STRAGGLER_STATES[4].samples && !CountedIn(STRAGGLER_STATES[4], STRAGGLER)
  {
    hide FoldStep, Prunable, FilterReadings;
    FirstFold();
    BothPruned();
    forall i | 0 <= i < 4 ensures Next(STRAGGLER_STATES[i], STRAGGLER_STEPS[i], STRAGGLER_STATES[i + 1]) {
      assert i == 0 || i == 1 || i == 2 || i == 3;
    }
    assert STRAGGLER.id != EARLY.id;
  }
}
