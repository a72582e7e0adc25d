/**
 The threshold automaton: `advanceMonitor` of internal/core/detect.go.

 A monitor is down after a run of readings exactly when some block of adjacent down readings
 reached the failure threshold and no later block of adjacent equal readings reached the
 recovery threshold. An error reading never changes the verdict, but it does end the block it
 falls in: the next reading starts a new one.
 */
module Threshold {
  import opened Model

  datatype MonitorState = MonitorState(verdict: Verdict, raw: Option<Verdict>, since: int, consecutive: int, updatedAt: int)

  /** A monitor never seen before is taken to be up. */
  function NewState(now: int): MonitorState { MonitorState(Up, None, now, 0, 0) }

  /** The state after one reading. */
  function Advanced(s: MonitorState, failure: int, recovery: int, v: Verdict, now: int): MonitorState {
    if v == Error then s.(raw := Some(Error), updatedAt := now)
    else
      var consecutive := if s.raw == Some(v) then s.consecutive + 1 else 1;
      var t := s.(raw := Some(v), consecutive := consecutive, updatedAt := now);
      if s.verdict != Down && v == Down then
        if consecutive >= failure then t.(verdict := Down, since := now) else t
      else if s.verdict == Down && v != Down then
        if consecutive >= recovery then t.(verdict := v, since := now) else t
      else if s.verdict != v then t.(verdict := v, since := now)
      else t
  }

  class Monitor {
    var verdict: Verdict
    var raw: Option<Verdict>
    var since: int
    var consecutive: int
    var updatedAt: int

    ghost function View(): MonitorState reads this { MonitorState(verdict, raw, since, consecutive, updatedAt) }

    constructor (s: MonitorState)
      ensures View() == s
    {
      verdict, raw, since, consecutive, updatedAt := s.verdict, s.raw, s.since, s.consecutive, s.updatedAt;
    }

    method Row() returns (s: MonitorState)
      ensures s == View()
    {
      s := MonitorState(verdict, raw, since, consecutive, updatedAt);
    }

    method Advance(failure: int, recovery: int, v: Verdict, now: int)
      modifies this
      ensures View() == Advanced(old(View()), failure, recovery, v, now)
    {
      updatedAt := now;
      if v == Error {
        raw := Some(Error);
        return;
      }
      if raw == Some(v) {
        consecutive := consecutive + 1;
      } else {
        raw := Some(v);
        consecutive := 1;
      }
      if verdict != Down && v == Down {
        if consecutive >= failure {
          verdict := Down;
          since := now;
        }
      } else if verdict == Down && v != Down {
        if consecutive >= recovery {
          verdict := v;
          since := now;
        }
      } else {
        if verdict != v {
          verdict := v;
          since := now;
        }
      }
    }
  }

  // ----- the trace -----

  datatype Taken = Taken(verdict: Verdict, at: int)

  function After(readings: seq<Taken>, failure: int, recovery: int, started: int): MonitorState {
    if readings == [] then NewState(started)
    else
      var n := |readings| - 1;
      Advanced(After(readings[..n], failure, recovery, started), failure, recovery, readings[n].verdict, readings[n].at)
  }

  /** The `length` readings before position `end` are all `v`. */
  ghost predicate Block(readings: seq<Taken>, end: nat, length: int, v: Verdict) {
    && 0 <= length <= end <= |readings|
    && forall i | end - length <= i < end :: readings[i].verdict == v
  }

  /** A threshold below one asks for one reading. */
  function AtLeastOne(threshold: int): int { if threshold < 1 then 1 else threshold }

  ghost predicate FailedAt(readings: seq<Taken>, end: nat, failure: int) {
    Block(readings, end, AtLeastOne(failure), Down)
  }

  ghost predicate RecoveredAt(readings: seq<Taken>, end: nat, recovery: int) {
    Block(readings, end, AtLeastOne(recovery), Up) || Block(readings, end, AtLeastOne(recovery), Degraded)
  }

  /** The failure block ending at `i` has not been followed by a recovery block. */
  ghost predicate StillFailing(readings: seq<Taken>, i: nat, failure: int, recovery: int) {
    FailedAt(readings, i, failure) && forall j | i < j <= |readings| :: !RecoveredAt(readings, j, recovery)
  }

  ghost predicate Failing(readings: seq<Taken>, failure: int, recovery: int) {
    exists i: nat :: i <= |readings| && StillFailing(readings, i, failure, recovery)
  }

  /** How many readings at the end of the run are the same. */
  function Streak(readings: seq<Taken>): nat
    ensures Streak(readings) <= |readings|
  {
    var n := |readings| - 1;
    if readings == [] then 0
    else if n > 0 && readings[n - 1].verdict == readings[n].verdict then Streak(readings[..n]) + 1
    else 1
  }

  lemma {:induction false} StreakIsLongest(readings: seq<Taken>, length: nat)
    requires readings != []
    ensures Block(readings, |readings|, length, readings[|readings| - 1].verdict) <==> length <= Streak(readings)
  {
    var n := |readings| - 1;
    var v := readings[n].verdict;
    if length > 1 && n > 0 {
      StreakIsLongest(readings[..n], length - 1);
      if readings[n - 1].verdict == v {
        assert Block(readings, n + 1, length, v) <==> Block(readings[..n], n, length - 1, v);
      } else {
        assert readings[n - 1].verdict != v;
      }
    }
  }

  /** The counter holds the length of the current block of readings of the service. */
  lemma {:induction false} CounterIsStreak(readings: seq<Taken>, failure: int, recovery: int, started: int)
    ensures var s := After(readings, failure, recovery, started);
            if readings == [] then s.raw == None
            else
              var v := readings[|readings| - 1].verdict;
              s.raw == Some(v) && (v != Error ==> s.consecutive == Streak(readings))
  {
    if readings != [] { CounterIsStreak(readings[..|readings| - 1], failure, recovery, started); }
  }

  lemma EarlierBlocks(readings: seq<Taken>, end: nat, length: int, v: Verdict)
    requires readings != [] && end < |readings|
    ensures Block(readings, end, length, v) <==> Block(readings[..|readings| - 1], end, length, v)
  {}

  /** What one more reading does to the trace: a block can only end at it. */
  lemma FailingStep(readings: seq<Taken>, failure: int, recovery: int)
    requires readings != []
    ensures var n := |readings| - 1;
            Failing(readings, failure, recovery) <==>
            FailedAt(readings, n + 1, failure)
            || (Failing(readings[..n], failure, recovery) && !RecoveredAt(readings, n + 1, recovery))
  {
    hide Block;
    var n := |readings| - 1;
    var front := readings[..n];
    forall end: nat, length, v | end <= n ensures Block(readings, end, length, v) <==> Block(front, end, length, v) {
      EarlierBlocks(readings, end, length, v);
    }
    forall i: nat | i <= n
      ensures StillFailing(readings, i, failure, recovery)
              <==> StillFailing(front, i, failure, recovery) && !RecoveredAt(readings, n + 1, recovery)
    {
      assert FailedAt(readings, i, failure) == FailedAt(front, i, failure);
      assert forall j: nat | j <= n :: RecoveredAt(readings, j, recovery) == RecoveredAt(front, j, recovery);
    }
    assert StillFailing(readings, n + 1, failure, recovery) == FailedAt(readings, n + 1, failure);
  }

  lemma EndsWith(readings: seq<Taken>, failure: int, recovery: int)
    requires readings != []
    ensures var v, n := readings[|readings| - 1].verdict, |readings|;
            && (FailedAt(readings, n, failure) <==> v == Down && Streak(readings) >= failure)
            && (RecoveredAt(readings, n, recovery) <==> v != Down && v != Error && Streak(readings) >= recovery)
  {
    var n := |readings| - 1;
    StreakIsLongest(readings, AtLeastOne(failure));
    StreakIsLongest(readings, AtLeastOne(recovery));
    assert Streak(readings) >= 1;
  }

  /** The verdict of a monitor, characterised by its readings alone. */
  lemma {:induction false} DownExactly(readings: seq<Taken>, failure: int, recovery: int, started: int)
    ensures After(readings, failure, recovery, started).verdict == Down <==> Failing(readings, failure, recovery)
  {
    hide Failing, FailedAt, RecoveredAt, Streak;
    if readings == [] {
      NeverFailing(failure, recovery);
    } else {
      var n := |readings| - 1;
      DownExactly(readings[..n], failure, recovery, started);
      CounterIsStreak(readings, failure, recovery, started);
      FailingStep(readings, failure, recovery);
      EndsWith(readings, failure, recovery);
    }
  }

  lemma NeverFailing(failure: int, recovery: int)
    ensures !Failing([], failure, recovery)
  {}

  /** An error reading changes neither the verdict nor when it began, but it ends the block. */
  lemma ErrorBreaksTheBlock(readings: seq<Taken>, failure: int, recovery: int, started: int, error: Taken, next: Taken)
    requires error.verdict == Error && next.verdict != Error
    ensures var s := After(readings, failure, recovery, started);
            var t := After(readings + [error], failure, recovery, started);
            t.verdict == s.verdict && t.since == s.since
    ensures After(readings + [error, next], failure, recovery, started).consecutive == 1
  {
    assert (readings + [error])[..|readings|] == readings;
    assert (readings + [error, next])[..|readings| + 1] == readings + [error];
  }

  /** While a monitor is not down, what it reports is its last reading that was not a failure. */
  lemma {:induction false} VerdictWhileUp(readings: seq<Taken>, failure: int, recovery: int, started: int)
    requires !Failing(readings, failure, recovery)
    requires readings != [] && readings[|readings| - 1].verdict in {Up, Degraded}
    ensures After(readings, failure, recovery, started).verdict == readings[|readings| - 1].verdict
  {
    hide Failing;
    DownExactly(readings, failure, recovery, started);
  }
}
