/**
 Folding readings into minutes and minutes into hours: the `fold` accumulator of
 internal/core/samples.go. Latency columns are not modelled.
 */
module Folding {
  import opened Model

  const WIDTH_MINUTE := 60
  const WIDTH_HOUR := 3600

  /** One reading of a monitor, as folding sees it. */
  datatype Reading = Reading(id: string, monitor: string, component: string, startedAt: int,
                             verdict: Verdict, manual: bool, inMaintenance: bool)

  datatype Tally = Tally(up: nat, degraded: nat, down: nat, errors: nat, maintenance: nat,
                         downIntervals: nat, seenIntervals: nat)

  const EMPTY := Tally(0, 0, 0, 0, 0, 0, 0)

  function WithReading(t: Tally, r: Reading): Tally {
    var c := match r.verdict
      case Up => t.(up := t.up + 1)
      case Degraded => t.(degraded := t.degraded + 1)
      case Down => t.(down := t.down + 1)
      case Error => t.(errors := t.errors + 1);
    if r.inMaintenance then c.(maintenance := c.maintenance + 1) else c
  }

  predicate Counted(b: Bucket) {
    b.up >= 0 && b.degraded >= 0 && b.down >= 0 && b.errors >= 0 && b.maintenance >= 0
  }

  function WithBucket(t: Tally, b: Bucket): Tally
    requires Counted(b)
  {
    Tally(t.up + b.up, t.degraded + b.degraded, t.down + b.down, t.errors + b.errors,
      t.maintenance + b.maintenance,
      t.downIntervals + if b.verdict == Down then 1 else 0,
      t.seenIntervals + 1)
  }

  function TallyReadings(rs: seq<Reading>): Tally {
    if rs == [] then EMPTY else WithReading(TallyReadings(rs[..|rs| - 1]), rs[|rs| - 1])
  }

  function TallyBuckets(bs: seq<Bucket>): Tally
    requires forall b | b in bs :: Counted(b)
  {
    if bs == [] then EMPTY else WithBucket(TallyBuckets(bs[..|bs| - 1]), bs[|bs| - 1])
  }

  function VerdictOf(width: int, t: Tally): Verdict {
    if width >= WIDTH_HOUR && t.seenIntervals > 0 then
      if t.downIntervals > 0 then Down
      else if t.degraded > 0 then Degraded
      else if t.up > 0 then Up
      else Error
    else
      var readings := t.up + t.degraded + t.down;
      if readings == 0 then Error
      else if t.down * 2 >= readings then Down
      else if t.down > 0 || t.degraded > 0 then Degraded
      else Up
  }

  function RowOf(monitor: string, component: string, start: int, width: int, t: Tally): Bucket {
    Bucket(monitor, component, start, width, t.up, t.degraded, t.down, t.errors, t.maintenance, 0,
      VerdictOf(width, t))
  }

  /** The accumulator of one interval. */
  class Fold {
    const monitor: string
    const component: string
    const start: int
    const width: int
    var up: nat
    var degraded: nat
    var down: nat
    var errors: nat
    var maintenance: nat
    var downIntervals: nat
    var seenIntervals: nat

    ghost function State(): Tally
      reads this
    {
      Tally(up, degraded, down, errors, maintenance, downIntervals, seenIntervals)
    }

    constructor (monitor: string, component: string, start: int, width: int)
      ensures this.monitor == monitor && this.component == component
      ensures this.start == start && this.width == width
      ensures State() == EMPTY
    {
      this.monitor, this.component, this.start, this.width := monitor, component, start, width;
      up, degraded, down, errors, maintenance, downIntervals, seenIntervals := 0, 0, 0, 0, 0, 0, 0;
    }

    method AddReading(r: Reading)
      modifies this
      ensures State() == WithReading(old(State()), r)
    {
      match r.verdict {
        case Up => up := up + 1;
        case Degraded => degraded := degraded + 1;
        case Down => down := down + 1;
        case Error => errors := errors + 1;
      }
      if r.inMaintenance {
        maintenance := maintenance + 1;
      }
    }

    method AddBucket(b: Bucket)
      requires Counted(b)
      modifies this
      ensures State() == WithBucket(old(State()), b)
    {
      up := up + b.up;
      degraded := degraded + b.degraded;
      down := down + b.down;
      errors := errors + b.errors;
      maintenance := maintenance + b.maintenance;
      seenIntervals := seenIntervals + 1;
      if b.verdict == Down {
        downIntervals := downIntervals + 1;
      }
    }

    method Row() returns (b: Bucket)
      ensures b == RowOf(monitor, component, start, width, State())
    {
      var verdict;
      if width >= WIDTH_HOUR && seenIntervals > 0 {
        if downIntervals > 0 {
          verdict := Down;
        } else if degraded > 0 {
          verdict := Degraded;
        } else if up > 0 {
          verdict := Up;
        } else {
          verdict := Error;
        }
      } else {
        var readings := up + degraded + down;
        if readings == 0 {
          verdict := Error;
        } else if down * 2 >= readings {
          verdict := Down;
        } else if down > 0 || degraded > 0 {
          verdict := Degraded;
        } else {
          verdict := Up;
        }
      }
      b := Bucket(monitor, component, start, width, up, degraded, down, errors, maintenance, 0, verdict);
    }
  }

  function CountVerdict(rs: seq<Reading>, v: Verdict): nat {
    if rs == [] then 0
    else CountVerdict(rs[..|rs| - 1], v) + if rs[|rs| - 1].verdict == v then 1 else 0
  }

  /** Every reading is counted once, under its own verdict. */
  lemma {:induction false} TallyCounts(rs: seq<Reading>)
    ensures var t := TallyReadings(rs);
            && t.up == CountVerdict(rs, Up) && t.degraded == CountVerdict(rs, Degraded)
            && t.down == CountVerdict(rs, Down) && t.errors == CountVerdict(rs, Error)
            && t.up + t.degraded + t.down + t.errors == |rs|
            && t.seenIntervals == 0
  {
    if rs != [] { TallyCounts(rs[..|rs| - 1]); }
  }

  /** The verdict of a minute in terms of how many of its readings failed, were errors, or passed. */
  lemma MinuteVerdict(rs: seq<Reading>)
    ensures var v := VerdictOf(WIDTH_MINUTE, TallyReadings(rs));
            var down := CountVerdict(rs, Down);
            var readings := |rs| - CountVerdict(rs, Error);
            && (v == Down <==> readings > 0 && down * 2 >= readings)
            && (v == Error <==> readings == 0)
            && (v == Up <==> readings > 0 && CountVerdict(rs, Up) == readings)
  {
    hide TallyReadings, CountVerdict;
    TallyCounts(rs);
  }

  /** What an hour row tells about the minutes it was folded from. */
  lemma {:induction false} HourTally(bs: seq<Bucket>)
    requires forall b | b in bs :: Counted(b)
    ensures var t := TallyBuckets(bs);
            && t.seenIntervals == |bs|
            && (t.downIntervals == 0 <==> forall b | b in bs :: b.verdict != Down)
            && (t.degraded == 0 <==> forall b | b in bs :: b.degraded == 0)
            && (t.up == 0 <==> forall b | b in bs :: b.up == 0)
            && (t.down == 0 <==> forall b | b in bs :: b.down == 0)
            && (t.errors == 0 <==> forall b | b in bs :: b.errors == 0)
  {
    if bs != [] {
      var n := |bs| - 1;
      assert bs == bs[..n] + [bs[n]] && bs[n] in bs;
      HourTally(bs[..n]);
    }
  }
}
