/**
 The monitor's own idea of the time: `quorum`, `agreeing`, `Refresh`, `nowLocked`, `Floor` and
 `SetFloor` of internal/clock/timesource/timesource.go.

 Times and offsets are nanoseconds. What each pinned server answers, the order the servers are
 drawn in, the order the first two answers arrive in, and the local monotonic clock are inputs.
 */
module TimeSource {
  import opened Model
  import opened Decimal

  const AGREEMENT := 2_000_000_000
  const MAX_RTT := 2_000_000_000
  const MAX_AGE := 30 * 60 * 1_000_000_000
  /** 18 September 2026, 00:00 UTC */
  const MIN_TRUSTED_TIME := 1_789_689_600_000_000_000
  /** Go's zero time, the first of January of year 1 */
  const ZERO_TIME := -62_135_596_800_000_000_000

  datatype Answer = NoAnswer | Answer(offset: int, rtt: int)
  datatype Sample = Sample(server: string, offset: int, rtt: int)

  function Distance(a: int, b: int): nat { if a < b then b - a else a - b }

  // ----- the closest agreeing pair -----

  predicate Agree(a: Sample, b: Sample) { Distance(a.offset, b.offset) <= AGREEMENT }

  ghost predicate SomeAgree(samples: seq<Sample>) {
    exists i, j :: 0 <= i < j < |samples| && Agree(samples[i], samples[j])
  }

  /** The agreeing pair nearest to each other, and the earliest of those. */
  ghost predicate Closest(samples: seq<Sample>, i: nat, j: nat) {
    && i < j < |samples| && Agree(samples[i], samples[j])
    && forall k, l | 0 <= k < l < |samples| && Agree(samples[k], samples[l]) ::
         var best, gap := Distance(samples[i].offset, samples[j].offset), Distance(samples[k].offset, samples[l].offset);
         best < gap || (best == gap && (i < k || (i == k && j <= l)))
  }

  /** Go's mean of two offsets: the half difference is truncated toward zero. */
  function Mean(a: int, b: int): int { a + Quo(b - a, 2) }

  /** Whether a pair was scanned before the loops reach (`i`, `j`). */
  predicate Scanned(k: int, l: int, i: int, j: int) { k < i || (k == i && l < j) }

  /** The best pair of those scanned. */
  ghost predicate BestSoFar(samples: seq<Sample>, i: nat, j: nat, found: bool, a: nat, b: nat) {
    if !found then
      forall k, l | 0 <= k < l < |samples| && Scanned(k, l, i, j) :: !Agree(samples[k], samples[l])
    else
      && a < b < |samples| && Agree(samples[a], samples[b]) && Scanned(a, b, i, j)
      && forall k, l | 0 <= k < l < |samples| && Scanned(k, l, i, j) && Agree(samples[k], samples[l]) ::
           var best, gap := Distance(samples[a].offset, samples[b].offset), Distance(samples[k].offset, samples[l].offset);
           best < gap || (best == gap && (a < k || (a == k && b <= l)))
  }

  /** The mean of the closest agreeing pair, or nothing when no two agree. */
  ghost predicate BestPair(samples: seq<Sample>, r: Option<(int, seq<Sample>)>) {
    match r
    case None => !SomeAgree(samples)
    case Some((offset, pair)) =>
      exists i: nat, j: nat :: (
        && Closest(samples, i, j) && offset == Mean(samples[i].offset, samples[j].offset)
        && pair == [samples[i], samples[j]])
  }

  method Agreeing(samples: seq<Sample>) returns (r: Option<(int, seq<Sample>)>)
    ensures BestPair(samples, r)
  {
    hide Quo, BestSoFar, Closest;
    var found, best, other, bestGap := false, 0, 0, 0;
    NothingScanned(samples);
    for i := 0 to |samples|
      invariant BestSoFar(samples, i, i + 1, found, best, other)
      invariant found ==> best < |samples| && other < |samples| && bestGap == Distance(samples[best].offset, samples[other].offset)
    {
      for j := i + 1 to |samples|
        invariant BestSoFar(samples, i, j, found, best, other)
        invariant found ==> best < |samples| && other < |samples| && bestGap == Distance(samples[best].offset, samples[other].offset)
      {
        var gap := samples[i].offset - samples[j].offset;
        if gap < 0 {
          gap := -gap;
        }
        ScanPair(samples, i, j, found, best, other);
        if gap <= AGREEMENT && (!found || gap < bestGap) {
          found, bestGap, best, other := true, gap, i, j;
        }
      }
      ScanRow(samples, i, found, best, other);
    }
    AllScanned(samples, found, best, other);
    if !found {
      return None;
    }
    var a, b := samples[best], samples[other];
    return Some((a.offset + Quo(b.offset - a.offset, 2), [a, b]));
  }

  lemma NothingScanned(samples: seq<Sample>)
    ensures BestSoFar(samples, 0, 1, false, 0, 0)
  {}

  /** Another pair is the best only when it agrees and is strictly closer. */
  lemma ScanPair(samples: seq<Sample>, i: nat, j: nat, found: bool, best: nat, other: nat)
    requires i < j < |samples| && BestSoFar(samples, i, j, found, best, other)
    ensures found ==> best < other < |samples|
    ensures Agree(samples[i], samples[j])
            && (!found || Distance(samples[i].offset, samples[j].offset) < Distance(samples[best].offset, samples[other].offset))
            ==> BestSoFar(samples, i, j + 1, true, i, j)
    ensures !(Agree(samples[i], samples[j])
              && (!found || Distance(samples[i].offset, samples[j].offset) < Distance(samples[best].offset, samples[other].offset)))
            ==> BestSoFar(samples, i, j + 1, found, best, other)
  {
    hide Distance;
  }

  lemma ScanRow(samples: seq<Sample>, i: nat, found: bool, best: nat, other: nat)
    requires i < |samples| && BestSoFar(samples, i, |samples|, found, best, other)
    ensures BestSoFar(samples, i + 1, i + 2, found, best, other)
  {
    hide Agree, Distance;
  }

  lemma AllScanned(samples: seq<Sample>, found: bool, best: nat, other: nat)
    requires BestSoFar(samples, |samples|, |samples| + 1, found, best, other)
    ensures if found then Closest(samples, best, other) else !SomeAgree(samples)
  {
    hide Agree, Distance;
  }

  // ----- two, then three -----

  predicate Accepted(a: Answer) { a.Answer? && a.rtt <= MAX_RTT }

  predicate Drawn(order: seq<nat>, n: nat) {
    && |order| == n
    && (forall i | 0 <= i < |order| :: order[i] < n)
    && forall i, j | 0 <= i < j < |order| :: order[i] != order[j]
  }

  /** What one server contributes. */
  function Heard(servers: seq<string>, query: nat -> Answer, server: nat): seq<Sample>
    requires server < |servers|
  {
    var a := query(server);
    if Accepted(a) then [Sample(servers[server], a.offset, a.rtt)] else []
  }

  /** The samples of the first two servers, in the order they arrived. */
  function FirstTwo(servers: seq<string>, query: nat -> Answer, order: seq<nat>, swapped: bool): seq<Sample>
    requires Drawn(order, |servers|) && |servers| >= 2
  {
    var a, b := Heard(servers, query, order[0]), Heard(servers, query, order[1]);
    if swapped then b + a else a + b
  }

  function AllThree(servers: seq<string>, query: nat -> Answer, order: seq<nat>, swapped: bool): seq<Sample>
    requires Drawn(order, |servers|) && |servers| >= 2
  {
    FirstTwo(servers, query, order, swapped) + if |order| > 2 then Heard(servers, query, order[2]) else []
  }

  /** The samples the decision is made on: a third server is asked only if the first two do not agree. */
  ghost function Decisive(servers: seq<string>, query: nat -> Answer, order: seq<nat>, swapped: bool): seq<Sample>
    requires Drawn(order, |servers|) && |servers| >= 2
  {
    var first := FirstTwo(servers, query, order, swapped);
    if SomeAgree(first) then first else AllThree(servers, query, order, swapped)
  }

  datatype Outcome = NoQuorum(got: seq<Sample>) | Quorum(offset: int, pair: seq<Sample>)

  ghost predicate Decided(samples: seq<Sample>, r: Outcome) {
    match r
    case NoQuorum(got) => got == samples && BestPair(samples, None)
    case Quorum(offset, pair) => BestPair(samples, Some((offset, pair)))
  }

  lemma BestDecides(samples: seq<Sample>, r: Option<(int, seq<Sample>)>)
    requires BestPair(samples, r)
    ensures r.Some? <==> SomeAgree(samples)
  {
    hide Mean;
    if r.Some? {
      var i: nat, j: nat :| Closest(samples, i, j);
      assert Agree(samples[i], samples[j]);
    }
  }

  method FindQuorum(servers: seq<string>, query: nat -> Answer, order: seq<nat>, swapped: bool) returns (r: Outcome, asked: nat)
    requires Drawn(order, |servers|)
    ensures |servers| < 2 ==> r == NoQuorum([]) && asked == 0
    ensures |servers| >= 2 ==> Decided(Decisive(servers, query, order, swapped), r)
    ensures |servers| >= 2 ==> asked <= 3 && (asked == 2 <== SomeAgree(FirstTwo(servers, query, order, swapped)))
  {
    if |servers| < 2 {
      return NoQuorum([]), 0;
    }
    hide BestPair, SomeAgree, Heard;
    var a, b := Heard(servers, query, order[0]), Heard(servers, query, order[1]);
    var got := if swapped then b + a else a + b;
    asked := 2;
    var best := Agreeing(got);
    BestDecides(got, best);
    if best.Some? {
      return Quorum(best.value.0, best.value.1), asked;
    }
    if asked < |order| {
      got := got + Heard(servers, query, order[2]);
      asked := 3;
    }
    best := Agreeing(got);
    assert got == AllThree(servers, query, order, swapped);
    if best.Some? {
      return Quorum(best.value.0, best.value.1), asked;
    }
    return NoQuorum(got), asked;
  }

  // ----- the error of an adopted offset -----

  /** The server's answer is within `e` of the true offset. */
  predicate Honest(query: nat -> Answer, server: nat, truth: int, e: nat) {
    query(server).Answer? ==> Distance(query(server).offset, truth) <= e
  }

  /** At most one of the three servers drawn first is wrong. */
  predicate AtMostOneWrong(query: nat -> Answer, order: seq<nat>, truth: int, e: nat) {
    forall i, j | 0 <= i < j < |order| && j < 3 :: Honest(query, order[i], truth, e) || Honest(query, order[j], truth, e)
  }

  /** Half the agreement between two servers is the most one of them can move the mean. */
  lemma MeanNear(a: int, b: int, truth: int, e: nat)
    requires Distance(a, b) <= AGREEMENT
    requires Distance(a, truth) <= e || Distance(b, truth) <= e
    ensures Distance(Mean(a, b), truth) <= e + AGREEMENT / 2
    ensures Distance(a, truth) <= e && Distance(b, truth) <= e ==> Distance(Mean(a, b), truth) <= e
  {}

  /** Two of the samples a decision is made on are never both wrong. */
  lemma OneHonest(servers: seq<string>, query: nat -> Answer, order: seq<nat>, swapped: bool, truth: int, e: nat)
    requires Drawn(order, |servers|) && |servers| >= 2 && AtMostOneWrong(query, order, truth, e)
    ensures var samples := AllThree(servers, query, order, swapped);
            forall i, j | 0 <= i < j < |samples| ::
              Distance(samples[i].offset, truth) <= e || Distance(samples[j].offset, truth) <= e
  {
    hide Distance;
    assert Honest(query, order[0], truth, e) || Honest(query, order[1], truth, e);
    if |order| > 2 {
      assert Honest(query, order[0], truth, e) || Honest(query, order[2], truth, e);
      assert Honest(query, order[1], truth, e) || Honest(query, order[2], truth, e);
    }
  }

  /** With at most one wrong server, an adopted offset is within one second of an honest one. */
  lemma AdoptedWithinError(servers: seq<string>, query: nat -> Answer, order: seq<nat>, swapped: bool,
                           r: Outcome, truth: int, e: nat)
    requires Drawn(order, |servers|) && |servers| >= 2 && AtMostOneWrong(query, order, truth, e)
    requires Decided(Decisive(servers, query, order, swapped), r) && r.Quorum?
    ensures Distance(r.offset, truth) <= e + 1_000_000_000
  {
    hide Mean, Distance, FirstTwo, AllThree, SomeAgree, AtMostOneWrong;
    var samples := Decisive(servers, query, order, swapped);
    var i: nat, j: nat :| Closest(samples, i, j) && r.offset == Mean(samples[i].offset, samples[j].offset);
    OneHonest(servers, query, order, swapped, truth, e);
    FirstOfThree(servers, query, order, swapped);
    var all := AllThree(servers, query, order, swapped);
    assert samples[i] == all[i] && samples[j] == all[j];
    MeanNear(samples[i].offset, samples[j].offset, truth, e);
  }

  lemma FirstOfThree(servers: seq<string>, query: nat -> Answer, order: seq<nat>, swapped: bool)
    requires Drawn(order, |servers|) && |servers| >= 2
    ensures FirstTwo(servers, query, order, swapped) <= AllThree(servers, query, order, swapped)
  {
    hide FirstTwo;
  }

  /** The server answers in time and tells the truth within `e`. */
  predicate Useful(query: nat -> Answer, server: nat, truth: int, e: nat) {
    Accepted(query(server)) && Honest(query, server, truth, e)
  }

  /** Whenever two of the three answer and are honest to a second, there is a quorum. */
  lemma TwoUsefulSucceed(servers: seq<string>, query: nat -> Answer, order: seq<nat>, swapped: bool,
                         r: Outcome, truth: int, e: nat, i: nat, j: nat)
    requires Drawn(order, |servers|) && |servers| >= 2 && 2 * e <= AGREEMENT
    requires i < j < |order| && j < 3 && Useful(query, order[i], truth, e) && Useful(query, order[j], truth, e)
    requires Decided(Decisive(servers, query, order, swapped), r)
    ensures r.Quorum?
  {
    hide Distance, BestPair, AllThree, Heard;
    var all := AllThree(servers, query, order, swapped);
    var k, l := BothHeard(servers, query, order, swapped, i, j);
    Near(all[k].offset, all[l].offset, truth, e);
    assert SomeAgree(all);
    var samples := Decisive(servers, query, order, swapped);
    assert SomeAgree(samples);
    if r.NoQuorum? { BestDecides(samples, None); }
  }

  lemma Near(a: int, b: int, truth: int, e: nat)
    requires Distance(a, truth) <= e && Distance(b, truth) <= e && 2 * e <= AGREEMENT
    ensures Distance(a, b) <= AGREEMENT
  {}

  /** Two servers that answered contribute two samples. */
  lemma BothHeard(servers: seq<string>, query: nat -> Answer, order: seq<nat>, swapped: bool, i: nat, j: nat)
    returns (k: nat, l: nat)
    requires Drawn(order, |servers|) && |servers| >= 2 && i < j < |order| && j < 3
    requires Accepted(query(order[i])) && Accepted(query(order[j]))
    ensures var all := AllThree(servers, query, order, swapped);
            && k < l < |all|
            && ((all[k].offset == query(order[i]).offset && all[l].offset == query(order[j]).offset)
                || (all[k].offset == query(order[j]).offset && all[l].offset == query(order[i]).offset))
  {
    var all := AllThree(servers, query, order, swapped);
    if j == 1 {
      k, l := 0, 1;
    } else {
      l := |all| - 1;
      k := if i == 0 then (if swapped then |all| - 2 else 0) else (if swapped then 0 else |all| - 2);
    }
  }

  // ----- the source -----

  datatype State = State(has: bool, offset: int, fetched: int, floor: int)

  const START := State(false, 0, ZERO_TIME, ZERO_TIME)

  /** The trusted time at local time `local`, and nothing when there is none. */
  function NowAt(s: State, local: int): Option<int> {
    if !s.has || local - s.fetched > MAX_AGE then None
    else Some(if local + s.offset < s.floor then s.floor else local + s.offset)
  }

  /** The earliest time the source can vouch for. */
  function FloorAt(s: State, local: int): int {
    var f := if s.floor > MIN_TRUSTED_TIME then s.floor else MIN_TRUSTED_TIME;
    if s.has && local + s.offset > f then local + s.offset else f
  }

  class Source {
    const servers: seq<string>
    var has: bool
    var offset: int
    var fetched: int
    var floor: int
    var used: seq<string>
    var failedAt: Option<int>

    ghost function View(): State reads this { State(has, offset, fetched, floor) }

    constructor (servers: seq<string>)
      ensures View() == START && this.servers == servers && failedAt == None
    {
      this.servers := servers;
      has, offset, fetched, floor, used, failedAt := false, 0, ZERO_TIME, ZERO_TIME, [], None;
    }

    method SetFloor(t: int)
      modifies this`floor
      ensures View() == old(View()).(floor := if t > old(floor) then t else old(floor))
    {
      if t > floor {
        floor := t;
      }
    }

    method Now(local: int) returns (t: Option<int>)
      ensures t == NowAt(View(), local)
    {
      if !has {
        return None;
      }
      if local - fetched > MAX_AGE {
        return None;
      }
      var now := local + offset;
      if now < floor {
        now := floor;
      }
      return Some(now);
    }

    method Floor(local: int) returns (t: int)
      ensures t == FloorAt(View(), local)
    {
      var f := MIN_TRUSTED_TIME;
      if floor > f {
        f := floor;
      }
      if has {
        var now := local + offset;
        if now > f {
          f := now;
        }
      }
      return f;
    }

    /** Adopts what a quorum agrees on; a failed refresh leaves the time it had. */
    method Refresh(query: nat -> Answer, order: seq<nat>, swapped: bool, local: int) returns (r: Outcome)
      requires Drawn(order, |servers|)
      modifies this
      ensures |servers| >= 2 ==> Decided(Decisive(servers, query, order, swapped), r)
      ensures |servers| < 2 ==> r.NoQuorum?
      ensures View() == if r.Quorum? then State(true, r.offset, local, old(floor)) else old(View())
      ensures failedAt == if r.Quorum? then None else Some(local)
      ensures r.Quorum? ==> |used| == |r.pair| && forall i | 0 <= i < |used| :: used[i] == r.pair[i].server
    {
      hide Decided, Decisive;
      var asked;
      r, asked := FindQuorum(servers, query, order, swapped);
      if r.NoQuorum? {
        failedAt := Some(local);
        return;
      }
      has, offset, fetched := true, r.offset, local;
      used := [];
      for i := 0 to |r.pair|
        invariant |used| == i && forall k | 0 <= k < i :: used[k] == r.pair[k].server
        invariant View() == State(true, r.offset, local, old(floor))
      {
        used := used + [r.pair[i].server];
      }
      failedAt := None;
    }
  }

  // ----- runs -----

  /** What may happen to the source, at a local time. */
  datatype Step =
    | Fetch(local: int, query: nat -> Answer, order: seq<nat>, swapped: bool, r: Outcome)
    | Raise(local: int, to: int)

  /** The step respects what is assumed of the world, whose true offset is `truth`. */
  ghost predicate Allowed(servers: seq<string>, step: Step, truth: int, e: nat) {
    match step
    case Fetch(_, query, order, swapped, r) =>
      && Drawn(order, |servers|)
      && (if |servers| >= 2 then Decided(Decisive(servers, query, order, swapped), r) else r.NoQuorum?)
      && AtMostOneWrong(query, order, truth, e)
    case Raise(local, t) => t <= local + truth + e + 1_000_000_000
  }

  function Apply(s: State, step: Step): State {
    match step
    case Fetch(local, _, _, _, r) => if r.Quorum? then State(true, r.offset, local, s.floor) else s
    case Raise(_, t) => s.(floor := if t > s.floor then t else s.floor)
  }

  function Run(s: State, steps: seq<Step>): State {
    if steps == [] then s else Apply(Run(s, steps[..|steps| - 1]), steps[|steps| - 1])
  }

  predicate InOrder(steps: seq<Step>) { forall i, j | 0 <= i < j < |steps| :: steps[i].local <= steps[j].local }

  /** What a run of allowed steps keeps. */
  predicate Sound(s: State, local: int, truth: int, e: nat) {
    && (s.has ==> Distance(s.offset, truth) <= e + 1_000_000_000)
    && (s.floor <= ZERO_TIME || s.floor <= local + truth + e + 1_000_000_000)
  }

  lemma {:induction false} RunSound(servers: seq<string>, steps: seq<Step>, local: int, truth: int, e: nat)
    requires InOrder(steps) && forall i | 0 <= i < |steps| :: Allowed(servers, steps[i], truth, e) && steps[i].local <= local
    ensures Sound(Run(START, steps), local, truth, e)
  {
    hide Decided, Decisive, AtMostOneWrong, Drawn;
    if steps != [] {
      var n := |steps| - 1;
      RunSound(servers, steps[..n], steps[n].local, truth, e);
      assert Allowed(servers, steps[n], truth, e);
      if steps[n].Fetch? && steps[n].r.Quorum? {
        var Fetch(_, query, order, swapped, r) := steps[n];
        AdoptedWithinError(servers, query, order, swapped, r, truth, e);
      }
    }
  }

  /**
   Over every run in which no refresh meets two wrong servers and no floor was ahead of the
   truth by more than the error, the trusted time is within `e` plus one second of the truth,
   and never before the floor.
   */
  lemma TrustedTimeIsTrue(servers: seq<string>, steps: seq<Step>, local: int, truth: int, e: nat)
    requires InOrder(steps) && forall i | 0 <= i < |steps| :: Allowed(servers, steps[i], truth, e) && steps[i].local <= local
    requires local + truth >= ZERO_TIME
    ensures var s := Run(START, steps);
            var now := NowAt(s, local);
            && (now.Some? ==> Distance(now.value, local + truth) <= e + 1_000_000_000 && now.value >= s.floor)
            && (FloorAt(s, local) <= MIN_TRUSTED_TIME || FloorAt(s, local) <= local + truth + e + 1_000_000_000)
            && (now.Some? ==> FloorAt(s, local) >= now.value)
  {
    hide Run, Allowed;
    RunSound(servers, steps, local, truth, e);
  }

  /**
   Exactly when the trusted time does not go back across a step: always, except that a quorum
   whose time lies before the one there was, where that is not the floor, takes it back.
   */
  lemma TimeMovesOnExactly(s: State, step: Step, local: int)
    requires local <= step.local && NowAt(s, local).Some? && NowAt(Apply(s, step), step.local).Some?
    ensures NowAt(Apply(s, step), step.local).value >= NowAt(s, local).value
            <==> (step.Fetch? && step.r.Quorum? ==>
                    step.local + step.r.offset >= local + s.offset || local + s.offset <= s.floor)
  {}

  /** In an allowed run it never goes back by more than twice the error. */
  lemma StepsBackAtMost(servers: seq<string>, steps: seq<Step>, step: Step, local: int, truth: int, e: nat)
    requires InOrder(steps + [step]) && local <= step.local && local + truth >= ZERO_TIME
    requires forall i | 0 <= i < |steps| :: Allowed(servers, steps[i], truth, e) && steps[i].local <= local
    requires Allowed(servers, step, truth, e)
    ensures var s, s' := Run(START, steps), Run(START, steps + [step]);
            NowAt(s, local).Some? && NowAt(s', step.local).Some? ==>
              NowAt(s', step.local).value >= NowAt(s, local).value - 2 * (e + 1_000_000_000)
  {
    hide Run, Allowed;
    var longer := steps + [step];
    assert forall i | 0 <= i < |steps| :: longer[i] == steps[i];
    assert longer[|steps|] == step;
    TrustedTimeIsTrue(servers, steps, local, truth, e);
    TrustedTimeIsTrue(servers, longer, step.local, truth, e);
  }

  const TWO := ["a", "b"]

  /** Two servers that both answer with an offset. */
  function Both(offset: int): nat -> Answer { (server: nat) => Answer(offset, 0) }

  function AgreedBy(offset: int): Outcome { Quorum(offset, [Sample("a", offset, 0), Sample("b", offset, 0)]) }

  /** Both servers agree, each time within a second of the truth, and the second time ten nanoseconds lower. */
  function BackwardRun(): seq<Step> {
    [Fetch(0, Both(10), [0, 1], false, AgreedBy(10)), Fetch(5, Both(0), [0, 1], false, AgreedBy(0))]
  }

  lemma BothAgree(local: int, offset: nat)
    requires offset <= 10
    ensures Allowed(TWO, Fetch(local, Both(offset), [0, 1], false, AgreedBy(offset)), 0, 10)
  {
    hide Quo;
    var query, order := Both(offset), [0, 1];
    var samples := FirstTwo(TWO, query, order, false);
    assert samples == [Sample("a", offset, 0), Sample("b", offset, 0)];
    assert Agree(samples[0], samples[1]);
    assert SomeAgree(samples);
    assert Closest(samples, 0, 1);
    MeanOfSame(offset);
  }

  lemma MeanOfSame(a: int)
    ensures Mean(a, a) == a
  {}

  /** A run of honest answers in which a refresh takes the trusted time back. */
  lemma RefreshCanStepBack()
    ensures var steps := BackwardRun();
            && InOrder(steps) && (forall i | 0 <= i < |steps| :: Allowed(TWO, steps[i], 0, 10))
            && NowAt(Run(START, steps[..1]), 4) == Some(14) && NowAt(Run(START, steps), 5) == Some(5)
  {
    hide Allowed;
    BothAgree(0, 10);
    BothAgree(5, 0);
    var steps := BackwardRun();
    assert steps[..1][..0] == [] && steps[..2] == steps;
    assert Run(START, steps[..0]) == START;
    assert Run(START, steps[..1]) == State(true, 10, 0, ZERO_TIME);
    assert Run(START, steps) == State(true, 0, 5, ZERO_TIME);
  }
}
