/**
 Coupled token buckets: internal/clock/ratelimit.go.

 Time is real, in minutes. A bucket never used has no time. The classes are the source's two
 structs; `Limits` and `Admit` say what a call does, and the bounds are proved of runs of calls.
 */
module RateLimit {
  import opened Model

  // ----- what a call does -----

  datatype Level = Level(tokens: real, at: Option<real>)
  datatype Limits = Limits(all: Level, keys: map<string, Level>)
  datatype Rates = Rates(perKey: real, global: real)
  datatype Call = Call(key: string, now: real)

  const FRESH := Level(0.0, None)

  function Least(a: real, b: real): real { if a > b then b else a }

  /** A bucket brought up to `now`: full when new, and never past its capacity. */
  function Refill(b: Level, capacity: real, now: real): Level {
    if b.at.None? then Level(capacity, Some(now))
    else if now > b.at.value then Level(Least(b.tokens + capacity * (now - b.at.value), capacity), Some(now))
    else Level(b.tokens, Some(now))
  }

  function Spend(b: Level): Level { b.(tokens := b.tokens - 1.0) }

  function KeyLevel(s: Limits, key: string): Level { if key in s.keys then s.keys[key] else FRESH }

  function Admit(s: Limits, rates: Rates, c: Call): (bool, Limits) {
    var own := Refill(KeyLevel(s, c.key), rates.perKey, c.now);
    var all := Refill(s.all, rates.global, c.now);
    if own.tokens < 1.0 then (false, Limits(s.all, s.keys[c.key := own]))
    else if all.tokens < 1.0 then (false, Limits(all, s.keys[c.key := own]))
    else (true, Limits(Spend(all), s.keys[c.key := Spend(own)]))
  }

  // ----- the source's objects -----

  class Bucket {
    var tokens: real
    var at: Option<real>

    ghost function View(): Level reads this { Level(tokens, at) }

    constructor ()
      ensures View() == FRESH
    {
      tokens, at := 0.0, None;
    }

    /** Brings the bucket up to now and answers whether it holds a token, which goes if it is to be spent. */
    method Take(capacity: real, now: real, spend: bool) returns (ok: bool)
      modifies this
      ensures var r := Refill(old(View()), capacity, now);
              && ok == (r.tokens >= 1.0)
              && View() == if ok && spend then Spend(r) else r
    {
      if at.None? {
        tokens := capacity;
      } else if now - at.value > 0.0 {
        tokens := tokens + capacity * (now - at.value);
        if tokens > capacity {
          tokens := capacity;
        }
      }
      at := Some(now);
      if tokens < 1.0 {
        return false;
      }
      if spend {
        tokens := tokens - 1.0;
      }
      return true;
    }
  }

  class RateLimiter {
    const rates: Rates
    var all: Bucket
    var keys: map<string, Bucket>

    ghost predicate Valid()
      reads this
    {
      && (forall k | k in keys :: keys[k] != all)
      && (forall k, k' | k in keys && k' in keys && k != k' :: keys[k] != keys[k'])
    }

    ghost function Buckets(): set<Bucket> reads this { {all} + keys.Values }

    ghost function View(): Limits
      reads this, Buckets()
    {
      Limits(all.View(), map k | k in keys :: keys[k].View())
    }

    constructor (perKey: nat, global: nat)
      ensures Valid() && rates == Rates(perKey as real, global as real)
      ensures View() == Limits(FRESH, map[])
      ensures fresh(Buckets())
    {
      rates := Rates(perKey as real, global as real);
      all := new Bucket();
      keys := map[];
    }

    /** The key's own bucket, made on first use. */
    method Own(key: string) returns (b: Bucket)
      requires Valid()
      modifies this`keys
      ensures Valid() && fresh(Buckets() - old(Buckets()))
      ensures key in keys && keys[key] == b
      ensures View() == Limits(old(View()).all, old(View()).keys[key := KeyLevel(old(View()), key)])
    {
      if key !in keys {
        b := new Bucket();
        keys := keys[key := b];
      } else {
        b := keys[key];
      }
      assert View().keys == old(View()).keys[key := KeyLevel(old(View()), key)];
    }

    twostate lemma OnlyOwn(key: string)
      requires Valid() && key in keys
      requires unchanged(this) && forall o: Bucket | o in Buckets() && o != keys[key] :: unchanged(o)
      requires forall o: Bucket | o in Buckets() :: old(allocated(o))
      ensures View() == Limits(old(View()).all, old(View()).keys[key := keys[key].View()])
    {
      assert all in Buckets() && keys[key] in keys.Values;
      forall k | k in keys && k != key ensures keys[k].View() == old(keys[k].View()) {
        assert keys[k] in keys.Values;
      }
      assert View().keys == old(View()).keys[key := keys[key].View()];
    }

    twostate lemma OnlyShared()
      requires Valid()
      requires unchanged(this) && forall o: Bucket | o in Buckets() && o != all :: unchanged(o)
      requires forall o: Bucket | o in Buckets() :: old(allocated(o))
      ensures View() == Limits(all.View(), old(View()).keys)
    {
      forall k | k in keys ensures keys[k].View() == old(keys[k].View()) {
        assert keys[k] in keys.Values && keys[k] in Buckets();
      }
      assert View().keys == old(View()).keys;
    }

    /** Whether one more event for the key is admitted; a refusal by either bucket spends nothing. */
    method Allow(key: string, now: real) returns (ok: bool)
      requires Valid()
      modifies this, Buckets()
      ensures Valid() && fresh(Buckets() - old(Buckets()))
      ensures (ok, View()) == Admit(old(View()), rates, Call(key, now))
    {
      hide Refill, RateLimiter.View;
      var b := Own(key);
      var own := TakeOwn(key, now, false);
      assert View().keys == old(View()).keys[key := View().keys[key]];
      if !own {
        return false;
      }
      var shared := TakeShared(now, false);
      if !shared {
        return false;
      }
      RefilledTwiceAt(old(KeyLevel(View(), key)), rates.perKey, now);
      RefilledTwiceAt(old(View().all), rates.global, now);
      own := TakeOwn(key, now, true);
      assert View().keys == old(View()).keys[key := View().keys[key]];
      shared := TakeShared(now, true);
      return true;
    }

    /** The key's bucket takes; no other bucket changes. */
    method TakeOwn(key: string, now: real, spend: bool) returns (ok: bool)
      requires Valid() && key in keys
      modifies Buckets()
      ensures Valid() && Buckets() == old(Buckets())
      ensures var r := Refill(old(View()).keys[key], rates.perKey, now);
              && ok == (r.tokens >= 1.0)
              && View() == Limits(old(View()).all, old(View()).keys[key := if ok && spend then Spend(r) else r])
    {
      hide Refill;
      assert keys[key] in keys.Values;
      ok := keys[key].Take(rates.perKey, now, spend);
      OnlyOwn(key);
    }

    method TakeShared(now: real, spend: bool) returns (ok: bool)
      requires Valid()
      modifies Buckets()
      ensures Valid() && Buckets() == old(Buckets())
      ensures var r := Refill(old(View()).all, rates.global, now);
              && ok == (r.tokens >= 1.0)
              && View() == Limits(if ok && spend then Spend(r) else r, old(View()).keys)
    {
      hide Refill;
      assert all in Buckets();
      ok := all.Take(rates.global, now, spend);
      OnlyShared();
    }
  }

  lemma RefilledTwiceAt(b: Level, capacity: real, now: real)
    ensures Refill(Refill(b, capacity, now), capacity, now) == Refill(b, capacity, now)
  {}

  // ----- runs of calls -----

  /** Which bucket is meant: one key's, or the shared one. */
  datatype Who = Key(key: string) | All

  function LevelOf(s: Limits, who: Who): Level { if who.All? then s.all else KeyLevel(s, who.key) }

  function Capacity(rates: Rates, who: Who): real { if who.All? then rates.global else rates.perKey }

  predicate Concerns(who: Who, c: Call) { who.All? || who.key == c.key }

  function After(s: Limits, rates: Rates, calls: seq<Call>): Limits {
    if calls == [] then s
    else Admit(After(s, rates, calls[..|calls| - 1]), rates, calls[|calls| - 1]).1
  }

  /** Whether the last of the calls is admitted. */
  predicate Passed(s: Limits, rates: Rates, calls: seq<Call>)
    requires calls != []
  {
    Admit(After(s, rates, calls[..|calls| - 1]), rates, calls[|calls| - 1]).0
  }

  /** How many of the calls from `from` on were admitted, for one key or in all. */
  function Admissions(s: Limits, rates: Rates, calls: seq<Call>, from: nat, who: Who): nat {
    if |calls| <= from then 0
    else
      Admissions(s, rates, calls[..|calls| - 1], from, who)
      + if Concerns(who, calls[|calls| - 1]) && Passed(s, rates, calls) then 1 else 0
  }

  predicate InOrder(calls: seq<Call>) { forall i, j | 0 <= i < j < |calls| :: calls[i].now <= calls[j].now }

  predicate Positive(rates: Rates) { rates.perKey >= 0.0 && rates.global >= 0.0 }

  /** The level lies within the capacity, and was last touched by `until`. */
  predicate Within(b: Level, capacity: real, until: real) {
    0.0 <= b.tokens && (b.at.Some? ==> b.tokens <= capacity && b.at.value <= until) && (b.at.None? ==> b.tokens == 0.0)
  }

  predicate Sane(s: Limits, rates: Rates, until: real) {
    && Within(s.all, rates.global, until)
    && forall k | k in s.keys :: Within(s.keys[k], rates.perKey, until)
  }

  lemma RefillWithin(b: Level, capacity: real, until: real, now: real)
    requires capacity >= 0.0 && Within(b, capacity, until) && until <= now
    ensures Within(Refill(b, capacity, now), capacity, now)
  {
    if b.at.Some? && now > b.at.value { FlowsIn(capacity, b.at.value, now); }
  }

  /** Every bucket always holds between nothing and its capacity. */
  lemma {:induction false} TokensWithinCapacity(rates: Rates, calls: seq<Call>, until: real)
    requires Positive(rates) && InOrder(calls)
    requires calls != [] ==> calls[|calls| - 1].now <= until
    ensures Sane(After(Limits(FRESH, map[]), rates, calls), rates, until)
  {
    hide Refill;
    if calls != [] {
      var c := calls[|calls| - 1];
      var s := After(Limits(FRESH, map[]), rates, calls[..|calls| - 1]);
      TokensWithinCapacity(rates, calls[..|calls| - 1], c.now);
      RefillWithin(s.all, rates.global, c.now, c.now);
      RefillWithin(KeyLevel(s, c.key), rates.perKey, c.now, c.now);
    }
  }

  /** A bucket that was used since `t0` has, with what was spent, no more than flowed in. */
  predicate Accounted(b: Level, capacity: real, t0: real, spent: nat) {
    if b.at.None? || b.at.value < t0 then spent == 0
    else b.tokens + spent as real <= capacity + capacity * (b.at.value - t0)
  }

  lemma RefillAccounted(b: Level, capacity: real, t0: real, spent: nat, now: real)
    requires capacity >= 0.0 && t0 <= now && Within(b, capacity, now) && Accounted(b, capacity, t0, spent)
    ensures Accounted(Refill(b, capacity, now), capacity, t0, spent)
  {
    FlowsIn(capacity, t0, now);
    if b.at.Some? && b.at.value >= t0 {
      Flows(capacity, t0, b.at.value, now);
    }
  }

  lemma FlowsIn(capacity: real, from: real, end: real)
    requires capacity >= 0.0 && from <= end
    ensures capacity * (end - from) >= 0.0
  {}

  /** What flows into a bucket over a time flows in over its parts. */
  lemma Flows(capacity: real, from: real, mid: real, end: real)
    ensures capacity * (end - from) == capacity * (end - mid) + capacity * (mid - from)
  {
    assert end - from == (end - mid) + (mid - from);
  }

  lemma RefilledAt(b: Level, capacity: real, now: real)
    ensures Refill(b, capacity, now).at == Some(now)
  {}

  /** What one call does to one bucket: nothing, a refill, or a refill and a spend. */
  lemma StepLevel(s: Limits, rates: Rates, c: Call, who: Who)
    ensures var before, after := LevelOf(s, who), LevelOf(Admit(s, rates, c).1, who);
            var r := Refill(before, Capacity(rates, who), c.now);
            if Admit(s, rates, c).0 && Concerns(who, c) then after == Spend(r) else after == before || after == r
  {
    hide Refill;
  }

  lemma {:induction false} RunAccounted(rates: Rates, calls: seq<Call>, from: nat, who: Who)
    requires Positive(rates) && InOrder(calls) && from < |calls|
    ensures Accounted(LevelOf(After(Limits(FRESH, map[]), rates, calls), who), Capacity(rates, who), calls[from].now,
                      Admissions(Limits(FRESH, map[]), rates, calls, from, who))
  {
    hide Refill, Accounted, Within, Admit, LevelOf, Sane;
    var start, n := Limits(FRESH, map[]), |calls| - 1;
    var s, c := After(start, rates, calls[..n]), calls[n];
    var t0 := calls[from].now;
    TokensWithinCapacity(rates, calls[..n], c.now);
    WithinOf(s, rates, c.now, who);
    StepLevel(s, rates, c, who);
    if from < n {
      RunAccounted(rates, calls[..n], from, who);
    } else {
      NothingSpent(LevelOf(s, who), Capacity(rates, who), t0, c.now);
    }
    RefillAccounted(LevelOf(s, who), Capacity(rates, who), t0, Admissions(start, rates, calls[..n], from, who), c.now);
    RefilledAt(LevelOf(s, who), Capacity(rates, who), c.now);
    SpendAccounted(Refill(LevelOf(s, who), Capacity(rates, who), c.now), Capacity(rates, who), t0,
                   Admissions(start, rates, calls[..n], from, who), c.now);
  }

  lemma WithinOf(s: Limits, rates: Rates, until: real, who: Who)
    requires Sane(s, rates, until)
    ensures Within(LevelOf(s, who), Capacity(rates, who), until)
  {}

  lemma NothingSpent(b: Level, capacity: real, t0: real, until: real)
    requires Within(b, capacity, until) && until <= t0
    ensures Accounted(b, capacity, t0, 0)
  {}

  lemma SpendAccounted(b: Level, capacity: real, t0: real, spent: nat, now: real)
    requires Accounted(b, capacity, t0, spent) && b.at == Some(now) && t0 <= now
    ensures Accounted(Spend(b), capacity, t0, spent + 1)
  {}

  /**
   The bound, over every run: in any stretch of the run, for one key and in all, the calls
   admitted are at most the capacity times one plus the length of the stretch in minutes.
   */
  lemma WindowBound(rates: Rates, calls: seq<Call>, from: nat, who: Who)
    requires Positive(rates) && InOrder(calls) && from < |calls|
    ensures Admissions(Limits(FRESH, map[]), rates, calls, from, who) as real
            <= Capacity(rates, who) * (1.0 + (calls[|calls| - 1].now - calls[from].now))
  {
    hide After, Admissions;
    var start, last := Limits(FRESH, map[]), calls[|calls| - 1].now;
    RunAccounted(rates, calls, from, who);
    TokensWithinCapacity(rates, calls, last);
    WithinOf(After(start, rates, calls), rates, last, who);
    Bounded(LevelOf(After(start, rates, calls), who), Capacity(rates, who), calls[from].now,
            Admissions(start, rates, calls, from, who), last);
  }

  lemma Bounded(b: Level, capacity: real, t0: real, spent: nat, last: real)
    requires capacity >= 0.0 && t0 <= last && Within(b, capacity, last) && Accounted(b, capacity, t0, spent)
    ensures spent as real <= capacity * (1.0 + (last - t0))
  {
    assert capacity * (1.0 + (last - t0)) == capacity + capacity * (last - t0);
    FlowsIn(capacity, t0, last);
    if b.at.Some? && b.at.value >= t0 {
      Flows(capacity, t0, b.at.value, last);
      FlowsIn(capacity, b.at.value, last);
    }
  }

  // ----- a call is refused only when it would break the bound -----

  /** Since the bucket was last full, at call `from`, what flowed in is what it holds and what was spent. */
  predicate FullAt(b: Level, capacity: real, t0: real, spent: nat) {
    b.at.Some? && b.tokens + spent as real == capacity + capacity * (b.at.value - t0)
  }

  ghost predicate Balanced(s: Limits, rates: Rates, calls: seq<Call>, who: Who) {
    LevelOf(s, who) != FRESH ==>
      exists from: nat :: from < |calls|
        && FullAt(LevelOf(s, who), Capacity(rates, who), calls[from].now, Admissions(Limits(FRESH, map[]), rates, calls, from, who))
  }

  lemma RefillFull(b: Level, capacity: real, t0: real, spent: nat, now: real)
    requires FullAt(b, capacity, t0, spent) && b.at.value <= now
    ensures var r := Refill(b, capacity, now); FullAt(r, capacity, t0, spent) || r == Level(capacity, Some(now))
  {
    Flows(capacity, t0, b.at.value, now);
  }

  lemma FullNow(capacity: real, now: real)
    ensures FullAt(Level(capacity, Some(now)), capacity, now, 0)
  {}

  lemma SpendFull(b: Level, capacity: real, t0: real, spent: nat)
    requires FullAt(b, capacity, t0, spent)
    ensures FullAt(Spend(b), capacity, t0, spent + 1)
  {}

  /** What the level refilled for the last call says about the calls before it. */
  lemma RefilledBalance(rates: Rates, calls: seq<Call>, who: Who) returns (from: nat)
    requires Positive(rates) && InOrder(calls) && calls != []
    requires Balanced(After(Limits(FRESH, map[]), rates, calls[..|calls| - 1]), rates, calls[..|calls| - 1], who)
    ensures var start, n := Limits(FRESH, map[]), |calls| - 1;
            var r := Refill(LevelOf(After(start, rates, calls[..n]), who), Capacity(rates, who), calls[n].now);
            from < |calls| && FullAt(r, Capacity(rates, who), calls[from].now, Admissions(start, rates, calls[..n], from, who))
  {
    hide Refill, FullAt, Admissions, After, LevelOf, Within, Sane;
    var start, n := Limits(FRESH, map[]), |calls| - 1;
    var b, capacity, now := LevelOf(After(start, rates, calls[..n]), who), Capacity(rates, who), calls[n].now;
    NoneYet(start, rates, calls[..n], who);
    FullNow(capacity, now);
    from := n;
    if b == FRESH {
      RefillFresh(capacity, now);
    } else {
      var f: nat :| f < n && FullAt(b, capacity, calls[..n][f].now, Admissions(start, rates, calls[..n], f, who));
      TokensWithinCapacity(rates, calls[..n], now);
      WithinOf(After(start, rates, calls[..n]), rates, now, who);
      TouchedBy(b, capacity, calls[..n][f].now, Admissions(start, rates, calls[..n], f, who), now);
      RefillFull(b, capacity, calls[..n][f].now, Admissions(start, rates, calls[..n], f, who), now);
      if Refill(b, capacity, now) != Level(capacity, Some(now)) {
        from := f;
      }
    }
  }

  lemma TouchedBy(b: Level, capacity: real, t0: real, spent: nat, now: real)
    requires FullAt(b, capacity, t0, spent) && Within(b, capacity, now)
    ensures b.at.value <= now
  {}

  lemma RefillFresh(capacity: real, now: real)
    ensures Refill(FRESH, capacity, now) == Level(capacity, Some(now))
  {}

  lemma NoneYet(s: Limits, rates: Rates, calls: seq<Call>, who: Who)
    ensures Admissions(s, rates, calls, |calls|, who) == 0
  {}

  lemma {:induction false} AlwaysBalanced(rates: Rates, calls: seq<Call>, who: Who)
    requires Positive(rates) && InOrder(calls)
    ensures Balanced(After(Limits(FRESH, map[]), rates, calls), rates, calls, who)
  {
    hide Refill, FullAt, Admit, LevelOf;
    var start := Limits(FRESH, map[]);
    if calls == [] {
      StartsFresh(who);
    } else {
      var n := |calls| - 1;
      var s, c := After(start, rates, calls[..n]), calls[n];
      AlwaysBalanced(rates, calls[..n], who);
      var from := RefilledBalance(rates, calls, who);
      StepLevel(s, rates, c, who);
      var r, capacity := Refill(LevelOf(s, who), Capacity(rates, who), c.now), Capacity(rates, who);
      SpendFull(r, capacity, calls[from].now, Admissions(start, rates, calls[..n], from, who));
      var after := LevelOf(After(start, rates, calls), who);
      if !(Admit(s, rates, c).0 && Concerns(who, c)) && after != r && after != FRESH {
        var f: nat :| f < n && FullAt(LevelOf(s, who), capacity, calls[..n][f].now, Admissions(start, rates, calls[..n], f, who));
        assert Admissions(start, rates, calls, f, who) == Admissions(start, rates, calls[..n], f, who);
      }
    }
  }

  lemma StartsFresh(who: Who)
    ensures LevelOf(Limits(FRESH, map[]), who) == FRESH
  {}

  /** Admitting one more call after these would exceed the bound of the stretch from `from`. */
  predicate Exceeds(rates: Rates, calls: seq<Call>, from: nat, who: Who)
    requires from < |calls|
  {
    (Admissions(Limits(FRESH, map[]), rates, calls[..|calls| - 1], from, who) + 1) as real
    > Capacity(rates, who) * (1.0 + (calls[|calls| - 1].now - calls[from].now))
  }

  /** A call is refused exactly when admitting it would break the bound, for its key or in all, over some stretch. */
  lemma RefusedExactly(rates: Rates, calls: seq<Call>)
    requires Positive(rates) && InOrder(calls) && calls != []
    ensures !Passed(Limits(FRESH, map[]), rates, calls)
            <==> exists from: nat, who :: from < |calls| && (who == All || who == Key(calls[|calls| - 1].key)) && Exceeds(rates, calls, from, who)
  {
    hide After, Admissions, Exceeds, Refill, LevelOf, FullAt;
    var start, n := Limits(FRESH, map[]), |calls| - 1;
    var s, c := After(start, rates, calls[..n]), calls[n];
    if Passed(start, rates, calls) {
      forall from: nat, who | from < |calls| && (who == All || who == Key(c.key)) ensures !Exceeds(rates, calls, from, who) {
        WindowBound(rates, calls, from, who);
        CountedToo(start, rates, calls, from, who);
        NotExceeded(rates, calls, from, who);
      }
    } else {
      var who := TooFew(s, rates, c);
      AlwaysBalanced(rates, calls[..n], who);
      var from := RefilledBalance(rates, calls, who);
      RefilledAt(LevelOf(s, who), Capacity(rates, who), c.now);
      Exceeded(rates, calls, from, who);
    }
  }

  /** The bucket that refuses. */
  lemma TooFew(s: Limits, rates: Rates, c: Call) returns (who: Who)
    requires !Admit(s, rates, c).0
    ensures (who == All || who == Key(c.key)) && Refill(LevelOf(s, who), Capacity(rates, who), c.now).tokens < 1.0
  {
    hide Refill;
    who := if Refill(KeyLevel(s, c.key), rates.perKey, c.now).tokens < 1.0 then Key(c.key) else All;
  }

  lemma CountedToo(s: Limits, rates: Rates, calls: seq<Call>, from: nat, who: Who)
    requires from < |calls| && Passed(s, rates, calls) && Concerns(who, calls[|calls| - 1])
    ensures Admissions(s, rates, calls, from, who) == Admissions(s, rates, calls[..|calls| - 1], from, who) + 1
  {}

  lemma NotExceeded(rates: Rates, calls: seq<Call>, from: nat, who: Who)
    requires from < |calls|
    requires var start := Limits(FRESH, map[]);
             && Admissions(start, rates, calls, from, who) == Admissions(start, rates, calls[..|calls| - 1], from, who) + 1
             && Admissions(start, rates, calls, from, who) as real
                <= Capacity(rates, who) * (1.0 + (calls[|calls| - 1].now - calls[from].now))
    ensures !Exceeds(rates, calls, from, who)
  {
    hide Admissions;
  }

  lemma Spread(capacity: real, d: real)
    ensures capacity * (1.0 + d) == capacity + capacity * d
  {}

  lemma Exceeded(rates: Rates, calls: seq<Call>, from: nat, who: Who)
    requires from < |calls|
    requires var start, n := Limits(FRESH, map[]), |calls| - 1;
             var r := Refill(LevelOf(After(start, rates, calls[..n]), who), Capacity(rates, who), calls[n].now);
             && r.tokens < 1.0 && r.at == Some(calls[n].now)
             && FullAt(r, Capacity(rates, who), calls[from].now, Admissions(start, rates, calls[..n], from, who))
    ensures Exceeds(rates, calls, from, who)
  {
    hide Admissions, Refill, LevelOf, After;
    var start, n := Limits(FRESH, map[]), |calls| - 1;
    var capacity, d := Capacity(rates, who), calls[n].now - calls[from].now;
    var spent := Admissions(start, rates, calls[..n], from, who);
    var r := Refill(LevelOf(After(start, rates, calls[..n]), who), capacity, calls[n].now);
    Spread(capacity, d);
    assert r.tokens + spent as real == capacity + capacity * d;
    assert (spent + 1) as real == spent as real + 1.0;
  }

  // ----- a refused call leaves no trace -----

  /** Two states no call from `t` on can tell apart. */
  ghost predicate Alike(a: Limits, b: Limits, rates: Rates, t: real) {
    forall who, now | now >= t ::
      Refill(LevelOf(a, who), Capacity(rates, who), now) == Refill(LevelOf(b, who), Capacity(rates, who), now)
  }

  lemma RefillTwice(b: Level, capacity: real, t: real, now: real)
    requires capacity >= 0.0 && Within(b, capacity, t) && t <= now
    ensures Refill(Refill(b, capacity, t), capacity, now) == Refill(b, capacity, now)
  {
    var later := capacity * (now - t);
    FlowsIn(capacity, t, now);
    if b.at.None? {
      assert Refill(Refill(b, capacity, t), capacity, now).tokens == capacity;
    } else if b.at.value < t < now {
      var first := capacity * (t - b.at.value);
      FlowsIn(capacity, b.at.value, t);
      Flows(capacity, b.at.value, t, now);
      assert Refill(b, capacity, t).tokens == Least(b.tokens + first, capacity);
      assert Refill(b, capacity, now).tokens == Least(b.tokens + (later + first), capacity);
    }
  }

  lemma RefusedAlike(s: Limits, rates: Rates, c: Call)
    requires Positive(rates) && Sane(s, rates, c.now) && !Admit(s, rates, c).0
    ensures Alike(Admit(s, rates, c).1, s, rates, c.now)
  {
    hide *;
    var s' := Admit(s, rates, c).1;
    forall who, now: real | now >= c.now
      ensures Refill(LevelOf(s', who), Capacity(rates, who), now) == Refill(LevelOf(s, who), Capacity(rates, who), now)
    {
      RefusedAt(s, rates, c, who, now);
    }
    MakeAlike(s', s, rates, c.now);
  }

  lemma MakeAlike(a: Limits, b: Limits, rates: Rates, t: real)
    requires forall who, now: real | now >= t ::
      Refill(LevelOf(a, who), Capacity(rates, who), now) == Refill(LevelOf(b, who), Capacity(rates, who), now)
    ensures Alike(a, b, rates, t)
  {
    hide Refill, LevelOf;
  }

  lemma RefusedAt(s: Limits, rates: Rates, c: Call, who: Who, now: real)
    requires Positive(rates) && Sane(s, rates, c.now) && !Admit(s, rates, c).0 && now >= c.now
    ensures Refill(LevelOf(Admit(s, rates, c).1, who), Capacity(rates, who), now)
         == Refill(LevelOf(s, who), Capacity(rates, who), now)
  {
    hide Refill, Within, LevelOf, Sane;
    WithinOf(s, rates, c.now, who);
    RefusedLevel(s, rates, c, who);
    RefillTwice(LevelOf(s, who), Capacity(rates, who), c.now, now);
  }

  lemma RefusedLevel(s: Limits, rates: Rates, c: Call, who: Who)
    requires !Admit(s, rates, c).0
    ensures var level := LevelOf(Admit(s, rates, c).1, who);
            level == LevelOf(s, who) || level == Refill(LevelOf(s, who), Capacity(rates, who), c.now)
  {
    hide Refill;
  }

  lemma AdmitAlike(a: Limits, b: Limits, rates: Rates, t: real, c: Call)
    requires Positive(rates) && Alike(a, b, rates, t) && t <= c.now && Sane(a, rates, c.now) && Sane(b, rates, c.now)
    ensures Admit(a, rates, c).0 == Admit(b, rates, c).0
    ensures Alike(Admit(a, rates, c).1, Admit(b, rates, c).1, rates, c.now)
  {
    hide Refill, Sane, Within;
    var a', b' := Admit(a, rates, c).1, Admit(b, rates, c).1;
    assert LevelOf(a, All) == a.all && LevelOf(b, All) == b.all;
    assert Refill(a.all, Capacity(rates, All), c.now) == Refill(b.all, Capacity(rates, All), c.now);
    assert LevelOf(a, Key(c.key)) == KeyLevel(a, c.key) && LevelOf(b, Key(c.key)) == KeyLevel(b, c.key);
    assert Refill(KeyLevel(a, c.key), Capacity(rates, Key(c.key)), c.now)
        == Refill(KeyLevel(b, c.key), Capacity(rates, Key(c.key)), c.now);
    forall who, now | now >= c.now
      ensures Refill(LevelOf(a', who), Capacity(rates, who), now) == Refill(LevelOf(b', who), Capacity(rates, who), now)
    {
      assert LevelOf(a', who) == LevelOf(b', who)
          || (LevelOf(a', who) == LevelOf(a, who) && LevelOf(b', who) == LevelOf(b, who));
    }
  }

  lemma AdmitSane(s: Limits, rates: Rates, until: real, c: Call)
    requires Positive(rates) && Sane(s, rates, until) && until <= c.now
    ensures Sane(Admit(s, rates, c).1, rates, c.now)
  {
    hide Refill;
    RefillWithin(s.all, rates.global, until, c.now);
    RefillWithin(KeyLevel(s, c.key), rates.perKey, until, c.now);
  }

  lemma {:induction false} RunAlike(a: Limits, b: Limits, rates: Rates, t: real, calls: seq<Call>)
    requires Positive(rates) && Alike(a, b, rates, t) && Sane(a, rates, t) && Sane(b, rates, t)
    requires InOrder(calls) && forall c | c in calls :: t <= c.now
    ensures var until := if calls == [] then t else calls[|calls| - 1].now;
            && Alike(After(a, rates, calls), After(b, rates, calls), rates, until)
            && Sane(After(a, rates, calls), rates, until) && Sane(After(b, rates, calls), rates, until)
    ensures calls != [] ==> Passed(a, rates, calls) == Passed(b, rates, calls)
  {
    hide Alike, Sane, Admit;
    if calls != [] {
      var n := |calls| - 1;
      var front, c := calls[..n], calls[n];
      RunAlike(a, b, rates, t, front);
      var until := if front == [] then t else front[|front| - 1].now;
      assert until <= c.now;
      SaneLater(After(a, rates, front), rates, until, c.now);
      SaneLater(After(b, rates, front), rates, until, c.now);
      AdmitAlike(After(a, rates, front), After(b, rates, front), rates, until, c);
      AdmitSane(After(a, rates, front), rates, until, c);
      AdmitSane(After(b, rates, front), rates, until, c);
    }
  }

  lemma SaneLater(s: Limits, rates: Rates, t: real, t': real)
    requires Sane(s, rates, t) && t <= t'
    ensures Sane(s, rates, t')
  {}

  /** A refused call changes no later decision: the run goes on as if it had not been made. */
  lemma RefusalLeavesNoTrace(rates: Rates, before: seq<Call>, c: Call, later: seq<Call>)
    requires Positive(rates) && InOrder(before + [c] + later) && later != []
    requires !Passed(Limits(FRESH, map[]), rates, before + [c])
    ensures var s := After(Limits(FRESH, map[]), rates, before);
            Passed(Admit(s, rates, c).1, rates, later) == Passed(s, rates, later)
  {
    hide Alike, Admit, Refill, Sane;
    var all := before + [c] + later;
    assert forall i | 0 <= i < |before| :: before[i] == all[i];
    assert all[|before|] == c;
    assert forall i | 0 <= i < |later| :: later[i] == all[|before| + 1 + i];
    var s := After(Limits(FRESH, map[]), rates, before);
    assert (before + [c])[..|before|] == before;
    TokensWithinCapacity(rates, before, c.now);
    RefusedAlike(s, rates, c);
    AdmitSane(s, rates, c.now, c);
    RunAlike(Admit(s, rates, c).1, s, rates, c.now, later);
  }
}
