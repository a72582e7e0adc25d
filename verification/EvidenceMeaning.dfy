/** When the rows a report ships say the same as all the minute rows there are. */
module EvidenceMeaning {
  import opened Intervals
  import opened Model
  import opened Series
  import opened Decimal
  import opened Folding
  import opened Evidence

  /** The rows of one component, in order. */
  function OfComponent(bs: seq<Bucket>, c: string): seq<Bucket> {
    if bs == [] then []
    else
      var front := OfComponent(bs[..|bs| - 1], c);
      if bs[|bs| - 1].component == c then front + [bs[|bs| - 1]] else front
  }

  lemma {:induction false} OfComponentMembers(bs: seq<Bucket>, c: string)
    ensures forall b :: b in OfComponent(bs, c) <==> b in bs && b.component == c
    ensures UniqueKeys(bs) ==> UniqueKeys(OfComponent(bs, c))
  {
    if bs != [] {
      var n := |bs| - 1;
      OfComponentMembers(bs[..n], c);
      assert bs == bs[..n] + [bs[n]];
      if UniqueKeys(bs) && bs[n].component == c {
        NewKey(bs[..n], OfComponent(bs[..n], c), bs[n]);
      }
    }
  }

  // ----- who speaks for a second -----

  ghost predicate MinuteFor(table: seq<Bucket>, c: string, m: string, t: int, b: Bucket) {
    b in table && IsMinute(b) && b.component == c && b.monitor == m && Speaks(b, t)
  }

  ghost predicate HourFor(table: seq<Bucket>, c: string, m: string, t: int, b: Bucket) {
    b in table && IsHour(b) && b.component == c && b.monitor == m && Speaks(b, t)
  }

  ghost function MinuteAt(table: seq<Bucket>, c: string, m: string, t: int): Option<Bucket> {
    if exists b :: MinuteFor(table, c, m, t, b) then
      var b :| MinuteFor(table, c, m, t, b);
      Some(b)
    else None
  }

  ghost function HourAt(table: seq<Bucket>, c: string, m: string, t: int): Option<Bucket> {
    if exists b :: HourFor(table, c, m, t, b) then
      var b :| HourFor(table, c, m, t, b);
      Some(b)
    else None
  }

  lemma OnGrid(t: int, start: int, width: int)
    requires width == WIDTH_MINUTE || width == WIDTH_HOUR
    requires t >= 0 && start % width == 0 && start <= t < start + width
    ensures start == t / width * width
  {}

  /** At most one minute row and one hour row of a monitor speak for a second. */
  lemma OneSpeaker(table: seq<Bucket>, t: int, a: Bucket, b: Bucket)
    requires Stored(table) && t >= 0 && a in table && b in table
    requires a.monitor == b.monitor && a.width == b.width && (IsMinute(a) || IsHour(a))
    requires Speaks(a, t) && Speaks(b, t)
    ensures a == b
  {
    OnGrid(t, a.start, a.width);
    OnGrid(t, b.start, b.width);
    var i :| 0 <= i < |table| && table[i] == a;
    var j :| 0 <= j < |table| && table[j] == b;
  }

  lemma MinuteInHour(t: int, start: int, h: int)
    requires start % WIDTH_MINUTE == 0 && start <= t < start + WIDTH_MINUTE
    requires h % WIDTH_HOUR == 0 && h <= start < h + WIDTH_HOUR
    ensures h <= t < h + WIDTH_HOUR
  {
    assert h % WIDTH_MINUTE == 0 && (start - h) % WIDTH_MINUTE == 0;
  }

  lemma SpeakerHour(table: seq<Bucket>, t: int, b: Bucket)
    requires Stored(table) && t >= 0 && b in table && Speaks(b, t) && (IsMinute(b) || IsHour(b))
    ensures HourOf(t) <= b.start < HourOf(t) + WIDTH_HOUR
    ensures IsHour(b) ==> b.start == HourOf(t)
    ensures forall h | h % WIDTH_HOUR == 0 && h <= b.start < h + WIDTH_HOUR :: h == HourOf(t)
  {
    hide UniqueKeys;
    HourGrid(t);
    StartInHour(t, b.start, b.width);
    forall h | h % WIDTH_HOUR == 0 && h <= b.start < h + WIDTH_HOUR ensures h == HourOf(t) {
      if IsMinute(b) { MinuteInHour(t, b.start, h); }
      OnGrid(t, h, WIDTH_HOUR);
    }
  }

  lemma StartInHour(t: int, start: int, width: int)
    requires width == WIDTH_MINUTE || width == WIDTH_HOUR
    requires t >= 0 && start % width == 0 && start <= t < start + width
    ensures HourOf(t) <= start < HourOf(t) + WIDTH_HOUR
    ensures width == WIDTH_HOUR ==> start == HourOf(t)
  {
    OnGrid(t, start, width);
  }

  /** The row of a selection that decides second `t` of monitor `m`. */
  ghost function SpeakerOf(table: seq<Bucket>, loaded: bool, hours: bool, c: string, m: string, t: int): Option<Bucket> {
    if loaded && MinuteAt(table, c, m, t).Some? then MinuteAt(table, c, m, t)
    else if hours then HourAt(table, c, m, t)
    else None
  }

  /** `rows` holds, around second `t`, the minute rows iff `loaded` and the hour rows iff `hours`. */
  ghost predicate Around(table: seq<Bucket>, rows: seq<Bucket>, loaded: bool, hours: bool, t: int) {
    && UniqueKeys(rows)
    && forall b | Speaks(b, t) ::
         b in rows <==> b in table && ((loaded && IsMinute(b)) || (hours && IsHour(b)))
  }

  lemma Decides(table: seq<Bucket>, rows: seq<Bucket>, loaded: bool, hours: bool, c: string, m: string, t: int)
    requires Stored(table) && t >= 0 && Around(table, rows, loaded, hours, t)
    ensures var own := OfMonitor(OfComponent(rows, c), m);
            var speaker := SpeakerOf(table, loaded, hours, c, m, t);
            && (MonitorObserved(own, t) <==> speaker.Some? && HasReadings(speaker.value))
            && (MonitorDown(own, t) <==> speaker.Some? && HasReadings(speaker.value) && speaker.value.verdict == Down)
  {
    hide Wins, OfMonitor, OfComponent, UniqueKeys, Stored;
    var bs := OfComponent(rows, c);
    var own := OfMonitor(bs, m);
    OfComponentMembers(rows, c);
    OfMonitorMembers(bs, m);
    WinnerLeads(bs, m, t);
    var speaker := SpeakerOf(table, loaded, hours, c, m, t);
    forall b ensures Leads(own, b, t) <==> speaker == Some(b) {
      LeaderIsSpeaker(table, rows, loaded, hours, c, m, t, b);
    }
  }

  lemma LeaderIsSpeaker(table: seq<Bucket>, rows: seq<Bucket>, loaded: bool, hours: bool, c: string, m: string, t: int, b: Bucket)
    requires Stored(table) && t >= 0 && Around(table, rows, loaded, hours, t)
    ensures Leads(OfMonitor(OfComponent(rows, c), m), b, t) <==> SpeakerOf(table, loaded, hours, c, m, t) == Some(b)
  {
    hide OfMonitor, OfComponent, UniqueKeys, Stored;
    var bs := OfComponent(rows, c);
    var own := OfMonitor(bs, m);
    OfComponentMembers(rows, c);
    OfMonitorMembers(bs, m);
    forall x | Speaks(x, t)
      ensures x in own <==> (loaded && MinuteFor(table, c, m, t, x)) || (hours && HourFor(table, c, m, t, x))
    {}
    var minute, hour := MinuteAt(table, c, m, t), HourAt(table, c, m, t);
    forall x ensures MinuteFor(table, c, m, t, x) <==> minute == Some(x) {
      if MinuteFor(table, c, m, t, x) { OneSpeaker(table, t, x, minute.value); }
    }
    forall x ensures HourFor(table, c, m, t, x) <==> hour == Some(x) {
      if HourFor(table, c, m, t, x) { OneSpeaker(table, t, x, hour.value); }
    }
  }

  // ----- the two computations -----

  /** The rows a report ships, and the rows a minute-by-minute computation would use. */
  ghost predicate Shipped(table: seq<Bucket>, from: int, to: int, out: seq<Bucket>) {
    UniqueKeys(out) && forall b :: b in out <==> Selected(table, from, to, b)
  }

  ghost predicate MinuteTable(table: seq<Bucket>, minutes: seq<Bucket>) {
    UniqueKeys(minutes) && forall b :: b in minutes <==> b in table && IsMinute(b)
  }

  lemma ShippedAround(table: seq<Bucket>, from: int, to: int, out: seq<Bucket>, t: int)
    requires Stored(table) && Shipped(table, from, to, out) && 0 <= from <= t < to
    ensures Around(table, out, Interesting(table, from, to, HourOf(t)), true, t)
  {
    hide UniqueKeys;
    forall b | Speaks(b, t)
      ensures b in out <==> b in table && ((Interesting(table, from, to, HourOf(t)) && IsMinute(b)) || IsHour(b))
    {
      if b in table && (IsMinute(b) || IsHour(b)) {
        SpeakerHour(table, t, b);
        HourGrows(from, t);
        if MinuteSelected(table, from, to, b) {
          var h :| Interesting(table, from, to, h) && h <= b.start < h + WIDTH_HOUR;
          InterestingGrid(table, from, to, h);
        }
      }
    }
  }

  lemma HourGrows(a: int, b: int)
    requires 0 <= a <= b
    ensures HourOf(a) <= HourOf(b) <= b
  {}

  lemma InterestingGrid(table: seq<Bucket>, from: int, to: int, h: int)
    requires Stored(table) && Interesting(table, from, to, h)
    ensures h % WIDTH_HOUR == 0
  {
    HourGrid(from);
    HourGrid(to - 1);
  }

  lemma MinutesAround(table: seq<Bucket>, minutes: seq<Bucket>, t: int)
    requires MinuteTable(table, minutes)
    ensures Around(table, minutes, true, false, t)
  {}

  /** At second `t` the shipped rows and the minute rows say the same about one monitor. */
  ghost predicate Agree(out: seq<Bucket>, minutes: seq<Bucket>, c: string, m: string, t: int) {
    var a, b := OfMonitor(OfComponent(out, c), m), OfMonitor(OfComponent(minutes, c), m);
    && (MonitorObserved(a, t) <==> MonitorObserved(b, t))
    && (MonitorDown(a, t) <==> MonitorDown(b, t))
  }

  /**
   The stored rows of second `t` make the selection faithful for a monitor: an hour whose
   minutes are read must not fill seconds that have no minute, and an hour that stands for
   its minutes must be observed exactly where they are, with none of them down.
   */
  ghost predicate Faithful(table: seq<Bucket>, from: int, to: int, c: string, m: string, t: int) {
    var minute, hour := MinuteAt(table, c, m, t), HourAt(table, c, m, t);
    var read := minute.Some? && HasReadings(minute.value);
    if Interesting(table, from, to, HourOf(t)) then
      minute.Some? || hour.None? || !HasReadings(hour.value)
    else if hour.None? then
      !read
    else
      (read <==> HasReadings(hour.value)) && (read ==> minute.value.verdict != Down)
  }

  /** Exactly when the shipped rows say what the minutes say, second by second. */
  lemma FaithfulExactly(table: seq<Bucket>, from: int, to: int, out: seq<Bucket>, minutes: seq<Bucket>, c: string, m: string, t: int)
    requires Stored(table) && Shipped(table, from, to, out) && MinuteTable(table, minutes)
    requires 0 <= from <= t < to
    ensures Agree(out, minutes, c, m, t) <==> Faithful(table, from, to, c, m, t)
  {
    hide Wins, UniqueKeys, OfMonitor, OfComponent, Stored, Shipped, MinuteTable, Around, MinuteAt, MonitorObserved, MonitorDown;
    ShippedAround(table, from, to, out, t);
    MinutesAround(table, minutes, t);
    Decides(table, out, Interesting(table, from, to, HourOf(t)), true, c, m, t);
    Decides(table, minutes, true, false, c, m, t);
    var hour := HourAt(table, c, m, t);
    if hour.Some? && !Interesting(table, from, to, HourOf(t)) {
      CleanHour(table, from, to, c, m, t);
    }
  }

  lemma CleanHour(table: seq<Bucket>, from: int, to: int, c: string, m: string, t: int)
    requires Stored(table) && 0 <= from <= t < to && HourAt(table, c, m, t).Some?
    requires !Interesting(table, from, to, HourOf(t))
    ensures var hour := HourAt(table, c, m, t).value; hour.verdict == Up && hour.errors == 0
  {
    var hour := HourAt(table, c, m, t).value;
    SpeakerHour(table, t, hour);
    HourGrows(from, t);
    assert HourInRange(hour, from, to) && hour.start == HourOf(t);
    assert !Unclean(hour);
  }

  // ----- from monitors to components -----

  lemma ComponentAgrees(rollup: string, out: seq<Bucket>, minutes: seq<Bucket>, c: string, t: int)
    requires forall m :: Agree(out, minutes, c, m, t)
    ensures t in ObservedSet(OfComponent(out, c)) <==> t in ObservedSet(OfComponent(minutes, c))
    ensures t in DownSet(rollup, OfComponent(out, c)) <==> t in DownSet(rollup, OfComponent(minutes, c))
  {
    hide OfComponent, OfMonitor, MonitorObserved, MonitorDown, ObservedSet, DownSet;
    var a, b := OfComponent(out, c), OfComponent(minutes, c);
    InSets(rollup, a, t);
    InSets(rollup, b, t);
    forall m ensures m in SeenAt(a, Ids(a), t) <==> m in SeenAt(b, Ids(b), t)
             ensures m in DownAt(a, Ids(a), t) <==> m in DownAt(b, Ids(b), t)
    {
      assert Agree(out, minutes, c, m, t);
      SeenHasId(a, m, t);
      SeenHasId(b, m, t);
    }
    assert SeenAt(a, Ids(a), t) == SeenAt(b, Ids(b), t);
    assert DownAt(a, Ids(a), t) == DownAt(b, Ids(b), t);
  }

  lemma SeenHasId(bs: seq<Bucket>, m: string, t: int)
    ensures MonitorObserved(OfMonitor(bs, m), t) ==> m in Ids(bs)
    ensures MonitorDown(OfMonitor(bs, m), t) ==> MonitorObserved(OfMonitor(bs, m), t)
  {
    OfMonitorMembers(bs, m);
    if MonitorObserved(OfMonitor(bs, m), t) {
      var i :| Wins(OfMonitor(bs, m), i, t) && HasReadings(OfMonitor(bs, m)[i]);
      assert OfMonitor(bs, m)[i] in bs;
    }
  }

  // ----- the condition under which the claim of the source holds -----

  ghost predicate FoldOf(hour: Bucket, ms: seq<Bucket>) {
    && ms != []
    && (forall b | b in ms :: Counted(b))
    && hour.(latencyP95 := 0) == RowOf(hour.monitor, hour.component, hour.start, WIDTH_HOUR, TallyBuckets(ms))
  }

  /** A minute row of the monitor and the hour of an hour row. */
  predicate InHour(b: Bucket, hour: Bucket) {
    IsMinute(b) && b.monitor == hour.monitor && hour.start <= b.start < hour.start + WIDTH_HOUR
  }

  /** The hour row was folded from a list that holds every minute row stored for its monitor and hour. */
  ghost predicate HourHolds(table: seq<Bucket>, hour: Bucket) {
    exists ms: seq<Bucket> {:trigger FoldOf(hour, ms)} ::
      FoldOf(hour, ms) && forall b | b in table && InHour(b, hour) :: b in ms
  }

  ghost predicate HoursHold(table: seq<Bucket>) { forall h | h in table && IsHour(h) :: HourHolds(table, h) }

  /** The hour row is the fold of all its sixty minute rows, of one component. */
  ghost predicate FullHour(table: seq<Bucket>, hour: Bucket) {
    && HourHolds(table, hour)
    && (forall t | Speaks(hour, t) :: MinuteAt(table, hour.component, hour.monitor, t).Some?)
    && forall b | b in table && InHour(b, hour) :: b.component == hour.component
  }

  /** Every minute row was folded from at least one reading. */
  ghost predicate RealMinutes(table: seq<Bucket>) {
    forall b | b in table && IsMinute(b) :: b.up + b.degraded + b.down + b.errors >= 1
  }

  ghost predicate FullHours(table: seq<Bucket>) {
    forall b | b in table && IsHour(b) :: FullHour(table, b)
  }

  /** Every hour strictly inside the period that holds minute rows has its hour row. */
  ghost predicate HoursPresent(table: seq<Bucket>, from: int, to: int) {
    forall b | b in table && IsMinute(b) && HourOf(from) < HourOf(b.start) < HourOf(to - 1) ::
      exists h :: h in table && IsHour(h) && h.monitor == b.monitor && h.start == HourOf(b.start)
  }

  lemma FullIsFaithful(table: seq<Bucket>, from: int, to: int, c: string, m: string, t: int)
    requires Stored(table) && RealMinutes(table) && FullHours(table) && HoursPresent(table, from, to)
    requires 0 <= from <= t < to
    ensures Faithful(table, from, to, c, m, t)
  {
    hide UniqueKeys, TallyBuckets;
    var minute, hour := MinuteAt(table, c, m, t), HourAt(table, c, m, t);
    if hour.Some? {
      FullHourFaithful(table, from, to, c, m, t);
    } else if minute.Some? && !Interesting(table, from, to, HourOf(t)) {
      if HourOf(from) < HourOf(t) < HourOf(to - 1) {
        PresentHour(table, from, to, c, m, t);
      }
      HourGrows(from, t);
      HourGrows(t, to - 1);
    }
  }

  lemma FullHourFaithful(table: seq<Bucket>, from: int, to: int, c: string, m: string, t: int)
    requires Stored(table) && RealMinutes(table) && FullHours(table) && 0 <= from <= t < to
    requires HourAt(table, c, m, t).Some?
    ensures Faithful(table, from, to, c, m, t)
  {
    hide UniqueKeys, TallyBuckets, Interesting;
    var hr := HourAt(table, c, m, t).value;
    assert FullHour(table, hr) && MinuteAt(table, c, m, t).Some?;
    if !Interesting(table, from, to, HourOf(t)) {
      var minute := MinuteAt(table, c, m, t).value;
      CleanHour(table, from, to, c, m, t);
      SpeakerHour(table, t, hr);
      SpeakerHour(table, t, minute);
      var ms: seq<Bucket> :| FoldOf(hr, ms) && forall b | b in table && InHour(b, hr) :: b in ms;
      CleanMinutes(hr, ms, minute);
    }
  }

  lemma CleanMinutes(hr: Bucket, ms: seq<Bucket>, b: Bucket)
    requires FoldOf(hr, ms) && b in ms && hr.verdict == Up && hr.errors == 0
    requires b.up + b.degraded + b.down + b.errors >= 1
    ensures HasReadings(hr) && HasReadings(b) && b.verdict != Down
  {
    hide TallyBuckets;
    HourTally(ms);
  }

  lemma PresentHour(table: seq<Bucket>, from: int, to: int, c: string, m: string, t: int)
    requires Stored(table) && FullHours(table) && HoursPresent(table, from, to) && 0 <= from <= t < to
    requires MinuteAt(table, c, m, t).Some? && HourOf(from) < HourOf(t) < HourOf(to - 1)
    ensures HourAt(table, c, m, t).Some?
  {
    hide UniqueKeys;
    var b := MinuteAt(table, c, m, t).value;
    SpeakerHour(table, t, b);
    HourGrid(t);
    OnGrid(b.start, HourOf(t), WIDTH_HOUR);
    var h :| h in table && IsHour(h) && h.monitor == b.monitor && h.start == HourOf(b.start);
    SpeaksHour(h, t);
    assert FullHour(table, h);
    assert b.component == h.component;
    assert HourFor(table, c, m, t, h);
  }

  lemma SpeaksHour(h: Bucket, t: int)
    requires t >= 0 && IsHour(h) && h.start == HourOf(t)
    ensures Speaks(h, t)
  {
    assert t == WIDTH_HOUR * (t / WIDTH_HOUR) + t % WIDTH_HOUR;
  }

  /**
   Evidence selection preserves meaning: over the period, every component is down and
   observed at the same seconds as a minute-by-minute computation says, under every rollup.
   */
  lemma SelectionPreserves(table: seq<Bucket>, from: int, to: int, out: seq<Bucket>, minutes: seq<Bucket>, c: string, rollup: string)
    requires Stored(table) && RealMinutes(table) && FullHours(table) && HoursPresent(table, from, to)
    requires Shipped(table, from, to, out) && MinuteTable(table, minutes) && 0 <= from < to
    ensures forall t | from <= t < to ::
              && (t in ObservedSet(OfComponent(out, c)) <==> t in ObservedSet(OfComponent(minutes, c)))
              && (t in DownSet(rollup, OfComponent(out, c)) <==> t in DownSet(rollup, OfComponent(minutes, c)))
  {
    hide *;
    forall t | from <= t < to
      ensures t in ObservedSet(OfComponent(out, c)) <==> t in ObservedSet(OfComponent(minutes, c))
      ensures t in DownSet(rollup, OfComponent(out, c)) <==> t in DownSet(rollup, OfComponent(minutes, c))
    {
      forall m ensures Agree(out, minutes, c, m, t) {
        FullIsFaithful(table, from, to, c, m, t);
        FaithfulExactly(table, from, to, out, minutes, c, m, t);
      }
      ComponentAgrees(rollup, out, minutes, c, t);
    }
  }

  // ----- down minutes are never lost, exactly when their hour is read -----

  /** A minute that reads as down and touches the period. */
  ghost predicate DownMinute(table: seq<Bucket>, from: int, to: int, c: string, b: Bucket) {
    && b in table && IsMinute(b) && b.component == c && HasReadings(b) && b.verdict == Down
    && b.start < to && from < b.start + b.width
  }

  lemma AnyDown(bs: seq<Bucket>, t: int)
    ensures t in DownSet(ROLLUP_ANY, bs) <==> exists m :: MonitorDown(OfMonitor(bs, m), t)
  {
    hide MonitorDown, MonitorObserved, OfMonitor, DownSet, ObservedSet;
    InSets(ROLLUP_ANY, bs, t);
    if m :| MonitorDown(OfMonitor(bs, m), t) {
      SeenHasId(bs, m, t);
      assert m in DownAt(bs, Ids(bs), t) && m in SeenAt(bs, Ids(bs), t);
    }
    if t in DownSet(ROLLUP_ANY, bs) {
      var m := Pick(DownAt(bs, Ids(bs), t));
      assert MonitorDown(OfMonitor(bs, m), t);
    }
  }

  /**
   Under rollup `any`, no second a minute row shows as down is missing from the selected
   result if and only if every down minute of the period lies in an hour whose minutes are read.
   */
  lemma NoDownLostExactly(table: seq<Bucket>, from: int, to: int, out: seq<Bucket>, minutes: seq<Bucket>, c: string)
    requires Stored(table) && Shipped(table, from, to, out) && MinuteTable(table, minutes) && 0 <= from < to
    ensures (forall t | from <= t < to && t in DownSet(ROLLUP_ANY, OfComponent(minutes, c)) ::
               t in DownSet(ROLLUP_ANY, OfComponent(out, c)))
            <==> (forall b | DownMinute(table, from, to, c, b) ::
                    Interesting(table, from, to, HourOf(MaxOf(b.start, from))))
  {
    hide *;
    var read := forall b | DownMinute(table, from, to, c, b) ::
                  Interesting(table, from, to, HourOf(MaxOf(b.start, from)));
    if read {
      forall t | from <= t < to && t in DownSet(ROLLUP_ANY, OfComponent(minutes, c))
        ensures t in DownSet(ROLLUP_ANY, OfComponent(out, c))
      {
        DownKept(table, from, to, out, minutes, c, t);
      }
    } else {
      var b :| DownMinute(table, from, to, c, b) && !Interesting(table, from, to, HourOf(MaxOf(b.start, from)));
      DownLost(table, from, to, out, minutes, c, b);
    }
  }

  lemma MinuteHour(table: seq<Bucket>, from: int, to: int, c: string, b: Bucket, t: int)
    requires Stored(table) && 0 <= from && DownMinute(table, from, to, c, b) && from <= t < to && Speaks(b, t)
    ensures HourOf(MaxOf(b.start, from)) == HourOf(t)
    ensures MinuteAt(table, c, b.monitor, t) == Some(b)
  {
    var s := MaxOf(b.start, from);
    SpeakerHour(table, t, b);
    SpeakerHour(table, s, b);
    HourGrid(t);
    assert MinuteFor(table, c, b.monitor, t, b);
    OneSpeaker(table, t, b, MinuteAt(table, c, b.monitor, t).value);
  }

  lemma DownKept(table: seq<Bucket>, from: int, to: int, out: seq<Bucket>, minutes: seq<Bucket>, c: string, t: int)
    requires Stored(table) && Shipped(table, from, to, out) && MinuteTable(table, minutes) && 0 <= from <= t < to
    requires forall b | DownMinute(table, from, to, c, b) :: Interesting(table, from, to, HourOf(MaxOf(b.start, from)))
    requires t in DownSet(ROLLUP_ANY, OfComponent(minutes, c))
    ensures t in DownSet(ROLLUP_ANY, OfComponent(out, c))
  {
    hide UniqueKeys, Stored, Shipped, MinuteTable, Around, DownSet, OfComponent, OfMonitor, Interesting, MonitorDown, MonitorObserved;
    AnyDown(OfComponent(minutes, c), t);
    var m :| MonitorDown(OfMonitor(OfComponent(minutes, c), m), t);
    MinutesAround(table, minutes, t);
    Decides(table, minutes, true, false, c, m, t);
    var b := MinuteAt(table, c, m, t).value;
    assert DownMinute(table, from, to, c, b);
    MinuteHour(table, from, to, c, b, t);
    ShippedAround(table, from, to, out, t);
    Decides(table, out, true, true, c, m, t);
    AnyDown(OfComponent(out, c), t);
  }

  lemma DownLost(table: seq<Bucket>, from: int, to: int, out: seq<Bucket>, minutes: seq<Bucket>, c: string, b: Bucket)
    requires Stored(table) && Shipped(table, from, to, out) && MinuteTable(table, minutes) && 0 <= from < to
    requires DownMinute(table, from, to, c, b) && !Interesting(table, from, to, HourOf(MaxOf(b.start, from)))
    ensures exists t :: from <= t < to && t in DownSet(ROLLUP_ANY, OfComponent(minutes, c))
                        && t !in DownSet(ROLLUP_ANY, OfComponent(out, c))
  {
    hide UniqueKeys, Stored, Shipped, MinuteTable, Around, DownSet, OfComponent, OfMonitor, Interesting, MonitorDown, MonitorObserved;
    var t := MaxOf(b.start, from);
    assert Speaks(b, t);
    MinuteHour(table, from, to, c, b, t);
    MinutesAround(table, minutes, t);
    Decides(table, minutes, true, false, c, b.monitor, t);
    AnyDown(OfComponent(minutes, c), t);
    ShippedAround(table, from, to, out, t);
    forall m ensures !MonitorDown(OfMonitor(OfComponent(out, c), m), t) {
      Decides(table, out, false, true, c, m, t);
      if HourAt(table, c, m, t).Some? { CleanHour(table, from, to, c, m, t); }
    }
    AnyDown(OfComponent(out, c), t);
  }

  // ----- no down minute is lost when the hours hold their minutes -----

  /** Under rollup `any`, the period has every down second of the minute rows, however few minutes an hour has. */
  lemma NoDownLost(table: seq<Bucket>, from: int, to: int, out: seq<Bucket>, minutes: seq<Bucket>, c: string)
    requires Stored(table) && Shipped(table, from, to, out) && MinuteTable(table, minutes) && 0 <= from < to
    requires HoursHold(table) && HoursPresent(table, from, to)
    ensures forall t | from <= t < to && t in DownSet(ROLLUP_ANY, OfComponent(minutes, c)) ::
              t in DownSet(ROLLUP_ANY, OfComponent(out, c))
  {
    hide *;
    forall b | DownMinute(table, from, to, c, b) ensures Interesting(table, from, to, HourOf(MaxOf(b.start, from))) {
      DownIsRead(table, from, to, c, b);
    }
    NoDownLostExactly(table, from, to, out, minutes, c);
  }

  /** A down minute makes its hour unclean, so its minutes are read. */
  lemma DownIsRead(table: seq<Bucket>, from: int, to: int, c: string, b: Bucket)
    requires Stored(table) && HoursHold(table) && HoursPresent(table, from, to) && 0 <= from < to
    requires DownMinute(table, from, to, c, b)
    ensures Interesting(table, from, to, HourOf(MaxOf(b.start, from)))
  {
    hide UniqueKeys, TallyBuckets;
    var h := HourOf(MaxOf(b.start, from));
    HourGrows(from, MaxOf(b.start, from));
    HourGrows(MaxOf(b.start, from), to - 1);
    if HourOf(from) < h < HourOf(to - 1) {
      var hour :| hour in table && IsHour(hour) && hour.monitor == b.monitor && hour.start == HourOf(b.start);
      assert HourHolds(table, hour);
      var ms: seq<Bucket> :| FoldOf(hour, ms) && forall x | x in table && InHour(x, hour) :: x in ms;
      SpeaksHour(hour, b.start);
      DownHour(hour, ms, b);
      assert HourInRange(hour, from, to);
    }
  }

  lemma DownHour(hour: Bucket, ms: seq<Bucket>, b: Bucket)
    requires FoldOf(hour, ms) && b in ms && b.verdict == Down
    ensures Unclean(hour)
  {
    hide TallyBuckets;
    HourTally(ms);
  }
}
