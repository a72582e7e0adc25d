/**
 Checkpoints and their keyspace: `issueCheckpoint`, `readCheckpoints` and `checkpointKey` of
 internal/core/anchors.go.

 The store keeps its entries in key order. Checkpoints are one range of keys; what lies outside
 it is of no interest here. Signing is left out: a checkpoint is what is signed.
 */
module Anchors {
  import opened Bytes
  import opened Model

  /** The ledger's lineage head: an ideal hash of the head before, the root before and the version. */
  datatype Head = Origin(id: nat) | Link(prev: Head, root: string, version: nat)

  datatype Ref = Ref(version: nat, root: string)
  datatype Checkpoint = Checkpoint(version: nat, root: string, head: Head, previous: Option<Ref>)

  const PREFIX: byte := 75 // 'K'
  const PAGE := 256
  const MAX_VERSION := 0x1_0000_0000_0000_0000

  function Key(version: nat): Bytes { [PREFIX] + BigEndian(version, 8) }

  const FIRST_KEY: Bytes := [PREFIX]
  const PAST_KEYS: Bytes := [PREFIX + 1]

  predicate InRange(k: Bytes) { !Below(k, FIRST_KEY) && Below(k, PAST_KEYS) }

  lemma InRangeExactly(k: Bytes)
    ensures InRange(k) <==> k != [] && k[0] == PREFIX
  {
    assert FIRST_KEY[1..] == [] && PAST_KEYS[1..] == [];
    if k != [] { assert !Below(k[1..], []); }
  }

  lemma KeyOrder(v: nat, w: nat)
    requires v < MAX_VERSION && w < MAX_VERSION
    ensures Below(Key(v), Key(w)) <==> v < w
    ensures Key(v) == Key(w) ==> v == w
    ensures InRange(Key(v))
  {
    EightBytes();
    BigEndianOrder(v, w, 8);
    BelowPrefix([PREFIX], BigEndian(v, 8), BigEndian(w, 8));
    InRangeExactly(Key(v));
    if Key(v) == Key(w) { assert Key(v)[1..] == BigEndian(v, 8) && Key(w)[1..] == BigEndian(w, 8); }
  }

  // ----- the store -----

  datatype Entry = Entry(key: Bytes, value: Checkpoint)

  ghost predicate Ordered(s: seq<Entry>) { forall i, j | 0 <= i < j < |s| :: Below(s[i].key, s[j].key) }

  function Put(s: seq<Entry>, e: Entry): seq<Entry> {
    if s == [] then [e]
    else if s[0].key == e.key then [e] + s[1..]
    else if Below(e.key, s[0].key) then [e] + s
    else [s[0]] + Put(s[1..], e)
  }

  /** The first entries with a key from `start` up to `end`, at most `limit` of them. */
  function Scan(s: seq<Entry>, start: Bytes, end: Bytes, limit: nat): seq<Entry> {
    if s == [] || limit == 0 then []
    else if Below(s[0].key, start) then Scan(s[1..], start, end, limit)
    else if !Below(s[0].key, end) then []
    else [s[0]] + Scan(s[1..], start, end, limit - 1)
  }

  /** The checkpoints with a key from `start` on, in key order. */
  function From(s: seq<Entry>, start: Bytes): seq<Checkpoint> {
    if s == [] then []
    else (if InRange(s[0].key) && !Below(s[0].key, start) then [s[0].value] else []) + From(s[1..], start)
  }

  function Values(s: seq<Entry>): seq<Checkpoint> { seq(|s|, i requires 0 <= i < |s| => s[i].value) }

  /** The checkpoint chain a store holds. */
  function Held(s: seq<Entry>): seq<Checkpoint> { From(s, FIRST_KEY) }

  lemma {:induction false} NoneInRange(s: seq<Entry>, start: Bytes)
    requires Ordered(s) && s != [] && !Below(s[0].key, PAST_KEYS)
    ensures From(s, start) == []
  {
    if |s| > 1 {
      assert Below(s[0].key, s[1].key);
      if Below(s[1].key, PAST_KEYS) {
        BelowTransitive(s[0].key, s[1].key, PAST_KEYS);
      }
      NoneInRange(s[1..], start);
    }
  }

  /** Nothing before both bounds: they ask for the same entries. */
  lemma {:induction false} SameFrom(s: seq<Entry>, a: Bytes, b: Bytes)
    requires forall i | 0 <= i < |s| :: !Below(s[i].key, a) && !Below(s[i].key, b)
    ensures From(s, a) == From(s, b)
  {
    if s != [] { SameFrom(s[1..], a, b); }
  }

  lemma AllAbove(s: seq<Entry>, start: Bytes)
    requires Ordered(s) && s != [] && !Below(s[0].key, start)
    ensures forall i | 0 <= i < |s[1..]| :: !Below(s[1..][i].key, start) && !Below(s[1..][i].key, s[0].key + [0])
  {
    forall i | 0 < i < |s| ensures !Below(s[i].key, start) && !Below(s[i].key, s[0].key + [0]) {
      assert Below(s[0].key, s[i].key);
      if Below(s[i].key, start) { BelowTransitive(s[0].key, s[i].key, start); }
      NextKey(s[0].key, s[i].key);
      BelowTotal(s[0].key, s[i].key);
    }
  }

  lemma {:induction false} ScanBounds(s: seq<Entry>, start: Bytes, end: Bytes, limit: nat)
    ensures |Scan(s, start, end, limit)| <= limit
    ensures forall e | e in Scan(s, start, end, limit) :: e in s && !Below(e.key, start) && Below(e.key, end)
  {
    if s != [] && limit > 0 {
      if Below(s[0].key, start) { ScanBounds(s[1..], start, end, limit); }
      else if Below(s[0].key, end) { ScanBounds(s[1..], start, end, limit - 1); }
    }
  }

  /** A page and what comes after its last key make up what was left to read. */
  lemma {:induction false} PageAdvances(s: seq<Entry>, start: Bytes, limit: nat)
    requires Ordered(s) && limit > 0 && !Below(start, FIRST_KEY)
    ensures var page := Scan(s, start, PAST_KEYS, limit);
            if page == [] then From(s, start) == []
            else From(s, start) == Values(page) + From(s, page[|page| - 1].key + [0])
    decreases |s|, 1
  {
    if s != [] {
      hide *;
      var page := Scan(s, start, PAST_KEYS, limit);
      var first := s[0];
      Tail(s);
      if Below(first.key, start) {
        PageAdvances(s[1..], start, limit);
        SkipFirst(s, start, limit);
      } else if !Below(first.key, PAST_KEYS) {
        NoneInRange(s, start);
        PastEnd(s, start, limit);
      } else {
        FirstTaken(s, start, limit);
      }
    } else {
      NothingLeft(start, limit);
    }
  }

  lemma SkipFirst(s: seq<Entry>, start: Bytes, limit: nat)
    requires s != [] && Below(s[0].key, start) && limit > 0
    ensures var page := Scan(s, start, PAST_KEYS, limit);
            && page == Scan(s[1..], start, PAST_KEYS, limit) && From(s, start) == From(s[1..], start)
            && (page != [] ==> From(s, page[|page| - 1].key + [0]) == From(s[1..], page[|page| - 1].key + [0]))
  {
    hide *;
    var page := Scan(s, start, PAST_KEYS, limit);
    Skipped(s, start, limit);
    ScanBounds(s[1..], start, PAST_KEYS, limit);
    if page != [] {
      var last := page[|page| - 1].key;
      assert page[|page| - 1] in page;
      StillBelow(s[0].key, start, last);
      Skipped(s, last + [0], limit);
    }
  }

  lemma NothingLeft(start: Bytes, limit: nat)
    ensures From([], start) == [] && Scan([], start, PAST_KEYS, limit) == []
  {}

  lemma Tail(s: seq<Entry>)
    requires Ordered(s) && s != []
    ensures Ordered(s[1..])
  {}

  lemma Skipped(s: seq<Entry>, start: Bytes, limit: nat)
    requires s != [] && Below(s[0].key, start) && limit > 0
    ensures From(s, start) == From(s[1..], start) && Scan(s, start, PAST_KEYS, limit) == Scan(s[1..], start, PAST_KEYS, limit)
  {
    hide Below, InRange;
  }

  lemma PastEnd(s: seq<Entry>, start: Bytes, limit: nat)
    requires s != [] && !Below(s[0].key, start) && !Below(s[0].key, PAST_KEYS)
    ensures Scan(s, start, PAST_KEYS, limit) == []
  {
    hide Below;
  }

  lemma Taken(s: seq<Entry>, start: Bytes, limit: nat)
    requires s != [] && !Below(s[0].key, start) && InRange(s[0].key) && Below(s[0].key, PAST_KEYS) && limit > 0
    ensures From(s, start) == [s[0].value] + From(s[1..], start)
    ensures Scan(s, start, PAST_KEYS, limit) == [s[0]] + Scan(s[1..], start, PAST_KEYS, limit - 1)
  {
    hide Below, InRange;
  }

  lemma StillBelow(k: Bytes, start: Bytes, last: Bytes)
    requires Below(k, start) && !Below(last, start)
    ensures Below(k, last + [0])
  {
    BelowTotal(start, last);
    if start != last { BelowTransitive(k, start, last); }
    NextKey(last, k);
  }

  lemma {:induction false} FirstTaken(s: seq<Entry>, start: Bytes, limit: nat)
    requires Ordered(s) && s != [] && limit > 0 && !Below(start, FIRST_KEY)
    requires !Below(s[0].key, start) && Below(s[0].key, PAST_KEYS)
    ensures var page := Scan(s, start, PAST_KEYS, limit);
            page != [] && From(s, start) == Values(page) + From(s, page[|page| - 1].key + [0])
    decreases |s|, 0
  {
    hide *;
    var first, page, rest := s[0], Scan(s, start, PAST_KEYS, limit), Scan(s[1..], start, PAST_KEYS, limit - 1);
    InRangeFrom(first.key, start);
    AllAbove(s, start);
    Tail(s);
    NextKey(first.key, first.key);
    SameFrom(s[1..], start, first.key + [0]);
    Taken(s, start, limit);
    assert page == [first] + rest;
    if limit > 1 { PageAdvances(s[1..], start, limit - 1); } else { NoRoom(s[1..], start); }
    if rest == [] {
      OneValue(first);
      Skipped(s, first.key + [0], limit);
      assert page == [first];
    } else {
      ScanBounds(s[1..], start, PAST_KEYS, limit - 1);
      var last := rest[|rest| - 1];
      assert last in rest;
      FirstIsBelow(s, last);
      NextKey(last.key, first.key);
      MoreValues(first, rest);
      assert page[|page| - 1] == last;
      Skipped(s, last.key + [0], limit);
      Grouped([first.value], Values(rest), From(s[1..], last.key + [0]));
    }
  }

  lemma Grouped(a: seq<Checkpoint>, b: seq<Checkpoint>, c: seq<Checkpoint>)
    ensures a + (b + c) == (a + b) + c
  {}

  lemma NoRoom(s: seq<Entry>, start: Bytes)
    ensures Scan(s, start, PAST_KEYS, 0) == []
  {}

  lemma OneValue(e: Entry)
    ensures Values([e]) == [e.value]
  {}

  lemma MoreValues(e: Entry, rest: seq<Entry>)
    ensures Values([e] + rest) == [e.value] + Values(rest)
  {}

  lemma FirstIsBelow(s: seq<Entry>, e: Entry)
    requires Ordered(s) && s != [] && e in s[1..]
    ensures Below(s[0].key, e.key)
  {
    var i :| 0 <= i < |s[1..]| && s[1..][i] == e;
    assert Below(s[0].key, s[i + 1].key);
  }

  lemma InRangeFrom(k: Bytes, start: Bytes)
    requires !Below(k, start) && !Below(start, FIRST_KEY) && Below(k, PAST_KEYS)
    ensures InRange(k)
  {
    if Below(k, FIRST_KEY) {
      BelowTotal(start, FIRST_KEY);
      if start != FIRST_KEY { BelowTransitive(k, FIRST_KEY, start); }
    }
  }

  // ----- issuing -----

  predicate LinkedTo(prev: Checkpoint, cur: Checkpoint) { cur.previous == Some(Ref(prev.version, prev.root)) }

  /** A chain as it is issued: versions rise, the first names none, each names the one before it. */
  ghost predicate Issued(chain: seq<Checkpoint>) {
    && (forall i, j | 0 <= i < j < |chain| :: chain[i].version < chain[j].version)
    && (chain != [] ==> chain[0].previous == None)
    && forall i | 0 < i < |chain| :: LinkedTo(chain[i - 1], chain[i])
  }

  /** The chain after a checkpoint is asked for: unchanged when the state has not moved. */
  function Issue(chain: seq<Checkpoint>, root: string, version: nat, head: Head): seq<Checkpoint> {
    if chain != [] && chain[|chain| - 1].version == version then chain
    else
      chain + [Checkpoint(version, root, head,
        if chain == [] then None else Some(Ref(chain[|chain| - 1].version, chain[|chain| - 1].root)))]
  }

  /** Every checkpoint sits under its own key, and none is of a later state. */
  ghost predicate Filed(s: seq<Entry>, version: nat) {
    && Ordered(s) && version < MAX_VERSION
    && forall i | 0 <= i < |s| && InRange(s[i].key) :: s[i].value.version <= version && s[i].key == Key(s[i].value.version)
  }

  /** A checkpoint later than all there are is filed after them. */
  lemma {:induction false} PutLatest(s: seq<Entry>, cp: Checkpoint)
    requires Filed(s, cp.version) && forall i | 0 <= i < |s| && InRange(s[i].key) :: s[i].value.version < cp.version
    ensures Held(Put(s, Entry(Key(cp.version), cp))) == Held(s) + [cp]
    ensures Filed(Put(s, Entry(Key(cp.version), cp)), cp.version)
    ensures forall k | k in Put(s, Entry(Key(cp.version), cp)) :: k in s || k == Entry(Key(cp.version), cp)
  {
    hide Key, InRange, Below;
    var e := Entry(Key(cp.version), cp);
    KeyOrder(cp.version, cp.version);
    NotBelowFirst(e.key);
    if s == [] {
      assert Put(s, e)[1..] == [];
    } else {
      var first := s[0];
      if InRange(first.key) { KeyOrder(first.value.version, cp.version); }
      BelowTotal(first.key, e.key);
      NotBelowFirst(first.key);
      if Below(e.key, first.key) {
        PastTheChain(s, e.key);
        PutBefore(s, e);
        HeldCons(e, s);
        assert [] + [cp] == [cp] + [];
      } else {
        assert first.key != e.key;
        var rest := Put(s[1..], e);
        PutLatest(s[1..], cp);
        PutAfter(first, s, rest, e);
        HeldCons(first, rest);
        HeldCons(first, s[1..]);
        assert s == [first] + s[1..];
      }
    }
  }

  lemma HeldCons(e: Entry, s: seq<Entry>)
    ensures Held([e] + s) == (if InRange(e.key) then [e.value] else []) + Held(s)
  {
    hide InRange;
    NotBelowFirst(e.key);
    assert ([e] + s)[1..] == s;
  }

  lemma NotBelowFirst(k: Bytes)
    ensures InRange(k) ==> !Below(k, FIRST_KEY)
  {}

  lemma PutBefore(s: seq<Entry>, e: Entry)
    requires Ordered(s) && s != [] && Below(e.key, s[0].key)
    ensures Ordered([e] + s)
  {
    forall i | 0 <= i < |s| ensures Below(e.key, s[i].key) {
      if i > 0 { BelowTransitive(e.key, s[0].key, s[i].key); }
    }
  }

  lemma PutAfter(first: Entry, s: seq<Entry>, rest: seq<Entry>, e: Entry)
    requires Ordered(s) && s != [] && s[0] == first && Ordered(rest) && Below(first.key, e.key)
    requires forall k | k in rest :: k in s[1..] || k == e
    ensures Ordered([first] + rest)
  {
    forall i | 0 <= i < |rest| ensures Below(first.key, rest[i].key) {
      assert rest[i] in rest;
      if rest[i] != e {
        var j :| 0 <= j < |s[1..]| && s[1..][j] == rest[i];
        assert Below(s[0].key, s[j + 1].key);
      }
    }
  }

  /** What lies after a checkpoint's key, and is not a checkpoint, ends the range. */
  lemma PastTheChain(s: seq<Entry>, k: Bytes)
    requires Ordered(s) && s != [] && Below(k, s[0].key) && InRange(k) && !InRange(s[0].key)
    ensures Held(s) == []
  {
    if Below(s[0].key, FIRST_KEY) { BelowTransitive(k, s[0].key, FIRST_KEY); }
    NoneInRange(s, FIRST_KEY);
  }

  lemma IssueKeepsChain(chain: seq<Checkpoint>, root: string, version: nat, head: Head)
    requires Issued(chain) && forall i | 0 <= i < |chain| :: chain[i].version <= version
    ensures Issued(Issue(chain, root, version, head))
    ensures forall cp | cp in Issue(chain, root, version, head) :: cp in chain || cp == Checkpoint(version, root, head, cp.previous)
  {}

  // ----- the ledger's checkpoints -----

  method ReverseList(out: array<Checkpoint>)
    modifies out
    ensures out[..] == Reversed(old(out[..]))
  {
    var i, j := 0, out.Length - 1;
    while i < j
      invariant 0 <= i <= out.Length && j == out.Length - 1 - i
      invariant forall k | 0 <= k < i || j < k < out.Length :: out[k] == old(out[out.Length - 1 - k])
      invariant forall k | i <= k <= j :: out[k] == old(out[k])
      decreases j - i
    {
      out[i], out[j] := out[j], out[i];
      i, j := i + 1, j - 1;
    }
    assert forall k | 0 <= k < out.Length :: out[k] == old(out[out.Length - 1 - k]);
  }

  function Reversed<T>(s: seq<T>): (r: seq<T>)
    ensures |r| == |s|
  {
    seq(|s|, i requires 0 <= i < |s| => s[|s| - 1 - i])
  }

  function Limited<T>(s: seq<T>, limit: int): seq<T> { if 0 < limit < |s| then s[..limit] else s }

  lemma PageShrinks(s: seq<Entry>, start: Bytes, page: seq<Entry>)
    requires page != [] ==> From(s, start) == Values(page) + From(s, page[|page| - 1].key + [0])
    ensures page != [] ==> |From(s, page[|page| - 1].key + [0])| < |From(s, start)|
  {
    hide From;
  }

  method WithPage(read: seq<Checkpoint>, page: seq<Entry>) returns (out: seq<Checkpoint>)
    ensures out == read + Values(page)
  {
    out := read;
    for i := 0 to |page|
      invariant out == read + Values(page)[..i]
    {
      out := out + [page[i].value];
    }
  }

  class Ledger {
    var entries: seq<Entry>
    var root: string
    var version: nat
    var head: Head

    ghost predicate Valid()
      reads this
    {
      Filed(entries, version) && Issued(Held(entries))
    }

    constructor (entries: seq<Entry>, root: string, head: Head)
      requires Ordered(entries) && forall i | 0 <= i < |entries| :: !InRange(entries[i].key)
      ensures Valid() && Held(this.entries) == [] && version == 0
    {
      this.entries, this.root, this.version, this.head := entries, root, 0, head;
      NoCheckpoints(entries);
    }

    /** A committed change moves the state, and its lineage with it. */
    method Advance(root': string)
      requires Valid() && version + 1 < MAX_VERSION
      modifies this
      ensures Valid() && version == old(version) + 1 && root == root' && Held(entries) == old(Held(entries))
      ensures head == Link(old(head), old(root), version)
    {
      version := version + 1;
      head := Link(head, root, version);
      root := root';
    }

    /** Scans the keyspace page by page; the next page starts just after the last key of this one. */
    method ReadPages() returns (out: seq<Checkpoint>)
      requires Valid()
      ensures out == Held(entries)
    {
      hide Filed, Issued, From, Scan, Below, Values, Ordered;
      OrderedEntries(entries, version);
      var start := FIRST_KEY;
      out := [];
      BelowTotal(FIRST_KEY, FIRST_KEY);
      while true
        invariant !Below(start, FIRST_KEY)
        invariant out + From(entries, start) == Held(entries)
        decreases |From(entries, start)|
      {
        var page := Scan(entries, start, PAST_KEYS, PAGE);
        PageAdvances(entries, start, PAGE);
        PageShrinks(entries, start, page);
        if |page| == 0 {
          break;
        }
        ScanBounds(entries, start, PAST_KEYS, PAGE);
        Grouped(out, Values(page), From(entries, page[|page| - 1].key + [0]));
        out := WithPage(out, page);
        var last := page[|page| - 1].key;
        assert page[|page| - 1] in page;
        NextStart(start, last);
        start := last + [0];
      }
    }

    /** Reads the chain, oldest or newest first. */
    method ReadCheckpoints(limit: int, newestFirst: bool) returns (out: seq<Checkpoint>)
      requires Valid()
      ensures out == Limited(if newestFirst then Reversed(Held(entries)) else Held(entries), limit)
    {
      hide From, Filed, Issued;
      out := ReadPages();
      if newestFirst {
        var list := new Checkpoint[|out|](i requires 0 <= i < |out| => out[i]);
        assert list[..] == out;
        ReverseList(list);
        out := list[..];
      }
      if limit > 0 && |out| > limit {
        out := out[..limit];
      }
    }

    /** Records the current state's checkpoint, unless the latest one is of this very state. */
    method IssueCheckpoint() returns (issued: Option<Checkpoint>)
      requires Valid()
      modifies this`entries
      ensures Valid()
      ensures Held(entries) == Issue(old(Held(entries)), root, version, head)
      ensures issued == if Held(entries) == old(Held(entries)) then None else Some(Held(entries)[|Held(entries)| - 1])
    {
      hide Filed, Issued, From, Put;
      ghost var chain := Held(entries);
      var latest := ReadCheckpoints(1, true);
      LatestOf(chain, latest);
      HeldVersions(entries, version);
      IssueKeepsChain(chain, root, version, head);
      if |latest| > 0 && latest[0].version == version {
        return None;
      }
      var previous := if |latest| == 0 then None else Some(Ref(latest[0].version, latest[0].root));
      var cp := Checkpoint(version, root, head, previous);
      AllEarlier(entries, version);
      PutLatest(entries, cp);
      entries := Put(entries, Entry(Key(version), cp));
      return Some(cp);
    }
  }

  lemma {:induction false} NoCheckpoints(s: seq<Entry>)
    requires forall i | 0 <= i < |s| :: !InRange(s[i].key)
    ensures Held(s) == []
  {
    hide InRange;
    if s != [] { NoCheckpoints(s[1..]); }
  }

  lemma OrderedEntries(s: seq<Entry>, version: nat)
    requires Filed(s, version)
    ensures Ordered(s)
  {}

  lemma NextStart(start: Bytes, last: Bytes)
    requires !Below(start, FIRST_KEY) && !Below(last, start)
    ensures !Below(last + [0], FIRST_KEY)
  {
    BelowTotal(start, last);
    NextKey(last, last);
    if Below(last + [0], FIRST_KEY) {
      BelowTransitive(last, last + [0], FIRST_KEY);
      if start != last { BelowTransitive(start, last, FIRST_KEY); }
    }
  }

  lemma LatestOf(chain: seq<Checkpoint>, latest: seq<Checkpoint>)
    requires latest == Limited(Reversed(chain), 1)
    ensures if chain == [] then latest == [] else latest == [chain[|chain| - 1]]
  {}

  lemma {:induction false} HeldIn(s: seq<Entry>, cp: Checkpoint)
    requires cp in Held(s)
    ensures exists i :: 0 <= i < |s| && InRange(s[i].key) && s[i].value == cp
  {
    hide InRange;
    if s != [] {
      if cp in Held(s[1..]) {
        HeldIn(s[1..], cp);
        var i :| 0 <= i < |s[1..]| && InRange(s[1..][i].key) && s[1..][i].value == cp;
        assert s[i + 1] == s[1..][i];
      } else {
        assert InRange(s[0].key) && s[0].value == cp;
      }
    }
  }

  lemma {:induction false} FiledIsHeld(s: seq<Entry>, i: nat)
    requires i < |s| && InRange(s[i].key)
    ensures s[i].value in Held(s)
  {
    if i > 0 { FiledIsHeld(s[1..], i - 1); }
  }

  lemma HeldVersions(s: seq<Entry>, version: nat)
    requires Filed(s, version)
    ensures forall i | 0 <= i < |Held(s)| :: Held(s)[i].version <= version
  {
    hide From, InRange;
    forall i | 0 <= i < |Held(s)| ensures Held(s)[i].version <= version { HeldIn(s, Held(s)[i]); }
  }

  lemma AllEarlier(s: seq<Entry>, version: nat)
    requires Filed(s, version) && Issued(Held(s))
    requires Held(s) != [] ==> Held(s)[|Held(s)| - 1].version != version
    ensures forall i | 0 <= i < |s| && InRange(s[i].key) :: s[i].value.version < version
  {
    hide From, InRange;
    var chain := Held(s);
    HeldVersions(s, version);
    forall i | 0 <= i < |s| && InRange(s[i].key) ensures s[i].value.version < version {
      FiledIsHeld(s, i);
      var k :| 0 <= k < |chain| && chain[k] == s[i].value;
      assert k < |chain| - 1 ==> chain[k].version < chain[|chain| - 1].version;
    }
  }
}
