/**
 What an auditor's tool establishes about checkpoints: the link check of `verifyChain` and the
 fold of `verifyLineage` in cmd/monitor-verify/main.go. Signatures and hex are left out.
 */
module Chain {
  import opened Anchors
  import opened Model
  import opened Sorting

  // ----- runs of the ledger -----

  datatype State = State(chain: seq<Checkpoint>, root: string, version: nat, head: Head)
  datatype Step = Commit(root: string) | Request

  function Apply(s: State, step: Step): State {
    match step
    case Commit(root) => State(s.chain, root, s.version + 1, Link(s.head, s.root, s.version + 1))
    case Request => s.(chain := Issue(s.chain, s.root, s.version, s.head))
  }

  function Run(s: State, steps: seq<Step>): State {
    if steps == [] then s else Apply(Run(s, steps[..|steps| - 1]), steps[|steps| - 1])
  }

  /** Whatever is committed and whenever a checkpoint is asked for, the chain stays a chain. */
  lemma {:induction false} RunKeepsChain(root: string, head: Head, steps: seq<Step>)
    ensures var s := Run(State([], root, 0, head), steps);
            Issued(s.chain) && forall i | 0 <= i < |s.chain| :: s.chain[i].version <= s.version
  {
    hide Issued;
    if steps == [] {
      EmptyIssued();
    } else {
      RunKeepsChain(root, head, steps[..|steps| - 1]);
      var s := Run(State([], root, 0, head), steps[..|steps| - 1]);
      IssueKeepsChain(s.chain, s.root, s.version, s.head);
      forall i | 0 <= i < |Issue(s.chain, s.root, s.version, s.head)|
        ensures Issue(s.chain, s.root, s.version, s.head)[i].version <= s.version
      {
        var cp := Issue(s.chain, s.root, s.version, s.head)[i];
        if cp in s.chain { var k :| 0 <= k < |s.chain| && s.chain[k] == cp; }
      }
    }
  }

  lemma EmptyIssued()
    ensures Issued([])
  {}

  // ----- the link check -----

  predicate Earlier(a: Checkpoint, b: Checkpoint) { a.version <= b.version }

  lemma EarlierOrder()
    ensures TotalPreorder(Earlier)
  {}

  function ByVersion(docs: seq<Checkpoint>): (chain: seq<Checkpoint>)
    ensures multiset(chain) == multiset(docs) && Sorted(chain, Earlier)
  {
    EarlierOrder();
    Sort(docs, Earlier)
  }

  ghost predicate AllLinked(chain: seq<Checkpoint>) { forall i | 0 < i < |chain| :: LinkedTo(chain[i - 1], chain[i]) }

  /** How many links do not match; nothing for a document without checkpoints. */
  method CheckLinks(docs: seq<Checkpoint>) returns (broken: Option<nat>)
    ensures broken == None <==> docs == []
    ensures docs != [] ==> (broken == Some(0) <==> AllLinked(ByVersion(docs)))
  {
    if |docs| == 0 {
      return None;
    }
    var chain := ByVersion(docs);
    var count: nat := 0;
    for i := 1 to |chain|
      invariant count == 0 <==> forall k | 0 < k < i :: LinkedTo(chain[k - 1], chain[k])
    {
      var prev, cur := chain[i - 1], chain[i];
      if cur.previous.None? {
        count := count + 1;
        continue;
      }
      if cur.previous.value.version != prev.version || cur.previous.value.root != prev.root {
        count := count + 1;
      }
    }
    return Some(count);
  }

  /** The documents are a piece of the chain without gaps. */
  ghost predicate Segment(chain: seq<Checkpoint>, docs: seq<Checkpoint>, from: nat) {
    from + |docs| <= |chain| && chain[from..from + |docs|] == docs
  }

  lemma SegmentLinks(chain: seq<Checkpoint>, docs: seq<Checkpoint>, from: nat)
    requires Issued(chain) && Segment(chain, docs, from)
    ensures AllLinked(docs)
  {
    hide LinkedTo;
    forall i | 0 < i < |docs| ensures LinkedTo(docs[i - 1], docs[i]) {
      assert docs[i - 1] == chain[from + i - 1] && docs[i] == chain[from + i];
    }
  }

  /** In an issued chain only one checkpoint can come right after another. */
  lemma NextInChain(chain: seq<Checkpoint>, k: nat, next: Checkpoint)
    requires Issued(chain) && k < |chain| && next in chain && LinkedTo(chain[k], next)
    ensures k + 1 < |chain| && chain[k + 1] == next
  {
    var p :| 0 <= p < |chain| && chain[p] == next;
    assert p > 0;
    assert LinkedTo(chain[p - 1], chain[p]);
    OneOfEachVersion(chain, p - 1, k);
  }

  lemma OneOfEachVersion(chain: seq<Checkpoint>, i: nat, j: nat)
    requires Issued(chain) && i < |chain| && j < |chain| && chain[i].version == chain[j].version
    ensures i == j
  {}

  lemma {:induction false} LinkedIsSegment(chain: seq<Checkpoint>, docs: seq<Checkpoint>) returns (from: nat)
    requires Issued(chain) && docs != [] && AllLinked(docs) && forall d | d in docs :: d in chain
    ensures Segment(chain, docs, from)
  {
    hide Issued, LinkedTo;
    var n := |docs| - 1;
    assert docs[n] in docs;
    if n == 0 {
      from :| 0 <= from < |chain| && chain[from] == docs[0];
    } else {
      var front := docs[..n];
      from := LinkedIsSegment(chain, front);
      assert chain[from + n - 1] == front[n - 1];
      assert LinkedTo(docs[n - 1], docs[n]);
      NextInChain(chain, from + n - 1, docs[n]);
    }
    assert docs == docs[..n] + [docs[n]];
  }

  /** Checkpoints taken from the chain pass the link check exactly when none between them is left out. */
  lemma SegmentExactly(chain: seq<Checkpoint>, docs: seq<Checkpoint>)
    requires Issued(chain) && docs != [] && forall d | d in docs :: d in chain
    ensures AllLinked(ByVersion(docs)) <==> exists from: nat :: Segment(chain, ByVersion(docs), from)
  {
    hide Issued, AllLinked, Segment;
    SameMembers(docs, ByVersion(docs));
    if AllLinked(ByVersion(docs)) {
      var from := LinkedIsSegment(chain, ByVersion(docs));
    }
    if from: nat :| Segment(chain, ByVersion(docs), from) {
      SegmentLinks(chain, ByVersion(docs), from);
    }
  }

  // ----- forks -----

  /** Two different checkpoints of one version, both in the document. */
  ghost predicate Fork(docs: seq<Checkpoint>, a: Checkpoint, b: Checkpoint) {
    a in docs && b in docs && a != b && a.version == b.version
  }

  /** The checkpoints that follow one of a lower version name it. */
  ghost predicate RisesLinked(chain: seq<Checkpoint>) {
    forall i | 0 < i < |chain| && chain[i - 1].version < chain[i].version :: LinkedTo(chain[i - 1], chain[i])
  }

  /** The checkpoints that follow one of their own version name that version, with its root. */
  ghost predicate OwnVersionNamed(chain: seq<Checkpoint>) {
    forall i | 0 < i < |chain| && chain[i - 1].version == chain[i].version ::
      chain[i].previous == Some(Ref(chain[i].version, chain[i - 1].root))
  }

  /** Two different checkpoints of one version, the second naming the first as the one before it. */
  ghost predicate NamesTwin(a: Checkpoint, b: Checkpoint) { a != b && a.version == b.version && LinkedTo(a, b) }

  /**
   A document with a fork passes the link check exactly when its rising links match and every
   checkpoint that follows one of its own version names it; so some checkpoint of the forked
   version then names its twin.
   */
  lemma ForkPassesExactly(docs: seq<Checkpoint>, a: Checkpoint, b: Checkpoint)
    requires Fork(docs, a, b)
    ensures AllLinked(ByVersion(docs)) <==> RisesLinked(ByVersion(docs)) && OwnVersionNamed(ByVersion(docs))
    ensures AllLinked(ByVersion(docs)) ==> exists x, y :: x in docs && y in docs && x.version == a.version && NamesTwin(x, y)
  {
    hide ByVersion, Sorted;
    var chain := ByVersion(docs);
    SameMembers(docs, chain);
    RisingOrEqual(chain);
    var i :| 0 <= i < |chain| && chain[i] == a;
    var j :| 0 <= j < |chain| && chain[j] == b;
    var k := TwinsMeet(chain, if i < j then i else j, if i < j then j else i);
    assert chain[k] in chain && chain[k + 1] in chain;
    if AllLinked(chain) {
      assert LinkedTo(chain[k + 1 - 1], chain[k + 1]);
      assert NamesTwin(chain[k], chain[k + 1]);
    }
    if RisesLinked(chain) && OwnVersionNamed(chain) {
      forall n | 0 < n < |chain| ensures LinkedTo(chain[n - 1], chain[n]) {
        assert chain[n - 1].version < chain[n].version || chain[n - 1].version == chain[n].version;
      }
    }
  }

  lemma RisingOrEqual(chain: seq<Checkpoint>)
    requires Sorted(chain, Earlier)
    ensures forall n | 0 < n < |chain| :: chain[n - 1].version <= chain[n].version
  {
    forall n | 0 < n < |chain| ensures chain[n - 1].version <= chain[n].version {
      assert Earlier(chain[n - 1], chain[n]);
    }
  }

  /** Between two different checkpoints of one version two neighbours of it differ. */
  lemma {:induction false} TwinsMeet(chain: seq<Checkpoint>, low: nat, high: nat) returns (k: nat)
    requires Sorted(chain, Earlier) && low < high < |chain|
    requires chain[low] != chain[high] && chain[low].version == chain[high].version
    ensures low <= k < high && chain[k] != chain[k + 1] && chain[k].version == chain[k + 1].version == chain[low].version
    decreases high - low
  {
    SameInBetween(chain, low, high);
    if chain[low] != chain[low + 1] {
      k := low;
    } else {
      k := TwinsMeet(chain, low + 1, high);
    }
  }

  lemma SameInBetween(chain: seq<Checkpoint>, low: nat, high: nat)
    requires Sorted(chain, Earlier) && low < high < |chain| && chain[low].version == chain[high].version
    ensures chain[low + 1].version == chain[low].version
  {
    assert Earlier(chain[low], chain[low + 1]);
    assert low + 1 < high ==> Earlier(chain[low + 1], chain[high]);
  }

  /** Every document with a fork, made of what was signed, shows a broken link. */
  ghost predicate ForksShow(signed: set<Checkpoint>) {
    forall docs: seq<Checkpoint>, a, b | (forall d | d in docs :: d in signed) && Fork(docs, a, b) :: !AllLinked(ByVersion(docs))
  }

  /** The link check catches every fork of a signer if and only if it signed no checkpoint that names its twin. */
  lemma ForkCaughtExactly(signed: set<Checkpoint>)
    ensures ForksShow(signed) <==> forall a, b | a in signed && b in signed :: !NamesTwin(a, b)
  {
    hide AllLinked, LinkedTo, ByVersion;
    if a, b :| a in signed && b in signed && NamesTwin(a, b) {
      var docs := [a, b];
      TwinsPass(a, b);
      assert docs[0] == a && docs[1] == b && Fork(docs, a, b);
    }
    if !ForksShow(signed) {
      var docs: seq<Checkpoint>, a, b :| (forall d | d in docs :: d in signed) && Fork(docs, a, b) && AllLinked(ByVersion(docs));
      ForkPassesExactly(docs, a, b);
      var x, y :| x in docs && y in docs && x.version == a.version && NamesTwin(x, y);
      assert x in signed && y in signed;
    }
  }

  lemma TwinsPass(a: Checkpoint, b: Checkpoint)
    requires NamesTwin(a, b)
    ensures AllLinked(ByVersion([a, b]))
  {
    hide Sort, Sorted, TotalPreorder;
    EarlierOrder();
    SortTwo(a, b, Earlier);
    assert ByVersion([a, b]) == [a, b];
  }

  /** Where every reference is to a lower version, as the service signs them, a fork always shows as a broken link. */
  lemma ForkShows(docs: seq<Checkpoint>, a: Checkpoint, b: Checkpoint)
    requires Fork(docs, a, b)
    requires forall d | d in docs && d.previous.Some? :: d.previous.value.version < d.version
    ensures !AllLinked(ByVersion(docs))
  {
    hide AllLinked, ByVersion;
    ForkPassesExactly(docs, a, b);
  }

  /** A fork that passes: the second checkpoint of version 5 names the first. */
  lemma ForkHides(head: Head)
    ensures var first, second := Checkpoint(5, "a", head, None), Checkpoint(5, "b", head, Some(Ref(5, "a")));
            Fork([first, second], first, second) && AllLinked(ByVersion([first, second]))
  {
    hide ByVersion;
    var first, second := Checkpoint(5, "a", head, None), Checkpoint(5, "b", head, Some(Ref(5, "a")));
    assert "a"[0] != "b"[0];
    assert [first, second][0] == first && [first, second][1] == second;
    TwinsPass(first, second);
  }

  // ----- lineage -----

  /** A public root; nothing when the text is not a hash. */
  datatype RootAt = RootAt(version: nat, root: Option<string>)

  datatype Fold = Fold(head: Head, root: string, version: nat)

  /** Folding roots forward from an anchor; nothing when a version is skipped or a root is not a hash. */
  function Folded(start: Fold, roots: seq<RootAt>): Option<Fold> {
    if roots == [] then Some(start)
    else
      var before, entry := Folded(start, roots[..|roots| - 1]), roots[|roots| - 1];
      if before.None? || entry.version != before.value.version + 1 || entry.root.None? then None
      else Some(Fold(Link(before.value.head, before.value.root, entry.version), entry.root.value, entry.version))
  }

  predicate RootLe(a: RootAt, b: RootAt) { a.version <= b.version }

  lemma RootOrder()
    ensures TotalPreorder(RootLe)
  {}

  function InVersionOrder(roots: seq<RootAt>): (out: seq<RootAt>)
    ensures multiset(out) == multiset(roots) && Sorted(out, RootLe)
  {
    RootOrder();
    Sort(roots, RootLe)
  }

  /** The roots fold from one anchor to the head of the other. */
  predicate Reaches(from: Checkpoint, to: Checkpoint, roots: seq<RootAt>) {
    var end := Folded(Fold(from.head, from.root, from.version), roots);
    end.Some? && end.value.version == to.version && end.value.head == to.head
  }

  method VerifyLineage(from: Checkpoint, to: Checkpoint, roots: seq<RootAt>) returns (ok: bool)
    ensures ok == Reaches(from, to, InVersionOrder(roots))
  {
    var sorted := InVersionOrder(roots);
    var head, root, version := from.head, from.root, from.version;
    ghost var start := Fold(head, root, version);
    for i := 0 to |sorted|
      invariant Folded(start, sorted[..i]) == Some(Fold(head, root, version))
    {
      assert sorted[..i + 1][..i] == sorted[..i];
      var entry := sorted[i];
      if entry.version != version + 1 || entry.root.None? {
        StaysBroken(start, sorted, i + 1);
        return false;
      }
      head := Link(head, root, entry.version);
      root := entry.root.value;
      version := entry.version;
    }
    assert sorted[..|sorted|] == sorted;
    return version == to.version && head == to.head;
  }

  lemma {:induction false} StaysBroken(start: Fold, roots: seq<RootAt>, i: nat)
    requires i <= |roots| && Folded(start, roots[..i]) == None
    ensures Folded(start, roots) == None
  {
    if i == |roots| {
      assert roots[..i] == roots;
    } else {
      var n := |roots| - 1;
      assert roots[..n][..i] == roots[..i];
      StaysBroken(start, roots[..n], i);
    }
  }

  /** The true history: `roots[k]` is the root at version `first + k`. */
  function HeadAt(origin: Head, first: nat, roots: seq<string>): Head {
    if |roots| <= 1 then origin
    else Link(HeadAt(origin, first, roots[..|roots| - 1]), roots[|roots| - 2], first + |roots| - 1)
  }

  /** The roots given are of the versions after `first`, and true at every one but the last. */
  ghost predicate TrueBelowFinal(history: seq<string>, first: nat, roots: seq<RootAt>) {
    && |roots| == |history| - 1
    && (forall k | 0 <= k < |roots| :: roots[k].version == first + 1 + k && roots[k].root.Some?)
    && forall k | 0 <= k < |roots| - 1 :: roots[k].root.value == history[k + 1]
  }

  /** A fold reaches a true head only along the true history. */
  lemma {:induction false} FoldExactly(origin: Head, first: nat, history: seq<string>, roots: seq<RootAt>)
    requires history != []
    ensures var end := Folded(Fold(origin, history[0], first), roots);
            (end.Some? && end.value.version == first + |history| - 1 && end.value.head == HeadAt(origin, first, history))
            <==> TrueBelowFinal(history, first, roots)
    ensures var end := Folded(Fold(origin, history[0], first), roots);
            end.Some? ==> end.value.version == first + |roots|
                          && (roots != [] ==> end.value.root == roots[|roots| - 1].root.value && roots[|roots| - 1].root.Some?)
                          && (roots == [] ==> end.value.root == history[0])
    decreases |roots|
  {
    if roots != [] {
      var n := |roots| - 1;
      var front := roots[..n];
      FoldVersion(Fold(origin, history[0], first), front);
      if |history| == |roots| + 1 {
        var shorter := history[..|history| - 1];
        FoldExactly(origin, first, shorter, front);
        FoldStep(origin, first, history, roots);
      } else {
        FoldExactly(origin, first, [history[0]], front);
      }
    }
  }

  lemma {:induction false} FoldVersion(start: Fold, roots: seq<RootAt>)
    ensures var end := Folded(start, roots);
            end.Some? ==> end.value.version == start.version + |roots|
                          && (forall k | 0 <= k < |roots| :: roots[k].version == start.version + 1 + k && roots[k].root.Some?)
                          && end.value.root == if roots == [] then start.root else roots[|roots| - 1].root.value
  {
    if roots != [] { FoldVersion(start, roots[..|roots| - 1]); }
  }

  lemma FoldStep(origin: Head, first: nat, history: seq<string>, roots: seq<RootAt>)
    requires roots != [] && |history| == |roots| + 1
    requires var shorter, front := history[..|history| - 1], roots[..|roots| - 1];
             var end := Folded(Fold(origin, history[0], first), front);
             && ((end.Some? && end.value.version == first + |shorter| - 1 && end.value.head == HeadAt(origin, first, shorter))
                 <==> TrueBelowFinal(shorter, first, front))
    ensures var end := Folded(Fold(origin, history[0], first), roots);
            (end.Some? && end.value.version == first + |history| - 1 && end.value.head == HeadAt(origin, first, history))
            <==> TrueBelowFinal(history, first, roots)
  {
    var shorter, n := history[..|history| - 1], |roots| - 1;
    var front := roots[..n];
    FoldVersion(Fold(origin, history[0], first), front);
    FoldVersion(Fold(origin, history[0], first), roots);
    assert history[|history| - 2] == shorter[|shorter| - 1];
    assert forall k | 0 <= k < n :: front[k] == roots[k];
    assert forall k | 0 <= k < |shorter| :: shorter[k] == history[k];
  }

  /**
   What an accepted lineage proves: between two anchors of the true history, the document is
   accepted exactly when it lists every version in between, with the true root at every version
   below the final one. The final root is not checked against anything.
   */
  lemma LineageExactly(origin: Head, first: nat, history: seq<string>, roots: seq<RootAt>, final: string)
    requires history != []
    ensures var from := Checkpoint(first, history[0], origin, None);
            var to := Checkpoint(first + |history| - 1, final, HeadAt(origin, first, history), None);
            Reaches(from, to, roots) <==> TrueBelowFinal(history, first, roots)
  {
    hide HeadAt, TrueBelowFinal, Folded;
    FoldExactly(origin, first, history, roots);
  }

  // ----- lineage between the checkpoints of a run -----

  /** The roots a run committed, by version. */
  function History(root: string, steps: seq<Step>): (history: seq<string>)
    ensures |history| > 0
  {
    if steps == [] then [root]
    else
      var front, last := History(root, steps[..|steps| - 1]), steps[|steps| - 1];
      if last.Commit? then front + [last.root] else front
  }

  /** The ledger keeps the version, the root and the head of its history, and checkpoints carry them. */
  lemma {:induction false} LedgerHeads(root: string, head: Head, steps: seq<Step>)
    ensures var s, history := Run(State([], root, 0, head), steps), History(root, steps);
            && s.version == |history| - 1 && s.root == history[s.version] && s.head == HeadAt(head, 0, history)
            && forall cp | cp in s.chain :: Carries(cp, head, history)
  {
    hide Carries, HeadAt;
    if steps == [] {
      FirstHead(root, head);
    } else {
      var front, last := steps[..|steps| - 1], steps[|steps| - 1];
      LedgerHeads(root, head, front);
      var s, history, s' := Run(State([], root, 0, head), front), History(root, front), Run(State([], root, 0, head), steps);
      if last.Commit? {
        NextHead(head, history, last.root);
        forall cp | cp in s'.chain ensures Carries(cp, head, history + [last.root]) { CarriesOn(cp, head, history, last.root); }
      } else {
        forall cp | cp in s'.chain ensures Carries(cp, head, history) {
          if cp !in s.chain { NewCarries(cp, head, history); }
        }
      }
    }
  }

  /** The checkpoint states its version's root and head. */
  predicate Carries(cp: Checkpoint, head: Head, history: seq<string>) {
    cp.version < |history| && cp.root == history[cp.version] && cp.head == HeadAt(head, 0, history[..cp.version + 1])
  }

  lemma FirstHead(root: string, head: Head)
    ensures HeadAt(head, 0, [root]) == head
  {}

  lemma NextHead(head: Head, history: seq<string>, root: string)
    requires history != []
    ensures HeadAt(head, 0, history + [root]) == Link(HeadAt(head, 0, history), history[|history| - 1], |history|)
  {
    assert (history + [root])[..|history|] == history;
  }

  lemma CarriesOn(cp: Checkpoint, head: Head, history: seq<string>, root: string)
    requires Carries(cp, head, history)
    ensures Carries(cp, head, history + [root])
  {
    assert (history + [root])[..cp.version + 1] == history[..cp.version + 1];
  }

  lemma NewCarries(cp: Checkpoint, head: Head, history: seq<string>)
    requires history != [] && cp.version == |history| - 1 && cp.root == history[cp.version] && cp.head == HeadAt(head, 0, history)
    ensures Carries(cp, head, history)
  {
    assert history[..cp.version + 1] == history;
  }

  /** Folding on from a head of the history gives the later head. */
  lemma {:induction false} HeadOnward(head: Head, history: seq<string>, m: nat)
    requires m < |history|
    ensures HeadAt(HeadAt(head, 0, history[..m + 1]), m, history[m..]) == HeadAt(head, 0, history)
    decreases |history|
  {
    if m == |history| - 1 {
      assert history[..m + 1] == history;
    } else {
      var shorter := history[..|history| - 1];
      HeadOnward(head, shorter, m);
      assert shorter[..m + 1] == history[..m + 1];
      assert history[m..][..|history[m..]| - 1] == shorter[m..];
      assert history[m..][|history[m..]| - 2] == history[|history| - 2];
    }
  }

  /**
   Over every run: between two checkpoints the service issued, a lineage document is accepted
   exactly when it lists every version in between, with the committed root at every version below
   the later checkpoint's.
   */
  lemma IssuedLineageExactly(root: string, head: Head, steps: seq<Step>, a: Checkpoint, b: Checkpoint, roots: seq<RootAt>)
    requires var s := Run(State([], root, 0, head), steps);
             a in s.chain && b in s.chain && a.version < b.version
    ensures b.version < |History(root, steps)|
    ensures Reaches(a, b, roots) <==> TrueBelowFinal(History(root, steps)[a.version..b.version + 1], a.version, roots)
  {
    hide HeadAt, Folded, TrueBelowFinal, Run, History, Carries;
    LedgerHeads(root, head, steps);
    BetweenAnchors(head, History(root, steps), a, b);
    FoldExactly(a.head, a.version, History(root, steps)[a.version..b.version + 1], roots);
  }

  lemma BetweenAnchors(head: Head, history: seq<string>, a: Checkpoint, b: Checkpoint)
    requires Carries(a, head, history) && Carries(b, head, history) && a.version < b.version
    ensures b.version < |history|
    ensures history[a.version..b.version + 1][0] == a.root
    ensures HeadAt(a.head, a.version, history[a.version..b.version + 1]) == b.head
  {
    hide HeadAt;
    var upTo := history[..b.version + 1];
    HeadOnward(head, upTo, a.version);
    assert upTo[..a.version + 1] == history[..a.version + 1];
    assert upTo[a.version..] == history[a.version..b.version + 1];
  }
}
