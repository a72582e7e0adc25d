/**
 Sorting as the Go library promises it: a sorted permutation. `sort.Slice`,
 `sort.SliceStable` and `sort.Strings` are calls into that library, so they are modelled by
 one insertion sort; callers use only its contract. A stable sort is this sort with the
 input position as the last key.
 */
module Sorting {

  ghost predicate TotalPreorder<T(!new)>(le: (T, T) -> bool) {
    && (forall x, y :: le(x, y) || le(y, x))
    && (forall x, y, z :: le(x, y) && le(y, z) ==> le(x, z))
  }

  ghost predicate Sorted<T>(s: seq<T>, le: (T, T) -> bool) {
    forall i, j | 0 <= i < j < |s| :: le(s[i], s[j])
  }

  function Insert<T(!new)>(s: seq<T>, x: T, le: (T, T) -> bool): (out: seq<T>)
    requires TotalPreorder(le) && Sorted(s, le)
    ensures multiset(out) == multiset(s) + multiset{x}
    ensures Sorted(out, le)
  {
    if s == [] || le(s[|s| - 1], x) then
      s + [x]
    else
      assert s == s[..|s| - 1] + [s[|s| - 1]];
      var front := Insert(s[..|s| - 1], x, le);
      assert forall i | 0 <= i < |front| :: le(front[i], s[|s| - 1]) by {
        forall i | 0 <= i < |front| ensures le(front[i], s[|s| - 1]) {
          assert front[i] in multiset(front);
          assert front[i] in s[..|s| - 1] || front[i] == x;
        }
      }
      front + [s[|s| - 1]]
  }

  function Sort<T(!new)>(s: seq<T>, le: (T, T) -> bool): (out: seq<T>)
    requires TotalPreorder(le)
    ensures multiset(out) == multiset(s)
    ensures Sorted(out, le)
  {
    if s == [] then
      []
    else
      assert s == s[..|s| - 1] + [s[|s| - 1]];
      Insert(Sort(s[..|s| - 1], le), s[|s| - 1], le)
  }

  /** Two elements in order stay as they are. */
  lemma SortTwo<T(!new)>(x: T, y: T, le: (T, T) -> bool)
    requires TotalPreorder(le) && le(x, y)
    ensures Sort([x, y], le) == [x, y]
  {
    hide TotalPreorder;
    assert [x, y][..1] == [x] && [x][..0] == [] && [x] + [y] == [x, y] && [] + [x] == [x];
    assert Sort([x], le) == [x];
  }

  /** A permutation has the same members and the same length. */
  lemma SameMembers<T>(s: seq<T>, out: seq<T>)
    requires multiset(out) == multiset(s)
    ensures |out| == |s|
    ensures forall x :: x in out <==> x in s
  {
    assert |multiset(out)| == |out| && |multiset(s)| == |s|;
    forall x ensures x in out <==> x in s {
      assert x in out <==> x in multiset(out);
      assert x in s <==> x in multiset(s);
    }
  }

  /** No value occurs twice. */
  ghost predicate NoRepeats<T>(s: seq<T>) { forall i, j | 0 <= i < j < |s| :: s[i] != s[j] }

  lemma Twice<T>(s: seq<T>, i: nat, j: nat)
    requires i < j < |s| && s[i] == s[j]
    ensures multiset(s)[s[i]] >= 2
  {
    assert s == s[..j] + s[j..] && s[..j][i] == s[i] && s[j..][0] == s[i];
    assert s[i] in s[..j] && s[i] in s[j..];
    assert multiset(s) == multiset(s[..j]) + multiset(s[j..]);
  }

  lemma {:induction false} Once<T>(s: seq<T>, x: T)
    requires NoRepeats(s)
    ensures multiset(s)[x] <= 1
  {
    if s != [] {
      var n := |s| - 1;
      assert s == s[..n] + [s[n]];
      Once(s[..n], x);
      if s[n] == x {
        assert x !in s[..n];
        assert x !in multiset(s[..n]);
      }
    }
  }

  /** A permutation of a list without repeats has none. */
  lemma NoRepeatsKept<T>(s: seq<T>, out: seq<T>)
    requires NoRepeats(s) && multiset(out) == multiset(s)
    ensures NoRepeats(out)
  {
    forall i, j | 0 <= i < j < |out| ensures out[i] != out[j] {
      if out[i] == out[j] {
        Twice(out, i, j);
        Once(s, out[i]);
      }
    }
  }

  ghost predicate NoTies<T>(s: seq<T>, le: (T, T) -> bool) {
    forall i, j | 0 <= i < |s| && 0 <= j < |s| && le(s[i], s[j]) && le(s[j], s[i]) :: s[i] == s[j]
  }

  /** Two sorted permutations of one list are the same list when the order has no ties. */
  lemma {:induction false} SortedUnique<T(!new)>(a: seq<T>, b: seq<T>, le: (T, T) -> bool)
    requires TotalPreorder(le) && Sorted(a, le) && Sorted(b, le) && NoTies(a, le)
    requires multiset(a) == multiset(b)
    ensures a == b
  {
    hide TotalPreorder, Sorted, NoTies;
    SameMembers(b, a);
    if a != [] {
      var n := |a| - 1;
      SameLast(a, b, le);
      DropLast(a, le);
      DropLast(b, le);
      SortedUnique(a[..n], b[..n], le);
      assert a == a[..n] + [a[n]] && b == b[..n] + [b[n]];
    }
  }

  lemma SameLast<T(!new)>(a: seq<T>, b: seq<T>, le: (T, T) -> bool)
    requires TotalPreorder(le) && Sorted(a, le) && Sorted(b, le) && a != [] && |a| == |b|
    requires forall x :: x in a <==> x in b
    requires NoTies(a, le)
    ensures a[|a| - 1] == b[|b| - 1]
  {
    var n := |a| - 1;
    assert a[n] in b && b[n] in a;
    var i :| 0 <= i <= n && b[i] == a[n];
    var j :| 0 <= j <= n && a[j] == b[n];
    assert le(a[n], a[n]);
    assert le(b[i], b[n]) && le(a[j], a[n]);
  }

  lemma DropLast<T>(a: seq<T>, le: (T, T) -> bool)
    requires a != []
    ensures multiset(a[..|a| - 1]) == multiset(a) - multiset{a[|a| - 1]}
    ensures Sorted(a, le) ==> Sorted(a[..|a| - 1], le)
    ensures NoTies(a, le) ==> NoTies(a[..|a| - 1], le)
  {
    assert a == a[..|a| - 1] + [a[|a| - 1]];
  }
}
