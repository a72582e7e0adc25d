/** Sorted lists of distinct strings: what the source makes of a map's keys before it loops over them. */
module Keys {
  import opened Sorting
  import opened Text
  import Intervals

  /** The members of a set, sorted, each once. */
  ghost predicate Lists(out: seq<string>, ids: set<string>) {
    NoRepeats(out) && Sorted(out, StringLe) && forall c :: c in out <==> c in ids
  }

  lemma StringOrder()
    ensures TotalPreorder(StringLe)
  {
    forall a, b ensures StringLe(a, b) || StringLe(b, a) { StringLeTotal(a, b); }
    forall a, b, c | StringLe(a, b) && StringLe(b, c) ensures StringLe(a, c) { StringLeTransitive(a, b, c); }
  }

  /** The members of a set, sorted, each once. */
  method Listed(ids: set<string>) returns (out: seq<string>)
    ensures Lists(out, ids)
  {
    var todo := ids;
    out := [];
    while todo != {}
      invariant todo <= ids && NoRepeats(out) && forall c :: c in out <==> c in ids && c !in todo
    {
      ghost var some := Intervals.Pick(todo);
      var c :| c in todo;
      assert c !in out;
      out, todo := out + [c], todo - {c};
    }
    StringOrder();
    var sorted := Sort(out, StringLe);
    NoRepeatsKept(out, sorted);
    SameMembers(out, sorted);
    out := sorted;
  }

  lemma ListsUnique(a: seq<string>, b: seq<string>, ids: set<string>)
    requires Lists(a, ids) && Lists(b, ids)
    ensures a == b
  {
    StringOrder();
    forall x, y ensures StringLe(x, y) && StringLe(y, x) ==> x == y { StringLeTotal(x, y); }
    forall x ensures multiset(a)[x] == multiset(b)[x] {
      Once(a, x);
      Once(b, x);
      assert x in multiset(a) <==> x in a;
      assert x in multiset(b) <==> x in b;
    }
    SortedUnique(a, b, StringLe);
  }

  lemma {:induction false} ListExists(ids: set<string>)
    ensures exists out :: Lists(out, ids)
    decreases |ids|
  {
    if ids == {} {
      assert Lists([], ids);
    } else {
      var k := Intervals.Pick(ids);
      ListExists(ids - {k});
      var front :| Lists(front, ids - {k});
      StringOrder();
      var out := Sort(front + [k], StringLe);
      assert NoRepeats(front + [k]);
      NoRepeatsKept(front + [k], out);
      SameMembers(front + [k], out);
      assert Lists(out, ids);
    }
  }

  /** The one sorted list of a set of strings. */
  ghost function KeyOrder(ids: set<string>): (out: seq<string>)
    ensures Lists(out, ids)
  {
    ListExists(ids);
    var out :| Lists(out, ids);
    out
  }
}
