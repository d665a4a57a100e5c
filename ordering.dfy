/**
 * The normalisation the parser applies to its primary-key list after every merge:
 * `OrderBy(item => item).Distinct()`. The culture-sensitive string comparer behind
 * `OrderBy` is not modelled; any total preorder on (possibly null) strings stands for it.
 */
module Ordering {
  import opened Wrappers
  import opened Text
  import opened Queries

  /** `order(x, y)`: `x` sorts no later than `y`. */
  type Order = (NString, NString) -> bool

  ghost predicate TotalPreorder(order: Order) {
    && (forall x, y :: order(x, y) || order(y, x))
    && (forall x, y, z :: order(x, y) && order(y, z) ==> order(x, z))
  }

  ghost predicate Sorted(order: Order, s: seq<NString>) {
    forall i, j :: 0 <= i < j < |s| ==> order(s[i], s[j])
  }

  ghost predicate NoDuplicates(s: seq<NString>) {
    forall i, j :: 0 <= i < j < |s| ==> s[i] != s[j]
  }

  /** Places `x` after every element that does not sort strictly after it. */
  function Insert(order: Order, x: NString, s: seq<NString>): (r: seq<NString>)
    ensures multiset(r) == multiset(s) + multiset{x}
  {
    if |s| == 0 then [x]
    else if order(x, s[0]) && !order(s[0], x) then [x] + s
    else
      assert s == [s[0]] + s[1..];
      [s[0]] + Insert(order, x, s[1..])
  }

  /** `OrderBy(item => item)`: a stable sort, inserting the elements in their original order. */
  function OrderBy(order: Order, s: seq<NString>): (r: seq<NString>)
    ensures multiset(r) == multiset(s)
  {
    if |s| == 0 then []
    else
      assert s == s[..|s| - 1] + [s[|s| - 1]];
      Insert(order, s[|s| - 1], OrderBy(order, s[..|s| - 1]))
  }

  /** `Distinct()`: the first occurrence of every value, in order, under exact equality. */
  function Distinct(s: seq<NString>): (r: seq<NString>)
    ensures forall x :: x in r <==> x in s
    ensures NoDuplicates(r)
  {
    if |s| == 0 then []
    else
      var init, last := s[..|s| - 1], s[|s| - 1];
      assert s == init + [last];
      if last in init then Distinct(init) else Distinct(init) + [last]
  }

  /** `list.AddRange(added); list = list.OrderBy(item => item).Distinct().ToList()`. */
  function Merge(order: Order, existing: seq<NString>, added: seq<NString>): (r: seq<NString>)
    ensures forall x :: x in r <==> x in existing || x in added
    ensures NoDuplicates(r)
  {
    var s := OrderBy(order, existing + added);
    assert forall x :: x in s <==> x in multiset(s);
    Distinct(s)
  }

  lemma {:induction false} InsertSorted(order: Order, x: NString, s: seq<NString>)
    requires TotalPreorder(order) && Sorted(order, s)
    ensures Sorted(order, Insert(order, x, s))
  {
    if |s| > 0 && !(order(x, s[0]) && !order(s[0], x)) {
      var rest := Insert(order, x, s[1..]);
      InsertSorted(order, x, s[1..]);
      assert order(s[0], x);
      forall y | y in rest ensures order(s[0], y) {
        assert y in multiset(rest);
        if y != x {
          assert y in s[1..];
        }
      }
    }
  }

  lemma {:induction false} OrderBySorted(order: Order, s: seq<NString>)
    requires TotalPreorder(order)
    ensures Sorted(order, OrderBy(order, s))
  {
    if |s| > 0 {
      OrderBySorted(order, s[..|s| - 1]);
      InsertSorted(order, s[|s| - 1], OrderBy(order, s[..|s| - 1]));
    }
  }

  lemma {:induction false} DistinctSorted(order: Order, s: seq<NString>)
    requires Sorted(order, s)
    ensures Sorted(order, Distinct(s))
  {
    if |s| > 0 {
      var init, last := s[..|s| - 1], s[|s| - 1];
      DistinctSorted(order, init);
      var d := Distinct(init);
      forall i | 0 <= i < |d| ensures order(d[i], last) {
        assert d[i] in d;
        var k :| 0 <= k < |init| && init[k] == d[i];
        assert s[k] == init[k];
      }
    }
  }

  /** After every merge the primary-key list is sorted and holds no exactly-equal duplicates. */
  lemma MergeSortedDistinct(order: Order, existing: seq<NString>, added: seq<NString>)
    requires TotalPreorder(order)
    ensures Sorted(order, Merge(order, existing, added))
    ensures NoDuplicates(Merge(order, existing, added))
  {
    OrderBySorted(order, existing + added);
    DistinctSorted(order, OrderBy(order, existing + added));
  }

  /** Merging one name into an empty list gives just that name, whatever the order. */
  lemma MergeIntoEmpty(order: Order, x: NString)
    ensures Merge(order, [], [x]) == [x]
  {
    assert [] + [x] == [x] && [x][..0] == [];
    assert OrderBy(order, [x]) == [x];
    assert Distinct([x]) == [x];
  }

  /** A list that is already sorted and duplicate-free comes out of a merge of nothing unchanged. */
  lemma {:induction false} MergeNothingIdempotent(order: Order, s: seq<NString>)
    requires TotalPreorder(order) && Sorted(order, s) && NoDuplicates(s)
    ensures Merge(order, s, []) == s
  {
    assert s + [] == s;
    OrderBySortedIdentity(order, s);
    DistinctNoDuplicatesIdentity(s);
  }

  lemma {:induction false} OrderBySortedIdentity(order: Order, s: seq<NString>)
    requires TotalPreorder(order) && Sorted(order, s)
    ensures OrderBy(order, s) == s
  {
    if |s| > 0 {
      var init := s[..|s| - 1];
      OrderBySortedIdentity(order, init);
      InsertAtEnd(order, s[|s| - 1], init);
    }
  }

  lemma {:induction false} InsertAtEnd(order: Order, x: NString, s: seq<NString>)
    requires forall i :: 0 <= i < |s| ==> order(s[i], x)
    ensures Insert(order, x, s) == s + [x]
  {
    if |s| > 0 {
      InsertAtEnd(order, x, s[1..]);
    }
  }

  lemma {:induction false} DistinctNoDuplicatesIdentity(s: seq<NString>)
    requires NoDuplicates(s)
    ensures Distinct(s) == s
  {
    if |s| > 0 {
      var init := s[..|s| - 1];
      DistinctNoDuplicatesIdentity(init);
    }
  }

  /** The names `order` cannot tell apart from `x`. */
  function TiesWith(order: Order, x: NString): NString -> bool {
    y => order(x, y) && order(y, x)
  }

  /** In a sorted list whose head sorts strictly after `z`, nothing ties with `z`'s equals. */
  lemma NoTiesAfter(order: Order, x: NString, z: NString, t: seq<NString>)
    requires TotalPreorder(order) && Sorted(order, t)
    requires |t| > 0 && !order(t[0], z) && TiesWith(order, x)(z)
    ensures Where(t, TiesWith(order, x)) == []
  {
    var p := TiesWith(order, x);
    forall i | 0 <= i < |t| ensures !p(t[i]) {
      assert order(t[0], t[i]);
    }
  }

  /** Inserting into a sorted list places the new name after every name it ties with. */
  lemma {:induction false} InsertKeepsTies(order: Order, x: NString, z: NString, t: seq<NString>)
    requires TotalPreorder(order) && Sorted(order, t)
    ensures Where(Insert(order, z, t), TiesWith(order, x)) == Where(t, TiesWith(order, x)) + Where([z], TiesWith(order, x))
  {
    var p := TiesWith(order, x);
    if |t| == 0 || (order(z, t[0]) && !order(t[0], z)) {
      InsertFrontKeepsTies(order, x, z, t);
    } else {
      var rest := t[1..];
      assert Insert(order, z, t) == [t[0]] + Insert(order, z, rest);
      assert t == [t[0]] + rest;
      InsertKeepsTies(order, x, z, rest);
      WhereConsStep(t[0], Insert(order, z, rest), rest, Where([z], p), p);
    }
  }

  /** The same, when the new name goes to the front. */
  lemma InsertFrontKeepsTies(order: Order, x: NString, z: NString, t: seq<NString>)
    requires TotalPreorder(order) && Sorted(order, t)
    requires |t| == 0 || (order(z, t[0]) && !order(t[0], z))
    ensures Where(Insert(order, z, t), TiesWith(order, x)) == Where(t, TiesWith(order, x)) + Where([z], TiesWith(order, x))
  {
    var p := TiesWith(order, x);
    WhereSingle(z, p);
    if |t| == 0 {
      assert Insert(order, z, t) == [z] && Where(t, p) == [];
      assert Where(t, p) + Where([z], p) == Where([z], p);
    } else {
      assert Insert(order, z, t) == [z] + t;
      WhereAppend([z], t, p);
      if p(z) {
        NoTiesAfter(order, x, z, t);
        assert Where([z], p) + Where(t, p) == Where(t, p) + Where([z], p);
      } else {
        assert Where([z], p) + Where(t, p) == Where(t, p) + Where([z], p);
      }
    }
  }

  /**
   * `OrderBy` is stable: the names the order ties with any `x` come out in the order they
   * went in. Among keys that compare equal, the first one listed stays first.
   */
  lemma {:induction false} OrderByStable(order: Order, s: seq<NString>, x: NString)
    requires TotalPreorder(order)
    ensures Where(OrderBy(order, s), TiesWith(order, x)) == Where(s, TiesWith(order, x))
  {
    if |s| > 0 {
      var init, last := s[..|s| - 1], s[|s| - 1];
      OrderByStable(order, init, x);
      OrderBySorted(order, init);
      InsertKeepsTies(order, x, last, OrderBy(order, init));
      assert s == init + [last];
      WhereAppend(init, [last], TiesWith(order, x));
    }
  }
}
