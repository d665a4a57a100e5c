/** The LINQ operators the models use: `Any` and `Where`. */
module Queries {

  /** `s.Any(p)`. */
  function Any<T>(s: seq<T>, p: T -> bool): (r: bool)
    ensures r <==> exists i :: 0 <= i < |s| && p(s[i])
  {
    if |s| == 0 then false else p(s[0]) || Any(s[1..], p)
  }

  /** `s.Where(p)`: the elements satisfying `p`, in their original order. */
  function Where<T(==,!new)>(s: seq<T>, p: T -> bool): (r: seq<T>)
    ensures |r| <= |s|
    ensures forall x :: x in r <==> x in s && p(x)
  {
    if |s| == 0 then []
    else
      assert s == [s[0]] + s[1..];
      if p(s[0]) then [s[0]] + Where(s[1..], p)
      else Where(s[1..], p)
  }

  /**
   * `Where` works element by element, left to right: filtering a concatenation is filtering
   * each part, so the kept elements stay in their original order.
   */
  lemma {:induction false} WhereAppend<T(!new)>(a: seq<T>, b: seq<T>, p: T -> bool)
    ensures Where(a + b, p) == Where(a, p) + Where(b, p)
  {
    if |a| > 0 {
      assert a == [a[0]] + a[1..];
      assert a + b == [a[0]] + (a[1..] + b);
      WhereAppend(a[1..], b, p);
      WhereCons(a[0], a[1..] + b, p);
      WhereCons(a[0], a[1..], p);
      ConcatAssociative([a[0]], Where(a[1..], p), Where(b, p));
    } else {
      assert a + b == b;
    }
  }

  /** Filtering a list with one more element in front. */
  lemma WhereCons<T(!new)>(a: T, u: seq<T>, p: T -> bool)
    ensures Where([a] + u, p) == if p(a) then [a] + Where(u, p) else Where(u, p)
  {
    assert ([a] + u)[0] == a && ([a] + u)[1..] == u;
  }

  lemma ConcatAssociative<T>(x: seq<T>, y: seq<T>, z: seq<T>)
    ensures x + (y + z) == (x + y) + z
  { }

  /** Putting the same element in front of two lists keeps the relation between their filtered forms. */
  lemma WhereConsStep<T(!new)>(a: T, u: seq<T>, v: seq<T>, w: seq<T>, p: T -> bool)
    requires Where(u, p) == Where(v, p) + w
    ensures Where([a] + u, p) == Where([a] + v, p) + w
  {
    WhereCons(a, u, p);
    WhereCons(a, v, p);
    ConcatAssociative([a], Where(v, p), w);
  }

  /** `Where` keeps every satisfying element as often as it occurs, and drops the rest. */
  lemma {:induction false} WhereMultiplicity<T(!new)>(s: seq<T>, p: T -> bool)
    ensures forall x :: multiset(Where(s, p))[x] == if p(x) then multiset(s)[x] else 0
  {
    if |s| > 0 {
      assert s == [s[0]] + s[1..];
      WhereMultiplicity(s[1..], p);
    }
  }

  /** A single element is kept exactly when it satisfies the predicate. */
  lemma WhereSingle<T(!new)>(x: T, p: T -> bool)
    ensures Where([x], p) == if p(x) then [x] else []
  {
    assert [x][1..] == [];
  }
}
