/** `sort_by_key`: a stable sort, as insertion. */
module Sorting {
  import opened Basics

  predicate Sorted<T>(key: T -> int, s: seq<T>) {
    forall i, j | 0 <= i < j < |s| :: key(s[i]) <= key(s[j])
  }

  function Insert<T>(key: T -> int, s: seq<T>, x: T): (r: seq<T>)
    ensures |r| == |s| + 1
  {
    if s == [] || key(Last(s)) <= key(x) then s + [x] else Insert(key, Front(s), x) + [Last(s)]
  }

  function Sort<T>(key: T -> int, s: seq<T>): (r: seq<T>)
    ensures |r| == |s|
  {
    if s == [] then [] else Insert(key, Sort(key, Front(s)), Last(s))
  }

  lemma {:induction false} InsertPermutes<T>(key: T -> int, s: seq<T>, x: T)
    ensures multiset(Insert(key, s, x)) == multiset(s) + multiset{x}
  {
    if s != [] && key(Last(s)) > key(x) {
      InsertPermutes(key, Front(s), x);
      assert s == Front(s) + [Last(s)];
    }
  }

  lemma {:induction false} InsertMembers<T>(key: T -> int, s: seq<T>, x: T, y: T)
    ensures y in Insert(key, s, x) <==> y in s || y == x
  {
    InsertPermutes(key, s, x);
    assert y in Insert(key, s, x) <==> y in multiset(Insert(key, s, x));
    assert y in s <==> y in multiset(s);
  }

  lemma {:induction false} InsertSorts<T>(key: T -> int, s: seq<T>, x: T)
    requires Sorted(key, s)
    ensures Sorted(key, Insert(key, s, x)) && multiset(Insert(key, s, x)) == multiset(s) + multiset{x}
  {
    InsertPermutes(key, s, x);
    if s != [] && key(Last(s)) > key(x) {
      InsertSorts(key, Front(s), x);
      var r := Insert(key, Front(s), x);
      forall i | 0 <= i < |r| ensures key(r[i]) <= key(Last(s)) {
        InsertMembers(key, Front(s), x, r[i]);
      }
    }
  }

  lemma {:induction false} SortSorts<T>(key: T -> int, s: seq<T>)
    ensures Sorted(key, Sort(key, s)) && multiset(Sort(key, s)) == multiset(s)
  {
    if s != [] {
      SortSorts(key, Front(s));
      InsertSorts(key, Sort(key, Front(s)), Last(s));
      assert s == Front(s) + [Last(s)];
    }
  }

  lemma {:induction false} SortKeepsMembers<T>(key: T -> int, s: seq<T>, x: T)
    ensures x in Sort(key, s) <==> x in s
  {
    SortSorts(key, s);
    assert x in s <==> x in multiset(s);
    assert x in Sort(key, s) <==> x in multiset(Sort(key, s));
  }

  lemma {:induction false} SortedIsFixed<T>(key: T -> int, s: seq<T>)
    requires Sorted(key, s)
    ensures Sort(key, s) == s
  {
    if s != [] {
      SortedIsFixed(key, Front(s));
      assert s == Front(s) + [Last(s)];
    }
  }

  /** An element below every element of b is inserted into the part before b. */
  lemma {:induction false} InsertBelow<T>(key: T -> int, a: seq<T>, b: seq<T>, x: T)
    requires forall i | 0 <= i < |b| :: key(x) < key(b[i])
    ensures Insert(key, a + b, x) == Insert(key, a, x) + b
  {
    if b == [] {
      assert a + b == a;
    } else {
      assert Front(a + b) == a + Front(b);
      InsertBelow(key, a, Front(b), x);
      assert b == Front(b) + [Last(b)];
    }
  }

  /** An element not below any element of a is inserted into the part after a. */
  lemma {:induction false} InsertAbove<T>(key: T -> int, a: seq<T>, b: seq<T>, x: T)
    requires forall i | 0 <= i < |a| :: key(a[i]) <= key(x)
    ensures Insert(key, a + b, x) == a + Insert(key, b, x)
  {
    if b == [] {
      assert a + b == a;
    } else {
      assert Front(a + b) == a + Front(b);
      InsertAbove(key, a, Front(b), x);
    }
  }

  predicate DistinctKeys<T>(key: T -> int, s: seq<T>) {
    forall i, j | 0 <= i < j < |s| :: key(s[i]) != key(s[j])
  }

  lemma {:induction false} InsertKeepsDistinct<T>(key: T -> int, s: seq<T>, x: T)
    requires Sorted(key, s) && DistinctKeys(key, s) && forall i | 0 <= i < |s| :: key(s[i]) != key(x)
    ensures DistinctKeys(key, Insert(key, s, x))
  {
    if s != [] && key(Last(s)) > key(x) {
      InsertKeepsDistinct(key, Front(s), x);
      InsertSorts(key, Front(s), x);
      var r := Insert(key, Front(s), x);
      forall i | 0 <= i < |r| ensures key(r[i]) != key(Last(s)) {
        assert r[i] in multiset(r);
        assert r[i] == x || r[i] in Front(s);
      }
    }
  }

  lemma {:induction false} SortKeepsDistinct<T>(key: T -> int, s: seq<T>)
    requires DistinctKeys(key, s)
    ensures DistinctKeys(key, Sort(key, s))
  {
    if s != [] {
      var front := Sort(key, Front(s));
      SortKeepsDistinct(key, Front(s));
      SortSorts(key, Front(s));
      forall i | 0 <= i < |front| ensures key(front[i]) != key(Last(s)) {
        SortKeepsMembers(key, Front(s), front[i]);
        var j :| 0 <= j < |Front(s)| && Front(s)[j] == front[i];
        assert s[j] == front[i];
      }
      InsertKeepsDistinct(key, front, Last(s));
    }
  }
}
