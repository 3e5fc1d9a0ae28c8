// A stable sort by a total order, as JavaScript's `sort` with a comparison function.
module Sorting {
  import opened Digraph
  import opened OrderedSets

  function Insert<T>(x: T, s: seq<T>, le: (T, T) -> bool): seq<T> {
    if s == [] then [x]
    else if le(s[|s| - 1], x) then s + [x]
    else Insert(x, s[..|s| - 1], le) + [s[|s| - 1]]
  }

  function Sort<T>(s: seq<T>, le: (T, T) -> bool): seq<T> {
    if s == [] then [] else Insert(s[|s| - 1], Sort(s[..|s| - 1], le), le)
  }

  /** `le` orders the values of `pool` totally. */
  ghost predicate TotalOrder<T(!new)>(le: (T, T) -> bool, pool: set<T>) {
    && (forall a, b :: a in pool && b in pool ==> le(a, b) || le(b, a))
    && (forall a, b, c :: a in pool && b in pool && c in pool && le(a, b) && le(b, c) ==> le(a, c))
    && (forall a, b :: a in pool && b in pool && le(a, b) && le(b, a) ==> a == b)
  }

  ghost predicate Within<T>(s: seq<T>, pool: set<T>) {
    forall x :: x in s ==> x in pool
  }

  ghost predicate Sorted<T>(s: seq<T>, le: (T, T) -> bool) {
    forall i, j :: 0 <= i < j < |s| ==> le(s[i], s[j])
  }

  lemma {:induction false} InsertKeeps<T>(x: T, s: seq<T>, le: (T, T) -> bool)
    ensures multiset(Insert(x, s, le)) == multiset(s) + multiset{x}
    ensures |Insert(x, s, le)| == |s| + 1
  {
    if s != [] && !le(s[|s| - 1], x) {
      InsertKeeps(x, s[..|s| - 1], le);
      assert s == s[..|s| - 1] + [s[|s| - 1]];
    }
  }

  /** Sorting loses and repeats nothing. */
  lemma {:induction false} SortPermutes<T>(s: seq<T>, le: (T, T) -> bool)
    ensures multiset(Sort(s, le)) == multiset(s) && |Sort(s, le)| == |s|
  {
    if s != [] {
      SortPermutes(s[..|s| - 1], le);
      InsertKeeps(s[|s| - 1], Sort(s[..|s| - 1], le), le);
      assert s == s[..|s| - 1] + [s[|s| - 1]];
    }
  }

  lemma SameMembers<T>(s: seq<T>, t: seq<T>)
    requires multiset(s) == multiset(t)
    ensures forall x :: x in s <==> x in t
  {
    forall x ensures x in s <==> x in t {
      assert x in multiset(s) <==> x in s;
      assert x in multiset(t) <==> x in t;
    }
  }

  lemma {:induction false} InsertSorts<T(!new)>(x: T, s: seq<T>, le: (T, T) -> bool, pool: set<T>)
    requires TotalOrder(le, pool) && Sorted(s, le) && Within(s, pool) && x in pool
    ensures Sorted(Insert(x, s, le), le)
  {
    if s != [] {
      var init, last := s[..|s| - 1], s[|s| - 1];
      if le(last, x) {
        forall i | 0 <= i < |s| ensures le(s[i], x) {
          assert le(s[i], last);
        }
      } else {
        InsertSorts(x, init, le, pool);
        InsertKeeps(x, init, le);
        var r := Insert(x, init, le);
        forall i | 0 <= i < |r| ensures le(r[i], last) {
          assert r[i] in multiset(r);
          if r[i] != x {
            assert r[i] in multiset(init) && r[i] in init;
          }
        }
      }
    }
  }

  lemma {:induction false} SortSorts<T(!new)>(s: seq<T>, le: (T, T) -> bool, pool: set<T>)
    requires TotalOrder(le, pool) && Within(s, pool)
    ensures Sorted(Sort(s, le), le)
  {
    if s != [] {
      var init := s[..|s| - 1];
      SortSorts(init, le, pool);
      SortPermutes(init, le);
      SameMembers(Sort(init, le), init);
      assert s[|s| - 1] in s;
      InsertSorts(s[|s| - 1], Sort(init, le), le, pool);
    }
  }

  lemma DropLast<T>(s: seq<T>)
    requires s != []
    ensures multiset(s[..|s| - 1]) == multiset(s) - multiset{s[|s| - 1]}
    ensures s[|s| - 1] in s
  {
    assert s == s[..|s| - 1] + [s[|s| - 1]];
  }

  lemma LastIsGreatest<T(!new)>(s: seq<T>, x: T, le: (T, T) -> bool, pool: set<T>)
    requires TotalOrder(le, pool) && Within(s, pool) && Sorted(s, le) && x in s
    ensures le(x, s[|s| - 1])
  {
    assert s[|s| - 1] in s;
    assert le(x, x);
    var i :| 0 <= i < |s| && s[i] == x;
  }

  /** By a total order there is only one way to sort, so the order of the input does not show. */
  lemma {:induction false} SortedIsUnique<T(!new)>(s: seq<T>, t: seq<T>, le: (T, T) -> bool, pool: set<T>)
    requires TotalOrder(le, pool) && Within(s, pool) && Within(t, pool)
    requires Sorted(s, le) && Sorted(t, le) && multiset(s) == multiset(t)
    ensures s == t
  {
    assert |multiset(s)| == |s| && |multiset(t)| == |t|;
    if s != [] {
      DropLast(s);
      DropLast(t);
      SameMembers(s, t);
      LastIsGreatest(s, t[|t| - 1], le, pool);
      LastIsGreatest(t, s[|s| - 1], le, pool);
      assert s[|s| - 1] == t[|t| - 1];
      var a, b := s[..|s| - 1], t[..|t| - 1];
      assert Within(a, pool) && Within(b, pool);
      SortedIsUnique(a, b, le, pool);
    }
  }

  lemma PermutationKeepsDistinct<T(!new)>(s: seq<T>, t: seq<T>)
    requires multiset(s) == multiset(t) && NoDuplicates(s)
    ensures NoDuplicates(t)
  {
    RepeatedStaysRepeated(s, t);
  }
}
