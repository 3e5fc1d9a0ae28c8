// Insertion-ordered sets, as JavaScript's Set and Map keep them: each value once, where it came first.
module OrderedSets {
  import opened Digraph

  function Distinct<T(==)>(s: seq<T>): seq<T> {
    if s == [] then []
    else
      var before := Distinct(s[..|s| - 1]);
      if s[|s| - 1] in s[..|s| - 1] then before else before + [s[|s| - 1]]
  }

  /** `new Set(s)`: no value twice, and none lost or added. */
  lemma {:induction false} DistinctIsExact<T(!new)>(s: seq<T>)
    ensures NoDuplicates(Distinct(s))
    ensures forall x :: x in Distinct(s) <==> x in s
  {
    if s != [] {
      DistinctIsExact(s[..|s| - 1]);
      assert s == s[..|s| - 1] + [s[|s| - 1]];
    }
  }

  lemma {:induction false} DistinctOfNoDuplicates<T(!new)>(s: seq<T>)
    requires NoDuplicates(s)
    ensures Distinct(s) == s
  {
    if s != [] {
      DistinctOfNoDuplicates(s[..|s| - 1]);
      assert s == s[..|s| - 1] + [s[|s| - 1]];
    }
  }

  lemma {:induction false} DistinctKeepsFirst<T(!new)>(s: seq<T>)
    requires s != []
    ensures Distinct(s) != [] && Distinct(s)[0] == s[0]
  {
    if |s| > 1 {
      DistinctKeepsFirst(s[..|s| - 1]);
    }
  }

  lemma DistinctSnoc<T>(s: seq<T>, x: T)
    ensures Distinct(s + [x]) == if x in s then Distinct(s) else Distinct(s) + [x]
  {
    assert (s + [x])[..|s|] == s;
  }

  function Kept<T>(s: seq<T>, keep: T -> bool): seq<T> {
    if s == [] then [] else Kept(s[..|s| - 1], keep) + (if keep(s[|s| - 1]) then [s[|s| - 1]] else [])
  }

  lemma {:induction false} KeptIsExact<T(!new)>(s: seq<T>, keep: T -> bool)
    ensures forall x :: x in Kept(s, keep) <==> x in s && keep(x)
    ensures NoDuplicates(s) ==> NoDuplicates(Kept(s, keep))
  {
    if s != [] {
      KeptIsExact(s[..|s| - 1], keep);
      assert s == s[..|s| - 1] + [s[|s| - 1]];
    }
  }

  lemma KeptSnoc<T>(s: seq<T>, x: T, keep: T -> bool)
    ensures Kept(s + [x], keep) == Kept(s, keep) + (if keep(x) then [x] else [])
  {
    assert (s + [x])[..|s|] == s;
  }

  lemma {:induction false} KeptCons<T>(x: T, s: seq<T>, keep: T -> bool)
    ensures Kept([x] + s, keep) == (if keep(x) then [x] else []) + Kept(s, keep)
  {
    if s == [] {
      assert [x] + s == [x] && [x][..0] == [];
    } else {
      var init, last := s[..|s| - 1], s[|s| - 1];
      KeptCons(x, init, keep);
      assert [x] + s == ([x] + init) + [last] && s == init + [last];
      KeptSnoc([x] + init, last, keep);
    }
  }

  lemma {:induction false} KeptCongruent<T>(s: seq<T>, a: T -> bool, b: T -> bool)
    requires forall x :: x in s ==> a(x) == b(x)
    ensures Kept(s, a) == Kept(s, b)
  {
    if s != [] {
      assert s[|s| - 1] in s;
      KeptCongruent(s[..|s| - 1], a, b);
    }
  }

  lemma {:induction false} KeptNothing<T>(s: seq<T>, keep: T -> bool)
    requires forall x :: x in s ==> !keep(x)
    ensures Kept(s, keep) == []
  {
    if s != [] {
      KeptNothing(s[..|s| - 1], keep);
    }
  }

  /** No kept value is listed twice. */
  ghost predicate NoRepeat<T(!new)>(s: seq<T>, keep: T -> bool) {
    forall i, j :: 0 <= i < j < |s| && keep(s[i]) ==> s[i] != s[j]
  }

  lemma NoRepeatSnoc<T(!new)>(s: seq<T>, x: T, keep: T -> bool)
    ensures NoRepeat(s + [x], keep) <==> NoRepeat(s, keep) && (keep(x) ==> x !in s)
  {
    var t := s + [x];
    if NoRepeat(t, keep) {
      forall i, j | 0 <= i < j < |s| && keep(s[i]) ensures s[i] != s[j] {
        assert t[i] != t[j];
      }
      forall i | 0 <= i < |s| && keep(x) ensures s[i] != x {
        assert t[|s|] == x;
        assert keep(t[i]) ==> t[i] != t[|s|];
      }
    }
  }

  /** Filtering leaves no duplicate exactly when no kept value is listed twice. */
  lemma {:induction false} KeptNoDuplicates<T(!new)>(s: seq<T>, keep: T -> bool)
    ensures NoDuplicates(Kept(s, keep)) <==> NoRepeat(s, keep)
  {
    if s != [] {
      var init, last := s[..|s| - 1], s[|s| - 1];
      assert s == init + [last];
      KeptNoDuplicates(init, keep);
      KeptIsExact(init, keep);
      NoRepeatSnoc(init, last, keep);
      NoRepeatSnoc(Kept(init, keep), last, (x: T) => true);
      assert Kept(init, keep) + [] == Kept(init, keep);
      assert NoDuplicates(Kept(init, keep) + [last]) <==> NoRepeat(Kept(init, keep) + [last], (x: T) => true);
      assert NoDuplicates(Kept(init, keep)) <==> NoRepeat(Kept(init, keep), (x: T) => true);
    }
  }

  lemma {:induction false} CountAtMostOnce<T(!new)>(s: seq<T>, x: T)
    requires NoDuplicates(s)
    ensures multiset(s)[x] <= 1
  {
    if s != [] {
      var init, last := s[..|s| - 1], s[|s| - 1];
      assert s == init + [last];
      CountAtMostOnce(init, x);
      if last == x {
        assert x !in init;
        assert multiset(init)[x] == 0;
      }
    }
  }

  /** A list without duplicates cannot contain all the occurrences of one with. */
  lemma RepeatedStaysRepeated<T(!new)>(s: seq<T>, t: seq<T>)
    requires forall n :: multiset(s)[n] >= multiset(t)[n]
    requires NoDuplicates(s)
    ensures NoDuplicates(t)
  {
    forall i, j | 0 <= i < j < |t| ensures t[i] != t[j] {
      assert t == t[..j] + [t[j]] + t[j + 1..];
      assert t[i] in t[..j];
      assert multiset(t[..j])[t[i]] >= 1;
      CountAtMostOnce(s, t[i]);
    }
  }
}
