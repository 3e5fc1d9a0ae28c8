// What the levelling loop computes: longest incoming paths, and what becomes of them when an id is
// declared more than once.
module LevelLaws {
  import opened Digraph
  import opened EditorGraph
  import opened Levels
  import opened OrderedSets
  import opened Sorting
  import opened Workflow

  // -------------------------------------------- a node queued once, and spares

  lemma CleanStep(nodes: set<Id>, arcs: seq<Arc>, degrees: map<Id, int>, ready: seq<Id>, levels: map<Id, nat>,
                  order: seq<Id>, id: Id, j: nat)
    requires Relaxing(nodes, arcs, degrees, ready, order, id, j) && j < |Targets(arcs, id)|
    requires Leveling(nodes, arcs, levels, order, id, j) && id in levels
    ensures
      var t := Targets(arcs, id)[j];
      && t in degrees && t != id
      && Relaxing(nodes, arcs, Relaxed(degrees, t), if degrees[t] == 1 then ready + [t] else ready, order, id, j + 1)
      && Leveling(nodes, arcs, RaiseTo(levels, t, levels[id] + 1), order, id, j + 1)
  {
    RelaxTarget(nodes, arcs, degrees, ready, order, id, j);
    KahnRelax(nodes, arcs, degrees, ready, order, id, j);
    TakenUp(nodes, arcs, levels, order, id, j);
    LevelRaise(nodes, arcs, levels, order, id, j);
    RelaxingKeys(nodes, arcs, degrees, ready, order, id, j);
  }

  lemma RelaxingKeys(nodes: set<Id>, arcs: seq<Arc>, degrees: map<Id, int>, ready: seq<Id>, order: seq<Id>, id: Id, j: nat)
    requires Relaxing(nodes, arcs, degrees, ready, order, id, j)
    ensures degrees.Keys == nodes
  {
  }

  lemma TakenUp(nodes: set<Id>, arcs: seq<Arc>, levels: map<Id, nat>, order: seq<Id>, id: Id, j: nat)
    requires Leveling(nodes, arcs, levels, order, id, j)
    ensures id in order && id in levels
  {
  }

  /** What the levels of a whole graph satisfy. */
  ghost predicate LongestPathLevels(nodes: set<Id>, arcs: seq<Arc>, levels: map<Id, nat>) {
    && (forall n :: n in nodes && !BehindCycle(arcs, n) ==> n in levels && IsLongest(arcs, n, levels[n]))
    && (forall a :: a in arcs && a.0 in nodes && !BehindCycle(arcs, a.0) ==> Raised(levels, a.0, a.1))
  }

  lemma LevelsComplete(nodes: set<Id>, arcs: seq<Arc>, indegree: map<Id, int>, levels: map<Id, nat>, order: seq<Id>)
    requires KahnState(nodes, arcs, indegree, [], order) && Leveled(nodes, arcs, levels, order)
    ensures LongestPathLevels(nodes, arcs, levels) && levels.Keys <= nodes
  {
    hide BehindCycle, IsLongest;
    KahnFinish(nodes, arcs, indegree, order);
    forall n | n in nodes && !BehindCycle(arcs, n) ensures n in levels && IsLongest(arcs, n, levels[n]) {
      LevelsAreLongest(nodes, arcs, levels, order, n);
    }
  }

  lemma RootsHaveLevels(nodes: set<Id>, arcs: seq<Arc>, indegree: map<Id, int>, roots: seq<Id>, levels: map<Id, nat>)
    requires KahnState(nodes, arcs, indegree, roots, [])
    requires levels == AtZero(roots)
    ensures Leveled(nodes, arcs, levels, [])
  {
    forall t | t in nodes && t !in levels ensures exists s :: (s, t) in arcs {
      assert Elements([]) == {};
      PendingZero(arcs, t, {});
    }
    LevelStart(nodes, arcs, levels);
  }

  /** The node taken up has its level, and its arcs are due. */
  lemma TakeUp(nodes: set<Id>, arcs: seq<Arc>, indegree: map<Id, int>, base: seq<Id>, levels: map<Id, nat>, order: seq<Id>,
               k: nat)
    requires KahnState(nodes, arcs, indegree, base, order) && Leveled(nodes, arcs, levels, order) && k < |base|
    ensures Relaxing(nodes, arcs, indegree, base[..k] + base[k + 1..], order + [base[k]], base[k], 0)
    ensures base[k] in nodes && base[k] !in order && base[k] in levels
    ensures Leveling(nodes, arcs, levels, order + [base[k]], base[k], 0)
  {
    hide Leveled, Leveling, Relaxing;
    KahnPop(nodes, arcs, indegree, base, order, k);
    assert base[k] in base;
    PendingZero(arcs, base[k], Elements(order));
    LevelPop(nodes, arcs, levels, order, base[k]);
  }

  /** Releasing the targets of a node, seen from the nodes queued once: both lists grow alike. */
  lemma {:induction false} ReleaseClean(nodes: set<Id>, arcs: seq<Arc>, p: Progress, base: seq<Id>, order: seq<Id>, id: Id, j: nat)
    returns (grown: seq<Id>)
    requires Relaxing(nodes, arcs, p.degrees, base, order, id, j) && Leveling(nodes, arcs, p.levels, order, id, j)
    requires id in p.levels && j <= |Targets(arcs, id)|
    requires forall t :: t in Targets(arcs, id) ==> t in p.degrees
    ensures
      var r := ReleaseAll(Targets(arcs, id)[j..], p.levels[id], p);
      && r.ready == p.ready + grown
      && KahnState(nodes, arcs, r.degrees, base + grown, order) && Leveled(nodes, arcs, r.levels, order)
    decreases |Targets(arcs, id)| - j
  {
    hide Relaxing, KahnState, Leveling, Leveled, ReleaseAll, Targets;
    var targets := Targets(arcs, id);
    if j == |targets| {
      grown := [];
      ReleaseEnds(targets, p.levels[id], p);
      assert p.ready + [] == p.ready && base + [] == base;
      KahnRelaxed(nodes, arcs, p.degrees, base, order, id);
      LevelDone(nodes, arcs, p.levels, order, id);
    } else {
      CleanStep(nodes, arcs, p.degrees, base, p.levels, order, id, j);
      ReleaseStep(targets, j, p.levels[id], p);
      var t := targets[j];
      var q, one := ReleaseOne(t, p.levels[id], p), if p.degrees[t] == 1 then [t] else [];
      assert q.ready == p.ready + one && base + one == if p.degrees[t] == 1 then base + [t] else base;
      var rest := ReleaseClean(nodes, arcs, q, base + one, order, id, j + 1);
      grown := one + rest;
      assert p.ready + grown == q.ready + rest && base + grown == (base + one) + rest;
    }
  }

  /** The ready list holds the nodes queued once and `m` more of `z`. */
  ghost predicate Spare(ready: seq<Id>, base: seq<Id>, m: nat, z: Id) {
    multiset(ready) == multiset(base)[z := multiset(base)[z] + m]
  }

  lemma ForemostIsFirst(all: seq<Id>, ready: seq<Id>)
    requires ready != [] && forall n :: n in ready ==> n in all
    ensures Foremost(all, ready)[0] in ready
    ensures forall n :: n in ready ==> DeclaredAt(all, Foremost(all, ready)[0]) <= DeclaredAt(all, n)
  {
    var le := (a, b) => DeclaredAt(all, a) <= DeclaredAt(all, b);
    var sorted := Foremost(all, ready);
    ForemostPermutes(all, ready);
    SameMembers(ready, sorted);
    assert TotalOrder(le, Elements(all)) by {
      forall a, b | a in Elements(all) && b in Elements(all) && le(a, b) && le(b, a) ensures a == b {
        DeclaredAtFinds(all, a);
        DeclaredAtFinds(all, b);
      }
    }
    SortSorts(ready, le, Elements(all));
    assert sorted[0] in sorted;
    forall n | n in ready ensures DeclaredAt(all, sorted[0]) <= DeclaredAt(all, n) {
      var i :| 0 <= i < |sorted| && sorted[i] == n;
      assert le(sorted[0], sorted[i]);
    }
  }

  /** Nothing is foremost that was declared last, unless there is nothing else. */
  lemma LastIsHindmost(all: seq<Id>, ready: seq<Id>, n: Id)
    requires ready != [] && n in ready && forall x :: x in ready ==> x in all
    requires all != [] && n != all[|all| - 1]
    ensures Foremost(all, ready)[0] != all[|all| - 1]
  {
    ForemostIsFirst(all, ready);
    DeclaredAtFinds(all, n);
  }

  lemma WithoutOne(ready: seq<Id>, sorted: seq<Id>)
    requires multiset(sorted) == multiset(ready) && sorted != []
    ensures multiset(sorted[1..]) == multiset(ready) - multiset{sorted[0]}
    ensures sorted[0] in ready && forall n :: n in sorted[1..] ==> n in ready
  {
    assert sorted == [sorted[0]] + sorted[1..];
    assert sorted[0] in multiset(sorted);
    forall n | n in sorted[1..] ensures n in ready {
      assert n in multiset(sorted);
    }
  }

  lemma SpareLosesOne(ready: seq<Id>, left: seq<Id>, base: seq<Id>, m: nat, z: Id, k: nat, grown: seq<Id>)
    requires Spare(ready, base, m, z) && k < |base|
    requires multiset(left) == multiset(ready) - multiset{base[k]}
    ensures Spare(left + grown, base[..k] + base[k + 1..] + grown, m, z)
  {
    assert base == base[..k] + [base[k]] + base[k + 1..];
    assert multiset(base) == multiset(base[..k]) + multiset{base[k]} + multiset(base[k + 1..]);
  }

  // ----------------------------------------------- when everything is settled

  lemma {:induction false} ReleaseIdle(targets: seq<Id>, level: nat, p: Progress)
    requires forall t :: t in targets ==> t in p.degrees && t in p.levels && p.levels[t] >= level + 1
    requires forall n :: n in p.degrees ==> p.degrees[n] <= 0
    ensures
      var r := ReleaseAll(targets, level, p);
      r.ready == p.ready && r.levels == p.levels && forall n :: n in r.degrees ==> r.degrees[n] <= 0
    decreases targets
  {
    if targets != [] {
      assert targets[0] in targets;
      assert RaiseTo(p.levels, targets[0], level + 1) == p.levels;
      ReleaseIdle(targets[1..], level, ReleaseOne(targets[0], level, p));
    }
  }

  /** Taking nodes up again changes no level once every arc goes up. */
  lemma {:induction false} TailIsIdle(all: seq<Id>, arcs: seq<Arc>, p: Progress)
    requires WithinDegrees(arcs, p.degrees) && forall n :: n in p.degrees ==> p.degrees[n] <= 0
    requires forall n :: n in p.ready ==> n in p.levels
    requires forall a :: a in arcs ==> Raised(p.levels, a.0, a.1)
    ensures LevelsFrom(all, arcs, p) == p.levels
    decreases |p.ready|
  {
    hide ReleaseAll, Foremost, Targets, LevelsFrom;
    if p.ready == [] {
      LevelsEnd(all, arcs, p);
    } else {
      var sorted := Foremost(all, p.ready);
      var id := sorted[0];
      ForemostPermutes(all, p.ready);
      WithoutOne(p.ready, sorted);
      LevelsStep(all, arcs, p, sorted, p.levels[id]);
      TargetsAreArcs(arcs, id);
      forall t | t in Targets(arcs, id) ensures t in p.levels && p.levels[t] >= p.levels[id] + 1 {
        var a := (id, t);
        assert a in arcs && Raised(p.levels, a.0, a.1);
      }
      var q := p.(ready := sorted[1..]);
      ReleaseIdle(Targets(arcs, id), p.levels[id], q);
      TailIsIdle(all, arcs, ReleaseAll(Targets(arcs, id), p.levels[id], q));
    }
  }

  /** With every node taken up and no cycle, spares of a node find everything settled. */
  lemma SparesFindAllSettled(all: seq<Id>, nodes: set<Id>, arcs: seq<Arc>, p: Progress, order: seq<Id>)
    requires KahnState(nodes, arcs, p.degrees, [], order) && Leveled(nodes, arcs, p.levels, order)
    requires Acyclic(arcs) && forall n :: n in p.ready ==> n in nodes
    ensures WithinDegrees(arcs, p.degrees) && LevelsFrom(all, arcs, p) == p.levels
  {
    hide LevelsFrom;
    KahnComplete(nodes, arcs, p.degrees, order);
    assert Elements(order) == nodes by {
      assert |order| == |nodes|;
    }
    forall n | n in p.degrees ensures p.degrees[n] <= 0 {
      EliminatedPendingZero(arcs, order, n);
    }
    TakenUpHaveLevels(nodes, arcs, p.levels, order);
    TailIsIdle(all, arcs, p);
  }

  /** What the loop keeps: Kahn's elimination of the nodes queued once, with spares of the last id. */
  ghost predicate Clean(all: seq<Id>, arcs: seq<Arc>, p: Progress, base: seq<Id>, order: seq<Id>, m: nat) {
    && all != [] && (forall n :: n in p.ready ==> n in all)
    && KahnState(Elements(all), arcs, p.degrees, base, order) && Leveled(Elements(all), arcs, p.levels, order)
    && Spare(p.ready, base, m, all[|all| - 1])
  }

  lemma ForemostOfBase(all: seq<Id>, arcs: seq<Arc>, p: Progress, base: seq<Id>, order: seq<Id>, m: nat) returns (k: nat)
    requires Clean(all, arcs, p, base, order, m) && base != []
    ensures p.ready != [] && k < |base| && base[k] == Foremost(all, p.ready)[0]
  {
    hide KahnState, Leveled, Foremost;
    var z := all[|all| - 1];
    forall n | n in base ensures n in p.ready {
      assert n in multiset(base);
      assert n in multiset(p.ready);
    }
    assert base[0] in base;
    ForemostIsFirst(all, p.ready);
    var id := Foremost(all, p.ready)[0];
    if id == z && base[0] != z {
      LastIsHindmost(all, p.ready, base[0]);
    }
    assert id in base by {
      assert id in multiset(p.ready);
      assert id != z ==> id in multiset(base);
    }
    k :| 0 <= k < |base| && base[k] == id;
  }

  lemma {:induction false} CleanRuns(all: seq<Id>, arcs: seq<Arc>, p: Progress, base: seq<Id>, order: seq<Id>, m: nat)
    requires Clean(all, arcs, p, base, order, m) && (m > 0 ==> Acyclic(arcs))
    ensures WithinDegrees(arcs, p.degrees)
    ensures LongestPathLevels(Elements(all), arcs, LevelsFrom(all, arcs, p))
    decreases |p.ready| + |Positive(p.degrees)|
  {
    hide LevelsFrom, LongestPathLevels, ReleaseAll, Foremost, Targets, Leveled, Leveling, Relaxing, Positive, Acyclic;
    var nodes := Elements(all);
    if base == [] {
      LevelsComplete(nodes, arcs, p.degrees, p.levels, order);
      if m == 0 {
        assert p.ready == [] by {
          assert multiset(p.ready) == multiset([]);
          assert |multiset(p.ready)| == 0;
        }
        LevelsEnd(all, arcs, p);
      } else {
        SparesFindAllSettled(all, nodes, arcs, p, order);
      }
    } else {
      var k := ForemostOfBase(all, arcs, p, base, order, m);
      CleanTurn(all, arcs, p, base, order, m, k);
    }
  }

  lemma CleanTurn(all: seq<Id>, arcs: seq<Arc>, p: Progress, base: seq<Id>, order: seq<Id>, m: nat, k: nat)
    requires Clean(all, arcs, p, base, order, m) && (m > 0 ==> Acyclic(arcs))
    requires p.ready != [] && k < |base| && base[k] == Foremost(all, p.ready)[0]
    ensures WithinDegrees(arcs, p.degrees)
    ensures LongestPathLevels(Elements(all), arcs, LevelsFrom(all, arcs, p))
    decreases |p.ready| + |Positive(p.degrees)|, 0
  {
    hide LevelsFrom, LongestPathLevels, ReleaseAll, Foremost, Targets, Leveled, Leveling, Relaxing, Positive, Acyclic, KahnState,
         Spare;
    var nodes, sorted, id := Elements(all), Foremost(all, p.ready), base[k];
    KahnIsWithin(nodes, arcs, p.degrees, base, order);
    ForemostPermutes(all, p.ready);
    WithoutOne(p.ready, sorted);
    TakeUp(nodes, arcs, p.degrees, base, p.levels, order, k);
    LevelsStep(all, arcs, p, sorted, p.levels[id]);
    var q := p.(ready := sorted[1..]);
    assert Targets(arcs, id)[0..] == Targets(arcs, id);
    var grown := ReleaseClean(nodes, arcs, q, base[..k] + base[k + 1..], order + [id], id, 0);
    SpareLosesOne(p.ready, sorted[1..], base, m, all[|all| - 1], k, grown);
    var r := ReleaseAll(Targets(arcs, id), p.levels[id], q);
    ReleaseEffect(Targets(arcs, id), p.levels[id], q);
    TargetsAreNodes(arcs, nodes, p.degrees, id);
    CleanRuns(all, arcs, r, base[..k] + base[k + 1..] + grown, order + [id], m);
  }

  lemma KahnIsWithin(nodes: set<Id>, arcs: seq<Arc>, degrees: map<Id, int>, ready: seq<Id>, order: seq<Id>)
    requires KahnState(nodes, arcs, degrees, ready, order)
    ensures WithinDegrees(arcs, degrees) && degrees.Keys == nodes
  {
  }

  lemma TargetsAreNodes(arcs: seq<Arc>, nodes: set<Id>, degrees: map<Id, int>, id: Id)
    requires WithinDegrees(arcs, degrees) && degrees.Keys == nodes
    ensures forall t :: t in Targets(arcs, id) ==> t in nodes
  {
    TargetsAreArcs(arcs, id);
    forall t | t in Targets(arcs, id) ensures t in nodes {
      assert (id, t) in arcs;
    }
  }

  // ------------------------------------------------------ ids declared twice

  /** No id without incoming arcs is declared twice; unique ids are more than enough. */
  ghost predicate UniqueRoots(all: seq<Id>, arcs: seq<Arc>) {
    NoRepeat(all, id => Pending(arcs, id, {}) == 0)
  }

  lemma UniqueIdsHaveUniqueRoots(all: seq<Id>, arcs: seq<Arc>)
    requires NoDuplicates(all)
    ensures UniqueRoots(all, arcs)
  {
  }

  /** No id is declared twice, other than the one declared last. */
  ghost predicate OnlyLastRepeats(all: seq<Id>) {
    all != [] ==> NoRepeat(all, id => id != all[|all| - 1])
  }

  lemma {:induction false} CountOfKept(s: seq<Id>, keep: Id -> bool, n: Id)
    ensures multiset(Kept(s, keep))[n] <= multiset(s)[n]
  {
    if s != [] {
      CountOfKept(s[..|s| - 1], keep, n);
      assert s == s[..|s| - 1] + [s[|s| - 1]];
    }
  }

  lemma {:induction false} ListedOnce(s: seq<Id>, n: Id)
    requires forall i, j :: 0 <= i < j < |s| && s[i] == n ==> s[j] != n
    ensures multiset(s)[n] <= 1
  {
    if s != [] {
      var init := s[..|s| - 1];
      ListedOnce(init, n);
      assert s == init + [s[|s| - 1]];
      if s[|s| - 1] == n {
        assert n !in init;
        assert multiset(init)[n] == 0;
      }
    }
  }

  lemma CountOfDistinct(s: seq<Id>, n: Id)
    ensures multiset(Distinct(s))[n] == if n in s then 1 else 0
  {
    DistinctIsExact(s);
    CountAtMostOnce(Distinct(s), n);
    assert n in multiset(Distinct(s)) <==> n in Distinct(s);
  }

  /** Where ids repeat as allowed, the roots are distinct nodes and spares of the last id. */
  lemma RootsWithSpares(all: seq<Id>, keep: Id -> bool) returns (m: nat)
    requires all != [] && OnlyLastRepeats(all)
    ensures Spare(Kept(all, keep), Distinct(Kept(all, keep)), m, all[|all| - 1])
  {
    hide Kept, Distinct;
    var roots, z := Kept(all, keep), all[|all| - 1];
    forall n | n != z ensures multiset(roots)[n] == multiset(Distinct(roots))[n] {
      CountOfKept(all, keep, n);
      ListedOnce(all, n);
      CountOfDistinct(roots, n);
      assert n in multiset(roots) <==> n in roots;
    }
    CountOfDistinct(roots, z);
    assert z in multiset(roots) <==> z in roots;
    m := multiset(roots)[z] - multiset(Distinct(roots))[z];
  }

  lemma SpareNothing(base: seq<Id>, z: Id)
    ensures Spare(base, base, 0, z)
  {
  }

  /** The loop starts clean, with spares only of an id that may repeat. */
  lemma StartsClean(all: seq<Id>, arcs: seq<Arc>) returns (base: seq<Id>, m: nat)
    requires all != [] && WithinDegrees(arcs, LevellingStart(all, arcs).degrees)
    requires UniqueRoots(all, arcs) || OnlyLastRepeats(all)
    ensures Clean(all, arcs, LevellingStart(all, arcs), base, [], m)
    ensures UniqueRoots(all, arcs) ==> m == 0
  {
    hide Pending, Kept, Distinct;
    var p, keep := LevellingStart(all, arcs), id => Pending(arcs, id, {}) == 0;
    KeptIsExact(all, keep);
    if UniqueRoots(all, arcs) {
      KeptNoDuplicates(all, keep);
      base, m := p.ready, 0;
      SpareNothing(base, all[|all| - 1]);
    } else {
      m := RootsWithSpares(all, keep);
      base := Distinct(p.ready);
      DistinctIsExact(p.ready);
    }
    KahnStart(Elements(all), arcs, p.degrees, base);
    assert AtZero(base) == p.levels;
    RootsHaveLevels(Elements(all), arcs, p.degrees, base, p.levels);
  }

  /**
   * Every node that no cycle leads to gets its longest incoming path: on any graph if its roots are
   * listed once, and on every acyclic graph if no id repeats other than the last.
   */
  lemma LevelsAreRight(all: seq<Id>, edges: seq<Edge>)
    requires
      var arcs := EditorArcs(all, edges, false);
      UniqueRoots(all, arcs) || (Acyclic(arcs) && OnlyLastRepeats(all))
    ensures LongestPathLevels(Elements(all), EditorArcs(all, edges, false), LevelsOf(all, edges))
  {
    hide LongestPathLevels, LevellingStart, Acyclic, LevelsFrom, UniqueRoots, OnlyLastRepeats, EditorArcs;
    var arcs := EditorArcs(all, edges, false);
    ArcsStayDeclared(all, edges, false);
    StartIsWithin(all, arcs);
    if all == [] {
      NothingToLevel(arcs, LevelsOf(all, edges));
    } else {
      var base, m := StartsClean(all, arcs);
      CleanRuns(all, arcs, LevellingStart(all, arcs), base, [], m);
    }
  }

  lemma StartIsWithin(all: seq<Id>, arcs: seq<Arc>)
    requires forall a :: a in arcs ==> a.0 in Elements(all) && a.1 in Elements(all)
    ensures WithinDegrees(arcs, LevellingStart(all, arcs).degrees)
  {
  }

  lemma NothingToLevel(arcs: seq<Arc>, levels: map<Id, nat>)
    ensures LongestPathLevels(Elements([]), arcs, levels)
  {
  }

  // ------------------------------------------------------- three ids at most

  ghost predicate HasIn(arcs: seq<Arc>, n: Id) {
    exists s :: (s, n) in arcs
  }

  ghost predicate HasOut(arcs: seq<Arc>, n: Id) {
    exists t :: (n, t) in arcs
  }

  /** Three nodes without a cycle have no walk of four. */
  lemma NoFourInARow(arcs: seq<Arc>, nodes: set<Id>, a: Id, b: Id, c: Id, d: Id)
    requires Acyclic(arcs) && |nodes| <= 3 && {a, b, c, d} <= nodes
    ensures !((a, b) in arcs && (b, c) in arcs && (c, d) in arcs)
  {
    var p := [a, b, c, d];
    if (a, b) in arcs && (b, c) in arcs && (c, d) in arcs {
      assert IsWalk(arcs, p);
      forall i, j | 0 <= i < j < 4 ensures p[i] != p[j] {
        SubWalk(arcs, p, i, j);
        assert !OnCycle(arcs, p[i]);
      }
      NoDuplicatesBounded(p, nodes);
    }
  }

  /** Roots are at level zero, and a node between two others is one above its root. */
  ghost predicate Flat(arcs: seq<Arc>, levels: map<Id, nat>) {
    forall n :: n in levels ==>
      (!HasIn(arcs, n) ==> levels[n] == 0) && (HasIn(arcs, n) && HasOut(arcs, n) ==> levels[n] == 1)
  }

  /** What the loop keeps on three nodes, however often they are taken up; `done` have been. */
  ghost predicate Settling(nodes: set<Id>, arcs: seq<Arc>, p: Progress, done: set<Id>) {
    && Sane(nodes, p.degrees, p.ready, p.levels) && done <= p.levels.Keys
    && Covering(arcs, p.degrees, p.ready, done, [])
    && Flat(arcs, p.levels)
    && (forall a :: a in arcs && a.0 in done ==> Raised(p.levels, a.0, a.1))
  }

  lemma {:induction false} ReleaseCovers(arcs: seq<Arc>, targets: seq<Id>, level: nat, p: Progress, done: set<Id>)
    requires forall t :: t in targets ==> t in p.degrees
    requires Covering(arcs, p.degrees, p.ready, done, targets)
    ensures var r := ReleaseAll(targets, level, p); Covering(arcs, r.degrees, r.ready, done, [])
    decreases targets
  {
    hide Covering;
    if targets != [] {
      assert targets == [targets[0]] + targets[1..];
      var q := ReleaseOne(targets[0], level, p);
      CoverRelax(arcs, p.degrees, q.degrees, p.ready, done, targets[0], targets[1..]);
      ReleaseCovers(arcs, targets[1..], level, q, done);
    }
  }

  /** Levels after a release: flat still, and every arc out of a node taken up goes up. */
  lemma FlatRelease(nodes: set<Id>, arcs: seq<Arc>, before: map<Id, nat>, after: map<Id, nat>, done: set<Id>, id: Id)
    requires |nodes| <= 3 && Acyclic(arcs) && (forall a :: a in arcs ==> a.0 in nodes && a.1 in nodes)
    requires Flat(arcs, before) && done <= before.Keys && id in before && before.Keys <= nodes
    requires forall a :: a in arcs && a.0 in done ==> Raised(before, a.0, a.1)
    requires forall n :: n in after <==> n in before || (id, n) in arcs
    requires forall n :: n in before && (id, n) !in arcs ==> after[n] == before[n]
    requires forall n :: (id, n) in arcs ==>
      after[n] == if n in before && before[n] > before[id] + 1 then before[n] else before[id] + 1
    ensures Flat(arcs, after) && forall a :: a in arcs && a.0 in done + {id} ==> Raised(after, a.0, a.1)
  {
    forall n | n in after && (id, n) in arcs && HasOut(arcs, n) ensures before[id] == 0 && after[n] == 1 {
      var u :| (n, u) in arcs;
      assert HasIn(arcs, n);
      forall s ensures (s, id) !in arcs {
        if (s, id) in arcs {
          assert (s, id).0 in nodes && (id, n).1 in nodes && (n, u).1 in nodes && (id, n).0 in nodes;
          NoFourInARow(arcs, nodes, s, id, n, u);
        }
      }
    }
    forall n | n in after ensures !HasIn(arcs, n) ==> (id, n) !in arcs {
    }
    forall a | a in arcs && a.0 in done + {id} ensures Raised(after, a.0, a.1) {
      assert HasOut(arcs, a.0) && (a.0, a.1) == a;
      if a.0 == id {
        assert (id, id) !in arcs by {
          LoopIsCycle(arcs, id);
        }
      } else {
        assert Raised(before, a.0, a.1);
      }
    }
  }

  lemma LoopIsCycle(arcs: seq<Arc>, n: Id)
    ensures (n, n) in arcs ==> !Acyclic(arcs)
  {
    if (n, n) in arcs {
      assert IsWalkFromTo(arcs, [n, n], n, n);
      assert OnCycle(arcs, n);
    }
  }

  lemma FlatAfter(nodes: set<Id>, arcs: seq<Arc>, q: Progress, done: set<Id>, id: Id)
    requires |nodes| <= 3 && Acyclic(arcs) && WithinDegrees(arcs, q.degrees) && q.degrees.Keys == nodes
    requires Flat(arcs, q.levels) && done <= q.levels.Keys && id in q.levels && q.levels.Keys <= nodes
    requires forall a :: a in arcs && a.0 in done ==> Raised(q.levels, a.0, a.1)
    requires forall t :: t in Targets(arcs, id) ==> t in q.degrees
    ensures
      var r := ReleaseAll(Targets(arcs, id), q.levels[id], q);
      Flat(arcs, r.levels) && forall a :: a in arcs && a.0 in done + {id} ==> Raised(r.levels, a.0, a.1)
  {
    hide Flat, ReleaseAll, Targets, Acyclic, Raised;
    ReleaseEffect(Targets(arcs, id), q.levels[id], q);
    TargetsAreArcs(arcs, id);
    FlatRelease(nodes, arcs, q.levels, ReleaseAll(Targets(arcs, id), q.levels[id], q).levels, done, id);
  }

  lemma SettlingTurn(nodes: set<Id>, arcs: seq<Arc>, p: Progress, done: set<Id>, id: Id, rest: seq<Id>)
    requires |nodes| <= 3 && Acyclic(arcs) && WithinDegrees(arcs, p.degrees) && Settling(nodes, arcs, p, done)
    requires id in p.ready && (forall n :: n in p.ready ==> n == id || n in rest) && (forall n :: n in rest ==> n in p.ready)
    ensures id in p.levels && forall t :: t in Targets(arcs, id) ==> t in p.degrees
    ensures Settling(nodes, arcs, ReleaseAll(Targets(arcs, id), p.levels[id], p.(ready := rest)), done + {id})
  {
    hide Covering, Flat, ReleaseAll, Targets, Acyclic, Raised;
    var q := p.(ready := rest);
    TargetsAreNodes(arcs, nodes, p.degrees, id);
    CoverPop(arcs, p.degrees, p.ready, rest, done, id);
    ReleaseCovers(arcs, Targets(arcs, id), p.levels[id], q, done + {id});
    ReleaseStaysSane(nodes, Targets(arcs, id), p.levels[id], q);
    ReleaseEffect(Targets(arcs, id), p.levels[id], q);
    FlatAfter(nodes, arcs, q, done, id);
  }

  lemma {:induction false} SettlingRuns(all: seq<Id>, nodes: set<Id>, arcs: seq<Arc>, p: Progress, done: set<Id>)
    requires |nodes| <= 3 && Acyclic(arcs) && WithinDegrees(arcs, p.degrees) && Settling(nodes, arcs, p, done)
    ensures forall a :: a in arcs ==> Raised(LevelsFrom(all, arcs, p), a.0, a.1)
    decreases |p.ready| + |Positive(p.degrees)|
  {
    hide LevelsFrom, ReleaseAll, Foremost, Targets, Positive, Acyclic, Covering, Flat, Raised;
    if p.ready == [] {
      LevelsEnd(all, arcs, p);
      CoverEnds(arcs, p.degrees, done);
    } else {
      var sorted := Foremost(all, p.ready);
      ForemostPermutes(all, p.ready);
      SameMembers(p.ready, sorted);
      assert sorted == [sorted[0]] + sorted[1..];
      SettlingTurn(nodes, arcs, p, done, sorted[0], sorted[1..]);
      LevelsStep(all, arcs, p, sorted, p.levels[sorted[0]]);
      SettlingRuns(all, nodes, arcs, ReleaseAll(Targets(arcs, sorted[0]), p.levels[sorted[0]], p.(ready := sorted[1..])),
                   done + {sorted[0]});
    }
  }

  lemma StartsSettling(all: seq<Id>, arcs: seq<Arc>)
    requires WithinDegrees(arcs, LevellingStart(all, arcs).degrees)
    ensures Settling(Elements(all), arcs, LevellingStart(all, arcs), {})
  {
    hide Kept;
    var p := LevellingStart(all, arcs);
    KeptIsExact(all, id => Pending(arcs, id, {}) == 0);
    forall n | n in p.levels ensures !HasIn(arcs, n) && p.levels[n] == 0 {
      PendingZero(arcs, n, {});
    }
  }

  /** With at most three ids every edge of an acyclic graph goes up, whatever repeats. */
  lemma ThreeIdsAreRight(all: seq<Id>, edges: seq<Edge>)
    requires |Elements(all)| <= 3 && Acyclic(EditorArcs(all, edges, false))
    ensures forall a :: a in EditorArcs(all, edges, false) ==> Raised(LevelsOf(all, edges), a.0, a.1)
  {
    hide LevellingStart, Acyclic, LevelsFrom, EditorArcs, Raised;
    var arcs := EditorArcs(all, edges, false);
    ArcsStayDeclared(all, edges, false);
    StartIsWithin(all, arcs);
    StartsSettling(all, arcs);
    SettlingRuns(all, Elements(all), arcs, LevellingStart(all, arcs), {});
  }

  // ----------------------------------------- four ids, another than the last twice

  /** Two ways of different length from `r` to `x`, and `d` behind `x`. */
  function Ways(r: Id, x: Id, c: Id, d: Id): seq<Arc> {
    [(r, x), (r, c), (c, x), (x, d)]
  }

  lemma Different(r: Id, x: Id, c: Id, d: Id)
    requires NoDuplicates([r, x, c, d])
    ensures r != x && r != c && r != d && x != c && x != d && c != d
  {
    var s := [r, x, c, d];
    assert s[0] != s[1] && s[0] != s[2] && s[0] != s[3] && s[1] != s[2] && s[1] != s[3] && s[2] != s[3];
  }

  lemma WaysAround(r: Id, x: Id, c: Id, d: Id, n: Id)
    requires NoDuplicates([r, x, c, d])
    ensures
      var arcs := Ways(r, x, c, d);
      && Targets(arcs, n) == (if n == r then [x, c] else if n == c then [x] else if n == x then [d] else [])
      && Pending(arcs, n, {}) == (if n == x then 2 else if n == c || n == d then 1 else 0)
  {
    hide Targets, Pending;
    Different(r, x, c, d);
    var a0: seq<Arc>, a1, a2, a3, a4 := [], [(r, x)], [(r, x), (r, c)], [(r, x), (r, c), (c, x)], Ways(r, x, c, d);
    assert a0 + [(r, x)] == a1 && a1 + [(r, c)] == a2 && a2 + [(c, x)] == a3 && a3 + [(x, d)] == a4;
    NoArcs(n);
    TargetsSnoc(a0, (r, x), n);
    TargetsSnoc(a1, (r, c), n);
    TargetsSnoc(a2, (c, x), n);
    TargetsSnoc(a3, (x, d), n);
    PendingSnoc(a0, (r, x), n);
    PendingSnoc(a1, (r, c), n);
    PendingSnoc(a2, (c, x), n);
    PendingSnoc(a3, (x, d), n);
  }

  lemma NoArcs(n: Id)
    ensures Targets([], n) == [] && Pending([], n, {}) == 0
  {
  }

  lemma ReleaseSingle(a: Id, level: nat, p: Progress)
    requires a in p.degrees
    ensures ReleaseAll([], level, p) == p && ReleaseAll([a], level, p) == ReleaseOne(a, level, p)
  {
    assert [a][1..] == [];
  }

  lemma ReleasePair(a: Id, b: Id, level: nat, p: Progress)
    requires a in p.degrees && b in p.degrees
    ensures ReleaseAll([a, b], level, p) == ReleaseOne(b, level, ReleaseOne(a, level, p))
  {
    assert [a, b][1..] == [b];
    ReleaseSingle(b, level, ReleaseOne(a, level, p));
  }

  /** The four ids, the longer way through the one declared last. */
  ghost predicate Detour(all: seq<Id>, r: Id, x: Id, c: Id, d: Id) {
    NoDuplicates([r, x, c, d]) && all != [] && c == all[|all| - 1] && r in all && x in all && d in all
  }

  /**
   * The stages of the loop on these arcs, `r` listed twice: before `r` is taken up; once it has been,
   * with `c` waiting; taken up again, so that `x` waits as well and comes first; and `x` taken up too
   * early, with `d` at its level.
   */
  ghost predicate Stage(all: seq<Id>, r: Id, x: Id, c: Id, d: Id, k: nat, p: Progress) {
    && p.degrees.Keys == Elements(all) && r in all && x in all && c in all && d in all
    && (forall n :: n in p.ready ==> n in all && n in p.levels) && r in p.levels && p.levels[r] == 0
    && var ready, degrees, levels := multiset(p.ready), p.degrees, p.levels;
    match k
    case 0 =>
      && ready[r] >= 2 && ready[x] == ready[c] == ready[d] == 0
      && degrees[x] == 2 && degrees[c] == degrees[d] == 1 && x !in levels && c !in levels && d !in levels
    case 1 =>
      && ready[r] >= 1 && ready[c] == 1 && ready[x] == ready[d] == 0
      && degrees[x] == 1 && degrees[c] == 0 && degrees[d] == 1
      && x in levels && c in levels && d !in levels && levels[x] == levels[c] == 1
    case 2 =>
      && ready[c] == ready[x] == 1 && ready[d] == 0
      && degrees[x] <= 0 && degrees[c] <= 0 && degrees[d] == 1
      && x in levels && c in levels && d !in levels && levels[x] == levels[c] == 1
    case 3 =>
      && ready[c] == 1 && ready[x] == 0 && degrees[x] <= 0 && degrees[c] <= 0 && degrees[d] <= 0
      && x in levels && c in levels && d in levels && levels[x] == levels[c] == 1 && levels[d] == 2
    case _ => false
  }

  /** A node without targets comes and goes. */
  lemma BystanderPasses(all: seq<Id>, r: Id, x: Id, c: Id, d: Id, k: nat, p: Progress, id: Id, rest: seq<Id>)
    requires Detour(all, r, x, c, d) && Stage(all, r, x, c, d, k, p)
    requires id in p.ready && multiset(rest) == multiset(p.ready) - multiset{id} && (forall n :: n in rest ==> n in p.ready)
    requires id != r && id != x && id != c
    ensures Stage(all, r, x, c, d, k, ReleaseAll([], p.levels[id], p.(ready := rest)))
  {
    assert multiset(p.ready)[id] > 0;
  }

  /** What taking up `r` does to the counts and levels of its two targets. */
  lemma RootTakenUp(all: seq<Id>, r: Id, x: Id, c: Id, d: Id, p: Progress, rest: seq<Id>)
    requires x in p.degrees && c in p.degrees && x != c && r != x && r != c && r in p.levels && p.levels[r] == 0
    ensures
      var q := ReleaseAll([x, c], 0, p.(ready := rest));
      && q.degrees == p.degrees[x := p.degrees[x] - 1][c := p.degrees[c] - 1]
      && q.ready == rest + (if p.degrees[x] == 1 then [x] else []) + (if p.degrees[c] == 1 then [c] else [])
      && q.levels == RaiseTo(RaiseTo(p.levels, x, 1), c, 1)
  {
    ReleasePair(x, c, 0, p.(ready := rest));
  }

  function After(k: nat): nat {
    if k == 0 then 1 else if k == 1 then 2 else k
  }

  lemma StageBasics(all: seq<Id>, r: Id, x: Id, c: Id, d: Id, k: nat, p: Progress)
    requires Stage(all, r, x, c, d, k, p)
    ensures r in p.levels && p.levels[r] == 0 && r in all && x in all && c in all && d in all
    ensures x in p.degrees && c in p.degrees && d in p.degrees && forall n :: n in p.ready ==> n in all && n in p.levels
  {
  }

  lemma CountsAfterRoot(ready: seq<Id>, rest: seq<Id>, r: Id, x: Id, c: Id, pushX: bool, pushC: bool, n: Id)
    requires multiset(rest) == multiset(ready) - multiset{r} && x != c
    ensures
      multiset(rest + (if pushX then [x] else []) + (if pushC then [c] else []))[n] ==
      multiset(ready)[n] - (if n == r && multiset(ready)[n] > 0 then 1 else 0) +
      (if n == x && pushX then 1 else 0) + (if n == c && pushC then 1 else 0)
  {
  }

  lemma ReadyAfterRoot(ready: seq<Id>, rest: seq<Id>, after: seq<Id>, r: Id, x: Id, c: Id, d: Id, pushX: bool, pushC: bool)
    requires r in ready && multiset(rest) == multiset(ready) - multiset{r} && (forall n :: n in rest ==> n in ready)
    requires after == rest + (if pushX then [x] else []) + (if pushC then [c] else [])
    requires r != x && r != c && r != d && x != c && x != d && c != d
    ensures multiset(ready)[r] > 0
    ensures multiset(after)[r] == multiset(ready)[r] - 1 && multiset(after)[d] == multiset(ready)[d]
    ensures multiset(after)[x] == multiset(ready)[x] + (if pushX then 1 else 0)
    ensures multiset(after)[c] == multiset(ready)[c] + (if pushC then 1 else 0)
    ensures forall n :: n in after ==> n in ready || n == x || n == c
  {
    assert r in multiset(ready);
    CountsAfterRoot(ready, rest, r, x, c, pushX, pushC, r);
    CountsAfterRoot(ready, rest, r, x, c, pushX, pushC, x);
    CountsAfterRoot(ready, rest, r, x, c, pushX, pushC, c);
    CountsAfterRoot(ready, rest, r, x, c, pushX, pushC, d);
  }

  lemma RootAdvances(all: seq<Id>, r: Id, x: Id, c: Id, d: Id, k: nat, p: Progress, rest: seq<Id>)
    requires Detour(all, r, x, c, d) && Stage(all, r, x, c, d, k, p)
    requires r in p.ready && multiset(rest) == multiset(p.ready) - multiset{r} && (forall n :: n in rest ==> n in p.ready)
    ensures x in p.degrees && c in p.degrees
    ensures Stage(all, r, x, c, d, After(k), ReleaseAll([x, c], 0, p.(ready := rest)))
  {
    hide ReleaseAll, Stage;
    Different(r, x, c, d);
    StageBasics(all, r, x, c, d, k, p);
    hide Detour;
    RootTakenUp(all, r, x, c, d, p, rest);
    var q := ReleaseAll([x, c], 0, p.(ready := rest));
    ReadyAfterRoot(p.ready, rest, q.ready, r, x, c, d, p.degrees[x] == 1, p.degrees[c] == 1);
    StageAfterRoot(all, r, x, c, d, k, p, q);
  }

  lemma StageAfterRoot(all: seq<Id>, r: Id, x: Id, c: Id, d: Id, k: nat, p: Progress, q: Progress)
    requires r != x && r != c && r != d && x != c && x != d && c != d && Stage(all, r, x, c, d, k, p)
    requires multiset(p.ready)[r] > 0
    requires q.degrees == p.degrees[x := p.degrees[x] - 1][c := p.degrees[c] - 1]
    requires q.levels == RaiseTo(RaiseTo(p.levels, x, 1), c, 1)
    requires forall n :: n in q.ready ==> n in all && n in q.levels
    requires multiset(q.ready)[r] == multiset(p.ready)[r] - 1 && multiset(q.ready)[d] == multiset(p.ready)[d]
    requires multiset(q.ready)[x] == multiset(p.ready)[x] + (if p.degrees[x] == 1 then 1 else 0)
    requires multiset(q.ready)[c] == multiset(p.ready)[c] + (if p.degrees[c] == 1 then 1 else 0)
    ensures Stage(all, r, x, c, d, After(k), q)
  {
  }

  lemma JointAdvances(all: seq<Id>, r: Id, x: Id, c: Id, d: Id, k: nat, p: Progress, rest: seq<Id>)
    requires Detour(all, r, x, c, d) && Stage(all, r, x, c, d, k, p)
    requires x in p.ready && multiset(rest) == multiset(p.ready) - multiset{x} && (forall n :: n in rest ==> n in p.ready)
    ensures x in p.levels && d in p.degrees
    ensures Stage(all, r, x, c, d, 3, ReleaseAll([d], p.levels[x], p.(ready := rest)))
  {
    hide ReleaseAll;
    Different(r, x, c, d);
    assert multiset(p.ready)[x] > 0;
    ReleaseSingle(d, p.levels[x], p.(ready := rest));
    assert multiset(rest + [d]) == multiset(rest) + multiset{d};
  }

  /** The long way comes last and raises the joint, but nothing behind it. */
  lemma LongWayComesLast(all: seq<Id>, r: Id, x: Id, c: Id, d: Id, k: nat, p: Progress, rest: seq<Id>)
    requires Detour(all, r, x, c, d) && Stage(all, r, x, c, d, k, p) && WithinDegrees(Ways(r, x, c, d), p.degrees)
    requires p.ready != [] && Foremost(all, p.ready) == [c] + rest
    ensures LevelsFrom(all, Ways(r, x, c, d), p) == p.levels[x := 2] && k == 3
  {
    hide LevelsFrom, Foremost, ReleaseAll, Ways, Targets;
    Different(r, x, c, d);
    ForemostPermutes(all, p.ready);
    assert ([c] + rest)[1..] == rest;
    WithoutOne(p.ready, [c] + rest);
    assert forall n :: n in p.ready ==> multiset(p.ready)[n] > 0;
    forall n | n in p.ready ensures n == c {
      if n != c {
        LastIsHindmost(all, p.ready, n);
      }
    }
    assert rest == [] by {
      assert multiset(rest)[c] == 0;
      assert forall n :: n in multiset(rest) ==> n in rest;
      assert multiset(rest) == multiset{};
      assert |rest| == |multiset(rest)|;
    }
    assert multiset(p.ready)[x] == 0 && k == 3 by {
      assert x !in p.ready && r !in p.ready;
    }
    WaysAround(r, x, c, d, c);
    LevelsStep(all, Ways(r, x, c, d), p, [c] + rest, p.levels[c]);
    var q := p.(ready := rest);
    ReleaseSingle(x, p.levels[c], q);
    LevelsEnd(all, Ways(r, x, c, d), ReleaseAll([x], p.levels[c], q));
  }

  /** From any stage on, the loop ends with `x` and the node behind it at the same level. */
  lemma {:induction false} DetourRuns(all: seq<Id>, r: Id, x: Id, c: Id, d: Id, k: nat, p: Progress)
    requires Detour(all, r, x, c, d) && Stage(all, r, x, c, d, k, p) && WithinDegrees(Ways(r, x, c, d), p.degrees)
    ensures var levels := LevelsFrom(all, Ways(r, x, c, d), p); x in levels && d in levels && levels[x] == levels[d]
    decreases |p.ready| + |Positive(p.degrees)|
  {
    hide LevelsFrom, Foremost, ReleaseAll, Ways, Targets, Positive;
    Different(r, x, c, d);
    assert p.ready != [] by {
      assert r in multiset(p.ready) || c in multiset(p.ready);
    }
    var sorted := Foremost(all, p.ready);
    var id, rest, q := sorted[0], sorted[1..], p.(ready := sorted[1..]);
    ForemostPermutes(all, p.ready);
    WithoutOne(p.ready, sorted);
    assert sorted == [id] + rest;
    if id == c {
      LongWayComesLast(all, r, x, c, d, k, p, rest);
      StageThree(all, r, x, c, d, p);
    } else {
      WaysAround(r, x, c, d, id);
      LevelsStep(all, Ways(r, x, c, d), p, sorted, p.levels[id]);
      var next := ReleaseAll(Targets(Ways(r, x, c, d), id), p.levels[id], q);
      if id == r {
        RootAdvances(all, r, x, c, d, k, p, rest);
        StageBasics(all, r, x, c, d, k, p);
        DetourRuns(all, r, x, c, d, After(k), next);
      } else if id == x {
        JointAdvances(all, r, x, c, d, k, p, rest);
        DetourRuns(all, r, x, c, d, 3, next);
      } else {
        BystanderPasses(all, r, x, c, d, k, p, id, rest);
        DetourRuns(all, r, x, c, d, k, next);
      }
    }
  }

  lemma StageThree(all: seq<Id>, r: Id, x: Id, c: Id, d: Id, p: Progress)
    requires Stage(all, r, x, c, d, 3, p)
    ensures x in p.levels && d in p.levels && p.levels[d] == 2
  {
  }

  lemma {:induction false} CountTwice(s: seq<Id>, keep: Id -> bool, i: nat, j: nat)
    requires i < j < |s| && s[i] == s[j] && keep(s[i])
    ensures multiset(Kept(s, keep))[s[i]] >= 2
  {
    assert s == s[..j] + [s[j]] + s[j + 1..];
    CountKeptAt(s[..j], keep, i);
    CountOfParts(s[..j] + [s[j]], s[j + 1..], keep, s[i]);
    KeptSnoc(s[..j], s[j], keep);
    assert s[..j][i] == s[i];
  }

  lemma {:induction false} CountKeptAt(s: seq<Id>, keep: Id -> bool, i: nat)
    requires i < |s| && keep(s[i])
    ensures multiset(Kept(s, keep))[s[i]] >= 1
  {
    KeptIsExact(s, keep);
    assert s[i] in Kept(s, keep);
    assert s[i] in multiset(Kept(s, keep));
  }

  lemma {:induction false} CountOfParts(s: seq<Id>, t: seq<Id>, keep: Id -> bool, n: Id)
    ensures multiset(Kept(s + t, keep))[n] == multiset(Kept(s, keep))[n] + multiset(Kept(t, keep))[n]
  {
    if t == [] {
      assert s + t == s;
    } else {
      var init, last := t[..|t| - 1], t[|t| - 1];
      assert s + t == (s + init) + [last] && t == init + [last];
      CountOfParts(s, init, keep, n);
      KeptSnoc(s + init, last, keep);
      KeptSnoc(init, last, keep);
    }
  }

  lemma DetourStarts(all: seq<Id>, r: Id, x: Id, c: Id, d: Id, i: nat, j: nat)
    requires Detour(all, r, x, c, d) && i < j < |all| && all[i] == all[j] == r
    ensures Stage(all, r, x, c, d, 0, LevellingStart(all, Ways(r, x, c, d)))
  {
    hide Kept, Pending, Targets, Ways;
    Different(r, x, c, d);
    var arcs := Ways(r, x, c, d);
    var keep := id => Pending(arcs, id, {}) == 0;
    WaysAround(r, x, c, d, r);
    WaysAround(r, x, c, d, x);
    WaysAround(r, x, c, d, c);
    WaysAround(r, x, c, d, d);
    KeptIsExact(all, keep);
    CountTwice(all, keep, i, j);
    assert r in multiset(Kept(all, keep));
    var p := LevellingStart(all, arcs);
    assert x !in p.ready && c !in p.ready && d !in p.ready;
  }

  function ControlEdge(s: Id, t: Id): Edge {
    Edge("", s, t, Control, None, None, Always, None)
  }

  function WaysAsEdges(r: Id, x: Id, c: Id, d: Id): seq<Edge> {
    [ControlEdge(r, x), ControlEdge(r, c), ControlEdge(c, x), ControlEdge(x, d)]
  }

  lemma WaysCount(all: seq<Id>, r: Id, x: Id, c: Id, d: Id)
    requires Detour(all, r, x, c, d)
    ensures forall e :: e in WaysAsEdges(r, x, c, d) ==> Counts(e, Elements(all), false)
  {
  }

  lemma {:induction false} AllCount(edges: seq<Edge>, ids: set<Id>)
    requires forall e :: e in edges ==> Counts(e, ids, false)
    ensures |DeclaredArcs(edges, ids, false)| == |edges|
    ensures forall k :: 0 <= k < |edges| ==> DeclaredArcs(edges, ids, false)[k] == (edges[k].source, edges[k].target)
  {
    hide Counts;
    if edges != [] {
      AllCount(edges[..|edges| - 1], ids);
      assert edges[|edges| - 1] in edges;
    }
  }

  lemma EdgesAreWays(all: seq<Id>, r: Id, x: Id, c: Id, d: Id)
    requires Detour(all, r, x, c, d)
    ensures EditorArcs(all, WaysAsEdges(r, x, c, d), false) == Ways(r, x, c, d)
  {
    hide DeclaredArcs, Counts, Detour, Elements;
    WaysCount(all, r, x, c, d);
    AllCount(WaysAsEdges(r, x, c, d), Elements(all));
  }

  lemma WaysAreAcyclic(all: seq<Id>, r: Id, x: Id, c: Id, d: Id)
    requires Detour(all, r, x, c, d)
    ensures Acyclic(Ways(r, x, c, d))
  {
    hide Acyclic;
    Different(r, x, c, d);
    AscendingIsAcyclic(Ways(r, x, c, d), map[r := 0, c := 1, x := 2, d := 3]);
  }

  /**
   * An id declared twice that is not the one declared last, and four ids or more: on these four edges
   * the loop gives a node the level of the one behind it, though the graph has no cycle.
   */
  lemma RepeatedIdMisleads(all: seq<Id>, r: Id, x: Id, c: Id, d: Id, i: nat, j: nat)
    requires Detour(all, r, x, c, d) && i < j < |all| && all[i] == all[j] == r
    ensures
      var arcs, levels := EditorArcs(all, WaysAsEdges(r, x, c, d), false), LevelsOf(all, WaysAsEdges(r, x, c, d));
      Acyclic(arcs) && (x, d) in arcs && x in levels && d in levels && levels[x] == levels[d]
  {
    hide LevelsFrom, LevellingStart, Stage, EditorArcs, Acyclic;
    EdgesAreWays(all, r, x, c, d);
    WaysAreAcyclic(all, r, x, c, d);
    var arcs := Ways(r, x, c, d);
    assert arcs[3] == (x, d);
    ArcsStayDeclared(all, WaysAsEdges(r, x, c, d), false);
    StartIsWithin(all, arcs);
    DetourStarts(all, r, x, c, d, i, j);
    DetourRuns(all, r, x, c, d, 0, LevellingStart(all, arcs));
  }

  // -------------------------------------------------- nothing is left without a level

  /** What the loop keeps on any graph: what has been taken up has a level. */
  ghost predicate Reaching(nodes: set<Id>, arcs: seq<Arc>, p: Progress, done: set<Id>) {
    Sane(nodes, p.degrees, p.ready, p.levels) && done <= p.levels.Keys && Covering(arcs, p.degrees, p.ready, done, [])
  }

  lemma ReachingStep(nodes: set<Id>, arcs: seq<Arc>, p: Progress, sorted: seq<Id>, id: Id, done: set<Id>)
    requires WithinDegrees(arcs, p.degrees) && Reaching(nodes, arcs, p, done)
    requires sorted != [] && multiset(sorted) == multiset(p.ready) && id == sorted[0] && id in p.levels
    requires |sorted| == |p.ready| && forall t :: t in Targets(arcs, id) ==> t in p.degrees
    ensures
      var after := ReleaseAll(Targets(arcs, id), p.levels[id], p.(ready := sorted[1..]));
      && Reaching(nodes, arcs, after, done + {id}) && WithinDegrees(arcs, after.degrees)
      && |after.ready| + |Positive(after.degrees)| < |p.ready| + |Positive(p.degrees)|
  {
    hide ReleaseAll, Targets, Positive, Covering;
    var q := p.(ready := sorted[1..]);
    SameMembers(p.ready, sorted);
    assert sorted == [id] + sorted[1..];
    CoverPop(arcs, p.degrees, p.ready, sorted[1..], done, id);
    ReleaseCovers(arcs, Targets(arcs, id), p.levels[id], q, done + {id});
    ReleaseStaysSane(nodes, Targets(arcs, id), p.levels[id], q);
    ReleaseEffect(Targets(arcs, id), p.levels[id], q);
  }

  lemma {:induction false} ReachingRuns(all: seq<Id>, nodes: set<Id>, arcs: seq<Arc>, p: Progress, done: set<Id>)
    requires Acyclic(arcs) && WithinDegrees(arcs, p.degrees) && Reaching(nodes, arcs, p, done)
    ensures nodes <= LevelsFrom(all, arcs, p).Keys
    decreases |p.ready| + |Positive(p.degrees)|
  {
    hide LevelsFrom, ReleaseAll, Foremost, Targets, Positive, Acyclic, Covering;
    if p.ready == [] {
      LevelsEnd(all, arcs, p);
      CoverEnds(arcs, p.degrees, done);
    } else {
      var sorted := Foremost(all, p.ready);
      var id := sorted[0];
      ForemostPermutes(all, p.ready);
      SameMembers(p.ready, sorted);
      assert id in sorted;
      LevelsStep(all, arcs, p, sorted, p.levels[id]);
      ReachingStep(nodes, arcs, p, sorted, id, done);
      ReachingRuns(all, nodes, arcs, ReleaseAll(Targets(arcs, id), p.levels[id], p.(ready := sorted[1..])), done + {id});
    }
  }

  /** On an acyclic graph the loop gives every id a level, whatever repeats. */
  lemma EverythingIsLevelled(all: seq<Id>, edges: seq<Edge>)
    requires Acyclic(EditorArcs(all, edges, false))
    ensures forall id :: id in all ==> id in LevelsOf(all, edges)
  {
    hide LevellingStart, Acyclic, LevelsFrom, EditorArcs, Covering;
    var arcs := EditorArcs(all, edges, false);
    ArcsStayDeclared(all, edges, false);
    StartIsWithin(all, arcs);
    StartsSettling(all, arcs);
    ReachingRuns(all, Elements(all), arcs, LevellingStart(all, arcs), {});
    forall id | id in all ensures id in LevelsOf(all, edges) {
      assert id in Elements(all);
    }
  }

  // ------------------------------------------------------------- the theorem

  /** Every acyclic set of edges gets levels that go up along each edge. */
  ghost predicate AlwaysRises(all: seq<Id>) {
    forall edges :: Acyclic(EditorArcs(all, edges, false)) ==> Rises(all, edges)
  }

  ghost predicate Rises(all: seq<Id>, edges: seq<Edge>) {
    forall a :: a in EditorArcs(all, edges, false) ==> Raised(LevelsOf(all, edges), a.0, a.1)
  }

  /** Two ids other than two given ones. */
  lemma TwoMore(nodes: set<Id>, a: Id, b: Id) returns (x: Id, d: Id)
    requires |nodes| >= 4 && a in nodes && b in nodes && a != b
    ensures x in nodes && d in nodes && NoDuplicates([a, x, b, d])
  {
    var rest := nodes - {a, b};
    assert nodes == rest + {a, b} && |{a, b}| == 2;
    x :| x in rest;
    assert rest == (rest - {x}) + {x};
    d :| d in rest - {x};
  }

  /**
   * The levels go up along every edge of every acyclic graph on a list of ids exactly if no id is
   * declared twice other than the one declared last, or there are at most three ids.
   */
  lemma RisesIffOnlyLastRepeats(all: seq<Id>)
    ensures AlwaysRises(all) <==> OnlyLastRepeats(all) || |Elements(all)| <= 3
  {
    hide LevelsOf, EditorArcs, Acyclic;
    if |Elements(all)| <= 3 || OnlyLastRepeats(all) {
      forall edges | Acyclic(EditorArcs(all, edges, false)) ensures Rises(all, edges) {
        if |Elements(all)| <= 3 {
          ThreeIdsAreRight(all, edges);
        } else {
          LevelsAreRight(all, edges);
          ArcsStayDeclared(all, edges, false);
          NothingBehindACycle(EditorArcs(all, edges, false));
        }
      }
    } else {
      var c := all[|all| - 1];
      var i, j :| 0 <= i < j < |all| && all[i] != c && all[i] == all[j];
      var x, d := TwoMore(Elements(all), all[i], c);
      RepeatedIdMisleads(all, all[i], x, c, d, i, j);
      var edges := WaysAsEdges(all[i], x, c, d);
      assert !Raised(LevelsOf(all, edges), (x, d).0, (x, d).1);
      assert !Rises(all, edges);
    }
  }

  lemma NothingBehindACycle(arcs: seq<Arc>)
    ensures Acyclic(arcs) ==> forall n :: !BehindCycle(arcs, n)
  {
  }
}
