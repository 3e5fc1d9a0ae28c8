// Levels for the layout: longest incoming paths, the loop that computes them, and levels for the rest.
module Levels {
  import opened Digraph
  import opened EditorGraph
  import opened OrderedSets
  import opened Sorting
  import opened Workflow

  // --------------------------------------------------------- longest paths

  ghost predicate WalkInto(arcs: seq<Arc>, p: seq<Id>, n: Id) {
    IsWalk(arcs, p) && p[|p| - 1] == n
  }

  /** The longest walk that ends at `n` has `k` arcs. */
  ghost predicate IsLongest(arcs: seq<Arc>, n: Id, k: nat) {
    && (exists p :: WalkInto(arcs, p, n) && |p| == k + 1)
    && (forall p :: WalkInto(arcs, p, n) ==> |p| <= k + 1)
  }

  /** Some node already taken up is the reason for the level of `t`. */
  ghost predicate Supported(arcs: seq<Arc>, levels: map<Id, nat>, order: seq<Id>, t: Id)
    requires t in levels
  {
    exists m :: m in order && Supports(arcs, levels, m, t)
  }

  ghost predicate Supports(arcs: seq<Arc>, levels: map<Id, nat>, m: Id, t: Id)
    requires t in levels
  {
    m in levels && (m, t) in arcs && levels[t] == levels[m] + 1
  }

  ghost predicate Raised(levels: map<Id, nat>, s: Id, t: Id) {
    s in levels && t in levels && levels[t] >= levels[s] + 1
  }

  /** What levels satisfy while the nodes of `order` have been taken up. */
  ghost predicate Founded(nodes: set<Id>, arcs: seq<Arc>, levels: map<Id, nat>, order: seq<Id>) {
    && levels.Keys <= nodes
    && (forall m :: m in order ==> m in levels)
    && (forall t :: t in levels ==> levels[t] == 0 || Supported(arcs, levels, order, t))
    && (forall t :: t in nodes && t !in levels ==> exists s :: (s, t) in arcs)
  }

  ghost predicate Leveled(nodes: set<Id>, arcs: seq<Arc>, levels: map<Id, nat>, order: seq<Id>) {
    && Founded(nodes, arcs, levels, order)
    && (forall a :: a in arcs && a.0 in order ==> Raised(levels, a.0, a.1))
  }

  /** The same while the arcs leaving `id` are being followed, `j` of them done. */
  ghost predicate Leveling(nodes: set<Id>, arcs: seq<Arc>, levels: map<Id, nat>, order: seq<Id>, id: Id, j: nat) {
    && Founded(nodes, arcs, levels, order) && id in order
    && (forall a :: a in arcs && a.0 in order && a.0 != id ==> Raised(levels, a.0, a.1))
    && j <= |Targets(arcs, id)|
    && (forall k :: 0 <= k < j ==> Raised(levels, id, Targets(arcs, id)[k]))
  }

  function RaiseTo(levels: map<Id, nat>, t: Id, level: nat): map<Id, nat> {
    levels[t := if t in levels && levels[t] > level then levels[t] else level]
  }

  lemma LevelStart(nodes: set<Id>, arcs: seq<Arc>, levels: map<Id, nat>)
    requires levels.Keys <= nodes
    requires forall t :: t in levels ==> levels[t] == 0
    requires forall t :: t in nodes && t !in levels ==> exists s :: (s, t) in arcs
    ensures Leveled(nodes, arcs, levels, [])
  {
  }

  /** A node whose predecessors have all been taken up has a level. */
  lemma LevelPop(nodes: set<Id>, arcs: seq<Arc>, levels: map<Id, nat>, order: seq<Id>, id: Id)
    requires Leveled(nodes, arcs, levels, order) && id in nodes && id !in order
    requires forall s :: (s, id) in arcs ==> s in order
    ensures id in levels && Leveling(nodes, arcs, levels, order + [id], id, 0)
  {
    forall s | (s, id) in arcs ensures id in levels {
      assert Raised(levels, (s, id).0, (s, id).1);
    }
    forall t | t in levels ensures levels[t] == 0 || Supported(arcs, levels, order + [id], t) {
      if levels[t] != 0 {
        var m :| m in order && Supports(arcs, levels, m, t);
        assert m in order + [id];
      }
    }
  }

  lemma RaiseKeepsFounded(nodes: set<Id>, arcs: seq<Arc>, levels: map<Id, nat>, order: seq<Id>, id: Id, t: Id)
    requires Founded(nodes, arcs, levels, order) && id in order && t in nodes && t !in order && (id, t) in arcs
    ensures Founded(nodes, arcs, RaiseTo(levels, t, levels[id] + 1), order)
  {
    var after := RaiseTo(levels, t, levels[id] + 1);
    forall u | u in after ensures after[u] == 0 || Supported(arcs, after, order, u) {
      if u == t && after[t] == levels[id] + 1 {
        assert Supports(arcs, after, id, t);
      } else if after[u] != 0 {
        var m :| m in order && Supports(arcs, levels, m, u);
        assert Supports(arcs, after, m, u);
      }
    }
  }

  lemma RaiseKeepsRaised(levels: map<Id, nat>, t: Id, level: nat, a: Id, b: Id)
    requires Raised(levels, a, b) && a != t
    ensures Raised(RaiseTo(levels, t, level), a, b)
  {
  }

  lemma LevelRaise(nodes: set<Id>, arcs: seq<Arc>, levels: map<Id, nat>, order: seq<Id>, id: Id, j: nat)
    requires Leveling(nodes, arcs, levels, order, id, j) && j < |Targets(arcs, id)|
    requires Targets(arcs, id)[j] in nodes && Targets(arcs, id)[j] !in order
    ensures Leveling(nodes, arcs, RaiseTo(levels, Targets(arcs, id)[j], levels[id] + 1), order, id, j + 1)
  {
    hide Founded, Supported;
    var t := Targets(arcs, id)[j];
    TargetsAreArcs(arcs, id);
    assert t in Targets(arcs, id) && (id, t) in arcs;
    assert id in levels by {
      TakenUpHaveLevels(nodes, arcs, levels, order);
    }
    RaiseKeepsFounded(nodes, arcs, levels, order, id, t);
    var after := RaiseTo(levels, t, levels[id] + 1);
    hide Targets;
    forall a | a in arcs && a.0 in order && a.0 != id ensures Raised(after, a.0, a.1) {
      RaiseKeepsRaised(levels, t, levels[id] + 1, a.0, a.1);
    }
    forall k | 0 <= k < j + 1 ensures Raised(after, id, Targets(arcs, id)[k]) {
      if k < j {
        RaiseKeepsRaised(levels, t, levels[id] + 1, id, Targets(arcs, id)[k]);
      }
    }
  }

  lemma TakenUpHaveLevels(nodes: set<Id>, arcs: seq<Arc>, levels: map<Id, nat>, order: seq<Id>)
    requires Founded(nodes, arcs, levels, order)
    ensures forall m :: m in order ==> m in levels
  {
  }

  lemma LevelDone(nodes: set<Id>, arcs: seq<Arc>, levels: map<Id, nat>, order: seq<Id>, id: Id)
    requires Leveling(nodes, arcs, levels, order, id, |Targets(arcs, id)|)
    ensures Leveled(nodes, arcs, levels, order)
  {
    TargetsAreArcs(arcs, id);
    forall a | a in arcs && a.0 in order ensures Raised(levels, a.0, a.1) {
      if a.0 == id {
        assert (id, a.1) == a;
        assert a.1 in Targets(arcs, id);
      }
    }
  }

  lemma EarlierIndex(arcs: seq<Arc>, order: seq<Id>, i: nat, m: Id) returns (k: nat)
    requires Eliminates(arcs, order) && i < |order| && (m, order[i]) in arcs
    ensures k < i && order[k] == m
  {
    assert m in order[..i];
    k :| 0 <= k < i && order[..i][k] == m;
  }

  lemma LongerThanPredecessors(arcs: seq<Arc>, levels: map<Id, nat>, order: seq<Id>, i: nat, p: seq<Id>)
    requires Eliminates(arcs, order) && i < |order| && WalkInto(arcs, p, order[i])
    requires forall m :: m in order ==> m in levels
    requires forall a :: a in arcs && a.0 in order ==> Raised(levels, a.0, a.1)
    ensures |p| <= levels[order[i]] + 1
    decreases |p|
  {
    if |p| > 1 {
      var q := p[..|p| - 1];
      var a := (p[|p| - 2], p[|p| - 2 + 1]);
      assert a in arcs;
      var k := EarlierIndex(arcs, order, i, a.0);
      assert IsWalk(arcs, q) by {
        forall x | 0 <= x < |q| - 1 ensures (q[x], q[x + 1]) in arcs {
          assert (p[x], p[x + 1]) in arcs;
        }
      }
      LongerThanPredecessors(arcs, levels, order, k, q);
    }
  }

  lemma WalkSnoc(arcs: seq<Arc>, q: seq<Id>, m: Id, n: Id)
    requires WalkInto(arcs, q, m) && (m, n) in arcs
    ensures WalkInto(arcs, q + [n], n)
  {
  }

  lemma SupportOf(nodes: set<Id>, arcs: seq<Arc>, levels: map<Id, nat>, order: seq<Id>, n: Id) returns (m: Id)
    requires Founded(nodes, arcs, levels, order) && n in levels && levels[n] > 0
    ensures Supports(arcs, levels, m, n)
  {
    m :| m in order && Supports(arcs, levels, m, n);
  }

  lemma {:induction false} LevelIsWalked(nodes: set<Id>, arcs: seq<Arc>, levels: map<Id, nat>, order: seq<Id>, i: nat)
    returns (p: seq<Id>)
    requires Eliminates(arcs, order) && i < |order| && Founded(nodes, arcs, levels, order)
    ensures order[i] in levels && WalkInto(arcs, p, order[i]) && |p| == levels[order[i]] + 1
    decreases i
  {
    hide Eliminates, WalkInto, Founded;
    var n := order[i];
    TakenUpHaveLevels(nodes, arcs, levels, order);
    if levels[n] == 0 {
      p := [n];
      assert WalkInto(arcs, p, n) by {
        SingletonWalk(arcs, n);
      }
    } else {
      var m := SupportOf(nodes, arcs, levels, order, n);
      var k := EarlierIndex(arcs, order, i, m);
      var q := LevelIsWalked(nodes, arcs, levels, order, k);
      WalkSnoc(arcs, q, m, n);
      p := q + [n];
    }
  }

  lemma SingletonWalk(arcs: seq<Arc>, n: Id)
    ensures WalkInto(arcs, [n], n)
  {
  }

  /** The level of every node taken up is the length of its longest incoming path. */
  lemma LevelsAreLongest(nodes: set<Id>, arcs: seq<Arc>, levels: map<Id, nat>, order: seq<Id>, n: Id)
    requires Eliminates(arcs, order) && Leveled(nodes, arcs, levels, order) && n in order
    ensures IsLongest(arcs, n, levels[n])
  {
    var i :| 0 <= i < |order| && order[i] == n;
    var p := LevelIsWalked(nodes, arcs, levels, order, i);
    forall q | WalkInto(arcs, q, n) ensures |q| <= levels[n] + 1 {
      LongerThanPredecessors(arcs, levels, order, i, q);
    }
  }

  // ------------------------------------------------------------- levels

  /** Where an id was declared last; zero for an unknown id. */
  function DeclaredAt(all: seq<Id>, id: Id): nat {
    if all == [] then 0 else if all[|all| - 1] == id then |all| - 1 else DeclaredAt(all[..|all| - 1], id)
  }

  lemma {:induction false} DeclaredAtFinds(all: seq<Id>, id: Id)
    requires id in all
    ensures DeclaredAt(all, id) < |all| && all[DeclaredAt(all, id)] == id
  {
    if all[|all| - 1] != id {
      assert all == all[..|all| - 1] + [all[|all| - 1]];
      DeclaredAtFinds(all[..|all| - 1], id);
    }
  }

  /** What stays true of the loop even when an id without incoming edges is declared twice. */
  ghost predicate Sane(nodes: set<Id>, indegree: map<Id, int>, ready: seq<Id>, levels: map<Id, nat>) {
    indegree.Keys == nodes && levels.Keys <= nodes && forall n :: n in ready ==> n in nodes && n in levels
  }

  /** In-degrees, the ready list and the levels, as the levelling loop updates them. */
  datatype Progress = Progress(degrees: map<Id, int>, ready: seq<Id>, levels: map<Id, nat>)

  ghost function ReleaseOne(t: Id, level: nat, p: Progress): Progress
    requires t in p.degrees
  {
    Progress(Relaxed(p.degrees, t), if p.degrees[t] == 1 then p.ready + [t] else p.ready, RaiseTo(p.levels, t, level + 1))
  }

  /** What taking up a node does to its targets, one after the other. */
  ghost function ReleaseAll(targets: seq<Id>, level: nat, p: Progress): (r: Progress)
    requires forall t :: t in targets ==> t in p.degrees
    ensures r.degrees.Keys == p.degrees.Keys
    ensures |r.ready| + |Positive(r.degrees)| == |p.ready| + |Positive(p.degrees)|
  {
    if targets == [] then p
    else
      PositiveRelaxed(p.degrees, targets[0]);
      ReleaseAll(targets[1..], level, ReleaseOne(targets[0], level, p))
  }

  lemma ReleaseStep(targets: seq<Id>, j: nat, level: nat, p: Progress)
    requires j < |targets| && forall t :: t in targets ==> t in p.degrees
    ensures ReleaseAll(targets[j..], level, p) ==
      ReleaseAll(targets[j + 1..], level, ReleaseOne(targets[j], level, p))
  {
    assert targets[j..][0] == targets[j] && targets[j..][1..] == targets[j + 1..];
  }

  lemma ReleaseEnds(targets: seq<Id>, level: nat, p: Progress)
    ensures targets[0..] == targets && ReleaseAll(targets[|targets|..], level, p) == p
  {
  }

  function Foremost(all: seq<Id>, ready: seq<Id>): (r: seq<Id>)
    ensures |r| == |ready|
  {
    SortPermutes(ready, (a, b) => DeclaredAt(all, a) <= DeclaredAt(all, b));
    Sort(ready, (a, b) => DeclaredAt(all, a) <= DeclaredAt(all, b))
  }

  lemma ForemostPermutes(all: seq<Id>, ready: seq<Id>)
    ensures multiset(Foremost(all, ready)) == multiset(ready)
  {
    SortPermutes(ready, (a, b) => DeclaredAt(all, a) <= DeclaredAt(all, b));
  }

  function AtZero(roots: seq<Id>): map<Id, nat> {
    map id | id in roots :: 0
  }

  ghost predicate WithinDegrees(arcs: seq<Arc>, degrees: map<Id, int>) {
    forall a :: a in arcs ==> a.0 in degrees && a.1 in degrees
  }

  /** The levels when the ready list has run empty, whether or not ids repeat. */
  ghost function LevelsFrom(all: seq<Id>, arcs: seq<Arc>, p: Progress): map<Id, nat>
    requires WithinDegrees(arcs, p.degrees)
    decreases |p.ready| + |Positive(p.degrees)|
  {
    if p.ready == [] then p.levels
    else
      var sorted := Foremost(all, p.ready);
      TargetsAreArcs(arcs, sorted[0]);
      var level := if sorted[0] in p.levels then p.levels[sorted[0]] else 0;
      LevelsFrom(all, arcs, ReleaseAll(Targets(arcs, sorted[0]), level, p.(ready := sorted[1..])))
  }

  lemma LevelsStep(all: seq<Id>, arcs: seq<Arc>, p: Progress, sorted: seq<Id>, level: nat)
    requires WithinDegrees(arcs, p.degrees) && p.ready != [] && sorted == Foremost(all, p.ready)
    requires sorted[0] in p.levels && level == p.levels[sorted[0]]
    ensures forall t :: t in Targets(arcs, sorted[0]) ==> t in p.degrees
    ensures LevelsFrom(all, arcs, p) ==
      LevelsFrom(all, arcs, ReleaseAll(Targets(arcs, sorted[0]), level, p.(ready := sorted[1..])))
  {
    TargetsAreArcs(arcs, sorted[0]);
    forall t | t in Targets(arcs, sorted[0]) ensures t in p.degrees {
      assert (sorted[0], t) in arcs;
    }
  }

  lemma LevelsEnd(all: seq<Id>, arcs: seq<Arc>, p: Progress)
    requires WithinDegrees(arcs, p.degrees) && p.ready == []
    ensures LevelsFrom(all, arcs, p) == p.levels
  {
  }

  /** Where the levelling loop starts. */
  ghost function LevellingStart(all: seq<Id>, arcs: seq<Arc>): Progress {
    var roots := Kept(all, id => Pending(arcs, id, {}) == 0);
    Progress(map n | n in Elements(all) :: Pending(arcs, n, {}), roots, AtZero(roots))
  }

  ghost function LevelsOf(all: seq<Id>, edges: seq<Edge>): map<Id, nat> {
    ArcsStayDeclared(all, edges, false);
    LevelsFrom(all, EditorArcs(all, edges, false), LevellingStart(all, EditorArcs(all, edges, false)))
  }

  /** The targets of a node get a level past its own and lose one from their in-degree. */
  method ReleaseAndRaise(targets: seq<Id>, level: nat, indegree: map<Id, int>, queue: seq<Id>, before: map<Id, nat>)
    returns (degrees: map<Id, int>, ready: seq<Id>, levels: map<Id, nat>)
    requires forall t :: t in targets ==> t in indegree
    ensures Progress(degrees, ready, levels) == ReleaseAll(targets, level, Progress(indegree, queue, before))
  {
    hide ReleaseAll;
    degrees, ready, levels := indegree, queue, before;
    ReleaseEnds(targets, level, Progress(indegree, queue, before));
    for j := 0 to |targets|
      invariant degrees.Keys == indegree.Keys
      invariant ReleaseAll(targets[j..], level, Progress(degrees, ready, levels)) ==
        ReleaseAll(targets, level, Progress(indegree, queue, before))
    {
      var target := targets[j];
      assert target in targets;
      ReleaseStep(targets, j, level, Progress(degrees, ready, levels));
      levels := RaiseTo(levels, target, level + 1);
      var next := degrees[target] - 1;
      degrees := degrees[target := next];
      if next == 0 {
        ready := ready + [target];
      }
    }
    ReleaseEnds(targets, level, Progress(degrees, ready, levels));
  }

  /** What a release does to levels and the ready list. */
  lemma {:induction false} ReleaseEffect(targets: seq<Id>, level: nat, p: Progress)
    requires forall t :: t in targets ==> t in p.degrees
    ensures
      var r := ReleaseAll(targets, level, p);
      && (forall n :: n in r.levels <==> n in p.levels || n in targets)
      && (forall n :: n in p.levels && n !in targets ==> r.levels[n] == p.levels[n])
      && (forall n :: n in targets ==>
            r.levels[n] == if n in p.levels && p.levels[n] > level + 1 then p.levels[n] else level + 1)
      && p.ready <= r.ready && (forall n :: n in r.ready ==> n in p.ready || n in targets)
    decreases targets
  {
    if targets != [] {
      assert targets == [targets[0]] + targets[1..];
      ReleaseEffect(targets[1..], level, ReleaseOne(targets[0], level, p));
    }
  }

  lemma ReleaseStaysSane(nodes: set<Id>, targets: seq<Id>, level: nat, p: Progress)
    requires Sane(nodes, p.degrees, p.ready, p.levels) && forall t :: t in targets ==> t in p.degrees
    ensures var r := ReleaseAll(targets, level, p); Sane(nodes, r.degrees, r.ready, r.levels)
  {
    hide ReleaseAll;
    ReleaseEffect(targets, level, p);
  }

  /** Kahn's elimination, always taking up the first declared of the ready nodes. */
  method LongestPaths(all: seq<Id>, adjacency: map<Id, seq<Id>>, degrees: map<Id, int>, roots: seq<Id>, ghost arcs: seq<Arc>)
    returns (levels: map<Id, nat>)
    requires Mapped(arcs, degrees.Keys, adjacency, degrees) && WithinDegrees(arcs, degrees)
    requires forall n :: n in roots ==> n in degrees
    ensures levels == LevelsFrom(all, arcs, Progress(degrees, roots, AtZero(roots)))
    ensures levels.Keys <= degrees.Keys
  {
    hide Targets, Pending, Positive, ReleaseAll, Foremost, LevelsFrom, Mapped;
    levels := AtZero(roots);
    var indegree, ready := degrees, roots;
    while ready != []
      invariant Sane(degrees.Keys, indegree, ready, levels)
      invariant LevelsFrom(all, arcs, Progress(indegree, ready, levels)) ==
        LevelsFrom(all, arcs, Progress(degrees, roots, AtZero(roots)))
      decreases |ready| + |Positive(indegree)|
    {
      var sorted := Foremost(all, ready);
      ForemostPermutes(all, ready);
      SameMembers(ready, sorted);
      var id := sorted[0];
      assert id in sorted;
      MappedTargets(arcs, degrees.Keys, adjacency, degrees, id);
      LevelsStep(all, arcs, Progress(indegree, ready, levels), sorted, levels[id]);
      assert Sane(degrees.Keys, indegree, sorted[1..], levels);
      ReleaseStaysSane(degrees.Keys, adjacency[id], levels[id], Progress(indegree, sorted[1..], levels));
      indegree, ready, levels := ReleaseAndRaise(adjacency[id], levels[id], indegree, sorted[1..], levels);
    }
    LevelsEnd(all, arcs, Progress(indegree, ready, levels));
  }

  lemma MappedTargets(arcs: seq<Arc>, ids: set<Id>, adjacency: map<Id, seq<Id>>, degrees: map<Id, int>, id: Id)
    requires Mapped(arcs, ids, adjacency, degrees) && id in ids
    ensures id in adjacency && adjacency[id] == Targets(arcs, id)
  {
  }

  /** The largest level known so far. */
  function Highest(all: seq<Id>, known: map<Id, nat>): nat {
    if all == [] then 0
    else
      var before, last := Highest(all[..|all| - 1], known), all[|all| - 1];
      if last in known && known[last] > before then known[last] else before
  }

  /** Ids without a level, in order, get the levels from `free` on, one each. */
  function Filled(all: seq<Id>, levels: map<Id, nat>, free: nat): map<Id, nat> {
    if all == [] then levels
    else if all[0] in levels then Filled(all[1..], levels, free)
    else Filled(all[1..], levels[all[0] := free], free + 1)
  }

  function WithFallbacks(all: seq<Id>, known: map<Id, nat>): map<Id, nat> {
    Filled(all, known, Highest(all, known) + 1)
  }

  lemma {:induction false} HighestIsAbove(all: seq<Id>, known: map<Id, nat>)
    ensures forall id :: id in known && id in all ==> known[id] <= Highest(all, known)
  {
    if all != [] {
      HighestIsAbove(all[..|all| - 1], known);
      assert all == all[..|all| - 1] + [all[|all| - 1]];
    }
  }

  lemma {:induction false} FilledIsExact(all: seq<Id>, levels: map<Id, nat>, free: nat)
    requires forall id :: id in levels ==> levels[id] < free
    ensures
      var filled := Filled(all, levels, free);
      && (forall id :: id in filled <==> id in levels || id in all)
      && (forall id :: id in levels ==> filled[id] == levels[id])
      && (forall a, b :: a in filled && b in filled && a != b && a !in levels ==> filled[a] != filled[b])
      && (forall id :: id in filled && id !in levels ==> filled[id] >= free)
    decreases all
  {
    if all != [] {
      assert all == [all[0]] + all[1..];
      if all[0] in levels {
        FilledIsExact(all[1..], levels, free);
      } else {
        FilledIsExact(all[1..], levels[all[0] := free], free + 1);
      }
    }
  }

  /** An id without a level stands to the right of all that have one, in the next column but for the other such ids. */
  ghost predicate NextColumns(known: map<Id, nat>, levels: map<Id, nat>) {
    forall id :: id in levels && id !in known ==> Rightmost(known, levels[id]) && NextAfter(levels, levels[id])
  }

  ghost predicate Rightmost(known: map<Id, nat>, level: nat) {
    level > 0 && forall other :: other in known ==> known[other] < level
  }

  ghost predicate NextAfter(levels: map<Id, nat>, level: nat) {
    level == 1 || exists other :: other in levels && levels[other] + 1 == level
  }

  lemma {:induction false} HighestIsKnown(all: seq<Id>, known: map<Id, nat>)
    ensures Highest(all, known) > 0 ==> exists id :: id in known && known[id] == Highest(all, known)
  {
    if all != [] {
      HighestIsKnown(all[..|all| - 1], known);
    }
  }

  lemma {:induction false} FilledWithoutGaps(all: seq<Id>, known: map<Id, nat>, levels: map<Id, nat>, free: nat)
    requires known.Keys <= levels.Keys && Rightmost(known, free) && NextAfter(levels, free) && NextColumns(known, levels)
    requires forall id :: id in levels ==> levels[id] < free
    ensures NextColumns(known, Filled(all, levels, free))
    decreases all
  {
    hide NextColumns, NextAfter, Rightmost;
    if all != [] {
      if all[0] in levels {
        FilledWithoutGaps(all[1..], known, levels, free);
      } else {
        ColumnsGrow(known, levels, all[0], free);
        FilledWithoutGaps(all[1..], known, levels[all[0] := free], free + 1);
      }
    }
  }

  lemma ColumnsGrow(known: map<Id, nat>, levels: map<Id, nat>, id: Id, free: nat)
    requires known.Keys <= levels.Keys && id !in levels
    requires Rightmost(known, free) && NextAfter(levels, free) && NextColumns(known, levels)
    ensures
      var more := levels[id := free];
      NextColumns(known, more) && Rightmost(known, free + 1) && NextAfter(more, free + 1)
  {
    hide NextAfter, Rightmost;
    var more := levels[id := free];
    forall other | other in more && other !in known ensures Rightmost(known, more[other]) && NextAfter(more, more[other]) {
      NextAfterGrows(levels, id, free, if other == id then free else levels[other]);
    }
    NextIsThere(more, id, free);
    FurtherRight(known, free);
  }

  lemma NextIsThere(levels: map<Id, nat>, id: Id, level: nat)
    requires id in levels && levels[id] == level
    ensures NextAfter(levels, level + 1)
  {
  }

  lemma FurtherRight(known: map<Id, nat>, level: nat)
    requires Rightmost(known, level)
    ensures Rightmost(known, level + 1)
  {
  }

  lemma NextAfterGrows(levels: map<Id, nat>, id: Id, free: nat, level: nat)
    requires id !in levels && NextAfter(levels, level)
    ensures NextAfter(levels[id := free], level)
  {
    if level != 1 {
      var other :| other in levels && levels[other] + 1 == level;
      assert other in levels[id := free] && levels[id := free][other] + 1 == level;
    }
  }

  lemma FallbacksAreExact(all: seq<Id>, known: map<Id, nat>)
    requires forall id :: id in known ==> id in all
    ensures
      var levels := WithFallbacks(all, known);
      && (forall id :: id in levels <==> id in all)
      && (forall id :: id in known ==> levels[id] == known[id])
      && (forall a, b :: a in levels && b in levels && a != b && a !in known ==> levels[a] != levels[b])
      && NextColumns(known, levels)
  {
    hide Filled, Highest;
    HighestIsKnown(all, known);
    HighestIsAbove(all, known);
    FilledIsExact(all, known, Highest(all, known) + 1);
    FilledWithoutGaps(all, known, known, Highest(all, known) + 1);
  }

  /** Nodes that no level was found for get columns of their own, to the right of everything else. */
  method FillIn(all: seq<Id>, known: map<Id, nat>) returns (levels: map<Id, nat>)
    requires forall id :: id in known ==> id in all
    ensures levels == WithFallbacks(all, known)
    ensures forall id :: id in levels <==> id in all
    ensures forall id :: id in known ==> levels[id] == known[id]
    ensures forall a, b :: a in levels && b in levels && a != b && a !in known ==> levels[a] != levels[b]
    ensures NextColumns(known, levels)
  {
    var fallback := 0;
    for i := 0 to |all|
      invariant fallback == Highest(all[..i], known)
    {
      assert all[..i + 1][..i] == all[..i];
      if all[i] in known && known[all[i]] > fallback {
        fallback := known[all[i]];
      }
    }
    assert all[..|all|] == all;
    fallback := fallback + 1;
    levels := known;
    assert all[0..] == all;
    for i := 0 to |all|
      invariant Filled(all[i..], levels, fallback) == WithFallbacks(all, known)
    {
      assert all[i..][0] == all[i] && all[i..][1..] == all[i + 1..];
      if all[i] !in levels {
        levels := levels[all[i] := fallback];
        fallback := fallback + 1;
      }
    }
    FallbacksAreExact(all, known);
  }

  lemma {:induction false} LevelsFromIsWithin(all: seq<Id>, arcs: seq<Arc>, nodes: set<Id>, p: Progress)
    requires WithinDegrees(arcs, p.degrees) && Sane(nodes, p.degrees, p.ready, p.levels)
    ensures LevelsFrom(all, arcs, p).Keys <= nodes
    decreases |p.ready| + |Positive(p.degrees)|
  {
    hide ReleaseAll, Foremost, Targets, LevelsFrom, Positive;
    if p.ready == [] {
      LevelsEnd(all, arcs, p);
    } else {
      var sorted := Foremost(all, p.ready);
      var id, q := sorted[0], p.(ready := sorted[1..]);
      ForemostPermutes(all, p.ready);
      SameMembers(p.ready, sorted);
      assert sorted == [id] + sorted[1..];
      LevelsStep(all, arcs, p, sorted, p.levels[id]);
      ReleaseStaysSane(nodes, Targets(arcs, id), p.levels[id], q);
      LevelsFromIsWithin(all, arcs, nodes, ReleaseAll(Targets(arcs, id), p.levels[id], q));
    }
  }

  lemma LevelsAreDeclared(all: seq<Id>, edges: seq<Edge>)
    ensures forall id :: id in LevelsOf(all, edges) ==> id in all
  {
    hide LevelsFrom, Kept;
    var arcs := EditorArcs(all, edges, false);
    ArcsStayDeclared(all, edges, false);
    KeptIsExact(all, id => Pending(arcs, id, {}) == 0);
    LevelsFromIsWithin(all, arcs, Elements(all), LevellingStart(all, arcs));
  }
}
