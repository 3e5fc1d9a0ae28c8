// Finite directed multigraphs given as a list of arcs: walks, cycles, and the
// bookkeeping that every Kahn-style elimination in the repository relies on.
module Digraph {
  type Id = string
  type Arc = (Id, Id)

  // ---------------------------------------------------------------- walks

  /** A non-empty node sequence in which consecutive nodes are joined by an arc. */
  ghost predicate IsWalk(arcs: seq<Arc>, p: seq<Id>) {
    |p| > 0 && forall i :: 0 <= i < |p| - 1 ==> (p[i], p[i + 1]) in arcs
  }

  ghost predicate IsWalkFromTo(arcs: seq<Arc>, p: seq<Id>, a: Id, b: Id) {
    IsWalk(arcs, p) && p[0] == a && p[|p| - 1] == b
  }

  ghost predicate Reaches(arcs: seq<Arc>, a: Id, b: Id) {
    exists p :: IsWalkFromTo(arcs, p, a, b)
  }

  ghost predicate OnCycle(arcs: seq<Arc>, n: Id) {
    exists p :: IsWalkFromTo(arcs, p, n, n) && |p| >= 2
  }

  ghost predicate Acyclic(arcs: seq<Arc>) {
    forall n :: !OnCycle(arcs, n)
  }

  /** `n` lies on a cycle or downstream of one. */
  ghost predicate BehindCycle(arcs: seq<Arc>, n: Id) {
    exists c :: OnCycle(arcs, c) && Reaches(arcs, c, n)
  }

  lemma ReachesSelf(arcs: seq<Arc>, a: Id)
    ensures Reaches(arcs, a, a)
  {
    assert IsWalkFromTo(arcs, [a], a, a);
  }

  lemma ReachesStep(arcs: seq<Arc>, a: Id, b: Id, c: Id)
    requires Reaches(arcs, a, b) && (b, c) in arcs
    ensures Reaches(arcs, a, c)
  {
    var p :| IsWalkFromTo(arcs, p, a, b);
    assert IsWalkFromTo(arcs, p + [c], a, c);
  }

  /** Arcs can be added without losing walks. */
  lemma ReachesMonotone(small: seq<Arc>, big: seq<Arc>, a: Id, b: Id)
    requires forall e :: e in small ==> e in big
    requires Reaches(small, a, b)
    ensures Reaches(big, a, b)
  {
    var p :| IsWalkFromTo(small, p, a, b);
    assert IsWalkFromTo(big, p, a, b);
  }

  /** Every arc goes up in rank. */
  ghost predicate Ascends(arcs: seq<Arc>, rank: map<Id, nat>) {
    forall a :: a in arcs ==> a.0 in rank && a.1 in rank && rank[a.0] < rank[a.1]
  }

  lemma {:induction false} WalkAscends(arcs: seq<Arc>, rank: map<Id, nat>, p: seq<Id>)
    requires Ascends(arcs, rank) && IsWalk(arcs, p) && |p| >= 2
    ensures p[0] in rank && p[|p| - 1] in rank && rank[p[0]] < rank[p[|p| - 1]]
    decreases |p|
  {
    var last := |p| - 1;
    assert (p[last - 1], p[last - 1 + 1]) in arcs;
    assert rank[(p[last - 1], p[last]).0] < rank[(p[last - 1], p[last]).1];
    if |p| > 2 {
      var q := p[..last];
      assert IsWalk(arcs, q) by {
        forall i | 0 <= i < |q| - 1 ensures (q[i], q[i + 1]) in arcs {
          assert (p[i], p[i + 1]) in arcs;
        }
      }
      WalkAscends(arcs, rank, q);
    }
  }

  lemma AscendingIsAcyclic(arcs: seq<Arc>, rank: map<Id, nat>)
    requires Ascends(arcs, rank)
    ensures Acyclic(arcs)
  {
    forall n ensures !OnCycle(arcs, n) {
      if OnCycle(arcs, n) {
        var p :| IsWalkFromTo(arcs, p, n, n) && |p| >= 2;
        WalkAscends(arcs, rank, p);
      }
    }
  }

  lemma AcyclicAntitone(small: seq<Arc>, big: seq<Arc>)
    requires forall e :: e in small ==> e in big
    ensures Acyclic(big) ==> Acyclic(small)
  {
    forall n | OnCycle(small, n) ensures OnCycle(big, n) {
      var p :| IsWalkFromTo(small, p, n, n) && |p| >= 2;
      assert IsWalkFromTo(big, p, n, n);
    }
  }

  /** A set closed under arcs that contains the start of a walk contains its end. */
  lemma {:induction false} ClosedSetCatchesWalk(arcs: seq<Arc>, s: set<Id>, p: seq<Id>)
    requires IsWalk(arcs, p) && p[0] in s
    requires forall e :: e in arcs && e.0 in s ==> e.1 in s
    ensures p[|p| - 1] in s
  {
    if |p| > 1 {
      assert (p[0], p[1]) in arcs;
      assert IsWalk(arcs, p[1..]) by {
        forall i | 0 <= i < |p[1..]| - 1 ensures (p[1..][i], p[1..][i + 1]) in arcs {
          assert (p[i + 1], p[i + 1 + 1]) in arcs;
        }
      }
      ClosedSetCatchesWalk(arcs, s, p[1..]);
    }
  }

  // ----------------------------------------------- pigeonhole and cycles

  ghost predicate NoDuplicates<T(!new)>(s: seq<T>) {
    forall i, j :: 0 <= i < j < |s| ==> s[i] != s[j]
  }

  lemma {:induction false} NoDuplicatesBounded<T(!new)>(s: seq<T>, pool: set<T>)
    requires NoDuplicates(s)
    requires forall x :: x in s ==> x in pool
    ensures |s| <= |pool|
  {
    if |s| > 0 {
      var last := s[|s| - 1];
      assert last in s;
      forall x | x in s[..|s| - 1] ensures x in pool - {last} {
        var i :| 0 <= i < |s| - 1 && s[i] == x;
      }
      NoDuplicatesBounded(s[..|s| - 1], pool - {last});
    }
  }

  /** More entries than values: some value occurs twice. */
  lemma Pigeonhole<T(!new)>(s: seq<T>, pool: set<T>) returns (i: nat, j: nat)
    requires forall x :: x in s ==> x in pool
    requires |s| > |pool|
    ensures i < j < |s| && s[i] == s[j]
  {
    if NoDuplicates(s) {
      NoDuplicatesBounded(s, pool);
      assert false;
    }
    i, j :| i < j < |s| && s[i] == s[j];
  }

  ghost predicate HasPredecessorIn(arcs: seq<Arc>, pool: set<Id>, x: Id) {
    exists y :: y in pool && (y, x) in arcs
  }

  /** Following predecessors inside `pool` yields arbitrarily long walks. */
  lemma {:induction false} BackwardWalk(arcs: seq<Arc>, pool: set<Id>, u: Id, k: nat) returns (p: seq<Id>)
    requires u in pool
    requires forall x :: x in pool ==> HasPredecessorIn(arcs, pool, x)
    ensures |p| == k + 1 && IsWalk(arcs, p) && p[k] == u
    ensures forall x :: x in p ==> x in pool
    decreases k
  {
    p := [u];
    if k > 0 {
      var y :| y in pool && (y, u) in arcs;
      var q := BackwardWalk(arcs, pool, y, k - 1);
      p := q + [u];
    }
  }

  /** If every member of a finite set has a predecessor in it, each lies behind a cycle. */
  lemma PredecessorsForceCycle(arcs: seq<Arc>, pool: set<Id>, u: Id)
    requires u in pool
    requires forall x :: x in pool ==> HasPredecessorIn(arcs, pool, x)
    ensures BehindCycle(arcs, u)
  {
    var p := BackwardWalk(arcs, pool, u, |pool|);
    var i, j := Pigeonhole(p, pool);
    SubWalk(arcs, p, i, j);
    SubWalk(arcs, p, i, |p| - 1);
    assert OnCycle(arcs, p[i]) && Reaches(arcs, p[i], u);
  }

  lemma SubWalk(arcs: seq<Arc>, p: seq<Id>, i: nat, j: nat)
    requires IsWalk(arcs, p) && i <= j < |p|
    ensures IsWalkFromTo(arcs, p[i..j + 1], p[i], p[j])
  {
    var q := p[i..j + 1];
    forall k | 0 <= k < |q| - 1 ensures (q[k], q[k + 1]) in arcs {
      assert (p[i + k], p[i + k + 1]) in arcs;
    }
  }

  // ------------------------------------------------- elimination orders

  /** Every arc into an eliminated node starts at a node eliminated strictly earlier. */
  ghost predicate Eliminates(arcs: seq<Arc>, order: seq<Id>) {
    NoDuplicates(order) &&
    forall s, i :: 0 <= i < |order| && (s, order[i]) in arcs ==> s in order[..i]
  }

  /** A walk that ends at position `i` of an elimination order runs through earlier positions only. */
  lemma {:induction false} WalkRunsForward(arcs: seq<Arc>, order: seq<Id>, p: seq<Id>, i: nat)
    requires Eliminates(arcs, order) && IsWalk(arcs, p)
    requires i < |order| && p[|p| - 1] == order[i]
    ensures p[0] in order[..i + 1]
    ensures |p| >= 2 ==> p[0] in order[..i]
  {
    if |p| >= 2 {
      assert (p[|p| - 2], p[|p| - 2 + 1]) in arcs;
      assert p[|p| - 2] in order[..i];
      var k :| 0 <= k < i && order[..i][k] == p[|p| - 2];
      var q := p[..|p| - 1];
      assert q[|q| - 1] == order[k];
      assert IsWalk(arcs, q);
      WalkRunsForward(arcs, order, q, k);
      assert p[0] in order[..k + 1];
      var m :| 0 <= m < k + 1 && order[..k + 1][m] == p[0];
      assert order[..i][m] == p[0];
    }
  }

  /** No closed walk runs through an eliminated node. */
  lemma ClosedWalkNotEliminated(arcs: seq<Arc>, order: seq<Id>, q: seq<Id>, a: Id, k: nat)
    requires Eliminates(arcs, order) && k < |order|
    requires IsWalkFromTo(arcs, q, a, order[k]) && |q| >= 2
    ensures a != order[k]
  {
    WalkRunsForward(arcs, order, q, k);
  }

  /** Eliminated nodes never lie behind a cycle. */
  lemma EliminatedIsCycleFree(arcs: seq<Arc>, order: seq<Id>, n: Id)
    requires Eliminates(arcs, order) && n in order
    ensures !BehindCycle(arcs, n)
  {
    if BehindCycle(arcs, n) {
      var c :| OnCycle(arcs, c) && Reaches(arcs, c, n);
      var p :| IsWalkFromTo(arcs, p, c, n);
      var i :| 0 <= i < |order| && order[i] == n;
      WalkRunsForward(arcs, order, p, i);
      var k :| 0 <= k < i + 1 && order[..i + 1][k] == c;
      var q :| IsWalkFromTo(arcs, q, c, c) && |q| >= 2;
      ClosedWalkNotEliminated(arcs, order, q, c, k);
    }
  }

  // ------------------------------------------------------- Kahn's bookkeeping

  /** Number of arcs into `t` whose source has not been eliminated yet. */
  ghost function Pending(arcs: seq<Arc>, t: Id, done: set<Id>): nat {
    if arcs == [] then 0
    else (if arcs[0].1 == t && arcs[0].0 !in done then 1 else 0) + Pending(arcs[1..], t, done)
  }

  /** Targets of the arcs leaving `s`, parallel arcs repeated, in list order. */
  function Targets(arcs: seq<Arc>, s: Id): seq<Id> {
    if arcs == [] then []
    else (if arcs[0].0 == s then [arcs[0].1] else []) + Targets(arcs[1..], s)
  }

  lemma {:induction false} TargetsAreArcs(arcs: seq<Arc>, s: Id)
    ensures forall t :: t in Targets(arcs, s) <==> (s, t) in arcs
  {
    if arcs != [] {
      TargetsAreArcs(arcs[1..], s);
      assert forall t :: (s, t) in arcs <==> (s, t) == arcs[0] || (s, t) in arcs[1..];
    }
  }

  lemma {:induction false} TargetsSnoc(arcs: seq<Arc>, a: Arc, s: Id)
    ensures Targets(arcs + [a], s) == Targets(arcs, s) + (if a.0 == s then [a.1] else [])
  {
    if arcs == [] {
      assert arcs + [a] == [a] && [a][1..] == [];
    } else {
      assert (arcs + [a])[1..] == arcs[1..] + [a];
      TargetsSnoc(arcs[1..], a, s);
    }
  }

  lemma {:induction false} PendingSnoc(arcs: seq<Arc>, a: Arc, t: Id)
    ensures Pending(arcs + [a], t, {}) == Pending(arcs, t, {}) + (if a.1 == t then 1 else 0)
  {
    if arcs == [] {
      assert arcs + [a] == [a] && [a][1..] == [];
    } else {
      assert (arcs + [a])[1..] == arcs[1..] + [a];
      PendingSnoc(arcs[1..], a, t);
    }
  }

  /** The targets of `s`, counted. */
  lemma TargetsCons(arcs: seq<Arc>, s: Id, t: Id)
    requires arcs != []
    ensures multiset(Targets(arcs, s))[t] ==
      (if arcs[0].0 == s && arcs[0].1 == t then 1 else 0) + multiset(Targets(arcs[1..], s))[t]
  {
    if arcs[0].0 == s {
      assert Targets(arcs, s) == [arcs[0].1] + Targets(arcs[1..], s);
    } else {
      assert Targets(arcs, s) == Targets(arcs[1..], s);
    }
  }

  /** Eliminating `s` takes exactly its arcs off every pending count. */
  lemma {:induction false} PendingDrop(arcs: seq<Arc>, t: Id, done: set<Id>, s: Id)
    requires s !in done
    ensures Pending(arcs, t, done) == Pending(arcs, t, done + {s}) + multiset(Targets(arcs, s))[t]
  {
    hide Targets;
    if arcs == [] {
      NoTargets(s);
    } else {
      PendingDrop(arcs[1..], t, done, s);
      TargetsCons(arcs, s, t);
    }
  }

  lemma NoTargets(s: Id)
    ensures Targets([], s) == []
  {
  }

  lemma {:induction false} PendingZero(arcs: seq<Arc>, t: Id, done: set<Id>)
    ensures Pending(arcs, t, done) == 0 <==> forall s :: (s, t) in arcs ==> s in done
  {
    if arcs != [] {
      PendingZero(arcs[1..], t, done);
      assert arcs[0] in arcs;
      assert forall e :: e in arcs <==> e == arcs[0] || e in arcs[1..];
    }
  }

  ghost function Elements(s: seq<Id>): set<Id> {
    set x | x in s
  }

  lemma ElementsSnoc(s: seq<Id>, x: Id)
    ensures Elements(s + [x]) == Elements(s) + {x}
  {
  }

  /** State of an elimination between two visits: counts, the ready list and the order so far. */
  ghost predicate KahnState(nodes: set<Id>, arcs: seq<Arc>, indegree: map<Id, int>, ready: seq<Id>, order: seq<Id>) {
    && indegree.Keys == nodes
    && (forall e :: e in arcs ==> e.0 in nodes && e.1 in nodes)
    && Elements(order) <= nodes
    && Eliminates(arcs, order)
    && NoDuplicates(ready)
    && (forall n :: n in nodes ==> indegree[n] == Pending(arcs, n, Elements(order)))
    && (forall n :: n in ready <==> n in nodes && n !in order && indegree[n] == 0)
  }

  /** The same while the arcs leaving the freshly eliminated `id` are being relaxed, `j` of them done. */
  ghost predicate Relaxing(nodes: set<Id>, arcs: seq<Arc>, indegree: map<Id, int>, ready: seq<Id>, order: seq<Id>,
                           id: Id, j: nat)
  {
    var ts := Targets(arcs, id);
    && j <= |ts|
    && indegree.Keys == nodes
    && (forall e :: e in arcs ==> e.0 in nodes && e.1 in nodes)
    && Elements(order) <= nodes
    && Eliminates(arcs, order)
    && NoDuplicates(ready)
    && (forall n :: n in nodes ==> indegree[n] == Pending(arcs, n, Elements(order)) + multiset(ts[j..])[n])
    && (forall n :: n in ready <==> n in nodes && n !in order && indegree[n] == 0)
    && (forall n :: n in order ==> indegree[n] == 0)
  }

  lemma KahnStart(nodes: set<Id>, arcs: seq<Arc>, indegree: map<Id, int>, ready: seq<Id>)
    requires indegree.Keys == nodes
    requires forall e :: e in arcs ==> e.0 in nodes && e.1 in nodes
    requires forall n :: n in nodes ==> indegree[n] == Pending(arcs, n, {})
    requires NoDuplicates(ready)
    requires forall n :: n in ready <==> n in nodes && indegree[n] == 0
    ensures KahnState(nodes, arcs, indegree, ready, [])
  {
    assert Elements([]) == {};
  }

  /** Eliminated nodes have no pending arcs. */
  lemma EliminatedPendingZero(arcs: seq<Arc>, order: seq<Id>, n: Id)
    requires Eliminates(arcs, order) && n in order
    ensures Pending(arcs, n, Elements(order)) == 0
  {
    var i :| 0 <= i < |order| && order[i] == n;
    forall s | (s, n) in arcs ensures s in Elements(order) {
      assert s in order[..i];
    }
    PendingZero(arcs, n, Elements(order));
  }

  lemma ReadyWithout(ready: seq<Id>, k: nat)
    requires k < |ready| && NoDuplicates(ready)
    ensures NoDuplicates(ready[..k] + ready[k + 1..])
    ensures forall n :: n in ready[..k] + ready[k + 1..] <==> n in ready && n != ready[k]
  {
    var rest := ready[..k] + ready[k + 1..];
    forall m | 0 <= m < |rest| ensures rest[m] in ready && rest[m] != ready[k] {
      assert rest[m] == ready[if m < k then m else m + 1];
    }
    forall n | n in ready && n != ready[k] ensures n in rest {
      var m :| 0 <= m < |ready| && ready[m] == n;
      assert rest[if m < k then m else m - 1] == n;
    }
  }

  lemma EliminatesSnoc(arcs: seq<Arc>, order: seq<Id>, id: Id)
    requires Eliminates(arcs, order) && id !in order
    requires forall s :: (s, id) in arcs ==> s in order
    ensures Eliminates(arcs, order + [id])
  {
    var visited := order + [id];
    forall s, i | 0 <= i < |visited| && (s, visited[i]) in arcs ensures s in visited[..i] {
      if i < |order| {
        assert order[..i] == visited[..i];
        assert s in order[..i];
      } else {
        assert visited[..i] == order;
      }
    }
  }

  /** Taking a node off the ready list, from any position, starts a relaxation. */
  lemma KahnPop(nodes: set<Id>, arcs: seq<Arc>, indegree: map<Id, int>, ready: seq<Id>, order: seq<Id>, k: nat)
    requires KahnState(nodes, arcs, indegree, ready, order) && k < |ready|
    ensures Relaxing(nodes, arcs, indegree, ready[..k] + ready[k + 1..], order + [ready[k]], ready[k], 0)
    ensures ready[k] !in order && ready[k] in nodes
  {
    var id := ready[k];
    assert id in ready;
    PendingZero(arcs, id, Elements(order));
    ReadyWithout(ready, k);
    EliminatesSnoc(arcs, order, id);
    ElementsSnoc(order, id);
    PopCounts(nodes, arcs, indegree, order, id);
    PopZeros(nodes, arcs, indegree, order, id);
  }

  lemma PopCounts(nodes: set<Id>, arcs: seq<Arc>, indegree: map<Id, int>, order: seq<Id>, id: Id)
    requires indegree.Keys == nodes && id !in order
    requires forall n :: n in nodes ==> indegree[n] == Pending(arcs, n, Elements(order))
    ensures forall n :: n in nodes ==>
      indegree[n] == Pending(arcs, n, Elements(order + [id])) + multiset(Targets(arcs, id)[0..])[n]
  {
    ElementsSnoc(order, id);
    assert Targets(arcs, id)[0..] == Targets(arcs, id);
    forall n | n in nodes {
      PendingDrop(arcs, n, Elements(order), id);
    }
  }

  lemma PopZeros(nodes: set<Id>, arcs: seq<Arc>, indegree: map<Id, int>, order: seq<Id>, id: Id)
    requires indegree.Keys == nodes && Elements(order) <= nodes && Eliminates(arcs, order)
    requires forall n :: n in nodes ==> indegree[n] == Pending(arcs, n, Elements(order))
    requires id in nodes && indegree[id] == 0
    ensures forall n :: n in order + [id] ==> n in nodes && indegree[n] == 0
  {
    forall n | n in order ensures n in nodes && indegree[n] == 0 {
      assert n in Elements(order);
      EliminatedPendingZero(arcs, order, n);
    }
  }

  ghost function Relaxed(indegree: map<Id, int>, t: Id): map<Id, int>
    requires t in indegree
  {
    indegree[t := indegree[t] - 1]
  }

  /** Nodes that still wait for somebody. */
  ghost function Positive(indegree: map<Id, int>): set<Id> {
    set n | n in indegree && indegree[n] > 0
  }

  /** One decrement moves a node out of the waiting ones exactly when its count reaches zero. */
  lemma PositiveRelaxed(indegree: map<Id, int>, t: Id)
    requires t in indegree
    ensures |Positive(Relaxed(indegree, t))| == |Positive(indegree)| - (if indegree[t] == 1 then 1 else 0)
  {
    var after := Relaxed(indegree, t);
    if indegree[t] == 1 {
      assert Positive(indegree) == Positive(after) + {t};
    } else {
      assert Positive(indegree) == Positive(after);
    }
  }

  /** The next target to relax is a node that is neither eliminated nor ready. */
  lemma RelaxTarget(nodes: set<Id>, arcs: seq<Arc>, indegree: map<Id, int>, ready: seq<Id>, order: seq<Id>,
                    id: Id, j: nat)
    requires Relaxing(nodes, arcs, indegree, ready, order, id, j) && j < |Targets(arcs, id)|
    ensures
      var t := Targets(arcs, id)[j];
      t in nodes && t !in order && t !in ready && indegree[t] > 0
  {
    var ts := Targets(arcs, id);
    TargetsAreArcs(arcs, id);
    assert ts[j] in ts && (id, ts[j]) in arcs;
    assert (id, ts[j]).1 in nodes;
    RemainingTargets(ts, j);
  }

  /** One decrement: the target joins the ready list exactly when its count reaches zero. */
  lemma KahnRelax(nodes: set<Id>, arcs: seq<Arc>, indegree: map<Id, int>, ready: seq<Id>, order: seq<Id>,
                  id: Id, j: nat)
    requires Relaxing(nodes, arcs, indegree, ready, order, id, j) && j < |Targets(arcs, id)|
    requires Targets(arcs, id)[j] in nodes
    ensures
      var t := Targets(arcs, id)[j];
      Relaxing(nodes, arcs, Relaxed(indegree, t), if indegree[t] == 1 then ready + [t] else ready, order, id, j + 1)
  {
    var ts := Targets(arcs, id);
    RelaxTarget(nodes, arcs, indegree, ready, order, id, j);
    RelaxCounts(nodes, arcs, indegree, Elements(order), ts, j);
    RelaxReady(nodes, indegree, ready, order, ts[j]);
  }

  lemma RelaxCounts(nodes: set<Id>, arcs: seq<Arc>, indegree: map<Id, int>, done: set<Id>, ts: seq<Id>, j: nat)
    requires j < |ts| && ts[j] in nodes && indegree.Keys == nodes
    requires forall n :: n in nodes ==> indegree[n] == Pending(arcs, n, done) + multiset(ts[j..])[n]
    ensures indegree[ts[j]] > 0
    ensures forall n :: n in nodes ==> Relaxed(indegree, ts[j])[n] == Pending(arcs, n, done) + multiset(ts[j + 1..])[n]
  {
    RemainingTargets(ts, j);
  }

  lemma RelaxReady(nodes: set<Id>, indegree: map<Id, int>, ready: seq<Id>, order: seq<Id>, t: Id)
    requires indegree.Keys == nodes && t in nodes && t !in order && t !in ready && indegree[t] > 0
    requires forall n :: n in ready <==> n in nodes && n !in order && indegree[n] == 0
    requires NoDuplicates(ready)
    ensures
      var after, grown := Relaxed(indegree, t), if indegree[t] == 1 then ready + [t] else ready;
      NoDuplicates(grown) && forall n :: n in grown <==> n in nodes && n !in order && after[n] == 0
  {
  }

  lemma RemainingTargets(ts: seq<Id>, j: nat)
    requires j < |ts|
    ensures forall n :: multiset(ts[j..])[n] == multiset(ts[j + 1..])[n] + (if n == ts[j] then 1 else 0)
  {
    assert ts[j..] == [ts[j]] + ts[j + 1..];
    assert multiset(ts[j..]) == multiset{ts[j]} + multiset(ts[j + 1..]);
  }

  lemma KahnRelaxed(nodes: set<Id>, arcs: seq<Arc>, indegree: map<Id, int>, ready: seq<Id>, order: seq<Id>, id: Id)
    requires Relaxing(nodes, arcs, indegree, ready, order, id, |Targets(arcs, id)|)
    ensures KahnState(nodes, arcs, indegree, ready, order)
  {
    var ts := Targets(arcs, id);
    assert ts[|ts|..] == [];
  }

  lemma StuckHavePredecessors(nodes: set<Id>, arcs: seq<Arc>, indegree: map<Id, int>, order: seq<Id>, x: Id)
    requires KahnState(nodes, arcs, indegree, [], order)
    requires x in nodes && x !in order
    ensures indegree[x] > 0
    ensures HasPredecessorIn(arcs, nodes - Elements(order), x)
  {
    assert x !in [];
    PendingZero(arcs, x, Elements(order));
    var y :| (y, x) in arcs && y !in Elements(order);
    assert (y, x).0 in nodes;
  }

  /** With nothing ready, the eliminated nodes are exactly those not behind a cycle. */
  lemma KahnFinish(nodes: set<Id>, arcs: seq<Arc>, indegree: map<Id, int>, order: seq<Id>)
    requires KahnState(nodes, arcs, indegree, [], order)
    ensures forall n :: n in nodes ==> (n !in order <==> BehindCycle(arcs, n))
    ensures forall n :: n in nodes ==> (n !in order <==> indegree[n] > 0)
  {
    var stuck := nodes - Elements(order);
    forall x | x in stuck ensures HasPredecessorIn(arcs, stuck, x) {
      StuckHavePredecessors(nodes, arcs, indegree, order, x);
    }
    forall n | n in nodes ensures (n !in order <==> BehindCycle(arcs, n)) && (n !in order <==> indegree[n] > 0) {
      if n in order {
        EliminatedIsCycleFree(arcs, order, n);
        EliminatedPendingZero(arcs, order, n);
      } else {
        assert n in stuck;
        PredecessorsForceCycle(arcs, stuck, n);
        StuckHavePredecessors(nodes, arcs, indegree, order, n);
      }
    }
  }

  /** An elimination is complete exactly when the graph has no cycle. */
  lemma KahnComplete(nodes: set<Id>, arcs: seq<Arc>, indegree: map<Id, int>, order: seq<Id>)
    requires KahnState(nodes, arcs, indegree, [], order)
    ensures |order| == |nodes| <==> Acyclic(arcs)
    ensures |order| == |nodes| <==> Elements(order) == nodes
    ensures |order| <= |nodes|
  {
    KahnFinish(nodes, arcs, indegree, order);
    NoDuplicatesCount(order);
    if Elements(order) == nodes {
      forall c | OnCycle(arcs, c) ensures c in nodes && BehindCycle(arcs, c) {
        var p :| IsWalkFromTo(arcs, p, c, c) && |p| >= 2;
        assert (p[0], p[0 + 1]) in arcs;
        ReachesSelf(arcs, c);
      }
    } else {
      var u :| u in nodes && u !in Elements(order);
      assert BehindCycle(arcs, u);
      SubsetSize(Elements(order), nodes);
    }
  }

  lemma SubsetSize<T>(a: set<T>, b: set<T>)
    requires a < b
    ensures |a| < |b|
  {
    assert b == a + (b - a);
    assert |b| == |a| + |b - a|;
  }

  lemma {:induction false} NoDuplicatesCount(s: seq<Id>)
    requires NoDuplicates(s)
    ensures |Elements(s)| == |s|
  {
    if s != [] {
      var init, last := s[..|s| - 1], s[|s| - 1];
      NoDuplicatesCount(init);
      assert last !in Elements(init);
      assert Elements(s) == Elements(init) + {last};
    }
  }

  // ------------------------------------ eliminations that may repeat a node

  /**
   * What holds of an elimination even when its list of ready nodes repeats some: no count exceeds the
   * arcs still to be followed, and a node with a count of zero has been queued. `rest` are the targets
   * of the node taken off last that are still due.
   */
  ghost predicate Covering(arcs: seq<Arc>, degrees: map<Id, int>, ready: seq<Id>, done: set<Id>, rest: seq<Id>) {
    && (forall n :: n in degrees ==> degrees[n] <= Pending(arcs, n, done) + multiset(rest)[n])
    && (forall n :: n in degrees && degrees[n] <= 0 ==> n in ready || n in done)
  }

  lemma CoverPop(arcs: seq<Arc>, degrees: map<Id, int>, ready: seq<Id>, left: seq<Id>, done: set<Id>, id: Id)
    requires Covering(arcs, degrees, ready, done, []) && forall n :: n in ready ==> n == id || n in left
    ensures Covering(arcs, degrees, left, done + {id}, Targets(arcs, id))
  {
    forall n | n in degrees
      ensures degrees[n] <= Pending(arcs, n, done + {id}) + multiset(Targets(arcs, id))[n]
    {
      if id in done {
        assert done + {id} == done;
      } else {
        PendingDrop(arcs, n, done, id);
      }
    }
  }

  /** One target more: its count goes down, or stays where it is if it is used up. */
  lemma CoverRelax(arcs: seq<Arc>, degrees: map<Id, int>, after: map<Id, int>, ready: seq<Id>, done: set<Id>, t: Id, rest: seq<Id>)
    requires Covering(arcs, degrees, ready, done, [t] + rest) && t in degrees && after.Keys == degrees.Keys
    requires forall n :: n in degrees && n != t ==> after[n] == degrees[n]
    requires after[t] == degrees[t] - 1 || (degrees[t] <= 0 && after[t] == degrees[t])
    ensures Covering(arcs, after, if degrees[t] == 1 then ready + [t] else ready, done, rest)
  {
    assert multiset([t] + rest) == multiset{t} + multiset(rest);
  }

  /** With nothing ready and no cycle, every node has been taken off. */
  lemma CoverEnds(arcs: seq<Arc>, degrees: map<Id, int>, done: set<Id>)
    requires Covering(arcs, degrees, [], done, []) && forall a :: a in arcs ==> a.0 in degrees && a.1 in degrees
    requires Acyclic(arcs)
    ensures degrees.Keys <= done
  {
    var stuck := degrees.Keys - done;
    forall x | x in stuck ensures HasPredecessorIn(arcs, stuck, x) {
      PendingZero(arcs, x, done);
      var y :| (y, x) in arcs && y !in done;
      assert (y, x).0 in degrees;
    }
    forall u | u in degrees ensures u in done {
      if u !in done {
        PredecessorsForceCycle(arcs, stuck, u);
      }
    }
  }

  lemma {:induction false} RepeatsAreLonger(s: seq<Id>)
    ensures |Elements(s)| <= |s|
    ensures !NoDuplicates(s) ==> |Elements(s)| < |s|
  {
    if s != [] {
      var init, last := s[..|s| - 1], s[|s| - 1];
      RepeatsAreLonger(init);
      assert s == init + [last];
      ElementsSnoc(init, last);
      if last in init {
        assert Elements(s) == Elements(init);
      }
    }
  }
}
