// Automatic layout: levels from left to right, rows within a level, no two nodes overlapping.
module Layout {
  import opened Digraph
  import opened EditorGraph
  import opened LevelLaws
  import opened Levels
  import opened OrderedSets
  import opened Sorting
  import opened Workflow

  // -------------------------------------------------------------- positions

  datatype Point = Point(x: real, y: real)

  datatype CanvasNode = CanvasNode(id: Id, nodeType: string, position: Option<Point>)

  const NODE_WIDTH: int := 200
  const NODE_HEIGHT: int := 108
  const COLUMN: int := NODE_WIDTH + 90
  const ROW: int := NODE_HEIGHT + 50

  function CanvasIds(nodes: seq<CanvasNode>): seq<Id> {
    seq(|nodes|, i requires 0 <= i < |nodes| => nodes[i].id)
  }

  /** The vertical position of the last node declared under an id. */
  function OldY(nodes: seq<CanvasNode>, id: Id): real {
    if nodes == [] then 0.0
    else if nodes[|nodes| - 1].id == id then
      if nodes[|nodes| - 1].position.Some? then nodes[|nodes| - 1].position.value.y else 0.0
    else OldY(nodes[..|nodes| - 1], id)
  }

  /** Rows follow the old vertical order; ties follow declaration. */
  predicate Above(nodes: seq<CanvasNode>, a: Id, b: Id) {
    || OldY(nodes, a) < OldY(nodes, b)
    || (OldY(nodes, a) == OldY(nodes, b) && DeclaredAt(CanvasIds(nodes), a) <= DeclaredAt(CanvasIds(nodes), b))
  }

  /** The declaration of an id that its old height is read from: the last. */
  ghost predicate DeclaredLast(nodes: seq<CanvasNode>, id: Id, i: nat) {
    i < |nodes| && nodes[i].id == id && forall j :: i < j < |nodes| ==> nodes[j].id != id
  }

  function Height(n: CanvasNode): real {
    if n.position.Some? then n.position.value.y else 0.0
  }

  /** One node stood higher than the other, or as high and was declared before it. */
  ghost predicate StoodAbove(nodes: seq<CanvasNode>, a: Id, b: Id) {
    exists i: nat, j: nat :: DeclaredLast(nodes, a, i) && DeclaredLast(nodes, b, j) &&
      (Height(nodes[i]) < Height(nodes[j]) || (Height(nodes[i]) == Height(nodes[j]) && i < j))
  }

  lemma {:induction false} LastIsRead(nodes: seq<CanvasNode>, id: Id, i: nat)
    requires DeclaredLast(nodes, id, i)
    ensures OldY(nodes, id) == Height(nodes[i]) && DeclaredAt(CanvasIds(nodes), id) == i
  {
    var init := nodes[..|nodes| - 1];
    assert CanvasIds(nodes)[..|nodes| - 1] == CanvasIds(init);
    if i < |nodes| - 1 {
      LastIsRead(init, id, i);
    }
  }

  lemma SomeLast(nodes: seq<CanvasNode>, id: Id) returns (i: nat)
    requires id in CanvasIds(nodes)
    ensures DeclaredLast(nodes, id, i)
  {
    i := |nodes| - 1;
    assert exists k :: 0 <= k < |nodes| && nodes[k].id == id by {
      var k :| 0 <= k < |nodes| && CanvasIds(nodes)[k] == id;
      assert nodes[k].id == id;
    }
    while nodes[i].id != id
      invariant i < |nodes| && forall j :: i < j < |nodes| ==> nodes[j].id != id
      decreases i
    {
      i := i - 1;
    }
  }

  lemma StoodAboveIsAbove(nodes: seq<CanvasNode>, a: Id, b: Id)
    requires a in CanvasIds(nodes) && b in CanvasIds(nodes)
    ensures StoodAbove(nodes, a, b) <==> Above(nodes, a, b) && a != b
  {
    hide OldY, CanvasIds, Height;
    var i := SomeLast(nodes, a);
    var j := SomeLast(nodes, b);
    LastIsRead(nodes, a, i);
    LastIsRead(nodes, b, j);
    assert forall k: nat :: DeclaredLast(nodes, a, k) ==> k == i;
    assert forall k: nat :: DeclaredLast(nodes, b, k) ==> k == j;
  }

  lemma AboveIsTotal(nodes: seq<CanvasNode>)
    ensures TotalOrder((a, b) => Above(nodes, a, b), Elements(CanvasIds(nodes)))
  {
    var all := CanvasIds(nodes);
    forall a, b | a in Elements(all) && b in Elements(all) && Above(nodes, a, b) && Above(nodes, b, a) ensures a == b {
      DeclaredAtFinds(all, a);
      DeclaredAtFinds(all, b);
    }
  }

  function OnLevel(keys: seq<Id>, levels: map<Id, nat>, level: nat): seq<Id> {
    Kept(keys, id => id in levels && levels[id] == level)
  }

  /** One column, top to bottom. */
  function Column(nodes: seq<CanvasNode>, keys: seq<Id>, levels: map<Id, nat>, level: nat): seq<Id> {
    Sort(OnLevel(keys, levels, level), (a, b) => Above(nodes, a, b))
  }

  /** The rows of a level do not depend on the order in which the level was filled. */
  lemma RowsIgnoreFillOrder(nodes: seq<CanvasNode>, keys: seq<Id>, levels: map<Id, nat>, level: nat, group: seq<Id>)
    requires keys == Distinct(CanvasIds(nodes)) && multiset(group) == multiset(OnLevel(keys, levels, level))
    ensures Sort(group, (a, b) => Above(nodes, a, b)) == Column(nodes, keys, levels, level)
  {
    var le, pool := (a, b) => Above(nodes, a, b), Elements(CanvasIds(nodes));
    var ids := OnLevel(keys, levels, level);
    DistinctIsExact(CanvasIds(nodes));
    KeptIsExact(keys, id => id in levels && levels[id] == level);
    SameMembers(group, ids);
    AboveIsTotal(nodes);
    SortSorts(group, le, pool);
    SortSorts(ids, le, pool);
    SortPermutes(group, le);
    SortPermutes(ids, le);
    SameMembers(Sort(group, le), group);
    SameMembers(Sort(ids, le), ids);
    SortedIsUnique(Sort(group, le), Sort(ids, le), le, pool);
  }

  lemma ColumnIsExact(nodes: seq<CanvasNode>, keys: seq<Id>, levels: map<Id, nat>, level: nat)
    requires NoDuplicates(keys)
    ensures NoDuplicates(Column(nodes, keys, levels, level))
    ensures forall id :: id in Column(nodes, keys, levels, level) <==> id in keys && id in levels && levels[id] == level
  {
    KeptIsExact(keys, id => id in levels && levels[id] == level);
    SortPermutes(OnLevel(keys, levels, level), (a, b) => Above(nodes, a, b));
    PermutationKeepsDistinct(OnLevel(keys, levels, level), Column(nodes, keys, levels, level));
    SameMembers(OnLevel(keys, levels, level), Column(nodes, keys, levels, level));
  }

  function At(level: nat, row: nat): Point {
    Point((80 + level * COLUMN) as real, (80 + row * ROW) as real)
  }

  /** `find` sees the first node declared under an id. */
  predicate DeclaredFirst(nodes: seq<CanvasNode>, i: nat) {
    i < |nodes| && forall j :: 0 <= j < i ==> nodes[j].id != nodes[i].id
  }

  function FindNode(nodes: seq<CanvasNode>, id: Id): (i: nat)
    requires id in CanvasIds(nodes)
    ensures DeclaredFirst(nodes, i) && nodes[i].id == id
  {
    if nodes[0].id == id then 0
    else
      assert CanvasIds(nodes)[1..] == CanvasIds(nodes[1..]);
      assert CanvasIds(nodes) == [nodes[0].id] + CanvasIds(nodes)[1..];
      var i := FindNode(nodes[1..], id);
      assert forall j :: 1 <= j < i + 1 ==> nodes[j].id == nodes[1..][j - 1].id;
      i + 1
  }

  /** `placed` is `nodes` with the first declarations of some ids moved to given points. */
  ghost predicate Moved(nodes: seq<CanvasNode>, placed: seq<CanvasNode>, points: map<Id, Point>) {
    && |placed| == |nodes|
    && forall i {:trigger placed[i]} :: 0 <= i < |nodes| ==>
         placed[i] == (if DeclaredFirst(nodes, i) && nodes[i].id in points
                       then nodes[i].(position := Some(points[nodes[i].id])) else nodes[i])
  }

  lemma MovedIds(nodes: seq<CanvasNode>, placed: seq<CanvasNode>, points: map<Id, Point>)
    requires Moved(nodes, placed, points)
    ensures CanvasIds(placed) == CanvasIds(nodes)
    ensures forall i :: DeclaredFirst(nodes, i) <==> DeclaredFirst(placed, i)
  {
    forall i: nat | i < |nodes| ensures placed[i].id == nodes[i].id {
    }
  }

  lemma MoveOne(nodes: seq<CanvasNode>, placed: seq<CanvasNode>, points: map<Id, Point>, i: nat, p: Point)
    requires Moved(nodes, placed, points) && DeclaredFirst(placed, i)
    ensures Moved(nodes, placed[i := placed[i].(position := Some(p))], points[placed[i].id := p])
  {
    MovedIds(nodes, placed, points);
    forall j: nat | j < |nodes| && j != i && DeclaredFirst(nodes, j) ensures nodes[j].id != nodes[i].id {
    }
  }

  /** The first `n` ids of a column have their points, one below the other. */
  ghost predicate Stacked(points: map<Id, Point>, column: seq<Id>, level: nat, n: nat) {
    n <= |column| && forall k :: 0 <= k < n ==> column[k] in points && points[column[k]] == At(level, k)
  }

  lemma StackOne(points: map<Id, Point>, column: seq<Id>, level: nat, n: nat)
    requires Stacked(points, column, level, n) && n < |column| && NoDuplicates(column)
    ensures Stacked(points[column[n] := At(level, n)], column, level, n + 1)
  {
  }

  method PlaceColumn(nodes: seq<CanvasNode>, column: seq<Id>, level: nat, current: seq<CanvasNode>, ghost points: map<Id, Point>)
    returns (placed: seq<CanvasNode>, ghost after: map<Id, Point>)
    requires Moved(nodes, current, points) && NoDuplicates(column)
    requires forall id :: id in column ==> id in CanvasIds(nodes) && id !in points
    ensures Moved(nodes, placed, after) && Stacked(after, column, level, |column|)
    ensures after.Keys == points.Keys + Elements(column)
    ensures forall id :: id in points ==> after[id] == points[id]
  {
    hide Moved, Stacked, At, DeclaredFirst;
    placed, after := current, points;
    assert Stacked(after, column, level, 0) by {
      NothingStacked(after, column, level);
    }
    for row := 0 to |column|
      invariant Moved(nodes, placed, after) && Stacked(after, column, level, row)
      invariant after.Keys == points.Keys + Elements(column[..row])
      invariant forall id :: id in points ==> after[id] == points[id]
    {
      MovedIds(nodes, placed, after);
      assert column[row] in column;
      var i := FindNode(placed, column[row]);
      assert i < |placed| by {
        DeclaredBelow(placed, i);
      }
      MoveOne(nodes, placed, after, i, At(level, row));
      StackOne(after, column, level, row);
      assert column[..row + 1] == column[..row] + [column[row]];
      ElementsSnoc(column[..row], column[row]);
      placed := placed[i := placed[i].(position := Some(At(level, row)))];
      after := after[column[row] := At(level, row)];
    }
    assert column[..|column|] == column;
  }

  lemma NothingStacked(points: map<Id, Point>, column: seq<Id>, level: nat)
    ensures Stacked(points, column, level, 0)
  {
  }

  lemma DeclaredBelow(nodes: seq<CanvasNode>, i: nat)
    requires DeclaredFirst(nodes, i)
    ensures i < |nodes|
  {
  }

  lemma KeptFrom(keys: seq<Id>, i: nat, levels: map<Id, nat>, level: nat)
    requires i < |keys|
    ensures OnLevel(keys[..i + 1], levels, level) == OnLevel(keys[..i], levels, level) +
      (if keys[i] in levels && levels[keys[i]] == level then [keys[i]] else [])
  {
    assert keys[..i + 1] == keys[..i] + [keys[i]];
    KeptSnoc(keys[..i], keys[i], id => id in levels && levels[id] == level);
  }

  lemma NoneOnLevel(levels: map<Id, nat>, level: nat)
    ensures OnLevel([], levels, level) == []
  {
  }

  /** Ids grouped by level, and the levels in use. */
  method GroupByLevel(keys: seq<Id>, levels: map<Id, nat>) returns (groups: map<nat, seq<Id>>, used: seq<nat>)
    requires forall id :: id in keys ==> id in levels
    ensures NoDuplicates(used) && forall l :: l in used <==> l in groups
    ensures forall l :: l in groups ==> groups[l] == OnLevel(keys, levels, l)
    ensures forall id :: id in keys ==> levels[id] in groups
  {
    hide OnLevel;
    groups, used := map[], [];
    forall l: nat ensures OnLevel(keys[..0], levels, l) == [] {
      NoneOnLevel(levels, l);
    }
    for i := 0 to |keys|
      invariant NoDuplicates(used) && forall l :: l in used <==> l in groups
      invariant forall l :: l in groups ==> groups[l] == OnLevel(keys[..i], levels, l)
      invariant forall l :: l !in groups ==> OnLevel(keys[..i], levels, l) == []
      invariant forall id :: id in keys[..i] ==> levels[id] in groups
    {
      forall l: nat ensures OnLevel(keys[..i + 1], levels, l) == OnLevel(keys[..i], levels, l) +
        (if levels[keys[i]] == l then [keys[i]] else [])
      {
        KeptFrom(keys, i, levels, l);
      }
      var level := levels[keys[i]];
      if level !in groups {
        used := used + [level];
      }
      groups := groups[level := (if level in groups then groups[level] else []) + [keys[i]]];
    }
    assert keys[..|keys|] == keys;
  }

  /** Every id has the point of its row in the column of its level. */
  ghost predicate Charted(nodes: seq<CanvasNode>, keys: seq<Id>, levels: map<Id, nat>, points: map<Id, Point>, done: set<nat>) {
    && (forall id :: id in points <==> id in keys && id in levels && levels[id] in done)
    && (forall l :: l in done ==> Stacked(points, Column(nodes, keys, levels, l), l, |Column(nodes, keys, levels, l)|))
  }

  lemma ChartColumn(nodes: seq<CanvasNode>, keys: seq<Id>, levels: map<Id, nat>, before: map<Id, Point>, after: map<Id, Point>,
                    done: set<nat>, level: nat)
    requires Charted(nodes, keys, levels, before, done) && level !in done && NoDuplicates(keys)
    requires Stacked(after, Column(nodes, keys, levels, level), level, |Column(nodes, keys, levels, level)|)
    requires after.Keys == before.Keys + Elements(Column(nodes, keys, levels, level))
    requires forall id :: id in before ==> after[id] == before[id]
    ensures Charted(nodes, keys, levels, after, done + {level})
  {
    hide Column;
    ColumnIsExact(nodes, keys, levels, level);
    forall l | l in done ensures Stacked(after, Column(nodes, keys, levels, l), l, |Column(nodes, keys, levels, l)|) {
      assert Stacked(before, Column(nodes, keys, levels, l), l, |Column(nodes, keys, levels, l)|);
    }
  }

  lemma ColumnIsDue(nodes: seq<CanvasNode>, keys: seq<Id>, levels: map<Id, nat>, points: map<Id, Point>, done: set<nat>, level: nat)
    requires Charted(nodes, keys, levels, points, done) && level !in done && NoDuplicates(keys)
    ensures NoDuplicates(Column(nodes, keys, levels, level))
    ensures forall id :: id in Column(nodes, keys, levels, level) ==> id in keys && id !in points
  {
    ColumnIsExact(nodes, keys, levels, level);
  }

  // -------------------------------------------------- where everything ends up

  function RowOf(column: seq<Id>, id: Id): (row: nat)
    requires id in column
    ensures row < |column| && column[row] == id
  {
    if column[0] == id then 0
    else
      assert column == [column[0]] + column[1..];
      1 + RowOf(column[1..], id)
  }

  ghost predicate EveryIdLevelled(nodes: seq<CanvasNode>, levels: map<Id, nat>) {
    forall id :: id in CanvasIds(nodes) ==> id in levels
  }

  /** The column an id belongs to, top to bottom. */
  function ColumnOf(nodes: seq<CanvasNode>, levels: map<Id, nat>, id: Id): (column: seq<Id>)
    requires id in CanvasIds(nodes) && id in levels
    ensures id in column && NoDuplicates(column)
  {
    DistinctIsExact(CanvasIds(nodes));
    ColumnIsExact(nodes, Distinct(CanvasIds(nodes)), levels, levels[id]);
    Column(nodes, Distinct(CanvasIds(nodes)), levels, levels[id])
  }

  /** The point of an id: the column of its level, the row of its old height. */
  function PointOf(nodes: seq<CanvasNode>, levels: map<Id, nat>, id: Id): Point
    requires id in CanvasIds(nodes) && id in levels
  {
    At(levels[id], RowOf(ColumnOf(nodes, levels, id), id))
  }

  /** The first declaration of every id moves to the point of the id; later ones stay where they are. */
  function PlacedBy(nodes: seq<CanvasNode>, levels: map<Id, nat>): seq<CanvasNode>
    requires EveryIdLevelled(nodes, levels)
  {
    seq(|nodes|, i requires 0 <= i < |nodes| =>
      assert CanvasIds(nodes)[i] == nodes[i].id;
      if DeclaredFirst(nodes, i) then nodes[i].(position := Some(PointOf(nodes, levels, nodes[i].id))) else nodes[i])
  }

  /** The levels of the loop, and columns of their own for ids it did not reach. */
  ghost function FullLevels(nodes: seq<CanvasNode>, edges: seq<Edge>): (levels: map<Id, nat>)
    ensures EveryIdLevelled(nodes, levels) && NextColumns(LevelsOf(CanvasIds(nodes), edges), levels)
  {
    LevelsAreFilled(nodes, edges);
    var all := CanvasIds(nodes);
    WithFallbacks(all, LevelsOf(all, edges))
  }

  lemma LevelsAreFilled(nodes: seq<CanvasNode>, edges: seq<Edge>)
    ensures EveryIdLevelled(nodes, WithFallbacks(CanvasIds(nodes), LevelsOf(CanvasIds(nodes), edges)))
    ensures forall id :: id in LevelsOf(CanvasIds(nodes), edges) ==> id in CanvasIds(nodes)
    ensures
      var known := LevelsOf(CanvasIds(nodes), edges);
      NextColumns(known, WithFallbacks(CanvasIds(nodes), known))
  {
    hide LevelsOf, WithFallbacks, CanvasIds, NextColumns;
    var all := CanvasIds(nodes);
    LevelsAreDeclared(all, edges);
    FallbacksAreExact(all, LevelsOf(all, edges));
  }

  /** What the layout makes of any list of nodes and edges. */
  ghost function LaidOut(nodes: seq<CanvasNode>, edges: seq<Edge>): seq<CanvasNode> {
    PlacedBy(nodes, FullLevels(nodes, edges))
  }

  lemma ChartedIsPlaced(nodes: seq<CanvasNode>, placed: seq<CanvasNode>, levels: map<Id, nat>, points: map<Id, Point>,
                        done: set<nat>)
    requires EveryIdLevelled(nodes, levels)
    requires Moved(nodes, placed, points) && Charted(nodes, Distinct(CanvasIds(nodes)), levels, points, done)
    requires forall id :: id in CanvasIds(nodes) ==> id in levels && levels[id] in done
    ensures placed == PlacedBy(nodes, levels)
  {
    hide Charted, Column, Distinct, RowOf;
    DistinctIsExact(CanvasIds(nodes));
    forall i: nat | i < |nodes| ensures placed[i] == PlacedBy(nodes, levels)[i] {
      var id := nodes[i].id;
      assert CanvasIds(nodes)[i] == id;
      PointIsCharted(nodes, levels, points, done, id);
    }
  }

  lemma PointIsCharted(nodes: seq<CanvasNode>, levels: map<Id, nat>, points: map<Id, Point>, done: set<nat>, id: Id)
    requires id in CanvasIds(nodes) && id in levels && levels[id] in done
    requires Charted(nodes, Distinct(CanvasIds(nodes)), levels, points, done)
    ensures id in points && points[id] == PointOf(nodes, levels, id)
  {
    hide Column, Distinct;
    DistinctIsExact(CanvasIds(nodes));
    var column := ColumnOf(nodes, levels, id);
    assert Stacked(points, column, levels[id], |column|);
    assert column[RowOf(column, id)] == id;
  }

  method Arrange(nodes: seq<CanvasNode>, keys: seq<Id>, levels: map<Id, nat>) returns (placed: seq<CanvasNode>)
    requires keys == Distinct(CanvasIds(nodes)) && EveryIdLevelled(nodes, levels)
    ensures placed == PlacedBy(nodes, levels)
  {
    hide Moved, Charted, Column, Stacked, OnLevel, Above, Sort, Kept, Distinct, PlacedBy;
    DistinctIsExact(CanvasIds(nodes));
    var groups, used := GroupByLevel(keys, levels);
    var sorted := Sort(used, (a: nat, b: nat) => a <= b);
    SortPermutes(used, (a: nat, b: nat) => a <= b);
    SameMembers(used, sorted);
    PermutationKeepsDistinct(used, sorted);
    ghost var points: map<Id, Point>, done: set<nat> := map[], {};
    placed := nodes;
    NothingMoved(nodes, keys, levels);
    for i := 0 to |sorted|
      invariant Moved(nodes, placed, points) && Charted(nodes, keys, levels, points, done)
      invariant done == set l | l in sorted[..i]
    {
      var level := sorted[i];
      assert level in sorted && level in groups;
      assert sorted[..i + 1] == sorted[..i] + [level];
      assert level !in done;
      var column := Sort(groups[level], (a, b) => Above(nodes, a, b));
      assert column == Column(nodes, keys, levels, level) by {
        ColumnDefined(nodes, keys, levels, level);
      }
      ColumnIsDue(nodes, keys, levels, points, done, level);
      ghost var before := points;
      placed, points := PlaceColumn(nodes, column, level, placed, points);
      ChartColumn(nodes, keys, levels, before, points, done, level);
      done := done + {level};
    }
    assert sorted[..|sorted|] == sorted;
    ChartedIsPlaced(nodes, placed, levels, points, done);
  }

  lemma ColumnDefined(nodes: seq<CanvasNode>, keys: seq<Id>, levels: map<Id, nat>, level: nat)
    ensures Column(nodes, keys, levels, level) == Sort(OnLevel(keys, levels, level), (a, b) => Above(nodes, a, b))
  {
  }

  lemma NothingMoved(nodes: seq<CanvasNode>, keys: seq<Id>, levels: map<Id, nat>)
    ensures Moved(nodes, nodes, map[]) && Charted(nodes, keys, levels, map[], {})
  {
  }

  // ------------------------------------------------------------ the result

  /** Two node rectangles with these top left corners do not overlap. */
  predicate Apart(p: Point, q: Point) {
    || p.x + NODE_WIDTH as real <= q.x || q.x + NODE_WIDTH as real <= p.x
    || p.y + NODE_HEIGHT as real <= q.y || q.y + NODE_HEIGHT as real <= p.y
  }

  ghost predicate PlacedAt(nodes: seq<CanvasNode>, i: nat, p: Point) {
    DeclaredFirst(nodes, i) && nodes[i].position == Some(p)
  }

  /** No two nodes overlap; only the first declaration of an id counts. */
  ghost predicate NoOverlap(nodes: seq<CanvasNode>) {
    forall i: nat, j: nat, p, q :: i != j && PlacedAt(nodes, i, p) && PlacedAt(nodes, j, q) ==> Apart(p, q)
  }

  ghost predicate EveryNodePlaced(nodes: seq<CanvasNode>) {
    forall i: nat :: DeclaredFirst(nodes, i) ==> nodes[i].position.Some?
  }

  /** Control edges run left to right by at least a column; edges out of cycles are exempt. */
  ghost predicate LeftToRight(arcs: seq<Arc>, nodes: seq<CanvasNode>) {
    forall i: nat, j: nat, p, q ::
      PlacedAt(nodes, i, p) && PlacedAt(nodes, j, q) && Forward(arcs, nodes[i].id, nodes[j].id) ==>
        q.x >= p.x + COLUMN as real
  }

  ghost predicate Forward(arcs: seq<Arc>, s: Id, t: Id) {
    (s, t) in arcs && !BehindCycle(arcs, s)
  }

  /** The column of a node that no cycle leads to counts the longest way to it. */
  ghost predicate InLongestColumns(arcs: seq<Arc>, nodes: seq<CanvasNode>) {
    forall i: nat, p :: PlacedAt(nodes, i, p) ==>
      (BehindCycle(arcs, nodes[i].id) || InLongestColumn(arcs, nodes[i].id, p))
  }

  ghost predicate InLongestColumn(arcs: seq<Arc>, id: Id, p: Point) {
    exists k: nat :: IsLongest(arcs, id, k) && p.x == (80 + k * COLUMN) as real
  }

  /** Within a column, nodes keep their vertical order, and where they stood level the order of declaration. */
  ghost predicate KeepsVerticalOrder(before: seq<CanvasNode>, after: seq<CanvasNode>) {
    forall i: nat, j: nat, p, q ::
      PlacedAt(after, i, p) && PlacedAt(after, j, q) && OverIn(before, after[i].id, after[j].id, p, q) ==> p.y < q.y
  }

  ghost predicate OverIn(before: seq<CanvasNode>, a: Id, b: Id, p: Point, q: Point) {
    p.x == q.x && StoodAbove(before, a, b)
  }

  /** Columns are filled from the top, without gaps. */
  ghost predicate StacksRows(nodes: seq<CanvasNode>) {
    forall i: nat, p :: PlacedAt(nodes, i, p) && p.y != 80.0 ==> StandsBelow(nodes, p)
  }

  ghost predicate StandsBelow(nodes: seq<CanvasNode>, p: Point) {
    exists j: nat, q :: PlacedAt(nodes, j, q) && q.x == p.x && q.y == p.y - 158.0
  }

  lemma DistinctCellsAreApart(l: nat, r: nat, m: nat, t: nat)
    requires l != m || r != t
    ensures Apart(At(l, r), At(m, t))
    ensures At(l, r).x == At(m, t).x ==> l == m
    ensures r < t ==> At(l, r).y < At(m, t).y
  {
    if l < m {
      assert m * COLUMN >= (l + 1) * COLUMN;
    } else if m < l {
      assert l * COLUMN >= (m + 1) * COLUMN;
    } else if r < t {
      assert t * ROW >= (r + 1) * ROW;
    } else {
      assert r * ROW >= (t + 1) * ROW;
    }
    if r < t {
      assert t * ROW >= (r + 1) * ROW;
    }
  }

  lemma PlacedIds(nodes: seq<CanvasNode>, levels: map<Id, nat>)
    requires EveryIdLevelled(nodes, levels)
    ensures CanvasIds(PlacedBy(nodes, levels)) == CanvasIds(nodes)
    ensures forall i {:trigger DeclaredFirst(nodes, i)} :: DeclaredFirst(nodes, i) <==> DeclaredFirst(PlacedBy(nodes, levels), i)
  {
    hide PointOf;
    var placed := PlacedBy(nodes, levels);
    assert forall j :: 0 <= j < |nodes| ==> placed[j].id == nodes[j].id;
  }

  lemma PlacedAsSaid(nodes: seq<CanvasNode>, levels: map<Id, nat>, i: nat)
    requires EveryIdLevelled(nodes, levels) && i < |nodes|
    ensures |PlacedBy(nodes, levels)| == |nodes| && PlacedBy(nodes, levels)[i].id == nodes[i].id
    ensures nodes[i].id in CanvasIds(nodes) && (DeclaredFirst(nodes, i) <==> DeclaredFirst(PlacedBy(nodes, levels), i))
    ensures PlacedBy(nodes, levels)[i] ==
      if DeclaredFirst(nodes, i) then nodes[i].(position := Some(PointOf(nodes, levels, nodes[i].id))) else nodes[i]
  {
    hide PointOf;
    PlacedIds(nodes, levels);
    assert CanvasIds(nodes)[i] == nodes[i].id;
  }

  /** Different ids get points whose rectangles do not overlap. */
  lemma PointsAreApart(nodes: seq<CanvasNode>, levels: map<Id, nat>, a: Id, b: Id)
    requires a in CanvasIds(nodes) && b in CanvasIds(nodes) && a in levels && b in levels && a != b
    ensures Apart(PointOf(nodes, levels, a), PointOf(nodes, levels, b))
  {
    hide Column, At, Apart;
    DistinctCellsAreApart(levels[a], RowOf(ColumnOf(nodes, levels, a), a), levels[b], RowOf(ColumnOf(nodes, levels, b), b));
  }

  lemma PlacedNoOverlap(nodes: seq<CanvasNode>, levels: map<Id, nat>)
    requires EveryIdLevelled(nodes, levels)
    ensures NoOverlap(PlacedBy(nodes, levels)) && EveryNodePlaced(PlacedBy(nodes, levels))
  {
    hide PointOf, Apart, PlacedBy;
    var placed := PlacedBy(nodes, levels);
    PlacedIds(nodes, levels);
    assert |CanvasIds(placed)| == |placed| == |nodes|;
    forall i: nat, j: nat, p, q | i != j && PlacedAt(placed, i, p) && PlacedAt(placed, j, q) ensures Apart(p, q) {
      PlacedAsSaid(nodes, levels, i);
      PlacedAsSaid(nodes, levels, j);
      PointsAreApart(nodes, levels, nodes[i].id, nodes[j].id);
    }
    forall i: nat | DeclaredFirst(placed, i) ensures placed[i].position.Some? {
      PlacedAsSaid(nodes, levels, i);
    }
  }

  /** Everything but the positions is as before, and later declarations of an id do not move. */
  ghost predicate OnlyMoved(before: seq<CanvasNode>, after: seq<CanvasNode>) {
    && |after| == |before|
    && (forall i :: 0 <= i < |before| ==> after[i] == before[i].(position := after[i].position))
    && (forall i: nat :: i < |before| && !DeclaredFirst(before, i) ==> after[i] == before[i])
  }

  lemma PlacedOnlyMoved(nodes: seq<CanvasNode>, levels: map<Id, nat>)
    requires EveryIdLevelled(nodes, levels)
    ensures OnlyMoved(nodes, PlacedBy(nodes, levels))
  {
    hide PointOf;
  }

  lemma ColumnOrder(nodes: seq<CanvasNode>, levels: map<Id, nat>, a: Id, b: Id)
    requires a in CanvasIds(nodes) && b in CanvasIds(nodes) && a in levels && b in levels && levels[a] == levels[b]
    requires Above(nodes, a, b) && a != b
    ensures RowOf(ColumnOf(nodes, levels, a), a) < RowOf(ColumnOf(nodes, levels, b), b)
  {
    hide Above;
    var le := (a, b) => Above(nodes, a, b);
    var keys, level := Distinct(CanvasIds(nodes)), levels[a];
    var pool, column := Elements(CanvasIds(nodes)), Column(nodes, keys, levels, level);
    DistinctIsExact(CanvasIds(nodes));
    KeptIsExact(keys, id => id in levels && levels[id] == level);
    assert Within(OnLevel(keys, levels, level), pool);
    AboveIsTotal(nodes);
    SortSorts(OnLevel(keys, levels, level), le, pool);
    assert forall x, y :: 0 <= x < y < |column| ==> Above(nodes, column[x], column[y]);
    assert a in pool && b in pool && le(a, b);
    assert le(b, a) ==> a == b;
  }

  /** Everything but the top of a column stands one row below something else. */
  lemma PlacedInStacks(nodes: seq<CanvasNode>, levels: map<Id, nat>)
    requires EveryIdLevelled(nodes, levels)
    ensures StacksRows(PlacedBy(nodes, levels))
  {
    hide Column, At, PlacedBy, RowOf;
    var placed := PlacedBy(nodes, levels);
    PlacedIds(nodes, levels);
    assert |CanvasIds(placed)| == |placed| == |nodes|;
    forall i: nat, p | PlacedAt(placed, i, p) && p.y != 80.0 ensures StandsBelow(placed, p) {
      PlacedAsSaid(nodes, levels, i);
      var id := nodes[i].id;
      var row := RowOf(ColumnOf(nodes, levels, id), id);
      RowHeight(levels[id], row);
      var other := RowAbove(nodes, levels, id);
      var j := FindNode(nodes, other);
      PlacedAsSaid(nodes, levels, j);
      assert PlacedAt(placed, j, PointOf(nodes, levels, other));
    }
  }

  lemma RowHeight(level: nat, row: nat)
    ensures At(level, row).y == 80.0 + 158.0 * row as real
    ensures row > 0 ==> At(level, row - 1).y == At(level, row).y - 158.0 && At(level, row - 1).x == At(level, row).x
  {
  }

  lemma RowAbove(nodes: seq<CanvasNode>, levels: map<Id, nat>, id: Id) returns (other: Id)
    requires id in CanvasIds(nodes) && id in levels && EveryIdLevelled(nodes, levels)
    requires RowOf(ColumnOf(nodes, levels, id), id) > 0
    ensures other in CanvasIds(nodes) && other in levels
    ensures PointOf(nodes, levels, other) == At(levels[id], RowOf(ColumnOf(nodes, levels, id), id) - 1)
  {
    var column := ColumnOf(nodes, levels, id);
    other := column[RowOf(column, id) - 1];
    DistinctIsExact(CanvasIds(nodes));
    ColumnIsExact(nodes, Distinct(CanvasIds(nodes)), levels, levels[id]);
    assert other in column;
    assert ColumnOf(nodes, levels, other) == column;
  }

  lemma PlacedInOrder(nodes: seq<CanvasNode>, levels: map<Id, nat>)
    requires EveryIdLevelled(nodes, levels)
    ensures KeepsVerticalOrder(nodes, PlacedBy(nodes, levels))
  {
    hide Column, At, PlacedBy, RowOf, Above, StoodAbove;
    var placed := PlacedBy(nodes, levels);
    PlacedIds(nodes, levels);
    assert |CanvasIds(placed)| == |placed| == |nodes|;
    forall i: nat, j: nat, p, q | PlacedAt(placed, i, p) && PlacedAt(placed, j, q) &&
      OverIn(nodes, placed[i].id, placed[j].id, p, q) ensures p.y < q.y
    {
      PlacedAsSaid(nodes, levels, i);
      PlacedAsSaid(nodes, levels, j);
      var a, b := nodes[i].id, nodes[j].id;
      var r, t := RowOf(ColumnOf(nodes, levels, a), a), RowOf(ColumnOf(nodes, levels, b), b);
      SameColumn(levels[a], r, levels[b], t);
      StoodAboveIsAbove(nodes, a, b);
      ColumnOrder(nodes, levels, a, b);
      DistinctCellsAreApart(levels[a], r, levels[b], t);
    }
  }

  lemma SameColumn(l: nat, r: nat, m: nat, t: nat)
    requires At(l, r).x == At(m, t).x
    ensures l == m
  {
  }

  lemma AtColumn(l: nat, r: nat)
    ensures At(l, r).x == (80 + l * COLUMN) as real
  {
  }

  lemma ColumnsApart(l: nat, r: nat, m: nat, t: nat)
    ensures At(m, t).x >= At(l, r).x + COLUMN as real <==> m >= l + 1
  {
    if m >= l + 1 {
      assert m * COLUMN >= (l + 1) * COLUMN;
    } else {
      assert m * COLUMN <= l * COLUMN;
    }
  }

  /** Nodes whose level is known stand in the column of that level. */
  ghost predicate InLevelColumns(nodes: seq<CanvasNode>, levels: map<Id, nat>) {
    forall i: nat, p :: PlacedAt(nodes, i, p) && nodes[i].id in levels ==> p.x == (80 + levels[nodes[i].id] * COLUMN) as real
  }

  lemma PlacedOnLevels(nodes: seq<CanvasNode>, levels: map<Id, nat>)
    requires EveryIdLevelled(nodes, levels)
    ensures InLevelColumns(PlacedBy(nodes, levels), levels)
  {
    hide Column, At, PlacedBy;
    var placed := PlacedBy(nodes, levels);
    PlacedIds(nodes, levels);
    assert |CanvasIds(placed)| == |placed| == |nodes|;
    forall i: nat, p | PlacedAt(placed, i, p) && placed[i].id in levels
      ensures p.x == (80 + levels[placed[i].id] * COLUMN) as real
    {
      PlacedAsSaid(nodes, levels, i);
      AtColumn(levels[placed[i].id], RowOf(ColumnOf(nodes, levels, placed[i].id), placed[i].id));
    }
  }

  lemma PlacedHere(nodes: seq<CanvasNode>, levels: map<Id, nat>, id: Id) returns (i: nat)
    requires EveryIdLevelled(nodes, levels) && id in CanvasIds(nodes)
    ensures i < |nodes| == |PlacedBy(nodes, levels)| && PlacedBy(nodes, levels)[i].id == id
    ensures PlacedAt(PlacedBy(nodes, levels), i, PointOf(nodes, levels, id))
  {
    hide PointOf, PlacedBy;
    i := FindNode(nodes, id);
    PlacedAsSaid(nodes, levels, i);
  }

  lemma RightPair(nodes: seq<CanvasNode>, levels: map<Id, nat>, i: nat, j: nat, p: Point, q: Point)
    requires EveryIdLevelled(nodes, levels)
    requires PlacedAt(PlacedBy(nodes, levels), i, p) && PlacedAt(PlacedBy(nodes, levels), j, q)
    ensures i < |nodes| && j < |nodes|
    ensures q.x >= p.x + COLUMN as real <==> Raised(levels, nodes[i].id, nodes[j].id)
  {
    hide PlacedBy, Column, At, RowOf;
    var placed := PlacedBy(nodes, levels);
    PlacedIds(nodes, levels);
    assert |CanvasIds(placed)| == |placed| == |nodes|;
    PlacedAsSaid(nodes, levels, i);
    PlacedAsSaid(nodes, levels, j);
    var a, b := nodes[i].id, nodes[j].id;
    ColumnsApart(levels[a], RowOf(ColumnOf(nodes, levels, a), a), levels[b], RowOf(ColumnOf(nodes, levels, b), b));
  }

  /** Edges run right exactly if their levels go up. */
  lemma RightIffRaised(nodes: seq<CanvasNode>, levels: map<Id, nat>, arcs: seq<Arc>)
    requires EveryIdLevelled(nodes, levels) && forall a :: a in arcs ==> a.0 in CanvasIds(nodes) && a.1 in CanvasIds(nodes)
    ensures LeftToRight(arcs, PlacedBy(nodes, levels)) <==>
      forall a :: a in arcs && !BehindCycle(arcs, a.0) ==> Raised(levels, a.0, a.1)
  {
    hide PlacedBy, PointOf, BehindCycle, Raised, CanvasIds;
    var placed := PlacedBy(nodes, levels);
    if LeftToRight(arcs, placed) {
      forall a | a in arcs && !BehindCycle(arcs, a.0) ensures Raised(levels, a.0, a.1) {
        var i := PlacedHere(nodes, levels, a.0);
        var j := PlacedHere(nodes, levels, a.1);
        assert (a.0, a.1) == a && Forward(arcs, placed[i].id, placed[j].id);
        RightPair(nodes, levels, i, j, PointOf(nodes, levels, a.0), PointOf(nodes, levels, a.1));
        PlacedAsSaid(nodes, levels, i);
        PlacedAsSaid(nodes, levels, j);
      }
    }
    if forall a :: a in arcs && !BehindCycle(arcs, a.0) ==> Raised(levels, a.0, a.1) {
      forall i: nat, j: nat, p, q | PlacedAt(placed, i, p) && PlacedAt(placed, j, q) &&
        Forward(arcs, placed[i].id, placed[j].id) ensures q.x >= p.x + COLUMN as real
      {
        RightPair(nodes, levels, i, j, p, q);
        PlacedAsSaid(nodes, levels, i);
        PlacedAsSaid(nodes, levels, j);
        var a := (placed[i].id, placed[j].id);
        assert Raised(levels, a.0, a.1);
      }
    }
  }

  lemma PlacedInLongestColumns(nodes: seq<CanvasNode>, levels: map<Id, nat>, arcs: seq<Arc>)
    requires EveryIdLevelled(nodes, levels) && LongestPathLevels(Elements(CanvasIds(nodes)), arcs, levels)
    ensures InLongestColumns(arcs, PlacedBy(nodes, levels))
  {
    hide PlacedBy, Column, At, BehindCycle, RowOf, IsLongest;
    var placed := PlacedBy(nodes, levels);
    PlacedIds(nodes, levels);
    assert |CanvasIds(placed)| == |placed| == |nodes|;
    forall i: nat, p | PlacedAt(placed, i, p) && !BehindCycle(arcs, placed[i].id)
      ensures InLongestColumn(arcs, placed[i].id, p)
    {
      PlacedAsSaid(nodes, levels, i);
      var id := nodes[i].id;
      assert id in Elements(CanvasIds(nodes)) && IsLongest(arcs, id, levels[id]);
      AtColumn(levels[id], RowOf(ColumnOf(nodes, levels, id), id));
    }
  }

  /** A later declaration keeps its old position, which is clear of every point given and of one another. */
  ghost predicate LaterKeepClear(nodes: seq<CanvasNode>, levels: map<Id, nat>)
    requires EveryIdLevelled(nodes, levels)
  {
    forall j: nat :: j < |nodes| && !DeclaredFirst(nodes, j) ==>
      && nodes[j].position.Some?
      && (forall id :: id in CanvasIds(nodes) ==> Apart(nodes[j].position.value, PointOf(nodes, levels, id)))
      && (forall k: nat :: k < |nodes| && !DeclaredFirst(nodes, k) && k != j && nodes[k].position.Some? ==>
            Apart(nodes[j].position.value, nodes[k].position.value))
  }

  /** Every node is placed and no two rectangles overlap. */
  ghost predicate AllApart(nodes: seq<CanvasNode>) {
    && (forall i :: 0 <= i < |nodes| ==> nodes[i].position.Some?)
    && (forall i, j :: 0 <= i < j < |nodes| ==> Apart(nodes[i].position.value, nodes[j].position.value))
  }

  /** Every edge goes at least a column to the right, and the column of every node counts its longest incoming path. */
  ghost predicate RunsRight(arcs: seq<Arc>, nodes: seq<CanvasNode>)
    requires AllApart(nodes)
  {
    && (forall i, j :: 0 <= i < |nodes| && 0 <= j < |nodes| && (nodes[i].id, nodes[j].id) in arcs ==>
          nodes[j].position.value.x >= nodes[i].position.value.x + 290.0)
    && (forall i :: 0 <= i < |nodes| ==> InLongestColumn(arcs, nodes[i].id, nodes[i].position.value))
  }

  lemma ApartBothWays(p: Point, q: Point)
    ensures Apart(p, q) <==> Apart(q, p)
  {
  }

  lemma ApartNeedsClear(nodes: seq<CanvasNode>, levels: map<Id, nat>)
    requires EveryIdLevelled(nodes, levels) && AllApart(PlacedBy(nodes, levels))
    ensures LaterKeepClear(nodes, levels)
  {
    hide PlacedBy, PointOf, Apart;
    var placed := PlacedBy(nodes, levels);
    PlacedIds(nodes, levels);
    assert |CanvasIds(placed)| == |placed| == |nodes|;
    forall j: nat, id | j < |nodes| && !DeclaredFirst(nodes, j) && id in CanvasIds(nodes)
      ensures nodes[j].position.Some? && Apart(nodes[j].position.value, PointOf(nodes, levels, id))
    {
      PlacedAsSaid(nodes, levels, j);
      var i := PlacedHere(nodes, levels, id);
      assert placed[j].position.Some? && placed[i].position.Some?;
      ApartBothWays(placed[i].position.value, placed[j].position.value);
    }
    forall j: nat, k: nat | j < |nodes| && k < |nodes| && !DeclaredFirst(nodes, j) && !DeclaredFirst(nodes, k) && k != j
      ensures nodes[j].position.Some? && nodes[k].position.Some?
      ensures Apart(nodes[j].position.value, nodes[k].position.value)
    {
      PlacedAsSaid(nodes, levels, j);
      PlacedAsSaid(nodes, levels, k);
      assert placed[j].position.Some? && placed[k].position.Some?;
      ApartBothWays(placed[j].position.value, placed[k].position.value);
    }
    forall j: nat | j < |nodes| && !DeclaredFirst(nodes, j) ensures nodes[j].position.Some? {
      PlacedAsSaid(nodes, levels, j);
      assert placed[j].position.Some?;
    }
  }

  lemma ClearIsApart(nodes: seq<CanvasNode>, levels: map<Id, nat>, i: nat, j: nat)
    requires EveryIdLevelled(nodes, levels) && LaterKeepClear(nodes, levels) && i < |nodes| && j < |nodes| && i != j
    ensures
      var placed := PlacedBy(nodes, levels);
      && placed[i].position.Some? && placed[j].position.Some?
      && Apart(placed[i].position.value, placed[j].position.value)
  {
    hide PlacedBy, PointOf, Apart;
    PlacedAsSaid(nodes, levels, i);
    PlacedAsSaid(nodes, levels, j);
    if DeclaredFirst(nodes, i) && DeclaredFirst(nodes, j) {
      PointsAreApart(nodes, levels, nodes[i].id, nodes[j].id);
    } else if DeclaredFirst(nodes, i) {
      ApartBothWays(PointOf(nodes, levels, nodes[i].id), nodes[j].position.value);
    }
  }

  /** Nodes never overlap exactly if every repeated declaration keeps clear. */
  lemma AllApartIffLaterKeepClear(nodes: seq<CanvasNode>, edges: seq<Edge>)
    ensures AllApart(LaidOut(nodes, edges)) <==> LaterKeepClear(nodes, FullLevels(nodes, edges))
  {
    hide PlacedBy, FullLevels, PointOf, Apart;
    var levels := FullLevels(nodes, edges);
    var placed := PlacedBy(nodes, levels);
    PlacedIds(nodes, levels);
    assert |CanvasIds(placed)| == |placed| == |nodes|;
    if AllApart(placed) {
      ApartNeedsClear(nodes, levels);
    }
    if LaterKeepClear(nodes, levels) {
      forall i: nat | i < |placed| ensures placed[i].position.Some? {
        PlacedAsSaid(nodes, levels, i);
      }
      forall i: nat, j: nat | i < j < |placed| ensures Apart(placed[i].position.value, placed[j].position.value) {
        ClearIsApart(nodes, levels, i, j);
      }
    }
  }

  lemma FullLevelsKeepKnown(nodes: seq<CanvasNode>, edges: seq<Edge>)
    ensures
      var known, levels := LevelsOf(CanvasIds(nodes), edges), FullLevels(nodes, edges);
      forall id :: id in known ==> id in levels && levels[id] == known[id]
  {
    hide LevelsOf, WithFallbacks;
    var all := CanvasIds(nodes);
    LevelsAreDeclared(all, edges);
    FallbacksAreExact(all, LevelsOf(all, edges));
  }

  lemma FilledKeepsLongest(nodes: set<Id>, arcs: seq<Arc>, found: map<Id, nat>, levels: map<Id, nat>)
    requires LongestPathLevels(nodes, arcs, found)
    requires forall id :: id in found ==> id in levels && levels[id] == found[id]
    ensures LongestPathLevels(nodes, arcs, levels)
  {
    hide BehindCycle, IsLongest;
  }

  /** Nodes that no cycle leads to stand in longest-path columns, and their edges run right. */
  lemma LaidLeftToRight(nodes: seq<CanvasNode>, edges: seq<Edge>)
    requires
      var arcs := EditorArcs(CanvasIds(nodes), edges, false);
      UniqueRoots(CanvasIds(nodes), arcs) || (Acyclic(arcs) && OnlyLastRepeats(CanvasIds(nodes)))
    ensures
      var arcs := EditorArcs(CanvasIds(nodes), edges, false);
      LeftToRight(arcs, LaidOut(nodes, edges)) && InLongestColumns(arcs, LaidOut(nodes, edges))
  {
    hide PlacedBy, FullLevels, LevelsOf, EditorArcs, BehindCycle, IsLongest, LeftToRight, InLongestColumns, Acyclic, UniqueRoots,
         OnlyLastRepeats;
    var all, levels := CanvasIds(nodes), FullLevels(nodes, edges);
    var arcs := EditorArcs(all, edges, false);
    LevelsAreRight(all, edges);
    FullLevelsKeepKnown(nodes, edges);
    FilledKeepsLongest(Elements(all), arcs, LevelsOf(all, edges), levels);
    ArcsStayDeclared(all, edges, false);
    RightIffRaised(nodes, levels, arcs);
    PlacedInLongestColumns(nodes, levels, arcs);
  }

  lemma LaidOnLevels(nodes: seq<CanvasNode>, edges: seq<Edge>)
    ensures InLevelColumns(LaidOut(nodes, edges), LevelsOf(CanvasIds(nodes), edges))
  {
    hide PlacedBy, FullLevels, LevelsOf;
    FullLevelsKeepKnown(nodes, edges);
    PlacedOnLevels(nodes, FullLevels(nodes, edges));
  }

  lemma UniqueIsFirst(nodes: seq<CanvasNode>, i: nat)
    requires NoDuplicates(CanvasIds(nodes)) && i < |nodes|
    ensures DeclaredFirst(nodes, i)
  {
    forall j | 0 <= j < i ensures nodes[j].id != nodes[i].id {
      assert CanvasIds(nodes)[j] != CanvasIds(nodes)[i];
    }
  }

  /** With unique ids nothing overlaps, whatever the edges; without cycles every edge then runs right. */
  lemma UniqueIdsLayOutWell(nodes: seq<CanvasNode>, edges: seq<Edge>)
    requires NoDuplicates(CanvasIds(nodes))
    ensures AllApart(LaidOut(nodes, edges))
    ensures
      var arcs := EditorArcs(CanvasIds(nodes), edges, false);
      Acyclic(arcs) ==> RunsRight(arcs, LaidOut(nodes, edges))
  {
    hide InLongestColumn, Apart, IsLongest, FullLevels, PointOf, PlacedBy, EditorArcs;
    var placed, levels := LaidOut(nodes, edges), FullLevels(nodes, edges);
    var arcs := EditorArcs(CanvasIds(nodes), edges, false);
    PlacedIds(nodes, levels);
    forall i: nat | i < |nodes| ensures DeclaredFirst(nodes, i) {
      UniqueIsFirst(nodes, i);
    }
    AllApartIffLaterKeepClear(nodes, edges);
    if Acyclic(arcs) {
      UniqueIdsHaveUniqueRoots(CanvasIds(nodes), arcs);
      LaidLeftToRight(nodes, edges);
      assert |CanvasIds(placed)| == |placed| == |nodes|;
      forall i: nat | i < |placed| ensures PlacedAt(placed, i, placed[i].position.value) && !BehindCycle(arcs, placed[i].id) {
        assert DeclaredFirst(nodes, i);
      }
      forall i, j | 0 <= i < |placed| && 0 <= j < |placed| && (placed[i].id, placed[j].id) in arcs
        ensures placed[j].position.value.x >= placed[i].position.value.x + 290.0
      {
        assert Forward(arcs, placed[i].id, placed[j].id);
      }
    }
  }

  lemma LevelsFound(all: seq<Id>, edges: seq<Edge>, indegree: map<Id, int>, adjacency: map<Id, seq<Id>>, roots: seq<Id>)
    requires Mapped(EditorArcs(all, edges, false), Elements(all), adjacency, indegree)
    requires roots == Kept(all, id => id in indegree && indegree[id] == 0)
    ensures WithinDegrees(EditorArcs(all, edges, false), indegree)
    ensures LevelsOf(all, edges) == LevelsFrom(all, EditorArcs(all, edges, false), Progress(indegree, roots, AtZero(roots)))
  {
    hide LevelsFrom, AtZero;
    var arcs := EditorArcs(all, edges, false);
    ArcsStayDeclared(all, edges, false);
    forall id | id in all ensures id in indegree && (indegree[id] == 0 <==> Pending(arcs, id, {}) == 0) {
      assert id in Elements(all);
    }
    KeptCongruent(all, id => id in indegree && indegree[id] == 0, id => Pending(arcs, id, {}) == 0);
    assert indegree == map n | n in Elements(all) :: Pending(arcs, n, {});
  }

  /** The layout of a list of nodes; the editor writes the positions back into its own nodes. */
  method AutoLayout(nodes: seq<CanvasNode>, edges: seq<Edge>) returns (placed: seq<CanvasNode>)
    ensures placed == LaidOut(nodes, edges)
    ensures OnlyMoved(nodes, placed) && NoOverlap(placed) && EveryNodePlaced(placed)
    ensures KeepsVerticalOrder(nodes, placed) && StacksRows(placed) && InLevelColumns(placed, LevelsOf(CanvasIds(nodes), edges))
    ensures
      var known, levels := LevelsOf(CanvasIds(nodes), edges), FullLevels(nodes, edges);
      InLevelColumns(placed, levels) && NextColumns(known, levels)
    ensures
      var all := CanvasIds(nodes);
      var arcs := EditorArcs(all, edges, false);
      UniqueRoots(all, arcs) || (Acyclic(arcs) && OnlyLastRepeats(all)) ==>
        LeftToRight(arcs, placed) && InLongestColumns(arcs, placed)
    ensures AllApart(placed) <==> LaterKeepClear(nodes, FullLevels(nodes, edges))
    ensures NoDuplicates(CanvasIds(nodes)) ==> AllApart(placed)
    ensures
      var arcs := EditorArcs(CanvasIds(nodes), edges, false);
      NoDuplicates(CanvasIds(nodes)) && Acyclic(arcs) ==> RunsRight(arcs, placed)
  {
    hide Acyclic, BehindCycle, Distinct, Kept, NoDuplicates, NoOverlap, EveryNodePlaced, LeftToRight, InLongestColumns,
         KeepsVerticalOrder, OnlyMoved, LevelsFrom, LevelsOf, InLevelColumns, AllApart, RunsRight, PlacedBy, Filled, LaterKeepClear,
         UniqueRoots, OnlyLastRepeats, StacksRows, NextColumns;
    var all := CanvasIds(nodes);
    ghost var arcs := EditorArcs(all, edges, false);
    var keys, adjacency, indegree := BuildMaps(all, edges, false);
    var roots := Kept(all, id => id in indegree && indegree[id] == 0);
    KeptIsExact(all, id => id in indegree && indegree[id] == 0);
    ArcsStayDeclared(all, edges, false);
    var found := LongestPaths(all, adjacency, indegree, roots, arcs);
    assert found == LevelsOf(all, edges) by {
      LevelsFound(all, edges, indegree, adjacency, roots);
    }
    var levels := FillIn(all, found);
    placed := Arrange(nodes, keys, levels);
    assert levels == FullLevels(nodes, edges);
    hide FullLevels;
    PlacedOnLevels(nodes, levels);
    PlacedNoOverlap(nodes, levels);
    PlacedOnlyMoved(nodes, levels);
    PlacedInOrder(nodes, levels);
    PlacedInStacks(nodes, levels);
    LaidOnLevels(nodes, edges);
    if UniqueRoots(all, arcs) || (Acyclic(arcs) && OnlyLastRepeats(all)) {
      LaidLeftToRight(nodes, edges);
    }
    AllApartIffLaterKeepClear(nodes, edges);
    if NoDuplicates(all) {
      UniqueIdsLayOutWell(nodes, edges);
    }
  }
}
