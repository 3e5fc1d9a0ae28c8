// What becomes of the layout's promises when an id is declared more than once.
module LayoutLaws {
  import opened Digraph
  import opened EditorGraph
  import opened Layout
  import opened LevelLaws
  import opened Levels
  import opened OrderedSets
  import opened Workflow

  // ------------------------------------------------------------- overlapping

  /** One id twice, nothing else, and the later declaration where the first will go. */
  ghost predicate InTheWay(nodes: seq<CanvasNode>) {
    |nodes| == 2 && nodes[0].id == nodes[1].id && nodes[1].position == Some(At(0, 0))
  }

  lemma AloneAtZero(all: seq<Id>, a: Id)
    requires all == [a, a]
    ensures a in LevelsOf(all, []) && LevelsOf(all, [])[a] == 0
  {
    hide LevelsOf;
    var arcs := EditorArcs(all, [], false);
    assert arcs == [];
    AscendingIsAcyclic(arcs, map[]);
    NothingBehindACycle(arcs);
    assert OnlyLastRepeats(all);
    LevelsAreRight(all, []);
    assert a in Elements(all);
    var p :| WalkInto(arcs, p, a) && |p| == LevelsOf(all, [])[a] + 1;
    if |p| > 1 {
      WalkNeedsArcs(arcs, p);
    }
  }

  lemma WalkNeedsArcs(arcs: seq<Arc>, p: seq<Id>)
    requires IsWalk(arcs, p) && |p| >= 2
    ensures arcs != []
  {
    assert (p[0], p[0 + 1]) in arcs;
  }

  lemma {:induction false} RowOfOnly(column: seq<Id>, a: Id)
    requires a in column && NoDuplicates(column) && forall n :: n in column ==> n == a
    ensures RowOf(column, a) == 0
  {
    assert column[0] in column;
  }

  /** Then both end up in the same place: with an id declared twice, nodes can overlap. */
  lemma LaterDeclarationOverlaps(nodes: seq<CanvasNode>)
    requires InTheWay(nodes)
    ensures !AllApart(LaidOut(nodes, [])) && LaidOut(nodes, [])[0].position == LaidOut(nodes, [])[1].position == Some(At(0, 0))
  {
    hide LevelsOf, FullLevels;
    var a, levels := nodes[0].id, FullLevels(nodes, []);
    assert CanvasIds(nodes) == [a, a];
    AloneAtZero(CanvasIds(nodes), a);
    FullLevelsKeepKnown(nodes, []);
    DistinctIsExact(CanvasIds(nodes));
    ColumnIsExact(nodes, Distinct(CanvasIds(nodes)), levels, levels[a]);
    RowOfOnly(ColumnOf(nodes, levels, a), a);
    PlacedAsSaid(nodes, levels, 0);
    PlacedAsSaid(nodes, levels, 1);
    assert !DeclaredFirst(nodes, 1) && DeclaredFirst(nodes, 0);
    assert !Apart(At(0, 0), At(0, 0));
  }

  // ---------------------------------------------------------- running right

  /** Every acyclic set of edges between these nodes is laid out from left to right. */
  ghost predicate AlwaysRunsRight(nodes: seq<CanvasNode>) {
    forall edges ::
      Acyclic(EditorArcs(CanvasIds(nodes), edges, false)) ==>
        LeftToRight(EditorArcs(CanvasIds(nodes), edges, false), LaidOut(nodes, edges))
  }

  lemma RunsRightIffRises(nodes: seq<CanvasNode>, edges: seq<Edge>)
    requires Acyclic(EditorArcs(CanvasIds(nodes), edges, false))
    ensures LeftToRight(EditorArcs(CanvasIds(nodes), edges, false), LaidOut(nodes, edges)) <==> Rises(CanvasIds(nodes), edges)
  {
    hide LevelsOf, FullLevels, EditorArcs, PlacedBy, LeftToRight, Acyclic, BehindCycle;
    var all, levels := CanvasIds(nodes), FullLevels(nodes, edges);
    var arcs := EditorArcs(all, edges, false);
    ArcsStayDeclared(all, edges, false);
    NothingBehindACycle(arcs);
    RightIffRaised(nodes, levels, arcs);
    FullLevelsKeepKnown(nodes, edges);
    EverythingIsLevelled(all, edges);
    forall a | a in arcs ensures Raised(LevelsOf(all, edges), a.0, a.1) <==> Raised(levels, a.0, a.1) {
      assert a.0 in Elements(all) && a.1 in Elements(all);
    }
  }

  /**
   * Every acyclic graph on a list of nodes is laid out from left to right exactly if no id is declared
   * twice other than the one declared last, or there are at most three ids.
   */
  lemma RunsRightIffOnlyLastRepeats(nodes: seq<CanvasNode>)
    ensures AlwaysRunsRight(nodes) <==> OnlyLastRepeats(CanvasIds(nodes)) || |Elements(CanvasIds(nodes))| <= 3
  {
    hide EditorArcs, LaidOut, LeftToRight, Acyclic, Rises, OnlyLastRepeats;
    var all := CanvasIds(nodes);
    RisesIffOnlyLastRepeats(all);
    forall edges | Acyclic(EditorArcs(all, edges, false))
      ensures LeftToRight(EditorArcs(all, edges, false), LaidOut(nodes, edges)) <==> Rises(all, edges)
    {
      RunsRightIffRises(nodes, edges);
    }
  }
}
