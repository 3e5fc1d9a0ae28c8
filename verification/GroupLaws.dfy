// What the group operations do to memberships, names and colours: nothing but what they are asked for.
module GroupLaws {
  import opened Digraph
  import opened Groups
  import opened OrderedSets

  /** A node is a member of the group with this id. */
  ghost predicate InGroup(groups: seq<Group>, n: Id, id: string) {
    exists g :: g in groups && g.id == id && n in g.nodeIds
  }

  ghost predicate HasGroup(groups: seq<Group>, id: string) {
    exists g :: g in groups && g.id == id
  }

  /** Memberships after, as a condition on memberships before. */
  ghost predicate MembersBecome(before: seq<Group>, after: seq<Group>, keeps: (Id, string) -> bool) {
    forall n, id :: InGroup(after, n, id) <==> InGroup(before, n, id) && keeps(n, id)
  }

  lemma NonEmptyKeepsMembers(groups: seq<Group>, n: Id, id: string)
    ensures InGroup(NonEmpty(groups), n, id) <==> InGroup(groups, n, id)
  {
    KeptIsExact(groups, (g: Group) => g.nodeIds != []);
    if InGroup(groups, n, id) {
      var g :| g in groups && g.id == id && n in g.nodeIds;
      assert g in NonEmpty(groups);
    }
  }

  lemma FilteredMembers(groups: seq<Group>, c: Change, n: Id, id: string)
    requires c.WithoutNodes? || c.OnlyNodes?
    ensures InGroup(ChangedAll(groups, c), n, id) <==>
      InGroup(groups, n, id) && (if c.WithoutNodes? then n !in c.gone else n in c.valid)
  {
    var after := ChangedAll(groups, c);
    forall i | 0 <= i < |groups|
      ensures n in after[i].nodeIds <==> n in groups[i].nodeIds && (if c.WithoutNodes? then n !in c.gone else n in c.valid)
    {
      match c
      case WithoutNodes(gone) => KeptIsExact(groups[i].nodeIds, m => m !in gone);
      case OnlyNodes(valid) =>
        KeptIsExact(groups[i].nodeIds, m => m in valid);
        DistinctIsExact(Kept(groups[i].nodeIds, m => m in valid));
    }
    if InGroup(after, n, id) {
      var g :| g in after && g.id == id && n in g.nodeIds;
      var i :| 0 <= i < |after| && after[i] == g;
      assert groups[i] in groups;
    }
    if InGroup(groups, n, id) && (if c.WithoutNodes? then n !in c.gone else n in c.valid) {
      var g :| g in groups && g.id == id && n in g.nodeIds;
      var i :| 0 <= i < |groups| && groups[i] == g;
      assert after[i] in after;
    }
  }

  /** Removing nodes ends exactly their memberships; pruning ends exactly those of missing nodes. */
  lemma RemovalAndPruningAreExact(groups: seq<Group>, ids: seq<Id>)
    ensures MembersBecome(groups, NonEmpty(ChangedAll(groups, WithoutNodes(ids))), (n, id) => n !in ids)
    ensures MembersBecome(groups, NonEmpty(ChangedAll(groups, OnlyNodes(ids))), (n, id) => n in ids)
  {
    hide NonEmpty, ChangedAll, InGroup;
    forall n, id
      ensures InGroup(NonEmpty(ChangedAll(groups, WithoutNodes(ids))), n, id) <==> InGroup(groups, n, id) && n !in ids
      ensures InGroup(NonEmpty(ChangedAll(groups, OnlyNodes(ids))), n, id) <==> InGroup(groups, n, id) && n in ids
    {
      FilteredMembers(groups, WithoutNodes(ids), n, id);
      FilteredMembers(groups, OnlyNodes(ids), n, id);
      NonEmptyKeepsMembers(ChangedAll(groups, WithoutNodes(ids)), n, id);
      NonEmptyKeepsMembers(ChangedAll(groups, OnlyNodes(ids)), n, id);
    }
  }

  /** Deleting a group ends exactly the memberships in it. */
  lemma DeletionIsExact(groups: seq<Group>, gone: string)
    ensures MembersBecome(groups, WithoutGroup(groups, gone), (n, id) => id != gone)
    ensures !HasGroup(WithoutGroup(groups, gone), gone)
  {
    KeptIsExact(groups, (g: Group) => g.id != gone);
    forall n, id ensures InGroup(WithoutGroup(groups, gone), n, id) <==> InGroup(groups, n, id) && id != gone {
      if InGroup(groups, n, id) && id != gone {
        var g :| g in groups && g.id == id && n in g.nodeIds;
        assert g in WithoutGroup(groups, gone);
      }
    }
  }

  lemma FillingIsExact(cleared: seq<Group>, k: nat, chosen: seq<Id>, n: Id, id: string)
    requires k < |cleared|
    ensures
      var filled := cleared[k := cleared[k].(nodeIds := Distinct(cleared[k].nodeIds + chosen))];
      InGroup(filled, n, id) <==> InGroup(cleared, n, id) || (n in chosen && id == cleared[k].id)
  {
    DistinctIsExact(cleared[k].nodeIds + chosen);
    var filled := cleared[k := cleared[k].(nodeIds := Distinct(cleared[k].nodeIds + chosen))];
    assert filled[k] in filled;
    if InGroup(cleared, n, id) {
      var g :| g in cleared && g.id == id && n in g.nodeIds;
      var i :| 0 <= i < |cleared| && cleared[i] == g;
      assert filled[i] in filled && n in filled[i].nodeIds;
    }
    if InGroup(filled, n, id) {
      var g :| g in filled && g.id == id && n in g.nodeIds;
      var i :| 0 <= i < |filled| && filled[i] == g;
      assert cleared[i] in cleared;
    }
  }

  /** After an assignment the chosen nodes are members of the target and of nothing else; others stay put. */
  lemma AssignmentIsExact(groups: seq<Group>, nodes: seq<Id>, target: string, ids: seq<Id>, n: Id, id: string)
    ensures InGroup(Assigned(groups, nodes, target, ids), n, id) <==>
      if HasGroup(groups, target) && n in ids && n in nodes then id == target else InGroup(groups, n, id)
  {
    hide InGroup, NonEmpty, Chosen;
    var chosen := Chosen(nodes, ids);
    ChosenIsExact(nodes, ids);
    var cleared := ChangedAll(groups, WithoutNodes(chosen));
    FilteredMembers(groups, WithoutNodes(chosen), n, id);
    TargetFound(groups, chosen, target);
    var k := WithId(cleared, target);
    if k.Some? {
      FillingIsExact(cleared, k.value, chosen, n, id);
      NonEmptyKeepsMembers(cleared[k.value := cleared[k.value].(nodeIds := Distinct(cleared[k.value].nodeIds + chosen))], n, id);
    }
  }

  lemma TargetFound(groups: seq<Group>, chosen: seq<Id>, target: string)
    ensures WithId(ChangedAll(groups, WithoutNodes(chosen)), target).Some? <==> HasGroup(groups, target)
  {
    var cleared := ChangedAll(groups, WithoutNodes(chosen));
    if HasGroup(groups, target) {
      var g :| g in groups && g.id == target;
      var i :| 0 <= i < |groups| && groups[i] == g;
      assert cleared[i] in cleared && cleared[i].id == target;
    }
    var k := WithId(cleared, target);
    if k.Some? {
      assert groups[k.value] in groups;
    }
  }

  lemma TidyingKeepsMembers(groups: seq<Group>, n: Id, id: string)
    ensures InGroup(TidiedAll(groups), n, id) <==> InGroup(groups, n, id)
  {
    var tidied := TidiedAll(groups);
    forall i | 0 <= i < |groups|
      ensures |tidied| == |groups| && tidied[i].id == groups[i].id && (n in tidied[i].nodeIds <==> n in groups[i].nodeIds)
    {
      TidiedAt(groups, i);
      DistinctIsExact(groups[i].nodeIds);
    }
    if groups != [] {
      TidiedAt(groups, 0);
    }
    forall i | 0 <= i < |groups| ensures groups[i] in groups && tidied[i] in tidied {
    }
    if InGroup(tidied, n, id) {
      var g :| g in tidied && g.id == id && n in g.nodeIds;
      var i :| 0 <= i < |tidied| && tidied[i] == g;
    }
    if InGroup(groups, n, id) {
      var g :| g in groups && g.id == id && n in g.nodeIds;
      var i :| 0 <= i < |groups| && groups[i] == g;
    }
  }

  /** A new group gets exactly the existing nodes asked for, whom every other group loses; nothing else changes. */
  lemma CreationIsExact(s: State, op: Op, created: string, n: Id, id: string)
    requires op.Create?
    ensures InGroup(Apply(s, op, created).groups, n, id) <==>
      if n in op.ids && n in s.nodes then id == created else InGroup(s.groups, n, id)
  {
    hide InGroup, Assigned, TidiedAll, Chosen;
    var group := NewGroup(s, op, created);
    ChosenIsExact(s.nodes, op.ids);
    var all := TidiedAll(s.groups + [group]);
    AssignmentIsExact(all, s.nodes, created, group.nodeIds, n, id);
    TidyingKeepsMembers(s.groups + [group], n, id);
    MembersOfAll(s.groups, group, n, id);
    NewGroupIsThere(s.groups, group);
  }

  lemma NewGroupIsThere(groups: seq<Group>, group: Group)
    ensures HasGroup(TidiedAll(groups + [group]), group.id)
  {
    var all := groups + [group];
    TidiedAt(all, |groups|);
    assert TidiedAll(all)[|groups|] in TidiedAll(all);
  }

  lemma MembersOfAll(groups: seq<Group>, group: Group, n: Id, id: string)
    ensures InGroup(groups + [group], n, id) <==> InGroup(groups, n, id) || (id == group.id && n in group.nodeIds)
  {
    var all := groups + [group];
    assert all[|groups|] == group && group in all;
    if InGroup(groups, n, id) {
      var g :| g in groups && g.id == id && n in g.nodeIds;
      assert g in all;
    }
  }

  /** A renamed node keeps its groups under its new id, and no one else is affected. */
  lemma RenameIsExact(groups: seq<Group>, previous: Id, next: Id, n: Id, id: string)
    requires previous != next
    ensures InGroup(AfterRename(groups, previous, next), n, id) <==>
      if n == next then InGroup(groups, previous, id) || InGroup(groups, next, id)
      else n != previous && InGroup(groups, n, id)
  {
    var after := AfterRename(groups, previous, next);
    forall i | 0 <= i < |groups|
      ensures |after| == |groups| && after[i].id == groups[i].id
      ensures n in after[i].nodeIds <==>
        if n == next then previous in groups[i].nodeIds || next in groups[i].nodeIds
        else n != previous && n in groups[i].nodeIds
    {
      RenamedMembers(groups, previous, next, i);
      assert n in groups[i].nodeIds ==> Renamed(n, previous, next) in after[i].nodeIds;
      assert previous in groups[i].nodeIds ==> Renamed(previous, previous, next) in after[i].nodeIds;
    }
    TidiedAt(ChangedAll(groups, NodeRenamed(previous, next)), 0);
    SameIndices(groups, after, previous, next, n, id);
  }

  lemma SameIndices(groups: seq<Group>, after: seq<Group>, previous: Id, next: Id, n: Id, id: string)
    requires |after| == |groups| && forall i :: 0 <= i < |groups| ==> after[i].id == groups[i].id
    requires forall i :: 0 <= i < |groups| ==> (n in after[i].nodeIds <==>
      if n == next then previous in groups[i].nodeIds || next in groups[i].nodeIds
      else n != previous && n in groups[i].nodeIds)
    ensures InGroup(after, n, id) <==>
      if n == next then InGroup(groups, previous, id) || InGroup(groups, next, id)
      else n != previous && InGroup(groups, n, id)
  {
    forall m | InGroup(groups, m, id) ensures exists i :: 0 <= i < |groups| && groups[i].id == id && m in groups[i].nodeIds {
      var g :| g in groups && g.id == id && m in g.nodeIds;
      var i :| 0 <= i < |groups| && groups[i] == g;
    }
    if InGroup(after, n, id) {
      var g :| g in after && g.id == id && n in g.nodeIds;
      var i :| 0 <= i < |after| && after[i] == g;
      assert groups[i] in groups;
    }
    forall i | 0 <= i < |after| && after[i].id == id && n in after[i].nodeIds ensures InGroup(after, n, id) {
      assert after[i] in after;
    }
  }

  /** Renaming and recolouring touch the one text of the one group, and blank names are ignored. */
  lemma LabellingIsExact(groups: seq<Group>, id: string, text: string, i: nat)
    requires i < |groups|
    ensures
      var named := ChangedAll(groups, NameOf(id, text));
      && |named| == |groups| && named[i].(name := groups[i].name) == groups[i]
      && named[i].name == (if groups[i].id == id && text != "" then text else groups[i].name)
    ensures
      var coloured := ChangedAll(groups, ColorOf(id, text));
      && |coloured| == |groups| && coloured[i].(color := groups[i].color) == groups[i]
      && coloured[i].color == (if groups[i].id == id then text else groups[i].color)
  {
  }

  // ---------------------------------------------------------------- labels

  predicate SameLabels(g: Group, h: Group) {
    g.id == h.id && g.name == h.name && g.color == h.color
  }

  /** Every group after is one from before, as far as id, name and color go. */
  ghost predicate LabelsFrom(after: seq<Group>, before: seq<Group>) {
    forall i :: 0 <= i < |after| ==> LabelledAmong(after[i], before)
  }

  ghost predicate LabelledAmong(g: Group, groups: seq<Group>) {
    exists h :: h in groups && SameLabels(g, h)
  }

  lemma LabelsFromFrom(a: seq<Group>, b: seq<Group>, c: seq<Group>)
    requires LabelsFrom(a, b) && LabelsFrom(b, c)
    ensures LabelsFrom(a, c)
  {
    forall i | 0 <= i < |a| ensures LabelledAmong(a[i], c) {
      var g :| g in b && SameLabels(a[i], g);
      var j :| 0 <= j < |b| && b[j] == g;
      var h :| h in c && SameLabels(b[j], h);
      assert SameLabels(a[i], h);
    }
  }

  lemma KeptLabels(groups: seq<Group>, keep: Group -> bool)
    ensures LabelsFrom(Kept(groups, keep), groups)
  {
    KeptIsExact(groups, keep);
    forall i | 0 <= i < |Kept(groups, keep)|
      ensures LabelledAmong(Kept(groups, keep)[i], groups)
    {
      assert Kept(groups, keep)[i] in Kept(groups, keep) && SameLabels(Kept(groups, keep)[i], Kept(groups, keep)[i]);
    }
  }

  lemma ChangedLabels(groups: seq<Group>, c: Change)
    requires c.WithoutNodes? || c.OnlyNodes? || c.NodeRenamed?
    ensures LabelsFrom(ChangedAll(groups, c), groups)
  {
    forall i | 0 <= i < |groups| ensures LabelledAmong(ChangedAll(groups, c)[i], groups) {
      assert groups[i] in groups && SameLabels(ChangedAll(groups, c)[i], groups[i]);
    }
  }

  lemma TidiedLabels(groups: seq<Group>)
    ensures LabelsFrom(TidiedAll(groups), groups)
  {
    if groups != [] {
      TidiedAt(groups, 0);
      forall i | 0 <= i < |groups| ensures LabelledAmong(TidiedAll(groups)[i], groups) {
        TidiedAt(groups, i);
        assert groups[i] in groups && SameLabels(TidiedAll(groups)[i], groups[i]);
      }
    }
  }

  lemma AssignedLabels(groups: seq<Group>, nodes: seq<Id>, target: string, ids: seq<Id>)
    ensures LabelsFrom(Assigned(groups, nodes, target, ids), groups)
  {
    hide Distinct;
    var chosen := Chosen(nodes, ids);
    var cleared := ChangedAll(groups, WithoutNodes(chosen));
    ChangedLabels(groups, WithoutNodes(chosen));
    match WithId(cleared, target)
    case None =>
      forall i | 0 <= i < |groups| ensures LabelledAmong(groups[i], groups) {
        assert groups[i] in groups && SameLabels(groups[i], groups[i]);
      }
    case Some(k) =>
      var filled := cleared[k := cleared[k].(nodeIds := Distinct(cleared[k].nodeIds + chosen))];
      forall i | 0 <= i < |filled| ensures LabelledAmong(filled[i], cleared) {
        assert cleared[i] in cleared && SameLabels(filled[i], cleared[i]);
      }
      LabelsFromFrom(filled, cleared, groups);
      KeptLabels(filled, (g: Group) => g.nodeIds != []);
      LabelsFromFrom(NonEmpty(filled), filled, groups);
  }

  /**
   * Names and colors change only where that is asked for: whatever else is done, every group there is
   * afterwards has the labels of one there was, or is the one created, with the labels asked for.
   */
  lemma LabelsStay(s: State, op: Op, created: string)
    requires !op.SetName? && !op.SetColor?
    ensures LabelsFrom(Apply(s, op, created).groups,
                       s.groups + if op.Create? then [Group(created, op.name, op.color, [])] else [])
  {
    hide Assigned, ChangedAll, TidiedAll, NonEmpty, Distinct, LabelsFrom;
    assert s.groups + [] == s.groups;
    match op
    case Create(_, name, color) =>
      var group := NewGroup(s, op, created);
      var all := s.groups + [group];
      TidiedLabels(all);
      AssignedLabels(TidiedAll(all), s.nodes, created, group.nodeIds);
      LabelsFromFrom(Assigned(TidiedAll(all), s.nodes, created, group.nodeIds), TidiedAll(all), all);
      NewLabels(s.groups, group, Group(created, name, color, []));
      LabelsFromFrom(Apply(s, op, created).groups, all, s.groups + [Group(created, name, color, [])]);
    case Assign(groupId, ids) => AssignedLabels(s.groups, s.nodes, groupId, ids);
    case Remove(ids) => FilteredLabels(s.groups, WithoutNodes(ids));
    case Delete(groupId) => KeptLabels(s.groups, (g: Group) => g.id != groupId);
    case RenameNode(at, next) =>
      SameGroupsSameLabels(s.groups);
      if at < |s.nodes| {
        var renamed := ChangedAll(s.groups, NodeRenamed(s.nodes[at], next));
        ChangedLabels(s.groups, NodeRenamed(s.nodes[at], next));
        TidiedLabels(renamed);
        LabelsFromFrom(TidiedAll(renamed), renamed, s.groups);
      }
    case DeleteNodes(ids) => FilteredLabels(s.groups, OnlyNodes(Kept(s.nodes, id => id !in ids)));
    case AddNode(_) => SameGroupsSameLabels(s.groups);
  }

  lemma NewLabels(groups: seq<Group>, group: Group, labels: Group)
    requires SameLabels(group, labels)
    ensures LabelsFrom(groups + [group], groups + [labels])
  {
    var after, before := groups + [group], groups + [labels];
    forall i | 0 <= i < |after| ensures LabelledAmong(after[i], before) {
      assert before[i] in before && SameLabels(after[i], before[i]);
    }
  }

  lemma FilteredLabels(groups: seq<Group>, c: Change)
    requires c.WithoutNodes? || c.OnlyNodes?
    ensures LabelsFrom(NonEmpty(ChangedAll(groups, c)), groups)
  {
    hide ChangedAll, LabelsFrom;
    ChangedLabels(groups, c);
    KeptLabels(ChangedAll(groups, c), (g: Group) => g.nodeIds != []);
    LabelsFromFrom(NonEmpty(ChangedAll(groups, c)), ChangedAll(groups, c), groups);
  }

  lemma SameGroupsSameLabels(groups: seq<Group>)
    ensures LabelsFrom(groups, groups)
  {
    forall i | 0 <= i < |groups| ensures LabelledAmong(groups[i], groups) {
      assert groups[i] in groups && SameLabels(groups[i], groups[i]);
    }
  }
}
