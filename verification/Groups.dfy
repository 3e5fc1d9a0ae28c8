// Node groups: an extension of the workflow's metadata that the editor reads, rewrites and keeps tidy.
module Groups {
  import opened Digraph
  import opened FreshIds
  import opened Json
  import opened OrderedSets
  import opened Text
  import Workflow

  type Option<T> = Workflow.Option<T>

  datatype Group = Group(id: string, name: string, color: string, nodeIds: seq<Id>)

  const EXTENSION := "studio.groups"
  const DEFAULT_COLOR := "#5b8def"

  // ----------------------------------------------------- reading and writing

  /** Anything but an object with a string id and a string name is no group. */
  function NormalizeGroup(v: Value): Option<Group> {
    if v.Obj? && HasString(v.fields, "id") && HasString(v.fields, "name") then
      var ids := if "node_ids" in v.fields && v.fields["node_ids"].Arr? then Strings(v.fields["node_ids"].items) else [];
      var color := if HasString(v.fields, "color") then v.fields["color"].s else DEFAULT_COLOR;
      Workflow.Some(Group(v.fields["id"].s, v.fields["name"].s, color, Distinct(ids)))
    else Workflow.None
  }

  predicate HasString(fields: map<string, Value>, key: string) {
    key in fields && fields[key].Str?
  }

  function NormalizeAll(items: seq<Value>): seq<Group> {
    if items == [] then []
    else
      var g := NormalizeGroup(items[0]);
      (if g.Some? then [g.value] else []) + NormalizeAll(items[1..])
  }

  function GroupsIn(extensions: Option<Scope>): seq<Group> {
    if extensions.Some? && EXTENSION in extensions.value && extensions.value[EXTENSION].Arr?
    then NormalizeAll(extensions.value[EXTENSION].items) else []
  }

  function Encoded(g: Group): Value {
    Obj(map["id" := Str(g.id), "name" := Str(g.name), "color" := Str(g.color),
            "node_ids" := Arr(StringValues(g.nodeIds))])
  }

  /**
   * What a stored group is: an object that names its id and name, and may name a color and list members;
   * without the former it is not one, a missing color is blue, and members count once each.
   */
  lemma StoredGroupsAreNamed(fields: Scope)
    ensures GroupsIn(Workflow.Some(fields)) ==
      if "studio.groups" in fields && fields["studio.groups"].Arr? then NormalizeAll(fields["studio.groups"].items) else []
    ensures
      var g := NormalizeGroup(Obj(fields));
      && (g.Some? <==> "id" in fields && fields["id"].Str? && "name" in fields && fields["name"].Str?)
      && (g.Some? ==>
            && fields["id"] == Str(g.value.id) && fields["name"] == Str(g.value.name)
            && g.value.color == (if "color" in fields && fields["color"].Str? then fields["color"].s else "#5b8def")
            && NoDuplicates(g.value.nodeIds)
            && forall n :: n in g.value.nodeIds <==>
                 "node_ids" in fields && fields["node_ids"].Arr? && Str(n) in fields["node_ids"].items)
  {
    if "node_ids" in fields && fields["node_ids"].Arr? {
      var items := fields["node_ids"].items;
      DistinctIsExact(Strings(items));
      forall n ensures n in Strings(items) <==> Str(n) in items {
        StringsHold(items, n);
      }
    }
  }

  function StringValues(ids: seq<string>): seq<Value> {
    if ids == [] then [] else [Str(ids[0])] + StringValues(ids[1..])
  }

  /** A group as it is after a write: its members once each. */
  function Tidied(g: Group): Group {
    g.(nodeIds := Distinct(g.nodeIds))
  }

  function TidiedAll(groups: seq<Group>): seq<Group> {
    if groups == [] then [] else [Tidied(groups[0])] + TidiedAll(groups[1..])
  }

  function EncodedAll(groups: seq<Group>): seq<Value> {
    if groups == [] then [] else [Encoded(groups[0])] + EncodedAll(groups[1..])
  }

  /** Empty extensions, and an empty object of extensions, are removed altogether. */
  function Stored(extensions: Option<Scope>, groups: seq<Group>): Option<Scope> {
    var base := if extensions.Some? then extensions.value else map[];
    var tidy := TidiedAll(groups);
    var after := if tidy != [] then base[EXTENSION := Arr(EncodedAll(tidy))] else base - {EXTENSION};
    if after == map[] then Workflow.None else Workflow.Some(after)
  }

  lemma {:induction false} StringsOfValues(ids: seq<string>)
    ensures Strings(StringValues(ids)) == ids
  {
    if ids != [] {
      StringsOfValues(ids[1..]);
    }
  }

  lemma DistinctTwice(ids: seq<Id>)
    ensures Distinct(Distinct(ids)) == Distinct(ids)
  {
    DistinctIsExact(ids);
    DistinctOfNoDuplicates(Distinct(ids));
  }

  lemma NormalizedIsTidied(g: Group)
    ensures NormalizeGroup(Encoded(g)) == Workflow.Some(Tidied(g))
  {
    StringsOfValues(g.nodeIds);
    assert |"id"| == 2 && |"name"| == 4 && |"color"| == 5 && |"node_ids"| == 8;
    var fields := Encoded(g).fields;
    assert HasString(fields, "id") && HasString(fields, "name") && HasString(fields, "color");
    assert fields["node_ids"] == Arr(StringValues(g.nodeIds));
  }

  lemma {:induction false} NormalizeInvertsEncode(groups: seq<Group>)
    ensures NormalizeAll(EncodedAll(groups)) == TidiedAll(groups)
  {
    hide NormalizeGroup, Encoded, Tidied;
    if groups != [] {
      NormalizeInvertsEncode(groups[1..]);
      NormalizedIsTidied(groups[0]);
    }
  }

  lemma {:induction false} TidyTwice(groups: seq<Group>)
    ensures TidiedAll(TidiedAll(groups)) == TidiedAll(groups)
  {
    if groups != [] {
      TidyTwice(groups[1..]);
      DistinctTwice(groups[0].nodeIds);
    }
  }

  /** What is written is what is read back, tidied; the other extensions are untouched. */
  lemma ReadAfterWrite(extensions: Option<Scope>, groups: seq<Group>)
    ensures GroupsIn(Stored(extensions, groups)) == TidiedAll(groups)
    ensures Stored(extensions, groups) != Workflow.Some(map[])
    ensures Others(Stored(extensions, groups)) == Others(extensions)
  {
    hide NormalizeAll, EncodedAll;
    var tidy := TidiedAll(groups);
    NormalizeInvertsEncode(tidy);
    TidyTwice(groups);
    var base := if extensions.Some? then extensions.value else map[];
    var after := if tidy != [] then base[EXTENSION := Arr(EncodedAll(tidy))] else base - {EXTENSION};
    assert after - {EXTENSION} == base - {EXTENSION};
    if tidy != [] {
      assert EXTENSION in after;
    }
  }

  /** Extensions that are none of the groups' business. */
  function Others(extensions: Option<Scope>): Scope {
    (if extensions.Some? then extensions.value else map[]) - {EXTENSION}
  }

  // ------------------------------------------------------------ discipline

  /** Groups are disjoint, non-empty, duplicate-free, uniquely named by id, and made of existing nodes. */
  ghost predicate Disciplined(groups: seq<Group>, nodes: seq<Id>) {
    && (forall i :: 0 <= i < |groups| ==> Sound(groups[i], nodes))
    && (forall i, j :: 0 <= i < j < |groups| ==> Separate(groups[i], groups[j]))
  }

  ghost predicate Sound(g: Group, nodes: seq<Id>) {
    g.nodeIds != [] && NoDuplicates(g.nodeIds) && forall n :: n in g.nodeIds ==> n in nodes
  }

  ghost predicate Separate(g: Group, h: Group) {
    g.id != h.id && forall n :: n in g.nodeIds ==> n !in h.nodeIds
  }

  /** No group lists a member twice. */
  ghost predicate Tidy(groups: seq<Group>) {
    forall g :: g in groups ==> NoDuplicates(g.nodeIds)
  }

  lemma {:induction false} TidyIsFixed(groups: seq<Group>)
    requires Tidy(groups)
    ensures TidiedAll(groups) == groups
  {
    if groups != [] {
      assert groups[0] in groups;
      DistinctOfNoDuplicates(groups[0].nodeIds);
      TidyIsFixed(groups[1..]);
    }
  }

  lemma {:induction false} NormalizedIsTidy(items: seq<Value>)
    ensures Tidy(NormalizeAll(items))
  {
    if items != [] {
      NormalizedIsTidy(items[1..]);
      var g := NormalizeGroup(items[0]);
      if g.Some? {
        var v := items[0];
        DistinctIsExact(if "node_ids" in v.fields && v.fields["node_ids"].Arr? then Strings(v.fields["node_ids"].items) else []);
      }
    }
  }

  /** Whatever the document holds, what is read from it is tidy. */
  lemma ReadIsTidy(extensions: Option<Scope>)
    ensures Tidy(GroupsIn(extensions))
  {
    hide NormalizeAll;
    if extensions.Some? && EXTENSION in extensions.value && extensions.value[EXTENSION].Arr? {
      NormalizedIsTidy(extensions.value[EXTENSION].items);
    }
  }

  // ------------------------------------------------- operations on the list

  /** What happens to every group alike. */
  datatype Change =
    | WithoutNodes(gone: seq<Id>)
    | OnlyNodes(valid: seq<Id>)
    | NodeRenamed(previous: Id, next: Id)
    | NameOf(groupId: string, name: string)
    | ColorOf(groupId: string, color: string)

  function Changed(g: Group, c: Change): Group {
    match c
    case WithoutNodes(gone) => g.(nodeIds := Kept(g.nodeIds, id => id !in gone))
    case OnlyNodes(valid) => g.(nodeIds := Distinct(Kept(g.nodeIds, id => id in valid)))
    case NodeRenamed(previous, next) => g.(nodeIds := RenamedAll(g.nodeIds, previous, next))
    case NameOf(id, name) => if g.id == id && name != "" then g.(name := name) else g
    case ColorOf(id, color) => if g.id == id then g.(color := color) else g
  }

  function Renamed(id: Id, previous: Id, next: Id): Id {
    if id == previous then next else id
  }

  function RenamedAll(ids: seq<Id>, previous: Id, next: Id): seq<Id> {
    seq(|ids|, i requires 0 <= i < |ids| => Renamed(ids[i], previous, next))
  }

  function ChangedAll(groups: seq<Group>, c: Change): (r: seq<Group>)
    ensures |r| == |groups| && forall i :: 0 <= i < |r| ==> r[i] == Changed(groups[i], c)
  {
    if groups == [] then [] else [Changed(groups[0], c)] + ChangedAll(groups[1..], c)
  }

  function NonEmpty(groups: seq<Group>): seq<Group> {
    Kept(groups, (g: Group) => g.nodeIds != [])
  }

  function WithId(groups: seq<Group>, id: string): (r: Option<nat>)
    ensures r.Some? ==> r.value < |groups| && groups[r.value].id == id
    ensures r.None? ==> forall g :: g in groups ==> g.id != id
  {
    if groups == [] then Workflow.None
    else if groups[0].id == id then Workflow.Some(0)
    else
      match WithId(groups[1..], id)
      case Some(k) => Workflow.Some(k + 1)
      case None =>
        assert groups == [groups[0]] + groups[1..];
        Workflow.None
  }

  function Chosen(nodes: seq<Id>, ids: seq<Id>): seq<Id> {
    Distinct(Kept(ids, id => id in nodes))
  }

  /** Nodes move to a group; groups they leave empty disappear, and so does a target nothing is assigned to. */
  function Assigned(groups: seq<Group>, nodes: seq<Id>, groupId: string, ids: seq<Id>): seq<Group> {
    var chosen := Chosen(nodes, ids);
    var cleared := ChangedAll(groups, WithoutNodes(chosen));
    match WithId(cleared, groupId)
    case None => groups
    case Some(k) => NonEmpty(cleared[k := cleared[k].(nodeIds := Distinct(cleared[k].nodeIds + chosen))])
  }

  function GroupIds(groups: seq<Group>): seq<string> {
    seq(|groups|, i requires 0 <= i < |groups| => groups[i].id)
  }

  function WithGroup(groups: seq<Group>, nodes: seq<Id>, group: Group): seq<Group> {
    Assigned(TidiedAll(groups + [group]), nodes, group.id, group.nodeIds)
  }

  // ------------------------------------------------- what they keep

  ghost predicate Tame(groups: seq<Group>, nodes: seq<Id>) {
    && (forall i :: 0 <= i < |groups| ==> NoDuplicates(groups[i].nodeIds) && Members(groups[i], nodes))
    && (forall i, j :: 0 <= i < j < |groups| ==> Separate(groups[i], groups[j]))
  }

  ghost predicate Members(g: Group, nodes: seq<Id>) {
    forall n :: n in g.nodeIds ==> n in nodes
  }

  lemma {:induction false} NonEmptyIsDisciplined(groups: seq<Group>, nodes: seq<Id>)
    requires Tame(groups, nodes)
    ensures Disciplined(NonEmpty(groups), nodes)
  {
    if groups != [] {
      var init, last := groups[..|groups| - 1], groups[|groups| - 1];
      NonEmptyIsDisciplined(init, nodes);
      KeptIsExact(init, (g: Group) => g.nodeIds != []);
      forall g | g in NonEmpty(init) ensures Separate(g, last) {
        var i :| 0 <= i < |init| && init[i] == g;
        assert Separate(groups[i], groups[|groups| - 1]);
      }
      assert NonEmpty(groups) == NonEmpty(init) + (if last.nodeIds != [] then [last] else []);
    }
  }

  /** A change that only takes members away. */
  lemma ShrinkingIsTame(groups: seq<Group>, after: seq<Group>, nodes: seq<Id>, valid: seq<Id>)
    requires Disciplined(groups, nodes) && |after| == |groups|
    requires forall i :: 0 <= i < |groups| ==> Shrunk(groups[i], after[i], valid)
    ensures Tame(after, valid)
  {
    forall i, j | 0 <= i < j < |after| ensures Separate(after[i], after[j]) {
      assert Separate(groups[i], groups[j]);
      assert Shrunk(groups[i], after[i], valid) && Shrunk(groups[j], after[j], valid);
    }
    forall i | 0 <= i < |after| ensures NoDuplicates(after[i].nodeIds) && Members(after[i], valid) {
      assert Shrunk(groups[i], after[i], valid);
    }
  }

  ghost predicate Shrunk(g: Group, h: Group, valid: seq<Id>) {
    g.id == h.id && NoDuplicates(h.nodeIds) && Members(h, valid) && forall n :: n in h.nodeIds ==> n in g.nodeIds
  }

  lemma RemovalDisciplined(groups: seq<Group>, nodes: seq<Id>, gone: seq<Id>)
    requires Disciplined(groups, nodes)
    ensures Disciplined(NonEmpty(ChangedAll(groups, WithoutNodes(gone))), nodes)
  {
    hide NonEmpty;
    var after := ChangedAll(groups, WithoutNodes(gone));
    forall i | 0 <= i < |groups| ensures Shrunk(groups[i], after[i], nodes) {
      assert Sound(groups[i], nodes);
      KeptIsExact(groups[i].nodeIds, id => id !in gone);
    }
    ShrinkingIsTame(groups, after, nodes, nodes);
    NonEmptyIsDisciplined(after, nodes);
  }

  /** Pruning brings groups back to the nodes that are left. */
  lemma PruningDisciplined(groups: seq<Group>, nodes: seq<Id>, left: seq<Id>)
    requires Disciplined(groups, nodes)
    ensures Disciplined(NonEmpty(ChangedAll(groups, OnlyNodes(left))), left)
  {
    hide NonEmpty;
    var after := ChangedAll(groups, OnlyNodes(left));
    forall i | 0 <= i < |groups| ensures Shrunk(groups[i], after[i], left) {
      KeptIsExact(groups[i].nodeIds, id => id in left);
      DistinctIsExact(Kept(groups[i].nodeIds, id => id in left));
    }
    ShrinkingIsTame(groups, after, nodes, left);
    NonEmptyIsDisciplined(after, left);
  }

  lemma RelabellingDisciplined(groups: seq<Group>, nodes: seq<Id>, c: Change)
    requires Disciplined(groups, nodes) && (c.NameOf? || c.ColorOf?)
    ensures Disciplined(ChangedAll(groups, c), nodes)
  {
    var after := ChangedAll(groups, c);
    forall i | 0 <= i < |after| ensures Sound(after[i], nodes) {
      assert Sound(groups[i], nodes);
    }
    forall i, j | 0 <= i < j < |after| ensures Separate(after[i], after[j]) {
      assert Separate(groups[i], groups[j]);
    }
  }

  function WithoutGroup(groups: seq<Group>, id: string): seq<Group> {
    Kept(groups, (g: Group) => g.id != id)
  }

  lemma {:induction false} DeletionDisciplined(groups: seq<Group>, nodes: seq<Id>, id: string)
    requires Disciplined(groups, nodes)
    ensures Disciplined(WithoutGroup(groups, id), nodes)
  {
    if groups != [] {
      var init, last := groups[..|groups| - 1], groups[|groups| - 1];
      DeletionDisciplined(init, nodes, id);
      KeptIsExact(init, (g: Group) => g.id != id);
      forall g | g in WithoutGroup(init, id) ensures Separate(g, last) {
        var i :| 0 <= i < |init| && init[i] == g;
        assert Separate(groups[i], groups[|groups| - 1]);
      }
      assert WithoutGroup(groups, id) == WithoutGroup(init, id) + (if last.id != id then [last] else []);
    }
  }

  /** Before an assignment only the chosen nodes may be in several groups, and one group may be empty. */
  ghost predicate Assignable(groups: seq<Group>, nodes: seq<Id>, chosen: seq<Id>) {
    && (forall i :: 0 <= i < |groups| ==> NoDuplicates(groups[i].nodeIds) && Members(groups[i], nodes))
    && (forall i, j :: 0 <= i < j < |groups| ==> SeparateBut(groups[i], groups[j], chosen))
  }

  ghost predicate SeparateBut(g: Group, h: Group, chosen: seq<Id>) {
    g.id != h.id && forall n :: n in g.nodeIds && n in h.nodeIds ==> n in chosen
  }

  /** Without the chosen nodes, groups are tame and contain none of them. */
  lemma ClearingIsTame(groups: seq<Group>, nodes: seq<Id>, chosen: seq<Id>)
    requires Assignable(groups, nodes, chosen)
    ensures
      var cleared := ChangedAll(groups, WithoutNodes(chosen));
      && Tame(cleared, nodes)
      && forall i, n :: 0 <= i < |cleared| && n in cleared[i].nodeIds ==> n !in chosen
  {
    var cleared := ChangedAll(groups, WithoutNodes(chosen));
    forall i | 0 <= i < |groups|
      ensures NoDuplicates(cleared[i].nodeIds) && Members(cleared[i], nodes)
      ensures forall n :: n in cleared[i].nodeIds <==> n in groups[i].nodeIds && n !in chosen
    {
      KeptIsExact(groups[i].nodeIds, id => id !in chosen);
    }
    forall i, j | 0 <= i < j < |cleared| ensures Separate(cleared[i], cleared[j]) {
      assert SeparateBut(groups[i], groups[j], chosen);
    }
  }

  lemma ChosenIsExact(nodes: seq<Id>, ids: seq<Id>)
    ensures NoDuplicates(Chosen(nodes, ids))
    ensures forall n :: n in Chosen(nodes, ids) <==> n in ids && n in nodes
  {
    KeptIsExact(ids, id => id in nodes);
    DistinctIsExact(Kept(ids, id => id in nodes));
  }

  lemma FillingIsTame(cleared: seq<Group>, nodes: seq<Id>, chosen: seq<Id>, k: nat)
    requires Tame(cleared, nodes) && k < |cleared|
    requires forall i, n :: 0 <= i < |cleared| && n in cleared[i].nodeIds ==> n !in chosen
    requires forall n :: n in chosen ==> n in nodes
    ensures Tame(cleared[k := cleared[k].(nodeIds := Distinct(cleared[k].nodeIds + chosen))], nodes)
  {
    DistinctIsExact(cleared[k].nodeIds + chosen);
    var filled := cleared[k := cleared[k].(nodeIds := Distinct(cleared[k].nodeIds + chosen))];
    forall i, j | 0 <= i < j < |filled| ensures Separate(filled[i], filled[j]) {
      assert Separate(cleared[i], cleared[j]);
    }
  }

  lemma AssignmentDisciplined(groups: seq<Group>, nodes: seq<Id>, groupId: string, ids: seq<Id>)
    requires Assignable(groups, nodes, Chosen(nodes, ids))
    ensures Disciplined(groups, nodes) || (exists g :: g in groups && g.id == groupId) ==>
      Disciplined(Assigned(groups, nodes, groupId, ids), nodes)
  {
    hide Chosen, NonEmpty, Tame;
    var chosen := Chosen(nodes, ids);
    ChosenIsExact(nodes, ids);
    ClearingIsTame(groups, nodes, chosen);
    var cleared := ChangedAll(groups, WithoutNodes(chosen));
    match WithId(cleared, groupId)
    case None =>
      forall g | g in groups ensures g.id != groupId {
        var i :| 0 <= i < |groups| && groups[i] == g;
        assert cleared[i] in cleared;
      }
    case Some(k) =>
      FillingIsTame(cleared, nodes, chosen, k);
      NonEmptyIsDisciplined(cleared[k := cleared[k].(nodeIds := Distinct(cleared[k].nodeIds + chosen))], nodes);
  }

  lemma DisciplinedIsAssignable(groups: seq<Group>, nodes: seq<Id>, chosen: seq<Id>)
    requires Disciplined(groups, nodes)
    ensures Assignable(groups, nodes, chosen)
  {
    forall i | 0 <= i < |groups| ensures NoDuplicates(groups[i].nodeIds) && Members(groups[i], nodes) {
      assert Sound(groups[i], nodes);
    }
    forall i, j | 0 <= i < j < |groups| ensures SeparateBut(groups[i], groups[j], chosen) {
      assert Separate(groups[i], groups[j]);
    }
  }

  /** A new group takes its members from wherever they were; without members it is dropped again. */
  lemma CreationDisciplined(groups: seq<Group>, nodes: seq<Id>, group: Group)
    requires Disciplined(groups, nodes) && group.id !in GroupIds(groups)
    requires NoDuplicates(group.nodeIds) && Members(group, nodes)
    ensures Disciplined(WithGroup(groups, nodes, group), nodes)
  {
    hide Assigned, Chosen, TidiedAll, NoDuplicates, Distinct;
    var all := groups + [group];
    forall i | 0 <= i < |all| ensures NoDuplicates(all[i].nodeIds) && Members(all[i], nodes) {
      assert i < |groups| ==> Sound(groups[i], nodes);
    }
    assert Tidy(all);
    TidyIsFixed(all);
    ChosenIsExact(nodes, group.nodeIds);
    forall i, j | 0 <= i < j < |all| ensures SeparateBut(all[i], all[j], Chosen(nodes, group.nodeIds)) {
      if j < |groups| {
        assert Separate(groups[i], groups[j]);
      } else {
        assert GroupIds(groups)[i] == all[i].id;
      }
    }
    assert group == all[|groups|] && group in all;
    AssignmentDisciplined(all, nodes, group.id, group.nodeIds);
  }

  // ----------------------------------------------------- renaming a node

  /** The two ids are members of two different groups. */
  ghost predicate Split(groups: seq<Group>, previous: Id, next: Id) {
    exists i, j :: 0 <= i < |groups| && 0 <= j < |groups| && i != j && previous in groups[i].nodeIds && next in groups[j].nodeIds
  }

  function AfterRename(groups: seq<Group>, previous: Id, next: Id): seq<Group> {
    TidiedAll(ChangedAll(groups, NodeRenamed(previous, next)))
  }

  lemma {:induction false} TidiedAt(groups: seq<Group>, i: nat)
    ensures |TidiedAll(groups)| == |groups|
    ensures i < |groups| ==> TidiedAll(groups)[i] == Tidied(groups[i])
  {
    if groups != [] {
      TidiedAt(groups[1..], if i == 0 then 0 else i - 1);
    }
  }

  lemma RenamedMembers(groups: seq<Group>, previous: Id, next: Id, i: nat)
    requires i < |groups|
    ensures |AfterRename(groups, previous, next)| == |groups|
    ensures
      var g := AfterRename(groups, previous, next)[i];
      && g.id == groups[i].id && NoDuplicates(g.nodeIds)
      && (forall n :: n in g.nodeIds ==> exists m :: m in groups[i].nodeIds && n == Renamed(m, previous, next))
      && (forall m :: m in groups[i].nodeIds ==> Renamed(m, previous, next) in g.nodeIds)
  {
    var moved := ChangedAll(groups, NodeRenamed(previous, next));
    TidiedAt(moved, i);
    DistinctIsExact(moved[i].nodeIds);
    RenamedAllMembers(groups[i].nodeIds, previous, next);
  }

  lemma RenamedAllMembers(ids: seq<Id>, previous: Id, next: Id)
    ensures forall n :: n in RenamedAll(ids, previous, next) ==> exists m :: m in ids && n == Renamed(m, previous, next)
    ensures forall m :: m in ids ==> Renamed(m, previous, next) in RenamedAll(ids, previous, next)
  {
    var r := RenamedAll(ids, previous, next);
    forall n | n in r ensures exists m :: m in ids && n == Renamed(m, previous, next) {
      var i :| 0 <= i < |r| && r[i] == n;
      assert ids[i] in ids;
    }
    forall m | m in ids ensures Renamed(m, previous, next) in r {
      var i :| 0 <= i < |ids| && ids[i] == m;
      assert r[i] == Renamed(m, previous, next);
    }
  }

  lemma RenameSeparates(groups: seq<Group>, nodes: seq<Id>, previous: Id, next: Id, i: nat, j: nat)
    requires Disciplined(groups, nodes) && !Split(groups, previous, next) && i < j < |groups|
    ensures |AfterRename(groups, previous, next)| == |groups|
    ensures Separate(AfterRename(groups, previous, next)[i], AfterRename(groups, previous, next)[j])
  {
    RenamedMembers(groups, previous, next, i);
    RenamedMembers(groups, previous, next, j);
    var after := AfterRename(groups, previous, next);
    assert Separate(groups[i], groups[j]);
    forall n | n in after[i].nodeIds ensures n !in after[j].nodeIds {
      var a :| a in groups[i].nodeIds && n == Renamed(a, previous, next);
      forall b | b in groups[j].nodeIds ensures Renamed(b, previous, next) != n {
        assert a != b;
        assert a == previous ==> b != next;
        assert b == previous ==> a != next;
      }
    }
  }

  /** The nodes after a rename contain whatever the nodes before it have become. */
  ghost predicate Follows(nodes: seq<Id>, renamed: seq<Id>, previous: Id, next: Id) {
    forall n :: n in nodes ==> Renamed(n, previous, next) in renamed
  }

  lemma RenameSound(groups: seq<Group>, nodes: seq<Id>, renamed: seq<Id>, previous: Id, next: Id, i: nat)
    requires Disciplined(groups, nodes) && i < |groups| && Follows(nodes, renamed, previous, next)
    ensures |AfterRename(groups, previous, next)| == |groups|
    ensures Sound(AfterRename(groups, previous, next)[i], renamed)
  {
    RenamedMembers(groups, previous, next, i);
    assert Sound(groups[i], nodes);
    assert groups[i].nodeIds[0] in groups[i].nodeIds;
  }

  /** Renaming a node keeps groups disciplined exactly when the two ids are not in two different groups. */
  lemma RenameIsSafeIffNotSplit(groups: seq<Group>, nodes: seq<Id>, renamed: seq<Id>, previous: Id, next: Id)
    requires Disciplined(groups, nodes) && Follows(nodes, renamed, previous, next)
    ensures Disciplined(AfterRename(groups, previous, next), renamed) <==> !Split(groups, previous, next)
  {
    var after := AfterRename(groups, previous, next);
    if Split(groups, previous, next) {
      var i, j :| 0 <= i < |groups| && 0 <= j < |groups| && i != j && previous in groups[i].nodeIds && next in groups[j].nodeIds;
      RenamedMembers(groups, previous, next, i);
      RenamedMembers(groups, previous, next, j);
      assert next in after[i].nodeIds && next in after[j].nodeIds;
      assert !Separate(after[i], after[j]) && !Separate(after[j], after[i]);
    } else {
      forall i | 0 <= i < |after| ensures |after| == |groups| && Sound(after[i], renamed) {
        TidiedAt(ChangedAll(groups, NodeRenamed(previous, next)), 0);
        RenameSound(groups, nodes, renamed, previous, next, i);
      }
      forall i, j | 0 <= i < j < |after| ensures Separate(after[i], after[j]) {
        TidiedAt(ChangedAll(groups, NodeRenamed(previous, next)), 0);
        RenameSeparates(groups, nodes, previous, next, i, j);
      }
    }
  }

  /** The editor renames to unused ids only, which no disciplined group can contain. */
  lemma FreshNamesNeverSplit(groups: seq<Group>, nodes: seq<Id>, previous: Id, next: Id)
    requires Disciplined(groups, nodes) && next !in nodes
    ensures !Split(groups, previous, next)
  {
    forall j | 0 <= j < |groups| ensures next !in groups[j].nodeIds {
      assert Sound(groups[j], nodes);
    }
  }

  // ----------------------------------------------- sequences of operations

  datatype Op =
    | Create(ids: seq<Id>, name: string, color: string)
    | Assign(groupId: string, ids: seq<Id>)
    | Remove(ids: seq<Id>)
    | SetName(groupId: string, name: string)
    | SetColor(groupId: string, color: string)
    | Delete(groupId: string)
    | RenameNode(at: nat, next: Id)
    | DeleteNodes(ids: seq<Id>)
    | AddNode(id: Id)

  datatype State = State(nodes: seq<Id>, groups: seq<Group>)

  function NewGroup(s: State, op: Op, id: string): Group
    requires op.Create?
  {
    Group(id, op.name, op.color, Chosen(s.nodes, op.ids))
  }

  /** One operation; `id` is the group id a creation comes up with. */
  function Apply(s: State, op: Op, id: string): State {
    match op
    case Create(_, _, _) => s.(groups := WithGroup(s.groups, s.nodes, NewGroup(s, op, id)))
    case Assign(groupId, ids) => s.(groups := Assigned(s.groups, s.nodes, groupId, ids))
    case Remove(ids) => s.(groups := NonEmpty(ChangedAll(s.groups, WithoutNodes(ids))))
    case SetName(groupId, name) => s.(groups := ChangedAll(s.groups, NameOf(groupId, name)))
    case SetColor(groupId, color) => s.(groups := ChangedAll(s.groups, ColorOf(groupId, color)))
    case Delete(groupId) => s.(groups := WithoutGroup(s.groups, groupId))
    case RenameNode(at, next) =>
      if at >= |s.nodes| || next == "" || next in s.nodes then s
      else State(s.nodes[at := next], AfterRename(s.groups, s.nodes[at], next))
    case DeleteNodes(ids) =>
      var left := Kept(s.nodes, id => id !in ids);
      State(left, NonEmpty(ChangedAll(s.groups, OnlyNodes(left))))
    case AddNode(node) => s.(nodes := s.nodes + [node])
  }

  lemma NodesFollow(nodes: seq<Id>, at: nat, next: Id)
    requires at < |nodes|
    ensures Follows(nodes, nodes[at := next], nodes[at], next)
  {
    var renamed := nodes[at := next];
    assert renamed[at] == next;
    forall n | n in nodes && n != nodes[at] ensures n in renamed {
      var i :| 0 <= i < |nodes| && nodes[i] == n;
      assert renamed[i] == n;
    }
  }

  lemma GrowingDisciplined(groups: seq<Group>, nodes: seq<Id>, node: Id)
    requires Disciplined(groups, nodes)
    ensures Disciplined(groups, nodes + [node])
  {
    forall i | 0 <= i < |groups| ensures Sound(groups[i], nodes + [node]) {
      assert Sound(groups[i], nodes);
    }
  }

  lemma ApplyDisciplined(s: State, op: Op, id: string)
    requires Disciplined(s.groups, s.nodes) && (op.Create? ==> id !in GroupIds(s.groups))
    ensures Disciplined(Apply(s, op, id).groups, Apply(s, op, id).nodes)
  {
    hide Disciplined, WithGroup, Assigned, NonEmpty, ChangedAll, WithoutGroup, AfterRename;
    match op
    case Create(ids, _, _) =>
      ChosenIsExact(s.nodes, ids);
      CreationDisciplined(s.groups, s.nodes, NewGroup(s, op, id));
    case Assign(groupId, ids) =>
      DisciplinedIsAssignable(s.groups, s.nodes, Chosen(s.nodes, ids));
      AssignmentDisciplined(s.groups, s.nodes, groupId, ids);
    case Remove(ids) => RemovalDisciplined(s.groups, s.nodes, ids);
    case SetName(groupId, name) => RelabellingDisciplined(s.groups, s.nodes, NameOf(groupId, name));
    case SetColor(groupId, color) => RelabellingDisciplined(s.groups, s.nodes, ColorOf(groupId, color));
    case Delete(groupId) => DeletionDisciplined(s.groups, s.nodes, groupId);
    case RenameNode(at, next) =>
      if at < |s.nodes| && next !in s.nodes {
        FreshNamesNeverSplit(s.groups, s.nodes, s.nodes[at], next);
        NodesFollow(s.nodes, at, next);
        RenameIsSafeIffNotSplit(s.groups, s.nodes, s.nodes[at := next], s.nodes[at], next);
      }
    case DeleteNodes(ids) => PruningDisciplined(s.groups, s.nodes, Kept(s.nodes, id => id !in ids));
    case AddNode(node) => GrowingDisciplined(s.groups, s.nodes, node);
  }

  /** The first free of `group-1`, `group-2`, ... */
  ghost predicate FreshGroupId(groups: seq<Group>, id: string) {
    exists i: nat :: FirstFree("group-" + Decimal(1), "group-", 1, i, GroupIds(groups), id)
  }

  /** Two states that one operation of the editor leads between. */
  ghost predicate Leads(s: State, op: Op, t: State) {
    if op.Create? then exists id :: FreshGroupId(s.groups, id) && t == Apply(s, op, id) else t == Apply(s, op, "")
  }

  ghost predicate History(states: seq<State>, ops: seq<Op>) {
    |states| == |ops| + 1 && forall i {:trigger ops[i]} :: 0 <= i < |ops| ==> Leads(states[i], ops[i], states[i + 1])
  }

  /** Groups stay disciplined through every sequence of operations. */
  lemma {:induction false} GroupsStayDisciplined(states: seq<State>, ops: seq<Op>, k: nat)
    requires History(states, ops) && k < |states| && Disciplined(states[0].groups, states[0].nodes)
    ensures Disciplined(states[k].groups, states[k].nodes)
  {
    hide Apply, Disciplined;
    if k > 0 {
      GroupsStayDisciplined(states, ops, k - 1);
      var s, op, t := states[k - 1], ops[k - 1], states[k - 1 + 1];
      assert Leads(s, op, t);
      if op.Create? {
        var id :| FreshGroupId(s.groups, id) && t == Apply(s, op, id);
        ApplyDisciplined(s, op, id);
      } else {
        ApplyDisciplined(s, op, "");
      }
    }
  }

  // ------------------------------------------------------- the editor's copy

  /** The part of the live workflow that group operations read and write in place. */
  class GroupStore {
    var nodes: seq<Id>
    var extensions: Option<Scope>
    const trim: string -> string

    constructor (nodes: seq<Id>, extensions: Option<Scope>, trim: string -> string)
      ensures this.nodes == nodes && this.extensions == extensions && this.trim == trim
    {
      this.nodes, this.extensions, this.trim := nodes, extensions, trim;
    }

    function Now(): State
      reads this
    {
      State(nodes, GroupsIn(extensions))
    }

    method Write(groups: seq<Group>)
      modifies this`extensions
      ensures Now() == State(nodes, TidiedAll(groups)) && Others(extensions) == Others(old(extensions))
    {
      ReadAfterWrite(extensions, groups);
      extensions := Stored(extensions, groups);
    }

    /** `assignNodesToGroup`: nothing happens when there is no such group. */
    method AssignNodes(groupId: string, ids: seq<Id>)
      modifies this`extensions
      ensures Now() == Apply(old(Now()), Assign(groupId, ids), "") && Others(extensions) == Others(old(extensions))
    {
      hide Assigned, Chosen, NonEmpty;
      ReadIsTidy(extensions);
      var chosen := Chosen(nodes, ids);
      var groups := ChangedAll(GroupsIn(extensions), WithoutNodes(chosen));
      var target := WithId(groups, groupId);
      AssignedIsTidy(GroupsIn(extensions), nodes, groupId, ids);
      AssignedUnfolds(GroupsIn(extensions), nodes, groupId, ids);
      if target.None? {
        return;
      }
      var k := target.value;
      groups := groups[k := groups[k].(nodeIds := Distinct(groups[k].nodeIds + chosen))];
      TidyIsFixed(NonEmpty(groups));
      Write(NonEmpty(groups));
    }

    /** Counts up from one until no group has the number. */
    method FreshNumber(taken: seq<string>) returns (index: nat, id: string)
      ensures index >= 1 && id == "group-" + Decimal(index)
      ensures FirstFree("group-" + Decimal(1), "group-", 1, index - 1, taken, id)
    {
      index := 1;
      GroupNumbersDiffer();
      while "group-" + Decimal(index) in taken
        invariant index >= 1
        invariant AllTaken("group-" + Decimal(1), "group-", 1, index - 1, taken)
        decreases |taken| + 1 - index
      {
        assert "group-" + Decimal(index) == Candidate("group-" + Decimal(1), "group-", 1, index - 1);
        TakenAreFew("group-" + Decimal(1), "group-", 1, index, taken);
        index := index + 1;
      }
      id := "group-" + Decimal(index);
    }

    /** `createWorkflowGroup`: the first unused number gives the id, and the default name. */
    method CreateGroup(ids: seq<Id>, name: string, color: string) returns (group: Group)
      modifies this`extensions
      ensures Leads(old(Now()), Create(ids, group.name, color), Now()) && Others(extensions) == Others(old(extensions))
      ensures FreshGroupId(old(Now()).groups, group.id)
      ensures group == NewGroup(old(Now()), Create(ids, group.name, color), group.id)
      ensures trim(name) != "" ==> group.name == trim(name)
    {
      hide Assigned, Apply, Chosen;
      var members := Chosen(nodes, ids);
      var groups := GroupsIn(extensions);
      ghost var before := Now();
      var index, id := FreshNumber(GroupIds(groups));
      group := Group(id, if trim(name) != "" then trim(name) else "Group " + Decimal(index), color, members);
      Write(groups + [group]);
      AssignNodes(group.id, members);
      CreationIsTwoWrites(before, Create(ids, group.name, color), group);
    }

    method RemoveNodes(ids: seq<Id>)
      modifies this`extensions
      ensures Now() == Apply(old(Now()), Remove(ids), "") && Others(extensions) == Others(old(extensions))
    {
      ReadIsTidy(extensions);
      var groups := NonEmpty(ChangedAll(GroupsIn(extensions), WithoutNodes(ids)));
      ShrinkingStaysTidy(GroupsIn(extensions), WithoutNodes(ids));
      TidyIsFixed(groups);
      Write(groups);
    }

    method RenameGroup(groupId: string, name: string)
      modifies this`extensions
      ensures Now() == Apply(old(Now()), SetName(groupId, trim(name)), "") && Others(extensions) == Others(old(extensions))
    {
      ReadIsTidy(extensions);
      LabelsStayTidy(GroupsIn(extensions), NameOf(groupId, trim(name)));
      Write(ChangedAll(GroupsIn(extensions), NameOf(groupId, trim(name))));
    }

    method Recolor(groupId: string, color: string)
      modifies this`extensions
      ensures Now() == Apply(old(Now()), SetColor(groupId, color), "") && Others(extensions) == Others(old(extensions))
    {
      ReadIsTidy(extensions);
      LabelsStayTidy(GroupsIn(extensions), ColorOf(groupId, color));
      Write(ChangedAll(GroupsIn(extensions), ColorOf(groupId, color)));
    }

    method DeleteGroup(groupId: string)
      modifies this`extensions
      ensures Now() == Apply(old(Now()), Delete(groupId), "") && Others(extensions) == Others(old(extensions))
    {
      ReadIsTidy(extensions);
      var groups := WithoutGroup(GroupsIn(extensions), groupId);
      KeptIsExact(GroupsIn(extensions), (g: Group) => g.id != groupId);
      TidyIsFixed(groups);
      Write(groups);
    }

    /** The inspector renames one node, to an id no other node has, and then its group memberships. */
    method RenameOneNode(at: nat, next: Id)
      requires at < |nodes|
      modifies this
      ensures Now() == Apply(old(Now()), RenameNode(at, trim(next)), "") && Others(extensions) == Others(old(extensions))
    {
      var renamed := trim(next);
      if renamed == "" || renamed in nodes {
        return;
      }
      var previous := nodes[at];
      nodes := nodes[at := renamed];
      Write(ChangedAll(GroupsIn(extensions), NodeRenamed(previous, renamed)));
    }

    method Prune()
      modifies this`extensions
      ensures Now() == State(nodes, NonEmpty(ChangedAll(old(Now()).groups, OnlyNodes(nodes))))
      ensures Others(extensions) == Others(old(extensions))
    {
      var groups := NonEmpty(ChangedAll(GroupsIn(extensions), OnlyNodes(nodes)));
      ReadIsTidy(extensions);
      ShrinkingStaysTidy(GroupsIn(extensions), OnlyNodes(nodes));
      TidyIsFixed(groups);
      Write(groups);
    }

    method DeleteNodesAndPrune(ids: seq<Id>)
      modifies this
      ensures Now() == Apply(old(Now()), DeleteNodes(ids), "") && Others(extensions) == Others(old(extensions))
    {
      nodes := Kept(nodes, id => id !in ids);
      Prune();
    }
  }

  lemma ShrinkingStaysTidy(groups: seq<Group>, c: Change)
    requires Tidy(groups) && (c.WithoutNodes? || c.OnlyNodes?)
    ensures Tidy(ChangedAll(groups, c)) && Tidy(NonEmpty(ChangedAll(groups, c)))
  {
    var after := ChangedAll(groups, c);
    forall i | 0 <= i < |after| ensures NoDuplicates(after[i].nodeIds) {
      assert groups[i] in groups;
      match c
      case WithoutNodes(gone) => KeptIsExact(groups[i].nodeIds, id => id !in gone);
      case OnlyNodes(valid) => DistinctIsExact(Kept(groups[i].nodeIds, id => id in valid));
    }
    KeptIsExact(after, (g: Group) => g.nodeIds != []);
  }

  lemma LabelsStayTidy(groups: seq<Group>, c: Change)
    requires Tidy(groups) && (c.NameOf? || c.ColorOf?)
    ensures TidiedAll(ChangedAll(groups, c)) == ChangedAll(groups, c)
  {
    var after := ChangedAll(groups, c);
    forall i | 0 <= i < |after| ensures NoDuplicates(after[i].nodeIds) {
      assert groups[i] in groups;
    }
    TidyIsFixed(after);
  }

  lemma AssignedUnfolds(groups: seq<Group>, nodes: seq<Id>, groupId: string, ids: seq<Id>)
    ensures
      var chosen := Chosen(nodes, ids);
      var cleared := ChangedAll(groups, WithoutNodes(chosen));
      var target := WithId(cleared, groupId);
      Assigned(groups, nodes, groupId, ids) ==
        if target.None? then groups
        else NonEmpty(cleared[target.value := cleared[target.value].(nodeIds := Distinct(cleared[target.value].nodeIds + chosen))])
  {
  }

  lemma AssignedIsTidy(groups: seq<Group>, nodes: seq<Id>, groupId: string, ids: seq<Id>)
    requires Tidy(groups)
    ensures Tidy(Assigned(groups, nodes, groupId, ids))
  {
    hide Chosen;
    var chosen := Chosen(nodes, ids);
    var cleared := ChangedAll(groups, WithoutNodes(chosen));
    ShrinkingStaysTidy(groups, WithoutNodes(chosen));
    var target := WithId(cleared, groupId);
    AssignedUnfolds(groups, nodes, groupId, ids);
    hide Assigned, NonEmpty;
    if target.Some? {
      FillingStaysTidy(cleared, target.value, chosen);
    }
  }

  lemma FillingStaysTidy(cleared: seq<Group>, k: nat, chosen: seq<Id>)
    requires Tidy(cleared) && k < |cleared|
    ensures Tidy(NonEmpty(cleared[k := cleared[k].(nodeIds := Distinct(cleared[k].nodeIds + chosen))]))
  {
    DistinctIsExact(cleared[k].nodeIds + chosen);
    var filled := cleared[k := cleared[k].(nodeIds := Distinct(cleared[k].nodeIds + chosen))];
    KeptIsExact(filled, (g: Group) => g.nodeIds != []);
  }

  lemma GroupNumbersDiffer()
    ensures Distinguishable("group-" + Decimal(1), "group-", 1)
  {
    forall k: nat | k > 1 ensures "group-" + Decimal(1) != "group-" + Decimal(k) {
      var a, b := "group-" + Decimal(1), "group-" + Decimal(k);
      if a == b {
        assert a[|"group-"|..] == Decimal(1) && b[|"group-"|..] == Decimal(k);
        DecimalIsInjective(1, k);
      }
    }
  }

  lemma CreationIsTwoWrites(s: State, op: Op, group: Group)
    requires op.Create? && group == NewGroup(s, op, group.id)
    ensures Apply(s, op, group.id) ==
      Apply(State(s.nodes, TidiedAll(s.groups + [group])), Assign(group.id, group.nodeIds), "")
  {
  }
}
