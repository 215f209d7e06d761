/** What every projected diagram guarantees: each edge joins two drawn
    nodes, the focused element is drawn first, an unknown focus draws
    nothing, and the builder's relationship labels get the colours the
    legend promises.
 */
module ProjectorFacts {
  import opened Wrappers
  import opened Strings
  import opened C4
  import opened Dependencies
  import opened Projector
  import CodeElements

  /** An edge drawn from relationships joins that relationship's endpoints. */
  lemma EdgeFromRelationship(rels: seq<Relationship>, animate: bool, e: Edge) returns (rel: Relationship)
    requires e in Edges(rels, animate)
    ensures rel in rels && e.source == rel.sourceId && e.target == rel.targetId
  {
    var i :| 0 <= i < |rels| && Edges(rels, animate)[i] == e;
    rel := rels[i];
  }

  lemma ContainerNodeIds(cs: seq<Container>, isExternal: bool)
    ensures NodeIds(ContainerNodes(cs, isExternal)) == ContainerIds(cs)
  {
  }

  lemma ComponentNodeIds(ks: seq<Component>)
    ensures NodeIds(ComponentNodes(ks)) == ComponentIds(ks)
  {
  }

  lemma PersonIdShown(ps: seq<Person>, p: Person)
    requires p in ps
    ensures p.id in NodeIds(PersonNodes(ps))
  {
    var i :| 0 <= i < |ps| && ps[i] == p;
    assert NodeIds(PersonNodes(ps))[i] == p.id;
  }

  lemma SystemIdIn(ss: seq<System>, s: System)
    requires s in ss
    ensures s.id in SystemIds(ss)
  {
    var i :| 0 <= i < |ss| && ss[i] == s;
    assert SystemIds(ss)[i] == s.id;
  }

  // ---------------------------------------------------------------------
  // Edge closure, level by level
  // ---------------------------------------------------------------------

  predicate EdgesWithin(es: seq<Edge>, ids: seq<string>) {
    forall e :: e in es ==> e.source in ids && e.target in ids
  }

  predicate RelsWithin(rels: seq<Relationship>, ids: seq<string>) {
    forall rel :: rel in rels ==> rel.sourceId in ids && rel.targetId in ids
  }

  lemma EdgesOfRelsWithin(rels: seq<Relationship>, animate: bool, ids: seq<string>)
    requires RelsWithin(rels, ids)
    ensures EdgesWithin(Edges(rels, animate), ids)
  {
    forall e | e in Edges(rels, animate)
      ensures e.source in ids && e.target in ids
    {
      var rel := EdgeFromRelationship(rels, animate, e);
    }
  }

  lemma BetweenWithin(rels: seq<Relationship>, inner: seq<string>, ids: seq<string>)
    requires forall x :: x in inner ==> x in ids
    ensures RelsWithin(Between(rels, inner), ids)
  {
  }

  /** Every external endpoint kept is drawn as a system node. */
  lemma ExternalsShown(m: Model, focus: string, cids: seq<string>, exts: seq<string>)
    requires exts == AddNew([], ExternalEndpoints(m.systems, focus, m.relationships, cids))
    ensures forall x :: x in exts ==> x in NodeIds(FoundSystems(m.systems, exts))
  {
    var candidates := ExternalEndpoints(m.systems, focus, m.relationships, cids);
    AddNewDistinct([], candidates);
    forall x | x in exts
      ensures x in SystemIds(m.systems)
    {
      var s :| s in m.systems && s.id == x && s.id != focus && s.isExternal;
      SystemIdIn(m.systems, s);
    }
  }

  lemma ExternalRelsWithin(rels: seq<Relationship>, exts: seq<string>, cids: seq<string>, ids: seq<string>)
    requires forall x :: x in exts ==> x in ids
    requires forall x :: x in cids ==> x in ids
    ensures RelsWithin(ExternalRels(rels, exts, cids), ids)
  {
  }

  lemma PersonRelsWithin(people: seq<Person>, rels: seq<Relationship>, focus: string, cids: seq<string>, ids: seq<string>)
    requires forall x :: x in NodeIds(PersonNodes(people)) ==> x in ids
    requires focus in ids && forall x :: x in cids ==> x in ids
    ensures RelsWithin(AllPersonRels(people, rels, focus, cids), ids)
  {
    forall rel | rel in AllPersonRels(people, rels, focus, cids)
      ensures rel.sourceId in ids && rel.targetId in ids
    {
      var p :| p in people && rel in rels && PersonLink(rel, p.id, focus, cids);
      PersonIdShown(people, p);
    }
  }

  lemma ClosedOfParts(nodes: seq<Node>, a: seq<Edge>, b: seq<Edge>, c: seq<Edge>)
    requires EdgesWithin(a, NodeIds(nodes)) && EdgesWithin(b, NodeIds(nodes)) && EdgesWithin(c, NodeIds(nodes))
    ensures Closed(Diagram(nodes, a + b + c))
  {
  }

  lemma ContainerLayout(sys: System, cs: seq<Container>, found: seq<Node>, people: seq<Person>)
    ensures NodeIds([SystemNodeOf(sys)] + ContainerNodes(cs, false) + (found + PersonNodes(people)))
      == [sys.id] + ContainerIds(cs) + (NodeIds(found) + NodeIds(PersonNodes(people)))
  {
    NodeIdsAppend([SystemNodeOf(sys)] + ContainerNodes(cs, false), found + PersonNodes(people));
    NodeIdsAppend(found, PersonNodes(people));
    NodeIdsAppend([SystemNodeOf(sys)], ContainerNodes(cs, false));
    ContainerNodeIds(cs, false);
  }

  /** Container level: the inner, external and person edges all land on
      the system, its containers, the external systems or the persons drawn. */
  lemma ContainerDiagramClosed(m: Model, focus: string)
    ensures Closed(ContainerDiagram(m, focus))
  {
    match FindSystem(m.systems, focus)
    case None =>
    case Some(sys) =>
      var cs := ContainersOf(m.containers, focus);
      var cids := ContainerIds(cs);
      var exts := AddNew([], ExternalEndpoints(m.systems, focus, m.relationships, cids));
      var people := InteractingPersons(m.persons, m.relationships, focus, cids);
      var found := FoundSystems(m.systems, exts);
      var nodes := [SystemNodeOf(sys)] + ContainerNodes(cs, false) + (found + PersonNodes(people));
      ContainerLayout(sys, cs, found, people);
      var ids := NodeIds(nodes);
      assert forall x :: x in cids ==> x in ids;
      assert forall x :: x in NodeIds(found) ==> x in ids;
      ExternalsShown(m, focus, cids, exts);
      assert forall x :: x in exts ==> x in NodeIds(found);
      assert forall x :: x in exts ==> x in ids;
      var inner := Between(m.relationships, [focus] + cids);
      var outer := ExternalRels(m.relationships, exts, cids);
      var personal := AllPersonRels(people, m.relationships, focus, cids);
      BetweenWithin(m.relationships, [focus] + cids, ids);
      EdgesOfRelsWithin(inner, true, ids);
      ExternalRelsWithin(m.relationships, exts, cids, ids);
      EdgesOfRelsWithin(outer, true, ids);
      PersonRelsWithin(people, m.relationships, focus, cids, ids);
      EdgesOfRelsWithin(personal, false, ids);
      ClosedOfParts(nodes, Edges(inner, true), Edges(outer, true), Edges(personal, false));
  }

  /** Every interacting container kept is drawn as a container node. */
  lemma OthersShown(m: Model, focus: string, kids: seq<string>, others: seq<string>)
    requires others == AddNew([], InteractingCandidates(m, focus, kids, m.relationships))
    ensures forall x :: x in others ==> x in NodeIds(FoundContainers(m.containers, others))
  {
    AddNewDistinct([], InteractingCandidates(m, focus, kids, m.relationships));
  }

  lemma CrossEdgesWithin(m: Model, focus: string, others: seq<string>, ids: seq<string>)
    requires forall x :: x in others ==> x in ids
    requires forall x :: x in ComponentIds(ComponentsOf(m.components, focus)) ==> x in ids
    ensures EdgesWithin(CrossEdges(m, focus, others, m.relationships), ids)
  {
  }

  /** Component level: inner edges land on the container or its components,
      re-pointed cross edges on a component and an interacting container. */
  lemma ComponentDiagramClosed(m: Model, focus: string)
    ensures Closed(ComponentDiagram(m, focus))
  {
    match FindContainer(m.containers, focus)
    case None =>
    case Some(c) =>
      var ks := ComponentsOf(m.components, focus);
      var kids := ComponentIds(ks);
      var others := AddNew([], InteractingCandidates(m, focus, kids, m.relationships));
      var found := FoundContainers(m.containers, others);
      var top := Node(c.id, ContainerNode, c.name, false);
      var nodes := [top] + ComponentNodes(ks) + found;
      var ids := NodeIds(nodes);
      ComponentLayout(top, ks, found);
      OthersShown(m, focus, kids, others);
      var inner := Between(m.relationships, [focus] + kids);
      BetweenWithin(m.relationships, [focus] + kids, ids);
      EdgesOfRelsWithin(inner, false, ids);
      CrossEdgesWithin(m, focus, others, ids);
      ClosedOfTwo(nodes, Edges(inner, false), CrossEdges(m, focus, others, m.relationships));
  }

  lemma ComponentLayout(top: Node, ks: seq<Component>, found: seq<Node>)
    ensures NodeIds([top] + ComponentNodes(ks) + found) == [top.id] + ComponentIds(ks) + NodeIds(found)
    ensures forall x :: x in ComponentIds(ks) ==> x in NodeIds([top] + ComponentNodes(ks) + found)
    ensures forall x :: x in NodeIds(found) ==> x in NodeIds([top] + ComponentNodes(ks) + found)
  {
    NodeIdsAppend([top] + ComponentNodes(ks), found);
    NodeIdsAppend([top], ComponentNodes(ks));
    ComponentNodeIds(ks);
  }

  lemma ClosedOfTwo(nodes: seq<Node>, a: seq<Edge>, b: seq<Edge>)
    requires EdgesWithin(a, NodeIds(nodes)) && EdgesWithin(b, NodeIds(nodes))
    ensures Closed(Diagram(nodes, a + b))
  {
  }

  lemma CodeNodeIds(names: seq<string>, i: nat)
    requires i < |names|
    ensures CodeId(names[i]) in NodeIds(CodeNodes(names))
  {
    assert NodeIds(CodeNodes(names))[i] == CodeId(names[i]);
  }

  lemma ImplementsWithin(kid: string, names: seq<string>, ids: seq<string>)
    requires kid in ids && forall i :: 0 <= i < |names| ==> CodeId(names[i]) in ids
    ensures EdgesWithin(ImplementsEdges(kid, names), ids)
  {
    forall e | e in ImplementsEdges(kid, names)
      ensures e.source in ids && e.target in ids
    {
      var i :| 0 <= i < |names| && ImplementsEdges(kid, names)[i] == e;
    }
  }

  lemma UsesWithin(names: seq<string>, ids: seq<string>)
    requires forall i :: 0 <= i < |names| ==> CodeId(names[i]) in ids
    ensures EdgesWithin(UsesEdges(names), ids)
  {
    var ps := Pairs(names, Related, 0, 1);
    forall e | e in UsesEdges(names)
      ensures e.source in ids && e.target in ids
    {
      var t :| 0 <= t < |UsesEdges(names)| && UsesEdges(names)[t] == e;
      assert e == UsesEdge(names[ps[t].0], names[ps[t].1]);
    }
  }

  lemma CodeLayout(top: Node, names: seq<string>)
    ensures top.id in NodeIds([top] + CodeNodes(names))
    ensures forall i :: 0 <= i < |names| ==> CodeId(names[i]) in NodeIds([top] + CodeNodes(names))
  {
    NodeIdsAppend([top], CodeNodes(names));
    assert NodeIds([top] + CodeNodes(names))[0] == top.id;
    forall i | 0 <= i < |names|
      ensures CodeId(names[i]) in NodeIds([top] + CodeNodes(names))
    {
      CodeNodeIds(names, i);
    }
  }

  /** Code level, for any element names: "Implements" edges leave the
      component, "Uses" edges join two elements. */
  lemma CodeDiagramForClosed(k: Component, names: seq<string>)
    ensures Closed(CodeDiagramFor(k, names))
  {
    var top := Node(k.id, ComponentNode, k.name, false);
    var nodes := [top] + CodeNodes(names);
    CodeLayout(top, names);
    ImplementsWithin(k.id, names, NodeIds(nodes));
    UsesWithin(names, NodeIds(nodes));
    ClosedOfTwo(nodes, ImplementsEdges(k.id, names), UsesEdges(names));
  }

  lemma CodeDiagramClosed(m: Model, focus: string)
    ensures Closed(CodeDiagram(m, focus))
  {
    match FindComponent(m.components, focus)
    case None =>
    case Some(k) => CodeDiagramForClosed(k, ElementNames(k));
  }

  lemma CodeIdInjective(a: string, b: string)
    requires CodeId(a) == CodeId(b)
    ensures a == b
  {
    assert CodeId(a)[5..] == a;
    assert CodeId(b)[5..] == b;
  }

  /** Pair `(a, b)` is linked and the scan resumed at row `i`, column `j` has not passed it. */
  predicate Ahead(names: seq<string>, rel: (string, string) -> bool, i: nat, j: nat, a: nat, b: nat) {
    ((a == i && j <= b) || i < a) && a < b < |names| && rel(names[a], names[b])
  }

  lemma {:induction false} PairsSound(names: seq<string>, rel: (string, string) -> bool, i: nat, j: nat, a: nat, b: nat)
    requires i < j && (a, b) in Pairs(names, rel, i, j)
    ensures Ahead(names, rel, i, j, a, b)
    decreases |names| - i, |names| - j
  {
    if j >= |names| {
      PairsSound(names, rel, i + 1, i + 2, a, b);
    } else {
      var here := if rel(names[i], names[j]) then [(i, j)] else [];
      var rest := Pairs(names, rel, i, j + 1);
      assert Pairs(names, rel, i, j) == here + rest;
      if (a, b) in here {
        assert a == i && b == j && rel(names[i], names[j]);
      } else {
        assert (a, b) in rest;
        PairsSound(names, rel, i, j + 1, a, b);
      }
    }
  }

  lemma {:induction false} PairsComplete(names: seq<string>, rel: (string, string) -> bool, i: nat, j: nat, a: nat, b: nat)
    requires i < j && Ahead(names, rel, i, j, a, b)
    ensures (a, b) in Pairs(names, rel, i, j)
    decreases |names| - i, |names| - j
  {
    if j >= |names| {
      PairsComplete(names, rel, i + 1, i + 2, a, b);
    } else {
      var here := if rel(names[i], names[j]) then [(i, j)] else [];
      assert Pairs(names, rel, i, j) == here + Pairs(names, rel, i, j + 1);
      if (a, b) != (i, j) {
        PairsComplete(names, rel, i, j + 1, a, b);
      }
    }
  }

  /** The full scan lists a pair exactly when its positions are ordered and linked. */
  lemma PairsIff(names: seq<string>, rel: (string, string) -> bool, a: nat, b: nat)
    ensures (a, b) in Pairs(names, rel, 0, 1) <==> a < b < |names| && rel(names[a], names[b])
  {
    if (a, b) in Pairs(names, rel, 0, 1) {
      PairsSound(names, rel, 0, 1, a, b);
    }
    if a < b < |names| && rel(names[a], names[b]) {
      PairsComplete(names, rel, 0, 1, a, b);
    }
  }

  /** Every animated edge is also drawn blue: the animation test is the
      case-sensitive half of the colour's API test. */
  lemma AnimatedIsBlue(rel: Relationship)
    ensures Animated(rel) ==> GetEdgeColor(rel) == Blue
  {
    if Animated(rel) {
      var t := rel.technology.value;
      var j := IndexOf(t, "API").value;
      var lt := ToLower(t);
      assert lt[j..j + 3] == "api" by {
        assert t[j..j + 3] == "API";
        assert t[j] == 'A' && t[j + 1] == 'P' && t[j + 2] == 'I';
      }
      ContainsAt(lt, "api", j);
    }
  }

  /** The layering the name test aims at: a controller's core is its entity,
      so the controller is related to that entity's service and repository. */
  lemma ControllerRelatedToLayers(e: string)
    requires !Contains(e, "Controller") && !Contains(e, "Service") && !Contains(e, "Repository")
    ensures Core(e + "Controller") == e
    ensures Related(e + "Controller", e + "Service") && Related(e + "Controller", e + "Repository")
  {
    CodeElements.ControllerEntity(e);
    ContainsAt(e + "Service", e, 0);
    ContainsAt(e + "Repository", e, 0);
  }

  /** The code view joins elements `a < b` by a "Uses" edge exactly when one
      name contains the other's core. */
  lemma UsesEdgeIffRelated(names: seq<string>, a: nat, b: nat)
    requires a < b < |names|
    ensures UsesEdge(names[a], names[b]) in UsesEdges(names) <==> Related(names[a], names[b])
  {
    var e := UsesEdge(names[a], names[b]);
    var ps := Pairs(names, Related, 0, 1);
    var us := UsesEdges(names);
    if Related(names[a], names[b]) {
      PairsIff(names, Related, a, b);
      var t :| 0 <= t < |ps| && ps[t] == (a, b);
      assert us[t] == e;
    }
    if e in us {
      var t :| 0 <= t < |us| && us[t] == e;
      var (a', b') := ps[t];
      assert ps[t] in ps;
      PairsIff(names, Related, a', b');
      CodeIdInjective(names[a'], names[a]);
      CodeIdInjective(names[b'], names[b]);
    }
  }

  /** Whatever the level and focus, no edge dangles. */
  lemma ProjectClosed(m: Model, level: Level, focus: Option<string>)
    ensures Closed(Project(m, level, focus))
  {
    if level != ContextView && focus.Some? && focus.value != "" {
      match level
      case ContainerView => ContainerDiagramClosed(m, focus.value);
      case ComponentView => ComponentDiagramClosed(m, focus.value);
      case CodeView => CodeDiagramClosed(m, focus.value);
    }
  }

  // ---------------------------------------------------------------------
  // What each zoomed view shows, both directions
  // ---------------------------------------------------------------------

  /** The edges drawn from relationships are those relationships, re-drawn. */
  lemma EdgesIff(rels: seq<Relationship>, animate: bool, e: Edge)
    ensures e in Edges(rels, animate) <==> exists rel :: rel in rels && e == RelEdge(rel, animate && Animated(rel))
  {
    if e in Edges(rels, animate) {
      var i :| 0 <= i < |rels| && Edges(rels, animate)[i] == e;
      assert rels[i] in rels;
    }
    if exists rel :: rel in rels && e == RelEdge(rel, animate && Animated(rel)) {
      var rel :| rel in rels && e == RelEdge(rel, animate && Animated(rel));
      var i :| 0 <= i < |rels| && rels[i] == rel;
      assert Edges(rels, animate)[i] == e;
    }
  }

  /** A relationship among the focused system and its own containers. */
  predicate InnerRel(m: Model, focus: string, rel: Relationship) {
    && rel in m.relationships
    && rel.sourceId in [focus] + OwnContainerIds(m, focus)
    && rel.targetId in [focus] + OwnContainerIds(m, focus)
  }

  /** A relationship between one of the focused system's containers and an
      external system other than the focus. */
  predicate OutwardRel(m: Model, focus: string, rel: Relationship) {
    && rel in m.relationships
    && ((IsOtherExternal(m.systems, rel.sourceId, focus) && rel.targetId in OwnContainerIds(m, focus))
        || (IsOtherExternal(m.systems, rel.targetId, focus) && rel.sourceId in OwnContainerIds(m, focus)))
  }

  /** A relationship between a person and the focused system or one of its containers. */
  predicate PersonalRel(m: Model, focus: string, rel: Relationship) {
    rel in m.relationships && exists p :: p in m.persons && PersonLink(rel, p.id, focus, OwnContainerIds(m, focus))
  }

  lemma OutwardRelsIff(m: Model, focus: string, rel: Relationship)
    ensures rel in ExternalRels(m.relationships, ContainerExternals(m, focus), OwnContainerIds(m, focus))
      <==> OutwardRel(m, focus, rel)
  {
    var cids := OwnContainerIds(m, focus);
    var candidates := ExternalEndpoints(m.systems, focus, m.relationships, cids);
    var exts := ContainerExternals(m, focus);
    AddNewDistinct([], candidates);
    if OutwardRel(m, focus, rel) {
      var x := if IsOtherExternal(m.systems, rel.sourceId, focus) && rel.targetId in cids then rel.sourceId else rel.targetId;
      assert Touches(rel, cids) && (x == rel.sourceId || x == rel.targetId);
      assert x in candidates;
      assert x in exts && LinksExternal(rel, x, cids);
    }
    if rel in ExternalRels(m.relationships, exts, cids) {
      var x :| x in exts && LinksExternal(rel, x, cids);
      assert x in candidates;
    }
  }

  lemma PersonalRelsIff(m: Model, focus: string, rel: Relationship)
    ensures rel in AllPersonRels(ContainerPeople(m, focus), m.relationships, focus, OwnContainerIds(m, focus))
      <==> PersonalRel(m, focus, rel)
  {
    var cids := OwnContainerIds(m, focus);
    if PersonalRel(m, focus, rel) {
      var p :| p in m.persons && PersonLink(rel, p.id, focus, cids);
      assert rel in PersonRels(m.relationships, p.id, focus, cids);
      assert p in ContainerPeople(m, focus);
    }
  }

  /** Container level: an edge is drawn exactly for a relationship among the
      system and its containers or between a container and an external
      system (both animated when the relationship is), or for one between a
      person and the system or a container (never animated). */
  lemma ContainerViewEdges(m: Model, focus: string, e: Edge)
    ensures e in ContainerDiagram(m, focus).edges <==>
      && FindSystem(m.systems, focus).Some?
      && exists rel ::
        || ((InnerRel(m, focus, rel) || OutwardRel(m, focus, rel)) && e == RelEdge(rel, Animated(rel)))
        || (PersonalRel(m, focus, rel) && e == RelEdge(rel, false))
  {
    match FindSystem(m.systems, focus)
    case None =>
    case Some(sys) =>
      var cids := OwnContainerIds(m, focus);
      var inner := Between(m.relationships, [focus] + cids);
      var outer := ExternalRels(m.relationships, ContainerExternals(m, focus), cids);
      var personal := AllPersonRels(ContainerPeople(m, focus), m.relationships, focus, cids);
      assert ContainerDiagram(m, focus).edges == Edges(inner, true) + Edges(outer, true) + Edges(personal, false);
      EdgesIff(inner, true, e);
      EdgesIff(outer, true, e);
      EdgesIff(personal, false, e);
      forall rel ensures rel in outer <==> OutwardRel(m, focus, rel) {
        OutwardRelsIff(m, focus, rel);
      }
      forall rel ensures rel in personal <==> PersonalRel(m, focus, rel) {
        PersonalRelsIff(m, focus, rel);
      }
  }

  /** Container level: the nodes after the system and its containers are the
      external systems joined to a container, then the persons joined to the
      system or a container. */
  lemma ContainerViewOthers(m: Model, focus: string, x: string)
    requires FindSystem(m.systems, focus).Some?
    ensures x in NodeIds(FoundSystems(m.systems, ContainerExternals(m, focus))) <==>
      && IsOtherExternal(m.systems, x, focus)
      && exists rel :: rel in m.relationships && Touches(rel, OwnContainerIds(m, focus)) && (x == rel.sourceId || x == rel.targetId)
    ensures forall p :: p in ContainerPeople(m, focus) <==>
      p in m.persons && exists rel :: rel in m.relationships && PersonLink(rel, p.id, focus, OwnContainerIds(m, focus))
  {
    var exts := ContainerExternals(m, focus);
    var found := FoundSystems(m.systems, exts);
    AddNewDistinct([], ExternalEndpoints(m.systems, focus, m.relationships, OwnContainerIds(m, focus)));
    if x in NodeIds(found) {
      var i :| 0 <= i < |found| && NodeIds(found)[i] == x;
      assert found[i] in found;
    }
    if x in exts {
      var s :| s in m.systems && s.id == x && s.id != focus && s.isExternal;
      SystemIdIn(m.systems, s);
    }
    forall p | p in ContainerPeople(m, focus)
      ensures exists rel :: rel in m.relationships && PersonLink(rel, p.id, focus, OwnContainerIds(m, focus))
    {
      var rs := PersonRels(m.relationships, p.id, focus, OwnContainerIds(m, focus));
      assert rs[0] in rs;
    }
    forall p | p in m.persons && exists rel :: rel in m.relationships && PersonLink(rel, p.id, focus, OwnContainerIds(m, focus))
      ensures p in ContainerPeople(m, focus)
    {
      var rel :| rel in m.relationships && PersonLink(rel, p.id, focus, OwnContainerIds(m, focus));
      assert rel in PersonRels(m.relationships, p.id, focus, OwnContainerIds(m, focus));
    }
  }

  /** Component level: an edge is drawn exactly for a relationship among the
      container and its components (never animated), or as a relationship
      re-pointed across the container's boundary. */
  lemma ComponentViewEdges(m: Model, focus: string, e: Edge)
    ensures e in ComponentDiagram(m, focus).edges <==>
      && FindContainer(m.containers, focus).Some?
      && exists rel ::
        || (&& rel in m.relationships
            && rel.sourceId in [focus] + OwnComponentIds(m, focus)
            && rel.targetId in [focus] + OwnComponentIds(m, focus)
            && e == RelEdge(rel, false))
        || (rel in m.relationships && e in CrossEdge(m, focus, ComponentOthers(m, focus), rel))
  {
    match FindContainer(m.containers, focus)
    case None =>
    case Some(c) =>
      var inner := Between(m.relationships, [focus] + OwnComponentIds(m, focus));
      var cross := CrossEdges(m, focus, ComponentOthers(m, focus), m.relationships);
      assert ComponentDiagram(m, focus).edges == Edges(inner, false) + cross;
      EdgesIff(inner, false, e);
  }

  /** Component level: a relationship from a component of the focus to a
      component of another known container is drawn from the component to
      that container, coloured like the relationship. */
  lemma ComponentViewOutgoingEdge(m: Model, focus: string, rel: Relationship)
    requires FindContainer(m.containers, focus).Some? && rel in m.relationships
    requires FindComponent(m.components, rel.sourceId).Some? && FindComponent(m.components, rel.targetId).Some?
    requires FindComponent(m.components, rel.sourceId).value.containerId == focus
    requires var x := FindComponent(m.components, rel.targetId).value.containerId;
      x != focus && x in ContainerIds(m.containers)
    ensures var sc := FindComponent(m.components, rel.sourceId).value;
      var x := FindComponent(m.components, rel.targetId).value.containerId;
      Edge("rel-" + sc.id + "-" + x, sc.id, x, rel.description, GetEdgeColor(rel), false)
        in ComponentDiagram(m, focus).edges
  {
    var sc := FindComponent(m.components, rel.sourceId).value;
    var x := FindComponent(m.components, rel.targetId).value.containerId;
    ComponentIdIn(m.components, focus, sc);
    assert Reaches(m, focus, OwnComponentIds(m, focus), rel, x);
    CrossEdgeDrawn(m, focus, rel, x);
  }

  /** The mirror case: a relationship into the focus from a component of
      another known container, when its source is none of the focus's
      component ids, is drawn from that container to the component. */
  lemma ComponentViewIncomingEdge(m: Model, focus: string, rel: Relationship)
    requires FindContainer(m.containers, focus).Some? && rel in m.relationships
    requires FindComponent(m.components, rel.sourceId).Some? && FindComponent(m.components, rel.targetId).Some?
    requires FindComponent(m.components, rel.targetId).value.containerId == focus
    requires rel.sourceId !in OwnComponentIds(m, focus)
    requires var x := FindComponent(m.components, rel.sourceId).value.containerId;
      x != focus && x in ContainerIds(m.containers)
    ensures var tc := FindComponent(m.components, rel.targetId).value;
      var x := FindComponent(m.components, rel.sourceId).value.containerId;
      Edge("rel-" + x + "-" + tc.id, x, tc.id, rel.description, GetEdgeColor(rel), false)
        in ComponentDiagram(m, focus).edges
  {
    var tc := FindComponent(m.components, rel.targetId).value;
    var x := FindComponent(m.components, rel.sourceId).value.containerId;
    ComponentIdIn(m.components, focus, tc);
    assert Reaches(m, focus, OwnComponentIds(m, focus), rel, x);
    CrossEdgeDrawn(m, focus, rel, x);
  }

  /** A relationship reaching container `x` puts its cross edge in the view. */
  lemma CrossEdgeDrawn(m: Model, focus: string, rel: Relationship, x: string)
    requires FindContainer(m.containers, focus).Some? && rel in m.relationships
    requires Reaches(m, focus, OwnComponentIds(m, focus), rel, x)
    ensures x in ComponentOthers(m, focus)
    ensures forall e :: e in CrossEdge(m, focus, ComponentOthers(m, focus), rel) ==> e in ComponentDiagram(m, focus).edges
  {
    var cands := InteractingCandidates(m, focus, OwnComponentIds(m, focus), m.relationships);
    assert x in cands;
    AddNewDistinct([], cands);
    var others := ComponentOthers(m, focus);
    var inner := Between(m.relationships, [focus] + OwnComponentIds(m, focus));
    var cross := CrossEdges(m, focus, others, m.relationships);
    assert ComponentDiagram(m, focus).edges == Edges(inner, false) + cross;
  }

  /** Component level: the containers drawn after the components are exactly
      those another container's component shares a relationship with. */
  lemma ComponentViewOthers(m: Model, focus: string, x: string)
    ensures x in NodeIds(FoundContainers(m.containers, ComponentOthers(m, focus))) <==>
      exists rel :: rel in m.relationships && Reaches(m, focus, OwnComponentIds(m, focus), rel, x)
  {
    var others := ComponentOthers(m, focus);
    var found := FoundContainers(m.containers, others);
    AddNewDistinct([], InteractingCandidates(m, focus, OwnComponentIds(m, focus), m.relationships));
    if x in NodeIds(found) {
      var i :| 0 <= i < |found| && NodeIds(found)[i] == x;
      assert found[i] in found;
    }
  }

  /** The "Uses" edges join exactly the ordered pairs of related elements. */
  lemma UsesEdgesIff(names: seq<string>, e: Edge)
    ensures e in UsesEdges(names) <==>
      exists a, b :: 0 <= a < b < |names| && Related(names[a], names[b]) && e == UsesEdge(names[a], names[b])
  {
    var ps := Pairs(names, Related, 0, 1);
    var us := UsesEdges(names);
    if e in us {
      var t :| 0 <= t < |us| && us[t] == e;
      var (a, b) := ps[t];
      assert ps[t] in ps;
      PairsIff(names, Related, a, b);
    }
    if exists a, b :: 0 <= a < b < |names| && Related(names[a], names[b]) && e == UsesEdge(names[a], names[b]) {
      var a, b :| 0 <= a < b < |names| && Related(names[a], names[b]) && e == UsesEdge(names[a], names[b]);
      UsesEdgeIffRelated(names, a, b);
    }
  }

  /** Code level: an edge is an "Implements" edge from the component to one
      element, or a "Uses" edge between two related elements. */
  lemma CodeViewEdges(k: Component, names: seq<string>, e: Edge)
    ensures e in CodeDiagramFor(k, names).edges <==>
      || (exists i :: 0 <= i < |names| && e == Edge("rel-" + k.id + "-" + names[i], k.id, CodeId(names[i]), "Implements", Purple, false))
      || (exists a, b :: 0 <= a < b < |names| && Related(names[a], names[b]) && e == UsesEdge(names[a], names[b]))
  {
    var d := CodeDiagramFor(k, names);
    assert d.edges == ImplementsEdges(k.id, names) + UsesEdges(names);
    UsesEdgesIff(names, e);
    if e in ImplementsEdges(k.id, names) {
      var i :| 0 <= i < |names| && ImplementsEdges(k.id, names)[i] == e;
    }
    if exists i :: 0 <= i < |names| && e == Edge("rel-" + k.id + "-" + names[i], k.id, CodeId(names[i]), "Implements", Purple, false) {
      var i :| 0 <= i < |names| && e == Edge("rel-" + k.id + "-" + names[i], k.id, CodeId(names[i]), "Implements", Purple, false);
      assert ImplementsEdges(k.id, names)[i] == e;
    }
  }

  // ---------------------------------------------------------------------
  // Focus
  // ---------------------------------------------------------------------

  /** A focus the model does not know draws an empty canvas. */
  lemma UnknownFocusEmpty(m: Model, level: Level, focus: string)
    requires level != ContextView && focus !in Focusable(m, level)
    ensures Project(m, level, Some(focus)) == EmptyDiagram
  {
  }

  /** A known focus is drawn, first, as a non-external node. */
  lemma KnownFocusFirst(m: Model, level: Level, focus: string)
    requires level != ContextView && focus != "" && focus in Focusable(m, level)
    ensures |Project(m, level, Some(focus)).nodes| >= 1
    ensures Project(m, level, Some(focus)).nodes[0].id == focus
    ensures level != ContainerView ==> !Project(m, level, Some(focus)).nodes[0].isExternal
  {
  }

  /** The container view of a system draws every container that system owns. */
  lemma ContainerViewShowsContainers(m: Model, focus: string, c: Container)
    requires focus != "" && focus in SystemIds(m.systems)
    requires c in m.containers && c.systemId == focus
    ensures c.id in NodeIds(Project(m, ContainerView, Some(focus)).nodes)
  {
    var cs := ContainersOf(m.containers, focus);
    var d := Project(m, ContainerView, Some(focus));
    var i :| 0 <= i < |cs| && cs[i] == c;
    assert d.nodes[1 + i] == ContainerNodes(cs, false)[i];
    assert NodeIds(d.nodes)[1 + i] == c.id;
  }

  /** The component view of a container draws every component it holds. */
  lemma ComponentViewShowsComponents(m: Model, focus: string, k: Component)
    requires focus != "" && focus in ContainerIds(m.containers)
    requires k in m.components && k.containerId == focus
    ensures k.id in NodeIds(Project(m, ComponentView, Some(focus)).nodes)
  {
    var ks := ComponentsOf(m.components, focus);
    var d := Project(m, ComponentView, Some(focus));
    var i :| 0 <= i < |ks| && ks[i] == k;
    assert d.nodes[1 + i] == ComponentNodes(ks)[i];
    assert NodeIds(d.nodes)[1 + i] == k.id;
  }

  /** The context view draws exactly the relationships among people and
      systems; those touching a container or component are not drawn. */
  lemma ContextEdgesBetweenTopLevel(m: Model, rel: Relationship)
    requires rel in m.relationships
    ensures RelEdge(rel, Animated(rel)) in ContextDiagram(m).edges <==>
      && rel.sourceId in PersonIds(m.persons) + SystemIds(m.systems)
      && rel.targetId in PersonIds(m.persons) + SystemIds(m.systems)
  {
    var d := ContextDiagram(m);
    if RelEdge(rel, Animated(rel)) in d.edges {
      var r :| r in m.relationships && RelEdge(rel, Animated(rel)) == RelEdge(r, Animated(r))
        && r.sourceId in PersonIds(m.persons) + SystemIds(m.systems)
        && r.targetId in PersonIds(m.persons) + SystemIds(m.systems);
    }
  }

  /** The code view of a component has four or five nodes: the component
      and its three or four synthesized elements. */
  lemma CodeViewSize(m: Model, focus: string)
    requires focus != "" && focus in ComponentIds(m.components)
    ensures |Project(m, CodeView, Some(focus)).nodes| == 4 || |Project(m, CodeView, Some(focus)).nodes| == 5
  {
    assert Project(m, CodeView, Some(focus)) == CodeDiagram(m, focus);
    var k := FindComponent(m.components, focus).value;
    var names := ElementNames(k);
    assert |CodeDiagramFor(k, names).nodes| == 1 + |names|;
  }

  // ---------------------------------------------------------------------
  // Where clickable nodes come from
  // ---------------------------------------------------------------------

  /** A system node of the context view is a system of the model. */
  lemma ContextSystemNode(m: Model, n: Node)
    requires n in ContextDiagram(m).nodes && n.kind == SystemNode
    ensures n.id in SystemIds(m.systems)
  {
    var d := ContextDiagram(m);
    assert d.nodes == PersonNodes(m.persons) + SystemNodes(m.systems);
    var i :| 0 <= i < |d.nodes| && d.nodes[i] == n;
    if i >= |m.persons| {
      assert n == SystemNodeOf(m.systems[i - |m.persons|]);
      assert SystemIds(m.systems)[i - |m.persons|] == n.id;
    }
  }

  /** The container view of a known system: the system, its containers, the
      interacting external systems, the interacting persons. */
  lemma ContainerViewLayout(m: Model, focus: string)
    requires FindSystem(m.systems, focus).Some?
    ensures ContainerDiagram(m, focus).nodes
      == [SystemNodeOf(FindSystem(m.systems, focus).value)] + ContainerNodes(ContainersOf(m.containers, focus), false)
         + FoundSystems(m.systems, ContainerExternals(m, focus)) + PersonNodes(ContainerPeople(m, focus))
  {
  }

  /** A container node of a container view is a container of the model. */
  lemma ContainerViewContainerNode(m: Model, focus: string, n: Node)
    requires n in ContainerDiagram(m, focus).nodes && n.kind == ContainerNode
    ensures n.id in ContainerIds(m.containers)
  {
    match FindSystem(m.systems, focus)
    case None =>
    case Some(sys) =>
      var cs := ContainersOf(m.containers, focus);
      var people := ContainerPeople(m, focus);
      var found := FoundSystems(m.systems, ContainerExternals(m, focus));
      ContainerViewLayout(m, focus);
      OnlyContainerNodes(sys, cs, found, people, n);
      ContainerNodeFrom(cs, m.containers, focus, n);
  }

  lemma OnlyContainerNodes(sys: System, cs: seq<Container>, found: seq<Node>, people: seq<Person>, n: Node)
    requires forall x :: x in found ==> x.kind == SystemNode
    requires n in [SystemNodeOf(sys)] + ContainerNodes(cs, false) + found + PersonNodes(people)
    requires n.kind == ContainerNode
    ensures n in ContainerNodes(cs, false)
  {
    PersonNodeKind(people, n);
  }

  lemma PersonNodeKind(people: seq<Person>, n: Node)
    ensures n in PersonNodes(people) ==> n.kind == PersonNode
  {
    if n in PersonNodes(people) {
      var i :| 0 <= i < |people| && PersonNodes(people)[i] == n;
    }
  }

  lemma ContainerNodeFrom(cs: seq<Container>, all: seq<Container>, focus: string, n: Node)
    requires cs == ContainersOf(all, focus) && n in ContainerNodes(cs, false)
    ensures n.id in ContainerIds(all)
  {
    var i :| 0 <= i < |cs| && ContainerNodes(cs, false)[i] == n;
    assert cs[i] in all;
    var k :| 0 <= k < |all| && all[k] == cs[i];
    assert ContainerIds(all)[k] == n.id;
  }

  /** A component node of a component view is a component of the model. */
  lemma ComponentViewComponentNode(m: Model, focus: string, n: Node)
    requires n in ComponentDiagram(m, focus).nodes && n.kind == ComponentNode
    ensures n.id in ComponentIds(m.components)
  {
    match FindContainer(m.containers, focus)
    case None =>
    case Some(c) =>
      var ks := ComponentsOf(m.components, focus);
      var kids := ComponentIds(ks);
      var others := AddNew([], InteractingCandidates(m, focus, kids, m.relationships));
      var found := FoundContainers(m.containers, others);
      var d := ComponentDiagram(m, focus);
      assert d.nodes == [Node(c.id, ContainerNode, c.name, false)] + ComponentNodes(ks) + found;
      assert n !in found;
      ComponentNodeFrom(ks, m.components, focus, n);
  }

  lemma ComponentNodeFrom(ks: seq<Component>, all: seq<Component>, focus: string, n: Node)
    requires ks == ComponentsOf(all, focus) && n in ComponentNodes(ks)
    ensures n.id in ComponentIds(all)
  {
    var i :| 0 <= i < |ks| && ComponentNodes(ks)[i] == n;
    assert ks[i] in all;
    var k :| 0 <= k < |all| && all[k] == ks[i];
    assert ComponentIds(all)[k] == n.id;
  }

  // ---------------------------------------------------------------------
  // Colours of the labels the analyzer writes
  // ---------------------------------------------------------------------

  lemma OccursAtStart(s: string)
    ensures Contains(s, s)
  {
    ContainsAt(s, s, 0);
  }

  /** Without a 'p' or an 'l', a description names neither an API nor a call. */
  lemma NoApiOrCalls(d: string)
    requires 'p' !in d && 'l' !in d
    ensures !Contains(d, "api") && !Contains(d, "calls")
  {
    AbsentChar(d, "api", 'p');
    AbsentChar(d, "calls", 'l');
  }

  /** Without an 'a' or a 'w', a description holds none of the colour words. */
  lemma NoColourWord(d: string)
    requires 'a' !in d && 'w' !in d
    ensures !Contains(d, "api") && !Contains(d, "calls") && !Contains(d, "contains")
    ensures !Contains(d, "reads") && !Contains(d, "writes") && !Contains(d, "data")
  {
    AbsentChar(d, "api", 'a');
    AbsentChar(d, "calls", 'a');
    AbsentChar(d, "contains", 'a');
    AbsentChar(d, "reads", 'a');
    AbsentChar(d, "writes", 'w');
    AbsentChar(d, "data", 'a');
  }

  /** "Contains" (no technology) is drawn gray. */
  lemma ContainsIsGray(id: string, s: string, t: string)
    ensures GetEdgeColor(Relationship(id, s, t, "Contains", None)) == Gray
  {
    assert ToLower("Contains") == "contains";
    NoApiOrCalls("contains");
    OccursAtStart("contains");
  }

  /** "Calls" is drawn blue. */
  lemma CallsIsBlue(id: string, s: string, t: string)
    ensures GetEdgeColor(Relationship(id, s, t, "Calls", None)) == Blue
  {
    assert ToLower("Calls") == "calls";
    OccursAtStart("calls");
  }

  lemma ReadsWritesLowered()
    ensures ToLower("Reads from and writes to") == "reads from and writes to"
  {
  }

  lemma ReadsWritesWords(d: string)
    requires d == "reads from and writes to"
    ensures !Contains(d, "contains") && Contains(d, "reads")
  {
    AbsentChar(d, "contains", 'c');
    ContainsAt(d, "reads", 0);
  }

  /** "Reads from and writes to" is drawn green. */
  lemma ReadsWritesIsGreen(id: string, s: string, t: string)
    ensures GetEdgeColor(Relationship(id, s, t, "Reads from and writes to", None)) == Green
  {
    ReadsWritesLowered();
    NoApiOrCalls("reads from and writes to");
    ReadsWritesWords("reads from and writes to");
  }

  /** "Uses" is blue exactly when the technology mentions an API, slate
      otherwise: a dependency's version string decides its colour. */
  lemma UsesColor(id: string, s: string, t: string, technology: Option<string>)
    ensures GetEdgeColor(Relationship(id, s, t, "Uses", technology))
      == if technology.Some? && Contains(ToLower(technology.value), "api") then Blue else Slate
  {
    assert ToLower("Uses") == "uses";
    NoColourWord("uses");
  }

  /** "Includes" (no technology) is drawn slate. */
  lemma IncludesIsSlate(id: string, s: string, t: string)
    ensures GetEdgeColor(Relationship(id, s, t, "Includes", None)) == Slate
  {
    assert ToLower("Includes") == "includes";
    NoColourWord("includes");
  }

  /** The animation test is case-sensitive: "api" alone does not animate,
      although it colours the edge blue. */
  lemma LowerApiColoursButDoesNotAnimate(id: string, s: string, t: string)
    ensures var rel := Relationship(id, s, t, "Uses", Some("rest api"));
      GetEdgeColor(rel) == Blue && !Animated(rel)
  {
    assert ToLower("rest api") == "rest api";
    ContainsAt("rest api", "api", 5);
    AbsentChar("rest api", "API", 'A');
  }
}
