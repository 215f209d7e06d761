/** `createNodesAndEdges`: the part of the model visible at one zoom level,
    as a node list and an edge list. Positions (the graph layout and the
    radial placement at the code level) are not modelled; a node keeps its
    id, kind, label and external flag, an edge its id, endpoints, label,
    stroke colour and animation flag.
 */
module Projector {
  import opened Wrappers
  import opened Strings
  import opened C4
  import opened Dependencies
  import CodeElements

  datatype Level = ContextView | ContainerView | ComponentView | CodeView

  datatype NodeKind = PersonNode | SystemNode | ContainerNode | ComponentNode | CodeNode

  datatype Node = Node(id: string, kind: NodeKind, caption: string, isExternal: bool)

  datatype Color = Blue | Gray | Green | Slate | Purple

  datatype Edge = Edge(id: string, source: string, target: string, caption: string, color: Color, animated: bool)

  datatype Diagram = Diagram(nodes: seq<Node>, edges: seq<Edge>)

  const EmptyDiagram := Diagram([], [])

  // ---------------------------------------------------------------------
  // Edge colour
  // ---------------------------------------------------------------------

  /** A relationship looks like an API call: "api" in its lower-cased
      description or technology, or "calls" in its description. */
  predicate ApiLike(rel: Relationship) {
    || Contains(ToLower(rel.description), "api")
    || (rel.technology.Some? && Contains(ToLower(rel.technology.value), "api"))
    || Contains(ToLower(rel.description), "calls")
  }

  predicate DataLike(rel: Relationship) {
    var d := ToLower(rel.description);
    Contains(d, "reads") || Contains(d, "writes") || Contains(d, "data")
  }

  /** The stroke colour of a relationship's edge, chosen from its
      description and technology. */
  function GetEdgeColor(rel: Relationship): (r: Color)
    ensures r == Blue <==> ApiLike(rel)
    ensures r == Gray <==> !ApiLike(rel) && Contains(ToLower(rel.description), "contains")
    ensures r == Green <==> !ApiLike(rel) && !Contains(ToLower(rel.description), "contains") && DataLike(rel)
    ensures r != Purple
  {
    var d := ToLower(rel.description);
    if Contains(d, "api") || (rel.technology.Some? && Contains(ToLower(rel.technology.value), "api"))
       || Contains(d, "calls") then Blue
    else if Contains(d, "contains") then Gray
    else if Contains(d, "reads") || Contains(d, "writes") || Contains(d, "data") then Green
    else Slate
  }

  /** Whether the edge is animated: the technology mentions "API", matched
      case-sensitively; no technology means no animation. */
  predicate Animated(rel: Relationship) {
    rel.technology.Some? && Contains(rel.technology.value, "API")
  }

  function RelEdge(rel: Relationship, animated: bool): (e: Edge)
    ensures e.id == rel.id && e.source == rel.sourceId && e.target == rel.targetId
    ensures e.caption == rel.description
  {
    Edge(rel.id, rel.sourceId, rel.targetId, rel.description, GetEdgeColor(rel), animated)
  }

  // ---------------------------------------------------------------------
  // Nodes
  // ---------------------------------------------------------------------

  function PersonNodes(ps: seq<Person>): (ns: seq<Node>)
    ensures |ns| == |ps| && forall i :: 0 <= i < |ps| ==> ns[i].id == ps[i].id && ns[i].kind == PersonNode
  {
    seq(|ps|, i requires 0 <= i < |ps| => Node(ps[i].id, PersonNode, ps[i].name, false))
  }

  function SystemNodeOf(s: System): Node {
    Node(s.id, SystemNode, s.name, s.isExternal)
  }

  function SystemNodes(ss: seq<System>): (ns: seq<Node>)
    ensures |ns| == |ss| && forall i :: 0 <= i < |ss| ==> ns[i] == SystemNodeOf(ss[i])
  {
    seq(|ss|, i requires 0 <= i < |ss| => SystemNodeOf(ss[i]))
  }

  function ContainerNodes(cs: seq<Container>, isExternal: bool): (ns: seq<Node>)
    ensures |ns| == |cs| && forall i :: 0 <= i < |cs| ==> ns[i].id == cs[i].id && ns[i].kind == ContainerNode
  {
    seq(|cs|, i requires 0 <= i < |cs| => Node(cs[i].id, ContainerNode, cs[i].name, isExternal))
  }

  function ComponentNodes(ks: seq<Component>): (ns: seq<Node>)
    ensures |ns| == |ks| && forall i :: 0 <= i < |ks| ==> ns[i].id == ks[i].id && ns[i].kind == ComponentNode
  {
    seq(|ks|, i requires 0 <= i < |ks| => Node(ks[i].id, ComponentNode, ks[i].name, false))
  }

  function NodeIds(ns: seq<Node>): (ids: seq<string>)
    ensures |ids| == |ns| && forall i :: 0 <= i < |ns| ==> ids[i] == ns[i].id
  {
    seq(|ns|, i requires 0 <= i < |ns| => ns[i].id)
  }
  lemma NodeIdsAppend(a: seq<Node>, b: seq<Node>)
    ensures NodeIds(a + b) == NodeIds(a) + NodeIds(b)
  {
    assert forall i :: 0 <= i < |a + b| ==> NodeIds(a + b)[i] == (NodeIds(a) + NodeIds(b))[i];
  }


  /** Every edge starts and ends at a node of the diagram. */
  predicate Closed(d: Diagram) {
    forall e :: e in d.edges ==> e.source in NodeIds(d.nodes) && e.target in NodeIds(d.nodes)
  }

  // ---------------------------------------------------------------------
  // Relationship filters
  // ---------------------------------------------------------------------

  /** The relationships with both endpoints among `ids`, in order. */
  function Between(rels: seq<Relationship>, ids: seq<string>): (r: seq<Relationship>)
    ensures forall rel :: rel in r <==> rel in rels && rel.sourceId in ids && rel.targetId in ids
  {
    if |rels| == 0 then []
    else if rels[0].sourceId in ids && rels[0].targetId in ids then [rels[0]] + Between(rels[1..], ids)
    else Between(rels[1..], ids)
  }

  function Edges(rels: seq<Relationship>, animate: bool): (es: seq<Edge>)
    ensures |es| == |rels|
    ensures forall i :: 0 <= i < |rels| ==> es[i] == RelEdge(rels[i], animate && Animated(rels[i]))
  {
    seq(|rels|, i requires 0 <= i < |rels| => RelEdge(rels[i], animate && Animated(rels[i])))
  }

  // ---------------------------------------------------------------------
  // Context level
  // ---------------------------------------------------------------------

  /** All persons, then all systems; the relationships among them. */
  function ContextDiagram(m: Model): (d: Diagram)
    ensures NodeIds(d.nodes) == PersonIds(m.persons) + SystemIds(m.systems)
    ensures forall e :: e in d.edges <==>
      exists rel :: rel in m.relationships && e == RelEdge(rel, Animated(rel))
        && rel.sourceId in PersonIds(m.persons) + SystemIds(m.systems)
        && rel.targetId in PersonIds(m.persons) + SystemIds(m.systems)
    ensures Closed(d)
  {
    var ids := PersonIds(m.persons) + SystemIds(m.systems);
    var d := Diagram(PersonNodes(m.persons) + SystemNodes(m.systems), Edges(Between(m.relationships, ids), true));
    assert NodeIds(d.nodes) == ids;
    EdgesBetween(m.relationships, ids);
    d
  }

  /** The animated edges of the relationships between `ids`. */
  lemma EdgesBetween(rels: seq<Relationship>, ids: seq<string>)
    ensures forall e :: e in Edges(Between(rels, ids), true) <==>
      exists rel :: rel in rels && e == RelEdge(rel, Animated(rel)) && rel.sourceId in ids && rel.targetId in ids
  {
    var shown := Between(rels, ids);
    forall e | e in Edges(shown, true)
      ensures exists rel :: rel in rels && e == RelEdge(rel, Animated(rel)) && rel.sourceId in ids && rel.targetId in ids
    {
      var i :| 0 <= i < |shown| && Edges(shown, true)[i] == e;
      assert shown[i] in shown;
    }
    forall rel | rel in rels && rel.sourceId in ids && rel.targetId in ids
      ensures RelEdge(rel, Animated(rel)) in Edges(shown, true)
    {
      var i :| 0 <= i < |shown| && shown[i] == rel;
      assert Edges(shown, true)[i] == RelEdge(rel, Animated(rel));
    }
  }

  // ---------------------------------------------------------------------
  // Container level
  // ---------------------------------------------------------------------

  /** A system other than the focus that is marked external. */
  predicate IsOtherExternal(ss: seq<System>, id: string, focus: string) {
    exists s :: s in ss && s.id == id && s.id != focus && s.isExternal
  }

  predicate Touches(rel: Relationship, ids: seq<string>) {
    rel.sourceId in ids || rel.targetId in ids
  }

  /** External endpoints of the relationships touching a container, source
      before target, relationship by relationship (duplicates included). */
  function ExternalEndpoints(ss: seq<System>, focus: string, rels: seq<Relationship>, cids: seq<string>): (r: seq<string>)
    ensures forall x :: x in r ==> IsOtherExternal(ss, x, focus)
    ensures forall x :: x in r <==> exists rel :: (rel in rels && Touches(rel, cids) && IsOtherExternal(ss, x, focus)
      && (x == rel.sourceId || x == rel.targetId))
  {
    if |rels| == 0 then []
    else
      var rel := rels[0];
      var here := (if Touches(rel, cids) && IsOtherExternal(ss, rel.sourceId, focus) then [rel.sourceId] else [])
        + (if Touches(rel, cids) && IsOtherExternal(ss, rel.targetId, focus) then [rel.targetId] else []);
      var rest := ExternalEndpoints(ss, focus, rels[1..], cids);
      assert forall r' :: r' in rels <==> r' == rel || r' in rels[1..];
      here + rest
  }

  /** Nodes for the external systems, looked up by id. */
  function FoundSystems(ss: seq<System>, ids: seq<string>): (ns: seq<Node>)
    ensures forall n :: n in ns ==> n.id in ids && n.kind == SystemNode
    ensures forall x :: x in ids && x in SystemIds(ss) ==> x in NodeIds(ns)
  {
    if |ids| == 0 then []
    else
      var rest := FoundSystems(ss, ids[1..]);
      var here := match FindSystem(ss, ids[0]) case Some(s) => [SystemNodeOf(s)] case None => [];
      assert forall n :: n in here ==> n.id == ids[0] && n.kind == SystemNode;
      NodeIdsAppend(here, rest);
      assert ids[0] in SystemIds(ss) ==> NodeIds(here) == [ids[0]];
      here + rest
  }

  /** The relationships between `ext` and one of the containers. */
  predicate LinksExternal(rel: Relationship, ext: string, cids: seq<string>) {
    (rel.sourceId == ext && rel.targetId in cids) || (rel.targetId == ext && rel.sourceId in cids)
  }

  function ExternalRels(rels: seq<Relationship>, exts: seq<string>, cids: seq<string>): (r: seq<Relationship>)
    ensures forall rel :: rel in r <==> rel in rels && exists x :: x in exts && LinksExternal(rel, x, cids)
  {
    if |exts| == 0 then []
    else
      var rest := ExternalRels(rels, exts[1..], cids);
      assert forall x :: x in exts <==> x == exts[0] || x in exts[1..];
      Linking(rels, exts[0], cids) + rest
  }

  function Linking(rels: seq<Relationship>, ext: string, cids: seq<string>): (r: seq<Relationship>)
    ensures forall rel :: rel in r <==> rel in rels && LinksExternal(rel, ext, cids)
  {
    if |rels| == 0 then []
    else if LinksExternal(rels[0], ext, cids) then [rels[0]] + Linking(rels[1..], ext, cids)
    else Linking(rels[1..], ext, cids)
  }

  /** A relationship between the person and the focus or one of its containers. */
  predicate PersonLink(rel: Relationship, pid: string, focus: string, cids: seq<string>) {
    || (rel.sourceId == pid && (rel.targetId == focus || rel.targetId in cids))
    || (rel.targetId == pid && (rel.sourceId == focus || rel.sourceId in cids))
  }

  function PersonRels(rels: seq<Relationship>, pid: string, focus: string, cids: seq<string>): (r: seq<Relationship>)
    ensures forall rel :: rel in r <==> rel in rels && PersonLink(rel, pid, focus, cids)
  {
    if |rels| == 0 then []
    else if PersonLink(rels[0], pid, focus, cids) then [rels[0]] + PersonRels(rels[1..], pid, focus, cids)
    else PersonRels(rels[1..], pid, focus, cids)
  }

  /** The persons with at least one such relationship, in order. */
  function InteractingPersons(ps: seq<Person>, rels: seq<Relationship>, focus: string, cids: seq<string>): (r: seq<Person>)
    ensures forall p :: p in r <==> p in ps && |PersonRels(rels, p.id, focus, cids)| > 0
  {
    if |ps| == 0 then []
    else if |PersonRels(rels, ps[0].id, focus, cids)| > 0 then [ps[0]] + InteractingPersons(ps[1..], rels, focus, cids)
    else InteractingPersons(ps[1..], rels, focus, cids)
  }

  function AllPersonRels(ps: seq<Person>, rels: seq<Relationship>, focus: string, cids: seq<string>): (r: seq<Relationship>)
    ensures forall rel :: rel in r <==> exists p :: p in ps && rel in rels && PersonLink(rel, p.id, focus, cids)
  {
    if |ps| == 0 then []
    else
      var rest := AllPersonRels(ps[1..], rels, focus, cids);
      assert forall p :: p in ps <==> p == ps[0] || p in ps[1..];
      PersonRels(rels, ps[0].id, focus, cids) + rest
  }

  lemma MiddleSlice<T>(a: seq<T>, b: seq<T>, c: seq<T>)
    ensures (a + b + c)[|a|..|a| + |b|] == b
  {
    assert (a + b + c)[|a|..] == b + c;
  }

  lemma TailSlice<T>(a: seq<T>, b: seq<T>, c: seq<T>)
    ensures (a + b + c)[|a| + |b|..] == c
  {
    assert a + b + c == (a + b) + c;
  }

  /** The ids of the focused system's containers. */
  function OwnContainerIds(m: Model, focus: string): seq<string> {
    ContainerIds(ContainersOf(m.containers, focus))
  }

  /** `externalSystemIds`: the external systems touching one of the
      containers, each once, in order of first appearance. */
  function ContainerExternals(m: Model, focus: string): seq<string> {
    AddNew([], ExternalEndpoints(m.systems, focus, m.relationships, OwnContainerIds(m, focus)))
  }

  /** The persons linked to the focused system or one of its containers. */
  function ContainerPeople(m: Model, focus: string): seq<Person> {
    InteractingPersons(m.persons, m.relationships, focus, OwnContainerIds(m, focus))
  }

  /** The focused system; its containers; the external systems linked to
      those containers; the persons linked to the system or its containers. */
  function ContainerDiagram(m: Model, focus: string): (d: Diagram)
    ensures FindSystem(m.systems, focus).None? ==> d == EmptyDiagram
    ensures FindSystem(m.systems, focus).Some? ==>
      && |d.nodes| >= 1 + |ContainersOf(m.containers, focus)|
      && d.nodes[0] == SystemNodeOf(FindSystem(m.systems, focus).value)
      && d.nodes[1..|ContainersOf(m.containers, focus)| + 1]
         == ContainerNodes(ContainersOf(m.containers, focus), false)
      && d.nodes[|ContainersOf(m.containers, focus)| + 1..]
         == FoundSystems(m.systems, ContainerExternals(m, focus)) + PersonNodes(ContainerPeople(m, focus))
  {
    match FindSystem(m.systems, focus)
    case None => EmptyDiagram
    case Some(sys) =>
      var cs := ContainersOf(m.containers, focus);
      var cids := ContainerIds(cs);
      var exts := ContainerExternals(m, focus);
      var people := ContainerPeople(m, focus);
      var shown := ContainerNodes(cs, false);
      var others := FoundSystems(m.systems, exts) + PersonNodes(people);
      MiddleSlice([SystemNodeOf(sys)], shown, others);
      TailSlice([SystemNodeOf(sys)], shown, others);
      Diagram(
        [SystemNodeOf(sys)] + shown + others,
        Edges(Between(m.relationships, [focus] + cids), true)
        + Edges(ExternalRels(m.relationships, exts, cids), true)
        + Edges(AllPersonRels(people, m.relationships, focus, cids), false))
  }

  // ---------------------------------------------------------------------
  // Component level
  // ---------------------------------------------------------------------

  /** The container of component `id`, when that component exists, is not
      the focus, and the container exists. */
  function ForeignContainerOf(m: Model, id: string, focus: string): (r: Option<string>)
    ensures r.Some? ==> r.value != focus && r.value in ContainerIds(m.containers)
  {
    match FindComponent(m.components, id)
    case None => None
    case Some(k) =>
      if k.containerId != focus && FindContainer(m.containers, k.containerId).Some? then Some(k.containerId)
      else None
  }

  /** Containers reached from the focused container's components, relationship
      by relationship (duplicates included). */
  function InteractingCandidates(m: Model, focus: string, kids: seq<string>, rels: seq<Relationship>): (r: seq<string>)
    ensures forall x :: x in r ==> x != focus && x in ContainerIds(m.containers)
    ensures forall x :: x in r <==> exists rel :: rel in rels && Reaches(m, focus, kids, rel, x)
  {
    if |rels| == 0 then []
    else
      var rel := rels[0];
      var other := if rel.sourceId in kids then ForeignContainerOf(m, rel.targetId, focus)
                   else if rel.targetId in kids then ForeignContainerOf(m, rel.sourceId, focus)
                   else None;
      assert forall r' :: r' in rels <==> r' == rel || r' in rels[1..];
      assert forall x :: Reaches(m, focus, kids, rel, x) <==> other == Some(x);
      (if other.Some? then [other.value] else []) + InteractingCandidates(m, focus, kids, rels[1..])
  }

  /** `rel` runs from one of the focused container's components `kids` to a
      component of container `x`, or, when its source is not one of them,
      from a component of `x` into one of them. */
  predicate Reaches(m: Model, focus: string, kids: seq<string>, rel: Relationship, x: string) {
    if rel.sourceId in kids then ForeignContainerOf(m, rel.targetId, focus) == Some(x)
    else rel.targetId in kids && ForeignContainerOf(m, rel.sourceId, focus) == Some(x)
  }

  function FoundContainers(cs: seq<Container>, ids: seq<string>): (ns: seq<Node>)
    ensures forall n :: n in ns ==> n.id in ids && n.isExternal && n.kind == ContainerNode
    ensures forall x :: x in ids && x in ContainerIds(cs) ==> x in NodeIds(ns)
  {
    if |ids| == 0 then []
    else
      var rest := FoundContainers(cs, ids[1..]);
      var here := match FindContainer(cs, ids[0])
        case Some(c) => [Node(c.id, ContainerNode, c.name, true)]
        case None => [];
      assert forall n :: n in here ==> n.id == ids[0];
      NodeIdsAppend(here, rest);
      assert ids[0] in ContainerIds(cs) ==> NodeIds(here) == [ids[0]];
      here + rest
  }


  /** A relationship from a component of the focused container to a component
      of a shown container `x` is drawn from the component to `x`. */
  predicate Outgoing(m: Model, focus: string, others: seq<string>, rel: Relationship) {
    && FindComponent(m.components, rel.sourceId).Some?
    && FindComponent(m.components, rel.targetId).Some?
    && FindComponent(m.components, rel.sourceId).value.containerId == focus
    && FindComponent(m.components, rel.targetId).value.containerId in others
  }

  /** The mirror case, tried only when the relationship is not outgoing: from
      a shown container's component into the focused container. */
  predicate Incoming(m: Model, focus: string, others: seq<string>, rel: Relationship) {
    && FindComponent(m.components, rel.sourceId).Some?
    && FindComponent(m.components, rel.targetId).Some?
    && FindComponent(m.components, rel.targetId).value.containerId == focus
    && FindComponent(m.components, rel.sourceId).value.containerId in others
  }

  /** A component relationship crossing into or out of the focused container,
      re-pointed at the other component's container. */
  function CrossEdge(m: Model, focus: string, others: seq<string>, rel: Relationship): (r: seq<Edge>)
    ensures |r| <= 1
    ensures forall e :: e in r ==>
      || (e.source in ComponentIds(ComponentsOf(m.components, focus)) && e.target in others)
      || (e.source in others && e.target in ComponentIds(ComponentsOf(m.components, focus)))
    ensures forall e :: e in r ==>
      && e.id == "rel-" + e.source + "-" + e.target && e.caption == rel.description
      && e.color == GetEdgeColor(rel) && !e.animated
    ensures Outgoing(m, focus, others, rel) ==>
      var sc := FindComponent(m.components, rel.sourceId).value;
      var tc := FindComponent(m.components, rel.targetId).value;
      r == [Edge("rel-" + sc.id + "-" + tc.containerId, sc.id, tc.containerId, rel.description, GetEdgeColor(rel), false)]
    ensures !Outgoing(m, focus, others, rel) && Incoming(m, focus, others, rel) ==>
      var sc := FindComponent(m.components, rel.sourceId).value;
      var tc := FindComponent(m.components, rel.targetId).value;
      r == [Edge("rel-" + sc.containerId + "-" + tc.id, sc.containerId, tc.id, rel.description, GetEdgeColor(rel), false)]
    ensures r == [] <==> !Outgoing(m, focus, others, rel) && !Incoming(m, focus, others, rel)
  {
    match (FindComponent(m.components, rel.sourceId), FindComponent(m.components, rel.targetId))
    case (Some(sc), Some(tc)) =>
      if sc.containerId == focus && tc.containerId in others then
        ComponentIdIn(m.components, focus, sc);
        [Edge("rel-" + sc.id + "-" + tc.containerId, sc.id, tc.containerId, rel.description, GetEdgeColor(rel), false)]
      else if tc.containerId == focus && sc.containerId in others then
        ComponentIdIn(m.components, focus, tc);
        [Edge("rel-" + sc.containerId + "-" + tc.id, sc.containerId, tc.id, rel.description, GetEdgeColor(rel), false)]
      else []
    case _ => []
  }

  lemma ComponentIdIn(ks: seq<Component>, containerId: string, k: Component)
    requires k in ks && k.containerId == containerId
    ensures k.id in ComponentIds(ComponentsOf(ks, containerId))
  {
    var own := ComponentsOf(ks, containerId);
    var i :| 0 <= i < |own| && own[i] == k;
    assert ComponentIds(own)[i] == k.id;
  }

  function CrossEdges(m: Model, focus: string, others: seq<string>, rels: seq<Relationship>): (r: seq<Edge>)
    ensures forall e :: e in r ==>
      || (e.source in ComponentIds(ComponentsOf(m.components, focus)) && e.target in others)
      || (e.source in others && e.target in ComponentIds(ComponentsOf(m.components, focus)))
    ensures forall e :: e in r ==> e.id == "rel-" + e.source + "-" + e.target && !e.animated
    ensures forall e :: e in r <==> exists rel :: rel in rels && e in CrossEdge(m, focus, others, rel)
  {
    if |rels| == 0 then []
    else
      assert forall r' :: r' in rels <==> r' == rels[0] || r' in rels[1..];
      CrossEdge(m, focus, others, rels[0]) + CrossEdges(m, focus, others, rels[1..])
  }

  /** The ids of the focused container's components. */
  function OwnComponentIds(m: Model, focus: string): seq<string> {
    ComponentIds(ComponentsOf(m.components, focus))
  }

  /** `interactingContainerIds`: the other containers reached from the
      focused container's components, each once, in order of first appearance. */
  function ComponentOthers(m: Model, focus: string): seq<string> {
    AddNew([], InteractingCandidates(m, focus, OwnComponentIds(m, focus), m.relationships))
  }

  /** The focused container; its components; the containers its components
      talk to, marked external; cross-container edges re-pointed at them. */
  function ComponentDiagram(m: Model, focus: string): (d: Diagram)
    ensures FindContainer(m.containers, focus).None? ==> d == EmptyDiagram
    ensures FindContainer(m.containers, focus).Some? ==>
      && |d.nodes| >= 1 + |ComponentsOf(m.components, focus)|
      && d.nodes[0].id == focus && !d.nodes[0].isExternal
      && d.nodes[1..|ComponentsOf(m.components, focus)| + 1] == ComponentNodes(ComponentsOf(m.components, focus))
      && d.nodes[|ComponentsOf(m.components, focus)| + 1..]
         == FoundContainers(m.containers, ComponentOthers(m, focus))
  {
    match FindContainer(m.containers, focus)
    case None => EmptyDiagram
    case Some(c) =>
      var ks := ComponentsOf(m.components, focus);
      var kids := ComponentIds(ks);
      var others := ComponentOthers(m, focus);
      TailSlice([Node(c.id, ContainerNode, c.name, false)], ComponentNodes(ks), FoundContainers(m.containers, others));
      Diagram(
        [Node(c.id, ContainerNode, c.name, false)] + ComponentNodes(ks) + FoundContainers(m.containers, others),
        Edges(Between(m.relationships, [focus] + kids), false) + CrossEdges(m, focus, others, m.relationships))
  }

  // ---------------------------------------------------------------------
  // Code level
  // ---------------------------------------------------------------------

  function CodeId(name: string): string { "code-" + name }

  /** The name with its first "Controller", then first "Service", then first
      "Repository" removed. */
  function Core(name: string): string {
    ReplaceFirst(ReplaceFirst(ReplaceFirst(name, "Controller", ""), "Service", ""), "Repository", "")
  }

  predicate Related(a: string, b: string) {
    Contains(b, Core(a)) || Contains(a, Core(b))
  }

  function UsesEdge(a: string, b: string): Edge {
    Edge("rel-" + a + "-" + b, CodeId(a), CodeId(b), "Uses", Gray, false)
  }

  /** The position pairs `rel` links, in the order of the nested scan
      "for each `a`, for each `b > a`", resumed at row `i`, column `j`. */
  function Pairs(names: seq<string>, rel: (string, string) -> bool, i: nat, j: nat): (ps: seq<(nat, nat)>)
    requires i < j
    ensures forall t :: 0 <= t < |ps| ==> i <= ps[t].0 < ps[t].1 < |names|
    decreases |names| - i, |names| - j
  {
    if i >= |names| then []
    else if j >= |names| then Pairs(names, rel, i + 1, i + 2)
    else (if rel(names[i], names[j]) then [(i, j)] else []) + Pairs(names, rel, i, j + 1)
  }

  /** One "Uses" edge per related pair, in the order of the nested scan. */
  function UsesEdges(names: seq<string>): (r: seq<Edge>)
    ensures |r| == |Pairs(names, Related, 0, 1)|
    ensures forall t :: 0 <= t < |r| ==>
      r[t] == UsesEdge(names[Pairs(names, Related, 0, 1)[t].0], names[Pairs(names, Related, 0, 1)[t].1])
  {
    var ps := Pairs(names, Related, 0, 1);
    seq(|ps|, t requires 0 <= t < |ps| => UsesEdge(names[ps[t].0], names[ps[t].1]))
  }

  /** The names of the elements synthesized for a component. */
  function ElementNames(k: Component): (names: seq<string>)
    ensures |names| == 3 || |names| == 4
  {
    CodeElements.Names(CodeElements.GenerateCodeElements(k.name, k.technology))
  }

  function CodeNodes(names: seq<string>): (ns: seq<Node>)
    ensures |ns| == |names|
    ensures forall i :: 0 <= i < |names| ==> ns[i].id == CodeId(names[i]) && ns[i].kind == CodeNode
  {
    seq(|names|, i requires 0 <= i < |names| => Node(CodeId(names[i]), CodeNode, names[i], false))
  }

  function ImplementsEdges(kid: string, names: seq<string>): (es: seq<Edge>)
    ensures |es| == |names|
    ensures forall i :: 0 <= i < |names| ==>
      es[i] == Edge("rel-" + kid + "-" + names[i], kid, CodeId(names[i]), "Implements", Purple, false)
  {
    seq(|names|, i requires 0 <= i < |names| =>
      Edge("rel-" + kid + "-" + names[i], kid, CodeId(names[i]), "Implements", Purple, false))
  }

  /** The component; one node per element name; an "Implements" edge to
      each; "Uses" edges between related elements. */
  function CodeDiagramFor(k: Component, names: seq<string>): (d: Diagram)
    ensures |d.nodes| == 1 + |names| && d.nodes[0] == Node(k.id, ComponentNode, k.name, false)
    ensures |d.edges| >= |names|
    ensures d.nodes[1..] == CodeNodes(names)
    ensures d.edges[..|names|] == ImplementsEdges(k.id, names)
    ensures d.edges[|names|..] == UsesEdges(names)
  {
    var elements := CodeNodes(names);
    var implements := ImplementsEdges(k.id, names);
    var d := Diagram([Node(k.id, ComponentNode, k.name, false)] + elements, implements + UsesEdges(names));
    assert d.nodes[1..] == elements;
    assert d.edges[..|names|] == implements;
    assert d.edges[|names|..] == UsesEdges(names);
    d
  }

  /** The focused component and the elements synthesized for it. */
  function CodeDiagram(m: Model, focus: string): (d: Diagram)
    ensures FindComponent(m.components, focus).None? ==> d == EmptyDiagram
    ensures FindComponent(m.components, focus).Some? ==>
      d == CodeDiagramFor(FindComponent(m.components, focus).value, ElementNames(FindComponent(m.components, focus).value))
  {
    match FindComponent(m.components, focus)
    case None => EmptyDiagram
    case Some(k) => CodeDiagramFor(k, ElementNames(k))
  }

  // ---------------------------------------------------------------------
  // Dispatch
  // ---------------------------------------------------------------------

  /** The ids a focus may name at each zoomed level. */
  function Focusable(m: Model, level: Level): seq<string> {
    match level
    case ContextView => []
    case ContainerView => SystemIds(m.systems)
    case ComponentView => ContainerIds(m.containers)
    case CodeView => ComponentIds(m.components)
  }

  /** `createNodesAndEdges(model, viewLevel, focusId)`: the context level
      ignores the focus; every other level needs a non-empty one. */
  function Project(m: Model, level: Level, focus: Option<string>): (d: Diagram)
    ensures level != ContextView && (focus.None? || focus.value == "") ==> d == EmptyDiagram
  {
    if level == ContextView then ContextDiagram(m)
    else if focus.None? || focus.value == "" then EmptyDiagram
    else match level
      case ContainerView => ContainerDiagram(m, focus.value)
      case ComponentView => ComponentDiagram(m, focus.value)
      case CodeView => CodeDiagram(m, focus.value)
  }
}
