/** The C4 architecture model the analyzer builds and the viewer draws:
    persons and systems at the top, containers owned by a system, components
    owned by a container, and a flat list of labelled relationships whose
    endpoints may be any entity id.
 */
module C4 {
  import opened Wrappers

  datatype Person = Person(id: string, name: string, description: string)

  /** `isExternal` is absent (falsy) on the analyzed repository's own system. */
  datatype System = System(id: string, name: string, description: string, isExternal: bool)

  datatype Container = Container(
    id: string, systemId: string, name: string, description: string, technology: string)

  datatype Component = Component(
    id: string, containerId: string, name: string, description: string, technology: string)

  datatype Relationship = Relationship(
    id: string, sourceId: string, targetId: string, description: string, technology: Option<string>)

  datatype Model = Model(
    persons: seq<Person>,
    systems: seq<System>,
    containers: seq<Container>,
    components: seq<Component>,
    relationships: seq<Relationship>)

  const EmptyModel := Model([], [], [], [], [])

  function PersonIds(ps: seq<Person>): (ids: seq<string>)
    ensures |ids| == |ps| && forall i :: 0 <= i < |ps| ==> ids[i] == ps[i].id
  {
    seq(|ps|, i requires 0 <= i < |ps| => ps[i].id)
  }

  function SystemIds(ss: seq<System>): (ids: seq<string>)
    ensures |ids| == |ss| && forall i :: 0 <= i < |ss| ==> ids[i] == ss[i].id
  {
    seq(|ss|, i requires 0 <= i < |ss| => ss[i].id)
  }

  function ContainerIds(cs: seq<Container>): (ids: seq<string>)
    ensures |ids| == |cs| && forall i :: 0 <= i < |cs| ==> ids[i] == cs[i].id
  {
    seq(|cs|, i requires 0 <= i < |cs| => cs[i].id)
  }

  function ComponentIds(ks: seq<Component>): (ids: seq<string>)
    ensures |ids| == |ks| && forall i :: 0 <= i < |ks| ==> ids[i] == ks[i].id
  {
    seq(|ks|, i requires 0 <= i < |ks| => ks[i].id)
  }

  /** No dangling foreign keys: every container names an existing system and
      every component names an existing container. */
  predicate WellFormed(m: Model) {
    && (forall i :: 0 <= i < |m.containers| ==> m.containers[i].systemId in SystemIds(m.systems))
    && (forall i :: 0 <= i < |m.components| ==> m.components[i].containerId in ContainerIds(m.containers))
  }

  /** Lookup by id, one function per entity kind: the first element with the
      id, or None. */
  function FindSystem(ss: seq<System>, id: string): (r: Option<System>)
    ensures r.Some? ==> r.value in ss && r.value.id == id
    ensures r.None? <==> id !in SystemIds(ss)
  {
    if |ss| == 0 then None
    else if ss[0].id == id then Some(ss[0])
    else
      assert SystemIds(ss) == [ss[0].id] + SystemIds(ss[1..]);
      FindSystem(ss[1..], id)
  }

  /** `find` stops at the first system with that id. */
  lemma {:induction false} FindSystemFirst(ss: seq<System>, id: string, j: nat)
    requires j < |ss| && ss[j].id == id
    requires forall k :: 0 <= k < j ==> ss[k].id != id
    ensures FindSystem(ss, id) == Some(ss[j])
  {
    if j > 0 {
      FindSystemFirst(ss[1..], id, j - 1);
    }
  }

  function FindContainer(cs: seq<Container>, id: string): (r: Option<Container>)
    ensures r.Some? ==> r.value in cs && r.value.id == id
    ensures r.None? <==> id !in ContainerIds(cs)
  {
    if |cs| == 0 then None
    else if cs[0].id == id then Some(cs[0])
    else
      assert ContainerIds(cs) == [cs[0].id] + ContainerIds(cs[1..]);
      FindContainer(cs[1..], id)
  }

  /** `find` stops at the first container with that id. */
  lemma {:induction false} FindContainerFirst(cs: seq<Container>, id: string, j: nat)
    requires j < |cs| && cs[j].id == id
    requires forall k :: 0 <= k < j ==> cs[k].id != id
    ensures FindContainer(cs, id) == Some(cs[j])
  {
    if j > 0 {
      FindContainerFirst(cs[1..], id, j - 1);
    }
  }

  function FindComponent(ks: seq<Component>, id: string): (r: Option<Component>)
    ensures r.Some? ==> r.value in ks && r.value.id == id
    ensures r.None? <==> id !in ComponentIds(ks)
  {
    if |ks| == 0 then None
    else if ks[0].id == id then Some(ks[0])
    else
      assert ComponentIds(ks) == [ks[0].id] + ComponentIds(ks[1..]);
      FindComponent(ks[1..], id)
  }

  /** `find` stops at the first component with that id. */
  lemma {:induction false} FindComponentFirst(ks: seq<Component>, id: string, j: nat)
    requires j < |ks| && ks[j].id == id
    requires forall k :: 0 <= k < j ==> ks[k].id != id
    ensures FindComponent(ks, id) == Some(ks[j])
  {
    if j > 0 {
      FindComponentFirst(ks[1..], id, j - 1);
    }
  }

  /** The containers of system `systemId`, in model order. */
  function ContainersOf(cs: seq<Container>, systemId: string): (r: seq<Container>)
    ensures forall c :: c in r <==> c in cs && c.systemId == systemId
  {
    if |cs| == 0 then []
    else if cs[0].systemId == systemId then [cs[0]] + ContainersOf(cs[1..], systemId)
    else ContainersOf(cs[1..], systemId)
  }

  /** The components of container `containerId`, in model order. */
  function ComponentsOf(ks: seq<Component>, containerId: string): (r: seq<Component>)
    ensures forall k :: k in r <==> k in ks && k.containerId == containerId
  {
    if |ks| == 0 then []
    else if ks[0].containerId == containerId then [ks[0]] + ComponentsOf(ks[1..], containerId)
    else ComponentsOf(ks[1..], containerId)
  }

  lemma ComponentsOfAppend(a: seq<Component>, b: seq<Component>, containerId: string)
    ensures ComponentsOf(a + b, containerId) == ComponentsOf(a, containerId) + ComponentsOf(b, containerId)
    decreases |a|
  {
    if |a| == 0 {
      assert a + b == b;
    } else {
      assert (a + b)[0] == a[0];
      assert (a + b)[1..] == a[1..] + b;
      ComponentsOfAppend(a[1..], b, containerId);
    }
  }
}
