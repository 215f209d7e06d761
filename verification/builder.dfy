/** `analyzeRepository` as a pure fold over already-fetched data.

    The four kinds of call the analyzer makes to the hosting API become
    inputs: the repository metadata, the root listing, the decoded
    `package.json`, and one listing per container directory (a function
    from the directory's path to its fetch outcome). A thrown error is
    `FetchFailed`; where the analyzer catches it decides how much of the
    model survives:
    - metadata failure: nothing at all;
    - root listing or manifest failure: the seed (main system, user, the
      user's relationship) and nothing more;
    - one container listing failure: that container keeps its "Contains"
      relationship and gets no components; the rest carry on.
 */
module Builder {
  import opened Wrappers
  import opened Strings
  import opened C4
  import opened Classify
  import opened Dependencies

  // ---------------------------------------------------------------------
  // Inputs
  // ---------------------------------------------------------------------

  /** Entry types of a content listing; symlinks and submodules are `OtherEntry`. */
  datatype EntryKind = FileEntry | DirEntry | OtherEntry

  datatype Entry = Entry(name: string, path: string, kind: EntryKind)

  /** A content fetch returns an array for a directory and a single object for a file. */
  datatype Listing = Directory(items: seq<Entry>) | SingleItem

  datatype RepoData = RepoData(name: string, description: Option<string>, language: Option<string>)

  /** The manifest fetch: a decoded file, or a response without a `content` field. */
  datatype Manifest = Decoded(dependencies: Entries, devDependencies: Entries) | NoContent

  datatype Inputs = Inputs(
    metadata: Fetch<RepoData>,
    root: Fetch<Listing>,
    manifest: Fetch<Manifest>,
    listingOf: string -> Fetch<Listing>)

  // ---------------------------------------------------------------------
  // Ids and the seed
  // ---------------------------------------------------------------------

  const UserId := "user-general"

  const User := Person(UserId, "User", "A user of the system")

  /** Root directories that become containers, matched exactly. */
  const ContainerDirectories := ["src", "app", "lib", "packages", "components", "services", "api"]

  function MainId(repo: string): string { "system-" + repo }

  function ExternalId(dep: string): string { "system-external-" + dep }

  function ContainerId(dirName: string): string { "container-" + dirName }

  function ComponentId(dirName: string, name: string): string { "component-" + dirName + "-" + name }

  /** Every relationship id is `rel-{source}-{target}`. */
  function Link(sourceId: string, targetId: string, description: string, technology: Option<string>): (r: Relationship)
    ensures r.sourceId == sourceId && r.targetId == targetId && r.description == description
  {
    Relationship("rel-" + sourceId + "-" + targetId, sourceId, targetId, description, technology)
  }

  /** The main system is named after the metadata but keyed by the `repo` argument. */
  function MainSystem(repo: string, data: RepoData): System {
    System(MainId(repo), data.name, OrElse(data.description, data.name + " system"), false)
  }

  function UserUses(repo: string): Relationship {
    Link(UserId, MainId(repo), "Uses", None)
  }

  function Seeded(repo: string, data: RepoData): Model {
    Model([User], [MainSystem(repo, data)], [], [], [UserUses(repo)])
  }

  /** Ids built from a prefix that does not start with 'u' are never the user's. */
  lemma NotUser(prefix: string, rest: string)
    requires |prefix| > 0 && prefix[0] != 'u'
    ensures prefix + rest != UserId
  {
    assert (prefix + rest)[0] == prefix[0];
  }

  // ---------------------------------------------------------------------
  // External systems from the manifest
  // ---------------------------------------------------------------------

  function ExternalSystem(dep: string): System {
    System(ExternalId(dep), dep, "External " + dep + " system", true)
  }

  /** One external system per dependency, and a "Uses" relationship from
      the main system carrying the version string as its technology. */
  function WithDependencies(m: Model, mainId: string, deps: Entries): (r: Model)
    ensures r.persons == m.persons && r.containers == m.containers && r.components == m.components
    ensures r.systems == m.systems + seq(|deps|, i requires 0 <= i < |deps| => ExternalSystem(deps[i].0))
    ensures r.relationships == m.relationships
      + seq(|deps|, i requires 0 <= i < |deps| => Link(mainId, ExternalId(deps[i].0), "Uses", Some(deps[i].1)))
  {
    m.(systems := m.systems + seq(|deps|, i requires 0 <= i < |deps| => ExternalSystem(deps[i].0)),
       relationships := m.relationships
         + seq(|deps|, i requires 0 <= i < |deps| => Link(mainId, ExternalId(deps[i].0), "Uses", Some(deps[i].1))))
  }

  // ---------------------------------------------------------------------
  // Containers and components
  // ---------------------------------------------------------------------

  predicate IsRelevantDir(e: Entry) {
    e.kind == DirEntry && e.name in ContainerDirectories
  }

  function RelevantDirs(items: seq<Entry>): (r: seq<Entry>)
    ensures forall e :: e in r <==> e in items && IsRelevantDir(e)
  {
    if |items| == 0 then []
    else if IsRelevantDir(items[0]) then [items[0]] + RelevantDirs(items[1..])
    else RelevantDirs(items[1..])
  }

  predicate IsPackageJson(e: Entry) {
    e.kind == FileEntry && e.name == "package.json"
  }

  predicate HasPackageJson(items: seq<Entry>) {
    exists i :: 0 <= i < |items| && IsPackageJson(items[i])
  }

  function ContainerFor(mainId: string, language: Option<string>, dir: Entry): (c: Container)
    ensures c.systemId == mainId && c.name == dir.name
  {
    Container(ContainerId(dir.name), mainId, dir.name, dir.name + " container", DetectTechnology(dir.name, language))
  }

  function ContainersFor(mainId: string, language: Option<string>, dirs: seq<Entry>): seq<Container> {
    seq(|dirs|, i requires 0 <= i < |dirs| => ContainerFor(mainId, language, dirs[i]))
  }

  predicate IsScriptFile(name: string) {
    EndsWith(name, ".js") || EndsWith(name, ".ts") || EndsWith(name, ".jsx") || EndsWith(name, ".tsx")
  }

  /** A sub-directory, or a JavaScript/TypeScript source file. */
  predicate IsComponentSource(e: Entry) {
    e.kind == DirEntry || (e.kind == FileEntry && IsScriptFile(e.name))
  }

  function ComponentSources(items: seq<Entry>): (r: seq<Entry>)
    ensures forall e :: e in r <==> e in items && IsComponentSource(e)
  {
    if |items| == 0 then []
    else if IsComponentSource(items[0]) then [items[0]] + ComponentSources(items[1..])
    else ComponentSources(items[1..])
  }

  function ComponentFor(dirName: string, containerId: string, e: Entry): (k: Component)
    ensures k.containerId == containerId && k.name == e.name
  {
    Component(ComponentId(dirName, e.name), containerId, e.name, e.name + " component",
              DetectComponentTechnology(e.name))
  }

  function ComponentsFor(dirName: string, containerId: string, items: seq<Entry>): (ks: seq<Component>)
    ensures forall k :: k in ks ==> k.containerId == containerId
  {
    var sources := ComponentSources(items);
    seq(|sources|, i requires 0 <= i < |sources| => ComponentFor(dirName, containerId, sources[i]))
  }

  /** The entries a container listing yields: none when it failed or was not an array. */
  function Listed(listing: Fetch<Listing>): seq<Entry> {
    match listing
    case Fetched(Directory(items)) => items
    case _ => []
  }

  function ContainsRels(containerId: string, ks: seq<Component>): seq<Relationship> {
    seq(|ks|, i requires 0 <= i < |ks| => Link(containerId, ks[i].id, "Contains", None))
  }

  // ---------------------------------------------------------------------
  // Heuristic relationships
  // ---------------------------------------------------------------------

  function ComponentLink(k1: Component, k2: Component): Option<Relationship> {
    match DetectComponentRelationship(k1.name, k2.name)
    case None => None
    case Some(d) => Some(Link(k1.id, k2.id, d, None))
  }

  /** The inner loop over `all` for one `k1`. */
  function PeerRow(k1: Component, all: seq<Component>): (r: seq<Relationship>)
    ensures forall rel :: rel in r <==>
      exists k2 :: k2 in all && k1.id != k2.id && ComponentLink(k1, k2) == Some(rel)
  {
    if |all| == 0 then []
    else
      var rest := PeerRow(k1, all[1..]);
      assert forall k2 :: k2 in all <==> k2 == all[0] || k2 in all[1..];
      if k1.id != all[0].id && ComponentLink(k1, all[0]).Some? then [ComponentLink(k1, all[0]).value] + rest
      else rest
  }

  /** Every ordered pair of distinct-id components, first name's rules first. */
  function PeerRels(outer: seq<Component>, all: seq<Component>): (r: seq<Relationship>)
    ensures forall rel :: rel in r <==>
      exists k1, k2 :: k1 in outer && k2 in all && k1.id != k2.id && ComponentLink(k1, k2) == Some(rel)
  {
    if |outer| == 0 then []
    else
      var rest := PeerRels(outer[1..], all);
      assert forall k1 :: k1 in outer <==> k1 == outer[0] || k1 in outer[1..];
      PeerRow(outer[0], all) + rest
  }

  function ContainerLink(c1: Container, c2: Container): Option<Relationship> {
    match DetectContainerRelationship(c1.name, c2.name)
    case None => None
    case Some(d) => Some(Link(c1.id, c2.id, d, None))
  }

  /** The inner loop `j` for a fixed `i`, from `j` on. */
  function ContainerRow(cs: seq<Container>, i: nat, j: nat): (r: seq<Relationship>)
    requires i < |cs|
    ensures forall rel :: rel in r <==>
      exists k :: j <= k < |cs| && k != i && ContainerLink(cs[i], cs[k]) == Some(rel)
    decreases |cs| - j
  {
    if j >= |cs| then []
    else
      var rest := ContainerRow(cs, i, j + 1);
      if j != i && ContainerLink(cs[i], cs[j]).Some? then [ContainerLink(cs[i], cs[j]).value] + rest
      else rest
  }

  /** The outer loop `i`, from `i` on. */
  function ContainerRows(cs: seq<Container>, i: nat): (r: seq<Relationship>)
    ensures forall rel :: rel in r <==>
      exists a, b :: i <= a < |cs| && 0 <= b < |cs| && a != b && ContainerLink(cs[a], cs[b]) == Some(rel)
    decreases |cs| - i
  {
    if i >= |cs| then []
    else
      var row := ContainerRow(cs, i, 0);
      var rest := ContainerRows(cs, i + 1);
      row + rest
  }

  function ContainerPairRels(cs: seq<Container>): seq<Relationship> {
    ContainerRows(cs, 0)
  }

  // ---------------------------------------------------------------------
  // The fold
  // ---------------------------------------------------------------------

  /** One iteration of the container loop: push the container and its
      "Contains" relationship, then, if the listing came back as an array,
      its components, their "Contains" relationships and the heuristic
      relationships among all components carrying this container id. */
  function AddContainer(m: Model, mainId: string, language: Option<string>, dir: Entry, listing: Fetch<Listing>): Model {
    var c := ContainerFor(mainId, language, dir);
    var m1 := m.(containers := m.containers + [c],
                 relationships := m.relationships + [Link(mainId, c.id, "Contains", None)]);
    match listing
    case Fetched(Directory(items)) =>
      var ks := ComponentsFor(dir.name, c.id, items);
      var m2 := m1.(components := m1.components + ks,
                    relationships := m1.relationships + ContainsRels(c.id, ks));
      var peers := ComponentsOf(m2.components, c.id);
      m2.(relationships := m2.relationships + PeerRels(peers, peers))
    case _ => m1
  }

  function AddContainers(m: Model, mainId: string, language: Option<string>, dirs: seq<Entry>,
                         listingOf: string -> Fetch<Listing>): Model
    decreases |dirs|
  {
    if |dirs| == 0 then m
    else AddContainers(AddContainer(m, mainId, language, dirs[0], listingOf(dirs[0].path)),
                       mainId, language, dirs[1..], listingOf)
  }

  /** The container loop followed by the loop over ordered container pairs. */
  function WithContainers(m: Model, mainId: string, language: Option<string>, dirs: seq<Entry>,
                          listingOf: string -> Fetch<Listing>): Model {
    var r := AddContainers(m, mainId, language, dirs, listingOf);
    r.(relationships := r.relationships + ContainerPairRels(r.containers))
  }

  /** The C4 model the analyzer builds for a repository from the results of
      its fetches. */
  function Analyze(repo: string, inputs: Inputs): (r: Model)
    ensures inputs.metadata.FetchFailed? ==> r == EmptyModel
    ensures inputs.metadata.Fetched? ==>
      && Invariant(r)
      && |r.systems| >= 1 && r.systems[0] == MainSystem(repo, inputs.metadata.value)
      && r.relationships[0] == UserUses(repo)
  {
    match inputs.metadata
    case FetchFailed => EmptyModel
    case Fetched(data) =>
      var mainId := MainId(repo);
      var seed := Seeded(repo, data);
      SeedInvariant(repo, data);
      match inputs.root
      case Fetched(Directory(items)) =>
        var dirs := RelevantDirs(items);
        if HasPackageJson(items) then
          match inputs.manifest
          case FetchFailed => seed
          case Fetched(NoContent) =>
            WithContainersInvariant(seed, mainId, data.language, dirs, inputs.listingOf);
            WithContainers(seed, mainId, data.language, dirs, inputs.listingOf)
          case Fetched(Decoded(d, dd)) =>
            var deps := MajorDependencies(Merge(d, dd));
            var m := WithDependencies(seed, mainId, deps);
            WithDependenciesInvariant(seed, mainId, deps);
            WithContainersInvariant(m, mainId, data.language, dirs, inputs.listingOf);
            WithContainers(m, mainId, data.language, dirs, inputs.listingOf)
        else
          WithContainersInvariant(seed, mainId, data.language, dirs, inputs.listingOf);
          WithContainers(seed, mainId, data.language, dirs, inputs.listingOf)
      case _ => seed
  }

  // ---------------------------------------------------------------------
  // The invariant every stage keeps
  // ---------------------------------------------------------------------

  /** The user is the only person; the first relationship is the only one
      leaving the user; no container or component takes the user's id; and
      no foreign key dangles. */
  predicate Invariant(m: Model) {
    && m.persons == [User]
    && |m.relationships| >= 1
    && (forall i :: 1 <= i < |m.relationships| ==> m.relationships[i].sourceId != UserId)
    && (forall c :: c in m.containers ==> c.id != UserId)
    && (forall k :: k in m.components ==> k.id != UserId)
    && WellFormed(m)
  }

  lemma SeedInvariant(repo: string, data: RepoData)
    ensures Invariant(Seeded(repo, data))
    ensures MainId(repo) in SystemIds(Seeded(repo, data).systems) && MainId(repo) != UserId
  {
    NotUser("system-", repo);
    assert SystemIds(Seeded(repo, data).systems)[0] == MainId(repo);
  }

  lemma WithDependenciesInvariant(m: Model, mainId: string, deps: Entries)
    requires Invariant(m) && mainId in SystemIds(m.systems) && mainId != UserId
    ensures Invariant(WithDependencies(m, mainId, deps))
    ensures mainId in SystemIds(WithDependencies(m, mainId, deps).systems)
  {
    var r := WithDependencies(m, mainId, deps);
    assert forall x :: x in SystemIds(m.systems) ==> x in SystemIds(r.systems) by {
      forall x | x in SystemIds(m.systems) ensures x in SystemIds(r.systems) {
        var i :| 0 <= i < |m.systems| && SystemIds(m.systems)[i] == x;
        assert SystemIds(r.systems)[i] == x;
      }
    }
    forall i | 1 <= i < |r.relationships| ensures r.relationships[i].sourceId != UserId {
      if i >= |m.relationships| {
        assert r.relationships[i].sourceId == mainId;
      }
    }
  }

  /** Relationships that do not leave the user keep the invariant. */
  lemma AppendRelsInvariant(m: Model, extra: seq<Relationship>)
    requires Invariant(m) && forall rel :: rel in extra ==> rel.sourceId != UserId
    ensures Invariant(m.(relationships := m.relationships + extra))
  {
    var r := m.(relationships := m.relationships + extra);
    forall i | 1 <= i < |r.relationships| ensures r.relationships[i].sourceId != UserId {
      if i >= |m.relationships| {
        assert r.relationships[i] == extra[i - |m.relationships|];
      }
    }
  }

  /** A container of a known system, not named like the user, keeps the invariant. */
  lemma AppendContainerInvariant(m: Model, c: Container)
    requires Invariant(m) && c.systemId in SystemIds(m.systems) && c.id != UserId
    ensures Invariant(m.(containers := m.containers + [c]))
    ensures c.id in ContainerIds(m.containers + [c])
  {
    var m1 := m.(containers := m.containers + [c]);
    assert forall x :: x in ContainerIds(m.containers) ==> x in ContainerIds(m1.containers) by {
      forall x | x in ContainerIds(m.containers) ensures x in ContainerIds(m1.containers) {
        var i :| 0 <= i < |m.containers| && ContainerIds(m.containers)[i] == x;
        assert ContainerIds(m1.containers)[i] == x;
      }
    }
    assert ContainerIds(m1.containers)[|m.containers|] == c.id;
  }

  /** Components of a known container, not named like the user, keep the invariant. */
  lemma AppendComponentsInvariant(m: Model, cid: string, ks: seq<Component>)
    requires Invariant(m) && cid in ContainerIds(m.containers)
    requires forall k :: k in ks ==> k.containerId == cid && k.id != UserId
    ensures Invariant(m.(components := m.components + ks))
  {
  }

  lemma PeerRelsLeaveOuter(outer: seq<Component>, all: seq<Component>)
    requires forall k :: k in outer ==> k.id != UserId
    ensures forall rel :: rel in PeerRels(outer, all) ==> rel.sourceId != UserId
  {
    forall rel | rel in PeerRels(outer, all) ensures rel.sourceId != UserId {
      var k1, k2 :| k1 in outer && k2 in all && k1.id != k2.id && ComponentLink(k1, k2) == Some(rel);
      assert rel.sourceId == k1.id;
    }
  }

  lemma ComponentsForNotUser(dirName: string, cid: string, items: seq<Entry>)
    ensures forall k :: k in ComponentsFor(dirName, cid, items) ==> k.id != UserId
  {
    forall k | k in ComponentsFor(dirName, cid, items) ensures k.id != UserId {
      NotUser("component-", dirName + "-" + k.name);
      assert k.id == "component-" + (dirName + "-" + k.name);
    }
  }

  lemma AddContainerInvariant(m: Model, mainId: string, language: Option<string>, dir: Entry,
                              listing: Fetch<Listing>)
    requires Invariant(m) && mainId in SystemIds(m.systems) && mainId != UserId
    ensures Invariant(AddContainer(m, mainId, language, dir, listing))
    ensures AddContainer(m, mainId, language, dir, listing).systems == m.systems
  {
    var c := ContainerFor(mainId, language, dir);
    NotUser("container-", dir.name);
    var m0 := m.(containers := m.containers + [c]);
    AppendContainerInvariant(m, c);
    var m1 := m0.(relationships := m0.relationships + [Link(mainId, c.id, "Contains", None)]);
    AppendRelsInvariant(m0, [Link(mainId, c.id, "Contains", None)]);
    match listing
    case Fetched(Directory(items)) =>
      var ks := ComponentsFor(dir.name, c.id, items);
      ComponentsForNotUser(dir.name, c.id, items);
      var m2a := m1.(components := m1.components + ks);
      AppendComponentsInvariant(m1, c.id, ks);
      var m2 := m2a.(relationships := m2a.relationships + ContainsRels(c.id, ks));
      AppendRelsInvariant(m2a, ContainsRels(c.id, ks));
      var peers := ComponentsOf(m2.components, c.id);
      PeerRelsLeaveOuter(peers, peers);
      AppendRelsInvariant(m2, PeerRels(peers, peers));
      assert AddContainer(m, mainId, language, dir, listing) == m2.(relationships := m2.relationships + PeerRels(peers, peers));
    case _ =>
      assert AddContainer(m, mainId, language, dir, listing) == m1;
  }

  lemma {:induction false} AddContainersInvariant(m: Model, mainId: string, language: Option<string>,
                                                  dirs: seq<Entry>, listingOf: string -> Fetch<Listing>)
    requires Invariant(m) && mainId in SystemIds(m.systems) && mainId != UserId
    ensures Invariant(AddContainers(m, mainId, language, dirs, listingOf))
    ensures AddContainers(m, mainId, language, dirs, listingOf).systems == m.systems
    decreases |dirs|
  {
    if |dirs| > 0 {
      AddContainerInvariant(m, mainId, language, dirs[0], listingOf(dirs[0].path));
      AddContainersInvariant(AddContainer(m, mainId, language, dirs[0], listingOf(dirs[0].path)),
                             mainId, language, dirs[1..], listingOf);
    }
  }

  lemma WithContainersInvariant(m: Model, mainId: string, language: Option<string>,
                                dirs: seq<Entry>, listingOf: string -> Fetch<Listing>)
    requires Invariant(m) && mainId in SystemIds(m.systems) && mainId != UserId
    ensures Invariant(WithContainers(m, mainId, language, dirs, listingOf))
    ensures WithContainers(m, mainId, language, dirs, listingOf).systems == m.systems
    ensures WithContainers(m, mainId, language, dirs, listingOf).relationships[0] == m.relationships[0]
  {
    AddContainersInvariant(m, mainId, language, dirs, listingOf);
    AddContainersPrefix(m, mainId, language, dirs, listingOf);
    var a := AddContainers(m, mainId, language, dirs, listingOf);
    var r := WithContainers(m, mainId, language, dirs, listingOf);
    forall i | |a.relationships| <= i < |r.relationships| ensures r.relationships[i].sourceId != UserId {
      var rel := r.relationships[i];
      assert rel in ContainerPairRels(a.containers);
      var x, y :| 0 <= x < |a.containers| && 0 <= y < |a.containers| && x != y
                  && ContainerLink(a.containers[x], a.containers[y]) == Some(rel);
      assert a.containers[x] in a.containers;
    }
  }

  /** The relationships already pushed are never rewritten. */
  lemma {:induction false} AddContainersPrefix(m: Model, mainId: string, language: Option<string>,
                                               dirs: seq<Entry>, listingOf: string -> Fetch<Listing>)
    ensures var r := AddContainers(m, mainId, language, dirs, listingOf);
      |r.relationships| >= |m.relationships| && r.relationships[..|m.relationships|] == m.relationships
    decreases |dirs|
  {
    if |dirs| > 0 {
      var m1 := AddContainer(m, mainId, language, dirs[0], listingOf(dirs[0].path));
      AddContainersPrefix(m1, mainId, language, dirs[1..], listingOf);
      assert m1.relationships[..|m.relationships|] == m.relationships;
    }
  }
}
