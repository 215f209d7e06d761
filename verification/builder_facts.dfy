/** What the builder's output looks like on every input: which entries
    become containers and components, which dependencies become external
    systems, what a failure leaves behind, and which relationships the
    heuristics can produce.
 */
module BuilderFacts {
  import opened Wrappers
  import opened Strings
  import opened C4
  import opened Classify
  import opened Dependencies
  import opened Builder

  lemma Assoc<T>(a: seq<T>, b: seq<T>, c: seq<T>)
    ensures a + b + c == a + (b + c)
  {
  }

  /** Components a run of the container loop creates, directory by directory. */
  function AllComponents(dirs: seq<Entry>, listingOf: string -> Fetch<Listing>): seq<Component>
    decreases |dirs|
  {
    if |dirs| == 0 then []
    else ComponentsFor(dirs[0].name, ContainerId(dirs[0].name), Listed(listingOf(dirs[0].path)))
         + AllComponents(dirs[1..], listingOf)
  }

  /** One iteration appends its container and, when the listing came back,
      that directory's components. The relationships gain the system's
      "Contains" link to the container, then one "Contains" link per new
      component, then, only when the listing came back, the heuristic links
      among all of the container's components. */
  lemma AddContainerShape(m: Model, mainId: string, language: Option<string>, dir: Entry,
                          listing: Fetch<Listing>)
    ensures var r := AddContainer(m, mainId, language, dir, listing);
      && r.persons == m.persons && r.systems == m.systems
      && r.containers == m.containers + [ContainerFor(mainId, language, dir)]
      && r.components == m.components + ComponentsFor(dir.name, ContainerId(dir.name), Listed(listing))
    ensures var r := AddContainer(m, mainId, language, dir, listing);
      var cid := ContainerId(dir.name);
      var peers := ComponentsOf(r.components, cid);
      r.relationships == m.relationships + [Link(mainId, cid, "Contains", None)]
        + ContainsRels(cid, ComponentsFor(dir.name, cid, Listed(listing)))
        + (if listing.Fetched? && listing.value.Directory? then PeerRels(peers, peers) else [])
  {
    if !(listing.Fetched? && listing.value.Directory?) {
      assert ComponentSources([]) == [];
      assert ContainsRels(ContainerId(dir.name), []) == [];
    }
  }

  /** The container loop never touches persons or systems. */
  lemma {:induction false} AddContainersKeepsSystems(m: Model, mainId: string, language: Option<string>,
                                                     dirs: seq<Entry>, listingOf: string -> Fetch<Listing>)
    ensures AddContainers(m, mainId, language, dirs, listingOf).persons == m.persons
    ensures AddContainers(m, mainId, language, dirs, listingOf).systems == m.systems
    decreases |dirs|
  {
    if |dirs| > 0 {
      AddContainerShape(m, mainId, language, dirs[0], listingOf(dirs[0].path));
      AddContainersKeepsSystems(AddContainer(m, mainId, language, dirs[0], listingOf(dirs[0].path)),
                                mainId, language, dirs[1..], listingOf);
    }
  }

  /** The container loop appends one container per directory, in order. */
  lemma {:induction false} AddContainersContainers(m: Model, mainId: string, language: Option<string>,
                                                   dirs: seq<Entry>, listingOf: string -> Fetch<Listing>)
    ensures AddContainers(m, mainId, language, dirs, listingOf).containers
            == m.containers + ContainersFor(mainId, language, dirs)
    decreases |dirs|
  {
    if |dirs| == 0 {
      assert ContainersFor(mainId, language, dirs) == [];
    } else {
      var m1 := AddContainer(m, mainId, language, dirs[0], listingOf(dirs[0].path));
      AddContainerShape(m, mainId, language, dirs[0], listingOf(dirs[0].path));
      AddContainersContainers(m1, mainId, language, dirs[1..], listingOf);
      var head := [ContainerFor(mainId, language, dirs[0])];
      var tail := ContainersFor(mainId, language, dirs[1..]);
      ContainersForCons(mainId, language, dirs);
      Assoc(m.containers, head, tail);
    }
  }

  lemma ContainersForCons(mainId: string, language: Option<string>, dirs: seq<Entry>)
    requires |dirs| > 0
    ensures ContainersFor(mainId, language, dirs)
            == [ContainerFor(mainId, language, dirs[0])] + ContainersFor(mainId, language, dirs[1..])
  {
    var whole := ContainersFor(mainId, language, dirs);
    var tail := ContainersFor(mainId, language, dirs[1..]);
    forall i | 0 <= i < |tail|
      ensures whole[1..][i] == tail[i]
    {
      assert dirs[1..][i] == dirs[i + 1];
    }
    assert whole == [whole[0]] + whole[1..];
  }

  /** The container loop appends the components of every listing that came
      back, directory by directory, in order. */
  lemma {:induction false} AddContainersComponents(m: Model, mainId: string, language: Option<string>,
                                                   dirs: seq<Entry>, listingOf: string -> Fetch<Listing>)
    ensures AddContainers(m, mainId, language, dirs, listingOf).components
            == m.components + AllComponents(dirs, listingOf)
    decreases |dirs|
  {
    if |dirs| == 0 {
    } else {
      var m1 := AddContainer(m, mainId, language, dirs[0], listingOf(dirs[0].path));
      AddContainerShape(m, mainId, language, dirs[0], listingOf(dirs[0].path));
      AddContainersComponents(m1, mainId, language, dirs[1..], listingOf);
      var here := ComponentsFor(dirs[0].name, ContainerId(dirs[0].name), Listed(listingOf(dirs[0].path)));
      var tail := AllComponents(dirs[1..], listingOf);
      assert AllComponents(dirs, listingOf) == here + tail;
      Assoc(m.components, here, tail);
    }
  }

  lemma AddContainersShape(m: Model, mainId: string, language: Option<string>,
                           dirs: seq<Entry>, listingOf: string -> Fetch<Listing>)
    ensures var r := AddContainers(m, mainId, language, dirs, listingOf);
      && r.persons == m.persons && r.systems == m.systems
      && r.containers == m.containers + ContainersFor(mainId, language, dirs)
      && r.components == m.components + AllComponents(dirs, listingOf)
  {
    AddContainersKeepsSystems(m, mainId, language, dirs, listingOf);
    AddContainersContainers(m, mainId, language, dirs, listingOf);
    AddContainersComponents(m, mainId, language, dirs, listingOf);
  }

  /** The model of a repository whose root listing holds `items`. */
  lemma AnalyzeShape(repo: string, inputs: Inputs, data: RepoData, items: seq<Entry>)
    requires inputs.metadata == Fetched(data) && inputs.root == Fetched(Directory(items))
    requires HasPackageJson(items) ==> !inputs.manifest.FetchFailed?
    ensures var r := Analyze(repo, inputs);
      && r.persons == [User]
      && r.containers == ContainersFor(MainId(repo), data.language, RelevantDirs(items))
      && r.components == AllComponents(RelevantDirs(items), inputs.listingOf)
  {
    var dirs := RelevantDirs(items);
    var seed := Seeded(repo, data);
    if HasPackageJson(items) && inputs.manifest.Fetched? && inputs.manifest.value.Decoded? {
      var d, dd := inputs.manifest.value.dependencies, inputs.manifest.value.devDependencies;
      AddContainersShape(WithDependencies(seed, MainId(repo), MajorDependencies(Merge(d, dd))),
                         MainId(repo), data.language, dirs, inputs.listingOf);
    } else {
      AddContainersShape(seed, MainId(repo), data.language, dirs, inputs.listingOf);
    }
  }

  /** Every container comes from a directory entry of the root listing whose
      name is one of the seven, belongs to the main system, and has the
      technology its name and the repository language give. */
  lemma ContainersFromRelevantDirs(repo: string, inputs: Inputs, data: RepoData, items: seq<Entry>, c: Container)
    requires inputs.metadata == Fetched(data) && inputs.root == Fetched(Directory(items))
    requires HasPackageJson(items) ==> !inputs.manifest.FetchFailed?
    requires c in Analyze(repo, inputs).containers
    ensures exists e :: (e in items && e.kind == DirEntry && e.name in ContainerDirectories
      && c == Container("container-" + e.name, MainId(repo), e.name, e.name + " container",
                        DetectTechnology(e.name, data.language)))
  {
    AnalyzeShape(repo, inputs, data, items);
    var cs := ContainersFor(MainId(repo), data.language, RelevantDirs(items));
    var i :| 0 <= i < |cs| && cs[i] == c;
    assert RelevantDirs(items)[i] in RelevantDirs(items);
  }

  /** Conversely, every such directory entry yields its container. */
  lemma RelevantDirsBecomeContainers(repo: string, inputs: Inputs, data: RepoData, items: seq<Entry>, e: Entry)
    requires inputs.metadata == Fetched(data) && inputs.root == Fetched(Directory(items))
    requires HasPackageJson(items) ==> !inputs.manifest.FetchFailed?
    requires e in items && e.kind == DirEntry && e.name in ContainerDirectories
    ensures ContainerFor(MainId(repo), data.language, e) in Analyze(repo, inputs).containers
  {
    AnalyzeShape(repo, inputs, data, items);
    var dirs := RelevantDirs(items);
    var i :| 0 <= i < |dirs| && dirs[i] == e;
    assert ContainersFor(MainId(repo), data.language, dirs)[i] == ContainerFor(MainId(repo), data.language, e);
  }

  /** A component comes from an entry of its directory's listing that is a
      sub-directory or a script file, and is named after that entry. */
  lemma {:induction false} ComponentOrigin(dirs: seq<Entry>, listingOf: string -> Fetch<Listing>, k: Component)
    requires k in AllComponents(dirs, listingOf)
    ensures exists d, e :: (d in dirs && e in Listed(listingOf(d.path)) && IsComponentSource(e)
      && k == Component("component-" + d.name + "-" + e.name, "container-" + d.name, e.name,
                        e.name + " component", DetectComponentTechnology(e.name)))
    decreases |dirs|
  {
    var d := dirs[0];
    var here := ComponentsFor(d.name, ContainerId(d.name), Listed(listingOf(d.path)));
    if k in here {
      var sources := ComponentSources(Listed(listingOf(d.path)));
      var i :| 0 <= i < |here| && here[i] == k;
      assert sources[i] in sources;
      assert "component-" + d.name + "-" + sources[i].name == ComponentId(d.name, sources[i].name);
    } else {
      ComponentOrigin(dirs[1..], listingOf, k);
      var d', e :| d' in dirs[1..] && e in Listed(listingOf(d'.path)) && IsComponentSource(e)
        && k == Component("component-" + d'.name + "-" + e.name, "container-" + d'.name, e.name,
                          e.name + " component", DetectComponentTechnology(e.name));
      assert d' in dirs;
    }
  }

  /** Failure isolation: failing the listing of the directories at path `p`
      removes exactly their components, and no others. */
  lemma {:induction false} ListingFailureIsolated(dirs: seq<Entry>, listingOf: string -> Fetch<Listing>, p: string)
    ensures AllComponents(dirs, q => if q == p then FetchFailed else listingOf(q))
            == AllComponents(Elsewhere(dirs, p), listingOf)
    decreases |dirs|
  {
    if |dirs| > 0 {
      ListingFailureIsolated(dirs[1..], listingOf, p);
      if dirs[0].path == p {
        assert ComponentSources([]) == [];
      }
    }
  }

  /** The directories not at path `p`. */
  function Elsewhere(dirs: seq<Entry>, p: string): (r: seq<Entry>)
    ensures forall d :: d in r <==> d in dirs && d.path != p
  {
    if |dirs| == 0 then []
    else if dirs[0].path == p then Elsewhere(dirs[1..], p)
    else [dirs[0]] + Elsewhere(dirs[1..], p)
  }

  /** Every container hangs off the main system and every component off its
      container by a "Contains" relationship. */
  predicate AllContained(m: Model, mainId: string) {
    && (forall c :: c in m.containers ==> Link(mainId, c.id, "Contains", None) in m.relationships)
    && (forall k :: k in m.components ==> Link(k.containerId, k.id, "Contains", None) in m.relationships)
  }

  lemma AddContainerContained(m: Model, mainId: string, language: Option<string>, dir: Entry,
                              listing: Fetch<Listing>)
    requires AllContained(m, mainId)
    ensures AllContained(AddContainer(m, mainId, language, dir, listing), mainId)
  {
    var c := ContainerFor(mainId, language, dir);
    var m1 := m.(containers := m.containers + [c],
                 relationships := m.relationships + [Link(mainId, c.id, "Contains", None)]);
    assert AllContained(m1, mainId);
    match listing
    case Fetched(Directory(items)) =>
      var ks := ComponentsFor(dir.name, c.id, items);
      var m2 := m1.(components := m1.components + ks,
                    relationships := m1.relationships + ContainsRels(c.id, ks));
      forall k | k in m2.components ensures Link(k.containerId, k.id, "Contains", None) in m2.relationships {
        if k !in m1.components {
          var i :| 0 <= i < |ks| && ks[i] == k;
          assert ContainsRels(c.id, ks)[i] == Link(k.containerId, k.id, "Contains", None);
        }
      }
      assert AllContained(m2, mainId);
    case _ =>
  }

  lemma {:induction false} AddContainersContained(m: Model, mainId: string, language: Option<string>,
                                                  dirs: seq<Entry>, listingOf: string -> Fetch<Listing>)
    requires AllContained(m, mainId)
    ensures AllContained(AddContainers(m, mainId, language, dirs, listingOf), mainId)
    decreases |dirs|
  {
    if |dirs| > 0 {
      AddContainerContained(m, mainId, language, dirs[0], listingOf(dirs[0].path));
      AddContainersContained(AddContainer(m, mainId, language, dirs[0], listingOf(dirs[0].path)),
                             mainId, language, dirs[1..], listingOf);
    }
  }

  /** In every analysis, each container has its "Contains" relationship from
      the main system and each component one from its container. */
  lemma EveryChildContained(repo: string, inputs: Inputs)
    ensures AllContained(Analyze(repo, inputs), MainId(repo))
  {
    if inputs.metadata.Fetched? && inputs.root.Fetched? && inputs.root.value.Directory? {
      var data := inputs.metadata.value;
      var items := inputs.root.value.items;
      var seed := Seeded(repo, data);
      var m := seed;
      if HasPackageJson(items) && inputs.manifest.Fetched? && inputs.manifest.value.Decoded? {
        var d, dd := inputs.manifest.value.dependencies, inputs.manifest.value.devDependencies;
        m := WithDependencies(seed, MainId(repo), MajorDependencies(Merge(d, dd)));
      }
      assert AllContained(m, MainId(repo));
      AddContainersContained(m, MainId(repo), data.language, RelevantDirs(items), inputs.listingOf);
    }
  }

  /** No person, system, container or component of the model has an empty id. */
  predicate NamedIds(m: Model) {
    && (forall p :: p in m.persons ==> p.id != "")
    && (forall s :: s in m.systems ==> s.id != "")
    && (forall c :: c in m.containers ==> c.id != "")
    && (forall k :: k in m.components ==> k.id != "")
  }

  /** The container loop and the container pairs only add ids with the
      `container-` and `component-` prefixes. */
  lemma WithContainersNamed(m: Model, mainId: string, language: Option<string>, dirs: seq<Entry>,
                            listingOf: string -> Fetch<Listing>)
    requires NamedIds(m)
    ensures NamedIds(WithContainers(m, mainId, language, dirs, listingOf))
  {
    AddContainersShape(m, mainId, language, dirs, listingOf);
    forall k | k in AllComponents(dirs, listingOf)
      ensures k.id != ""
    {
      ComponentOrigin(dirs, listingOf, k);
    }
  }

  /** Every id the analysis hands out carries a non-empty prefix
      (`user-`, `system-`, `container-`, `component-`). */
  lemma EveryIdNamed(repo: string, inputs: Inputs)
    ensures NamedIds(Analyze(repo, inputs))
  {
    if inputs.metadata.Fetched? && inputs.root.Fetched? && inputs.root.value.Directory? {
      var data := inputs.metadata.value;
      var items := inputs.root.value.items;
      var dirs := RelevantDirs(items);
      var seed := Seeded(repo, data);
      if !(HasPackageJson(items) && inputs.manifest.FetchFailed?) {
        var m := seed;
        if HasPackageJson(items) && inputs.manifest.value.Decoded? {
          var d, dd := inputs.manifest.value.dependencies, inputs.manifest.value.devDependencies;
          m := WithDependencies(seed, MainId(repo), MajorDependencies(Merge(d, dd)));
        }
        WithContainersNamed(m, MainId(repo), data.language, dirs, inputs.listingOf);
        assert Analyze(repo, inputs) == WithContainers(m, MainId(repo), data.language, dirs, inputs.listingOf);
      }
    }
  }

  // ---------------------------------------------------------------------
  // External systems
  // ---------------------------------------------------------------------

  /** With a decoded manifest, the systems are the main system followed by
      one external system per major dependency, in the order of
      `MajorDependencies`: at most five, none of them tooling. That order is
      the merged key order, by `Dependencies.KeptBeforeCap`. */
  lemma DependencySystems(repo: string, inputs: Inputs, data: RepoData, items: seq<Entry>,
                          d: Entries, dd: Entries)
    requires inputs.metadata == Fetched(data) && inputs.root == Fetched(Directory(items))
    requires HasPackageJson(items) && inputs.manifest == Fetched(Decoded(d, dd))
    ensures var r := Analyze(repo, inputs);
      var deps := MajorDependencies(Merge(d, dd));
      && |r.systems| == 1 + |deps| && |r.systems| <= 1 + MaxExternalSystems
      && (forall i :: 1 <= i < |r.systems| ==>
            r.systems[i] == ExternalSystem(deps[i - 1].0) && r.systems[i].isExternal
            && !IsTooling(r.systems[i].name))
  {
    var deps := MajorDependencies(Merge(d, dd));
    AnalyzeSystemsWithManifest(repo, inputs, data, items, d, dd);
    ExternalSystemsOf(MainSystem(repo, data), deps, Analyze(repo, inputs).systems);
  }

  lemma ExternalSystemsOf(main: System, deps: Entries, ss: seq<System>)
    requires ss == [main] + seq(|deps|, i requires 0 <= i < |deps| => ExternalSystem(deps[i].0))
    requires |deps| <= MaxExternalSystems && forall p :: p in deps ==> !IsTooling(p.0)
    ensures |ss| == 1 + |deps| && |ss| <= 1 + MaxExternalSystems
    ensures forall i :: 1 <= i < |ss| ==>
      ss[i] == ExternalSystem(deps[i - 1].0) && ss[i].isExternal && !IsTooling(ss[i].name)
  {
    forall i | 1 <= i < |ss|
      ensures ss[i] == ExternalSystem(deps[i - 1].0) && !IsTooling(ss[i].name)
    {
      assert deps[i - 1] in deps;
    }
  }

  /** The container stages leave the systems the dependency stage built. */
  lemma AnalyzeSystemsWithManifest(repo: string, inputs: Inputs, data: RepoData, items: seq<Entry>,
                                   d: Entries, dd: Entries)
    requires inputs.metadata == Fetched(data) && inputs.root == Fetched(Directory(items))
    requires HasPackageJson(items) && inputs.manifest == Fetched(Decoded(d, dd))
    ensures Analyze(repo, inputs).systems
      == WithDependencies(Seeded(repo, data), MainId(repo), MajorDependencies(Merge(d, dd))).systems
  {
    var m := WithDependencies(Seeded(repo, data), MainId(repo), MajorDependencies(Merge(d, dd)));
    AddContainersKeepsSystems(m, MainId(repo), data.language, RelevantDirs(items), inputs.listingOf);
  }

  /** The dependency step's "Uses" relationship for the `i`-th kept
      dependency carries the version the merged manifest gives its name. */
  lemma MergedVersion(m: Model, mainId: string, d: Entries, dd: Entries, i: nat)
    requires i < |MajorDependencies(Merge(d, dd))|
    ensures var dep := MajorDependencies(Merge(d, dd))[i].0;
      var rel := WithDependencies(m, mainId, MajorDependencies(Merge(d, dd))).relationships[|m.relationships| + i];
      && rel == Link(mainId, ExternalId(dep), "Uses", rel.technology)
      && rel.technology == (if dep in Keys(dd) then Lookup(dd, dep) else Lookup(d, dep))
  {
    var merged := Merge(d, dd);
    var deps := MajorDependencies(merged);
    assert deps[i] in deps;
    var k :| 0 <= k < |merged| && merged[k] == deps[i];
    MergeKeys(d, dd);
    LookupDistinct(merged, k);
    MergeLookup(d, dd, deps[i].0);
  }

  /** With a decoded manifest the analysis keeps the dependency step's
      relationships as a prefix. */
  lemma AnalyzeKeepsDependencyRels(repo: string, inputs: Inputs, data: RepoData, items: seq<Entry>,
                                   d: Entries, dd: Entries)
    requires inputs.metadata == Fetched(data) && inputs.root == Fetched(Directory(items))
    requires HasPackageJson(items) && inputs.manifest == Fetched(Decoded(d, dd))
    ensures var m := WithDependencies(Seeded(repo, data), MainId(repo), MajorDependencies(Merge(d, dd)));
      var rels := Analyze(repo, inputs).relationships;
      |rels| >= |m.relationships| && forall j :: 0 <= j < |m.relationships| ==> rels[j] == m.relationships[j]
  {
    var m := WithDependencies(Seeded(repo, data), MainId(repo), MajorDependencies(Merge(d, dd)));
    AddContainersPrefix(m, MainId(repo), data.language, RelevantDirs(items), inputs.listingOf);
    var a := AddContainers(m, MainId(repo), data.language, RelevantDirs(items), inputs.listingOf);
    assert Analyze(repo, inputs) == WithContainers(m, MainId(repo), data.language, RelevantDirs(items), inputs.listingOf);
    assert forall j :: 0 <= j < |m.relationships| ==> a.relationships[j] == a.relationships[..|m.relationships|][j];
  }

  /** Each external system's "Uses" relationship, right after the user's
      link, carries the version the merged manifest gives its name:
      devDependencies override dependencies. */
  lemma DependencyVersion(repo: string, inputs: Inputs, data: RepoData, items: seq<Entry>,
                          d: Entries, dd: Entries, i: nat)
    requires inputs.metadata == Fetched(data) && inputs.root == Fetched(Directory(items))
    requires HasPackageJson(items) && inputs.manifest == Fetched(Decoded(d, dd))
    requires i < |MajorDependencies(Merge(d, dd))|
    ensures var dep := MajorDependencies(Merge(d, dd))[i].0;
      var rels := Analyze(repo, inputs).relationships;
      && 1 + i < |rels|
      && rels[1 + i] == Link(MainId(repo), ExternalId(dep), "Uses", rels[1 + i].technology)
      && rels[1 + i].technology == (if dep in Keys(dd) then Lookup(dd, dep) else Lookup(d, dep))
  {
    var seed := Seeded(repo, data);
    var m := WithDependencies(seed, MainId(repo), MajorDependencies(Merge(d, dd)));
    AnalyzeKeepsDependencyRels(repo, inputs, data, items, d, dd);
    MergedVersion(seed, MainId(repo), d, dd, i);
    assert |seed.relationships| == 1;
  }

  // ---------------------------------------------------------------------
  // Failures
  // ---------------------------------------------------------------------

  /** A failed root listing, or one that is not an array, stops after the seed. */
  lemma RootFailureKeepsSeed(repo: string, inputs: Inputs, data: RepoData)
    requires inputs.metadata == Fetched(data) && !(inputs.root.Fetched? && inputs.root.value.Directory?)
    ensures Analyze(repo, inputs) == Model([User], [MainSystem(repo, data)], [], [], [UserUses(repo)])
  {
  }

  /** A manifest that exists but cannot be fetched or parsed aborts the whole
      analysis: no external systems and no containers either. */
  lemma ManifestFailureKeepsSeed(repo: string, inputs: Inputs, data: RepoData, items: seq<Entry>)
    requires inputs.metadata == Fetched(data) && inputs.root == Fetched(Directory(items))
    requires HasPackageJson(items) && inputs.manifest.FetchFailed?
    ensures Analyze(repo, inputs) == Model([User], [MainSystem(repo, data)], [], [], [UserUses(repo)])
  {
  }

  /** Without a `package.json` entry the manifest input is never consulted. */
  lemma ManifestIgnoredWithoutPackageJson(repo: string, inputs: Inputs, items: seq<Entry>, other: Fetch<Manifest>)
    requires inputs.root == Fetched(Directory(items)) && !HasPackageJson(items)
    ensures Analyze(repo, inputs) == Analyze(repo, inputs.(manifest := other))
  {
  }

  // ---------------------------------------------------------------------
  // Heuristic relationships
  // ---------------------------------------------------------------------

  /** Heuristic component relationships connect two different components of
      the same container, and carry the label the classifier gives the pair. */
  lemma PeerRelsWithinContainer(ks: seq<Component>, containerId: string, rel: Relationship)
    requires rel in PeerRels(ComponentsOf(ks, containerId), ComponentsOf(ks, containerId))
    ensures exists k1, k2 :: (k1 in ks && k2 in ks && k1.containerId == containerId && k2.containerId == containerId
      && k1.id != k2.id && rel.sourceId == k1.id && rel.targetId == k2.id
      && Some(rel.description) == DetectComponentRelationship(k1.name, k2.name))
  {
    var peers := ComponentsOf(ks, containerId);
    var k1, k2 :| k1 in peers && k2 in peers && k1.id != k2.id && ComponentLink(k1, k2) == Some(rel);
  }

  /** The directory names that become containers are already lower case. */
  lemma DirectoryNamesLowerCase()
    ensures forall n :: n in ContainerDirectories ==> ToLower(n) == n
  {
    ToLowerIdentity("src");
    ToLowerIdentity("app");
    ToLowerIdentity("lib");
    ToLowerIdentity("packages");
    ToLowerIdentity("components");
    ToLowerIdentity("services");
    ToLowerIdentity("api");
  }

  /** On two of the seven directory names the container classifier relates
      only app to api ("Calls") and api to services ("Uses"). */
  lemma DirectoryPairRelation(n1: string, n2: string)
    requires n1 in ContainerDirectories && n2 in ContainerDirectories
    ensures DetectContainerRelationship(n1, n2)
      == if n1 == "app" && n2 == "api" then Some("Calls")
         else if n1 == "api" && n2 == "services" then Some("Uses")
         else None
  {
    DirectoryNamesLowerCase();
    assert ToLower(n1) == n1 && ToLower(n2) == n2;
  }

  /** Among containers built from the seven directory names only two
      ordered pairs are ever related: app calls api, and api uses services. */
  lemma BuiltContainerRelations(cs: seq<Container>, rel: Relationship)
    requires forall c :: c in cs ==> c.name in ContainerDirectories
    requires rel in ContainerPairRels(cs)
    ensures exists a, b :: (a in cs && b in cs && rel == Link(a.id, b.id, rel.description, None)
      && ((a.name == "app" && b.name == "api" && rel.description == "Calls")
          || (a.name == "api" && b.name == "services" && rel.description == "Uses")))
  {
    var x, y :| 0 <= x < |cs| && 0 <= y < |cs| && x != y && ContainerLink(cs[x], cs[y]) == Some(rel);
    var a, b := cs[x], cs[y];
    assert a in cs && b in cs;
    DirectoryPairRelation(a.name, b.name);
  }

  /** Conversely, containers app and api always get the "Calls" relationship,
      and api and services the "Uses" one. */
  lemma BuiltContainerRelationsExist(cs: seq<Container>, x: nat, y: nat)
    requires x < |cs| && y < |cs|
    requires (cs[x].name == "app" && cs[y].name == "api") || (cs[x].name == "api" && cs[y].name == "services")
    ensures Link(cs[x].id, cs[y].id, if cs[x].name == "app" then "Calls" else "Uses", None) in ContainerPairRels(cs)
  {
    DirectoryNamesLowerCase();
    assert "app" in ContainerDirectories && "api" in ContainerDirectories && "services" in ContainerDirectories;
    assert x != y;
  }
}
