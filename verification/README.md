# C4 architecture explorer: a verified model of its core

The repository turns a GitHub repository into a C4 architecture model and lets
the user browse it level by level: system context, containers, components and
code. This project models that core in Dafny:

- `RepoUrl`: reading owner and repository from a GitHub URL (`extractRepoInfo`).
- `Builder`: `analyzeRepository` as a pure fold over the results of the
  GitHub requests it makes. The requests are repository metadata, the root
  listing, `package.json` and one listing per relevant directory. Each result
  is either fetched data or a failure.
- `Dependencies`: merging `dependencies` with `devDependencies` in JavaScript
  object-spread order. It also filters out tooling packages and keeps at most
  five major dependencies.
- `Classify`: the four heuristics `detectTechnology`,
  `detectComponentTechnology`, `detectComponentRelationship` and
  `detectContainerRelationship`. Each is also given as a rule table, with a
  lemma tying the two forms together.
- `CodeElements`: `generateCodeElements`, the four class bundles (controller,
  service, React, generic) and the extension stripping of the base name.
- `Projector`: `getEdgeColor` and `createNodesAndEdges` for the four view
  levels. The model covers the node and edge sets, their labels, colours and
  animation, but not their positions.
- `Navigation`: the viewer's `onNodeClick`, `goBack` and `jumpToLevel` as a
  state machine over (level, focus, history).
- `C4`, `Strings`, `Wrappers`: the entities (person, software system,
  container, component, relationship) and the string and option helpers
  that the JavaScript built-ins stand for. The helpers cover `includes`,
  `indexOf`, `replace` with a string pattern, `split`, `toLowerCase` and
  suffix stripping.
- `BuilderFacts`, `ProjectorFacts` and `Scenarios` hold the properties that
  relate several operations, plus worked examples taken from the code's own
  naming conventions.

The external systems of the container view come only from relationships that
touch one of the focused system's containers
(app/components/C4Viewer.tsx:195-212), not from those of the system itself.
The analyzer links each dependency's system to the main system, never to a
container, so on an analyzed repository the container view shows no external
system. The model follows the code here.

## Model

| member | source | states |
|---|---|---|
| RepoUrl.PathSegments | app/utils/githubAnalyzer.ts:61 | the path parts kept are non-empty and contain no slash |
| RepoUrl.ExtractRepoInfo | app/utils/githubAnalyzer.ts:54-70 | a result exists exactly when the URL parsed, the host is github.com and the path has at least two non-empty parts; owner and repo are the first two parts, non-empty and slash-free |
| RepoUrl.ExtractFromRepoPath | app/utils/githubAnalyzer.ts:54-70 | any github.com path `/owner/repo` followed by nothing or by a further `/…` yields exactly that owner and repo |
| RepoUrl.RejectsOtherHosts | app/utils/githubAnalyzer.ts:57-59 | every host other than github.com is rejected, whatever the path |
| RepoUrl.RejectsOwnerOnly | app/utils/githubAnalyzer.ts:62-64 | a path naming only an owner is rejected |
| Strings.JoinSplit | app/utils/githubAnalyzer.ts:61 | splitting on a separator loses nothing: joining the parts again gives back the original string |
| Strings.SplitJoin | app/utils/githubAnalyzer.ts:61 | splitting a join of separator-free parts gives back those parts |
| Strings.Split | app/utils/githubAnalyzer.ts:61 | split always yields at least one part, and no part contains the separator |
| Strings.NonEmpty | app/utils/githubAnalyzer.ts:61 | `filter(Boolean)` keeps exactly the non-empty parts |
| Strings.NonEmptyPosition | app/utils/githubAnalyzer.ts:61 | a kept part sits right after the parts kept before it |
| Strings.NonEmptyKeepsOrder | app/utils/githubAnalyzer.ts:61 | kept parts keep their relative order, so owner and repository are the first two non-empty path parts in order |
| Strings.IndexOf | app/utils/codeElementsGenerator.ts:10 | the index returned is the first occurrence of the pattern; no index means no occurrence anywhere |
| Strings.ReplaceFirst | app/utils/codeElementsGenerator.ts:16 | string `replace` rewrites only the first occurrence: the prefix before it and the suffix after it are unchanged, and with no occurrence the string is returned as is |
| Strings.ReplaceFirstBySelf | app/utils/codeElementsGenerator.ts:16 | replacing a pattern by itself is the identity |
| Strings.StripSuffix | app/utils/codeElementsGenerator.ts:6 | an anchored-suffix regex removes the suffix when present and otherwise leaves the string alone |
| Strings.ToLower | app/utils/githubAnalyzer.ts:301 | lower-casing keeps the length and maps each character on its own |
| Strings.ToLowerIdempotent | app/utils/githubAnalyzer.ts:301 | lower-casing twice is lower-casing once |
| Strings.ContainsLower | app/utils/codeElementsGenerator.ts:10 | an occurrence survives lower-casing both strings |
| Wrappers.OrElse | app/utils/githubAnalyzer.ts:314 | a missing or empty value falls back; any other value is kept |
| C4.FindSystem | app/components/C4Viewer.tsx:148-149 | the lookup finds a system with that id when one exists, and fails exactly when no system has that id |
| C4.FindSystemFirst | app/components/C4Viewer.tsx:148 | `find` returns the first system with that id |
| C4.FindContainer | app/components/C4Viewer.tsx:282-283 | the lookup finds a container with that id when one exists, and fails exactly when there is none |
| C4.FindContainerFirst | app/components/C4Viewer.tsx:282 | `find` returns the first container with that id |
| C4.FindComponent | app/components/C4Viewer.tsx:387-388 | the lookup finds a component with that id when one exists, and fails exactly when there is none |
| C4.FindComponentFirst | app/components/C4Viewer.tsx:387 | `find` returns the first component with that id |
| C4.ContainersOf | app/components/C4Viewer.tsx:160 | keeps exactly the containers belonging to the given system |
| C4.ComponentsOf | app/components/C4Viewer.tsx:294 | keeps exactly the components belonging to the given container |
| C4.ComponentsOfAppend | app/components/C4Viewer.tsx:294 | filtering by container distributes over concatenation |
| Classify.DetectTechnology | app/utils/githubAnalyzer.ts:300-315 | a known directory name (any case) gets its fixed technology; any other directory gets the repository language, or "Unknown" when that is missing or empty |
| Classify.DetectComponentTechnology | app/utils/githubAnalyzer.ts:317-337 | React exactly for .jsx/.tsx, Vue exactly for .vue, TypeScript exactly for .ts, JavaScript exactly for .js; a role label exactly when the name has none of these extensions |
| Classify.FirstMatch | app/utils/githubAnalyzer.ts:317-337 | a rule table yields the outcome of a rule or the fallback, and the fallback whenever no rule fires |
| Classify.ComponentTechnologyByTable | app/utils/githubAnalyzer.ts:317-337 | the if-chain equals the first-match reading of the extension and role table |
| Classify.DetectComponentRelationship | app/utils/githubAnalyzer.ts:339-368 | "Uses" exactly when the lower-cased names follow the controller/provider, service, repository/dao and model layering; "Includes" exactly when a page meets a component and no layering applies; nothing otherwise |
| Classify.FirstPairMatch | app/utils/githubAnalyzer.ts:339-368 | a pair-rule table yields a result exactly when some rule fires, and that result is a rule's outcome |
| Classify.ComponentRelationshipByTable | app/utils/githubAnalyzer.ts:339-368 | the if-chain equals the first-match reading of the seven-rule table on the lower-cased names |
| Classify.DetectContainerRelationship | app/utils/githubAnalyzer.ts:370-397 | "Calls" exactly for app to api; "Reads from and writes to" exactly for services to database/db; "Uses" exactly for the listed pairs; nothing for any other pair |
| Classify.FirstRoleMatch | app/utils/githubAnalyzer.ts:370-397 | a role table yields a result exactly when the pair matches a row, and that result is a row's outcome |
| Classify.ContainerRelationshipByTable | app/utils/githubAnalyzer.ts:370-397 | the if-chain equals the lookup in the container role table |
| Dependencies.Lookup | app/utils/githubAnalyzer.ts:154-157 | a key has a value exactly when it is among the keys |
| Dependencies.Assign | app/utils/githubAnalyzer.ts:154-157 | assigning a property keeps the keys distinct; a new key goes last and an existing key keeps its place |
| Dependencies.AssignLookup | app/utils/githubAnalyzer.ts:154-157 | after assigning, the key holds the new value and every other key its old value |
| Dependencies.Spread | app/utils/githubAnalyzer.ts:154-157 | spreading an object into another keeps the keys distinct |
| Dependencies.SpreadKeys | app/utils/githubAnalyzer.ts:154-157 | the keys after a spread are the old keys followed by the new keys not seen before, in order |
| Dependencies.AddNewDistinct | app/utils/githubAnalyzer.ts:154-157 | appending only unseen keys keeps them distinct and loses no key |
| Dependencies.Merge | app/utils/githubAnalyzer.ts:154-157 | the merged object's keys are distinct; their order is stated by MergeKeys and their values by MergeLookup |
| Dependencies.MergeKeys | app/utils/githubAnalyzer.ts:154-157 | the merged object has the keys of dependencies then devDependencies, each once, in first-seen order |
| Dependencies.SpreadLookup | app/utils/githubAnalyzer.ts:154-157 | after a spread, a key's value comes from the spread object when present there, and from the target otherwise |
| Dependencies.MergeLookup | app/utils/githubAnalyzer.ts:154-157 | in the merge a devDependencies version wins over a dependencies version |
| Dependencies.WithoutTooling | app/utils/githubAnalyzer.ts:159-162 | keeps exactly the entries whose name is not a types, eslint or prettier package |
| Dependencies.WithoutToolingAppend | app/utils/githubAnalyzer.ts:159-162 | the filter keeps relative order: filtering two lists one after the other gives the two filtered lists one after the other |
| Dependencies.WithoutToolingPosition | app/utils/githubAnalyzer.ts:159-162 | a kept entry sits in the filtered list right after the kept entries that precede it in the input |
| Dependencies.MajorDependencies | app/utils/githubAnalyzer.ts:159-163 | the result holds min(5, n) entries, where n is the number of non-tooling entries, and is a prefix of the filtered list; by WithoutToolingAppend that prefix keeps declaration order |
| Dependencies.KeptBeforeCap | app/utils/githubAnalyzer.ts:159-163 | a non-tooling entry with fewer than five non-tooling entries before it is kept, at the position given by that count |
| Dependencies.KeptWhenEarly | app/utils/githubAnalyzer.ts:159-163 | a non-tooling entry with fewer than five non-tooling entries before it is among the kept ones |
| Dependencies.DroppedOnlyPastCap | app/utils/githubAnalyzer.ts:159-163 | a non-tooling entry at index k is left out only when at least five non-tooling entries come before index k, and then exactly five are kept |
| Builder.Link | app/utils/githubAnalyzer.ts:114-119 | a relationship carries the given source, target and description |
| Builder.WithDependencies | app/utils/githubAnalyzer.ts:165-181 | one external system per kept dependency and one "Uses" relationship from the main system to it, appended in dependency order; persons, containers and components untouched |
| Builder.RelevantDirs | app/utils/githubAnalyzer.ts:129-134 | keeps exactly the root entries that are directories with a recognised container name |
| Builder.ContainerFor | app/utils/githubAnalyzer.ts:187-204 | each container belongs to the main system and is named after its directory |
| Builder.ComponentSources | app/utils/githubAnalyzer.ts:214-223 | keeps exactly the subdirectories and the .js, .ts, .jsx and .tsx files of a listing |
| Builder.ComponentFor | app/utils/githubAnalyzer.ts:225-243 | each component belongs to its container and is named after its file |
| Builder.ComponentsFor | app/utils/githubAnalyzer.ts:225-243 | all components of one listing belong to that container |
| Builder.PeerRow | app/utils/githubAnalyzer.ts:245-265 | the relationships from one component are exactly the detected links to the other components of its container |
| Builder.PeerRels | app/utils/githubAnalyzer.ts:245-265 | the relationships are exactly the detected links between distinct components |
| Builder.ContainerRow | app/utils/githubAnalyzer.ts:273-290 | the relationships from one container are exactly the detected links to every other container |
| Builder.ContainerRows | app/utils/githubAnalyzer.ts:273-290 | the container relationships are exactly the detected links over all ordered pairs of distinct containers |
| Builder.Analyze | app/utils/githubAnalyzer.ts:81-297 | failed metadata gives the empty model; otherwise the model is well formed, starts with the main system and with the user's "Uses" relationship |
| Builder.Seeded | app/utils/githubAnalyzer.ts:97-120 | the user, the main system and the user's "Uses" relationship; SeedInvariant states that they form a well-formed model holding the main id |
| Builder.SeedInvariant | app/utils/githubAnalyzer.ts:97-120 | the user, the main system and the Uses relationship form a well-formed model |
| Builder.WithDependenciesInvariant | app/utils/githubAnalyzer.ts:165-181 | adding external systems keeps the model well formed |
| Builder.AppendRelsInvariant | app/utils/githubAnalyzer.ts:245-265 | adding relationships that do not start at the user keeps the model well formed |
| Builder.AppendContainerInvariant | app/utils/githubAnalyzer.ts:187-204 | adding a container of a known system keeps the model well formed |
| Builder.AppendComponentsInvariant | app/utils/githubAnalyzer.ts:225-243 | adding components of a known container keeps the model well formed |
| Builder.PeerRelsLeaveOuter | app/utils/githubAnalyzer.ts:245-265 | component relationships never start at the user |
| Builder.ComponentsForNotUser | app/utils/githubAnalyzer.ts:225-243 | no component takes the user's id |
| Builder.AddContainer | app/utils/githubAnalyzer.ts:187-269 | one directory step; its exact effect is stated by BuilderFacts.AddContainerShape and its preservation of well-formedness by AddContainerInvariant |
| Builder.AddContainers | app/utils/githubAnalyzer.ts:187-269 | the directory loop; BuilderFacts.AddContainersShape states the containers and components it adds, AddContainersInvariant the invariant it keeps |
| Builder.WithContainers | app/utils/githubAnalyzer.ts:187-290 | the loop followed by the container pairs; WithContainersInvariant and BuilderFacts.WithContainersNamed state what it keeps |
| Builder.AddContainerInvariant | app/utils/githubAnalyzer.ts:187-269 | one directory step, with a fetched or a failed listing, keeps the model well formed and the systems unchanged |
| Builder.AddContainersInvariant | app/utils/githubAnalyzer.ts:187-269 | the whole directory loop keeps the model well formed |
| Builder.WithContainersInvariant | app/utils/githubAnalyzer.ts:187-290 | the loop followed by the container pairs keeps the model well formed |
| Builder.AddContainersPrefix | app/utils/githubAnalyzer.ts:187-269 | the directory loop only appends relationships and never rewrites earlier ones |
| BuilderFacts.AddContainerShape | app/utils/githubAnalyzer.ts:187-269 | one step adds exactly one container and its listing's components; it appends the system's Contains link, one Contains link per new component and, only for a fetched listing, the heuristic links among the container's components |
| BuilderFacts.AddContainersKeepsSystems | app/utils/githubAnalyzer.ts:187-269 | the directory loop leaves persons and systems unchanged |
| BuilderFacts.AddContainersContainers | app/utils/githubAnalyzer.ts:187-204 | the loop adds one container per relevant directory, in directory order |
| BuilderFacts.AddContainersComponents | app/utils/githubAnalyzer.ts:207-243 | the loop adds exactly the components of every listing, in directory order |
| BuilderFacts.AddContainersShape | app/utils/githubAnalyzer.ts:187-269 | the loop's persons, systems, containers and components are as the two lemmas above state |
| BuilderFacts.AnalyzeShape | app/utils/githubAnalyzer.ts:81-297 | a successful analysis has the single user, one container per relevant directory and the components of their listings |
| BuilderFacts.ContainersFromRelevantDirs | app/utils/githubAnalyzer.ts:129-134 | every container comes from a relevant root directory |
| BuilderFacts.RelevantDirsBecomeContainers | app/utils/githubAnalyzer.ts:187-204 | every relevant root directory becomes a container |
| BuilderFacts.ComponentOrigin | app/utils/githubAnalyzer.ts:214-243 | every component is a source entry of some relevant directory's listing, with the id, container and name built from both |
| BuilderFacts.ListingFailureIsolated | app/utils/githubAnalyzer.ts:267-269 | a failed listing only loses that directory's components; the others are as if it were absent |
| BuilderFacts.Elsewhere | app/utils/githubAnalyzer.ts:267-269 | keeps exactly the directories at other paths |
| BuilderFacts.AddContainerContained | app/utils/githubAnalyzer.ts:187-243 | one step keeps every container inside the main system and every component inside a known container |
| BuilderFacts.AddContainersContained | app/utils/githubAnalyzer.ts:187-243 | the same for the whole loop |
| BuilderFacts.EveryChildContained | app/utils/githubAnalyzer.ts:81-297 | in every analysis result, containers belong to the main system and components to existing containers |
| BuilderFacts.DependencySystems | app/utils/githubAnalyzer.ts:137-184 | with a decoded manifest the systems are the main system followed by at most five non-tooling external systems, one per kept dependency |
| BuilderFacts.ExternalSystemsOf | app/utils/githubAnalyzer.ts:165-181 | external systems are at most five and each is named after a non-tooling dependency |
| BuilderFacts.AnalyzeSystemsWithManifest | app/utils/githubAnalyzer.ts:137-184 | the systems of the analysis are exactly the dependency step applied to the main system |
| BuilderFacts.MergedVersion | app/utils/githubAnalyzer.ts:154-181 | the dependency step's Uses link for each kept dependency carries the devDependencies version when there is one, the dependencies version otherwise |
| BuilderFacts.AnalyzeKeepsDependencyRels | app/utils/githubAnalyzer.ts:165-269 | with a decoded manifest, the relationships of the dependency step survive the container loop unchanged, in place |
| BuilderFacts.DependencyVersion | app/utils/githubAnalyzer.ts:154-181 | in the analysis result, the relationship right after the user's is the main system's Uses link to the matching dependency's system, carrying the devDependencies version when there is one and the dependencies version otherwise |
| BuilderFacts.WithContainersNamed | app/utils/githubAnalyzer.ts:187-269 | the container loop only adds containers and components with non-empty ids |
| BuilderFacts.EveryIdNamed | app/utils/githubAnalyzer.ts:81-269 | every person, system, container and component id the analysis creates is non-empty |
| BuilderFacts.RootFailureKeepsSeed | app/utils/githubAnalyzer.ts:292-296 | when the root listing fails or is not a directory, the result is just user, main system and the Uses relationship |
| BuilderFacts.ManifestFailureKeepsSeed | app/utils/githubAnalyzer.ts:141-151 | a package.json that cannot be fetched or parsed aborts the rest of the analysis, which keeps only the user, the main system and their relationship |
| BuilderFacts.ManifestIgnoredWithoutPackageJson | app/utils/githubAnalyzer.ts:137-141 | without a package.json in the root, the manifest result has no effect |
| BuilderFacts.PeerRelsWithinContainer | app/utils/githubAnalyzer.ts:245-265 | component relationships only join two distinct components of the same container |
| BuilderFacts.DirectoryNamesLowerCase | app/utils/githubAnalyzer.ts:129-134 | the recognised directory names are already lower case |
| BuilderFacts.DirectoryPairRelation | app/utils/githubAnalyzer.ts:273-290 | among the recognised directories only app to api ("Calls") and api to services ("Uses") ever relate |
| BuilderFacts.BuiltContainerRelations | app/utils/githubAnalyzer.ts:273-290 | every container relationship is app to api "Calls" or api to services "Uses" |
| BuilderFacts.BuiltContainerRelationsExist | app/utils/githubAnalyzer.ts:273-290 | every app/api and api/services container pair does get its relationship |
| CodeElements.BaseName | app/utils/codeElementsGenerator.ts:6 | the name with trailing .tsx, .jsx, .ts and .js removed in turn; stated by BaseNameStripsExtension, BaseNameKeepsOtherNames and BaseNameSequential |
| CodeElements.BaseNameStripsExtension | app/utils/codeElementsGenerator.ts:6 | a name made of a plain stem and one script extension has the stem as its base name |
| CodeElements.BaseNameKeepsOtherNames | app/utils/codeElementsGenerator.ts:6 | a name without a script extension is its own base name |
| CodeElements.BaseNameSequential | app/utils/codeElementsGenerator.ts:6 | the four replacements run one after another, so `index.js.tsx` loses both extensions |
| CodeElements.ArchetypeOf | app/utils/codeElementsGenerator.ts:10-165 | controller bundle exactly when the name mentions controller in any case; service bundle exactly when it mentions service and not controller; React bundle exactly when neither and the technology mentions react, jsx or tsx |
| CodeElements.GenerateCodeElements | app/utils/codeElementsGenerator.ts:4-207 | three or four elements, four exactly for the controller and React bundles |
| CodeElements.GeneratedNamesDistinct | app/utils/codeElementsGenerator.ts:4-207 | the generated element names are pairwise distinct |
| CodeElements.ControllerElements | app/utils/codeElementsGenerator.ts:12-73 | the controller bundle; its names are stated by ControllerNames, its kinds by ControllerBundleKinds |
| CodeElements.ServiceElements | app/utils/codeElementsGenerator.ts:74-115 | the service bundle; its names and kinds are stated by ServiceBundleShape |
| CodeElements.ReactElements | app/utils/codeElementsGenerator.ts:116-164 | the React bundle; its names and kinds are stated by ReactBundleShape |
| CodeElements.GenericElements | app/utils/codeElementsGenerator.ts:165-205 | the generic bundle; its names and kinds are stated by GenericBundleShape |
| CodeElements.ControllerNamesDistinct | app/utils/codeElementsGenerator.ts:12-73 | the controller bundle's names are pairwise distinct |
| CodeElements.ServiceNamesDistinct | app/utils/codeElementsGenerator.ts:74-115 | the service bundle's names are pairwise distinct |
| CodeElements.ReactNamesDistinct | app/utils/codeElementsGenerator.ts:116-164 | the React bundle's names are pairwise distinct |
| CodeElements.GenericNamesDistinct | app/utils/codeElementsGenerator.ts:165-205 | the generic bundle's names are pairwise distinct |
| CodeElements.ControllerEntity | app/utils/codeElementsGenerator.ts:16 | removing "Controller" from entity + "Controller" gives the entity back |
| CodeElements.ControllerNames | app/utils/codeElementsGenerator.ts:12-73 | the controller bundle is the doubled controller class, then the entity's service, repository and model |
| CodeElements.ControllerBundleNames | app/utils/codeElementsGenerator.ts:12-73 | for `XController` the classes are `XControllerController`, `XService`, `XRepository` and `X` |
| CodeElements.ControllerBundleKinds | app/utils/codeElementsGenerator.ts:12-73 | in the controller bundle only the repository is an interface; the controller, the service and the entity are classes |
| CodeElements.ServiceStem | app/utils/codeElementsGenerator.ts:83 | removing "Service" from stem + "Service" gives the stem back |
| CodeElements.ServiceBundleNames | app/utils/codeElementsGenerator.ts:74-115 | for `XService` the classes are `XService`, `XRepository` and `XData` |
| CodeElements.ReactBundleShape | app/utils/codeElementsGenerator.ts:116-164 | the React bundle is component, props interface, state interface and service, named after the base name |
| CodeElements.ServiceBundleShape | app/utils/codeElementsGenerator.ts:74-115 | the service bundle is the service class named by the base, then the stem's repository interface and data class |
| CodeElements.GenericBundleShape | app/utils/codeElementsGenerator.ts:165-205 | the generic bundle is exactly three classes: the base, base + "Helper" and base + "Factory" |
| Projector.GetEdgeColor | app/components/C4Viewer.tsx:77-91 | blue exactly for API-like relationships; gray exactly for "contains"; green exactly for data access; never purple; slate otherwise |
| Projector.Animated | app/components/C4Viewer.tsx:138 | a relationship's edge is animated when its technology contains "API", case-sensitively; Projector.Edges applies it and ProjectorFacts.AnimatedIsBlue relates it to the colour |
| ProjectorFacts.AnimatedIsBlue | app/components/C4Viewer.tsx:77-138 | every animated edge is also coloured blue by getEdgeColor |
| Projector.RelEdge | app/components/C4Viewer.tsx:131-139 | an edge keeps the relationship's id, endpoints and description |
| Projector.Between | app/components/C4Viewer.tsx:121-130 | keeps exactly the relationships whose two ends are both shown |
| Projector.Edges | app/components/C4Viewer.tsx:121-141 | one edge per relationship, in order |
| Projector.ContextDiagram | app/components/C4Viewer.tsx:99-143 | the nodes are the persons then the systems; the edges are exactly the relationships between them, animated when API-like |
| Projector.ExternalEndpoints | app/components/C4Viewer.tsx:195-225 | the external systems shown are exactly the other external systems touching one of the focus system's containers |
| Projector.FoundSystems | app/components/C4Viewer.tsx:214-225 | every listed id that names a system gets a system node, and no other node is made |
| Projector.ExternalRels | app/components/C4Viewer.tsx:228-243 | keeps exactly the relationships between a shown external system and a container |
| Projector.PersonRels | app/components/C4Viewer.tsx:246-276 | keeps exactly the relationships between the person and the focus system or its containers |
| Projector.InteractingPersons | app/components/C4Viewer.tsx:246-276 | a person is shown exactly when some relationship links them to the focus system or its containers |
| Projector.ContainerDiagram | app/components/C4Viewer.tsx:146-277 | an unknown system gives nothing; otherwise the system node comes first, then its containers, then the nodes of the interacting external systems, then the interacting persons |
| Projector.InteractingCandidates | app/components/C4Viewer.tsx:328-340 | a container is a candidate exactly when some relationship runs from a focus component to one of its components or, when the source is no focus component, from one of its components into the focus; such a container is always real and distinct from the focus |
| Projector.FoundContainers | app/components/C4Viewer.tsx:343-353 | every listed container id gets an external container node, and no other node is made |
| Projector.CrossEdge | app/components/C4Viewer.tsx:356-381 | when the relationship's first-found source component is in the focus and its target component's container is shown, the edge runs from that component to the container; otherwise, when the target is in the focus and the source's container is shown, it runs from the container to the target component; otherwise there is no edge. The edge carries the relationship's description and colour and is not animated |
| Projector.CrossEdges | app/components/C4Viewer.tsx:356-381 | every cross edge joins a focus component and a shown other container, and the edges are exactly those the relationships yield one by one |
| Projector.ComponentDiagram | app/components/C4Viewer.tsx:280-382 | an unknown container gives nothing; otherwise the container node comes first, then its components, then the interacting containers marked external |
| Projector.ImplementsEdges | app/components/C4Viewer.tsx:403-425 | one purple "Implements" edge from the component to each code element |
| Projector.CodeNodes | app/components/C4Viewer.tsx:403-425 | one code node per generated element, with an id derived from its name |
| Projector.CodeDiagramFor | app/components/C4Viewer.tsx:385-451 | the component node, then its code nodes; the implements edges come first, then the uses edges |
| Projector.Core | app/components/C4Viewer.tsx:435-436 | a name with its first Controller, then Service, then Repository removed; ProjectorFacts.ControllerRelatedToLayers states what it gives for layered names |
| Projector.Related | app/components/C4Viewer.tsx:434-436 | two names are related when either contains the other's core; ProjectorFacts.UsesEdgeIffRelated ties it to the Uses edges |
| ProjectorFacts.ControllerRelatedToLayers | app/components/C4Viewer.tsx:434-436 | for an entity name holding none of the three words, the controller's core is the entity, so the controller is related to the entity's service and repository |
| Projector.UsesEdges | app/components/C4Viewer.tsx:428-448 | one "Uses" edge per related pair of elements, in pair order |
| Projector.CodeDiagram | app/components/C4Viewer.tsx:385-451 | an unknown component gives nothing; otherwise its generated code view |
| Projector.Project | app/components/C4Viewer.tsx:94-458 | below the context level, a missing or empty focus gives the empty diagram |
| ProjectorFacts.ProjectClosed | app/components/C4Viewer.tsx:94-458 | at every level, every edge's two ends are nodes of the diagram |
| ProjectorFacts.ContainerDiagramClosed | app/components/C4Viewer.tsx:146-277 | the container view has no dangling edge |
| ProjectorFacts.ComponentDiagramClosed | app/components/C4Viewer.tsx:280-382 | the component view has no dangling edge |
| ProjectorFacts.CodeDiagramClosed | app/components/C4Viewer.tsx:385-451 | the code view has no dangling edge |
| ProjectorFacts.PairsIff | app/components/C4Viewer.tsx:428-436 | the pair loop visits exactly the related pairs (a, b) with a before b |
| ProjectorFacts.UsesEdgeIffRelated | app/components/C4Viewer.tsx:428-448 | a Uses edge joins two elements exactly when either name contains the other with its first Controller, Service and Repository removed |
| ProjectorFacts.CodeIdInjective | app/components/C4Viewer.tsx:410-411 | distinct element names give distinct node ids |
| ProjectorFacts.UnknownFocusEmpty | app/components/C4Viewer.tsx:149 | focusing on an id unknown at that level shows nothing |
| ProjectorFacts.EdgesIff | app/components/C4Viewer.tsx:172-192 | the edges drawn from a list of relationships are exactly those relationships, each redrawn |
| ProjectorFacts.OutwardRelsIff | app/components/C4Viewer.tsx:195-243 | an external edge is drawn exactly for a relationship between one of the system's containers and an external system other than the focus |
| ProjectorFacts.PersonalRelsIff | app/components/C4Viewer.tsx:246-276 | a person edge is drawn exactly for a relationship between some person and the system or one of its containers |
| ProjectorFacts.ContainerViewLayout | app/components/C4Viewer.tsx:146-276 | the container view's nodes are the system, its containers, the interacting external systems and the interacting persons, in that order |
| ProjectorFacts.ContainerViewEdges | app/components/C4Viewer.tsx:146-277 | the container view draws an edge exactly for an inner or external relationship, animated when its technology mentions API, or for a person relationship, never animated |
| ProjectorFacts.ContainerViewOthers | app/components/C4Viewer.tsx:195-276 | the external systems drawn are exactly the other external systems at an end of a relationship touching a container; the persons drawn are exactly those linked to the system or a container |
| ProjectorFacts.ComponentViewOutgoingEdge | app/components/C4Viewer.tsx:328-369 | a relationship from a focus component to a component of another known container is drawn from the component to that container |
| ProjectorFacts.ComponentViewIncomingEdge | app/components/C4Viewer.tsx:328-379 | a relationship into a focus component from a component of another known container, whose source id is none of the focus's components, is drawn from that container to the component |
| ProjectorFacts.CrossEdgeDrawn | app/components/C4Viewer.tsx:328-381 | a relationship that reaches container x makes x a shown container and puts its cross edge in the component view |
| ProjectorFacts.ComponentViewEdges | app/components/C4Viewer.tsx:305-381 | the component view draws an edge exactly for a relationship among the container and its components, or as a relationship re-pointed across the container's boundary |
| ProjectorFacts.ComponentViewOthers | app/components/C4Viewer.tsx:327-353 | the containers drawn after the components are exactly those reached by a relationship from or into a focus component |
| ProjectorFacts.UsesEdgesIff | app/components/C4Viewer.tsx:428-448 | the Uses edges are exactly one per ordered pair of related elements |
| ProjectorFacts.CodeViewEdges | app/components/C4Viewer.tsx:403-448 | the code view draws exactly an Implements edge to each element and a Uses edge per related pair |
| ProjectorFacts.KnownFocusFirst | app/components/C4Viewer.tsx:146-451 | focusing on a known id shows a diagram whose first node is the focus |
| ProjectorFacts.ContainerViewShowsContainers | app/components/C4Viewer.tsx:160-170 | every container of the focus system is shown |
| ProjectorFacts.ComponentViewShowsComponents | app/components/C4Viewer.tsx:294-304 | every component of the focus container is shown |
| ProjectorFacts.ContextEdgesBetweenTopLevel | app/components/C4Viewer.tsx:121-141 | a relationship is drawn in the context view exactly when both ends are persons or systems |
| ProjectorFacts.CodeViewSize | app/components/C4Viewer.tsx:385-425 | a component's code view has four or five nodes |
| ProjectorFacts.ContextSystemNode | app/components/C4Viewer.tsx:111-118 | every system node in the context view is a system of the model |
| ProjectorFacts.ContainerViewContainerNode | app/components/C4Viewer.tsx:160-170 | every container node in the container view is a container of the model |
| ProjectorFacts.ComponentViewComponentNode | app/components/C4Viewer.tsx:294-304 | every component node in the component view is a component of the model |
| ProjectorFacts.ContainsIsGray | app/components/C4Viewer.tsx:82-83 | "Contains" relationships are gray |
| ProjectorFacts.CallsIsBlue | app/components/C4Viewer.tsx:78-81 | "Calls" relationships are blue |
| ProjectorFacts.ReadsWritesIsGreen | app/components/C4Viewer.tsx:84-87 | "Reads from and writes to" relationships are green |
| ProjectorFacts.UsesColor | app/components/C4Viewer.tsx:77-91 | a "Uses" relationship is blue exactly when its technology mentions api, slate otherwise |
| ProjectorFacts.IncludesIsSlate | app/components/C4Viewer.tsx:77-91 | "Includes" relationships are slate |
| ProjectorFacts.LowerApiColoursButDoesNotAnimate | app/components/C4Viewer.tsx:77-91 | a technology "rest api" makes the edge blue, yet the case-sensitive animation test leaves it still |
| Navigation.Enter | app/components/C4Viewer.tsx:475-499 | drilling in pushes exactly one entry and keeps the earlier history |
| Navigation.OnNodeClick | app/components/C4Viewer.tsx:475-499 | a click moves exactly one level down, for an internal system in context view, a container with components in container view, or a component in component view; any other click changes nothing |
| Navigation.GoBack | app/components/C4Viewer.tsx:502-515 | with more than one entry, the last entry is dropped and the view returns to the new last one; otherwise nothing changes |
| Navigation.FindLevel | app/components/C4Viewer.tsx:520 | finds the first history entry at the level, and fails exactly when there is none |
| Navigation.JumpToLevel | app/components/C4Viewer.tsx:518-534 | a level in the history trims the history to it and restores its focus; otherwise the history restarts at that level |
| Navigation.InitValid | app/components/C4Viewer.tsx:461-463 | the initial state is valid: the history is non-empty, its last entry is the current (level, focus), and each entry is one level below the one before it |
| Navigation.OnNodeClickValid | app/components/C4Viewer.tsx:475-499 | clicks keep the state valid |
| Navigation.GoBackValid | app/components/C4Viewer.tsx:502-515 | going back keeps the state valid, so the history never becomes empty |
| Navigation.JumpToLevelValid | app/components/C4Viewer.tsx:518-534 | jumping keeps the state valid, even to a level missing from the history |
| Navigation.HistoryBounded | app/components/C4Viewer.tsx:461-534 | the history never holds more than four entries, one per level below the first |
| Navigation.FindLevelUnique | app/components/C4Viewer.tsx:520 | each level occurs at most once in a valid history |
| Navigation.BackUndoesClick | app/components/C4Viewer.tsx:475-515 | going back after a drill-down restores the earlier state exactly |
| Navigation.JumpToCurrentLevel | app/components/C4Viewer.tsx:518-534 | jumping to the current level changes nothing |
| Navigation.GoBackTimes | app/components/C4Viewer.tsx:502-515 | going back k times drops k entries when there are more than k |
| Navigation.JumpToEntry | app/components/C4Viewer.tsx:518-528 | jumping to a level in the history lands on that entry with the history up to it |
| Navigation.JumpAfterBack | app/components/C4Viewer.tsx:502-534 | going back first does not change where a jump to an earlier level lands |
| Navigation.JumpIsRepeatedBack | app/components/C4Viewer.tsx:502-534 | jumping to a level in the history is the same as going back the right number of times |
| Navigation.ClickLandsOnKnownFocus | app/components/C4Viewer.tsx:94-499 | clicking a shown node moves one level down and focuses that node's id, which the next level knows; with a non-empty id the next view draws that node first |
| Navigation.AnalyzedClickDrawsNode | app/components/C4Viewer.tsx:94-499 | on a model the analyzer built, a drill-down always draws the clicked node first |
| Scenarios.ControllerUsesService | app/utils/githubAnalyzer.ts:343-346 | UserController uses UserService |
| Scenarios.ServiceDoesNotUseController | app/utils/githubAnalyzer.ts:339-368 | the layering is one-way: UserService does not use UserController |
| Scenarios.AppCallsApiOneWay | app/utils/githubAnalyzer.ts:370-397 | app calls api, and api has no relationship back to app |
| Scenarios.ToolingDropped | app/utils/githubAnalyzer.ts:159-163 | types and eslint packages are dropped, react is kept |
| Scenarios.DevVersionWins | app/utils/githubAnalyzer.ts:154-157 | a devDependencies version overrides the dependencies version and keeps the first position |
| Scenarios.ButtonIsReact | app/utils/codeElementsGenerator.ts:116 | Button.tsx with React technology gets the React bundle |
| Scenarios.ButtonBase | app/utils/codeElementsGenerator.ts:6 | Button.tsx has the base name Button |
| Scenarios.ReactFileBundle | app/utils/codeElementsGenerator.ts:116-164 | a .tsx file that is no controller or service gets component, props, state and service classes named after its stem |
| Scenarios.DrillDownAndJumpHome | app/components/C4Viewer.tsx:475-534 | two clicks reach the component view with three history entries, and jumping to context returns to the initial state |

## Left out

- Strings.ToLower: lower-cases ASCII letters only; JavaScript's `toLowerCase` also maps non-ASCII letters.
- Dependencies.Merge: keys keep insertion order. JavaScript puts integer-like keys first, but package names are never integer-like.
- Dependency values are modelled as strings. A `package.json` whose fields are missing or not objects is modelled as empty dependency lists, and a JSON parse error counts as a failed fetch.
- The GitHub client, base64 decoding and `JSON.parse` are not modelled. Each request becomes an input that is either fetched data or a failure. A directory listing is a function from path to result.
- `new URL`: parsing is an input that is either absent (parse error) or a hostname and pathname pair.
- `console.error` logging and the `try`/`catch` structure are not modelled. Only their effect on the model (which parts are kept) is.
- Node positions, the dagre layout (`getLayoutedElements`), the radial placement of external nodes, edge styling beyond colour, animation and label, and marker arrows are presentation only.
- React hooks, effects and component rendering are modelled as a pure state machine over (level, focus, history). The page, input form, node renderers and toast provider are not part of this model.
- Projector.ContextDiagram: it states the node order (persons, then systems) but only the set of edges, not their order.
- Navigation.ClickLandsOnKnownFocus: a node whose id is empty still opens an empty view, as in the viewer, which treats an empty focus as none; the analyzer never creates such an id (BuilderFacts.EveryIdNamed).
- Projector.UsesEdges: the element pair order is stated through `Pairs`; the edge label and id are fixed by `UsesEdge`.
- Builder.ComponentsFor: it states container membership only; names and ids are stated by BuilderFacts.ComponentOrigin.
- ProjectorFacts.ComponentViewIncomingEdge: it assumes the source id is none of the focus's component ids. Otherwise the interacting-container scan takes its first branch for that relationship, so the source's container is shown only if another relationship reaches it. This can only happen when two components share an id.
- Random ids, timestamps and the UI's loading and error states are not modelled.
