/** `generateCodeElements`: the canned class diagram shown at the code level
    for one component. It is a pure function of the component's name and
    technology: strip the script extension, pick one of four archetypes in
    a fixed priority order, and emit that archetype's fixed bundle of
    three or four named elements.
 */
module CodeElements {
  import opened Wrappers
  import opened Strings

  datatype ElementKind = ClassElement | InterfaceElement | ComponentElement

  datatype Visibility = Public | Private

  datatype Field = Field(visibility: Visibility, name: string, typeName: string)

  datatype Operation = Operation(visibility: Visibility, name: string, params: string, returnType: string)

  /** A bundle element without `properties` or `methods` has them empty here. */
  datatype CodeElement = CodeElement(
    name: string, kind: ElementKind, properties: seq<Field>, methods: seq<Operation>)

  datatype Archetype = ControllerBundle | ServiceBundle | ReactBundle | GenericBundle

  // ---------------------------------------------------------------------
  // Base name
  // ---------------------------------------------------------------------

  const ScriptExtensions := [".tsx", ".jsx", ".ts", ".js"]

  /** The four anchored suffix removals, applied one after the other. */
  function BaseName(name: string): string {
    StripSuffix(StripSuffix(StripSuffix(StripSuffix(name, ".tsx"), ".jsx"), ".ts"), ".js")
  }

  predicate EndsWithScriptExtension(s: string) {
    exists i :: 0 <= i < |ScriptExtensions| && EndsWith(s, ScriptExtensions[i])
  }

  /** A string ending with two suffixes, the shorter one ends the longer. */
  lemma SuffixOfSuffix(s: string, a: string, b: string)
    requires EndsWith(s, a) && EndsWith(s, b) && |b| <= |a|
    ensures EndsWith(a, b)
  {
    assert a[|a| - |b|..] == s[|s| - |b|..];
  }

  /** A name without a script extension is its own base name. */
  lemma BaseNameKeepsOtherNames(name: string)
    requires !EndsWithScriptExtension(name)
    ensures BaseName(name) == name
  {
    assert !EndsWith(name, ScriptExtensions[0]) && !EndsWith(name, ScriptExtensions[1]);
    assert !EndsWith(name, ScriptExtensions[2]) && !EndsWith(name, ScriptExtensions[3]);
  }

  /** Two suffixes of one string: the shorter ends the longer. */
  lemma SuffixClash(s: string, a: string, b: string)
    requires EndsWith(s, a) && EndsWith(s, b)
    ensures if |b| <= |a| then EndsWith(a, b) else EndsWith(b, a)
  {
    if |b| <= |a| { SuffixOfSuffix(s, a, b); } else { SuffixOfSuffix(s, b, a); }
  }

  /** `.ts` and `.js` are not suffixes of one another, nor of the longer
      extensions other than their own. */
  lemma ExtensionsUnrelated()
    ensures !EndsWith(".tsx", ".jsx") && !EndsWith(".jsx", ".tsx")
    ensures !EndsWith(".tsx", ".ts") && !EndsWith(".jsx", ".ts") && !EndsWith(".tsx", ".js")
    ensures !EndsWith(".jsx", ".js") && !EndsWith(".ts", ".js") && !EndsWith(".js", ".ts")
  {
    assert ".tsx"[1..] == "tsx";
    assert ".jsx"[1..] == "jsx";
    assert ".tsx"[2..] == "sx";
    assert ".jsx"[2..] == "sx";
  }

  /** The base name of a stem without a script extension is the stem. */
  lemma StemUnchanged(stem: string)
    requires !EndsWithScriptExtension(stem)
    ensures StripSuffix(StripSuffix(StripSuffix(stem, ".jsx"), ".ts"), ".js") == stem
    ensures StripSuffix(StripSuffix(stem, ".ts"), ".js") == stem
    ensures StripSuffix(stem, ".js") == stem
  {
    assert !EndsWith(stem, ScriptExtensions[1]);
    assert !EndsWith(stem, ScriptExtensions[2]) && !EndsWith(stem, ScriptExtensions[3]);
  }

  /** `stem + ext` ends with no other script extension than `ext`. */
  lemma OnlyItsExtension(stem: string, ext: string, x: string)
    requires ext in ScriptExtensions && x in ScriptExtensions && ext != x
    ensures !EndsWith(stem + ext, x)
  {
    var s := stem + ext;
    assert EndsWith(s, ext) by { assert s[|s| - |ext|..] == ext; }
    ExtensionsUnrelated();
    if EndsWith(s, x) { SuffixClash(s, ext, x); }
  }

  lemma Stripped(stem: string, ext: string)
    ensures StripSuffix(stem + ext, ext) == stem
  {
    var s := stem + ext;
    assert EndsWith(s, ext) by { assert s[|s| - |ext|..] == ext; }
  }

  /** Adding one script extension to a stem without one and taking the base
      name gives the stem back. */
  lemma BaseNameStripsExtension(stem: string, ext: string)
    requires ext in ScriptExtensions && !EndsWithScriptExtension(stem)
    ensures BaseName(stem + ext) == stem
  {
    var s := stem + ext;
    Stripped(stem, ext);
    StemUnchanged(stem);
    if ext == ".tsx" {
      assert BaseName(s) == StripSuffix(StripSuffix(StripSuffix(stem, ".jsx"), ".ts"), ".js");
    } else if ext == ".jsx" {
      OnlyItsExtension(stem, ext, ".tsx");
      assert BaseName(s) == StripSuffix(StripSuffix(stem, ".ts"), ".js");
    } else if ext == ".ts" {
      OnlyItsExtension(stem, ext, ".tsx");
      OnlyItsExtension(stem, ext, ".jsx");
      assert BaseName(s) == StripSuffix(stem, ".js");
    } else {
      OnlyItsExtension(stem, ext, ".tsx");
      OnlyItsExtension(stem, ext, ".jsx");
      OnlyItsExtension(stem, ext, ".ts");
      assert BaseName(s) == StripSuffix(s, ".js");
    }
  }

  /** The removals are sequential, not first-match: a doubled extension loses both. */
  lemma BaseNameSequential()
    ensures BaseName("index.js.tsx") == "index"
  {
    assert StripSuffix("index.js.tsx", ".tsx") == "index.js";
    assert !EndsWith("index.js", ".jsx") && !EndsWith("index.js", ".ts");
    assert StripSuffix("index.js", ".js") == "index";
  }

  // ---------------------------------------------------------------------
  // Archetype
  // ---------------------------------------------------------------------

  lemma LowerWords()
    ensures ToLower("Controller") == "controller" && ToLower("Service") == "service"
  {
    assert LowerChar('C') == 'c' && LowerChar('S') == 's';
    ToLowerIdentity("ontroller");
    ToLowerIdentity("ervice");
    assert ToLower("Controller") == [LowerChar('C')] + ToLower("ontroller");
    assert ToLower("Service") == [LowerChar('S')] + ToLower("ervice");
  }

  /** The capitalised word matches only where the lower-case test would. */
  lemma CapitalisedWordsLower(name: string)
    ensures Contains(name, "Controller") ==> Contains(ToLower(name), "controller")
    ensures Contains(name, "Service") ==> Contains(ToLower(name), "service")
  {
    LowerWords();
    if Contains(name, "Controller") { ContainsLower(name, "Controller"); }
    if Contains(name, "Service") { ContainsLower(name, "Service"); }
  }

  /** Name tests first (each tries the exact word, then the lower-cased
      name), the lower-cased technology last. */
  function ArchetypeOf(name: string, technology: string): (r: Archetype)
    ensures r == ControllerBundle <==> Contains(ToLower(name), "controller")
    ensures r == ServiceBundle <==>
      !Contains(ToLower(name), "controller") && Contains(ToLower(name), "service")
    ensures r == ReactBundle <==>
      && !Contains(ToLower(name), "controller") && !Contains(ToLower(name), "service")
      && (Contains(ToLower(technology), "react") || Contains(ToLower(technology), "jsx")
          || Contains(ToLower(technology), "tsx"))
  {
    CapitalisedWordsLower(name);
    var tech := ToLower(technology);
    if Contains(name, "Controller") || Contains(ToLower(name), "controller") then ControllerBundle
    else if Contains(name, "Service") || Contains(ToLower(name), "service") then ServiceBundle
    else if Contains(tech, "react") || Contains(tech, "jsx") || Contains(tech, "tsx") then ReactBundle
    else GenericBundle
  }

  // ---------------------------------------------------------------------
  // Bundles
  // ---------------------------------------------------------------------

  function Pub(name: string, params: string, returnType: string): Operation {
    Operation(Public, name, params, returnType)
  }

  /** A controller, the service it delegates to, that service's repository
      and the entity, where the entity name is the base name with its first
      "Controller" removed. */
  function ControllerElements(base: string): seq<CodeElement> {
    var entity := ReplaceFirst(base, "Controller", "");
    [ CodeElement(base + "Controller", ClassElement,
        [Field(Private, "service", entity + "Service")],
        [Pub("constructor", entity + "Service service", "void"), Pub("getAll", "", "List<Entity>"),
         Pub("getById", "string id", "Entity"), Pub("create", "Entity data", "Entity"),
         Pub("update", "string id, Entity data", "Entity"), Pub("delete", "string id", "void")]),
      CodeElement(entity + "Service", ClassElement,
        [Field(Private, "repository", entity + "Repository")],
        [Pub("constructor", entity + "Repository repository", "void"), Pub("findAll", "", "List<Entity>"),
         Pub("findById", "string id", "Entity"), Pub("create", "Entity data", "Entity"),
         Pub("update", "string id, Entity data", "Entity"), Pub("remove", "string id", "void")]),
      CodeElement(entity + "Repository", InterfaceElement, [],
        [Pub("findAll", "", "List<Entity>"), Pub("findById", "string id", "Entity"),
         Pub("save", "Entity data", "Entity"), Pub("delete", "string id", "void")]),
      CodeElement(entity, ClassElement,
        [Field(Private, "id", "string"), Field(Private, "name", "string"),
         Field(Private, "createdAt", "Date"), Field(Private, "updatedAt", "Date")],
        [Pub("constructor", "string name", "void"), Pub("getId", "", "string"),
         Pub("getName", "", "string"), Pub("setName", "string name", "void")]) ]
  }

  /** The service itself, its repository and its data class, where the stem
      is the base name with its first "Service" removed. */
  function ServiceElements(base: string): seq<CodeElement> {
    var stem := ReplaceFirst(base, "Service", "");
    [ CodeElement(base, ClassElement,
        [Field(Private, "repository", stem + "Repository")],
        [Pub("constructor", stem + "Repository repository", "void"), Pub("processData", "Data data", "Result"),
         Pub("validateInput", "Input input", "boolean"),
         Pub("transformOutput", "Output output", "TransformedOutput")]),
      CodeElement(stem + "Repository", InterfaceElement, [],
        [Pub("save", "Entity entity", "Entity"), Pub("find", "Criteria criteria", "List<Entity>"),
         Pub("delete", "string id", "void")]),
      CodeElement(stem + "Data", ClassElement,
        [Field(Private, "id", "string"), Field(Private, "content", "string"),
         Field(Private, "metadata", "Map<string, string>")],
        [Pub("constructor", "string content", "void"), Pub("getContent", "", "string"),
         Pub("getMetadata", "", "Map<string, string>")]) ]
  }

  function ReactElements(base: string): seq<CodeElement> {
    [ CodeElement(base + "Component", ComponentElement,
        [Field(Private, "props", base + "Props"), Field(Private, "state", base + "State")],
        [Pub("constructor", "props", "void"), Pub("componentDidMount", "", "void"),
         Pub("render", "", "ReactNode"), Operation(Private, "handleChange", "Event event", "void")]),
      CodeElement(base + "Props", InterfaceElement,
        [Field(Public, "data", "any[]"), Field(Public, "onSubmit", "Function"), Field(Public, "isLoading", "boolean")],
        []),
      CodeElement(base + "State", InterfaceElement,
        [Field(Public, "value", "string"), Field(Public, "isValid", "boolean"), Field(Public, "errors", "string[]")],
        []),
      CodeElement(base + "Service", ClassElement, [],
        [Pub("fetchData", "", "Promise<any[]>"), Pub("submitForm", "FormData data", "Promise<Response>"),
         Pub("validate", "any data", "ValidationResult")]) ]
  }

  function GenericElements(base: string): seq<CodeElement> {
    [ CodeElement(base, ClassElement,
        [Field(Private, "id", "string"), Field(Private, "name", "string"), Field(Private, "description", "string")],
        [Pub("constructor", "string name, string description", "void"), Pub("getId", "", "string"),
         Pub("getName", "", "string"), Pub("getDescription", "", "string"),
         Pub("setName", "string name", "void"), Pub("setDescription", "string description", "void")]),
      CodeElement(base + "Helper", ClassElement, [],
        [Pub("validate", base + " entity", "boolean"), Pub("format", base + " entity", "string")]),
      CodeElement(base + "Factory", ClassElement, [],
        [Pub("create", "Map<string, any> data", base), Pub("createDefault", "", base)]) ]
  }

  function Names(els: seq<CodeElement>): (r: seq<string>)
    ensures |r| == |els| && forall i :: 0 <= i < |els| ==> r[i] == els[i].name
  {
    seq(|els|, i requires 0 <= i < |els| => els[i].name)
  }

  /** `generateCodeElements(component)`, on the component's name and technology. */
  function GenerateCodeElements(name: string, technology: string): (r: seq<CodeElement>)
    ensures |r| == 3 || |r| == 4
    ensures |r| == 4 <==> ArchetypeOf(name, technology) in {ControllerBundle, ReactBundle}
  {
    var base := BaseName(name);
    match ArchetypeOf(name, technology)
    case ControllerBundle => ControllerElements(base)
    case ServiceBundle => ServiceElements(base)
    case ReactBundle => ReactElements(base)
    case GenericBundle => GenericElements(base)
  }

  // ---------------------------------------------------------------------
  // Properties of the bundles
  // ---------------------------------------------------------------------

  predicate DistinctNames(els: seq<CodeElement>) {
    forall i, j :: 0 <= i < j < |els| ==> els[i].name != els[j].name
  }

  /** Two strings ending in suffixes with different last characters differ. */
  lemma DifferentEndings(x: string, a: string, y: string, b: string)
    requires |a| > 0 && |b| > 0 && a[|a| - 1] != b[|b| - 1]
    ensures x + a != y + b
  {
    assert (x + a)[|x + a| - 1] == a[|a| - 1];
    assert (y + b)[|y + b| - 1] == b[|b| - 1];
  }

  /** Removing the first occurrence of a word shortens by the word or not at all. */
  lemma RemovedLength(base: string, word: string)
    ensures var r := ReplaceFirst(base, word, "");
      |r| == |base| || |r| + |word| == |base|
  {
  }

  lemma ControllerNamesDistinct(base: string)
    ensures DistinctNames(ControllerElements(base))
  {
    var els := ControllerElements(base);
    var e := ReplaceFirst(base, "Controller", "");
    RemovedLength(base, "Controller");
    DifferentEndings(base, "Controller", e, "Service");
    DifferentEndings(base, "Controller", e, "Repository");
    assert els[0].name == base + "Controller" && els[1].name == e + "Service";
    assert els[2].name == e + "Repository" && els[3].name == e;
  }

  lemma ServiceNamesDistinct(base: string)
    ensures DistinctNames(ServiceElements(base))
  {
    var els := ServiceElements(base);
    var st := ReplaceFirst(base, "Service", "");
    RemovedLength(base, "Service");
    assert els[0].name == base && els[1].name == st + "Repository" && els[2].name == st + "Data";
  }

  lemma ReactNamesDistinct(base: string)
    ensures DistinctNames(ReactElements(base))
  {
    var els := ReactElements(base);
    DifferentEndings(base, "Props", base, "State");
    assert els[0].name == base + "Component" && els[1].name == base + "Props";
    assert els[2].name == base + "State" && els[3].name == base + "Service";
  }

  lemma GenericNamesDistinct(base: string)
    ensures DistinctNames(GenericElements(base))
  {
    var els := GenericElements(base);
    assert els[0].name == base && els[1].name == base + "Helper" && els[2].name == base + "Factory";
  }

  /** The elements of every bundle have pairwise distinct names, so the code
      view's node ids `code-{name}` never collide. */
  lemma GeneratedNamesDistinct(name: string, technology: string)
    ensures DistinctNames(GenerateCodeElements(name, technology))
  {
    var base := BaseName(name);
    match ArchetypeOf(name, technology)
    case ControllerBundle => ControllerNamesDistinct(base);
    case ServiceBundle => ServiceNamesDistinct(base);
    case ReactBundle => ReactNamesDistinct(base);
    case GenericBundle => GenericNamesDistinct(base);
  }

  /** A word whose first character does not recur in it is first found, in
      `e + w`, at the join, when `e` does not contain it. */
  lemma FirstAtJoin(e: string, w: string)
    requires |w| > 0 && !Contains(e, w)
    requires forall d :: 0 < d < |w| ==> w[d] != w[0]
    ensures IndexOf(e + w, w) == Some(|e|)
  {
    var s := e + w;
    assert s[|e|..|e| + |w|] == w;
    forall k | 0 <= k < |e| ensures !OccursAt(s, w, k) {
      NoEarlyOccurrence(e, w, k);
    }
    assert OccursAt(s, w, |e|);
  }

  lemma NoEarlyOccurrence(e: string, w: string, k: nat)
    requires |w| > 0 && !Contains(e, w) && k < |e|
    requires forall d :: 0 < d < |w| ==> w[d] != w[0]
    ensures !OccursAt(e + w, w, k)
  {
    var s := e + w;
    if k + |w| <= |e| {
      assert s[k..k + |w|] == e[k..k + |w|];
      assert !OccursAt(e, w, k);
    } else {
      var d := |e| - k;
      assert s[k..k + |w|][d] == s[|e|] == w[0];
      assert w[d] != w[0];
    }
  }

  /** Removing the first "Controller" from `e + "Controller"` gives `e` back
      when `e` holds none. */
  lemma ControllerEntity(e: string)
    requires !Contains(e, "Controller")
    ensures ReplaceFirst(e + "Controller", "Controller", "") == e
  {
    var w := "Controller";
    assert forall d :: 0 < d < |w| ==> w[d] != w[0];
    FirstAtJoin(e, w);
    var s := ReplaceFirst(e + w, w, "");
    assert s[..|e|] == (e + w)[..|e|] == e;
  }

  /** The controller bundle derives every other name from one entity name:
      for a base `{e}Controller` whose stem `e` holds no other "Controller",
      the entity is `e` and the bundle is named e+"Controller"+"Controller",
      e+"Service", e+"Repository", e. */
  lemma ControllerBundleNames(e: string)
    requires !Contains(e, "Controller")
    ensures Names(ControllerElements(e + "Controller"))
      == [e + "Controller" + "Controller", e + "Service", e + "Repository", e]
  {
    ControllerEntity(e);
    ControllerNames(e + "Controller", e);
  }

  /** The controller bundle's names, in terms of its base and entity names. */
  lemma ControllerNames(base: string, entity: string)
    requires entity == ReplaceFirst(base, "Controller", "")
    ensures Names(ControllerElements(base))
      == [base + "Controller", entity + "Service", entity + "Repository", entity]
  {
    var els := ControllerElements(base);
    assert els[0].name == base + "Controller" && els[1].name == entity + "Service";
    assert els[2].name == entity + "Repository" && els[3].name == entity;
  }

  lemma ServiceStem(s: string)
    requires !Contains(s, "Service")
    ensures ReplaceFirst(s + "Service", "Service", "") == s
  {
    var w := "Service";
    assert forall d :: 0 < d < |w| ==> w[d] != w[0];
    FirstAtJoin(s, w);
    var r := ReplaceFirst(s + w, w, "");
    assert r[..|s|] == (s + w)[..|s|] == s;
  }

  /** The service bundle: for a base `{s}Service` whose stem holds no other
      "Service", the names are s+"Service", s+"Repository", s+"Data". */
  lemma ServiceBundleNames(s: string)
    requires !Contains(s, "Service")
    ensures Names(ServiceElements(s + "Service")) == [s + "Service", s + "Repository", s + "Data"]
  {
    ServiceStem(s);
    var els := ServiceElements(s + "Service");
    assert els[0].name == s + "Service" && els[1].name == s + "Repository" && els[2].name == s + "Data";
  }

  /** The React bundle: the component, its props and state interfaces and a
      service class, all named after the base. */
  lemma ReactBundleShape(base: string)
    ensures Names(ReactElements(base)) == [base + "Component", base + "Props", base + "State", base + "Service"]
    ensures var els := ReactElements(base);
      els[0].kind == ComponentElement && els[1].kind == InterfaceElement
      && els[2].kind == InterfaceElement && els[3].kind == ClassElement
  {
  }

  /** Only the repository is an interface in the controller bundle; the
      controller, the service and the entity are classes. */
  lemma ControllerBundleKinds(base: string)
    ensures var els := ControllerElements(base);
      forall i :: 0 <= i < |els| ==> (els[i].kind == InterfaceElement <==> i == 2)
    ensures var els := ControllerElements(base);
      forall i :: 0 <= i < |els| ==> (els[i].kind == ClassElement <==> i != 2)
  {
  }

  /** The service bundle: the service class, its repository interface and its
      data class, the last two named after the stem. */
  lemma ServiceBundleShape(base: string)
    ensures var stem := ReplaceFirst(base, "Service", "");
      Names(ServiceElements(base)) == [base, stem + "Repository", stem + "Data"]
    ensures var els := ServiceElements(base);
      els[0].kind == ClassElement && els[1].kind == InterfaceElement && els[2].kind == ClassElement
  {
    var els := ServiceElements(base);
    var stem := ReplaceFirst(base, "Service", "");
    assert els[0].name == base && els[1].name == stem + "Repository" && els[2].name == stem + "Data";
  }

  /** The generic bundle: three classes, the base one and its helper and
      factory. */
  lemma GenericBundleShape(base: string)
    ensures Names(GenericElements(base)) == [base, base + "Helper", base + "Factory"]
    ensures var els := GenericElements(base);
      forall i :: 0 <= i < |els| ==> els[i].kind == ClassElement
  {
    var els := GenericElements(base);
    assert els[0].name == base && els[1].name == base + "Helper" && els[2].name == base + "Factory";
  }
}
