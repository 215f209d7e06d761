/** The analyzer's four string classifiers. Each is written twice: once as
    the if-cascade the analyzer runs, and once as an ordered rule table read
    top to bottom by a generic first-match evaluator; a lemma per classifier
    shows the two agree on every input.
 */
module Classify {
  import opened Wrappers
  import opened Strings

  // ---------------------------------------------------------------------
  // Container technology: a switch over the lower-cased directory name
  // ---------------------------------------------------------------------

  const DirectoryTechnologies: map<string, string> := map[
    "api" := "REST API",
    "components" := "UI Components",
    "app" := "Application",
    "lib" := "Library",
    "services" := "Services"
  ]

  /** The technology label of a container, chosen from its directory name,
      with the repository language as the fallback. */
  function DetectTechnology(dirName: string, language: Option<string>): (r: string)
    ensures ToLower(dirName) in DirectoryTechnologies ==> r == DirectoryTechnologies[ToLower(dirName)]
    ensures ToLower(dirName) !in DirectoryTechnologies ==>
      r == (if language.Some? && language.value != "" then language.value else "Unknown")
  {
    var key := ToLower(dirName);
    if key == "api" then "REST API"
    else if key == "components" then "UI Components"
    else if key == "app" then "Application"
    else if key == "lib" then "Library"
    else if key == "services" then "Services"
    else OrElse(language, "Unknown")
  }

  // ---------------------------------------------------------------------
  // Component technology: extensions first, then role keywords
  // ---------------------------------------------------------------------

  /** One test of a rule: the name ends with a suffix, or mentions a word
      (case-sensitively). */
  datatype Test = EndsIn(suffix: string) | Mentions(word: string)

  predicate Passes(t: Test, name: string) {
    match t
    case EndsIn(suffix) => EndsWith(name, suffix)
    case Mentions(word) => Contains(name, word)
  }

  /** A rule fires when any of its tests passes. */
  datatype Rule = Rule(anyOf: seq<Test>, outcome: string)

  predicate Fires(rule: Rule, name: string) {
    exists i :: 0 <= i < |rule.anyOf| && Passes(rule.anyOf[i], name)
  }

  /** Reads `rules` top to bottom and returns the label of the first that
      fires, or `fallback`. */
  function FirstMatch(rules: seq<Rule>, name: string, fallback: string): (r: string)
    ensures r == fallback || exists i :: 0 <= i < |rules| && r == rules[i].outcome
    ensures (forall i :: 0 <= i < |rules| ==> !Fires(rules[i], name)) ==> r == fallback
  {
    if |rules| == 0 then fallback
    else if Fires(rules[0], name) then rules[0].outcome
    else
      var r := FirstMatch(rules[1..], name, fallback);
      assert forall i :: 0 <= i < |rules[1..]| ==> rules[1..][i] == rules[i + 1];
      r
  }

  const ComponentTechnologyRules: seq<Rule> := [
    Rule([EndsIn(".jsx"), EndsIn(".tsx")], "React"),
    Rule([EndsIn(".vue")], "Vue"),
    Rule([EndsIn(".ts")], "TypeScript"),
    Rule([EndsIn(".js")], "JavaScript"),
    Rule([Mentions("Service"), Mentions("service")], "Service"),
    Rule([Mentions("Controller"), Mentions("controller")], "Controller"),
    Rule([Mentions("Repository"), Mentions("repository")], "Repository"),
    Rule([Mentions("Model"), Mentions("model")], "Model")
  ]

  const RoleLabels := {"Service", "Controller", "Repository", "Model", "Component"}

  predicate HasScriptExtension(name: string) {
    EndsWith(name, ".jsx") || EndsWith(name, ".tsx") || EndsWith(name, ".vue")
    || EndsWith(name, ".ts") || EndsWith(name, ".js")
  }

  /** Two suffixes whose last characters differ cannot both end one name. */
  lemma DistinctEndings(name: string, a: string, b: string)
    requires |a| > 0 && |b| > 0 && a[|a| - 1] != b[|b| - 1]
    ensures !(EndsWith(name, a) && EndsWith(name, b))
  {
    if EndsWith(name, a) {
      assert name[|name| - |a|..][|a| - 1] == name[|name| - 1];
    }
    if EndsWith(name, b) {
      assert name[|name| - |b|..][|b| - 1] == name[|name| - 1];
    }
  }

  /** `.ts` and `.js` differ in their second-to-last character. */
  lemma TsIsNotJs(name: string)
    ensures !(EndsWith(name, ".ts") && EndsWith(name, ".js"))
  {
    if EndsWith(name, ".ts") {
      assert name[|name| - 3..][1] == name[|name| - 2];
    }
    if EndsWith(name, ".js") {
      assert name[|name| - 3..][1] == name[|name| - 2];
    }
  }

  /** The technology label of a component, chosen from its file name. */
  function DetectComponentTechnology(name: string): (r: string)
    ensures r == "React" <==> EndsWith(name, ".jsx") || EndsWith(name, ".tsx")
    ensures r == "Vue" <==> EndsWith(name, ".vue")
    ensures r == "TypeScript" <==> EndsWith(name, ".ts")
    ensures r == "JavaScript" <==> EndsWith(name, ".js")
    ensures r in RoleLabels <==> !HasScriptExtension(name)
  {
    DistinctEndings(name, ".jsx", ".vue");
    DistinctEndings(name, ".tsx", ".vue");
    DistinctEndings(name, ".jsx", ".ts");
    DistinctEndings(name, ".tsx", ".ts");
    DistinctEndings(name, ".jsx", ".js");
    DistinctEndings(name, ".tsx", ".js");
    DistinctEndings(name, ".vue", ".ts");
    DistinctEndings(name, ".vue", ".js");
    TsIsNotJs(name);
    if EndsWith(name, ".jsx") || EndsWith(name, ".tsx") then "React"
    else if EndsWith(name, ".vue") then "Vue"
    else if EndsWith(name, ".ts") then "TypeScript"
    else if EndsWith(name, ".js") then "JavaScript"
    else if Contains(name, "Service") || Contains(name, "service") then "Service"
    else if Contains(name, "Controller") || Contains(name, "controller") then "Controller"
    else if Contains(name, "Repository") || Contains(name, "repository") then "Repository"
    else if Contains(name, "Model") || Contains(name, "model") then "Model"
    else "Component"
  }

  lemma FiresTwo(a: Test, b: Test, outcome: string, name: string)
    ensures Fires(Rule([a, b], outcome), name) <==> Passes(a, name) || Passes(b, name)
  {
    var rule := Rule([a, b], outcome);
    if Passes(a, name) { assert Passes(rule.anyOf[0], name); }
    if Passes(b, name) { assert Passes(rule.anyOf[1], name); }
  }

  lemma FiresOne(a: Test, outcome: string, name: string)
    ensures Fires(Rule([a], outcome), name) <==> Passes(a, name)
  {
    if Passes(a, name) { assert Passes(Rule([a], outcome).anyOf[0], name); }
  }

  /** The cascade is the rule table read top to bottom, "Component" last. */
  lemma ComponentTechnologyByTable(name: string)
    ensures DetectComponentTechnology(name) == FirstMatch(ComponentTechnologyRules, name, "Component")
  {
    var rules := ComponentTechnologyRules;
    FiresTwo(EndsIn(".jsx"), EndsIn(".tsx"), "React", name);
    FiresOne(EndsIn(".vue"), "Vue", name);
    FiresOne(EndsIn(".ts"), "TypeScript", name);
    FiresOne(EndsIn(".js"), "JavaScript", name);
    FiresTwo(Mentions("Service"), Mentions("service"), "Service", name);
    FiresTwo(Mentions("Controller"), Mentions("controller"), "Controller", name);
    FiresTwo(Mentions("Repository"), Mentions("repository"), "Repository", name);
    FiresTwo(Mentions("Model"), Mentions("model"), "Model", name);
    assert rules[1..][1..][1..][1..][1..][1..][1..][1..] == [];
    assert FirstMatch(rules[1..][1..][1..][1..][1..][1..][1..], name, "Component")
      == (if Contains(name, "Model") || Contains(name, "model") then "Model" else "Component");
    assert FirstMatch(rules[1..][1..][1..][1..][1..][1..], name, "Component")
      == (if Contains(name, "Repository") || Contains(name, "repository") then "Repository"
          else FirstMatch(rules[1..][1..][1..][1..][1..][1..][1..], name, "Component"));
    assert FirstMatch(rules[1..][1..][1..][1..][1..], name, "Component")
      == (if Contains(name, "Controller") || Contains(name, "controller") then "Controller"
          else FirstMatch(rules[1..][1..][1..][1..][1..][1..], name, "Component"));
    assert FirstMatch(rules[1..][1..][1..][1..], name, "Component")
      == (if Contains(name, "Service") || Contains(name, "service") then "Service"
          else FirstMatch(rules[1..][1..][1..][1..][1..], name, "Component"));
    assert FirstMatch(rules[1..][1..][1..], name, "Component")
      == (if EndsWith(name, ".js") then "JavaScript"
          else FirstMatch(rules[1..][1..][1..][1..], name, "Component"));
    assert FirstMatch(rules[1..][1..], name, "Component")
      == (if EndsWith(name, ".ts") then "TypeScript"
          else FirstMatch(rules[1..][1..][1..], name, "Component"));
    assert FirstMatch(rules[1..], name, "Component")
      == (if EndsWith(name, ".vue") then "Vue"
          else FirstMatch(rules[1..][1..], name, "Component"));
  }

  // ---------------------------------------------------------------------
  // Component relationships: directional keyword pairs, first match wins
  // ---------------------------------------------------------------------

  /** A directional rule: the first name mentions `from`, the second `to`. */
  datatype PairRule = PairRule(from: string, to: string, outcome: string)

  predicate PairFires(rule: PairRule, name1: string, name2: string) {
    Contains(name1, rule.from) && Contains(name2, rule.to)
  }

  function FirstPairMatch(rules: seq<PairRule>, name1: string, name2: string): (r: Option<string>)
    ensures r.Some? <==> exists i :: 0 <= i < |rules| && PairFires(rules[i], name1, name2)
    ensures r.Some? ==> exists i :: 0 <= i < |rules| && r.value == rules[i].outcome
  {
    if |rules| == 0 then None
    else if PairFires(rules[0], name1, name2) then Some(rules[0].outcome)
    else
      var r := FirstPairMatch(rules[1..], name1, name2);
      assert forall i :: 0 <= i < |rules[1..]| ==> rules[1..][i] == rules[i + 1];
      r
  }

  /** A seven-row table, unrolled. */
  lemma FirstPairMatchSeven(rules: seq<PairRule>, n1: string, n2: string)
    requires |rules| == 7
    ensures FirstPairMatch(rules, n1, n2) ==
      if PairFires(rules[0], n1, n2) then Some(rules[0].outcome)
      else if PairFires(rules[1], n1, n2) then Some(rules[1].outcome)
      else if PairFires(rules[2], n1, n2) then Some(rules[2].outcome)
      else if PairFires(rules[3], n1, n2) then Some(rules[3].outcome)
      else if PairFires(rules[4], n1, n2) then Some(rules[4].outcome)
      else if PairFires(rules[5], n1, n2) then Some(rules[5].outcome)
      else if PairFires(rules[6], n1, n2) then Some(rules[6].outcome)
      else None
  {
    var t := rules;
    assert FirstPairMatch(t[6..], n1, n2) == if PairFires(t[6], n1, n2) then Some(t[6].outcome) else None by {
      assert t[6..][1..] == [];
    }
    assert FirstPairMatch(t[5..], n1, n2) == if PairFires(t[5], n1, n2) then Some(t[5].outcome) else FirstPairMatch(t[6..], n1, n2) by {
      assert t[5..][1..] == t[6..];
    }
    assert FirstPairMatch(t[4..], n1, n2) == if PairFires(t[4], n1, n2) then Some(t[4].outcome) else FirstPairMatch(t[5..], n1, n2) by {
      assert t[4..][1..] == t[5..];
    }
    assert FirstPairMatch(t[3..], n1, n2) == if PairFires(t[3], n1, n2) then Some(t[3].outcome) else FirstPairMatch(t[4..], n1, n2) by {
      assert t[3..][1..] == t[4..];
    }
    assert FirstPairMatch(t[2..], n1, n2) == if PairFires(t[2], n1, n2) then Some(t[2].outcome) else FirstPairMatch(t[3..], n1, n2) by {
      assert t[2..][1..] == t[3..];
    }
    assert FirstPairMatch(t[1..], n1, n2) == if PairFires(t[1], n1, n2) then Some(t[1].outcome) else FirstPairMatch(t[2..], n1, n2) by {
      assert t[1..][1..] == t[2..];
    }
  }

  const ComponentRelationRules: seq<PairRule> := [
    PairRule("controller", "service", "Uses"),
    PairRule("controller", "provider", "Uses"),
    PairRule("service", "repository", "Uses"),
    PairRule("service", "dao", "Uses"),
    PairRule("repository", "model", "Uses"),
    PairRule("dao", "model", "Uses"),
    PairRule("page", "component", "Includes")
  ]

  /** The layered-architecture "uses" rules, over lower-cased names. */
  predicate LayerUses(n1: string, n2: string) {
    || (Contains(n1, "controller") && (Contains(n2, "service") || Contains(n2, "provider")))
    || (Contains(n1, "service") && (Contains(n2, "repository") || Contains(n2, "dao")))
    || ((Contains(n1, "repository") || Contains(n1, "dao")) && Contains(n2, "model"))
  }

  /** `detectComponentRelationship(comp1, comp2)`, on the two names. */
  function DetectComponentRelationship(name1: string, name2: string): (r: Option<string>)
    ensures r == Some("Uses") <==> LayerUses(ToLower(name1), ToLower(name2))
    ensures r == Some("Includes") <==>
      !LayerUses(ToLower(name1), ToLower(name2))
      && Contains(ToLower(name1), "page") && Contains(ToLower(name2), "component")
    ensures r.None? <==> r != Some("Uses") && r != Some("Includes")
  {
    var n1 := ToLower(name1);
    var n2 := ToLower(name2);
    if (Contains(n1, "controller") && Contains(n2, "service"))
       || (Contains(n1, "controller") && Contains(n2, "provider")) then Some("Uses")
    else if (Contains(n1, "service") && Contains(n2, "repository"))
       || (Contains(n1, "service") && Contains(n2, "dao")) then Some("Uses")
    else if (Contains(n1, "repository") && Contains(n2, "model"))
       || (Contains(n1, "dao") && Contains(n2, "model")) then Some("Uses")
    else if Contains(n1, "page") && Contains(n2, "component") then Some("Includes")
    else None
  }

  /** The cascade is the seven-row pair table read top to bottom. */
  lemma ComponentRelationshipByTable(name1: string, name2: string)
    ensures DetectComponentRelationship(name1, name2)
            == FirstPairMatch(ComponentRelationRules, ToLower(name1), ToLower(name2))
  {
    FirstPairMatchSeven(ComponentRelationRules, ToLower(name1), ToLower(name2));
  }

  // ---------------------------------------------------------------------
  // Container relationships: exact role names, first match wins
  // ---------------------------------------------------------------------

  /** A directional rule over exact (lower-cased) names: the first name is one
      of `from`, the second one of `to`. */
  datatype RoleRule = RoleRule(from: set<string>, to: set<string>, outcome: string)

  function FirstRoleMatch(rules: seq<RoleRule>, name1: string, name2: string): (r: Option<string>)
    ensures r.Some? <==> exists i :: 0 <= i < |rules| && name1 in rules[i].from && name2 in rules[i].to
    ensures r.Some? ==> exists i :: 0 <= i < |rules| && r.value == rules[i].outcome
  {
    if |rules| == 0 then None
    else if name1 in rules[0].from && name2 in rules[0].to then Some(rules[0].outcome)
    else
      var r := FirstRoleMatch(rules[1..], name1, name2);
      assert forall i :: 0 <= i < |rules[1..]| ==> rules[1..][i] == rules[i + 1];
      r
  }

  const ContainerRelationRules: seq<RoleRule> := [
    RoleRule({"api"}, {"services"}, "Uses"),
    RoleRule({"app"}, {"api"}, "Calls"),
    RoleRule({"frontend", "client", "app"}, {"backend", "server", "api"}, "Uses"),
    RoleRule({"services"}, {"database", "db"}, "Reads from and writes to")
  ]

  /** `detectContainerRelationship(container1, container2)`, on the two names. */
  function DetectContainerRelationship(name1: string, name2: string): (r: Option<string>)
    ensures r == Some("Calls") <==> ToLower(name1) == "app" && ToLower(name2) == "api"
    ensures r == Some("Reads from and writes to") <==>
      ToLower(name1) == "services" && ToLower(name2) in {"database", "db"}
    ensures r == Some("Uses") <==>
      || (ToLower(name1) == "api" && ToLower(name2) == "services")
      || (ToLower(name1) in {"frontend", "client", "app"} && ToLower(name2) in {"backend", "server", "api"}
          && !(ToLower(name1) == "app" && ToLower(name2) == "api"))
    ensures r.Some? ==> r.value in {"Uses", "Calls", "Reads from and writes to"}
  {
    var n1 := ToLower(name1);
    var n2 := ToLower(name2);
    if n1 == "api" && n2 == "services" then Some("Uses")
    else if n1 == "app" && n2 == "api" then Some("Calls")
    else if (n1 == "frontend" || n1 == "client" || n1 == "app")
         && (n2 == "backend" || n2 == "server" || n2 == "api") then Some("Uses")
    else if n1 == "services" && (n2 == "database" || n2 == "db") then Some("Reads from and writes to")
    else None
  }

  /** The cascade is the four-row role table read top to bottom. */
  lemma ContainerRelationshipByTable(name1: string, name2: string)
    ensures DetectContainerRelationship(name1, name2)
            == FirstRoleMatch(ContainerRelationRules, ToLower(name1), ToLower(name2))
  {
    var n1, n2 := ToLower(name1), ToLower(name2);
    var rules := ContainerRelationRules;
    assert rules[1..][1..][1..][1..] == [];
    assert FirstRoleMatch(rules[1..][1..][1..], n1, n2)
      == (if n1 == "services" && n2 in {"database", "db"} then Some("Reads from and writes to") else None);
    assert FirstRoleMatch(rules[1..][1..], n1, n2)
      == (if n1 in {"frontend", "client", "app"} && n2 in {"backend", "server", "api"} then Some("Uses")
          else FirstRoleMatch(rules[1..][1..][1..], n1, n2));
    assert FirstRoleMatch(rules[1..], n1, n2)
      == (if n1 == "app" && n2 == "api" then Some("Calls")
          else FirstRoleMatch(rules[1..][1..], n1, n2));
  }
}
