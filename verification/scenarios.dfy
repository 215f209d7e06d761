/** Worked examples: the heuristics on the names a typical Node.js project
    uses, the dependency filter on a small manifest, and a navigation round. */
module Scenarios {
  import opened Wrappers
  import opened Strings
  import Classify
  import Dependencies
  import CodeElements
  import opened C4
  import opened Projector
  import opened Navigation

  lemma ControllerLowered()
    ensures ToLower("UserController") == "usercontroller"
  {
  }

  lemma ServiceLowered()
    ensures ToLower("UserService") == "userservice"
  {
  }

  /** "UserController" uses "UserService". */
  lemma ControllerUsesService()
    ensures Classify.DetectComponentRelationship("UserController", "UserService") == Some("Uses")
  {
    ControllerLowered();
    ServiceLowered();
    ContainsAt("usercontroller", "controller", 4);
    ContainsAt("userservice", "service", 4);
  }

  lemma ServiceIsNoController()
    ensures !Contains("userservice", "controller")
  {
    AbsentChar("userservice", "controller", 't');
  }

  lemma ServiceIsNoRepository()
    ensures !Contains("userservice", "repository")
  {
    AbsentChar("userservice", "repository", 'p');
  }

  lemma ServiceIsNoDao()
    ensures !Contains("userservice", "dao")
  {
    AbsentChar("userservice", "dao", 'a');
  }

  lemma ServiceIsNoPage()
    ensures !Contains("userservice", "page")
  {
    AbsentChar("userservice", "page", 'p');
  }

  lemma ControllerIsNoRepository()
    ensures !Contains("usercontroller", "repository")
  {
    AbsentChar("usercontroller", "repository", 'p');
  }

  lemma ControllerIsNoDao()
    ensures !Contains("usercontroller", "dao")
  {
    AbsentChar("usercontroller", "dao", 'a');
  }

  /** The reverse pair matches no rule: the heuristic is directional. */
  lemma ServiceDoesNotUseController()
    ensures Classify.DetectComponentRelationship("UserService", "UserController") == None
  {
    ControllerLowered();
    ServiceLowered();
    ServiceIsNoController();
    ServiceIsNoRepository();
    ServiceIsNoDao();
    ServiceIsNoPage();
    ControllerIsNoRepository();
    ControllerIsNoDao();
    assert !Classify.LayerUses("userservice", "usercontroller");
  }

  /** The front end calls the API; the API does not call the front end. */
  lemma AppCallsApiOneWay()
    ensures Classify.DetectContainerRelationship("app", "api") == Some("Calls")
    ensures Classify.DetectContainerRelationship("api", "app") == None
  {
    ToLowerIdentity("app");
    ToLowerIdentity("api");
  }

  lemma TypesAreTooling()
    ensures Dependencies.IsTooling("@types/node")
  {
  }

  lemma LintIsTooling()
    ensures Dependencies.IsTooling("eslint-config-next")
  {
    ContainsAt("eslint-config-next", "eslint", 0);
  }

  lemma ReactIsNoTooling()
    ensures !Dependencies.IsTooling("react")
  {
    AbsentChar("react", "eslint", 's');
    AbsentChar("react", "prettier", 'p');
  }

  /** Type packages and lint tooling never become external systems. */
  lemma ToolingDropped()
    ensures Dependencies.MajorDependencies([("@types/node", "20"), ("react", "18"), ("eslint-config-next", "14")])
      == [("react", "18")]
  {
    TypesAreTooling();
    LintIsTooling();
    ReactIsNoTooling();
  }

  /** A devDependencies version overrides the dependencies one, in place. */
  lemma DevVersionWins()
    ensures Dependencies.Merge([("react", "17"), ("next", "14")], [("react", "18")])
      == [("react", "18"), ("next", "14")]
  {
    var first := Dependencies.Spread([], [("react", "17"), ("next", "14")]);
    assert Dependencies.Assign([], "react", "17") == [("react", "17")];
    assert Dependencies.Assign([("react", "17")], "next", "14") == [("react", "17"), ("next", "14")];
    assert first == [("react", "17"), ("next", "14")];
    assert Dependencies.Assign(first, "react", "18") == [("react", "18"), ("next", "14")];
  }

  lemma ButtonLowered()
    ensures ToLower("Button.tsx") == "button.tsx"
  {
  }

  lemma ReactLowered()
    ensures ToLower("React") == "react"
  {
  }

  lemma ButtonIsNoController()
    ensures !Contains("button.tsx", "controller")
  {
    AbsentChar("button.tsx", "controller", 'c');
  }

  lemma ButtonIsNoService()
    ensures !Contains("button.tsx", "service")
  {
    AbsentChar("button.tsx", "service", 'v');
  }

  lemma ReactTechnology()
    ensures Contains(ToLower("React"), "react")
  {
    ReactLowered();
    ContainsAt("react", "react", 0);
  }

  lemma ButtonIsReact()
    ensures CodeElements.ArchetypeOf("Button.tsx", "React") == CodeElements.ReactBundle
  {
    ButtonLowered();
    ButtonIsNoController();
    ButtonIsNoService();
    ReactTechnology();
  }

  lemma ButtonBase()
    ensures CodeElements.BaseName("Button.tsx") == "Button"
  {
    assert "Button.tsx" == "Button" + ".tsx";
    CodeElements.BaseNameStripsExtension("Button", ".tsx");
  }

  /** A ".tsx" file with React technology whose name mentions neither a
      controller nor a service yields the component, its props and state,
      and a service, all named after the file's stem. */
  lemma ReactFileBundle(stem: string)
    requires !CodeElements.EndsWithScriptExtension(stem)
    requires !Contains(ToLower(stem + ".tsx"), "controller") && !Contains(ToLower(stem + ".tsx"), "service")
    ensures CodeElements.Names(CodeElements.GenerateCodeElements(stem + ".tsx", "React"))
      == [stem + "Component", stem + "Props", stem + "State", stem + "Service"]
  {
    ReactTechnology();
    assert CodeElements.ArchetypeOf(stem + ".tsx", "React") == CodeElements.ReactBundle;
    CodeElements.BaseNameStripsExtension(stem, ".tsx");
    CodeElements.ReactBundleShape(stem);
  }

  /** Two drill-downs, then a jump back to the context level, restore the
      initial state. */
  lemma DrillDownAndJumpHome(m: Model, system: Node, container: Node)
    requires system.kind == SystemNode && !system.isExternal
    requires container.kind == ContainerNode && HasComponents(m.components, container.id)
    ensures var s1 := OnNodeClick(Init, m, system);
      var s2 := OnNodeClick(s1, m, container);
      && s2.level == ComponentView && s2.focus == Some(container.id) && |s2.history| == 3
      && JumpToLevel(s2, ContextView, None) == Init
  {
    var s1 := OnNodeClick(Init, m, system);
    var s2 := OnNodeClick(s1, m, container);
    assert container.id in ContainerIdsOfComponents(m.components) by {
      var i :| 0 <= i < |m.components| && m.components[i].containerId == container.id;
      assert ContainerIdsOfComponents(m.components)[i] == container.id;
    }
    assert s2.history[0] == View(ContextView, None);
    assert s2.history[..1] == [View(ContextView, None)];
  }
}
