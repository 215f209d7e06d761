/** The viewer's drill-down navigation: the current level, the focused id,
    and the history of visited (level, focus) pairs that the breadcrumb
    trail and the back button read.
 */
module Navigation {
  import opened Wrappers
  import opened C4
  import opened Projector
  import ProjectorFacts
  import Builder
  import BuilderFacts

  datatype View = View(level: Level, focus: Option<string>)

  datatype NavState = NavState(level: Level, focus: Option<string>, history: seq<View>)

  /** Context level, no focus, a one-entry history. */
  const Init := NavState(ContextView, None, [View(ContextView, None)])

  function Depth(level: Level): (d: nat)
    ensures d <= 3
    ensures d == 0 <==> level == ContextView
  {
    match level
    case ContextView => 0
    case ContainerView => 1
    case ComponentView => 2
    case CodeView => 3
  }

  /** The history is never empty, ends with the current view, and each entry
      is exactly one level deeper than the one before it. */
  predicate Valid(s: NavState) {
    && |s.history| >= 1
    && s.history[|s.history| - 1] == View(s.level, s.focus)
    && forall i :: 0 < i < |s.history| ==> Depth(s.history[i].level) == Depth(s.history[i - 1].level) + 1
  }

  /** Drills into `level` at `id`. */
  function Enter(s: NavState, level: Level, id: string): (r: NavState)
    ensures r.level == level && r.focus == Some(id)
    ensures |r.history| == |s.history| + 1 && r.history[..|s.history|] == s.history
    ensures r.history[|s.history|] == View(level, Some(id))
  {
    NavState(level, Some(id), s.history + [View(level, Some(id))])
  }

  /** `onNodeClick`: a non-external system drills into its containers, a
      container with at least one component into its components, a
      component into its code; every other click changes nothing. */
  function OnNodeClick(s: NavState, m: Model, node: Node): (r: NavState)
    ensures r != s ==> r == Enter(s, r.level, node.id) && Depth(r.level) == Depth(s.level) + 1
    ensures r != s <==>
      || (s.level == ContextView && node.kind == SystemNode && !node.isExternal)
      || (s.level == ContainerView && node.kind == ContainerNode && node.id in ContainerIdsOfComponents(m.components))
      || (s.level == ComponentView && node.kind == ComponentNode)
  {
    if s.level == ContextView && node.kind == SystemNode && !node.isExternal then Enter(s, ContainerView, node.id)
    else if s.level == ContainerView && node.kind == ContainerNode then
      if HasComponents(m.components, node.id) then Enter(s, ComponentView, node.id) else s
    else if s.level == ComponentView && node.kind == ComponentNode then Enter(s, CodeView, node.id)
    else s
  }

  function ContainerIdsOfComponents(ks: seq<Component>): (r: seq<string>)
    ensures |r| == |ks| && forall i :: 0 <= i < |ks| ==> r[i] == ks[i].containerId
  {
    seq(|ks|, i requires 0 <= i < |ks| => ks[i].containerId)
  }

  /** Whether some component belongs to container `id`. */
  predicate HasComponents(ks: seq<Component>, id: string) {
    exists i :: 0 <= i < |ks| && ks[i].containerId == id
  }

  /** `goBack`: with more than one entry, drops the last and restores the
      entry before it; otherwise nothing changes. */
  function GoBack(s: NavState): (r: NavState)
    ensures |s.history| > 1 ==>
      (r.history == s.history[..|s.history| - 1] && View(r.level, r.focus) == s.history[|s.history| - 2])
    ensures |s.history| <= 1 ==> r == s
  {
    if |s.history| > 1 then
      var h := s.history[..|s.history| - 1];
      NavState(h[|h| - 1].level, h[|h| - 1].focus, h)
    else s
  }

  /** The index of the first history entry at `level`, if there is one. */
  function FindLevel(h: seq<View>, level: Level): (r: Option<nat>)
    ensures r.Some? ==>
      (r.value < |h| && h[r.value].level == level && forall j :: 0 <= j < r.value ==> h[j].level != level)
    ensures r.None? <==> forall j :: 0 <= j < |h| ==> h[j].level != level
  {
    if |h| == 0 then None
    else if h[0].level == level then Some(0)
    else match FindLevel(h[1..], level)
      case None => None
      case Some(i) => Some(i + 1)
  }

  /** `jumpToLevel(level, id)`: back to the first history entry at `level`,
      taking its focus and ignoring `id`; without one, a fresh history that
      holds only (level, id). */
  function JumpToLevel(s: NavState, level: Level, id: Option<string>): (r: NavState)
    ensures r.level == level
    ensures FindLevel(s.history, level).Some? ==>
      (r.history == s.history[..FindLevel(s.history, level).value + 1]
       && r.focus == s.history[FindLevel(s.history, level).value].focus)
    ensures FindLevel(s.history, level).None? ==> r == NavState(level, id, [View(level, id)])
  {
    match FindLevel(s.history, level)
    case Some(i) =>
      var h := s.history[..i + 1];
      NavState(level, h[i].focus, h)
    case None => NavState(level, id, [View(level, id)])
  }

  // ---------------------------------------------------------------------
  // The history invariant
  // ---------------------------------------------------------------------

  lemma InitValid()
    ensures Valid(Init)
  {
  }

  lemma OnNodeClickValid(s: NavState, m: Model, node: Node)
    requires Valid(s)
    ensures Valid(OnNodeClick(s, m, node))
  {
    var r := OnNodeClick(s, m, node);
    if r != s {
      var h := s.history;
      assert r.history == h + [View(r.level, r.focus)];
      forall i | 0 < i < |r.history|
        ensures Depth(r.history[i].level) == Depth(r.history[i - 1].level) + 1
      {
        if i < |h| {
          assert r.history[i] == h[i] && r.history[i - 1] == h[i - 1];
        }
      }
    }
  }

  lemma GoBackValid(s: NavState)
    requires Valid(s)
    ensures Valid(GoBack(s))
  {
  }

  lemma JumpToLevelValid(s: NavState, level: Level, id: Option<string>)
    requires Valid(s)
    ensures Valid(JumpToLevel(s, level, id))
  {
  }

  /** Entry `i` sits `i` levels below the first entry. */
  lemma {:induction false} DepthChain(s: NavState, i: nat)
    requires Valid(s) && i < |s.history|
    ensures Depth(s.history[i].level) == Depth(s.history[0].level) + i
    decreases i
  {
    if i > 0 {
      DepthChain(s, i - 1);
    }
  }

  /** At most four entries, and the current level is as deep as the first
      entry plus the number of steps taken. */
  lemma HistoryBounded(s: NavState)
    requires Valid(s)
    ensures |s.history| <= 4
    ensures Depth(s.level) == Depth(s.history[0].level) + |s.history| - 1
  {
    DepthChain(s, |s.history| - 1);
  }

  /** Each level occurs once in the history, so the search finds entry `i`. */
  lemma FindLevelUnique(s: NavState, i: nat)
    requires Valid(s) && i < |s.history|
    ensures FindLevel(s.history, s.history[i].level) == Some(i)
  {
    DepthChain(s, i);
    forall j | 0 <= j < |s.history| && j != i
      ensures s.history[j].level != s.history[i].level
    {
      DepthChain(s, j);
    }
  }

  // ---------------------------------------------------------------------
  // How the operations relate
  // ---------------------------------------------------------------------

  /** Back undoes a drill-down. */
  lemma BackUndoesClick(s: NavState, m: Model, node: Node)
    requires Valid(s) && OnNodeClick(s, m, node) != s
    ensures GoBack(OnNodeClick(s, m, node)) == s
  {
    var r := OnNodeClick(s, m, node);
    assert r.history[..|r.history| - 1] == s.history;
  }

  /** Jumping to the level on screen changes nothing. */
  lemma JumpToCurrentLevel(s: NavState, id: Option<string>)
    requires Valid(s)
    ensures JumpToLevel(s, s.level, id) == s
  {
    FindLevelUnique(s, |s.history| - 1);
    assert s.history[..|s.history|] == s.history;
  }

  /** `k` presses of the back button. */
  function GoBackTimes(s: NavState, k: nat): (r: NavState)
    ensures |s.history| > k ==> |r.history| == |s.history| - k
    decreases k
  {
    if k == 0 then s else GoBackTimes(GoBack(s), k - 1)
  }

  /** Jumping to the level of entry `i` truncates the history after it. */
  lemma JumpToEntry(s: NavState, i: nat, id: Option<string>)
    requires Valid(s) && i < |s.history|
    ensures JumpToLevel(s, s.history[i].level, id)
      == NavState(s.history[i].level, s.history[i].focus, s.history[..i + 1])
  {
    FindLevelUnique(s, i);
  }

  /** Pressing back first does not change where a jump to an earlier entry lands. */
  lemma JumpAfterBack(s: NavState, i: nat, id: Option<string>)
    requires Valid(s) && i < |s.history| - 1
    ensures GoBack(s).history[i] == s.history[i]
    ensures JumpToLevel(GoBack(s), s.history[i].level, id) == JumpToLevel(s, s.history[i].level, id)
  {
    var b := GoBack(s);
    GoBackValid(s);
    assert b.history[i] == s.history[i];
    JumpToEntry(s, i, id);
    JumpToEntry(b, i, id);
    assert b.history[..i + 1] == s.history[..i + 1];
  }

  /** Jumping to the level of history entry `i` is pressing back until that
      entry is on top. */
  lemma {:induction false} JumpIsRepeatedBack(s: NavState, i: nat, id: Option<string>)
    requires Valid(s) && i < |s.history|
    ensures JumpToLevel(s, s.history[i].level, id) == GoBackTimes(s, |s.history| - 1 - i)
    decreases |s.history|
  {
    if i == |s.history| - 1 {
      JumpToCurrentLevel(s, id);
    } else {
      var b := GoBack(s);
      JumpAfterBack(s, i, id);
      GoBackValid(s);
      JumpIsRepeatedBack(b, i, id);
      assert GoBackTimes(s, |s.history| - 1 - i) == GoBackTimes(b, |b.history| - 1 - i);
    }
  }

  /** A drill-down from a node on screen focuses that node's id, one level
      down, and the id is one that level knows; unless the id is empty (which
      the view treats as no focus), the new view draws the node first. */
  lemma ClickLandsOnKnownFocus(s: NavState, m: Model, node: Node)
    requires node in Project(m, s.level, s.focus).nodes
    requires OnNodeClick(s, m, node) != s
    ensures var r := OnNodeClick(s, m, node);
      && r.focus == Some(node.id) && node.id in Focusable(m, r.level)
      && Depth(r.level) == Depth(s.level) + 1
    ensures var r := OnNodeClick(s, m, node);
      node.id != "" ==>
        && |Project(m, r.level, r.focus).nodes| >= 1
        && Project(m, r.level, r.focus).nodes[0].id == node.id
  {
    var r := OnNodeClick(s, m, node);
    match s.level {
      case ContextView =>
        assert r.level == ContainerView && r.focus == Some(node.id);
        ProjectorFacts.ContextSystemNode(m, node);
      case ContainerView =>
        assert r.level == ComponentView && r.focus == Some(node.id) && node.kind == ContainerNode;
        var f := FocusOf(m, s.level, s.focus, node);
        ProjectorFacts.ContainerViewContainerNode(m, f, node);
      case ComponentView =>
        assert r.level == CodeView && r.focus == Some(node.id) && node.kind == ComponentNode;
        var f := FocusOf(m, s.level, s.focus, node);
        ProjectorFacts.ComponentViewComponentNode(m, f, node);
      case CodeView =>
    }
    if node.id != "" {
      ProjectorFacts.KnownFocusFirst(m, r.level, node.id);
    }
  }

  /** On a model the analyzer built, every id is non-empty, so a drill-down
      always draws the clicked node first. */
  lemma AnalyzedClickDrawsNode(repo: string, inputs: Builder.Inputs, s: NavState, node: Node)
    requires node in Project(Builder.Analyze(repo, inputs), s.level, s.focus).nodes
    requires OnNodeClick(s, Builder.Analyze(repo, inputs), node) != s
    ensures var m := Builder.Analyze(repo, inputs);
      var r := OnNodeClick(s, m, node);
      && |Project(m, r.level, r.focus).nodes| >= 1
      && Project(m, r.level, r.focus).nodes[0].id == node.id
  {
    var m := Builder.Analyze(repo, inputs);
    ClickLandsOnKnownFocus(s, m, node);
    BuilderFacts.EveryIdNamed(repo, inputs);
    var r := OnNodeClick(s, m, node);
    match r.level {
      case ContextView =>
      case ContainerView =>
        var i :| 0 <= i < |m.systems| && SystemIds(m.systems)[i] == node.id;
        assert m.systems[i] in m.systems;
      case ComponentView =>
        var i :| 0 <= i < |m.containers| && ContainerIds(m.containers)[i] == node.id;
        assert m.containers[i] in m.containers;
      case CodeView =>
        var i :| 0 <= i < |m.components| && ComponentIds(m.components)[i] == node.id;
        assert m.components[i] in m.components;
    }
  }

  /** Below the context level a view with a node on it has a focus. */
  lemma FocusOf(m: Model, level: Level, focus: Option<string>, node: Node) returns (f: string)
    requires level == ContainerView || level == ComponentView
    requires node in Project(m, level, focus).nodes
    ensures focus == Some(f)
    ensures level == ContainerView ==> node in ContainerDiagram(m, f).nodes
    ensures level == ComponentView ==> node in ComponentDiagram(m, f).nodes
  {
    f := focus.value;
  }
}
