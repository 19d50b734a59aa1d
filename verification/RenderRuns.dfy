/**
 Runs of building and rendering component trees. What every render returns is given by an interpreter that knows trees
 and no caches; the components, with all their caches and revisions, are proved to return the same.
 */
module RenderRuns {
  import opened Results
  import opened RenderCache

  /** A node of a forest: its children by number, or what it draws and what it drew at each revision it stated. */
  datatype Node = Branch(children: seq<nat>) | Drawing(shows: nat -> Lines, past: map<nat, nat -> Lines>)

  datatype Action =
    | NewContainer
    | NewLeaf(shows: nat -> Lines, revision: Option<nat>)
    | Add(at: nat, child: nat)
    | Remove(at: nat, child: nat)
    | RemoveAll(at: nat)
    | DropCaches(at: nat)
    | Redraw(at: nat, shows: nat -> Lines, revision: Option<nat>)
    | Show(at: nat, width: nat)

  /** Children are less deep than their parents. */
  ghost predicate Ranked(nodes: seq<Node>, depths: seq<nat>) {
    && |depths| == |nodes|
    && forall i, k | 0 <= i < |nodes| && nodes[i].Branch? && 0 <= k < |nodes[i].children| ::
      nodes[i].children[k] < |nodes| && depths[nodes[i].children[k]] < depths[i]
  }

  /** What a node shows: what it draws, or what its children show, one after another. */
  ghost function Draw(nodes: seq<Node>, depths: seq<nat>, i: nat, width: nat): Lines
    requires Ranked(nodes, depths) && i < |nodes|
    decreases depths[i], if nodes[i].Branch? then |nodes[i].children| + 1 else 0
  {
    match nodes[i]
    case Drawing(shows, _) => shows(width)
    case Branch(children) => DrawChildren(nodes, depths, i, |children|, width)
  }

  ghost function DrawChildren(nodes: seq<Node>, depths: seq<nat>, i: nat, n: nat, width: nat): Lines
    requires Ranked(nodes, depths) && i < |nodes| && nodes[i].Branch? && n <= |nodes[i].children|
    decreases depths[i], n
  {
    if n == 0 then []
    else DrawChildren(nodes, depths, i, n - 1, width) + Draw(nodes, depths, nodes[i].children[n - 1], width)
  }

  /** The depths only show that there is no cycle. */
  lemma {:induction false} DrawDepths(nodes: seq<Node>, a: seq<nat>, b: seq<nat>, i: nat, width: nat)
    requires Ranked(nodes, a) && Ranked(nodes, b) && i < |nodes|
    ensures Draw(nodes, a, i, width) == Draw(nodes, b, i, width)
    decreases a[i], if nodes[i].Branch? then |nodes[i].children| + 1 else 0
  {
    if nodes[i].Branch? {
      DrawChildrenDepths(nodes, a, b, i, |nodes[i].children|, width);
    }
  }

  lemma {:induction false} DrawChildrenDepths(nodes: seq<Node>, a: seq<nat>, b: seq<nat>, i: nat, n: nat, width: nat)
    requires Ranked(nodes, a) && Ranked(nodes, b)
    requires i < |nodes| && nodes[i].Branch? && n <= |nodes[i].children|
    ensures DrawChildren(nodes, a, i, n, width) == DrawChildren(nodes, b, i, n, width)
    decreases a[i], n
  {
    if n > 0 {
      DrawChildrenDepths(nodes, a, b, i, n - 1, width);
      DrawDepths(nodes, a, b, nodes[i].children[n - 1], width);
    }
  }

  /** The first occurrence is removed, if there is one. */
  function Removed(children: seq<nat>, child: nat): seq<nat> {
    if children == [] then []
    else if children[0] == child then children[1..]
    else [children[0]] + Removed(children[1..], child)
  }

  lemma {:induction false} RemovedAt(children: seq<nat>, child: nat, i: nat)
    requires i < |children| && children[i] == child && child !in children[..i]
    ensures Removed(children, child) == children[..i] + children[i + 1..]
  {
    if i > 0 {
      assert children[0] == children[..i][0];
      assert children[1..][..i - 1] == children[..i][1..];
      RemovedAt(children[1..], child, i - 1);
      assert children[1..][i..] == children[i + 1..];
    }
  }

  lemma {:induction false} NotRemoved(children: seq<nat>, child: nat)
    requires child !in children
    ensures Removed(children, child) == children
  {
    if children != [] {
      NotRemoved(children[1..], child);
    }
  }

  predicate IsBranch(nodes: seq<Node>, i: nat) {
    i < |nodes| && nodes[i].Branch?
  }

  /** A leaf may state a revision only for what it showed at it before, or if the revision is new. */
  ghost predicate Allowed(nodes: seq<Node>, a: Action) {
    match a
    case NewContainer => true
    case NewLeaf(_, _) => true
    case Add(at, child) => IsBranch(nodes, at) && child < |nodes| && exists depths :: Ranked(After(nodes, a), depths)
    case Remove(at, child) => IsBranch(nodes, at) && child < |nodes|
    case RemoveAll(at) => IsBranch(nodes, at)
    case DropCaches(at) => at < |nodes|
    case Redraw(at, shows, revision) =>
      && at < |nodes| && nodes[at].Drawing?
      && (revision.Some? && revision.value in nodes[at].past ==> nodes[at].past[revision.value] == shows)
    case Show(at, _) => at < |nodes|
  }

  function After(nodes: seq<Node>, a: Action): seq<Node> {
    match a
    case NewContainer => nodes + [Branch([])]
    case NewLeaf(shows, revision) =>
      nodes + [Drawing(shows, if revision.Some? then map[revision.value := shows] else map[])]
    case Add(at, child) =>
      if IsBranch(nodes, at) then nodes[at := Branch(nodes[at].children + [child])] else nodes
    case Remove(at, child) =>
      if IsBranch(nodes, at) then nodes[at := Branch(Removed(nodes[at].children, child))] else nodes
    case RemoveAll(at) => if IsBranch(nodes, at) then nodes[at := Branch([])] else nodes
    case Redraw(at, shows, revision) =>
      if at < |nodes| && nodes[at].Drawing? then
        var past := nodes[at].past;
        nodes[at := Drawing(shows, if revision.Some? then past[revision.value := shows] else past)]
      else nodes
    case _ => nodes
  }

  /** The nodes after a run. */
  function Built(actions: seq<Action>): seq<Node> {
    if actions == [] then [] else After(Built(actions[..|actions| - 1]), actions[|actions| - 1])
  }

  ghost predicate AllowedRun(actions: seq<Action>) {
    forall i | 0 <= i < |actions| :: Allowed(Built(actions[..i]), actions[i])
  }

  /** What an action gives out. */
  ghost function Given(nodes: seq<Node>, a: Action): seq<Lines> {
    if a.Show? && a.at < |nodes| && exists depths :: Ranked(nodes, depths) then
      var depths :| Ranked(nodes, depths);
      [Draw(nodes, depths, a.at, a.width)]
    else []
  }

  /** What a run gives out, render by render, when nothing is ever cached. */
  ghost function Outputs(actions: seq<Action>): seq<Lines> {
    if actions == [] then []
    else
      var before := actions[..|actions| - 1];
      Outputs(before) + Given(Built(before), actions[|actions| - 1])
  }

  lemma GivenShown(nodes: seq<Node>, depths: seq<nat>, at: nat, width: nat)
    requires Ranked(nodes, depths) && at < |nodes|
    ensures Given(nodes, Show(at, width)) == [Draw(nodes, depths, at, width)]
  {
    hide Ranked, Draw;
    var some: seq<nat> :| Ranked(nodes, some) && Given(nodes, Show(at, width)) == [Draw(nodes, some, at, width)];
    DrawDepths(nodes, some, depths, at, width);
  }

  // ---- No action makes a cycle ----

  lemma {:induction false} RemovedMembers(children: seq<nat>, child: nat)
    ensures forall c | c in Removed(children, child) :: c in children
  {
    if children != [] {
      RemovedMembers(children[1..], child);
    }
  }

  lemma RankedAfter(nodes: seq<Node>, a: Action, depths: seq<nat>)
    requires Ranked(nodes, depths) && Allowed(nodes, a)
    ensures exists depths' :: Ranked(After(nodes, a), depths')
  {
    match a
    case Add(_, _) =>
    case NewContainer => assert Ranked(After(nodes, a), depths + [0]);
    case NewLeaf(_, _) => assert Ranked(After(nodes, a), depths + [0]);
    case Remove(at, child) =>
      RemovedMembers(nodes[at].children, child);
      var rest := Removed(nodes[at].children, child);
      forall k | 0 <= k < |rest|
        ensures rest[k] < |nodes| && depths[rest[k]] < depths[at]
      {
        assert rest[k] in nodes[at].children;
      }
      assert Ranked(After(nodes, a), depths);
    case _ => assert Ranked(After(nodes, a), depths);
  }

  // ---- The components stand for the nodes ----

  ghost function World(components: seq<Component>): set<Component> {
    set c | c in components
  }

  ghost predicate Stands(components: seq<Component>, nodes: seq<Node>, i: nat)
    requires i < |components| && i < |nodes|
    reads components
  {
    var c := components[i];
    match nodes[i]
    case Branch(children) =>
      && c.isContainer && |c.children| == |children|
      && forall k | 0 <= k < |children| :: children[k] < |components| && c.children[k] == components[children[k]]
    case Drawing(shows, past) => !c.isContainer && c.children == [] && c.shown == shows && c.past == past
  }

  ghost predicate Represents(components: seq<Component>, nodes: seq<Node>)
    reads components
  {
    && |components| == |nodes|
    && (forall i, j | 0 <= i < j < |components| :: components[i] != components[j])
    && (forall i | 0 <= i < |components| :: Stands(components, nodes, i))
    && Valid(World(components))
  }

  ghost function Place(components: seq<Component>, c: Component): (i: nat)
    requires c in components
    ensures i < |components| && components[i] == c
  {
    var i :| 0 <= i < |components| && components[i] == c;
    i
  }

  /** The depths of the components. */
  lemma DepthsOf(components: seq<Component>, nodes: seq<Node>, depths: seq<nat>) returns (d: Depths)
    requires Represents(components, nodes) && Ranked(nodes, depths)
    ensures Acyclic(World(components), d)
    ensures forall i | 0 <= i < |components| :: d[components[i]] == depths[i]
  {
    d := map c | c in World(components) :: depths[Place(components, c)];
    forall c, k | c in World(components) && 0 <= k < |c.children|
      ensures c.children[k] in World(components) && d[c.children[k]] < d[c]
    {
      var i := Place(components, c);
      assert Stands(components, nodes, i);
      assert c.children[k] == components[nodes[i].children[k]];
    }
  }

  /** What a component freshly shows is what its node shows. */
  lemma {:induction false} DrawnFresh(components: seq<Component>, nodes: seq<Node>, depths: seq<nat>, d: Depths, i: nat,
                                      width: nat)
    requires Represents(components, nodes) && Ranked(nodes, depths) && Acyclic(World(components), d)
    requires i < |components|
    ensures Fresh(components[i], width, World(components), d) == Draw(nodes, depths, i, width)
    decreases depths[i], if nodes[i].Branch? then |nodes[i].children| + 1 else 0
  {
    assert Stands(components, nodes, i);
    if nodes[i].Branch? {
      DrawnChildren(components, nodes, depths, d, i, |nodes[i].children|, width);
    }
  }

  lemma {:induction false} DrawnChildren(components: seq<Component>, nodes: seq<Node>, depths: seq<nat>, d: Depths,
                                         i: nat, n: nat, width: nat)
    requires Represents(components, nodes) && Ranked(nodes, depths) && Acyclic(World(components), d)
    requires i < |components| && nodes[i].Branch? && n <= |nodes[i].children| == |components[i].children|
    ensures FreshChildren(components[i], n, width, World(components), d) == DrawChildren(nodes, depths, i, n, width)
    decreases depths[i], n
  {
    if n > 0 {
      assert Stands(components, nodes, i);
      DrawnChildren(components, nodes, depths, d, i, n - 1, width);
      DrawnFresh(components, nodes, depths, d, nodes[i].children[n - 1], width);
    }
  }

  /** A component that has just been made. */
  lemma Joined(components: seq<Component>, nodes: seq<Node>, c: Component, node: Node)
    requires Represents(components, nodes) && c !in components && c.Ok() && c.cache.None?
    requires node.Branch? ==> c.isContainer && node.children == [] && c.children == []
    requires node.Drawing? ==> !c.isContainer && c.children == [] && node == Drawing(c.shown, c.past)
    ensures Represents(components + [c], nodes + [node])
  {
    var more := components + [c];
    assert World(more) == World(components) + {c};
    forall i | 0 <= i < |more|
      ensures Stands(more, nodes + [node], i)
    {
      if i < |components| {
        assert Stands(components, nodes, i);
      }
    }
  }

  /** Removing the first occurrence of a component is removing that of its number. */
  lemma RemovedRefs(components: seq<Component>, children: seq<nat>, child: nat,
                    was: seq<Component>, now: seq<Component>)
    requires forall i, j | 0 <= i < j < |components| :: components[i] != components[j]
    requires |was| == |children| && child < |components|
    requires forall k | 0 <= k < |children| :: children[k] < |components| && was[k] == components[children[k]]
    requires components[child] !in was ==> now == was
    requires components[child] in was ==>
      exists i | 0 <= i < |was| ::
        was[i] == components[child] && components[child] !in was[..i] && now == was[..i] + was[i + 1..]
    ensures var rest := Removed(children, child);
      |now| == |rest| && forall k | 0 <= k < |rest| :: rest[k] < |components| && now[k] == components[rest[k]]
  {
    if components[child] in was {
      var i :| 0 <= i < |was|
        && was[i] == components[child] && components[child] !in was[..i] && now == was[..i] + was[i + 1..];
      forall k | 0 <= k < i
        ensures children[k] != child
      {
        assert was[k] in was[..i];
      }
      assert children[i] == child;
      RemovedAt(children, child, i);
    } else {
      forall k | 0 <= k < |children|
        ensures children[k] != child
      {
        assert was[k] in was;
      }
      NotRemoved(children, child);
    }
  }

  /** One action on the components. */
  method Act(components: seq<Component>, a: Action, ghost nodes: seq<Node>)
    returns (more: seq<Component>, output: seq<Lines>)
    requires Represents(components, nodes) && Allowed(nodes, a) && exists depths :: Ranked(nodes, depths)
    modifies components
    ensures Represents(more, After(nodes, a)) && output == Given(nodes, a)
    ensures forall k | 0 <= k < |more| :: more[k] in components || fresh(more[k])
  {
    more, output := components, [];
    if a.NewContainer? {
      var c := new Component.Container();
      more := components + [c];
      Joined(components, nodes, c, Branch([]));
    } else if a.NewLeaf? {
      var c := new Component.Leaf(a.shows, a.revision);
      more := components + [c];
      Joined(components, nodes, c, Drawing(c.shown, c.past));
    } else if a.Show? {
      output := ShowOne(components, a.at, a.width, nodes);
    } else {
      Edit(components, a, nodes);
    }
  }

  method ShowOne(components: seq<Component>, at: nat, width: nat, ghost nodes: seq<Node>) returns (output: seq<Lines>)
    requires Represents(components, nodes) && at < |nodes| && exists depths :: Ranked(nodes, depths)
    modifies components
    ensures Represents(components, nodes) && output == Given(nodes, Show(at, width))
  {
    hide Ranked, Draw;
    ghost var depths :| Ranked(nodes, depths);
    GivenShown(nodes, depths, at, width);
    ghost var d := DepthsOf(components, nodes, depths);
    DrawnFresh(components, nodes, depths, d, at, width);
    var lines := components[at].Render(width, World(components), d);
    output := [lines];
    Unedited(components, nodes, at);
  }

  /** One component comes to stand for another node, and the others stay as they are. */
  twostate lemma OneEdited(new components: seq<Component>, new nodes: seq<Node>, new at: nat, new node: Node)
    requires forall i | 0 <= i < |components| :: allocated(components[i])
    requires forall i | 0 <= i < |components| :: old(allocated(components[i]))
    requires old(Represents(components, nodes)) && at < |components|
    requires Valid(World(components)) && Stands(components, nodes[at := node], at)
    requires forall c | c in components && c != components[at] ::
      c.children == old(c.children) && c.shown == old(c.shown) && c.past == old(c.past)
    ensures Represents(components, nodes[at := node])
  {
    hide Valid;
    var after := nodes[at := node];
    forall i | 0 <= i < |components|
      ensures Stands(components, after, i)
    {
      assert old(Stands(components, nodes, i));
    }
  }

  twostate lemma Unedited(new components: seq<Component>, new nodes: seq<Node>, new at: nat)
    requires forall i | 0 <= i < |components| :: old(allocated(components[i]))
    requires old(Represents(components, nodes)) && at < |components| && Valid(World(components))
    requires forall c | c in components ::
      c.children == old(c.children) && c.shown == old(c.shown) && c.past == old(c.past)
    ensures Represents(components, nodes)
  {
    hide Valid;
    assert old(Stands(components, nodes, at));
    OneEdited(components, nodes, at, nodes[at]);
    assert nodes[at := nodes[at]] == nodes;
  }

  method AddTo(components: seq<Component>, at: nat, child: nat, ghost nodes: seq<Node>)
    requires Represents(components, nodes) && IsBranch(nodes, at) && child < |nodes|
    modifies components
    ensures Represents(components, nodes[at := Branch(nodes[at].children + [child])])
  {
    assert Stands(components, nodes, at);
    components[at].AddChild(components[child], World(components));
    OneEdited(components, nodes, at, Branch(nodes[at].children + [child]));
  }

  method RemoveFrom(components: seq<Component>, at: nat, child: nat, ghost nodes: seq<Node>)
    requires Represents(components, nodes) && IsBranch(nodes, at) && child < |nodes|
    modifies components
    ensures Represents(components, nodes[at := Branch(Removed(nodes[at].children, child))])
  {
    hide Removed;
    assert Stands(components, nodes, at);
    components[at].RemoveChild(components[child], World(components));
    RemovedRefs(components, nodes[at].children, child, old(components[at].children), components[at].children);
    OneEdited(components, nodes, at, Branch(Removed(nodes[at].children, child)));
  }

  method ClearAt(components: seq<Component>, at: nat, ghost nodes: seq<Node>)
    requires Represents(components, nodes) && IsBranch(nodes, at)
    modifies components
    ensures Represents(components, nodes[at := Branch([])])
  {
    assert Stands(components, nodes, at);
    components[at].Clear(World(components));
    OneEdited(components, nodes, at, Branch([]));
  }

  method RedrawAt(components: seq<Component>, a: Action, ghost nodes: seq<Node>)
    requires Represents(components, nodes) && a.Redraw? && Allowed(nodes, a)
    modifies components
    ensures Represents(components, After(nodes, a))
  {
    assert Stands(components, nodes, a.at);
    components[a.at].Change(a.shows, a.revision, World(components));
    OneEdited(components, nodes, a.at, After(nodes, a)[a.at]);
  }

  method DropAt(components: seq<Component>, at: nat, ghost nodes: seq<Node>)
    requires Represents(components, nodes) && at < |nodes| && exists depths :: Ranked(nodes, depths)
    modifies components
    ensures Represents(components, nodes)
  {
    hide Ranked;
    ghost var depths :| Ranked(nodes, depths);
    ghost var d := DepthsOf(components, nodes, depths);
    components[at].Invalidate(World(components), d);
    Unedited(components, nodes, at);
  }

  /** An action that makes nothing and shows nothing. */
  method Edit(components: seq<Component>, a: Action, ghost nodes: seq<Node>)
    requires Represents(components, nodes) && Allowed(nodes, a) && exists depths :: Ranked(nodes, depths)
    requires !a.NewContainer? && !a.NewLeaf? && !a.Show?
    modifies components
    ensures Represents(components, After(nodes, a))
  {
    hide Represents, Ranked;
    match a
    case Add(at, child) => AddTo(components, at, child, nodes);
    case Remove(at, child) => RemoveFrom(components, at, child, nodes);
    case RemoveAll(at) => ClearAt(components, at, nodes);
    case DropCaches(at) => DropAt(components, at, nodes);
    case Redraw(_, _, _) => RedrawAt(components, a, nodes);
  }

  /** Whatever is built and rendered, in whatever order, every render gives what it would give without caches. */
  method Play(actions: seq<Action>) returns (outputs: seq<Lines>)
    requires AllowedRun(actions)
    ensures outputs == Outputs(actions)
  {
    hide Represents, Ranked, Allowed, After, Given;
    var components: seq<Component>;
    components, outputs := [], [];
    NothingBuilt(components);
    for i := 0 to |actions|
      invariant forall k | 0 <= k < |components| :: fresh(components[k])
      invariant Represents(components, Built(actions[..i])) && exists depths :: Ranked(Built(actions[..i]), depths)
      invariant outputs == Outputs(actions[..i])
    {
      ghost var nodes := Built(actions[..i]);
      ghost var depths :| Ranked(nodes, depths);
      RankedAfter(nodes, actions[i], depths);
      var output;
      components, output := Act(components, actions[i], nodes);
      outputs := outputs + output;
      assert actions[..i + 1][..i] == actions[..i];
    }
    assert actions[..|actions|] == actions;
  }

  lemma NothingBuilt(components: seq<Component>)
    requires components == []
    ensures Represents(components, []) && Ranked([], [])
  {}
}
