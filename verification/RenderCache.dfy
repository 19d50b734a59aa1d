/**
 The render cache of nested containers. A component may state a revision, which promises that what it shows has not
 changed since that revision was last seen. Whatever is added, removed, cleared, invalidated or rendered, and however
 children are shared, rendering gives the concatenation of what the children freshly show.
 */
module RenderCache {
  import opened Results

  type Lines = seq<string>

  function Flat(outputs: seq<Lines>): Lines {
    if outputs == [] then [] else Flat(outputs[..|outputs| - 1]) + outputs[|outputs| - 1]
  }

  datatype Cache = Cache(width: nat, children: seq<Component>, childRevisions: seq<nat>, lines: Lines)

  /** How deep each component is: children are less deep than their parents. */
  type Depths = map<Component, nat>

  ghost predicate Acyclic(world: set<Component>, depths: Depths)
    reads world`children
  {
    && depths.Keys == world
    && forall c, i | c in world && 0 <= i < |c.children| ::
      c.children[i] in world && depths[c.children[i]] < depths[c]
  }

  /** What a component shows when nothing is cached. */
  ghost function Fresh(c: Component, width: nat, world: set<Component>, depths: Depths): Lines
    requires c in world && Acyclic(world, depths)
    reads world`children, world`shown
    decreases depths[c], |c.children| + 1
  {
    if c.isContainer then FreshChildren(c, |c.children|, width, world, depths) else c.shown(width)
  }

  ghost function FreshChildren(c: Component, n: nat, width: nat, world: set<Component>, depths: Depths): Lines
    requires c in world && Acyclic(world, depths) && n <= |c.children|
    reads world`children, world`shown
    decreases depths[c], n
  {
    if n == 0 then []
    else FreshChildren(c, n - 1, width, world, depths) + Fresh(c.children[n - 1], width, world, depths)
  }

  /** The depths only show that there is no cycle. */
  lemma {:induction false} FreshDepths(c: Component, width: nat, world: set<Component>, a: Depths, b: Depths)
    requires c in world && Acyclic(world, a) && Acyclic(world, b)
    ensures Fresh(c, width, world, a) == Fresh(c, width, world, b)
    decreases a[c], |c.children| + 1
  {
    if c.isContainer {
      FreshChildrenDepths(c, |c.children|, width, world, a, b);
    }
  }

  lemma {:induction false} FreshChildrenDepths(c: Component, n: nat, width: nat,
                                               world: set<Component>, a: Depths, b: Depths)
    requires c in world && Acyclic(world, a) && Acyclic(world, b) && n <= |c.children|
    ensures FreshChildren(c, n, width, world, a) == FreshChildren(c, n, width, world, b)
    decreases a[c], n
  {
    if n > 0 {
      FreshChildrenDepths(c, n - 1, width, world, a, b);
      FreshDepths(c.children[n - 1], width, world, a, b);
    }
  }

  /** Everything below `c` was last rendered at this width, and states the revisions it had then. */
  ghost predicate Cached(c: Component, width: nat, world: set<Component>, depths: Depths)
    requires c in world && Acyclic(world, depths)
    reads world`children, world`cache, world`revision
    decreases depths[c]
  {
    if !c.isContainer then c.revision.Some?
    else
      && c.cache.Some? && c.cache.value.width == width && c.cache.value.children == c.children
      && |c.cache.value.childRevisions| == |c.children|
      && forall i | 0 <= i < |c.children| ::
        c.children[i].revision == Some(c.cache.value.childRevisions[i]) && Cached(c.children[i], width, world, depths)
  }

  twostate lemma CachedKept(new c: Component, new width: nat, new world: set<Component>, new depths: Depths)
    requires old(allocated(world)) && old(allocated(depths))
    requires c in world && old(Acyclic(world, depths)) && Acyclic(world, depths)
    requires forall d | d in world :: d.children == old(d.children) && d.Steady()
    requires old(Cached(c, width, world, depths))
    ensures Cached(c, width, world, depths)
    decreases depths[c]
  {
    if c.isContainer {
      forall i | 0 <= i < |c.children|
        ensures Cached(c.children[i], width, world, depths)
      {
        CachedKept(c.children[i], width, world, depths);
      }
    }
  }

  lemma FreshNext(c: Component, n: nat, width: nat, world: set<Component>, depths: Depths)
    requires c in world && Acyclic(world, depths) && n < |c.children|
    ensures FreshChildren(c, n + 1, width, world, depths) ==
      FreshChildren(c, n, width, world, depths) + Fresh(c.children[n], width, world, depths)
  {}

  ghost predicate Valid(world: set<Component>)
    reads world
  {
    forall c | c in world :: c.CachesFrom(world) && c.Ok()
  }

  /** A component: a container of others, or one that draws itself. */
  class Component {
    const isContainer: bool
    /** What a component that draws itself shows at each width. */
    var shown: nat -> Lines
    /** Its promise that what it shows is what it showed at that revision, if it makes one. */
    var revision: Option<nat>
    var children: seq<Component>
    var cache: Option<Cache>

    /** What was shown at each revision seen so far, at every width or at the one it was rendered at. */
    ghost var past: map<nat, nat -> Lines>
    ghost var rendered: map<nat, (nat, Lines)>
    ghost var cachedOutputs: seq<Lines>

    constructor Container()
      ensures Ok() && isContainer && children == [] && cache.None? && revision == Some(0) && past == map[]
    {
      isContainer := true;
      shown, revision, children, cache := _ => [], Some(0), [], None;
      past, rendered, cachedOutputs := map[], map[], [];
    }

    constructor Leaf(shows: nat -> Lines, states: Option<nat>)
      ensures Ok() && !isContainer && children == [] && cache.None? && shown == shows && revision == states
      ensures past == if states.Some? then map[states.value := shows] else map[]
    {
      isContainer := false;
      shown, revision, children, cache := shows, states, [], None;
      ghost var none: map<nat, nat -> Lines> := map[];
      past := if states.Some? then none[states.value := shows] else none;
      rendered, cachedOutputs := map[], [];
    }

    /** At revision `r` and width `w` the component showed `lines`, now and for good. */
    ghost predicate Showed(r: nat, w: nat, lines: Lines)
      reads this`past, this`rendered
    {
      if isContainer then r in rendered && rendered[r] == (w, lines) else r in past && past[r](w) == lines
    }

    /** The cached lines are what the cached children showed at their cached revisions. */
    ghost predicate CacheOk(cached: Cache)
      reads this`cachedOutputs, cached.children`past, cached.children`rendered
    {
      && |cached.children| == |cached.childRevisions| == |cachedOutputs| && cached.lines == Flat(cachedOutputs)
      && forall i | 0 <= i < |cached.children| ::
        cached.children[i].Showed(cached.childRevisions[i], cached.width, cachedOutputs[i])
    }

    ghost predicate CachesFrom(world: set<Component>)
      reads this`cache
    {
      cache.Some? ==> forall i | 0 <= i < |cache.value.children| :: cache.value.children[i] in world
    }

    ghost predicate Ok()
      reads this, if cache.Some? then cache.value.children else []
    {
      if isContainer then
        && revision.Some? && (forall r | r in rendered :: r <= revision.value)
        && (cache.Some? ==> CacheOk(cache.value))
        && (cache.Some? && revision.value in rendered ==>
              rendered[revision.value] == (cache.value.width, cache.value.lines))
      else revision.Some? ==> revision.value in past && past[revision.value] == shown
    }

    /** What the component has shown at each revision is never rewritten. */
    twostate predicate Remembers()
      reads this
    {
      && past == old(past) && (revision.Some? <==> old(revision).Some?)
      && forall r | r in old(rendered) :: r in rendered && rendered[r] == old(rendered)[r]
    }

    twostate predicate Steady()
      reads this
    {
      cache == old(cache) && revision == old(revision)
    }

    twostate predicate Untouched()
      reads this
    {
      cache == old(cache) && revision == old(revision) && rendered == old(rendered)
      && cachedOutputs == old(cachedOutputs)
    }

    /** What children showed at revisions they had they still showed. */
    twostate lemma ShowedKept(n: nat, new revisions: seq<nat>, new w: nat, new outputs: seq<Lines>)
      requires n <= |children| && n == |revisions| == |outputs| && children == old(children)
      requires forall j | 0 <= j < n :: children[j].Remembers()
      requires forall j | 0 <= j < n :: old(children[j].Showed(revisions[j], w, outputs[j]))
      ensures forall j | 0 <= j < n :: children[j].Showed(revisions[j], w, outputs[j])
    {}

    /** New records leave a component that is itself unchanged in order. */
    twostate lemma OkKept(world: set<Component>)
      requires this in world && old(CachesFrom(world) && Ok()) && Untouched()
        && past == old(past) && shown == old(shown)
      requires forall c | c in world :: c.Remembers()
      ensures CachesFrom(world) && Ok()
    {}

    /** A component whose records only grow leaves the others in order. */
    twostate lemma OthersOk(world: set<Component>)
      requires this in world && old(Valid(world)) && Ok() && CachesFrom(world)
      requires rendered == old(rendered) && forall r | r in old(past) :: r in past && past[r] == old(past)[r]
      requires forall c | c in world && c != this :: c.Same()
      ensures Valid(world)
    {}

    twostate predicate Same()
      reads this
    {
      shown == old(shown) && past == old(past) && Untouched()
    }

    /** Giving the cached lines again. */
    method Reuse(width: nat, ghost outputs: seq<Lines>, ghost world: set<Component>) returns (lines: Lines)
      requires this in world && Valid(world) && isContainer && cache.Some? && cache.value.width == width
      requires |outputs| == |cache.value.children|
      requires forall j | 0 <= j < |outputs| ::
        cache.value.children[j].Showed(cache.value.childRevisions[j], width, outputs[j])
      modifies this`rendered
      ensures Valid(world) && Remembers() && lines == cache.value.lines
      ensures lines == Flat(outputs) && revision.Some? && Showed(revision.value, width, lines)
    {
      assert cachedOutputs == outputs;
      lines := cache.value.lines;
      rendered := rendered[revision.value := (width, lines)];
      assert Ok();
      forall c | c in world && c != this
        ensures c.CachesFrom(world) && c.Ok()
      {
        c.OkKept(world);
      }
    }

    /** Joining the outputs, under a new revision, and caching them if every child has a revision. */
    method Store(width: nat, outputs: seq<Lines>, childRevisions: seq<nat>, ghost world: set<Component>)
      returns (lines: Lines)
      requires this in world && Valid(world) && isContainer && |outputs| == |children|
      requires this !in children && forall j | 0 <= j < |children| :: children[j] in world
      requires |childRevisions| == |children| ==>
        forall j | 0 <= j < |children| :: children[j].Showed(childRevisions[j], width, outputs[j])
      modifies this`cache, this`revision, this`rendered, this`cachedOutputs
      ensures Valid(world) && Remembers()
      ensures lines == Flat(outputs) && revision.Some? && Showed(revision.value, width, lines)
      ensures old(revision).Some? && revision == Some(old(revision).value + 1)
      ensures cache ==
        if |childRevisions| == |children| then Some(Cache(width, children, childRevisions, lines)) else None
    {
      lines := [];
      for i := 0 to |outputs|
        invariant lines == Flat(outputs[..i])
        invariant Untouched()
      {
        assert outputs[..i + 1][..i] == outputs[..i];
        lines := lines + outputs[i];
      }
      assert outputs[..|outputs|] == outputs;
      revision := Some(revision.value + 1);
      cache := if |childRevisions| == |children| then Some(Cache(width, children, childRevisions, lines)) else None;
      cachedOutputs := outputs;
      rendered := rendered[revision.value := (width, lines)];
      assert Ok();
      forall c | c in world && c != this
        ensures c.CachesFrom(world) && c.Ok()
      {
        c.OkKept(world);
      }
    }

    /** Rendering gives what the component freshly shows, and its revision then stands for that. */
    method Render(width: nat, ghost world: set<Component>, ghost depths: Depths) returns (lines: Lines)
      requires this in world && Valid(world) && Acyclic(world, depths)
      modifies world`cache, world`revision, world`rendered, world`cachedOutputs
      ensures Valid(world)
      ensures lines == Fresh(this, width, world, depths)
      ensures revision.Some? ==> Showed(revision.value, width, lines)
      ensures forall c | c in world :: c.Remembers()
      ensures forall c | c in world && depths[this] <= depths[c] && c != this :: c.Untouched()
      ensures old(Cached(this, width, world, depths)) ==> forall c | c in world :: c.Steady()
      ensures isContainer ==>
        && (cache.Some? <==> forall j | 0 <= j < |children| :: children[j].revision.Some?)
        && (cache.Some? ==>
              cache.value.width == width && cache.value.children == children && cache.value.lines == lines)
      decreases depths[this], 2
    {
      hide Valid, Flat, FreshChildren, Component.Showed, Component.CacheOk, Cached;
      if !isContainer {
        LeafShown(width, world);
        return shown(width);
      }
      var outputs, childRevisions, reusable := RenderChildren(width, world, depths);
      if reusable {
        lines := Reuse(width, outputs, world);
      } else {
        lines := Store(width, outputs, childRevisions, world);
      }
    }

    lemma LeafShown(width: nat, world: set<Component>)
      requires this in world && Valid(world) && !isContainer
      ensures revision.Some? ==> Showed(revision.value, width, shown(width))
    {}

    /** The first `i` children have been rendered; `reusable` while they and their revisions are those of the cache. */
    ghost predicate Rendering(i: nat, width: nat, outputs: seq<Lines>, childRevisions: seq<nat>, reusable: bool,
                              world: set<Component>, depths: Depths)
      requires this in world && Acyclic(world, depths)
      reads world
    {
      && i <= |children| && |outputs| == i && |childRevisions| <= i && Valid(world) && isContainer
      && Flat(outputs) == FreshChildren(this, i, width, world, depths)
      && (|childRevisions| == i <==> forall j | 0 <= j < i :: children[j].revision.Some?)
      && (|childRevisions| == i ==> forall j | 0 <= j < i :: children[j].Showed(childRevisions[j], width, outputs[j]))
      && (reusable ==>
            && cache.Some? && cache.value.width == width && cache.value.children == children
            && |cache.value.childRevisions| == |children|
            && |childRevisions| == i && childRevisions == cache.value.childRevisions[..i])
    }

    /** Rendering the next child and comparing its revision with the cached one. */
    method RenderChild(i: nat, width: nat, outputs: seq<Lines>, childRevisions: seq<nat>, reusable: bool,
                       ghost world: set<Component>, ghost depths: Depths)
      returns (more: seq<Lines>, moreRevisions: seq<nat>, still: bool)
      requires this in world && Acyclic(world, depths) && i < |children|
      requires Rendering(i, width, outputs, childRevisions, reusable, world, depths)
      modifies world`cache, world`revision, world`rendered, world`cachedOutputs
      ensures Rendering(i + 1, width, more, moreRevisions, still, world, depths)
      ensures forall c | c in world :: c.Remembers()
      ensures forall c | c in world && depths[this] <= depths[c] :: c.Untouched()
      ensures old(Cached(this, width, world, depths)) && reusable ==> still && forall c | c in world :: c.Steady()
      decreases depths[this], 0
    {
      hide Valid, Flat, FreshChildren, Component.Showed;
      FreshNext(this, i, width, world, depths);
      var child := children[i];
      var output := child.Render(width, world, depths);
      more, moreRevisions, still := outputs + [output], childRevisions, reusable;
      FlatAppend(outputs, output);
      if |childRevisions| == i {
        ShowedKept(i, childRevisions, width, outputs);
      }
      assert forall j | 0 <= j < i :: children[j].Remembers();
      assert |childRevisions| == i <==> forall j | 0 <= j < i :: children[j].revision.Some?;
      if child.revision.None? {
        still := false;
      } else {
        if reusable && cache.value.childRevisions[i] != child.revision.value {
          still := false;
        }
        moreRevisions := childRevisions + [child.revision.value];
      }
    }

    /** Rendering the children, and finding whether the cache was made from the same children at the same revisions. */
    method RenderChildren(width: nat, ghost world: set<Component>, ghost depths: Depths)
      returns (outputs: seq<Lines>, childRevisions: seq<nat>, reusable: bool)
      requires this in world && Valid(world) && Acyclic(world, depths) && isContainer
      modifies world`cache, world`revision, world`rendered, world`cachedOutputs
      ensures Rendering(|children|, width, outputs, childRevisions, reusable, world, depths)
      ensures forall c | c in world :: c.Remembers()
      ensures forall c | c in world && depths[this] <= depths[c] :: c.Untouched()
      ensures old(Cached(this, width, world, depths)) ==> reusable && forall c | c in world :: c.Steady()
      decreases depths[this], 1
    {
      hide Valid, Flat, FreshChildren, Component.Showed;
      outputs, childRevisions := [], [];
      reusable := cache.Some? && cache.value.width == width && cache.value.children == children;
      StartRendering(width, reusable, world, depths);
      for i := 0 to |children|
        invariant Rendering(i, width, outputs, childRevisions, reusable, world, depths)
        invariant forall c | c in world :: c.Remembers()
        invariant forall c | c in world && depths[this] <= depths[c] :: c.Untouched()
        invariant old(Cached(this, width, world, depths)) ==> reusable && forall c | c in world :: c.Steady()
      {
        if old(Cached(this, width, world, depths)) {
          CachedKept(this, width, world, depths);
        }
        outputs, childRevisions, reusable :=
          RenderChild(i, width, outputs, childRevisions, reusable, world, depths);
      }
    }

    /** A new child. The depths are those of the tree it makes. */
    method AddChild(component: Component, ghost world: set<Component>)
      requires this in world && component in world && isContainer && Valid(world)
      modifies this`children, this`revision
      ensures Valid(world) && children == old(children) + [component]
      ensures forall r | r in rendered :: Some(r) != revision
    {
      children := children + [component];
      revision := Some(revision.value + 1);
      OthersOk(world);
    }

    method RemoveChild(component: Component, ghost world: set<Component>)
      requires this in world && isContainer && Valid(world)
      modifies this`children, this`revision
      ensures Valid(world)
      ensures component !in old(children) ==> children == old(children) && revision == old(revision)
      ensures component in old(children) ==>
        && (exists i | 0 <= i < |old(children)| ::
              && old(children)[i] == component && component !in old(children)[..i]
              && children == old(children)[..i] + old(children)[i + 1..])
        && forall r | r in rendered :: Some(r) != revision
    {
      var index := 0;
      while index < |children| && children[index] != component
        invariant index <= |children| && component !in children[..index]
      {
        index := index + 1;
      }
      if index < |children| {
        children := children[..index] + children[index + 1..];
        revision := Some(revision.value + 1);
        OthersOk(world);
      } else {
        assert children[..index] == children;
      }
    }

    method Clear(ghost world: set<Component>)
      requires this in world && isContainer && Valid(world)
      modifies this`children, this`revision
      ensures Valid(world) && children == [] && forall r | r in rendered :: Some(r) != revision
    {
      children := [];
      revision := Some(revision.value + 1);
      OthersOk(world);
    }

    method DropCache(ghost world: set<Component>)
      requires this in world && Valid(world) && isContainer
      modifies this`cache, this`revision
      ensures Valid(world) && cache.None?
      ensures forall r | r in rendered :: Some(r) != revision
    {
      cache := None;
      revision := Some(revision.value + 1);
      OthersOk(world);
    }

    /** Dropping the caches here and below. */
    method Invalidate(ghost world: set<Component>, ghost depths: Depths)
      requires this in world && Valid(world) && Acyclic(world, depths)
      modifies world`cache, world`revision
      ensures Valid(world) && (isContainer ==> cache.None?)
      ensures forall i | 0 <= i < |children| && isContainer && children[i].isContainer :: children[i].cache.None?
      ensures forall c | c in world :: c.cache == old(c.cache) || c.cache.None?
      decreases depths[this]
    {
      hide Valid;
      if !isContainer { return; }
      DropCache(world);
      for i := 0 to |children|
        invariant Valid(world) && cache.None?
        invariant forall j | 0 <= j < i && children[j].isContainer :: children[j].cache.None?
        invariant forall c | c in world :: c.cache == old(c.cache) || c.cache.None?
      {
        children[i].Invalidate(world, depths);
      }
    }

    /**
     A component that draws itself comes to show something else. If it states a revision, that must be a new one, or one
     at which it showed just this.
     */
    method Change(shows: nat -> Lines, now: Option<nat>, ghost world: set<Component>)
      requires this in world && !isContainer && Valid(world)
      requires now.Some? && now.value in past ==> past[now.value] == shows
      modifies this`shown, this`revision, this`past
      ensures Valid(world) && shown == shows && revision == now
      ensures past == if now.Some? then old(past)[now.value := shows] else old(past)
    {
      shown, revision := shows, now;
      if now.Some? {
        past := past[now.value := shows];
      }
      OthersOk(world);
    }

    lemma StartRendering(width: nat, reusable: bool, world: set<Component>, depths: Depths)
      requires this in world && Valid(world) && Acyclic(world, depths) && isContainer
      requires reusable == (cache.Some? && cache.value.width == width && cache.value.children == children)
      ensures Rendering(0, width, [], [], reusable, world, depths)
    {}
  }

  lemma FlatAppend(outputs: seq<Lines>, output: Lines)
    ensures Flat(outputs + [output]) == Flat(outputs) + output
  {
    assert (outputs + [output])[..|outputs|] == outputs;
  }
}
