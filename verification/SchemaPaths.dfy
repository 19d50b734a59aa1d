/**
 What a projected schema declares, by paths: the sub-schemas reached from a schema through references and branches. A
 property is in the projection if and only if some reached schema declares it, with what the first of them says.
 */
module SchemaPaths {
  import opened Results
  import opened Json
  import opened BedrockSchema

  /** `Turn(0, 0)` follows the reference; `Turn(c + 1, i)` enters branch `i` of combinator `c`. */
  datatype Turn = Turn(kind: nat, index: nat)

  /** A schema, and the references followed on the way to it. */
  datatype Node = Node(schema: Object, followed: set<string>)

  function Follow(root: Object, node: Node, turn: Turn): Option<Node> {
    if turn.kind == 0 then
      if turn.index == 0 && HasRef(node.schema) && node.schema["$ref"].s !in node.followed then
        var target := ResolveRef(root, node.schema["$ref"].s);
        if target.Some? && target.value.Record?
        then Some(Node(target.value.fields, node.followed + {node.schema["$ref"].s})) else None
      else None
    else if turn.kind <= |COMBINATORS| && HasBranches(node.schema, COMBINATORS[turn.kind - 1]) then
      var items := node.schema[COMBINATORS[turn.kind - 1]].items;
      if turn.index < |items| && items[turn.index].Record?
      then Some(Node(items[turn.index].fields, node.followed)) else None
    else None
  }

  /** The schema at the end of a path. */
  function Reach(root: Object, node: Node, path: seq<Turn>): Option<Node>
    decreases |path|
  {
    if path == [] then Some(node)
    else
      var next := Follow(root, node, path[0]);
      if next.None? then None else Reach(root, next.value, path[1..])
  }

  /** The schema at the end of `path` declares the property as `value`: a valid name, and a record schema. */
  predicate DeclaresAt(root: Object, node: Node, path: seq<Turn>, key: string, value: Value) {
    var end := Reach(root, node, path);
    && end.Some? && PropertyName(key) && value.Record?
    && "properties" in end.value.schema && end.value.schema["properties"].Record?
    && key in end.value.schema["properties"].fields && end.value.schema["properties"].fields[key] == value
  }

  predicate Sooner(a: Turn, b: Turn) {
    a.kind < b.kind || (a.kind == b.kind && a.index < b.index)
  }

  /** A path comes before its continuations, and the sooner turn decides. */
  predicate Before(p: seq<Turn>, q: seq<Turn>) {
    q != [] && (p == [] || Sooner(p[0], q[0]) || (p[0] == q[0] && Before(p[1..], q[1..])))
  }

  /** `path` declares the property, and no path before it does. */
  ghost predicate FirstAt(root: Object, node: Node, path: seq<Turn>, key: string, value: Value) {
    DeclaresAt(root, node, path, key, value)
    && forall q, v | Before(q, path) :: !DeclaresAt(root, node, q, key, v)
  }

  /** Turns up to `kind` and, of that kind, below `index`: those that have been merged so far. */
  predicate Merging(path: seq<Turn>, kind: nat, index: nat) {
    path == [] || Sooner(path[0], Turn(kind, index))
  }

  /** The property as declared by the schema itself or through turns sooner than `Turn(kind, index)`. */
  ghost predicate DeclaredBy(root: Object, node: Node, kind: nat, index: nat, key: string, found: Option<Value>) {
    match found
    case Some(value) => exists path :: Merging(path, kind, index) && FirstAt(root, node, path, key, value)
    case None => forall path, v | Merging(path, kind, index) :: !DeclaresAt(root, node, path, key, v)
  }

  /** The property as declared anywhere. A name that every object inherits is taken from the schema itself only. */
  ghost predicate DeclaredFor(root: Object, node: Node, key: string, found: Option<Value>) {
    match found
    case Some(value) =>
      exists path :: (path == [] || key !in INHERITED) && FirstAt(root, node, path, key, value)
    case None =>
      forall path, v | path == [] || key !in INHERITED :: !DeclaresAt(root, node, path, key, v)
  }

  function At(properties: Object, key: string): Option<Value> {
    if key in properties then Some(properties[key]) else None
  }

  lemma ReachBehind(root: Object, node: Node, turn: Turn, path: seq<Turn>)
    ensures Reach(root, node, [turn] + path) ==
      if Follow(root, node, turn).None? then None else Reach(root, Follow(root, node, turn).value, path)
  {
    assert ([turn] + path)[1..] == path;
  }

  /** A schema's own properties are those it declares at the empty path. */
  lemma OwnProperties(root: Object, node: Node, key: string, value: Value)
    ensures At(Properties(node.schema), key) == Some(value) <==> DeclaresAt(root, node, [], key, value)
  {}

  // ---- Which schemas have a projection ----

  /** What projecting asks of one schema: an object schema whose reference leads on and whose branches are schemas. */
  predicate Proper(root: Object, node: Node) {
    && AllowsObject(node.schema) && ShapeProven(node.schema)
    && (HasRef(node.schema) ==> Follow(root, node, Turn(0, 0)).Some?)
    && forall c | c in COMBINATORS && c in node.schema ::
         HasBranches(node.schema, c) && forall v | v in node.schema[c].items :: v.Record?
  }

  ghost predicate AllProper(root: Object, node: Node) {
    forall path :: Reach(root, node, path).Some? ==> Proper(root, Reach(root, node, path).value)
  }

  ghost predicate Within(root: Object, node: Node) {
    Strings(Record(node.schema)) <= Strings(Record(root))
  }

  lemma FollowWithin(root: Object, node: Node, turn: Turn)
    requires Within(root, node) && Follow(root, node, turn).Some?
    ensures Within(root, Follow(root, node, turn).value)
  {
    hide ResolveRef;
    if turn.kind == 0 {
      TargetStrings(root, node.schema["$ref"].s);
    } else {
      var list := node.schema[COMBINATORS[turn.kind - 1]];
      assert Strings(list) <= Strings(Record(node.schema));
      assert list.items[turn.index] in list.items;
      assert Strings(list.items[turn.index]) <= Strings(list);
    }
  }

  /** What a schema that has a projection leads to has one too. */
  lemma FollowedProjects(root: Object, node: Node, turn: Turn)
    requires Within(root, node) && Follow(root, node, turn).Some?
    requires Project(root, node.schema, node.followed).Some?
    ensures Within(root, Follow(root, node, turn).value)
    ensures var next := Follow(root, node, turn).value; Project(root, next.schema, next.followed).Some?
  {
    hide ResolveRef, ShapeProven, AllowsObject, Branches;
    FollowWithin(root, node, turn);
    if turn.kind == 0 {
      StagesSome(root, node.schema, node.followed, 0);
    } else {
      StagesSome(root, node.schema, node.followed, turn.kind);
      var list := node.schema[COMBINATORS[turn.kind - 1]];
      assert Strings(list) <= Strings(Record(node.schema));
      BranchAt(root, list, node.followed, |list.items|, turn.index);
    }
  }

  lemma {:induction false} StagesSome(root: Object, schema: Object, visited: set<string>, n: nat)
    requires Strings(Record(schema)) <= Strings(Record(root)) && n <= |COMBINATORS|
    requires Project(root, schema, visited).Some?
    ensures WithCombinators(root, schema, visited, n).Some?
  {
    hide Project, WithCombinators;
    if WithCombinators(root, schema, visited, n).None? {
      CombinatorFails(root, schema, visited, n);
    }
  }

  lemma ProjectedProper(root: Object, node: Node)
    requires Within(root, node) && Project(root, node.schema, node.followed).Some?
    ensures Proper(root, node)
  {
    hide ResolveRef, ShapeProven, AllowsObject, Branches, Project;
    ProjectShape(root, node);
    StagesSome(root, node.schema, node.followed, 0);
    forall c | c in COMBINATORS && c in node.schema
      ensures HasBranches(node.schema, c) && forall v | v in node.schema[c].items :: v.Record?
    {
      var n: nat :| n < |COMBINATORS| && COMBINATORS[n] == c;
      StagesSome(root, node.schema, node.followed, n + 1);
      var list := node.schema[c];
      assert Strings(list) <= Strings(Record(node.schema));
      forall i | 0 <= i < |list.items|
        ensures list.items[i].Record?
      {
        BranchAt(root, list, node.followed, |list.items|, i);
      }
    }
  }

  lemma ProjectShape(root: Object, node: Node)
    requires Within(root, node) && Project(root, node.schema, node.followed).Some?
    ensures AllowsObject(node.schema) && ShapeProven(node.schema)
  {
    hide ShapeProven, AllowsObject, WithCombinators;
  }

  lemma {:induction false} ReachedProper(root: Object, node: Node, path: seq<Turn>)
    requires Within(root, node) && Project(root, node.schema, node.followed).Some?
    requires Reach(root, node, path).Some?
    ensures Proper(root, Reach(root, node, path).value)
    decreases |path|
  {
    hide Proper, Follow, Project;
    if path == [] {
      ProjectedProper(root, node);
    } else {
      FollowedProjects(root, node, path[0]);
      ReachedProper(root, Follow(root, node, path[0]).value, path[1..]);
    }
  }

  lemma FollowedAllProper(root: Object, node: Node, turn: Turn)
    requires AllProper(root, node) && Follow(root, node, turn).Some?
    ensures AllProper(root, Follow(root, node, turn).value)
  {
    hide Proper, Follow;
    var next := Follow(root, node, turn).value;
    forall path | Reach(root, next, path).Some?
      ensures Proper(root, Reach(root, next, path).value)
    {
      ReachBehind(root, node, turn, path);
      assert Reach(root, node, [turn] + path).Some?;
    }
  }

  lemma {:induction false} ProperProjects(root: Object, schema: Object, visited: set<string>)
    requires Strings(Record(schema)) <= Strings(Record(root)) && AllProper(root, Node(schema, visited))
    ensures Project(root, schema, visited).Some?
    decreases Strings(Record(root)) - visited, Record(schema), 2, 0
  {
    hide WithCombinators, Follow, ShapeProven, AllowsObject;
    assert Reach(root, Node(schema, visited), []) == Some(Node(schema, visited));
    ProperStages(root, schema, visited, |COMBINATORS|);
  }

  lemma {:induction false} ProperStages(root: Object, schema: Object, visited: set<string>, n: nat)
    requires Strings(Record(schema)) <= Strings(Record(root)) && n <= |COMBINATORS|
    requires AllProper(root, Node(schema, visited))
    ensures WithCombinators(root, schema, visited, n).Some?
    decreases Strings(Record(root)) - visited, Record(schema), 1, n
  {
    hide Project, Branches, ResolveRef, AllProper, ShapeProven, AllowsObject;
    var node := Node(schema, visited);
    ProperHere(root, node);
    if n > 0 {
      ProperStages(root, schema, visited, n - 1);
      var c := COMBINATORS[n - 1];
      if c in schema {
        assert Strings(schema[c]) <= Strings(Record(schema));
        ProperBranches(root, schema, visited, n - 1, |schema[c].items|);
      }
    } else if HasRef(schema) {
      var reference := schema["$ref"].s;
      FollowedAllProper(root, node, Turn(0, 0));
      TargetStrings(root, reference);
      assert reference in Strings(schema["$ref"]);
      ProperProjects(root, ResolveRef(root, reference).value.fields, visited + {reference});
    }
  }

  lemma ProperHere(root: Object, node: Node)
    requires AllProper(root, node)
    ensures Proper(root, node)
  {
    hide Proper;
    assert Reach(root, node, []) == Some(node);
  }

  lemma {:induction false} ProperBranches(root: Object, schema: Object, visited: set<string>, c: nat, n: nat)
    requires c < |COMBINATORS| && HasBranches(schema, COMBINATORS[c]) && n <= |schema[COMBINATORS[c]].items|
    requires Strings(Record(schema)) <= Strings(Record(root)) && AllProper(root, Node(schema, visited))
    requires Strings(schema[COMBINATORS[c]]) <= Strings(Record(root))
    ensures Branches(root, schema[COMBINATORS[c]], visited, n).Some?
    decreases Strings(Record(root)) - visited, schema[COMBINATORS[c]], 3, n
  {
    hide Project, AllProper, ShapeProven, AllowsObject, ResolveRef;
    if n > 0 {
      var list := schema[COMBINATORS[c]];
      ProperHere(root, Node(schema, visited));
      assert list.items[n - 1] in list.items;
      ProperBranches(root, schema, visited, c, n - 1);
      FollowedAllProper(root, Node(schema, visited), Turn(c + 1, n - 1));
      FollowWithin(root, Node(schema, visited), Turn(c + 1, n - 1));
      ProperProjects(root, list.items[n - 1].fields, visited);
    }
  }

  /** A schema has a projection if and only if every schema reached from it is a proper one. */
  lemma ProjectsExactly(root: Object, schema: Object)
    requires Strings(Record(schema)) <= Strings(Record(root))
    ensures Project(root, schema, {}).Some? <==> AllProper(root, Node(schema, {}))
  {
    hide Project, Proper, Reach;
    if Project(root, schema, {}).Some? {
      forall path | Reach(root, Node(schema, {}), path).Some?
        ensures Proper(root, Reach(root, Node(schema, {}), path).value)
      {
        ReachedProper(root, Node(schema, {}), path);
      }
    } else if AllProper(root, Node(schema, {})) {
      ProperProjects(root, schema, {});
    }
  }

  // ---- Which properties a projection has ----

  /** The schema's own properties. */
  lemma OwnDeclared(root: Object, node: Node, key: string)
    ensures DeclaredBy(root, node, 0, 0, key, At(Properties(node.schema), key))
  {
    var found := At(Properties(node.schema), key);
    assert Reach(root, node, []) == Some(node);
    if found.Some? {
      assert FirstAt(root, node, [], key, found.value);
    }
  }

  /** One more turn: what it leads to declares the property if nothing sooner did. */
  lemma TurnDeclared(root: Object, node: Node, turn: Turn, key: string, found: Option<Value>, more: Option<Value>)
    requires DeclaredBy(root, node, turn.kind, turn.index, key, found) && key !in INHERITED
    requires Follow(root, node, turn).Some? && DeclaredFor(root, Follow(root, node, turn).value, key, more)
    ensures DeclaredBy(root, node, turn.kind, turn.index + 1, key, if found.Some? then found else more)
  {
    hide Follow, INHERITED, DeclaresAt;
    var next := Follow(root, node, turn).value;
    if found.Some? {
      var path :| Merging(path, turn.kind, turn.index) && FirstAt(root, node, path, key, found.value);
      assert Merging(path, turn.kind, turn.index + 1);
    } else {
      forall path, v | Merging(path, turn.kind, turn.index + 1)
        ensures DeclaresAt(root, node, path, key, v) ==>
          path != [] && path[0] == turn && DeclaresAt(root, next, path[1..], key, v)
      {
        if path != [] && path[0] == turn {
          DeclaredBehind(root, node, turn, path[1..], key, v);
          assert [turn] + path[1..] == path;
        } else {
          assert Merging(path, turn.kind, turn.index);
        }
      }
      if more.Some? {
        var rest :| FirstAt(root, next, rest, key, more.value);
        FirstBehind(root, node, turn, rest, key, more.value);
      }
    }
  }

  lemma DeclaredBehind(root: Object, node: Node, turn: Turn, path: seq<Turn>, key: string, value: Value)
    requires Follow(root, node, turn).Some?
    ensures DeclaresAt(root, node, [turn] + path, key, value)
       <==> DeclaresAt(root, Follow(root, node, turn).value, path, key, value)
  {
    hide Follow, Reach;
    ReachBehind(root, node, turn, path);
  }

  lemma FirstBehind(root: Object, node: Node, turn: Turn, rest: seq<Turn>, key: string, value: Value)
    requires Follow(root, node, turn).Some? && FirstAt(root, Follow(root, node, turn).value, rest, key, value)
    requires forall path, v | Merging(path, turn.kind, turn.index) :: !DeclaresAt(root, node, path, key, v)
    ensures FirstAt(root, node, [turn] + rest, key, value) && Merging([turn] + rest, turn.kind, turn.index + 1)
  {
    hide Follow, DeclaresAt;
    DeclaredBehind(root, node, turn, rest, key, value);
    var path := [turn] + rest;
    assert path[1..] == rest;
    forall q, v | Before(q, path)
      ensures !DeclaresAt(root, node, q, key, v)
    {
      if q == [] || Sooner(q[0], turn) {
        assert Merging(q, turn.kind, turn.index);
      } else {
        DeclaredBehind(root, node, turn, q[1..], key, v);
        assert [turn] + q[1..] == q;
      }
    }
  }

  /** No turn of this kind is left. */
  lemma KindDone(root: Object, node: Node, kind: nat, index: nat, key: string, found: Option<Value>)
    requires DeclaredBy(root, node, kind, index, key, found)
    requires forall j: nat | j >= index :: Follow(root, node, Turn(kind, j)).None?
    ensures DeclaredBy(root, node, kind + 1, 0, key, found)
  {
    hide Follow, FirstAt;
    if found.Some? {
      var path :| Merging(path, kind, index) && FirstAt(root, node, path, key, found.value);
      assert Merging(path, kind + 1, 0);
    } else {
      forall path: seq<Turn>, v | Merging(path, kind + 1, 0)
        ensures !DeclaresAt(root, node, path, key, v)
      {
        if !Merging(path, kind, index) {
          assert path[0] == Turn(kind, path[0].index);
        }
      }
    }
  }

  lemma AllDone(root: Object, node: Node, key: string, found: Option<Value>)
    requires DeclaredBy(root, node, |COMBINATORS| + 1, 0, key, found) && key !in INHERITED
    ensures DeclaredFor(root, node, key, found)
  {
    hide FirstAt;
    if found.None? {
      forall path: seq<Turn>, v
        ensures !DeclaresAt(root, node, path, key, v)
      {
        if !Merging(path, |COMBINATORS| + 1, 0) {
          assert Follow(root, node, path[0]).None?;
        }
      }
    }
  }

  lemma {:induction false} ProjectDeclares(root: Object, schema: Object, visited: set<string>, key: string)
    requires Strings(Record(schema)) <= Strings(Record(root)) && Project(root, schema, visited).Some?
    requires key !in INHERITED
    ensures DeclaredFor(root, Node(schema, visited), key, At(Project(root, schema, visited).value.properties, key))
    decreases Strings(Record(root)) - visited, Record(schema), 2, 0
  {
    hide WithCombinators, DeclaredFor, DeclaredBy, ShapeProven, AllowsObject, INHERITED;
    StageDeclares(root, schema, visited, |COMBINATORS|, key);
    AllDone(root, Node(schema, visited), key, At(Project(root, schema, visited).value.properties, key));
  }

  lemma {:induction false} StageDeclares(root: Object, schema: Object, visited: set<string>, n: nat, key: string)
    requires Strings(Record(schema)) <= Strings(Record(root)) && n <= |COMBINATORS|
    requires WithCombinators(root, schema, visited, n).Some? && key !in INHERITED
    ensures DeclaredBy(root, Node(schema, visited), n + 1, 0, key,
                       At(WithCombinators(root, schema, visited, n).value.properties, key))
    decreases Strings(Record(root)) - visited, Record(schema), 1, n
  {
    hide Project, Branches, ResolveRef, DeclaredFor, DeclaredBy, INHERITED, MergedAll, Properties, Named;
    var node := Node(schema, visited);
    if n == 0 {
      RefDeclares(root, schema, visited, key);
    } else {
      StageDeclares(root, schema, visited, n - 1, key);
      var before := WithCombinators(root, schema, visited, n - 1).value;
      var c := COMBINATORS[n - 1];
      if c in schema {
        assert Strings(schema[c]) <= Strings(Record(schema));
        BranchesDeclare(root, schema, visited, n - 1, before, |schema[c].items|, key);
        var branches := Branches(root, schema[c], visited, |schema[c].items|).value;
        assert branches[..|branches|] == branches;
        KindDone(root, node, n, |schema[c].items|, key, At(MergedAll(before.properties, branches), key));
      } else {
        KindDone(root, node, n, 0, key, At(before.properties, key));
      }
    }
  }

  lemma {:induction false} RefDeclares(root: Object, schema: Object, visited: set<string>, key: string)
    requires Strings(Record(schema)) <= Strings(Record(root)) && WithRef(root, schema, visited).Some?
    requires key !in INHERITED
    ensures DeclaredBy(root, Node(schema, visited), 1, 0, key,
                       At(WithRef(root, schema, visited).value.properties, key))
    decreases Strings(Record(root)) - visited, Record(schema), 0, 0
  {
    hide Project, ResolveRef, DeclaredFor, DeclaredBy, INHERITED, Properties, Named;
    var node := Node(schema, visited);
    OwnDeclared(root, node, key);
    if HasRef(schema) {
      var reference := schema["$ref"].s;
      var target := ResolveRef(root, reference);
      TargetStrings(root, reference);
      assert reference in Strings(schema["$ref"]);
      ProjectDeclares(root, target.value.fields, visited + {reference}, key);
      var p := Project(root, target.value.fields, visited + {reference}).value;
      MergedAt(Properties(schema), p.properties, key);
      TurnDeclared(root, node, Turn(0, 0), key, At(Properties(schema), key), At(p.properties, key));
      KindDone(root, node, 0, 1, key, At(WithRef(root, schema, visited).value.properties, key));
    } else {
      KindDone(root, node, 0, 0, key, At(Properties(schema), key));
    }
  }

  lemma MergedAt(target: Object, source: Object, key: string)
    requires key !in INHERITED
    ensures At(Merged(target, source), key) == if key in target then At(target, key) else At(source, key)
  {
    hide INHERITED;
  }

  lemma MergedNone(target: Object, branches: seq<Projection>)
    ensures MergedAll(target, branches[..0]) == target
  {}

  lemma MergedNext(target: Object, branches: seq<Projection>, n: nat, key: string)
    requires 0 < n <= |branches| && key !in INHERITED
    ensures var sofar := At(MergedAll(target, branches[..n - 1]), key);
      At(MergedAll(target, branches[..n]), key) == if sofar.Some? then sofar else At(branches[n - 1].properties, key)
  {
    hide INHERITED, Merged;
    assert branches[..n][..n - 1] == branches[..n - 1];
    MergedAt(MergedAll(target, branches[..n - 1]), branches[n - 1].properties, key);
  }

  lemma {:induction false} BranchesDeclare(root: Object, schema: Object, visited: set<string>, c: nat, 
                                           before: Projection, n: nat, key: string)
    requires c < |COMBINATORS| && HasBranches(schema, COMBINATORS[c]) && n <= |schema[COMBINATORS[c]].items|
    requires Strings(Record(schema)) <= Strings(Record(root))
    requires Strings(schema[COMBINATORS[c]]) <= Strings(Record(root))
    requires Branches(root, schema[COMBINATORS[c]], visited, |schema[COMBINATORS[c]].items|).Some?
    requires key !in INHERITED
    requires DeclaredBy(root, Node(schema, visited), c + 1, 0, key, At(before.properties, key))
    ensures var branches := Branches(root, schema[COMBINATORS[c]], visited, |schema[COMBINATORS[c]].items|).value;
      DeclaredBy(root, Node(schema, visited), c + 1, n, key, At(MergedAll(before.properties, branches[..n]), key))
    decreases Strings(Record(root)) - visited, schema[COMBINATORS[c]], 3, n
  {
    hide Project, Branches, ResolveRef, DeclaredFor, DeclaredBy, INHERITED, Named, Merged, MergedAll, At, Properties;
    var list := schema[COMBINATORS[c]];
    var branches := Branches(root, list, visited, |list.items|).value;
    if n == 0 {
      MergedNone(before.properties, branches);
    } else {
      BranchesDeclare(root, schema, visited, c, before, n - 1, key);
      BranchAt(root, list, visited, |list.items|, n - 1);
      ProjectDeclares(root, list.items[n - 1].fields, visited, key);
      var sofar := MergedAll(before.properties, branches[..n - 1]);
      MergedNext(before.properties, branches, n, key);
      TurnDeclared(root, Node(schema, visited), Turn(c + 1, n - 1), key, At(sofar, key),
                   At(branches[n - 1].properties, key));
    }
  }

  // ---- Names that every object inherits ----

  lemma {:induction false} InheritedOwn(root: Object, schema: Object, visited: set<string>, n: nat, key: string)
    requires Strings(Record(schema)) <= Strings(Record(root)) && n <= |COMBINATORS|
    requires WithCombinators(root, schema, visited, n).Some? && key in INHERITED
    ensures At(WithCombinators(root, schema, visited, n).value.properties, key) == At(Properties(schema), key)
    decreases n
  {
    hide Project, Branches, ResolveRef, INHERITED, MergedAll, Properties, Named;
    if n == 0 {
      if HasRef(schema) {
        TargetStrings(root, schema["$ref"].s);
      }
    } else {
      InheritedOwn(root, schema, visited, n - 1, key);
      var c := COMBINATORS[n - 1];
      if c in schema {
        var branches := Branches(root, schema[c], visited, |schema[c].items|).value;
        var before := WithCombinators(root, schema, visited, n - 1).value;
        InheritedKept(before.properties, branches, key);
      }
    }
  }

  lemma {:induction false} InheritedKept(target: Object, sources: seq<Projection>, key: string)
    requires key in INHERITED
    ensures At(MergedAll(target, sources), key) == At(target, key)
  {
    hide INHERITED;
    if sources != [] {
      InheritedKept(target, sources[..|sources| - 1], key);
    }
  }

  lemma OwnFor(root: Object, node: Node, key: string)
    requires key in INHERITED
    ensures DeclaredFor(root, node, key, At(Properties(node.schema), key))
  {
    hide INHERITED;
    var found := At(Properties(node.schema), key);
    assert Reach(root, node, []) == Some(node);
    if found.Some? {
      assert FirstAt(root, node, [], key, found.value);
    }
  }

  /**
   A name is among the properties of a projection if and only if a schema reached from it declares that name, the schema
   itself if every object inherits the name; and its value is what the first of them declares.
   */
  lemma PropertiesExactly(root: Object, schema: Object, visited: set<string>, key: string)
    requires Strings(Record(schema)) <= Strings(Record(root)) && Project(root, schema, visited).Some?
    ensures DeclaredFor(root, Node(schema, visited), key, At(Project(root, schema, visited).value.properties, key))
  {
    hide DeclaredFor, INHERITED, WithCombinators, ShapeProven, AllowsObject;
    if key in INHERITED {
      InheritedOwn(root, schema, visited, |COMBINATORS|, key);
      OwnFor(root, Node(schema, visited), key);
    } else {
      ProjectDeclares(root, schema, visited, key);
    }
  }

  /** There is at most one answer. */
  lemma DeclaredOnce(root: Object, node: Node, key: string, a: Option<Value>, b: Option<Value>)
    requires DeclaredFor(root, node, key, a) && DeclaredFor(root, node, key, b)
    ensures a == b
  {
    hide DeclaresAt, INHERITED;
    if a.Some? && b.Some? {
      var p :| (p == [] || key !in INHERITED) && FirstAt(root, node, p, key, a.value);
      var q :| (q == [] || key !in INHERITED) && FirstAt(root, node, q, key, b.value);
      BeforeOrSame(p, q);
      DeclaresOnce(root, node, p, key, a.value, b.value);
    }
  }

  lemma DeclaresOnce(root: Object, node: Node, path: seq<Turn>, key: string, v: Value, w: Value)
    ensures DeclaresAt(root, node, path, key, v) && DeclaresAt(root, node, path, key, w) ==> v == w
  {}

  lemma {:induction false} BeforeOrSame(p: seq<Turn>, q: seq<Turn>)
    ensures p == q || Before(p, q) || Before(q, p)
    decreases |p|
  {
    if p != [] && q != [] && p[0] == q[0] {
      BeforeOrSame(p[1..], q[1..]);
      assert p == [p[0]] + p[1..] && q == [q[0]] + q[1..];
    }
  }

  // ---- The schema sent to the provider ----

  /** The properties sent are those declared on some path, each as it is first declared. */
  lemma SentProperties(schema: Object, out: Object, key: string)
    requires Project(schema, schema, {}).Some? && FlatOf(schema, out)
    ensures "properties" in out && out["properties"].Record?
    ensures DeclaredFor(schema, Node(schema, {}), key, At(out["properties"].fields, key))
  {
    hide Project, DeclaredFor, Forced;
    PropertiesExactly(schema, schema, {}, key);
  }

  /** What is rewritten: object schemas with at most one combinator of which every reached schema is a proper one. */
  lemma RewritableExactly(schema: Value)
    ensures Rewritable(schema) <==>
      && schema.Record? && AllowsObject(schema.fields) && |CombinatorsIn(schema.fields)| <= 1
      && AllProper(schema.fields, Node(schema.fields, {}))
  {
    hide Project, AllProper, AllowsObject;
    if schema.Record? {
      ProjectsExactly(schema.fields, schema.fields);
    }
  }
}
