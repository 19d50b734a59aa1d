/**
 Projecting a tool schema with references and combinators to one flat object schema. The keys the projection requires
 are exactly the property names that an object must have to be accepted, as far as references, combinators and required
 keys decide: by every validator of which only `Enforces` is known.
 */
module BedrockSchema {
  import opened Fields
  import opened Results
  import opened Json

  type Object = map<string, Value>

  // ---- Names and references ----

  predicate NameChar(c: char) {
    'a' <= c <= 'z' || 'A' <= c <= 'Z' || '0' <= c <= '9' || c == '_' || c == '.' || c == '-'
  }

  predicate PropertyName(key: string) {
    1 <= |key| <= 64 && forall i | 0 <= i < |key| :: NameChar(key[i])
  }

  /** The names every JavaScript object inherits: `in` finds them in an object that does not list them. */
  const INHERITED: set<string> := {
    "constructor", "hasOwnProperty", "isPrototypeOf", "propertyIsEnumerable", "toLocaleString", "toString", "valueOf",
    "__proto__", "__defineGetter__", "__defineSetter__", "__lookupGetter__", "__lookupSetter__"
  }

  predicate LineEnd(c: char) {
    c == '\n' || c == '\r' || c == '\U{2028}' || c == '\U{2029}'
  }

  predicate OneLine(s: string) {
    forall i | 0 <= i < |s| :: !LineEnd(s[i])
  }

  /** Every `~` followed by `digit` becomes `c`. */
  function Replace(s: string, digit: char, c: char): string {
    if |s| < 2 then s
    else if s[0] == '~' && s[1] == digit then [c] + Replace(s[2..], digit, c)
    else [s[0]] + Replace(s[1..], digit, c)
  }

  function Unescape(part: string): string {
    Replace(Replace(part, '1', '/'), '0', '~')
  }

  /** The value reached from `v` by one key after another. */
  function Lookup(v: Option<Value>, parts: seq<string>): Option<Value>
    decreases |parts|
  {
    if parts == [] then v
    else if v.None? || !v.value.Record? then None
    else Lookup(if parts[0] in v.value.fields then Some(v.value.fields[parts[0]]) else None, parts[1..])
  }

  function Unescaped(parts: seq<string>): seq<string> {
    seq(|parts|, i requires 0 <= i < |parts| => Unescape(parts[i]))
  }

  function Pointer(root: Object, section: string, rest: string): Option<Value> {
    if rest == [] || !OneLine(rest) then None
    else Lookup(Some(Record(root)), [section] + Unescaped(Split(rest, '/')))
  }

  const DEFS := "#/$defs/"
  const DEFINITIONS := "#/definitions/"

  function ResolveRef(root: Object, reference: string): Option<Value> {
    if DEFS <= reference then Pointer(root, "$defs", reference[|DEFS|..])
    else if DEFINITIONS <= reference then Pointer(root, "definitions", reference[|DEFINITIONS|..])
    else None
  }

  // ---- A reference written as a JSON pointer (RFC 6901) finds its value ----

  function Escape(part: string): string {
    if part == [] then []
    else (if part[0] == '~' then "~0" else if part[0] == '/' then "~1" else [part[0]]) + Escape(part[1..])
  }

  /** The part with only its tildes escaped. */
  function EscapeTildes(part: string): string {
    if part == [] then [] else (if part[0] == '~' then "~0" else [part[0]]) + EscapeTildes(part[1..])
  }

  lemma ReplaceSkip(a: char, s: string, digit: char, c: char)
    requires a != '~'
    ensures Replace([a] + s, digit, c) == [a] + Replace(s, digit, c)
  {
    if s != [] {
      assert ([a] + s)[1..] == s;
    }
  }

  lemma ReplacePair(s: string, digit: char, c: char)
    ensures Replace(['~', digit] + s, digit, c) == [c] + Replace(s, digit, c)
  {
    assert (['~', digit] + s)[2..] == s;
  }

  lemma ReplaceOther(a: char, s: string, digit: char, c: char)
    requires a != digit && a != '~'
    ensures Replace(['~', a] + s, digit, c) == ['~', a] + Replace(s, digit, c)
  {
    ReplaceSkip(a, s, digit, c);
    assert (['~', a] + s)[1..] == [a] + s;
  }

  lemma {:induction false} UnescapeSlashes(part: string)
    ensures Replace(Escape(part), '1', '/') == EscapeTildes(part)
  {
    if part != [] {
      hide Replace;
      var rest := Escape(part[1..]);
      UnescapeSlashes(part[1..]);
      if part[0] == '~' {
        ReplaceOther('0', rest, '1', '/');
      } else if part[0] == '/' {
        ReplacePair(rest, '1', '/');
      } else {
        ReplaceSkip(part[0], rest, '1', '/');
      }
    }
  }

  lemma {:induction false} UnescapeTildes(part: string)
    ensures Replace(EscapeTildes(part), '0', '~') == part
  {
    if part != [] {
      hide Replace;
      var rest := EscapeTildes(part[1..]);
      UnescapeTildes(part[1..]);
      if part[0] == '~' {
        ReplacePair(rest, '0', '~');
      } else {
        ReplaceSkip(part[0], rest, '0', '~');
      }
    }
  }

  lemma EscapeRoundTrip(part: string)
    ensures Unescape(Escape(part)) == part
  {
    UnescapeSlashes(part);
    UnescapeTildes(part);
  }

  lemma OneLineConcat(a: string, b: string)
    ensures OneLine(a + b) <==> OneLine(a) && OneLine(b)
  {
    assert forall i | 0 <= i < |a| :: a[i] == (a + b)[i];
    assert forall i | 0 <= i < |b| :: b[i] == (a + b)[|a| + i];
  }

  lemma {:induction false} EscapeChars(part: string)
    ensures '/' !in Escape(part)
    ensures OneLine(Escape(part)) <==> OneLine(part)
  {
    if part != [] {
      EscapeChars(part[1..]);
      var first := if part[0] == '~' then "~0" else if part[0] == '/' then "~1" else [part[0]];
      OneLineConcat(first, Escape(part[1..]));
      OneLineConcat([part[0]], part[1..]);
      assert part == [part[0]] + part[1..];
      assert OneLine(first) <==> OneLine([part[0]]);
    }
  }

  function Escaped(parts: seq<string>): seq<string> {
    seq(|parts|, i requires 0 <= i < |parts| => Escape(parts[i]))
  }

  /** The JSON pointer of a path of keys, as a fragment. */
  function PointerOf(path: seq<string>): string {
    Join(["#"] + Escaped(path), '/')
  }

  lemma {:induction false} EscapePlain(part: string)
    requires '~' !in part && '/' !in part
    ensures Escape(part) == part
  {
    if part != [] {
      EscapePlain(part[1..]);
      assert part == [part[0]] + part[1..];
    }
  }

  predicate AllLines(parts: seq<string>) {
    forall i | 0 <= i < |parts| :: OneLine(parts[i])
  }

  lemma AllLinesCons(first: string, rest: seq<string>)
    ensures AllLines([first] + rest) <==> OneLine(first) && AllLines(rest)
  {
    hide OneLine;
    assert ([first] + rest)[0] == first;
    assert forall i | 0 <= i < |rest| :: rest[i] == ([first] + rest)[i + 1];
  }

  /** A text has no line break if and only if none of its parts has one. */
  lemma {:induction false} SplitLines(s: string)
    ensures OneLine(s) <==> AllLines(Split(s, '/'))
  {
    if s != "" {
      var rest := Split(s[1..], '/');
      SplitLines(s[1..]);
      assert s == [s[0]] + s[1..];
      OneLineConcat([s[0]], s[1..]);
      OneLineConcat([s[0]], rest[0]);
      assert rest == [rest[0]] + rest[1..];
      hide OneLine, AllLines;
      AllLinesCons("", rest);
      AllLinesCons(rest[0], rest[1..]);
      AllLinesCons([s[0]] + rest[0], rest[1..]);
      LineParts(s[0]);
    }
  }

  lemma LineParts(c: char)
    ensures OneLine("") && (c == '/' ==> OneLine([c]))
  {}

  lemma PointerSplit(path: seq<string>)
    ensures Split(PointerOf(path), '/') == ["#"] + Escaped(path)
  {
    hide Join, Escape, Split;
    forall i | 0 <= i < |path|
      ensures '/' !in Escaped(path)[i]
    {
      EscapeChars(path[i]);
    }
    SplitJoin(["#"] + Escaped(path), '/');
  }

  predicate IsSection(key: string) {
    key == "$defs" || key == "definitions"
  }

  /** A pointer that begins with a section has that section as its first key, and the rest of it is the other keys. */
  lemma PointerPrefix(path: seq<string>, section: string, rest: string)
    requires IsSection(section) && PointerOf(path) == "#/" + section + "/" + rest
    ensures |path| >= 2 && path[0] == section && Split(rest, '/') == Escaped(path[1..])
  {
    hide Split, Escape, PointerOf;
    PointerSplit(path);
    SectionPlain(section);
    SplitFirst("#", section + "/" + rest, '/');
    SplitFirst(section, rest, '/');
    assert "#/" + section + "/" + rest == "#" + ['/'] + (section + "/" + rest);
    assert section + "/" + rest == section + ['/'] + rest;
    var tokens := Escaped(path);
    assert ["#"] + tokens == ["#"] + ([section] + Split(rest, '/'));
    assert tokens == (["#"] + tokens)[1..] == [section] + Split(rest, '/');
    assert tokens[0] == Escape(path[0]) == section;
    EscapeRoundTrip(path[0]);
    EscapeRoundTrip(section);
    assert Escaped(path[1..]) == tokens[1..];
  }

  lemma SectionPlain(section: string)
    requires IsSection(section)
    ensures '/' !in section && Escape(section) == section
  {
    if section == "$defs" {
      EscapePlain("$defs");
    } else {
      EscapePlain("definitions");
    }
  }

  /** A path that begins with a section and goes on has a pointer that begins with that section. */
  lemma PathPrefix(path: seq<string>)
    requires |path| >= 2 && IsSection(path[0])
    ensures PointerOf(path) == "#/" + path[0] + "/" + Join(Escaped(path[1..]), '/')
  {
    hide Escape;
    SectionPlain(path[0]);
    var tokens := Escaped(path);
    assert (["#"] + tokens)[1..] == tokens && tokens[1..] == Escaped(path[1..]);
    assert tokens[0] == path[0];
    var rest := Join(tokens[1..], '/');
    assert Join(tokens, '/') == path[0] + ['/'] + rest;
    assert PointerOf(path) == "#" + ['/'] + (path[0] + ['/'] + rest);
  }

  /** The keys a reference can lead to: below a section, with no line break, and not the empty name on its own. */
  predicate Referable(path: seq<string>) {
    |path| >= 2 && IsSection(path[0]) && path[1..] != [""] && AllLines(path[1..])
  }

  lemma PointerAt(root: Object, section: string, rest: string)
    requires IsSection(section)
    ensures ResolveRef(root, "#/" + section + "/" + rest) == Pointer(root, section, rest)
  {
    hide Pointer;
    var reference := "#/" + section + "/" + rest;
    if section == "$defs" {
      assert reference[..|DEFS|] == DEFS && reference[|DEFS|..] == rest;
    } else {
      assert reference[2] == 'd';
      assert reference[..|DEFINITIONS|] == DEFINITIONS && reference[|DEFINITIONS|..] == rest;
    }
  }

  /** What lies below a section is looked up if the pattern matches it. */
  lemma PointerBelow(root: Object, section: string, rest: string, keys: seq<string>)
    requires Split(rest, '/') == Escaped(keys)
    ensures Pointer(root, section, rest) ==
      if keys != [""] && AllLines(keys) then Lookup(Some(Record(root)), [section] + keys) else None
  {
    hide Lookup, Escape, Unescape, OneLine;
    forall i | 0 <= i < |keys|
      ensures OneLine(Escaped(keys)[i]) <==> OneLine(keys[i])
      ensures Unescape(Escaped(keys)[i]) == keys[i]
    {
      EscapeChars(keys[i]);
      EscapeRoundTrip(keys[i]);
    }
    SplitLines(rest);
    assert Unescaped(Split(rest, '/')) == keys;
    EmptyRest(rest, keys);
  }

  lemma EmptyRest(rest: string, keys: seq<string>)
    requires Split(rest, '/') == Escaped(keys)
    ensures rest == "" <==> keys == [""]
  {
    SplitEmpty(rest);
    assert |keys| == |Split(rest, '/')| > 0 && Escaped(keys)[0] == Escape(keys[0]);
    EscapeRoundTrip(keys[0]);
    assert Split(rest, '/') == [""] <==> keys == [""];
  }

  lemma SplitEmpty(s: string)
    ensures Split(s, '/') == [""] <==> s == ""
  {}

  /** The pointer of a path resolves to what the path leads to if the path is referable, and to nothing otherwise. */
  lemma PointerFinds(root: Object, path: seq<string>)
    ensures ResolveRef(root, PointerOf(path)) ==
      if Referable(path) then Lookup(Some(Record(root)), path) else None
  {
    hide Lookup, Join, Split, OneLine, Pointer, Escaped, PointerOf;
    var reference := PointerOf(path);
    if |path| >= 2 && IsSection(path[0]) {
      var rest := Join(Escaped(path[1..]), '/');
      PathPrefix(path);
      PointerPrefix(path, path[0], rest);
      PointerAt(root, path[0], rest);
      PointerBelow(root, path[0], rest, path[1..]);
      assert [path[0]] + path[1..] == path;
    } else {
      if DEFS <= reference {
        assert reference == "#/" + "$defs" + "/" + reference[|DEFS|..];
        PointerPrefix(path, "$defs", reference[|DEFS|..]);
      }
      if DEFINITIONS <= reference {
        assert reference == "#/" + "definitions" + "/" + reference[|DEFINITIONS|..];
        PointerPrefix(path, "definitions", reference[|DEFINITIONS|..]);
      }
    }
  }

  /** A definition whose name is empty, or has a line break in it, cannot be referred to. */
  lemma PointerExample(v: Value)
    ensures var root: Object := map["$defs" := Record(map["" := v, "a\nb" := v])];
      && Lookup(Some(Record(root)), ["$defs", ""]) == Some(v) && ResolveRef(root, PointerOf(["$defs", ""])) == None
      && Lookup(Some(Record(root)), ["$defs", "a\nb"]) == Some(v)
      && ResolveRef(root, PointerOf(["$defs", "a\nb"])) == None
  {
    hide ResolveRef, PointerOf;
    var root: Object := map["$defs" := Record(map["" := v, "a\nb" := v])];
    PointerFinds(root, ["$defs", ""]);
    PointerFinds(root, ["$defs", "a\nb"]);
    LookupTwo(root, "");
    LookupTwo(root, "a\nb");
    assert LineEnd("a\nb"[1]);
    assert ["$defs", ""][1..] == [""] && ["$defs", "a\nb"][1..] == ["a\nb"];
    assert !OneLine(["a\nb"][0]);
  }

  lemma LookupTwo(root: Object, name: string)
    requires "$defs" in root && root["$defs"].Record? && name in root["$defs"].fields
    ensures Lookup(Some(Record(root)), ["$defs", name]) == Some(root["$defs"].fields[name])
  {
    var path := ["$defs", name];
    assert path[1..] == [name] && [name][1..] == [];
    assert Lookup(Some(Record(root)), path) == Lookup(Some(root["$defs"]), [name]);
    assert Lookup(Some(root["$defs"]), [name]) == Lookup(Some(root["$defs"].fields[name]), []);
  }

  // ---- Every string in a value, to bound the references that can be followed ----

  function Strings(v: Value): set<string> {
    match v
    case Text(s) => {s}
    case List(items) => set i: int, x | 0 <= i < |items| && x in Strings(items[i]) :: x
    case Record(fields) => set k, x | k in fields && x in Strings(fields[k]) :: x
    case _ => {}
  }

  lemma {:induction false} LookupStrings(v: Option<Value>, parts: seq<string>)
    requires v.Some? && Lookup(v, parts).Some?
    ensures Strings(Lookup(v, parts).value) <= Strings(v.value)
    decreases |parts|
  {
    if parts != [] {
      var next := if parts[0] in v.value.fields then Some(v.value.fields[parts[0]]) else None;
      if next.Some? {
        LookupStrings(next, parts[1..]);
      }
    }
  }

  lemma TargetStrings(root: Object, reference: string)
    requires ResolveRef(root, reference).Some?
    ensures Strings(ResolveRef(root, reference).value) <= Strings(Record(root))
  {
    var section := if DEFS <= reference then "$defs" else "definitions";
    var rest := if DEFS <= reference then reference[|DEFS|..] else reference[|DEFINITIONS|..];
    LookupStrings(Some(Record(root)), [section] + Unescaped(Split(rest, '/')));
  }

  // ---- The projection ----

  datatype Projection = Projection(properties: Object, required: set<string>)

  function Properties(schema: Object): Object {
    if "properties" in schema && schema["properties"].Record? then
      map k | k in schema["properties"].fields && PropertyName(k) && schema["properties"].fields[k].Record?
        :: schema["properties"].fields[k]
    else map[]
  }

  predicate Lists(schema: Object, key: string) {
    "required" in schema && schema["required"].List? && Text(key) in schema["required"].items
  }

  function Required(schema: Object): (keys: set<string>)
    ensures forall key :: key in keys <==> Lists(schema, key) && PropertyName(key)
  {
    if "required" in schema && schema["required"].List? then
      set v | v in schema["required"].items && v.Text? && PropertyName(v.s) :: v.s
    else {}
  }

  /** The source's properties are added where the target does not have, or inherit, the name. */
  function Merged(target: Object, source: Object): Object {
    target + map k | k in source && k !in target && k !in INHERITED :: source[k]
  }

  function MergedAll(target: Object, sources: seq<Projection>): (r: Object)
    ensures target.Keys <= r.Keys && forall k | k in target :: r[k] == target[k]
    ensures forall k | k in r && k !in target :: exists p | p in sources :: k in p.properties && r[k] == p.properties[k]
  {
    if sources == [] then target
    else Merged(MergedAll(target, sources[..|sources| - 1]), sources[|sources| - 1].properties)
  }

  predicate AllowsObject(schema: Object) {
    "type" in schema ==> schema["type"] == Text("object")
  }

  const OBJECT_KEYS: set<string> := {
    "additionalProperties", "dependentRequired", "maxProperties", "minProperties", "patternProperties", "properties",
    "propertyNames", "required", "unevaluatedProperties"
  }

  const COMBINATORS: seq<string> := ["anyOf", "oneOf", "allOf"]

  predicate HasRef(schema: Object) {
    "$ref" in schema && schema["$ref"].Text?
  }

  predicate ShapeProven(schema: Object) {
    || "type" in schema
    || (exists k | k in OBJECT_KEYS :: k in schema)
    || HasRef(schema)
    || (exists c | c in COMBINATORS :: c in schema)
  }

  function Common(branches: seq<Projection>): set<string>
    requires branches != []
  {
    set key | key in branches[0].required && forall b | b in branches :: key in b.required
  }

  function Union(branches: seq<Projection>): set<string> {
    set b, key | b in branches && key in b.required :: key
  }

  /** Property names the provider takes, and record schemas for them. */
  predicate Named(p: Projection) {
    && (forall key | key in p.required :: PropertyName(key))
    && (forall key | key in p.properties :: PropertyName(key) && p.properties[key].Record?)
  }

  /** Projecting a schema that occurs in `root`; a reference already being followed has no projection. */
  function Project(root: Object, schema: Object, visited: set<string>): (p: Option<Projection>)
    requires Strings(Record(schema)) <= Strings(Record(root))
    ensures p.Some? ==> Named(p.value)
    decreases Strings(Record(root)) - visited, Record(schema), 2, 0
  {
    if !AllowsObject(schema) then None
    else
      var p := WithCombinators(root, schema, visited, |COMBINATORS|);
      if p.Some? && ShapeProven(schema) then p else None
  }

  /** The schema's own keys and those of the schema it refers to. */
  function WithRef(root: Object, schema: Object, visited: set<string>): (p: Option<Projection>)
    requires Strings(Record(schema)) <= Strings(Record(root))
    ensures p.Some? ==> Named(p.value)
    decreases Strings(Record(root)) - visited, Record(schema), 0, 0
  {
    var own := Projection(Properties(schema), Required(schema));
    if !HasRef(schema) then Some(own)
    else
      var reference := schema["$ref"].s;
      if reference in visited then None
      else
        var target := ResolveRef(root, reference);
        if target.None? || !target.value.Record? then None
        else
          TargetStrings(root, reference);
          assert reference in Strings(schema["$ref"]);
          var p := Project(root, target.value.fields, visited + {reference});
          if p.None? then None
          else Some(Projection(Merged(own.properties, p.value.properties), own.required + p.value.required))
  }

  /** The first `n` combinators added. */
  function WithCombinators(root: Object, schema: Object, visited: set<string>, n: nat): (p: Option<Projection>)
    requires Strings(Record(schema)) <= Strings(Record(root)) && n <= |COMBINATORS|
    ensures p.Some? ==> Named(p.value)
    decreases Strings(Record(root)) - visited, Record(schema), 1, n
  {
    if n == 0 then WithRef(root, schema, visited)
    else
      var before := WithCombinators(root, schema, visited, n - 1);
      var c := COMBINATORS[n - 1];
      if before.None? || c !in schema then before
      else if !schema[c].List? || schema[c].items == [] then None
      else
        assert Strings(schema[c]) <= Strings(Record(schema));
        var branches := Branches(root, schema[c], visited, |schema[c].items|);
        if branches.None? then None
        else Some(WithBranches(before.value, c, branches.value))
  }

  lemma NamedBranches(p: Projection, branches: seq<Projection>)
    requires branches != [] && Named(p) && forall b | b in branches :: Named(b)
    ensures Named(Projection(MergedAll(p.properties, branches), p.required + Union(branches)))
    ensures Named(Projection(MergedAll(p.properties, branches), p.required + Common(branches)))
  {
    var all := MergedAll(p.properties, branches);
    forall key | key in all
      ensures PropertyName(key) && all[key].Record?
    {
      if key !in p.properties {
        var b :| b in branches && key in b.properties && all[key] == b.properties[key];
      }
    }
    assert branches[0] in branches;
  }

  function WithBranches(p: Projection, combinator: string, branches: seq<Projection>): (r: Projection)
    requires branches != [] && Named(p) && forall b | b in branches :: Named(b)
    ensures Named(r)
  {
    NamedBranches(p, branches);
    Projection(MergedAll(p.properties, branches),
               p.required + if combinator == "allOf" then Union(branches) else Common(branches))
  }

  /** The projections of the first `n` branches, if all have one. */
  function Branches(root: Object, list: Value, visited: set<string>, n: nat): (branches: Option<seq<Projection>>)
    requires list.List? && n <= |list.items| && Strings(list) <= Strings(Record(root))
    ensures branches.Some? ==> |branches.value| == n && forall b | b in branches.value :: Named(b)
    decreases Strings(Record(root)) - visited, list, 3, n
  {
    if n == 0 then Some([])
    else
      var before := Branches(root, list, visited, n - 1);
      var branch := list.items[n - 1];
      if before.None? || !branch.Record? then None
      else
        var p := Project(root, branch.fields, visited);
        if p.None? then None else Some(before.value + [p.value])
  }

  lemma {:induction false} BranchAt(root: Object, list: Value, visited: set<string>, n: nat, i: nat)
    requires list.List? && i < n <= |list.items| && Strings(list) <= Strings(Record(root))
    requires Branches(root, list, visited, n).Some?
    ensures list.items[i].Record? && Strings(list.items[i]) <= Strings(Record(root))
    ensures Project(root, list.items[i].fields, visited) == Some(Branches(root, list, visited, n).value[i])
  {
    hide Project;
    if i < n - 1 {
      BranchAt(root, list, visited, n - 1, i);
    }
  }

  // ---- What it means to accept an object ----

  /** Whether a schema accepts an object. Nothing is known of it but what `Enforces` says. */
  type Validator = (Value, Object) -> bool

  /**
   What is assumed of a validator: how references, combinators and required keys decide which keys an object must have.
   Other keywords, `not` or `dependentRequired` say, may force more keys; nothing is said of them.
   */
  ghost predicate Enforces(accepts: Validator, root: Object) {
    forall schema: Object, o: Object | accepts(Record(schema), o) ::
      && (forall key | Lists(schema, key) :: key in o)
      && (HasRef(schema) && ResolveRef(root, schema["$ref"].s).Some? ==>
            accepts(ResolveRef(root, schema["$ref"].s).value, o))
      && (HasBranches(schema, "allOf") ==> forall v | v in schema["allOf"].items :: accepts(v, o))
      && (HasBranches(schema, "anyOf") ==> exists v | v in schema["anyOf"].items :: accepts(v, o))
      && (HasBranches(schema, "oneOf") ==> exists v | v in schema["oneOf"].items :: accepts(v, o))
  }

  predicate HasBranches(schema: Object, combinator: string) {
    combinator in schema && schema[combinator].List? && schema[combinator].items != []
  }

  /** The key is in every object the schema accepts, for every validator of which only `Enforces` is known. */
  ghost predicate Forced(root: Object, schema: Object, key: string) {
    forall accepts: Validator, o: Object :: Enforces(accepts, root) && accepts(Record(schema), o) ==> key in o
  }

  // ---- Soundness: a required key is forced ----

  lemma {:induction false} Sound(root: Object, schema: Object, visited: set<string>,
                                 accepts: Validator, o: Object, key: string)
    requires Strings(Record(schema)) <= Strings(Record(root)) && Enforces(accepts, root) && accepts(Record(schema), o)
    requires Project(root, schema, visited).Some? && key in Project(root, schema, visited).value.required
    ensures key in o
    decreases Strings(Record(root)) - visited, Record(schema), 2, 0
  {
    SoundCombinators(root, schema, visited, |COMBINATORS|, accepts, o, key);
  }

  lemma {:induction false} SoundCombinators(root: Object, schema: Object, visited: set<string>, n: nat,
                                            accepts: Validator, o: Object, key: string)
    requires Strings(Record(schema)) <= Strings(Record(root)) && n <= |COMBINATORS|
    requires Enforces(accepts, root) && accepts(Record(schema), o)
    requires var p := WithCombinators(root, schema, visited, n); p.Some? && key in p.value.required
    ensures key in o
    decreases Strings(Record(root)) - visited, Record(schema), 1, n
  {
    hide Project, Branches, ResolveRef;
    if n == 0 {
      if key !in Required(schema) {
        var reference := schema["$ref"].s;
        TargetStrings(root, reference);
        assert reference in Strings(schema["$ref"]);
        Sound(root, ResolveRef(root, reference).value.fields, visited + {reference}, accepts, o, key);
      }
    } else {
      var before := WithCombinators(root, schema, visited, n - 1).value;
      var c := COMBINATORS[n - 1];
      if key in before.required {
        SoundCombinators(root, schema, visited, n - 1, accepts, o, key);
      } else {
        var items := schema[c].items;
        var i := AcceptedBranch(root, schema, visited, c, accepts, o, key);
        BranchAt(root, schema[c], visited, |items|, i);
        Sound(root, items[i].fields, visited, accepts, o, key);
      }
    }
  }

  /** Some branch accepts the object and requires the key. */
  lemma AcceptedBranch(root: Object, schema: Object, visited: set<string>, c: string,
                       accepts: Validator, o: Object, key: string)
    returns (i: nat)
    requires c in COMBINATORS && HasBranches(schema, c) && Strings(schema[c]) <= Strings(Record(root))
    requires Enforces(accepts, root) && accepts(Record(schema), o)
    requires var bs := Branches(root, schema[c], visited, |schema[c].items|);
      bs.Some? && key in if c == "allOf" then Union(bs.value) else Common(bs.value)
    ensures i < |schema[c].items| && accepts(schema[c].items[i], o)
    ensures key in Branches(root, schema[c], visited, |schema[c].items|).value[i].required
  {
    hide Project, Branches, ResolveRef;
    var items := schema[c].items;
    var branches := Branches(root, schema[c], visited, |items|).value;
    if c == "allOf" {
      var b :| b in branches && key in b.required;
      i :| i < |branches| && branches[i] == b;
      assert items[i] in items;
    } else {
      var v :| v in items && accepts(v, o);
      i :| i < |items| && items[i] == v;
      assert branches[i] in branches;
    }
  }

  // ---- Exactness: a key that is not required is not forced ----

  /** The validator that accepts objects without `key` and with every other string of `root` as a key. */
  ghost predicate Tolerates(root: Object, key: string, v: Value, o: Object) {
    && v.Record? && Strings(v) <= Strings(Record(root))
    && key !in o && (forall x | x in Strings(Record(root)) && x != key :: x in o)
    && exists visited :: Leaves(root, v.fields, visited, key)
  }

  ghost predicate Leaves(root: Object, schema: Object, visited: set<string>, key: string)
    requires Strings(Record(schema)) <= Strings(Record(root))
  {
    Project(root, schema, visited).Some? && key !in Project(root, schema, visited).value.required
  }

  lemma {:induction false} RequiredGrows(root: Object, schema: Object, visited: set<string>, n: nat, m: nat)
    requires Strings(Record(schema)) <= Strings(Record(root)) && n <= m <= |COMBINATORS|
    requires WithCombinators(root, schema, visited, m).Some?
    ensures var p := WithCombinators(root, schema, visited, n);
      p.Some? && p.value.required <= WithCombinators(root, schema, visited, m).value.required
    decreases m
  {
    hide Project, WithRef, Branches;
    if n < m {
      RequiredGrows(root, schema, visited, n, m - 1);
    }
  }

  lemma LeavesRequired(root: Object, schema: Object, visited: set<string>, key: string)
    requires Strings(Record(schema)) <= Strings(Record(root)) && Leaves(root, schema, visited, key)
    ensures key !in Required(schema)
    ensures HasRef(schema) ==> var target := ResolveRef(root, schema["$ref"].s);
      && target.Some? && target.value.Record? && Strings(target.value) <= Strings(Record(root))
      && Leaves(root, target.value.fields, visited + {schema["$ref"].s}, key)
  {
    RequiredGrows(root, schema, visited, 0, |COMBINATORS|);
    if HasRef(schema) {
      TargetStrings(root, schema["$ref"].s);
    }
  }

  lemma LeavesBranches(root: Object, schema: Object, visited: set<string>, key: string, n: nat)
    requires Strings(Record(schema)) <= Strings(Record(root)) && Leaves(root, schema, visited, key)
    requires 1 <= n <= |COMBINATORS| && COMBINATORS[n - 1] in schema
    ensures var c := COMBINATORS[n - 1];
      && HasBranches(schema, c) && Strings(schema[c]) <= Strings(Record(root))
      && var branches := Branches(root, schema[c], visited, |schema[c].items|);
        && branches.Some?
        && key !in if c == "allOf" then Union(branches.value) else Common(branches.value)
  {
    hide Branches, WithRef;
    RequiredGrows(root, schema, visited, n, |COMBINATORS|);
    assert Strings(schema[COMBINATORS[n - 1]]) <= Strings(Record(schema));
  }

  lemma TolerantBranches(root: Object, schema: Object, visited: set<string>, key: string, o: Object, n: nat)
    requires Strings(Record(schema)) <= Strings(Record(root)) && Leaves(root, schema, visited, key)
    requires key !in o && (forall x | x in Strings(Record(root)) && x != key :: x in o)
    requires 1 <= n <= |COMBINATORS| && COMBINATORS[n - 1] in schema
    ensures var c := COMBINATORS[n - 1];
      && schema[c].List?
      && (c == "allOf" ==> forall v | v in schema[c].items :: Tolerates(root, key, v, o))
      && (c != "allOf" ==> exists v | v in schema[c].items :: Tolerates(root, key, v, o))
  {
    hide Project, Branches;
    var c := COMBINATORS[n - 1];
    LeavesBranches(root, schema, visited, key, n);
    var items := schema[c].items;
    var branches := Branches(root, schema[c], visited, |items|).value;
    if c == "allOf" {
      forall v | v in items
        ensures Tolerates(root, key, v, o)
      {
        var i: nat :| i < |items| && items[i] == v;
        BranchAt(root, schema[c], visited, |items|, i);
        assert branches[i] in branches;
        assert Leaves(root, v.fields, visited, key);
      }
    } else {
      var b :| b in branches && key !in b.required;
      var i: nat :| i < |branches| && branches[i] == b;
      BranchAt(root, schema[c], visited, |items|, i);
      assert Leaves(root, items[i].fields, visited, key);
      assert Tolerates(root, key, items[i], o) && items[i] in items;
    }
  }

  /** Tolerating what lacks the key is one way to enforce every schema. */
  lemma TolerantEnforces(root: Object, key: string)
    requires PropertyName(key)
    ensures Enforces((v, o) => Tolerates(root, key, v, o), root)
  {
    hide Project, ResolveRef, PropertyName;
    forall schema: Object, o: Object | Tolerates(root, key, Record(schema), o)
      ensures forall k | Lists(schema, k) :: k in o
      ensures HasRef(schema) && ResolveRef(root, schema["$ref"].s).Some? ==>
        Tolerates(root, key, ResolveRef(root, schema["$ref"].s).value, o)
      ensures HasBranches(schema, "allOf") ==> forall v | v in schema["allOf"].items :: Tolerates(root, key, v, o)
      ensures HasBranches(schema, "anyOf") ==> exists v | v in schema["anyOf"].items :: Tolerates(root, key, v, o)
      ensures HasBranches(schema, "oneOf") ==> exists v | v in schema["oneOf"].items :: Tolerates(root, key, v, o)
    {
      var visited :| Leaves(root, schema, visited, key);
      TolerantRequired(root, schema, visited, key, o);
      if HasRef(schema) {
        LeavesRequired(root, schema, visited, key);
        assert Leaves(root, ResolveRef(root, schema["$ref"].s).value.fields, visited + {schema["$ref"].s}, key);
      }
      if "anyOf" in schema { TolerantBranches(root, schema, visited, key, o, 1); }
      if "oneOf" in schema { TolerantBranches(root, schema, visited, key, o, 2); }
      if "allOf" in schema { TolerantBranches(root, schema, visited, key, o, 3); }
    }
  }

  lemma TolerantRequired(root: Object, schema: Object, visited: set<string>, key: string, o: Object)
    requires PropertyName(key) && Tolerates(root, key, Record(schema), o)
    requires Leaves(root, schema, visited, key)
    ensures forall k | Lists(schema, k) :: k in o
  {
    hide Project, ResolveRef, PropertyName;
    LeavesRequired(root, schema, visited, key);
    forall k | Lists(schema, k)
      ensures k in o
    {
      assert k in Strings(Text(k));
      assert k in Strings(schema["required"]);
    }
  }

  /**
   The projection requires a property name exactly when the key is in every object that the schema accepts, for every
   validator of which only `Enforces` is known.
   */
  lemma RequiredIsForced(root: Object, schema: Object, key: string)
    requires Strings(Record(schema)) <= Strings(Record(root)) && Project(root, schema, {}).Some? && PropertyName(key)
    ensures key in Project(root, schema, {}).value.required <==> Forced(root, schema, key)
  {
    hide Project, Enforces, PropertyName;
    if key in Project(root, schema, {}).value.required {
      forall accepts: Validator, o: Object | Enforces(accepts, root) && accepts(Record(schema), o)
        ensures key in o
      {
        Sound(root, schema, {}, accepts, o, key);
      }
    } else {
      var o: Object := map x | x in Strings(Record(root)) && x != key :: Null;
      assert Leaves(root, schema, {}, key);
      TolerantEnforces(root, key);
      var accepts: Validator := (v, o) => Tolerates(root, key, v, o);
      assert Enforces(accepts, root) && accepts(Record(schema), o);
    }
  }

  // ---- The loops ----

  method MergeMissing(target: Object, source: Object) returns (merged: Object)
    ensures merged == Merged(target, source)
    ensures forall k :: k in merged <==> k in target || (k in source && k !in INHERITED)
    ensures forall k | k in merged :: merged[k] == if k in target then target[k] else source[k]
  {
    hide INHERITED;
    merged := target;
    var left := source.Keys;
    while left != {}
      invariant left <= source.Keys
      invariant forall k :: k in merged <==> k in target || (k in source && k !in left && k !in INHERITED)
      invariant forall k | k in merged :: merged[k] == if k in target then target[k] else source[k]
    {
      var key :| key in left;
      if key !in merged && key !in INHERITED {
        merged := merged[key := source[key]];
      }
      left := left - {key};
    }
    assert merged == Merged(target, source);
  }

  method IntersectRequired(projections: seq<Projection>) returns (common: set<string>)
    ensures common == if projections == [] then {} else Common(projections)
  {
    if projections == [] { return {}; }
    common := projections[0].required;
    for i := 1 to |projections|
      invariant common == Common(projections[..i])
    {
      ghost var before := common;
      var left := common;
      while left != {}
        invariant left <= before
        invariant common == set k | k in before && (k in left || k in projections[i].required)
      {
        var key :| key in left;
        if key !in projections[i].required {
          common := common - {key};
        }
        left := left - {key};
      }
      CommonStep(projections, i);
    }
    assert projections[..|projections|] == projections;
  }

  lemma CommonStep(branches: seq<Projection>, i: nat)
    requires 0 < i < |branches|
    ensures Common(branches[..i + 1]) == set key | key in Common(branches[..i]) && key in branches[i].required
  {
    assert branches[..i + 1] == branches[..i] + [branches[i]];
  }

  method ProjectBranches(root: Object, list: Value, visited: set<string>) returns (branches: Option<seq<Projection>>)
    requires list.List? && Strings(list) <= Strings(Record(root))
    ensures branches == Branches(root, list, visited, |list.items|)
    decreases Strings(Record(root)) - visited, list, 3
  {
    hide Project;
    var found := [];
    for i := 0 to |list.items|
      invariant Branches(root, list, visited, i) == Some(found)
    {
      var branch := list.items[i];
      if !branch.Record? {
        BranchFails(root, list, visited, i + 1);
        return None;
      }
      var p := ProjectObject(root, branch.fields, visited);
      if p.None? {
        BranchFails(root, list, visited, i + 1);
        return None;
      }
      found := found + [p.value];
    }
    branches := Some(found);
  }

  lemma {:induction false} BranchFails(root: Object, list: Value, visited: set<string>, n: nat)
    requires list.List? && n <= |list.items| && Strings(list) <= Strings(Record(root))
    requires Branches(root, list, visited, n).None?
    ensures Branches(root, list, visited, |list.items|).None?
    decreases |list.items| - n
  {
    hide Project;
    if n < |list.items| {
      assert Branches(root, list, visited, n + 1).None?;
      BranchFails(root, list, visited, n + 1);
    }
  }

  lemma {:induction false} CombinatorFails(root: Object, schema: Object, visited: set<string>, n: nat)
    requires Strings(Record(schema)) <= Strings(Record(root)) && n <= |COMBINATORS|
    requires WithCombinators(root, schema, visited, n).None?
    ensures Project(root, schema, visited).None?
    decreases |COMBINATORS| - n
  {
    hide Branches, WithRef;
    if n < |COMBINATORS| {
      assert WithCombinators(root, schema, visited, n + 1).None?;
      CombinatorFails(root, schema, visited, n + 1);
    }
  }

  method ProjectRef(root: Object, schema: Object, visited: set<string>) returns (p: Option<Projection>)
    requires Strings(Record(schema)) <= Strings(Record(root))
    ensures p == WithRef(root, schema, visited)
    decreases Strings(Record(root)) - visited, Record(schema), 0
  {
    hide Project, ResolveRef, Merged, Named, Properties;
    var properties := Properties(schema);
    var required := Required(schema);
    if HasRef(schema) {
      var reference := schema["$ref"].s;
      if reference in visited { return None; }
      var target := ResolveRef(root, reference);
      if target.None? || !target.value.Record? { return None; }
      TargetStrings(root, reference);
      assert reference in Strings(schema["$ref"]);
      var projected := ProjectObject(root, target.value.fields, visited + {reference});
      if projected.None? { return None; }
      properties := MergeMissing(properties, projected.value.properties);
      required := required + projected.value.required;
    }
    p := Some(Projection(properties, required));
  }

  /** The projection, found with loops over the combinators and their branches. */
  method ProjectObject(root: Object, schema: Object, visited: set<string>) returns (result: Option<Projection>)
    requires Strings(Record(schema)) <= Strings(Record(root))
    ensures result == Project(root, schema, visited)
    decreases Strings(Record(root)) - visited, Record(schema), 2
  {
    hide Branches, WithRef, Named, MergedAll, ShapeProven, AllowsObject;
    if !AllowsObject(schema) { return None; }
    var p := ProjectRef(root, schema, visited);
    if p.None? {
      CombinatorFails(root, schema, visited, 0);
      return None;
    }
    var projection := p.value;
    for n := 0 to |COMBINATORS|
      invariant WithCombinators(root, schema, visited, n) == Some(projection)
    {
      var c := COMBINATORS[n];
      if c in schema {
        if !schema[c].List? || schema[c].items == [] {
          CombinatorFails(root, schema, visited, n + 1);
          return None;
        }
        assert Strings(schema[c]) <= Strings(Record(schema));
        var branches := ProjectBranches(root, schema[c], visited);
        if branches.None? {
          CombinatorFails(root, schema, visited, n + 1);
          return None;
        }
        projection := AddBranches(projection, c, branches.value);
      }
    }
    result := if ShapeProven(schema) then Some(projection) else None;
  }

  method AddBranches(p: Projection, combinator: string, branches: seq<Projection>) returns (r: Projection)
    requires branches != [] && Named(p) && forall b | b in branches :: Named(b)
    ensures r == WithBranches(p, combinator, branches)
  {
    hide Merged, Named;
    var properties := p.properties;
    for i := 0 to |branches|
      invariant properties == MergedAll(p.properties, branches[..i])
    {
      assert branches[..i + 1][..i] == branches[..i];
      properties := MergeMissing(properties, branches[i].properties);
    }
    assert branches[..|branches|] == branches;
    var required;
    if combinator == "allOf" {
      required := Union(branches);
    } else {
      required := IntersectRequired(branches);
    }
    r := Projection(properties, p.required + required);
  }

  // ---- The schema sent to the provider ----

  function CombinatorsIn(schema: Object): set<string> {
    set c | c in COMBINATORS && c in schema
  }

  /** What the provider takes as a tool's input schema. */
  predicate IsToolInput(v: Value) {
    v.Record? && "type" in v.fields && v.fields["type"] == Text("object") && CombinatorsIn(v.fields) == {}
  }

  predicate Rewritable(schema: Value) {
    && schema.Record? && AllowsObject(schema.fields) && |CombinatorsIn(schema.fields)| <= 1
    && Project(schema.fields, schema.fields, {}).Some?
  }

  const REWRITTEN: set<string> := {"type", "properties", "required", "anyOf", "oneOf", "allOf"}

  method Texts(keys: set<string>) returns (items: seq<Value>)
    ensures forall v :: v in items <==> v.Text? && v.s in keys
    ensures |items| == |keys|
  {
    items := [];
    var left := keys;
    while left != {}
      invariant left <= keys && |items| + |left| == |keys|
      invariant forall v :: v in items <==> v.Text? && v.s in keys && v.s !in left
    {
      var key :| key in left;
      items := items + [Text(key)];
      left := left - {key};
    }
  }

  /** The items that are property names and declared properties, in their order. */
  function Declared(items: seq<Value>, properties: Object): (kept: seq<Value>)
    ensures forall v :: v in kept <==> v in items && v.Text? && PropertyName(v.s) && v.s in properties
  {
    if items == [] then []
    else
      var last := items[|items| - 1];
      var before := Declared(items[..|items| - 1], properties);
      assert items == items[..|items| - 1] + [last];
      if last.Text? && PropertyName(last.s) && last.s in properties then before + [last] else before
  }

  /** A schema without combinators keeps all but the names the provider does not take. */
  function Plain(schema: Object): Object {
    var typed := schema["type" := Text("object")];
    if "properties" !in schema then typed
    else
      var own := typed["properties" := Record(Properties(schema))];
      if "required" !in schema then own
      else own["required" := List(
        if schema["required"].List? then Declared(schema["required"].items, Properties(schema)) else [])]
  }

  ghost predicate PlainOf(schema: Object, out: Object) {
    && IsToolInput(Record(out))
    && (forall k | k !in REWRITTEN :: (k in out <==> k in schema) && (k in out ==> out[k] == schema[k]))
    && (if "properties" in schema then "properties" in out && out["properties"] == Record(Properties(schema))
        else "properties" !in out)
    && (forall key :: Lists(out, key) <==>
          Lists(schema, key) && ("properties" in schema ==> PropertyName(key) && key in Properties(schema)))
  }

  lemma PlainKeeps(schema: Object)
    requires CombinatorsIn(schema) == {}
    ensures PlainOf(schema, Plain(schema))
  {
    hide Properties;
    var out := Plain(schema);
    forall c | c in COMBINATORS
      ensures c !in out
    {
      assert c !in CombinatorsIn(schema);
    }
    assert CombinatorsIn(out) == {};
    forall key
      ensures Lists(out, key) <==>
        Lists(schema, key) && ("properties" in schema ==> PropertyName(key) && key in Properties(schema))
    {
      assert Text(key).s == key;
    }
  }

  /** A schema with one combinator becomes its projection, requiring the declared keys that are forced. */
  ghost predicate FlatOf(schema: Object, out: Object)
    requires Project(schema, schema, {}).Some?
  {
    var p := Project(schema, schema, {}).value;
    && IsToolInput(Record(out))
    && (forall k | k !in REWRITTEN :: (k in out <==> k in schema) && (k in out ==> out[k] == schema[k]))
    && "properties" in out && out["properties"] == Record(p.properties)
    && (forall key :: Lists(out, key) <==> key in p.properties && Forced(schema, schema, key))
  }

  lemma FlatRequired(schema: Object, key: string)
    requires Project(schema, schema, {}).Some?
    ensures var p := Project(schema, schema, {}).value;
      key in p.properties ==> (key in p.required <==> Forced(schema, schema, key))
  {
    hide Project, Forced;
    if key in Project(schema, schema, {}).value.properties {
      RequiredIsForced(schema, schema, key);
    }
  }

  /** Whatever schema goes out, it requires no key that some accepted object lacks. */
  ghost predicate Broadens(schema: Value, out: Value) {
    forall accepts: Validator, o: Object, key: string ::
      (schema.Record? && Enforces(accepts, schema.fields) && accepts(schema, o)
      && out.Record? && Lists(out.fields, key))
      ==> key in o
  }

  lemma SameBroadens(schema: Value)
    ensures Broadens(schema, schema)
  {}

  lemma PlainBroadens(schema: Object, out: Object)
    requires PlainOf(schema, out)
    ensures Broadens(Record(schema), Record(out))
  {
    hide Properties, ResolveRef;
  }

  lemma FlatBroadens(schema: Object, out: Object)
    requires Project(schema, schema, {}).Some? && FlatOf(schema, out)
    ensures Broadens(Record(schema), Record(out))
  {
    hide Project, Enforces, Lists;
  }

  /** The provider's form of a tool's input schema. */
  method Normalize(schema: Value) returns (out: Value)
    ensures !Rewritable(schema) ==> out == schema
    ensures Rewritable(schema) ==> out.Record?
    ensures Rewritable(schema) && CombinatorsIn(schema.fields) == {} ==> PlainOf(schema.fields, out.fields)
    ensures Rewritable(schema) && CombinatorsIn(schema.fields) != {} ==> FlatOf(schema.fields, out.fields)
    ensures Broadens(schema, out)
  {
    hide Project, Broadens, FlatOf, PlainOf, AllowsObject;
    SameBroadens(schema);
    if !schema.Record? || !AllowsObject(schema.fields) { return schema; }
    var fields := schema.fields;
    if |CombinatorsIn(fields)| > 1 { return schema; }
    var p := ProjectObject(fields, fields, {});
    if p.None? { return schema; }
    if CombinatorsIn(fields) == {} {
      PlainKeeps(fields);
      PlainBroadens(fields, Plain(fields));
      return Record(Plain(fields));
    }
    var required := Texts(p.value.required * p.value.properties.Keys);
    var flat := Flat(fields, p.value.properties, required);
    FlatKeeps(fields, required);
    FlatBroadens(fields, flat);
    return Record(flat);
  }

  function Flat(schema: Object, properties: Object, required: seq<Value>): Object {
    (schema["type" := Text("object")]["properties" := Record(properties)]["required" := List(required)])
    - (set c | c in COMBINATORS)
  }

  lemma FlatKeeps(schema: Object, required: seq<Value>)
    requires Project(schema, schema, {}).Some?
    requires var p := Project(schema, schema, {}).value;
      forall v :: v in required <==> v.Text? && v.s in p.required * p.properties.Keys
    ensures FlatOf(schema, Flat(schema, Project(schema, schema, {}).value.properties, required))
  {
    hide Project, Forced;
    var p := Project(schema, schema, {}).value;
    var out := Flat(schema, p.properties, required);
    assert CombinatorsIn(out) == {};
    forall key
      ensures Lists(out, key) <==> key in p.properties && Forced(schema, schema, key)
    {
      FlatRequired(schema, key);
      assert Text(key).s == key;
    }
  }
}
