/**
 What a schema node may say under each keyword, said keyword by keyword, and which schemas are accepted.
 */
module SchemaKeywords {
  import opened Common
  import opened ToolSchema
  import opened SchemaReferences
  import opened SchemaPlaces

  // ----- What a keyword demands of its value -----

  const PLAIN_TEXT: set<string> := {
    "$comment", "$id", "$schema", "contentEncoding", "contentMediaType", "description", "format", "title"}
  const LIMITS: set<string> := {"exclusiveMaximum", "exclusiveMinimum", "maximum", "minimum"}
  const SIZES: set<string> := {
    "maxContains", "maxItems", "maxLength", "maxProperties", "minContains", "minItems", "minLength", "minProperties"}
  const SWITCHES: set<string> := {"uniqueItems", "readOnly", "writeOnly", "deprecated"}
  const KINDS: set<string> := {"null", "boolean", "object", "array", "number", "string", "integer"}

  predicate Text(name: string, v: Json, env: Env) {
    && (name in {"$ref", "$dynamicRef"} ==> v.Str? && "#" <= v.s)
    && (name in {"$anchor", "$dynamicAnchor"} ==>
          v.Str? && v.s != [] && (Letter(v.s[0]) || v.s[0] == '_')
          && forall c <- v.s :: Letter(c) || '0' <= c <= '9' || c in {'_', '-', '.'})
    && (name in PLAIN_TEXT ==> v.Str?)
    && (name == "pattern" ==> v.Str? && env.compiles(v.s))
  }

  predicate Letter(c: char) { 'a' <= c <= 'z' || 'A' <= c <= 'Z' }

  predicate Number(name: string, v: Json) {
    && (name in LIMITS ==> v.Int? || (v.Float? && v.finite))
    && (name == "multipleOf" ==> (v.Int? && v.i > 0) || (v.Float? && v.finite && v.positive))
    && (name in SIZES ==> v.Int? && v.i >= 0)
    && (name in SWITCHES ==> v.Bool?)
  }

  predicate DistinctTexts(v: Json) {
    v.Arr? && (forall x <- v.items :: x.Str?) && forall i, j :: 0 <= i < j < |v.items| ==> v.items[i] != v.items[j]
  }

  predicate Collection(name: string, v: Json) {
    && (name == "$vocabulary" ==> v.Obj? && forall m <- v.members :: m.value.Bool?)
    && (name == "type" ==>
          || (v.Str? && v.s in KINDS)
          || (DistinctTexts(v) && v.items != [] && forall x <- v.items :: x.s in KINDS))
    && (name == "required" ==> DistinctTexts(v))
    && (name == "enum" ==> v.Arr? && v.items != [])
    && (name == "examples" ==> v.Arr?)
    && (name == "dependentRequired" ==> v.Obj? && forall m <- v.members :: DistinctTexts(m.value))
  }

  predicate Shape(name: string, v: Json, env: Env) {
    && (name in LISTS ==> v.Arr? && v.items != [])
    && (name in MAPS ==> v.Obj?)
    && (name == "patternProperties" ==> v.Obj? && forall m <- v.members :: env.compiles(m.name))
  }

  predicate Allows(name: string, v: Json, env: Env) {
    Text(name, v, env) && Number(name, v) && Collection(name, v) && Shape(name, v, env)
  }

  // ----- The validator's tables say the same -----

  lemma {:induction false} EveryMeans(o: seq<Member>, names: seq<string>)
    ensures forall ok: Json -> bool {:trigger Every(o, names, ok)} ::
      Every(o, names, ok) <==> forall name, v :: name in names && Has(o, name, v) ==> ok(v)
    decreases |names|
  {
    hide Has;
    if names != [] {
      EveryMeans(o, names[1..]);
      GetNone(o, names[0]);
      forall v
        ensures Get(o, names[0]) == Some(v) <==> Has(o, names[0], v)
      {
        GetExactly(o, names[0], v);
      }
      forall ok: Json -> bool
        ensures Every(o, names, ok) <==> forall name, v :: name in names && Has(o, name, v) ==> ok(v)
      {
        assert forall name :: name in names <==> name == names[0] || name in names[1..];
      }
    }
  }

  lemma OneMeans(o: seq<Member>, name: string)
    ensures forall ok: Json -> bool {:trigger One(o, name, ok)} :: One(o, name, ok) <==> forall v :: Has(o, name, v) ==> ok(v)
  {
    hide Has, Every;
    EveryMeans(o, [name]);
    assert forall other :: other in [name] <==> other == name;
  }

  lemma AnchorNames(v: Json)
    ensures AnchorName(v) <==>
      && v.Str? && v.s != [] && (Letter(v.s[0]) || v.s[0] == '_')
      && forall c <- v.s :: Letter(c) || '0' <= c <= '9' || c in {'_', '-', '.'}
  {
    assert v.Str? ==> forall i :: 0 <= i < |v.s| ==> v.s[i] in v.s;
  }

  lemma TextsMean(o: seq<Member>, env: Env)
    ensures TextsOk(o, env) <==> forall name, v :: Has(o, name, v) ==> Text(name, v, env)
  {
    EveryMeans(o, REFERENCES);
    EveryMeans(o, STRINGS);
    EveryMeans(o, ANCHORS);
    OneMeans(o, "pattern");
    hide Has, Every, One, AnchorName, Letter;
    forall v: Json
      ensures AnchorName(v) <==> Text("$anchor", v, env)
    {
      AnchorNames(v);
    }
  }

  lemma NumbersMean(o: seq<Member>)
    ensures NumbersOk(o) <==> forall name, v :: Has(o, name, v) ==> Number(name, v)
  {
    EveryMeans(o, NUMBERS);
    OneMeans(o, "multipleOf");
    EveryMeans(o, COUNTS);
    EveryMeans(o, FLAGS);
    hide Has, Every, One;
  }

  lemma DistinctTextsAre(v: Json)
    ensures UniqueStrings(v) <==> DistinctTexts(v)
  {
    assert v.Arr? ==> forall i :: 0 <= i < |v.items| ==> v.items[i] in v.items;
  }

  lemma CollectionValues(v: Json)
    ensures Vocabulary(v) <==> Collection("$vocabulary", v)
    ensures TypeNames(v) <==> Collection("type", v)
    ensures Dependent(v) <==> Collection("dependentRequired", v)
  {
    hide UniqueStrings, DistinctTexts;
    DistinctTextsAre(v);
    if v.Obj? {
      forall i | 0 <= i < |v.members|
        ensures v.members[i] in v.members && (UniqueStrings(v.members[i].value) <==> DistinctTexts(v.members[i].value))
      {
        DistinctTextsAre(v.members[i].value);
      }
    }
    TypesAre(v);
  }

  lemma TypesAre(v: Json)
    ensures TypeNames(v) <==> Collection("type", v)
  {
    assert forall s :: s in TYPES <==> s in KINDS;
    DistinctTextsAre(v);
    hide TYPES, KINDS;
    assert v.Arr? ==> forall i :: 0 <= i < |v.items| ==> v.items[i] in v.items;
  }

  lemma CollectionByName(o: seq<Member>, name: string, ok: Json -> bool)
    requires forall v :: ok(v) <==> Collection(name, v)
    ensures One(o, name, ok) <==> CollectionsSay(o, name)
  {
    hide Has, One, Collection;
    OneMeans(o, name);
  }

  lemma CollectionsMean(o: seq<Member>)
    ensures CollectionsOk(o) <==> forall name, v :: Has(o, name, v) ==> Collection(name, v)
  {
    forall v: Json
      ensures Vocabulary(v) <==> Collection("$vocabulary", v)
      ensures TypeNames(v) <==> Collection("type", v)
      ensures Dependent(v) <==> Collection("dependentRequired", v)
      ensures UniqueStrings(v) <==> Collection("required", v)
      ensures Choices(v) <==> Collection("enum", v)
      ensures Listing(v) <==> Collection("examples", v)
    {
      CollectionValues(v);
      DistinctTextsAre(v);
    }
    SixNames(o);
    hide Has, One, Vocabulary, TypeNames, Dependent, UniqueStrings, Choices, Listing, Collection, CollectionsSay;
    CollectionByName(o, "$vocabulary", Vocabulary);
    CollectionByName(o, "type", TypeNames);
    CollectionByName(o, "required", UniqueStrings);
    CollectionByName(o, "dependentRequired", Dependent);
    CollectionByName(o, "enum", Choices);
    CollectionByName(o, "examples", Listing);
    assert CollectionsOk(o) <==>
      && CollectionsSay(o, "$vocabulary") && CollectionsSay(o, "type") && CollectionsSay(o, "required")
      && CollectionsSay(o, "enum") && CollectionsSay(o, "examples") && CollectionsSay(o, "dependentRequired");
  }

  ghost predicate CollectionsSay(o: seq<Member>, name: string) {
    forall v :: Has(o, name, v) ==> Collection(name, v)
  }

  lemma SixNames(o: seq<Member>)
    ensures (forall name, v :: Has(o, name, v) ==> Collection(name, v)) <==>
      && CollectionsSay(o, "$vocabulary") && CollectionsSay(o, "type") && CollectionsSay(o, "required")
      && CollectionsSay(o, "enum") && CollectionsSay(o, "examples") && CollectionsSay(o, "dependentRequired")
  {
    OtherNames();
    hide Has, Collection;
  }

  lemma OtherNames()
    ensures forall name, v :: Collection(name, v) || name in {"$vocabulary", "type", "required", "enum", "examples", "dependentRequired"}
  {
    hide DistinctTexts;
  }

  /** The lists of keywords are those of the walks, and do not overlap. */
  lemma KeywordSets(k: nat)
    requires k < |WALK|
    ensures WALK[k].name in WHOLE <==> WALK[k].shape.Single?
    ensures WALK[k].name in LISTS <==> WALK[k].shape.Listed?
    ensures WALK[k].name in MAPS <==> WALK[k].shape.Mapped?
  {
    var names := WALK[k].name;
    assert names in if WALK[k].shape.Single? then WHOLE else if WALK[k].shape.Listed? then LISTS else MAPS;
    assert WHOLE !! LISTS && WHOLE !! MAPS && LISTS !! MAPS;
  }

  lemma ShapeOf(o: seq<Member>, k: nat, env: Env)
    requires k < |WALK|
    ensures Shaped(o, WALK[k], env) <==> forall v :: Has(o, WALK[k].name, v) ==> Shape(WALK[k].name, v, env)
  {
    var name := WALK[k].name;
    KeywordSets(k);
    assert "patternProperties" in MAPS;
    hide WALK, WHOLE, LISTS, MAPS, Has, Get;
    GetNone(o, name);
    forall v
      ensures Get(o, name) == Some(v) <==> Has(o, name, v)
    {
      GetExactly(o, name, v);
    }
    if Get(o, name).Some? {
      var v := Get(o, name).value;
      if v.Obj? {
        assert forall i :: 0 <= i < |v.members| ==> v.members[i] in v.members;
      }
      assert Has(o, name, v);
    }
  }

  lemma ShapesMean(o: seq<Member>, env: Env)
    ensures (forall k :: 0 <= k < |WALK| ==> Shaped(o, WALK[k], env)) <==>
            forall name, v :: Has(o, name, v) ==> Shape(name, v, env)
  {
    forall k | 0 <= k < |WALK|
      ensures Shaped(o, WALK[k], env) <==> forall v :: Has(o, WALK[k].name, v) ==> Shape(WALK[k].name, v, env)
    {
      ShapeOf(o, k, env);
    }
    if forall k :: 0 <= k < |WALK| ==> Shaped(o, WALK[k], env) {
      forall name, v | Has(o, name, v)
        ensures Shape(name, v, env)
      {
        assert "patternProperties" in MAPS;
        if name in LISTS {
          var k := ListPlace(name);
          assert Shaped(o, WALK[k], env);
        } else if name in MAPS {
          var k := MapPlace(name);
          assert Shaped(o, WALK[k], env);
        }
      }
    }
  }

  /** A node is well formed exactly when it is a boolean, or an object in which every keyword allows its value. */
  lemma NodeOkExactlyWhen(n: Json, env: Env)
    ensures NodeOk(n, env) <==>
      n.Bool? || (n.Obj? && forall name, v :: Has(n.members, name, v) ==> Allows(name, v, env))
  {
    hide Has, TextsOk, NumbersOk, CollectionsOk, Text, Number, Collection, Shape, WALK;
    if n.Obj? {
      TextsMean(n.members, env);
      NumbersMean(n.members);
      CollectionsMean(n.members);
      ShapesMean(n.members, env);
    }
  }

  // ----- Anchors and references -----

  predicate Declares(n: Json, a: string) {
    n.Obj? && (Has(n.members, "$anchor", Str(a)) || Has(n.members, "$dynamicAnchor", Str(a)))
  }

  predicate Refers(n: Json, r: string) {
    n.Obj? && (Has(n.members, "$ref", Str(r)) || Has(n.members, "$dynamicRef", Str(r)))
  }

  lemma OwnAnchorsAre(n: Json, a: string)
    ensures a in OwnAnchors(n) <==> Declares(n, a)
  {
    hide Has;
    if n.Obj? {
      GetExactly(n.members, "$anchor", Str(a));
      GetExactly(n.members, "$dynamicAnchor", Str(a));
    }
  }

  lemma OwnReferencesAre(n: Json, r: string)
    ensures r in OwnReferences(n) <==> Refers(n, r)
  {
    hide Has;
    if n.Obj? {
      GetExactly(n.members, "$ref", Str(r));
      GetExactly(n.members, "$dynamicRef", Str(r));
    }
  }

  lemma {:induction false} InAnchors(nodes: seq<Json>, a: string)
    ensures a in Anchors(nodes) <==> exists n <- nodes :: Declares(n, a)
    decreases |nodes|
  {
    hide OwnAnchors, Declares;
    if nodes != [] {
      OwnAnchorsAre(nodes[0], a);
      InAnchors(nodes[1..], a);
      assert forall n :: n in nodes <==> n == nodes[0] || n in nodes[1..];
    }
  }

  lemma {:induction false} InReferences(nodes: seq<Json>, r: string)
    ensures r in References(nodes) <==> exists n <- nodes :: Refers(n, r)
    decreases |nodes|
  {
    hide OwnReferences, Refers;
    if nodes != [] {
      OwnReferencesAre(nodes[0], r);
      InReferences(nodes[1..], r);
      assert forall n :: n in nodes <==> n == nodes[0] || n in nodes[1..];
    }
  }

  predicate TwiceHere(n: Json, a: string) {
    n.Obj? && Has(n.members, "$anchor", Str(a)) && Has(n.members, "$dynamicAnchor", Str(a))
  }

  /** No name is declared twice, by one node or by two. */
  ghost predicate OnceEach(nodes: seq<Json>) {
    && (forall n, a :: n in nodes ==> !TwiceHere(n, a))
    && (forall i, j, a :: 0 <= i < j < |nodes| && Declares(nodes[i], a) ==> !Declares(nodes[j], a))
  }

  lemma OwnAnchorsTwice(n: Json)
    ensures Distinct(OwnAnchors(n)) <==> forall a :: !TwiceHere(n, a)
  {
    hide Has;
    if n.Obj? {
      forall a
        ensures Get(n.members, "$anchor") == Some(Str(a)) <==> Has(n.members, "$anchor", Str(a))
        ensures Get(n.members, "$dynamicAnchor") == Some(Str(a)) <==> Has(n.members, "$dynamicAnchor", Str(a))
      {
        GetExactly(n.members, "$anchor", Str(a));
        GetExactly(n.members, "$dynamicAnchor", Str(a));
      }
      var x, y := AnchorAt(n.members, "$anchor"), AnchorAt(n.members, "$dynamicAnchor");
      DistinctAppend(x, y);
      assert x != [] && y != [] && x[0] == y[0] ==> x[0] in Elements(x) && x[0] in Elements(y) && TwiceHere(n, x[0]);
    }
  }

  lemma {:induction false} AnchorsOnceEach(nodes: seq<Json>)
    ensures Distinct(Anchors(nodes)) <==> OnceEach(nodes)
    decreases |nodes|
  {
    hide OwnAnchors, Declares, Distinct, TwiceHere;
    if nodes == [] {
      assert Distinct(Anchors(nodes)) by { NoAnchors(); }
    } else {
      var n, rest := nodes[0], nodes[1..];
      AnchorsOnceEach(rest);
      OwnAnchorsTwice(n);
      DistinctAppend(OwnAnchors(n), Anchors(rest));
      forall a
        ensures a in OwnAnchors(n) <==> Declares(n, a)
        ensures a in Anchors(rest) <==> exists m <- rest :: Declares(m, a)
      {
        OwnAnchorsAre(n, a);
        InAnchors(rest, a);
      }
      assert Anchors(nodes) == OwnAnchors(n) + Anchors(rest);
      hide Anchors;
      OnceEachCons(nodes);
      hide OnceEach;
      assert Elements(OwnAnchors(n)) !! Elements(Anchors(rest)) <==>
          forall a, m :: m in rest && Declares(n, a) ==> !Declares(m, a) by {
        assert forall a :: a in OwnAnchors(n) <==> a in Elements(OwnAnchors(n));
        assert forall a :: a in Anchors(rest) <==> a in Elements(Anchors(rest));
      }
    }
  }

  lemma NoAnchors()
    ensures Distinct(Anchors([]))
  {
  }

  lemma OnceEachCons(nodes: seq<Json>)
    requires nodes != []
    ensures OnceEach(nodes) <==>
      && OnceEach(nodes[1..]) && (forall a :: !TwiceHere(nodes[0], a))
      && forall a, m :: m in nodes[1..] && Declares(nodes[0], a) ==> !Declares(m, a)
  {
    hide Declares, TwiceHere;
    var rest := nodes[1..];
    assert forall n :: n in nodes <==> n == nodes[0] || n in rest;
    assert forall j :: 0 < j < |nodes| ==> nodes[j] == rest[j - 1] && rest[j - 1] in rest;
    assert forall j :: 0 <= j < |rest| ==> rest[j] == nodes[j + 1];
  }

  // ----- What is accepted -----

  /** A place that can be reached in the schema. */
  ghost predicate Reached(schema: Json, n: Json) {
    exists way :: Leads(schema, way, n)
  }

  /** A local reference to the root, to an existing place, or to an anchor that a reached node declares. */
  ghost predicate Finds(schema: Json, r: string, env: Env) {
    || r == "#"
    || ("#/" <= r && Exists(schema, env.unquote(r[2..])))
    || ("#" <= r && !("#/" <= r) && exists n :: Reached(schema, n) && Declares(n, r[1..]))
  }

  /** The root is an object schema whose type is, or lists, `object`. */
  ghost predicate ForObjects(schema: Json) {
    && schema.Obj?
    && exists t :: Has(schema.members, "type", t)
                   && (t == Str("object") || (t.Arr? && Str("object") in t.items && forall x <- t.items :: x.Str?))
  }

  /**
   A schema is accepted exactly when its root describes objects, every place in it holds a boolean or an object whose
   keywords all allow their values, no anchor is declared twice, every reference anywhere in it is local and finds
   something, and the metaschema agrees.
   */
  lemma AcceptedExactlyWhen(schema: Json, env: Env)
    ensures Accepted(schema, env) <==>
      && ForObjects(schema)
      && (forall n :: Reached(schema, n) ==>
            n.Bool? || (n.Obj? && forall name, v :: Has(n.members, name, v) ==> Allows(name, v, env)))
      && OnceEach(Visited(schema))
      && (forall n, r :: Reached(schema, n) && Refers(n, r) ==> Finds(schema, r, env))
      && env.metaschema(schema)
  {
    hide Visited, Leads, Refers, Declares, Has, Allows, Exists, NodeOk, OnceEach, ForObjects, RootOk, Finds, Answered, Distinct;
    var nodes := Visited(schema);
    RootDescribesObjects(schema);
    AnchorsOnceEach(nodes);
    forall n
      ensures n in nodes <==> Reached(schema, n)
    {
      VisitedExactlyThePlaces(schema, n);
    }
    forall n
      ensures NodeOk(n, env) <==> n.Bool? || (n.Obj? && forall name, v :: Has(n.members, name, v) ==> Allows(name, v, env))
    {
      NodeOkExactlyWhen(n, env);
    }
    forall r
      ensures r in References(nodes) <==> exists n :: Reached(schema, n) && Refers(n, r)
      ensures Answered(schema, Elements(Anchors(nodes)), r, env) <==> Finds(schema, r, env)
    {
      InReferences(nodes, r);
      AnsweredFinds(schema, r, env);
    }
    hide Reached;
    assert AllOk(nodes, env) <==> forall n <- nodes :: NodeOk(n, env);
  }

  lemma RootDescribesObjects(schema: Json)
    ensures RootOk(schema) <==> ForObjects(schema)
  {
    hide Has;
    if schema.Obj? {
      GetNone(schema.members, "type");
      forall t
        ensures Get(schema.members, "type") == Some(t) <==> Has(schema.members, "type", t)
      {
        GetExactly(schema.members, "type", t);
      }
      var t := Get(schema.members, "type");
      assert t.Some? && t.value.Arr? ==> forall i :: 0 <= i < |t.value.items| ==> t.value.items[i] in t.value.items;
    }
  }

  lemma AnsweredFinds(schema: Json, r: string, env: Env)
    ensures Answered(schema, Elements(Anchors(Visited(schema))), r, env) <==> Finds(schema, r, env)
  {
    hide Visited, Leads, Declares, Exists, Anchors;
    assert StartsWith(r, "#/") <==> "#/" <= r;
    assert StartsWith(r, "#") <==> "#" <= r;
    if "#" <= r {
      InAnchors(Visited(schema), r[1..]);
      forall n
        ensures n in Visited(schema) <==> Reached(schema, n)
      {
        VisitedExactlyThePlaces(schema, n);
      }
    }
  }

  /** In an accepted schema every `$ref` and `$dynamicRef`, at any depth, is a text that begins with `#` and finds something. */
  lemma AcceptedReferencesAreLocal(schema: Json, way: seq<Json>, n: Json, name: string, v: Json, env: Env)
    requires Accepted(schema, env) && Leads(schema, way, n)
    requires n.Obj? && name in {"$ref", "$dynamicRef"} && Has(n.members, name, v)
    ensures v.Str? && "#" <= v.s && Finds(schema, v.s, env)
  {
    hide Accepted, Leads, Has, Finds, OnceEach, ForObjects, Number, Collection, Shape;
    AcceptedExactlyWhen(schema, env);
    assert Reached(schema, n) && Allows(name, v, env);
    assert Refers(n, v.s);
  }
}
