/**
 Tool parameter schemas. Two recursions walk one schema: the validator checks every node and notes its
 references, the collector gathers the anchors and refuses a name declared twice. Every local reference is
 then looked up, among the anchors or as a pointer into the document. Keywords are walked in one fixed order.
 */
module ToolSchema {
  import opened Common

  // ----- Documents -----

  datatype Member = Member(name: string, value: Json)

  datatype Json =
    | Null
    | Bool(b: bool)
    | Int(i: int)
    | Float(finite: bool, positive: bool)
    | Str(s: string)
    | Arr(items: seq<Json>)
    | Obj(members: seq<Member>)

  function Get(members: seq<Member>, name: string): (v: Option<Json>)
    ensures v.Some? ==> exists i :: 0 <= i < |members| && members[i].value == v.value
    decreases |members|
  {
    if members == [] then None
    else if members[0].name == name then Some(members[0].value)
    else Get(members[1..], name)
  }

  function Values(members: seq<Member>): (vs: seq<Json>)
    ensures |vs| == |members| && forall i :: 0 <= i < |vs| ==> vs[i] == members[i].value
  {
    seq(|members|, i requires 0 <= i < |members| => members[i].value)
  }

  /** Regular expressions, percent-decoding and the metaschema, which are not part of this model. */
  datatype Env = Env(compiles: string -> bool, unquote: string -> string, metaschema: Json -> bool)

  // ----- What one node must satisfy by itself -----

  const STRINGS := ["$anchor", "$comment", "$dynamicAnchor", "$id", "$schema", "contentEncoding",
                    "contentMediaType", "description", "format", "title"]
  const NUMBERS := ["exclusiveMaximum", "exclusiveMinimum", "maximum", "minimum"]
  const COUNTS := ["maxContains", "maxItems", "maxLength", "maxProperties",
                   "minContains", "minItems", "minLength", "minProperties"]
  const FLAGS := ["uniqueItems", "readOnly", "writeOnly", "deprecated"]
  const TYPES := ["null", "boolean", "object", "array", "number", "string", "integer"]
  const REFERENCES := ["$ref", "$dynamicRef"]
  const ANCHORS := ["$anchor", "$dynamicAnchor"]

  predicate Every(o: seq<Member>, names: seq<string>, ok: Json -> bool)
    decreases |names|
  {
    names == []
    || ((match Get(o, names[0]) case None => true case Some(v) => ok(v)) && Every(o, names[1..], ok))
  }

  predicate One(o: seq<Member>, name: string, ok: Json -> bool) {
    Every(o, [name], ok)
  }

  predicate LocalReference(v: Json) { v.Str? && |v.s| > 0 && v.s[0] == '#' }

  predicate NameStart(c: char) { 'A' <= c <= 'Z' || 'a' <= c <= 'z' || c == '_' }

  predicate NameChar(c: char) { NameStart(c) || '0' <= c <= '9' || c == '-' || c == '.' }

  predicate AnchorName(v: Json) {
    v.Str? && |v.s| > 0 && NameStart(v.s[0]) && forall i :: 0 <= i < |v.s| ==> NameChar(v.s[i])
  }

  predicate Finite(v: Json) { v.Int? || (v.Float? && v.finite) }

  predicate Positive(v: Json) { (v.Int? && v.i > 0) || (v.Float? && v.finite && v.positive) }

  predicate UniqueStrings(v: Json) {
    v.Arr? && (forall i :: 0 <= i < |v.items| ==> v.items[i].Str?) && Distinct(v.items)
  }

  predicate TypeNames(v: Json) {
    if v.Str? then v.s in TYPES
    else v.Arr? && v.items != [] && UniqueStrings(v) && forall i :: 0 <= i < |v.items| ==> v.items[i].s in TYPES
  }

  predicate Listing(v: Json) { v.Arr? }

  predicate Choices(v: Json) { v.Arr? && v.items != [] }

  predicate Vocabulary(v: Json) { v.Obj? && forall i :: 0 <= i < |v.members| ==> v.members[i].value.Bool? }

  predicate Dependent(v: Json) { v.Obj? && forall i :: 0 <= i < |v.members| ==> UniqueStrings(v.members[i].value) }

  predicate Pattern(v: Json, env: Env) { v.Str? && env.compiles(v.s) }

  predicate TextsOk(o: seq<Member>, env: Env) {
    && Every(o, REFERENCES, LocalReference)
    && Every(o, STRINGS, (v: Json) => v.Str?)
    && Every(o, ANCHORS, AnchorName)
    && One(o, "pattern", (v: Json) => Pattern(v, env))
  }

  predicate NumbersOk(o: seq<Member>) {
    && Every(o, NUMBERS, Finite)
    && One(o, "multipleOf", Positive)
    && Every(o, COUNTS, (v: Json) => v.Int? && v.i >= 0)
    && Every(o, FLAGS, (v: Json) => v.Bool?)
  }

  predicate CollectionsOk(o: seq<Member>) {
    && One(o, "$vocabulary", Vocabulary)
    && One(o, "type", TypeNames)
    && One(o, "required", UniqueStrings)
    && One(o, "enum", Choices)
    && One(o, "examples", Listing)
    && One(o, "dependentRequired", Dependent)
  }

  predicate LocalOk(o: seq<Member>, env: Env) { TextsOk(o, env) && NumbersOk(o) && CollectionsOk(o) }

  // ----- The nodes under a node -----

  datatype Shape = Single | Listed | Mapped

  datatype Keyword = Keyword(name: string, shape: Shape)

  const WALK := [
    Keyword("additionalProperties", Single), Keyword("contains", Single), Keyword("contentSchema", Single),
    Keyword("else", Single), Keyword("if", Single), Keyword("items", Single), Keyword("not", Single),
    Keyword("propertyNames", Single), Keyword("then", Single), Keyword("unevaluatedItems", Single),
    Keyword("unevaluatedProperties", Single),
    Keyword("allOf", Listed), Keyword("anyOf", Listed), Keyword("oneOf", Listed), Keyword("prefixItems", Listed),
    Keyword("$defs", Mapped), Keyword("definitions", Mapped), Keyword("dependentSchemas", Mapped),
    Keyword("patternProperties", Mapped), Keyword("properties", Mapped)]

  /** The schema nodes under a keyword, as far as the value has the keyword's shape. */
  function Under(o: seq<Member>, k: Keyword): (nodes: seq<Json>)
    ensures forall i :: 0 <= i < |nodes| ==> nodes[i] < Obj(o)
  {
    match Get(o, k.name)
    case None => []
    case Some(v) =>
      assert v < Obj(o);
      match k.shape
      case Single => [v]
      case Listed => if v.Arr? then v.items else []
      case Mapped => if v.Obj? then Values(v.members) else []
  }

  /** The shape the validator demands of a keyword's value. */
  predicate Shaped(o: seq<Member>, k: Keyword, env: Env) {
    match Get(o, k.name)
    case None => true
    case Some(v) =>
      match k.shape
      case Single => true
      case Listed => v.Arr? && v.items != []
      case Mapped =>
        && v.Obj?
        && (k.name == "patternProperties" ==> forall i :: 0 <= i < |v.members| ==> env.compiles(v.members[i].name))
  }

  function Kids(o: seq<Member>, from: nat): (nodes: seq<Json>)
    requires from <= |WALK|
    ensures forall i :: 0 <= i < |nodes| ==> nodes[i] < Obj(o)
    decreases |WALK| - from
  {
    if from == |WALK| then [] else Under(o, WALK[from]) + Kids(o, from + 1)
  }

  /** Every node of the schema rooted at a node, the node itself first. */
  function Visited(node: Json): seq<Json>
    decreases node, 1, 0
  {
    [node] + if node.Obj? then VisitedAll(Kids(node.members, 0), node) else []
  }

  function VisitedAll(nodes: seq<Json>, ghost above: Json): seq<Json>
    requires forall i :: 0 <= i < |nodes| ==> nodes[i] < above
    decreases above, 0, |nodes|
  {
    if nodes == [] then [] else Visited(nodes[0]) + VisitedAll(nodes[1..], above)
  }

  function AnchorAt(o: seq<Member>, name: string): seq<string> {
    match Get(o, name)
    case Some(Str(a)) => [a]
    case _ => []
  }

  /** The anchors a node declares. */
  function OwnAnchors(node: Json): seq<string> {
    if node.Obj? then AnchorAt(node.members, "$anchor") + AnchorAt(node.members, "$dynamicAnchor") else []
  }

  function ReferenceAt(o: seq<Member>, name: string): seq<string> {
    match Get(o, name)
    case Some(Str(r)) => [r]
    case _ => []
  }

  /** The references a node makes. */
  function OwnReferences(node: Json): seq<string> {
    if node.Obj? then ReferenceAt(node.members, "$ref") + ReferenceAt(node.members, "$dynamicRef") else []
  }

  function Anchors(nodes: seq<Json>): seq<string>
    decreases |nodes|
  {
    if nodes == [] then [] else OwnAnchors(nodes[0]) + Anchors(nodes[1..])
  }

  function References(nodes: seq<Json>): seq<string>
    decreases |nodes|
  {
    if nodes == [] then [] else OwnReferences(nodes[0]) + References(nodes[1..])
  }

  /** A node by itself: a boolean, or an object whose keywords are well formed and well shaped. */
  predicate NodeOk(node: Json, env: Env) {
    || node.Bool?
    || (node.Obj? && LocalOk(node.members, env) && forall i :: 0 <= i < |WALK| ==> Shaped(node.members, WALK[i], env))
  }

  predicate AllOk(nodes: seq<Json>, env: Env) {
    forall i :: 0 <= i < |nodes| ==> NodeOk(nodes[i], env)
  }

  // ----- Collecting names one by one -----

  /** The names added to a set one by one, unless one is already there. */
  function Added(set0: set<string>, names: seq<string>): Option<set<string>>
    decreases |names|
  {
    if names == [] then Some(set0)
    else if names[0] in set0 then None
    else Added(set0 + {names[0]}, names[1..])
  }

  lemma {:induction false} AddedAppend(set0: set<string>, a: seq<string>, b: seq<string>)
    ensures Added(set0, a + b) == (match Added(set0, a) case None => None case Some(s) => Added(s, b))
    decreases |a|
  {
    if a == [] {
      assert a + b == b;
    } else {
      assert (a + b)[1..] == a[1..] + b;
      if a[0] !in set0 {
        AddedAppend(set0 + {a[0]}, a[1..], b);
      }
    }
  }

  lemma {:induction false} AddedExactlyWhenDistinct(set0: set<string>, names: seq<string>)
    ensures Added(set0, names).Some? <==> Distinct(names) && forall i :: 0 <= i < |names| ==> names[i] !in set0
    ensures Added(set0, names).Some? ==> Added(set0, names).value == set0 + Elements(names)
    decreases |names|
  {
    if names != [] {
      var more := set0 + {names[0]};
      AddedExactlyWhenDistinct(more, names[1..]);
      assert names == [names[0]] + names[1..];
      if Distinct(names) && forall i :: 0 <= i < |names| ==> names[i] !in set0 {
        forall i | 0 <= i < |names[1..]|
          ensures names[1..][i] !in more
        {
          assert names[1..][i] == names[i + 1];
        }
      }
    }
  }

  // ----- The two walks -----

  lemma {:induction false} AnchorsAppend(a: seq<Json>, b: seq<Json>)
    ensures Anchors(a + b) == Anchors(a) + Anchors(b)
    decreases |a|
  {
    hide OwnAnchors;
    if a == [] {
      assert a + b == b;
    } else {
      assert (a + b)[1..] == a[1..] + b;
      AnchorsAppend(a[1..], b);
    }
  }

  lemma {:induction false} ReferencesAppend(a: seq<Json>, b: seq<Json>)
    ensures References(a + b) == References(a) + References(b)
    decreases |a|
  {
    hide OwnReferences;
    if a == [] {
      assert a + b == b;
    } else {
      assert (a + b)[1..] == a[1..] + b;
      ReferencesAppend(a[1..], b);
    }
  }

  lemma VisitedAllHead(nodes: seq<Json>, above: Json)
    requires nodes != [] && forall i :: 0 <= i < |nodes| ==> nodes[i] < above
    ensures VisitedAll(nodes, above) == Visited(nodes[0]) + VisitedAll(nodes[1..], above)
  {
    hide Visited;
  }

  lemma {:induction false} VisitedAllAppend(a: seq<Json>, b: seq<Json>, above: Json)
    requires forall i :: 0 <= i < |a| ==> a[i] < above
    requires forall i :: 0 <= i < |b| ==> b[i] < above
    ensures VisitedAll(a + b, above) == VisitedAll(a, above) + VisitedAll(b, above)
    decreases |a|
  {
    hide Visited, VisitedAll;
    if a == [] {
      assert a + b == b;
      NoneVisited(a, above);
    } else {
      VisitedAllHead(a, above);
      VisitedAllHead(a + b, above);
      assert (a + b)[1..] == a[1..] + b;
      VisitedAllAppend(a[1..], b, above);
    }
  }

  /** Unfolding a node's visit, one keyword at a time. */
  lemma VisitedUnfolds(node: Json)
    requires node.Obj?
    ensures Visited(node) == [node] + VisitedAll(Kids(node.members, 0), node)
  {
  }

  lemma KidsUnfold(o: seq<Member>, from: nat)
    requires from < |WALK|
    ensures VisitedAll(Kids(o, from), Obj(o)) ==
            VisitedAll(Under(o, WALK[from]), Obj(o)) + VisitedAll(Kids(o, from + 1), Obj(o))
  {
    hide VisitedAll, Under;
    VisitedAllAppend(Under(o, WALK[from]), Kids(o, from + 1), Obj(o));
  }

  lemma KidsDone(o: seq<Member>)
    ensures VisitedAll(Kids(o, |WALK|), Obj(o)) == []
  {
  }

  lemma VisitedAllStep(nodes: seq<Json>, i: nat, above: Json)
    requires i < |nodes| && forall j :: 0 <= j < |nodes| ==> nodes[j] < above
    ensures VisitedAll(nodes[i..], above) == Visited(nodes[i]) + VisitedAll(nodes[i + 1..], above)
  {
    hide Visited;
    assert nodes[i..][1..] == nodes[i + 1..];
  }

  /** What a collecting walk over `nodes` does to the anchor set. */
  predicate Collects(before: set<string>, after: set<string>, ok: bool, nodes: seq<Json>) {
    match Added(before, Anchors(nodes))
    case Some(s) => ok && after == s
    case None => !ok
  }

  lemma CollectsThen(before: set<string>, mid: set<string>, after: set<string>, ok: bool, a: seq<Json>, b: seq<Json>)
    requires Collects(before, mid, true, a) && Collects(mid, after, ok, b)
    ensures Collects(before, after, ok, a + b)
  {
    hide Added, Anchors;
    AnchorsAppend(a, b);
    AddedAppend(before, Anchors(a), Anchors(b));
  }

  lemma CollectsNoMore(before: set<string>, mid: set<string>, after: set<string>, a: seq<Json>, b: seq<Json>)
    requires Collects(before, mid, false, a)
    ensures Collects(before, after, false, a + b)
  {
    hide Added, Anchors;
    AnchorsAppend(a, b);
    AddedAppend(before, Anchors(a), Anchors(b));
  }

  lemma CollectsNone(before: set<string>)
    ensures Collects(before, before, true, [])
  {
  }

  lemma NoneVisited(nodes: seq<Json>, above: Json)
    requires nodes == []
    ensures VisitedAll(nodes, above) == []
  {
  }

  lemma CollectsOne(before: set<string>, node: Json)
    requires !node.Obj?
    ensures Collects(before, before, true, [node]) && Visited(node) == [node]
  {
    assert Anchors([node]) == OwnAnchors(node) + Anchors([]);
  }

  lemma CollectsOwn(before: set<string>, mid: set<string>, after: set<string>, ok1: bool, ok2: bool, node: Json)
    requires node.Obj?
    requires AddsAnchor(before, mid, ok1, Get(node.members, "$anchor"))
    requires ok1 ==> AddsAnchor(mid, after, ok2, Get(node.members, "$dynamicAnchor"))
    ensures Collects(before, after, ok1 && ok2, [node])
  {
    var a, b := AnchorAt(node.members, "$anchor"), AnchorAt(node.members, "$dynamicAnchor");
    assert Anchors([node]) == OwnAnchors(node) + Anchors([]) == a + b;
    AddedAppend(before, a, b);
  }

  predicate AddsAnchor(before: set<string>, after: set<string>, ok: bool, v: Option<Json>) {
    var names := match v case Some(Str(a)) => [a] case _ => [];
    match Added(before, names)
    case Some(s) => ok && after == s
    case None => !ok
  }

  /** What a validating walk over `nodes` does to the collected references. */
  predicate Validates(before: seq<string>, after: seq<string>, ok: bool, nodes: seq<Json>, env: Env) {
    (ok <==> AllOk(nodes, env)) && (ok ==> after == before + References(nodes))
  }

  lemma ValidatesThen(before: seq<string>, mid: seq<string>, after: seq<string>, ok: bool, a: seq<Json>, b: seq<Json>, env: Env)
    requires Validates(before, mid, true, a, env) && Validates(mid, after, ok, b, env)
    ensures Validates(before, after, ok, a + b, env)
  {
    hide NodeOk, References;
    ReferencesAppend(a, b);
    AllOkAppend(a, b, env);
  }

  lemma AllOkAppend(a: seq<Json>, b: seq<Json>, env: Env)
    ensures AllOk(a + b, env) <==> AllOk(a, env) && AllOk(b, env)
  {
    hide NodeOk;
    assert forall i :: 0 <= i < |a| ==> (a + b)[i] == a[i];
    assert forall i :: 0 <= i < |b| ==> (a + b)[|a| + i] == b[i];
  }

  lemma ValidatesOne(before: seq<string>, node: Json, env: Env)
    ensures NodeOk(node, env) ==> Validates(before, before + OwnReferences(node), true, [node], env)
    ensures forall after :: !NodeOk(node, env) ==> Validates(before, after, false, [node], env)
  {
    hide NodeOk, OwnReferences;
    assert References([node]) == OwnReferences(node) + References([]);
  }

  class SchemaWalk {
    var anchors: set<string>
    var localRefs: seq<string>
    ghost var collected: seq<Json>
    ghost var validated: seq<Json>

    constructor ()
      ensures anchors == {} && localRefs == [] && collected == [] && validated == []
    {
      anchors, localRefs, collected, validated := {}, [], [], [];
    }

    method AddAnchor(v: Option<Json>) returns (ok: bool)
      modifies this`anchors
      ensures AddsAnchor(old(anchors), anchors, ok, v)
    {
      if v.Some? && v.value.Str? {
        if v.value.s in anchors {
          return false;
        }
        anchors := anchors + {v.value.s};
        assert Added(anchors, [v.value.s][1..]) == Some(anchors);
      }
      return true;
    }

    /** Collects the anchors of every node under `node`, refusing one that is declared twice. */
    method Collect(node: Json) returns (ok: bool)
      modifies this`anchors, this`collected
      ensures Collects(old(anchors), anchors, ok, Visited(node))
      ensures ok ==> collected == old(collected) + Visited(node)
      decreases node, 2, 0
    {
      hide Collects, Visited, VisitedAll, Kids, Under, AddsAnchor;
      collected := collected + [node];
      if !node.Obj? {
        CollectsOne(anchors, node);
        return true;
      }
      var o := node.members;
      ok := AddAnchor(Get(o, "$anchor"));
      ghost var ok1, mid := ok, anchors;
      if ok {
        ok := AddAnchor(Get(o, "$dynamicAnchor"));
      }
      CollectsOwn(old(anchors), mid, anchors, ok1, ok, node);
      VisitedUnfolds(node);
      if !ok {
        CollectsNoMore(old(anchors), anchors, anchors, [node], VisitedAll(Kids(o, 0), node));
        return;
      }
      ghost var own := anchors;
      ok := CollectKids(node);
      ghost var kids := VisitedAll(Kids(o, 0), node);
      CollectsThen(old(anchors), own, anchors, ok, [node], kids);
    }

    method CollectKids(node: Json) returns (ok: bool)
      requires node.Obj?
      modifies this`anchors, this`collected
      ensures Collects(old(anchors), anchors, ok, VisitedAll(Kids(node.members, 0), node))
      ensures ok ==> collected == old(collected) + VisitedAll(Kids(node.members, 0), node)
      decreases node, 1, 0
    {
      hide Collects, Visited, VisitedAll, Kids, Under, WALK;
      var o := node.members;
      ghost var seen := [];
      CollectsNone(anchors);
      var i := 0;
      while i < |WALK|
        invariant 0 <= i <= |WALK|
        invariant Collects(old(anchors), anchors, true, seen)
        invariant collected == old(collected) + seen
        invariant VisitedAll(Kids(o, 0), node) == seen + VisitedAll(Kids(o, i), node)
      {
        ghost var before, under := anchors, VisitedAll(Under(o, WALK[i]), node);
        KidsUnfold(o, i);
        ok := CollectAll(Under(o, WALK[i]), node);
        CollectsThen(old(anchors), before, anchors, ok, seen, under);
        seen := seen + under;
        assert VisitedAll(Kids(o, 0), node) == seen + VisitedAll(Kids(o, i + 1), node);
        if !ok {
          CollectsNoMore(old(anchors), anchors, anchors, seen, VisitedAll(Kids(o, i + 1), node));
          return;
        }
        i := i + 1;
      }
      KidsDone(o);
      assert seen + [] == seen;
      return true;
    }

    method CollectAll(nodes: seq<Json>, ghost above: Json) returns (ok: bool)
      requires forall i :: 0 <= i < |nodes| ==> nodes[i] < above
      modifies this`anchors, this`collected
      ensures Collects(old(anchors), anchors, ok, VisitedAll(nodes, above))
      ensures ok ==> collected == old(collected) + VisitedAll(nodes, above)
      decreases above, 0, |nodes|
    {
      hide Collects, Visited, VisitedAll;
      ghost var seen := [];
      CollectsNone(anchors);
      assert nodes[0..] == nodes;
      for i := 0 to |nodes|
        invariant Collects(old(anchors), anchors, true, seen)
        invariant collected == old(collected) + seen
        invariant VisitedAll(nodes, above) == seen + VisitedAll(nodes[i..], above)
      {
        VisitedAllStep(nodes, i, above);
        ghost var before := anchors;
        ok := Collect(nodes[i]);
        CollectsThen(old(anchors), before, anchors, ok, seen, Visited(nodes[i]));
        seen := seen + Visited(nodes[i]);
        assert VisitedAll(nodes, above) == seen + VisitedAll(nodes[i + 1..], above);
        if !ok {
          CollectsNoMore(old(anchors), anchors, anchors, seen, VisitedAll(nodes[i + 1..], above));
          return;
        }
      }
      NoneVisited(nodes[|nodes|..], above);
      assert seen + [] == seen;
      return true;
    }

    /** Validates every node under `node` and lists its references, refusing the first that is malformed. */
    method Validate(node: Json, env: Env) returns (ok: bool)
      modifies this`localRefs, this`validated
      ensures Validates(old(localRefs), localRefs, ok, Visited(node), env)
      ensures ok ==> validated == old(validated) + Visited(node)
      decreases node, 2, 0
    {
      hide Validates, Visited, VisitedAll, Kids, Under, NodeOk, LocalOk, Shaped, AllOk, OwnReferences;
      validated := validated + [node];
      ValidatesOne(localRefs, node, env);
      if node.Bool? {
        BooleanNode(node, env);
        assert localRefs + OwnReferences(node) == localRefs;
        return true;
      }
      if !node.Obj? {
        OtherNode(node, env);
        return false;
      }
      var o := node.members;
      VisitedUnfolds(node);
      ObjectNode(node, env);
      if !LocalOk(o, env) {
        FailsWithin([], [node], VisitedAll(Kids(o, 0), node), env);
        return false;
      }
      localRefs := localRefs + OwnReferences(node);
      ghost var own := localRefs;
      ok := ValidateKids(node, env);
      ghost var kids := VisitedAll(Kids(o, 0), node);
      if !ok {
        assert [node] + kids + [] == [node] + kids;
        if !AllOk(kids, env) {
          FailsWithin([node], kids, [], env);
        } else {
          FailsWithin([], [node], kids, env);
        }
        return;
      }
      ValidatesThen(old(localRefs), own, localRefs, true, [node], kids, env);
    }

    method ValidateKids(node: Json, env: Env) returns (ok: bool)
      requires node.Obj?
      modifies this`localRefs, this`validated
      ensures ok ==> Validates(old(localRefs), localRefs, true, VisitedAll(Kids(node.members, 0), node), env)
      ensures ok ==> forall i :: 0 <= i < |WALK| ==> Shaped(node.members, WALK[i], env)
      ensures !ok ==>
          (|| !AllOk(VisitedAll(Kids(node.members, 0), node), env)
           || exists i :: 0 <= i < |WALK| && !Shaped(node.members, WALK[i], env))
      ensures ok ==> validated == old(validated) + VisitedAll(Kids(node.members, 0), node)
      decreases node, 1, 0
    {
      hide Validates, Visited, VisitedAll, Kids, Under, Shaped, AllOk, WALK;
      var o := node.members;
      ghost var seen := [];
      ValidatesNone(localRefs, env);
      var i := 0;
      while i < |WALK|
        invariant 0 <= i <= |WALK|
        invariant forall j :: 0 <= j < i ==> Shaped(o, WALK[j], env)
        invariant Validates(old(localRefs), localRefs, true, seen, env)
        invariant validated == old(validated) + seen
        invariant VisitedAll(Kids(o, 0), node) == seen + VisitedAll(Kids(o, i), node)
      {
        if !Shaped(o, WALK[i], env) {
          return false;
        }
        KidsUnfold(o, i);
        ghost var before, under := localRefs, VisitedAll(Under(o, WALK[i]), node);
        assert VisitedAll(Kids(o, 0), node) == (seen + under) + VisitedAll(Kids(o, i + 1), node);
        ok := ValidateAll(Under(o, WALK[i]), node, env);
        if !ok {
          Refused(before, localRefs, under, env);
          PartFails(seen, under, VisitedAll(Kids(o, i + 1), node), env);
          return;
        }
        ValidatesThen(old(localRefs), before, localRefs, true, seen, under, env);
        seen := seen + under;
        i := i + 1;
      }
      KidsDone(o);
      assert seen + [] == seen;
      return true;
    }

    method ValidateAll(nodes: seq<Json>, ghost above: Json, env: Env) returns (ok: bool)
      requires forall i :: 0 <= i < |nodes| ==> nodes[i] < above
      modifies this`localRefs, this`validated
      ensures Validates(old(localRefs), localRefs, ok, VisitedAll(nodes, above), env)
      ensures ok ==> validated == old(validated) + VisitedAll(nodes, above)
      decreases above, 0, |nodes|
    {
      hide Validates, Visited, VisitedAll, AllOk;
      ghost var seen := [];
      ValidatesNone(localRefs, env);
      assert nodes[0..] == nodes;
      for i := 0 to |nodes|
        invariant Validates(old(localRefs), localRefs, true, seen, env)
        invariant validated == old(validated) + seen
        invariant VisitedAll(nodes, above) == seen + VisitedAll(nodes[i..], above)
      {
        VisitedAllStep(nodes, i, above);
        ghost var before := localRefs;
        ok := Validate(nodes[i], env);
        if !ok {
          Refused(before, localRefs, Visited(nodes[i]), env);
          FailsWithin(seen, Visited(nodes[i]), VisitedAll(nodes[i + 1..], above), env);
          return;
        }
        ValidatesThen(old(localRefs), before, localRefs, true, seen, Visited(nodes[i]), env);
        seen := seen + Visited(nodes[i]);
      }
      NoneVisited(nodes[|nodes|..], above);
      assert seen + [] == seen;
      return true;
    }
  }

  lemma ValidatesNone(before: seq<string>, env: Env)
    ensures Validates(before, before, true, [], env)
  {
  }

  lemma Refused(before: seq<string>, after: seq<string>, nodes: seq<Json>, env: Env)
    requires Validates(before, after, false, nodes, env)
    ensures !AllOk(nodes, env)
  {
  }

  lemma PartFails(a: seq<Json>, b: seq<Json>, c: seq<Json>, env: Env)
    requires !AllOk(b, env)
    ensures !AllOk(a + (b + c), env)
  {
    hide NodeOk, AllOk;
    AllOkAppend(b, c, env);
    AllOkAppend(a, b + c, env);
  }

  /** A walk over more nodes fails with any part of it. */
  lemma FailsWithin(a: seq<Json>, b: seq<Json>, c: seq<Json>, env: Env)
    requires !AllOk(b, env) || (|b| == 1 && !NodeOk(b[0], env))
    ensures forall before, after :: Validates(before, after, false, a + b + c, env)
    ensures forall before, after :: Validates(before, after, false, a + (b + c), env)
    ensures a == [] ==> forall before, after :: Validates(before, after, false, b + c, env)
  {
    hide NodeOk, References;
    AllOkAppend(a, b, env);
    AllOkAppend(a + b, c, env);
    assert a + (b + c) == a + b + c;
    assert a == [] ==> a + b + c == b + c;
  }

  lemma BooleanNode(node: Json, env: Env)
    requires node.Bool?
    ensures NodeOk(node, env) && Visited(node) == [node] && OwnReferences(node) == []
  {
  }

  lemma OtherNode(node: Json, env: Env)
    requires !node.Bool? && !node.Obj?
    ensures !NodeOk(node, env) && Visited(node) == [node]
  {
  }

  lemma ObjectNode(node: Json, env: Env)
    requires node.Obj?
    ensures NodeOk(node, env) <==>
            LocalOk(node.members, env) && forall i :: 0 <= i < |WALK| ==> Shaped(node.members, WALK[i], env)
  {
  }
}
