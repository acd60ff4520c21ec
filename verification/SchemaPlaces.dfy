/**
 Where a schema has schemas, and what each keyword demands, said without the tables of the walks.
 */
module SchemaPlaces {
  import opened Common
  import opened ToolSchema
  import opened SchemaReferences

  // ----- Members -----

  /** The member of this name; the first, should a name occur twice. */
  predicate Has(o: seq<Member>, name: string, v: Json) {
    exists i :: 0 <= i < |o| && o[i] == Member(name, v) && forall j :: 0 <= j < i ==> o[j].name != name
  }

  lemma {:induction false} GetExactly(o: seq<Member>, name: string, v: Json)
    ensures Get(o, name) == Some(v) <==> Has(o, name, v)
    decreases |o|
  {
    if o != [] {
      GetExactly(o[1..], name, v);
      if o[0].name == name {
        assert o[0] == Member(name, o[0].value);
        assert Has(o, name, v) ==> v == o[0].value;
      } else {
        if Has(o[1..], name, v) {
          var i :| 0 <= i < |o[1..]| && o[1..][i] == Member(name, v) && forall j :: 0 <= j < i ==> o[1..][j].name != name;
          assert o[i + 1] == Member(name, v);
          assert forall j :: 0 < j < i + 1 ==> o[j] == o[1..][j - 1];
        }
        if Has(o, name, v) {
          var i :| 0 <= i < |o| && o[i] == Member(name, v) && forall j :: 0 <= j < i ==> o[j].name != name;
          assert o[1..][i - 1] == Member(name, v);
          assert forall j :: 0 <= j < i - 1 ==> o[1..][j] == o[j + 1];
        }
      }
    }
  }

  lemma GetNone(o: seq<Member>, name: string)
    ensures Get(o, name) == None <==> forall v :: !Has(o, name, v)
  {
    if Get(o, name).Some? {
      GetExactly(o, name, Get(o, name).value);
    }
    forall v
      ensures Has(o, name, v) ==> Get(o, name) == Some(v)
    {
      GetExactly(o, name, v);
    }
  }

  // ----- The places -----

  /** `child` stands where Draft 2020-12 has a schema directly inside `node`. */
  ghost predicate Inside(node: Json, child: Json) {
    node.Obj? && exists name, v {:trigger Has(node.members, name, v)} :: Has(node.members, name, v) && Holds(name, v, child)
  }

  const WHOLE: set<string> := {
    "additionalProperties", "contains", "contentSchema", "else", "if", "items", "not", "propertyNames",
    "then", "unevaluatedItems", "unevaluatedProperties"}
  const LISTS: set<string> := {"allOf", "anyOf", "oneOf", "prefixItems"}
  const MAPS: set<string> := {"$defs", "definitions", "dependentSchemas", "patternProperties", "properties"}

  predicate Holds(name: string, v: Json, child: Json) {
    || (name in WHOLE && v == child)
    || (name in LISTS && v.Arr? && child in v.items)
    || (name in MAPS && v.Obj? && exists i :: 0 <= i < |v.members| && v.members[i].value == child)
  }

  /** A way from the root down to a node, through such places. */
  ghost predicate Leads(root: Json, way: seq<Json>, n: Json) {
    && way != [] && way[0] == root && way[|way| - 1] == n
    && forall i :: 0 <= i < |way| - 1 ==> Inside(way[i], way[i + 1])
  }

  lemma UnderHolds(o: seq<Member>, k: nat, child: Json)
    requires k < |WALK|
    ensures child in Under(o, WALK[k]) ==> Inside(Obj(o), child)
  {
    if child in Under(o, WALK[k]) {
      var v := Get(o, WALK[k].name).value;
      GetExactly(o, WALK[k].name, v);
      if WALK[k].shape.Mapped? {
        var i :| 0 <= i < |Values(v.members)| && Values(v.members)[i] == child;
        assert v.members[i].value == child;
      }
      hide Has, Get;
      assert Holds(WALK[k].name, v, child);
    }
  }

  lemma InsideIsUnder(o: seq<Member>, name: string, v: Json, child: Json) returns (k: nat)
    requires Get(o, name) == Some(v) && Holds(name, v, child)
    ensures k < |WALK| && child in Under(o, WALK[k])
  {
    hide Get, Has, WALK, WHOLE, LISTS, MAPS;
    if name in WHOLE && v == child {
      k := WholePlace(name);
    } else if name in LISTS && v.Arr? && child in v.items {
      k := ListPlace(name);
    } else {
      k := MapPlace(name);
      var i :| 0 <= i < |v.members| && v.members[i].value == child;
      assert Values(v.members)[i] == child;
    }
  }

  /** Where the walks have a keyword. */
  lemma WholePlace(name: string) returns (k: nat)
    requires name in WHOLE
    ensures k < |WALK| && WALK[k] == Keyword(name, Single)
  {
    k := if name == "additionalProperties" then 0
         else if name == "contains" then 1
         else if name == "contentSchema" then 2
         else if name == "else" then 3
         else if name == "if" then 4
         else if name == "items" then 5
         else if name == "not" then 6
         else if name == "propertyNames" then 7
         else if name == "then" then 8
         else if name == "unevaluatedItems" then 9
         else 10;
  }

  lemma ListPlace(name: string) returns (k: nat)
    requires name in LISTS
    ensures k < |WALK| && WALK[k] == Keyword(name, Listed)
  {
    k := if name == "allOf" then 11
         else if name == "anyOf" then 12
         else if name == "oneOf" then 13
         else 14;
  }

  lemma MapPlace(name: string) returns (k: nat)
    requires name in MAPS
    ensures k < |WALK| && WALK[k] == Keyword(name, Mapped)
  {
    k := if name == "$defs" then 15
         else if name == "definitions" then 16
         else if name == "dependentSchemas" then 17
         else if name == "patternProperties" then 18
         else 19;
  }

  lemma {:induction false} InKids(o: seq<Member>, from: nat, child: Json)
    requires from <= |WALK|
    ensures child in Kids(o, from) <==> exists k :: from <= k < |WALK| && child in Under(o, WALK[k])
    decreases |WALK| - from
  {
    hide Under, WALK;
    if from < |WALK| {
      InKids(o, from + 1, child);
    }
  }

  /** A node's kids in the walks are the schemas directly inside it. */
  lemma KidsAreInside(o: seq<Member>, child: Json)
    ensures child in Kids(o, 0) <==> Inside(Obj(o), child)
  {
    hide WALK, Holds, Has;
    InKids(o, 0, child);
    if child in Kids(o, 0) {
      var k :| 0 <= k < |WALK| && child in Under(o, WALK[k]);
      UnderHolds(o, k, child);
    }
    if Inside(Obj(o), child) {
      var name, v :| Has(o, name, v) && Holds(name, v, child);
      GetExactly(o, name, v);
      var k := InsideIsUnder(o, name, v, child);
    }
  }

  lemma {:induction false} InVisitedAll(nodes: seq<Json>, above: Json, n: Json)
    requires forall i :: 0 <= i < |nodes| ==> nodes[i] < above
    ensures n in VisitedAll(nodes, above) <==> exists k :: 0 <= k < |nodes| && n in Visited(nodes[k])
    decreases |nodes|
  {
    hide Visited;
    if nodes != [] {
      InVisitedAll(nodes[1..], above, n);
      assert forall k :: 0 < k < |nodes| ==> nodes[k] == nodes[1..][k - 1];
    }
  }

  lemma InVisited(node: Json, n: Json)
    ensures n in Visited(node) <==> n == node || exists child :: Inside(node, child) && n in Visited(child)
  {
    hide Inside, Kids;
    if node.Obj? {
      var kids := Kids(node.members, 0);
      VisitedUnfolds(node);
      InVisitedAll(kids, node, n);
      hide Visited, VisitedAll;
      forall child
        ensures child in kids <==> Inside(node, child)
      {
        KidsAreInside(node.members, child);
      }
    } else {
      NothingInside(node);
    }
  }

  lemma NothingInside(node: Json)
    requires !node.Obj?
    ensures Visited(node) == [node] && forall child :: !Inside(node, child)
  {
  }

  lemma InsideIsSmaller(node: Json, child: Json)
    requires Inside(node, child)
    ensures child < node
  {
    hide Has, Inside;
    assert node.Obj? by { InsideAnObject(node, child); }
    KidsAreInside(node.members, child);
  }

  lemma InsideAnObject(node: Json, child: Json)
    requires Inside(node, child)
    ensures node.Obj?
  {
  }

  lemma {:induction false} WayTo(node: Json, n: Json) returns (way: seq<Json>)
    requires n in Visited(node)
    ensures Leads(node, way, n)
    decreases node
  {
    hide Visited, Inside;
    InVisited(node, n);
    if n == node {
      way := [node];
    } else {
      var child :| Inside(node, child) && n in Visited(child);
      InsideIsSmaller(node, child);
      var rest := WayTo(child, n);
      way := [node] + rest;
      assert forall i :: 1 <= i < |way| - 1 ==> way[i] == rest[i - 1] && way[i + 1] == rest[i];
    }
  }

  lemma {:induction false} WayIsVisited(node: Json, way: seq<Json>, n: Json)
    requires Leads(node, way, n)
    ensures n in Visited(node)
    decreases |way|
  {
    hide Visited, Inside;
    InVisited(node, n);
    if |way| > 1 {
      var rest := way[1..];
      assert Leads(rest[0], rest, n) by {
        assert forall i :: 0 <= i < |rest| ==> rest[i] == way[i + 1];
      }
      WayIsVisited(rest[0], rest, n);
      assert Inside(way[0], way[1]);
    }
  }

  /** What both walks visit: the root, and whatever can be reached from it through the places of schemas; nothing else. */
  lemma VisitedExactlyThePlaces(root: Json, n: Json)
    ensures n in Visited(root) <==> exists way :: Leads(root, way, n)
  {
    hide Visited, Leads;
    if n in Visited(root) {
      var way := WayTo(root, n);
    }
    if way :| Leads(root, way, n) {
      WayIsVisited(root, way, n);
    }
  }
}
