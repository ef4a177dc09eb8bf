/**
 * What the schema validator lets through, said twice: every node of an accepted schema obeys the
 * rules below, and whatever is built by them is accepted.
 */
module SchemaRules {
  import opened Basics
  import opened StrictJson
  import opened ToolSchema

  // ------------------------------------------------------------------ what is accepted obeys

  /** No keyword but the captured ones, with the dialect at the root only; a listed type, which at
      the root is object; a bounded description; a default of the node's own primitive type. */
  lemma AcceptedKeywords(v: Any, depth: nat)
    requires SchemaOk(v, depth)
    ensures depth <= 3 && v.Obj? && "type" in v.fields && v.fields["type"].Str?
    ensures forall k <- v.fields ::
              || k == "type" || k == "description" || k == "default" || k == "properties" || k == "required"
              || k == "items"
              || k == "enum" || k == "minimum" || k == "maximum" || k == "exclusiveMinimum"
              || (k == "$schema" && depth == 0)
    ensures depth == 0 ==> "$schema" in v.fields && v.fields["type"].s == "object"
                           && v.fields["$schema"] == Str("https://json-schema.org/draft/2020-12/schema")
    ensures v.fields["type"].s in {"object", "array", "string", "number", "integer", "boolean"}
    ensures "description" in v.fields ==> v.fields["description"].Str? && |v.fields["description"].s| <= 16384
    ensures "default" in v.fields ==> Typed(v.fields["type"].s, v.fields["default"])
  {
    if "default" in v.fields { TypedIsPrimitive(v.fields["type"].s, v.fields["default"]); }
  }

  function Whole(i: int): real { i as real }

  /** A primitive instance of a type. */
  ghost predicate Typed(typeName: string, v: Any) {
    || (typeName == "boolean" && v.Bool?) || (typeName == "string" && v.Str?) || (typeName == "number" && v.Num?)
    || (typeName == "integer" && v.Num? && exists i :: v.n == Whole(i))
  }

  lemma TypedIsPrimitive(typeName: string, v: Any)
    ensures Typed(typeName, v) <==> PrimitiveMatches(typeName, v)
  {
    if v.Num? && IsInteger(v.n) { assert v.n == Whole(v.n.Floor); }
  }

  /** An object has 1 to 64 properties with names of 1 to 128 bytes and accepted schemas, and requires
      some of them, each once; nothing else has properties or requires any. */
  lemma AcceptedObject(v: Any, depth: nat)
    requires SchemaOk(v, depth)
    ensures "properties" in v.fields <==> v.fields["type"] == Str("object")
    ensures "required" in v.fields <==> v.fields["type"] == Str("object")
    ensures v.fields["type"] == Str("object") ==>
              var p, r := v.fields["properties"], v.fields["required"];
              && p.Obj? && 1 <= |p.fields| <= 64 && r.Arr? && 1 <= |r.items| <= 64
              && (forall name <- p.fields :: 1 <= |name| <= 128 && SchemaOk(p.fields[name], depth + 1))
              && (forall i :: 0 <= i < |r.items| ==> r.items[i].Str? && r.items[i].s in p.fields)
              && (forall i, j :: 0 <= i < j < |r.items| ==> r.items[i] != r.items[j])
  {
    var m := v.fields;
    if "properties" in m && m["properties"].Obj? {
      assert forall name <- m["properties"].fields :: PropertyOk(m["properties"], name, depth + 1);
      assert Properties(m).Keys == m["properties"].fields.Keys;
    }
  }

  /** An array has one accepted item schema; an enumeration has 1 to 64 values of the node's own
      primitive type; bounds are numbers on numeric nodes; nothing else has any of these. */
  lemma AcceptedValues(v: Any, depth: nat)
    requires SchemaOk(v, depth)
    ensures "items" in v.fields <==> v.fields["type"] == Str("array")
    ensures "items" in v.fields ==> SchemaOk(v.fields["items"], depth + 1)
    ensures "enum" in v.fields ==>
              && v.fields["enum"].Arr? && 1 <= |v.fields["enum"].items| <= 64
              && forall i :: 0 <= i < |v.fields["enum"].items| ==> Typed(v.fields["type"].s, v.fields["enum"].items[i])
    ensures forall k | k == "minimum" || k == "maximum" || k == "exclusiveMinimum" ::
              k in v.fields ==> v.fields[k].Num? && v.fields["type"].s in {"number", "integer"}
  {
    if "enum" in v.fields {
      forall i | 0 <= i < |v.fields["enum"].items| ensures Typed(v.fields["type"].s, v.fields["enum"].items[i]) {
        TypedIsPrimitive(v.fields["type"].s, v.fields["enum"].items[i]);
      }
    }
    assert BoundOk(v.fields["type"].s, v.fields, "minimum");
  }

  // ------------------------------------------------------------------ what obeys is accepted

  lemma PrimitiveIsAccepted(typeName: string, depth: nat)
    requires 1 <= depth <= 3 && typeName in {"string", "number", "integer", "boolean"}
    ensures SchemaOk(Obj(map["type" := Str(typeName)]), depth)
  {
  }

  lemma ArrayIsAccepted(items: Any, depth: nat)
    requires 1 <= depth && SchemaOk(items, depth + 1)
    ensures SchemaOk(Obj(map["type" := Str("array"), "items" := items]), depth)
  {
  }

  function ObjectSchema(properties: map<string, Any>, required: seq<Any>, root: bool): Any {
    var m := map["type" := Str("object"), "properties" := Obj(properties), "required" := Arr(required)];
    Obj(if root then m["$schema" := Str("https://json-schema.org/draft/2020-12/schema")] else m)
  }

  lemma ObjectNodeOk(properties: map<string, Any>, required: seq<Any>, depth: nat)
    requires depth <= 3 && 1 <= |properties| <= 64 && 1 <= |required| <= 64
    requires forall i :: 0 <= i < |required| ==>
             required[i].Str? && required[i].s in properties && 1 <= |required[i].s| <= 128
    requires forall i, j :: 0 <= i < j < |required| ==> required[i] != required[j]
    ensures NodeOk(ObjectSchema(properties, required, depth == 0).fields, depth)
  {
    var m := ObjectSchema(properties, required, depth == 0).fields;
    assert Properties(m) == properties;
    assert required[0].s in properties.Keys;
    assert RequiredOk(m["required"], properties.Keys);
    assert HeadOk(m, depth);
  }

  lemma ObjectIsAccepted(properties: map<string, Any>, required: seq<Any>, depth: nat)
    requires depth <= 3 && 1 <= |properties| <= 64 && 1 <= |required| <= 64
    requires forall name <- properties :: PropertyOk(Obj(properties), name, depth + 1)
    requires forall i :: 0 <= i < |required| ==> required[i].Str? && required[i].s in properties
    requires forall i, j :: 0 <= i < j < |required| ==> required[i] != required[j]
    ensures SchemaOk(ObjectSchema(properties, required, depth == 0), depth)
  {
    ObjectNodeOk(properties, required, depth);
    ObjectOfProperties(ObjectSchema(properties, required, depth == 0), Obj(properties), depth);
  }

  lemma ObjectOfProperties(v: Any, p: Any, depth: nat)
    requires v.Obj? && NodeOk(v.fields, depth) && p.Obj? && "items" !in v.fields
    requires "properties" in v.fields && v.fields["properties"] == p
    requires forall name <- p.fields :: PropertyOk(p, name, depth + 1)
    ensures SchemaOk(v, depth)
  {
  }

  /** The keywords that may be added to an accepted node, or changed in it. */
  ghost predicate Addable(typeName: string, k: string, x: Any) {
    || (k == "description" && x.Str? && |x.s| <= 16384)
    || (k == "default" && Typed(typeName, x))
    || (k == "enum" && x.Arr? && 1 <= |x.items| <= 64 && forall i :: 0 <= i < |x.items| ==> Typed(typeName, x.items[i]))
    || ((k == "minimum" || k == "maximum" || k == "exclusiveMinimum") && x.Num?
        && (typeName == "number" || typeName == "integer"))
  }

  lemma HeadMayGrow(m: map<string, Any>, depth: nat, k: string, x: Any)
    requires HeadOk(m, depth) && Addable(m["type"].s, k, x)
    ensures HeadOk(m[k := x], depth) && m[k := x]["type"] == m["type"]
  {
    TypedIsPrimitive(m["type"].s, x);
    assert k in KEYWORDS;
  }

  lemma ValuesMayGrow(m: map<string, Any>, typeName: string, k: string, x: Any)
    requires ValuesOk(typeName, m) && Addable(typeName, k, x)
    ensures ValuesOk(typeName, m[k := x])
  {
    if k == "enum" {
      assert Typed(typeName, x.items[0]);
      forall i | 0 <= i < |x.items| ensures PrimitiveMatches(typeName, x.items[i]) {
        TypedIsPrimitive(typeName, x.items[i]);
      }
      assert EnumOk(typeName, x);
    }
  }

  lemma KeywordMayBeAdded(v: Any, depth: nat, k: string, x: Any)
    requires SchemaOk(v, depth) && Addable(v.fields["type"].s, k, x)
    ensures SchemaOk(Obj(v.fields[k := x]), depth)
  {
    HeadMayGrow(v.fields, depth, k, x);
    ValuesMayGrow(v.fields, v.fields["type"].s, k, x);
    OtherKeywordsStay(v.fields, k, x);
  }

  lemma OtherKeywordsStay(m: map<string, Any>, k: string, x: Any)
    requires k != "properties" && k != "required" && k != "items"
    ensures var m' := m[k := x];
            && Properties(m') == Properties(m)
            && forall other :: other != k ==> (other in m' <==> other in m) && (other in m ==> m'[other] == m[other])
  {
  }

  // ------------------------------------------------------------------ nodes

  /** An array costs one node more than its items. */
  lemma NodesOfArray(items: Any)
    ensures Nodes(Obj(map["type" := Str("array"), "items" := items])) == 1 + Nodes(items)
  {
  }

  /** An object of `n` primitive properties costs `n + 1` nodes. */
  lemma NodesOfFlatObject(properties: map<string, Any>, required: seq<Any>, root: bool)
    requires forall name <- properties :: properties[name].Obj? && "properties" !in properties[name].fields
                                          && "items" !in properties[name].fields
    ensures Nodes(ObjectSchema(properties, required, root)) == 1 + |properties|
  {
    var v := ObjectSchema(properties, required, root);
    assert v.fields["properties"] == Obj(properties) && "items" !in v.fields;
    NodesOfLeaves(Obj(properties), properties);
  }

  lemma {:induction false} NodesOfLeaves(p: Any, m: map<string, Any>)
    requires p.Obj? && ToolSchema.Part(m, p.fields)
    requires forall name <- p.fields :: p.fields[name].Obj? && "properties" !in p.fields[name].fields
                                        && "items" !in p.fields[name].fields
    ensures NodesIn(p, m) == |m|
    decreases |m|
  {
    if k :| k in m {
      NodesInAnyOrder(p, m, k);
      NodesOfLeaves(p, m - {k});
      assert m.Keys == (m - {k}).Keys + {k};
      assert |m| == |m.Keys| && |m - {k}| == |(m - {k}).Keys|;
    } else {
      assert m == map[];
    }
  }

  // ------------------------------------------------------------------ tools

  /** An accepted tool is exactly a function with a safe name, a bounded description and an accepted
      root schema. */
  lemma AcceptedTool(tool: Any)
    ensures RateTool(tool).Rated? <==>
              && tool.Obj? && tool.fields.Keys == {"type", "function"} && tool.fields["type"] == Str("function")
              && tool.fields["function"].Obj?
              && var f := tool.fields["function"].fields;
              && f.Keys == {"name", "description", "parameters"} && f["name"].Str? && 1 <= |f["name"].s| <= 64
              && (forall c <- f["name"].s ::
                    'A' <= c <= 'Z' || 'a' <= c <= 'z' || '0' <= c <= '9' || c == '_' || c == '-')
              && f["description"].Str? && |f["description"].s| <= 16384 && SchemaOk(f["parameters"], 0)
    ensures RateTool(tool).Rated? ==>
              var f := tool.fields["function"].fields;
              RateTool(tool) == Rated(f["name"].s, Nodes(f["parameters"]), Strip(f["parameters"], 0))
  {
  }

  /** An accepted list has 1 to 32 tools with distinct names and at most 128 schema nodes in all. */
  lemma AcceptedTools(tools: seq<Any>)
    requires Acceptable(tools)
    ensures 1 <= |tools| <= 32 && |RateTools(tools)| == |tools| && TotalNodes(RateTools(tools), |tools|) <= 128
    ensures var ratings := RateTools(tools);
            && (forall i :: 0 <= i < |ratings| ==> ratings[i].Rated?)
            && (forall i, j :: 0 <= i < j < |ratings| && ratings[i].Rated? && ratings[j].Rated? ==>
                  ratings[i].name != ratings[j].name)
  {
  }
}
