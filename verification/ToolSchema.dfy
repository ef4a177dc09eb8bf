/**
 * The tool JSON Schema validator. It walks a schema with one node budget shared by every
 * tool of the request, visits properties in Go's unspecified map order, and removes the
 * annotations that must not cross the trust boundary.
 */
module ToolSchema {
  import opened Basics
  import opened StrictJson

  /** A value of `json.Unmarshal` into `any`: numbers are finite floats, modelled as reals. */
  type Any = Json<real>

  const DIALECT := "https://json-schema.org/draft/2020-12/schema"
  const MAX_SCHEMA_DEPTH := 3
  const MAX_SCHEMA_NODES := 128
  const MAX_PROPERTIES := 64
  const MAX_DESCRIPTION := 16384
  const MAX_TOOLS := 32

  const TYPES := {"object", "array", "string", "number", "integer", "boolean"}
  const KEYWORDS := {"type", "description", "default", "properties", "required", "items", "enum", "minimum",
      "maximum", "exclusiveMinimum"}

  // ------------------------------------------------------------------ well-formed schemas

  predicate IsInteger(x: real) { x.Floor as real == x }

  /** `schemaPrimitiveMatches` */
  predicate PrimitiveMatches(typeName: string, v: Any) {
    match typeName
    case "boolean" => v.Bool?
    case "string" => v.Str?
    case "number" => v.Num?
    case "integer" => v.Num? && IsInteger(v.n)
    case _ => false
  }

  predicate IsStringArray(v: Any, maximum: nat, maxBytes: nat) {
    && v.Arr? && |v.items| <= maximum
    && forall i :: 0 <= i < |v.items| ==> v.items[i].Str? && 0 < |v.items[i].s| <= maxBytes
  }

  function Properties(m: map<string, Any>): map<string, Any> {
    if "properties" in m && m["properties"].Obj? then m["properties"].fields else map[]
  }

  predicate RequiredOk(v: Any, declared: set<string>) {
    && IsStringArray(v, MAX_PROPERTIES, MAX_KEY)
    && (forall i :: 0 <= i < |v.items| ==> v.items[i].s in declared)
    && (forall i, j :: 0 <= i < j < |v.items| ==> v.items[i] != v.items[j])
  }

  predicate EnumOk(typeName: string, v: Any) {
    v.Arr? && 0 < |v.items| <= 64 && forall i :: 0 <= i < |v.items| ==> PrimitiveMatches(typeName, v.items[i])
  }

  /** Dialect, type, description and default: request.go lines 305-354. */
  predicate HeadOk(m: map<string, Any>, depth: nat) {
    && depth <= MAX_SCHEMA_DEPTH
    && m.Keys <= KEYWORDS + (if depth == 0 then {"$schema"} else {})
    && (depth == 0 ==> "$schema" in m && m["$schema"] == Str(DIALECT))
    && "type" in m && m["type"].Str? && m["type"].s in TYPES
    && (depth == 0 ==> m["type"].s == "object")
    && ("description" in m ==> m["description"].Str? && |m["description"].s| <= MAX_DESCRIPTION)
    && ("default" in m ==> PrimitiveMatches(m["type"].s, m["default"]))
  }

  predicate PropertiesOk(typeName: string, m: map<string, Any>) {
    "properties" in m ==> typeName == "object" && m["properties"].Obj? && |m["properties"].fields| <= MAX_PROPERTIES
  }

  /** An object lists some of its declared properties as required; nothing else has the keyword. */
  predicate RequiredPartOk(typeName: string, m: map<string, Any>, declared: set<string>) {
    && ("required" in m <==> typeName == "object")
    && ("required" in m ==> RequiredOk(m["required"], declared) && m["required"].items != [] && declared != {})
  }

  predicate EnumPartOk(typeName: string, m: map<string, Any>) {
    "enum" in m ==> typeName != "object" && typeName != "array" && EnumOk(typeName, m["enum"])
  }

  predicate BoundOk(typeName: string, m: map<string, Any>, keyword: string) {
    keyword in m ==> (typeName == "number" || typeName == "integer") && m[keyword].Num?
  }

  predicate ValuesOk(typeName: string, m: map<string, Any>) {
    && EnumPartOk(typeName, m) && BoundOk(typeName, m, "minimum") && BoundOk(typeName, m, "maximum")
    && BoundOk(typeName, m, "exclusiveMinimum")
  }

  /** The keywords of one node, leaving its sub-schemas aside. */
  predicate NodeOk(m: map<string, Any>, depth: nat) {
    && HeadOk(m, depth)
    && var typeName := m["type"].s;
    && PropertiesOk(typeName, m)
    && RequiredPartOk(typeName, m, Properties(m).Keys)
    && ("items" in m <==> typeName == "array")
    && ValuesOk(typeName, m)
  }

  predicate SchemaOk(v: Any, depth: nat)
    decreases v, 1
  {
    && v.Obj? && NodeOk(v.fields, depth)
    && ("properties" in v.fields && v.fields["properties"].Obj? ==>
          forall name <- v.fields["properties"].fields :: PropertyOk(v.fields["properties"], name, depth + 1))
    && ("items" in v.fields ==> SchemaOk(v.fields["items"], depth + 1))
  }

  predicate PropertyOk(p: Any, name: string, depth: nat)
    requires p.Obj? && name in p.fields
    decreases p, 0
  {
    0 < |name| <= MAX_KEY && SchemaOk(p.fields[name], depth)
  }

  // ------------------------------------------------------------------ counting nodes

  ghost predicate Part(m: map<string, Any>, whole: map<string, Any>) {
    forall k <- m :: k in whole && m[k] == whole[k]
  }

  /** The number of schema nodes that validation visits. */
  ghost function Nodes(v: Any): (n: nat)
    ensures n > 0
    decreases v, 1, 0
  {
    if !v.Obj? then 1
    else
      1 + (if "properties" in v.fields && v.fields["properties"].Obj?
           then NodesIn(v.fields["properties"], v.fields["properties"].fields) else 0)
      + (if "items" in v.fields then Nodes(v.fields["items"]) else 0)
  }

  ghost function NodesIn(p: Any, m: map<string, Any>): nat
    requires p.Obj? && Part(m, p.fields)
    decreases p, 0, |m|
  {
    if m == map[] then 0
    else
      var k :| k in m;
      Nodes(p.fields[k]) + NodesIn(p, m - {k})
  }

  /** The total does not depend on the order of iteration. */
  lemma {:induction false} NodesInAnyOrder(p: Any, m: map<string, Any>, k: string)
    requires p.Obj? && Part(m, p.fields) && k in m
    ensures NodesIn(p, m) == Nodes(p.fields[k]) + NodesIn(p, m - {k})
    decreases |m|
  {
    var l :| l in m && NodesIn(p, m) == Nodes(p.fields[l]) + NodesIn(p, m - {l});
    if l != k {
      NodesInAnyOrder(p, m - {l}, k);
      NodesInAnyOrder(p, m - {k}, l);
      assert m - {l} - {k} == m - {k} - {l};
    }
  }

  // ------------------------------------------------------------------ stripping

  /** The schema that is forwarded: no root `$schema`, no `default` at any node. A property that
      merely bears such a name is a sub-schema, not a keyword, and stays. */
  function Strip(v: Any, depth: nat): Any
    decreases v, 1
  {
    if !v.Obj? then v
    else
      var kept := v.fields - (if depth == 0 then {"default", "$schema"} else {"default"});
      Obj(map k <- kept ::
            if k == "properties" && v.fields[k].Obj? then Obj(StripAll(v.fields[k], depth + 1))
            else if k == "items" then Strip(v.fields[k], depth + 1)
            else v.fields[k])
  }

  function StripAll(p: Any, depth: nat): map<string, Any>
    requires p.Obj?
    decreases p, 0
  {
    map name <- p.fields :: Strip(p.fields[name], depth)
  }

  /** What an instance must satisfy, for the keywords that may appear: section 6 of JSON Schema
      Validation 2020-12 and section 10.3 of JSON Schema Core 2020-12. */
  predicate Accepts(schema: Any, v: Any)
    decreases schema
  {
    if schema.Bool? then schema.b
    else if !schema.Obj? then false
    else
      var m := schema.fields;
      && AcceptsHere(m, v)
      && ("properties" in m && m["properties"].Obj? && v.Obj? ==>
            forall k <- m["properties"].fields :: k in v.fields ==> Accepts(m["properties"].fields[k], v.fields[k]))
      && ("items" in m && v.Arr? ==> forall i :: 0 <= i < |v.items| ==> Accepts(m["items"], v.items[i]))
  }

  /** The assertions of one node about the instance itself. */
  predicate AcceptsHere(m: map<string, Any>, v: Any) {
    && ("type" in m && m["type"].Str? ==> HasType(m["type"].s, v))
    && ("enum" in m && m["enum"].Arr? ==> v in m["enum"].items)
    && ("minimum" in m && m["minimum"].Num? && v.Num? ==> m["minimum"].n <= v.n)
    && ("maximum" in m && m["maximum"].Num? && v.Num? ==> v.n <= m["maximum"].n)
    && ("exclusiveMinimum" in m && m["exclusiveMinimum"].Num? && v.Num? ==> m["exclusiveMinimum"].n < v.n)
    && ("required" in m && m["required"].Arr? && v.Obj? ==>
          forall i :: 0 <= i < |m["required"].items| ==> m["required"].items[i].Str? ==>
              m["required"].items[i].s in v.fields)
  }

  predicate HasType(typeName: string, v: Any) {
    match typeName
    case "object" => v.Obj?
    case "array" => v.Arr?
    case _ => PrimitiveMatches(typeName, v)
  }

  lemma StripKeepsKeyword(schema: Any, depth: nat, k: string)
    requires schema.Obj? && k in KEYWORDS && k != "default" && k != "properties" && k != "items"
    ensures var m, stripped := schema.fields, Strip(schema, depth).fields;
            (k in stripped <==> k in m) && (k in m ==> stripped[k] == m[k])
  {
    assert k != "$schema";
  }

  lemma StripKeepsAssertions(schema: Any, depth: nat, v: Any)
    requires schema.Obj?
    ensures AcceptsHere(Strip(schema, depth).fields, v) <==> AcceptsHere(schema.fields, v)
  {
    StripKeepsKeyword(schema, depth, "type");
    StripKeepsKeyword(schema, depth, "enum");
    StripKeepsKeyword(schema, depth, "minimum");
    StripKeepsKeyword(schema, depth, "maximum");
    StripKeepsKeyword(schema, depth, "exclusiveMinimum");
    StripKeepsKeyword(schema, depth, "required");
  }

  lemma StripKeepsSubschemas(schema: Any, depth: nat)
    requires schema.Obj?
    ensures var m, stripped := schema.fields, Strip(schema, depth).fields;
            && ("items" in stripped <==> "items" in m) && ("properties" in stripped <==> "properties" in m)
            && ("items" in m ==> stripped["items"] == Strip(m["items"], depth + 1))
            && ("properties" in m ==> stripped["properties"].Obj? == m["properties"].Obj?)
            && ("properties" in m && m["properties"].Obj? ==>
                  && stripped["properties"] == Obj(StripAll(m["properties"], depth + 1))
                  && stripped["properties"].fields.Keys == m["properties"].fields.Keys
                  && forall k <- m["properties"].fields ::
                       stripped["properties"].fields[k] == Strip(m["properties"].fields[k], depth + 1))
  {
  }

  /** Stripping preserves meaning: the forwarded schema accepts exactly the same instances. */
  lemma {:induction false} StripKeepsInstances(schema: Any, depth: nat, v: Any)
    ensures Accepts(Strip(schema, depth), v) <==> Accepts(schema, v)
    decreases schema
  {
    if schema.Obj? {
      var m := schema.fields;
      StripKeepsAssertions(schema, depth, v);
      StripKeepsSubschemas(schema, depth);
      if "properties" in m && m["properties"].Obj? && v.Obj? {
        var before := m["properties"].fields;
        forall k <- before | k in v.fields
          ensures Accepts(Strip(before[k], depth + 1), v.fields[k]) <==> Accepts(before[k], v.fields[k])
        {
          StripKeepsInstances(before[k], depth + 1, v.fields[k]);
        }
      }
      if "items" in m && v.Arr? {
        forall i | 0 <= i < |v.items|
          ensures Accepts(Strip(m["items"], depth + 1), v.items[i]) <==> Accepts(m["items"], v.items[i])
        {
          StripKeepsInstances(m["items"], depth + 1, v.items[i]);
        }
      }
    }
  }

  /** No node carries `default`, and the root carries no dialect. */
  predicate Bare(v: Any, depth: nat)
    decreases v
  {
    v.Obj? ==>
      && "default" !in v.fields && (depth == 0 ==> "$schema" !in v.fields)
      && ("properties" in v.fields && v.fields["properties"].Obj? ==>
            forall name <- v.fields["properties"].fields :: Bare(v.fields["properties"].fields[name], depth + 1))
      && ("items" in v.fields ==> Bare(v.fields["items"], depth + 1))
  }

  /** Stripping removes every such annotation ... */
  lemma {:induction false} StripIsBare(v: Any, depth: nat)
    ensures Bare(Strip(v, depth), depth)
    decreases v
  {
    if v.Obj? {
      StripKeepsSubschemas(v, depth);
      if "items" in v.fields { StripIsBare(v.fields["items"], depth + 1); }
      if "properties" in v.fields && v.fields["properties"].Obj? {
        var before := v.fields["properties"].fields;
        forall name <- before ensures Bare(Strip(before[name], depth + 1), depth + 1) {
          StripIsBare(before[name], depth + 1);
        }
      }
    }
  }

  /** ... and changes nothing in a schema that has none. */
  lemma {:induction false} StripKeepsBare(v: Any, depth: nat)
    requires Bare(v, depth)
    ensures Strip(v, depth) == v
    decreases v
  {
    if v.Obj? {
      StripKeepsSubschemas(v, depth);
      if "items" in v.fields { StripKeepsBare(v.fields["items"], depth + 1); }
      if "properties" in v.fields && v.fields["properties"].Obj? {
        var before := v.fields["properties"].fields;
        forall name <- before ensures Strip(before[name], depth + 1) == before[name] {
          StripKeepsBare(before[name], depth + 1);
        }
        assert StripAll(v.fields["properties"], depth + 1) == before;
      }
      assert Strip(v, depth).fields == v.fields;
    }
  }

  // ------------------------------------------------------------------ the code

  /** `stringArray` */
  method StringArray(v: Any, maximum: nat, maxBytes: nat) returns (r: Result<seq<string>>)
    ensures r.Ok? <==> IsStringArray(v, maximum, maxBytes)
    ensures r.Ok? ==> |r.value| == |v.items| && forall i :: 0 <= i < |r.value| ==> r.value[i] == v.items[i].s
  {
    if !v.Arr? || |v.items| > maximum { return Err; }
    var values := [];
    for i := 0 to |v.items|
      invariant |values| == i
      invariant forall j :: 0 <= j < i ==>
                v.items[j].Str? && 0 < |v.items[j].s| <= maxBytes && values[j] == v.items[j].s
    {
      if !v.items[i].Str? || |v.items[i].s| == 0 || |v.items[i].s| > maxBytes { return Err; }
      values := values + [v.items[i].s];
    }
    return Ok(values);
  }

  /** The `required` keyword: declared names only, none twice. */
  method CheckRequired(v: Any, declared: set<string>) returns (ok: bool)
    ensures ok <==> RequiredOk(v, declared)
  {
    var required := StringArray(v, MAX_PROPERTIES, MAX_KEY);
    if required.Err? { return false; }
    var seen: set<string> := {};
    for i := 0 to |required.value|
      invariant seen == set j | 0 <= j < i :: required.value[j]
      invariant forall j :: 0 <= j < i ==> required.value[j] in declared
      invariant forall j, k :: 0 <= j < k < i ==> required.value[j] != required.value[k]
    {
      if required.value[i] !in declared { return false; }
      if required.value[i] in seen {
        ghost var j :| 0 <= j < i && required.value[j] == required.value[i];
        assert v.items[j] == v.items[i];
        return false;
      }
      seen := seen + {required.value[i]};
    }
    assert forall j, k :: 0 <= j < k < |v.items| ==> required.value[j] != required.value[k];
    return true;
  }

  method CheckEnum(typeName: string, v: Any) returns (ok: bool)
    ensures ok <==> EnumOk(typeName, v)
  {
    if !v.Arr? || |v.items| == 0 || |v.items| > 64 { return false; }
    for i := 0 to |v.items|
      invariant forall j :: 0 <= j < i ==> PrimitiveMatches(typeName, v.items[j])
    {
      if !PrimitiveMatches(typeName, v.items[i]) { return false; }
    }
    return true;
  }

  method CheckRequiredPart(typeName: string, m: map<string, Any>, declared: set<string>) returns (ok: bool)
    ensures ok <==> RequiredPartOk(typeName, m, declared)
  {
    if ("required" in m) != (typeName == "object") { return false; }
    if "required" !in m { return true; }
    ok := CheckRequired(m["required"], declared);
    return ok && m["required"].items != [] && declared != {};
  }

  method CheckValues(typeName: string, m: map<string, Any>) returns (ok: bool)
    ensures ok <==> ValuesOk(typeName, m)
  {
    if "enum" in m {
      if typeName == "object" || typeName == "array" { return false; }
      ok := CheckEnum(typeName, m["enum"]);
      if !ok { return false; }
    }
    return BoundOk(typeName, m, "minimum") && BoundOk(typeName, m, "maximum")
        && BoundOk(typeName, m, "exclusiveMinimum");
  }

  /** A node is well formed when its own keywords and its sub-schemas are. */
  lemma WellFormed(v: Any, depth: nat)
    requires v.Obj? && HeadOk(v.fields, depth)
    requires var typeName := v.fields["type"].s;
             && PropertiesOk(typeName, v.fields) && RequiredPartOk(typeName, v.fields, Properties(v.fields).Keys)
             && ("items" in v.fields <==> typeName == "array") && ValuesOk(typeName, v.fields)
    requires "properties" in v.fields ==>
               forall name <- v.fields["properties"].fields :: PropertyOk(v.fields["properties"], name, depth + 1)
    requires "items" in v.fields ==> SchemaOk(v.fields["items"], depth + 1)
    ensures SchemaOk(v, depth)
  {
  }

  /** The node after `delete` of its annotations, with its validated sub-schemas in place. */
  function Rebuilt(m: map<string, Any>, depth: nat, properties: Option<map<string, Any>>,
      items: Option<Any>): map<string, Any> {
    var kept := m - (if depth == 0 then {"default", "$schema"} else {"default"});
    var withProperties := if properties.Some? then kept["properties" := Obj(properties.value)] else kept;
    if items.Some? then withProperties["items" := items.value] else withProperties
  }

  lemma RebuiltIsStripped(v: Any, depth: nat, properties: Option<map<string, Any>>, items: Option<Any>)
    requires v.Obj? && ("properties" in v.fields ==> v.fields["properties"].Obj?)
    requires properties == if "properties" in v.fields then Some(StripAll(v.fields["properties"], depth + 1)) else None
    requires items == if "items" in v.fields then Some(Strip(v.fields["items"], depth + 1)) else None
    ensures Obj(Rebuilt(v.fields, depth, properties, items)) == Strip(v, depth)
  {
    StripKeepsSubschemas(v, depth);
    var rebuilt, stripped := Rebuilt(v.fields, depth, properties, items), Strip(v, depth).fields;
    assert rebuilt.Keys == stripped.Keys;
    forall k <- rebuilt ensures rebuilt[k] == stripped[k] {
      if k != "properties" && k != "items" { assert stripped[k] == v.fields[k]; }
    }
  }

  /** The properties in `out` have been accepted and stripped. */
  ghost predicate Progress(p: Any, out: map<string, Any>, depth: nat)
    requires p.Obj?
  {
    forall name <- out :: name in p.fields && PropertyOk(p, name, depth) && out[name] == Strip(p.fields[name], depth)
  }

  lemma ProgressStep(p: Any, out: map<string, Any>, depth: nat, name: string)
    requires p.Obj? && Progress(p, out, depth) && name in p.fields && PropertyOk(p, name, depth)
    ensures Progress(p, out[name := Strip(p.fields[name], depth)], depth)
  {
  }

  lemma ProgressDone(p: Any, out: map<string, Any>, depth: nat)
    requires p.Obj? && Progress(p, out, depth) && out.Keys == p.fields.Keys
    ensures out == StripAll(p, depth)
    ensures forall name <- p.fields :: PropertyOk(p, name, depth)
  {
  }

  /** The node budget that all tools of one request share. */
  class Budget {
    var left: int

    constructor ()
      ensures left == MAX_SCHEMA_NODES
    {
      left := MAX_SCHEMA_NODES;
    }

    /** `validateJSONSchema`: accepted exactly when the schema is well formed within the depth
        and its nodes fit the budget, which then drops by exactly that number. */
    method ValidateSchema(v: Any, depth: nat) returns (r: Result<Any>)
      requires left >= 0
      modifies this
      ensures r.Ok? <==> SchemaOk(v, depth) && Nodes(v) <= old(left)
      ensures r.Ok? ==> r.value == Strip(v, depth) && left == old(left) - Nodes(v)
      decreases v, 1
    {
      if depth > MAX_SCHEMA_DEPTH || left <= 0 { return Err; }
      left := left - 1;
      if !v.Obj? || !HeadOk(v.fields, depth) { return Err; }
      var m := v.fields;
      var typeName := m["type"].s;
      if !PropertiesOk(typeName, m) { return Err; }
      var properties := ValidatePropertiesPart(v, depth);
      if properties.Err? { return Err; }
      var ok := CheckRequiredPart(typeName, m, Properties(m).Keys);
      if !ok || ("items" in m) != (typeName == "array") { return Err; }
      var items := ValidateItemsPart(v, depth);
      if items.Err? { return Err; }
      ok := CheckValues(typeName, m);
      if !ok { return Err; }
      WellFormed(v, depth);
      RebuiltIsStripped(v, depth, properties.value, items.value);
      return Ok(Obj(Rebuilt(m, depth, properties.value, items.value)));
    }

    method ValidatePropertiesPart(v: Any, depth: nat) returns (r: Result<Option<map<string, Any>>>)
      requires left >= 0 && v.Obj? && ("properties" in v.fields ==> v.fields["properties"].Obj?)
      modifies this
      ensures "properties" !in v.fields ==> r == Ok(None) && left == old(left)
      ensures "properties" in v.fields ==>
                var p := v.fields["properties"];
                && (r.Ok? <==>
                      (forall name <- p.fields :: PropertyOk(p, name, depth + 1)) && NodesIn(p, p.fields) <= old(left))
                && (r.Ok? ==> r.value == Some(StripAll(p, depth + 1)) && left == old(left) - NodesIn(p, p.fields))
      decreases v, 0
    {
      if "properties" !in v.fields { return Ok(None); }
      var validated := ValidateProperties(v.fields["properties"], depth + 1);
      if validated.Err? { return Err; }
      return Ok(Some(validated.value));
    }

    method ValidateItemsPart(v: Any, depth: nat) returns (r: Result<Option<Any>>)
      requires left >= 0 && v.Obj?
      modifies this
      ensures "items" !in v.fields ==> r == Ok(None) && left == old(left)
      ensures "items" in v.fields ==>
                var items := v.fields["items"];
                && (r.Ok? <==> SchemaOk(items, depth + 1) && Nodes(items) <= old(left))
                && (r.Ok? ==> r.value == Some(Strip(items, depth + 1)) && left == old(left) - Nodes(items))
      decreases v, 0
    {
      if "items" !in v.fields { return Ok(None); }
      var validated := ValidateSchema(v.fields["items"], depth + 1);
      if validated.Err? { return Err; }
      return Ok(Some(validated.value));
    }

    /** One turn of the loop over `tools`. */
    method ValidateTool(raw: Any, ghost ratings: seq<ToolRating>, ghost i: nat, names: set<string>,
        ghost forwarded: seq<Any>)
      returns (r: Result<(string, Any)>)
      requires i < |ratings| && ratings[i] == RateTool(raw) && Through(ratings, i, names, forwarded, left)
      modifies this
      ensures r.Err? ==> !AllOk(ratings)
      ensures r.Ok? ==> Through(ratings, i + 1, names + {r.value.0}, forwarded + [r.value.1], left)
    {
      var tool := ReadEntry(raw);
      if tool.Malformed? || tool.name in names {
        NotTaken(ratings, i);
        return Err;
      }
      var schema := ValidateSchema(tool.parameters, 0);
      if schema.Err? {
        NotTaken(ratings, i);
        return Err;
      }
      Taken(ratings, i);
      return Ok((tool.name, schema.value));
    }

    /** The loop over `properties`, in whatever order the map yields its keys. */
    method ValidateProperties(p: Any, depth: nat) returns (r: Result<map<string, Any>>)
      requires left >= 0 && p.Obj?
      modifies this
      ensures r.Ok? <==> (forall name <- p.fields :: PropertyOk(p, name, depth)) && NodesIn(p, p.fields) <= old(left)
      ensures r.Ok? ==> r.value == StripAll(p, depth) && left == old(left) - NodesIn(p, p.fields)
      decreases p, 0
    {
      var names := p.fields.Keys;
      var out: map<string, Any> := map[];
      ghost var todo := p.fields;
      while names != {}
        invariant names <= p.fields.Keys && out.Keys == p.fields.Keys - names
        invariant Part(todo, p.fields) && todo.Keys == names
        invariant Progress(p, out, depth) && left >= 0
        invariant old(left) - left == NodesIn(p, p.fields) - NodesIn(p, todo)
        decreases names
      {
        var name :| name in names;
        NodesInAnyOrder(p, todo, name);
        if name == "" || |name| > MAX_KEY {
          assert !PropertyOk(p, name, depth);
          return Err;
        }
        var child := ValidateSchema(p.fields[name], depth);
        if child.Err? {
          assert !PropertyOk(p, name, depth) || NodesIn(p, p.fields) > old(left);
          return Err;
        }
        ProgressStep(p, out, depth, name);
        out := out[name := child.value];
        names := names - {name};
        todo := todo - {name};
      }
      ProgressDone(p, out, depth);
      return Ok(out);
    }
  }

  // ------------------------------------------------------------------ the tool list

  predicate SafeName(s: string) {
    0 < |s| <= 64 && forall c <- s :: 'A' <= c <= 'Z' || 'a' <= c <= 'z' || '0' <= c <= '9' || c == '_' || c == '-'
  }

  /** What the loop body reads out of one element of `tools`. */
  datatype Entry = Malformed | Entry(name: string, parameters: Any)

  /** An entry has exactly a type and a function; the function exactly a safe name, a bounded
      description and a schema. */
  function ReadEntry(tool: Any): (e: Entry)
    ensures e.Entry? ==> SafeName(e.name)
  {
    if !tool.Obj? || tool.fields.Keys != {"type", "function"} || tool.fields["type"] != Str("function") then Malformed
    else if !tool.fields["function"].Obj? then Malformed
    else
      var f := tool.fields["function"].fields;
      if f.Keys != {"name", "description", "parameters"} then Malformed
      else if !f["name"].Str? || !SafeName(f["name"].s) then Malformed
      else if !f["description"].Str? || |f["description"].s| > MAX_DESCRIPTION then Malformed
      else Entry(f["name"].s, f["parameters"])
  }

  /** What becomes of one element of `tools`: malformed, or a name, the number of schema nodes it
      costs, and the stripped schema that is forwarded. */
  datatype ToolRating = Bad | Rated(name: string, nodes: nat, schema: Any)

  ghost function RateTool(tool: Any): ToolRating {
    var e := ReadEntry(tool);
    if e.Entry? && SchemaOk(e.parameters, 0) then Rated(e.name, Nodes(e.parameters), Strip(e.parameters, 0)) else Bad
  }

  ghost function RateTools(tools: seq<Any>): seq<ToolRating> {
    seq(|tools|, i requires 0 <= i < |tools| => RateTool(tools[i]))
  }

  /** The nodes of all schemas together. */
  ghost function TotalNodes(tools: seq<ToolRating>, n: nat): nat
    requires n <= |tools|
  {
    if n == 0 then 0 else TotalNodes(tools, n - 1) + (if tools[n - 1].Rated? then tools[n - 1].nodes else 0)
  }

  lemma {:induction false} TotalNodesGrow(tools: seq<ToolRating>, i: nat, n: nat)
    requires i <= n <= |tools|
    ensures TotalNodes(tools, i) <= TotalNodes(tools, n)
    decreases n
  {
    if i < n { TotalNodesGrow(tools, i, n - 1); }
  }

  /** The first `n` tools are well formed, and no two share a name. */
  ghost predicate EachOk(tools: seq<ToolRating>, n: nat)
    requires n <= |tools|
  {
    && (forall i :: 0 <= i < n ==> tools[i].Rated?)
    && (forall i, j :: 0 <= i < j < n && tools[i].Rated? && tools[j].Rated? ==> tools[i].name != tools[j].name)
  }

  ghost predicate AllOk(tools: seq<ToolRating>) {
    EachOk(tools, |tools|) && TotalNodes(tools, |tools|) <= MAX_SCHEMA_NODES
  }

  /** Exactly the names of the first `n` tools, and their schemas in order. */
  ghost predicate Delivers(tools: seq<ToolRating>, n: nat, names: set<string>, schemas: seq<Any>)
    requires n <= |tools|
  {
    && (forall name :: name in names <==> exists i :: 0 <= i < n && tools[i].Rated? && tools[i].name == name)
    && |schemas| == n && forall i :: 0 <= i < n ==> tools[i].Rated? && schemas[i] == tools[i].schema
  }

  /** Where the loop stands after `n` elements. */
  ghost predicate Through(tools: seq<ToolRating>, n: nat, names: set<string>, schemas: seq<Any>, left: int)
    requires n <= |tools|
  {
    EachOk(tools, n) && Delivers(tools, n, names, schemas) && 0 <= left == MAX_SCHEMA_NODES - TotalNodes(tools, n)
  }

  lemma Taken(tools: seq<ToolRating>, i: nat)
    requires i < |tools| && tools[i].Rated?
    ensures TotalNodes(tools, i + 1) == TotalNodes(tools, i) + tools[i].nodes
    ensures forall names, schemas, left ::
              Through(tools, i, names, schemas, left) && tools[i].name !in names && tools[i].nodes <= left ==>
                Through(tools, i + 1, names + {tools[i].name}, schemas + [tools[i].schema], left - tools[i].nodes)
  {
  }

  /** An element that is malformed, repeats a name or exceeds the budget dooms the list. */
  lemma NotTaken(tools: seq<ToolRating>, i: nat)
    requires i < |tools|
    requires tools[i].Rated? ==> !EachOk(tools, i + 1) || TotalNodes(tools, i) + tools[i].nodes > MAX_SCHEMA_NODES
    ensures !AllOk(tools)
  {
    TotalNodesGrow(tools, i + 1, |tools|);
  }

  /** A present list is accepted if it is bounded, each element is a well-formed tool, no name occurs
      twice, and all schemas together fit the budget. */
  ghost predicate Acceptable(tools: seq<Any>) {
    0 < |tools| <= MAX_TOOLS && AllOk(RateTools(tools))
  }

  /** `validateTools`: an absent list declares nothing; a present one is accepted exactly when it is
      acceptable, and each schema is then forwarded stripped. */
  method ValidateTools(value: Option<Any>) returns (r: Result<(set<string>, seq<Any>)>)
    ensures value.None? ==> r == Ok(({}, []))
    ensures value.Some? ==> (r.Ok? <==> value.value.Arr? && Acceptable(value.value.items))
    ensures value.Some? && r.Ok? ==>
              Delivers(RateTools(value.value.items), |value.value.items|, r.value.0, r.value.1)
  {
    if value.None? { return Ok(({}, [])); }
    if !value.value.Arr? { return Err; }
    var tools := value.value.items;
    if |tools| == 0 || |tools| > MAX_TOOLS { return Err; }
    ghost var ratings := RateTools(tools);
    var names: set<string> := {};
    var forwarded: seq<Any> := [];
    var budget := new Budget();
    for i := 0 to |tools|
      invariant Through(ratings, i, names, forwarded, budget.left)
      modifies budget
    {
      var tool := budget.ValidateTool(tools[i], ratings, i, names, forwarded);
      if tool.Err? { return Err; }
      names := names + {tool.value.0};
      forwarded := forwarded + [tool.value.1];
    }
    return Ok((names, forwarded));
  }
}
