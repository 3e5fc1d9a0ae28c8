// Resolving a whole node configuration: every leaf, wherever it stands, is resolved by the part of the
// schema that its own path leads to.
module ConfigLaws {
  import opened Text
  import opened Json
  import opened Words
  import opened Template
  import opened TemplateLaws
  import opened PlaceholderLaws
  import Workflow

  datatype Hop = Key(name: string) | Item(index: nat)

  /** What stands in a value at the end of a path. */
  function Inside(v: Value, path: seq<Hop>): Option<Value>
    decreases |path|
  {
    if path == [] then Workflow.Some(v)
    else
      match path[0]
      case Key(name) => if v.Obj? && name in v.fields then Inside(v.fields[name], path[1..]) else Workflow.None
      case Item(i) => if v.Arr? && i < |v.items| then Inside(v.items[i], path[1..]) else Workflow.None
  }

  /**
   * The schema one step further down: a property named in `properties`, else an object given as
   * `additionalProperties`; for the elements of an array what is given as `items`.
   */
  function Under(schema: Option<Value>, hop: Hop): Option<Value> {
    match schema
    case Some(Obj(fields)) =>
      (match hop
       case Key(name) =>
         if "properties" in fields && fields["properties"].Obj? && name in fields["properties"].fields
         then Workflow.Some(fields["properties"].fields[name])
         else if "additionalProperties" in fields && fields["additionalProperties"].Obj?
         then Workflow.Some(fields["additionalProperties"])
         else Workflow.None
       case Item(_) => if "items" in fields then Workflow.Some(fields["items"]) else Workflow.None)
    case _ => Workflow.None
  }

  /** The schema that governs what stands at the end of a path. */
  function Governing(schema: Option<Value>, path: seq<Hop>): Option<Value>
    decreases |path|
  {
    if path == [] then schema else Governing(Under(schema, path[0]), path[1..])
  }

  /** Whatever stands at a path is resolved, in place, by the schema that governs the path. */
  lemma {:induction false} ResolvedInPlace(c: View, v: Value, schema: Option<Value>, path: seq<Hop>)
    requires Inside(v, path).Some?
    ensures Inside(ResolveConfig(c, v, schema), path) ==
      Workflow.Some(ResolveConfig(c, Inside(v, path).value, Governing(schema, path)))
    decreases |path|
  {
    hide ResolveString;
    if path != [] {
      match path[0]
      case Key(name) =>
        assert Under(schema, path[0]) == ChildSchema(schema, name);
        ResolvedInPlace(c, v.fields[name], Under(schema, path[0]), path[1..]);
      case Item(i) =>
        assert Under(schema, path[0]) == Get(schema, "items");
        ResolvedInPlace(c, v.items[i], Under(schema, path[0]), path[1..]);
    }
  }

  /** The schema allows values of the kind: its `type` is the kind, or a list with the kind in it. */
  predicate Accepts(schema: Option<Value>, kind: string) {
    match schema
    case Some(Obj(fields)) =>
      "type" in fields && (fields["type"] == Str(kind) || (fields["type"].Arr? && Str(kind) in fields["type"].items))
    case _ => false
  }

  lemma TypesAreAccepted(schema: Option<Value>, kind: string)
    ensures (SchemaTypes(schema).Some? && kind in SchemaTypes(schema).value) <==> Accepts(schema, kind)
  {
    if Get(schema, "type").Some? && Get(schema, "type").value.Arr? {
      StringsHold(Get(schema, "type").value.items, kind);
    }
  }

  /** The first of these kinds that the schema allows decides what becomes of a value. */
  ghost predicate Becomes(codec: Codec, v: Value, schema: Option<Value>, r: Value) {
    if v == Null then r == v
    else if Accepts(schema, "string") then r.Str? && ReadsAs(codec, v, r.s)
    else if !v.Str? then r == v
    else if Accepts(schema, "integer") then
      r == if ParseI64(v.s).Some? then Num(Integral(ParseI64(v.s).value)) else v
    else if Accepts(schema, "number") then
      r == if codec.parseFloat(v.s).Some? then Num(codec.parseFloat(v.s).value) else v
    else if Accepts(schema, "boolean") then
      r == if LowerAscii(v.s) == "true" then Bool(true) else if LowerAscii(v.s) == "false" then Bool(false) else v
    else r == v
  }

  lemma CoercedBecomes(codec: Codec, v: Value, schema: Option<Value>)
    ensures Becomes(codec, v, schema, Coerce(codec, v, schema))
  {
    hide ParseI64, LowerAscii, Accepts, SchemaTypes;
    TypesAreAccepted(schema, "string");
    TypesAreAccepted(schema, "integer");
    TypesAreAccepted(schema, "number");
    TypesAreAccepted(schema, "boolean");
  }

  /**
   * A text leaf that asks for one name, at any path of any configuration, becomes what the name leads to,
   * as the schema at its own path would have it; a null stays null, and without a type the value is kept.
   */
  lemma PlaceholderLeaves(c: View, config: Value, schema: Option<Value>, path: seq<Hop>, text: string, name: string, v: Value)
    returns (r: Value)
    requires Inside(config, path) == Workflow.Some(Str(text)) && Asks(text, name) && LookupValue(c, name) == Workflow.Some(v)
    ensures Inside(ResolveConfig(c, config, schema), path) == Workflow.Some(r)
    ensures Becomes(c.codec, v, Governing(schema, path), r)
  {
    hide Coerce, Becomes, LookupValue, ExactPlaceholder, Asks, Interpolate;
    ResolvedInPlace(c, config, schema, path);
    ExactPlaceholdersAsk(text, name);
    CoercedBecomes(c.codec, v, Governing(schema, path));
    r := Coerce(c.codec, v, Governing(schema, path));
  }

  /** Every other text leaf holds its interpolated text, whatever the schema; other scalars stay as they are. */
  lemma OtherLeaves(c: View, config: Value, schema: Option<Value>, path: seq<Hop>, leaf: Value)
    requires Inside(config, path) == Workflow.Some(leaf) && !leaf.Obj? && !leaf.Arr?
    requires leaf.Str? ==> forall name :: Asks(leaf.s, name) ==> LookupValue(c, name).None?
    ensures Inside(ResolveConfig(c, config, schema), path) ==
      Workflow.Some(if leaf.Str? then Str(Interpolate(c, leaf.s)) else leaf)
  {
    hide LookupValue, ExactPlaceholder, Asks, Interpolate;
    ResolvedInPlace(c, config, schema, path);
    if leaf.Str? && ExactPlaceholder(leaf.s).Some? {
      ExactPlaceholdersAsk(leaf.s, ExactPlaceholder(leaf.s).value);
    }
  }

  /** An integer field anywhere in a configuration reads a numeral that fits; one that does not fit stays text. */
  lemma IntegerLeavesReadNumerals(c: View, config: Value, schema: Option<Value>, path: seq<Hop>, text: string, name: string,
                                  i: int)
    requires Inside(config, path) == Workflow.Some(Str(text)) && Asks(text, name)
    requires LookupValue(c, name) == Workflow.Some(Str(Numeral(i)))
    requires Accepts(Governing(schema, path), "integer") && !Accepts(Governing(schema, path), "string")
    ensures Inside(ResolveConfig(c, config, schema), path) ==
      Workflow.Some(if I64_MIN <= i < -I64_MIN then Num(Integral(i)) else Str(Numeral(i)))
  {
    hide ParseI64, Numeral, LookupValue, Asks;
    var r := PlaceholderLeaves(c, config, schema, path, text, name, Str(Numeral(i)));
    NumeralsParse(i);
  }

  /** In every scope in which the name leads to a value, the field at the path holds the interpolated text. */
  ghost predicate AlwaysTextAt(config: Value, schema: Option<Value>, path: seq<Hop>, text: string, name: string) {
    forall c: View, v :: LookupValue(c, name) == Workflow.Some(v) && v != Null ==>
      Inside(ResolveConfig(c, config, schema), path) == Workflow.Some(Str(Interpolate(c, text)))
  }

  /**
   * A string field anywhere in a configuration holds the text that interpolation would give it, whatever
   * non-null value its placeholder has, exactly if it needs no trimming and does not close with three braces.
   */
  lemma StringLeavesRenderAsText(config: Value, schema: Option<Value>, path: seq<Hop>, text: string, name: string)
    requires Inside(config, path) == Workflow.Some(Str(text)) && Asks(text, name)
    requires Accepts(Governing(schema, path), "string")
    ensures AlwaysTextAt(config, schema, path, text, name) <==> Trim(text) == text && !EndsWith(text, "}}}")
  {
    hide LookupValue, ExactPlaceholder, Asks, Interpolate, ResolveConfig, EndsWith, Trim, Accepts;
    ExactPlaceholdersAsk(text, name);
    TypesAreAccepted(Governing(schema, path), "string");
    StringFieldsRenderAsText(text, Governing(schema, path));
    if AlwaysText(text, Governing(schema, path)) {
      forall c: View, v | LookupValue(c, name) == Workflow.Some(v) && v != Null
        ensures Inside(ResolveConfig(c, config, schema), path) == Workflow.Some(Str(Interpolate(c, text)))
      {
        ResolvedInPlace(c, config, schema, path);
      }
    }
    if AlwaysTextAt(config, schema, path, text, name) {
      forall c: View, v | LookupValue(c, name) == Workflow.Some(v) && v != Null
        ensures ResolveConfig(c, Str(text), Governing(schema, path)) == Str(Interpolate(c, text))
      {
        ResolvedInPlace(c, config, schema, path);
        assert Inside(ResolveConfig(c, config, schema), path) == Workflow.Some(Str(Interpolate(c, text)));
      }
    }
  }
}
