// Placeholder resolution with secret masking: the lookup, the string interpolator and the
// schema-directed resolver, as functions of what a context can see.
module Template {
  import opened Text
  import opened Json
  import opened Words
  import Workflow

  type Option<T> = Workflow.Option<T>

  /** `render` is JSON text for non-string values; `parseFloat` accepts what a float literal may be. */
  datatype Codec = Codec(render: Value -> string, parseFloat: string -> Option<Number>)

  datatype View = View(vars: Scope, secrets: set<string>, codec: Codec)

  const MASK := Str("***")

  // --------------------------------------------------------------- lookup

  function Walk(v: Value, path: seq<string>): Option<Value>
    decreases |path|
  {
    if path == [] then Workflow.Some(v)
    else if v.Obj? && path[0] in v.fields then Walk(v.fields[path[0]], path[1..])
    else Workflow.None
  }

  function LookupValue(c: View, name: string): Option<Value> {
    var segments := Split(name, '.');
    var head := segments[0];
    if head !in c.vars then Workflow.None
    else
      match Walk(c.vars[head], segments[1..])
      case None => Workflow.None
      case Some(v) => Workflow.Some(if head in c.secrets then MASK else v)
  }

  function TemplateString(codec: Codec, v: Value): string {
    match v
    case Str(text) => text
    case Null => ""
    case _ => codec.render(v)
  }

  function RedactedVariables(c: View): Scope {
    map name | name in c.vars :: if name in c.secrets then MASK else c.vars[name]
  }

  // -------------------------------------------------------- interpolation

  /** The placeholder that starts at the front of `text` and resolves, if there is one. */
  datatype Hit = NoHit | Hit(value: Value, length: nat)

  function PlaceholderAt(c: View, text: string): (h: Hit)
    ensures h.Hit? ==> 4 <= h.length <= |text| && StartsWith(text, "{{")
  {
    if !StartsWith(text, "{{") then NoHit
    else
      match Find(text[2..], "}}")
      case Missing => NoHit
      case At(end) =>
        match LookupValue(c, Trim(text[2..2 + end]))
        case None => NoHit
        case Some(v) => Hit(v, 2 + end + 2)
  }

  /** Replaced text is not scanned again; anything that does not resolve is kept verbatim. */
  function Interpolate(c: View, text: string): string
    decreases |text|
  {
    if text == "" then ""
    else
      match PlaceholderAt(c, text)
      case Hit(v, length) => TemplateString(c.codec, v) + Interpolate(c, text[length..])
      case NoHit => [text[0]] + Interpolate(c, text[1..])
  }

  function ResolveValue(c: View, v: Value): Value {
    match v
    case Str(text) => Str(Interpolate(c, text))
    case Arr(items) => Arr(seq(|items|, i requires 0 <= i < |items| => ResolveValue(c, items[i])))
    case Obj(fields) => Obj(map k | k in fields :: ResolveValue(c, fields[k]))
    case _ => v
  }

  // ------------------------------------------------ schema-directed resolution

  function ExactPlaceholder(text: string): Option<string> {
    var trimmed := Trim(text);
    if !StartsWith(trimmed, "{{") || !EndsWith(trimmed[2..], "}}") then Workflow.None
    else
      var inner := trimmed[2..|trimmed| - 2];
      if Contains(inner, "{{") || Contains(inner, "}}") then Workflow.None
      else if Trim(inner) == "" then Workflow.None
      else Workflow.Some(Trim(inner))
  }

  function Get(schema: Option<Value>, key: string): Option<Value> {
    if schema.Some? && schema.value.Obj? && key in schema.value.fields
    then Workflow.Some(schema.value.fields[key]) else Workflow.None
  }

  function SchemaTypes(schema: Option<Value>): Option<seq<string>> {
    match Get(schema, "type")
    case Some(Str(kind)) => Workflow.Some([kind])
    case Some(Arr(kinds)) => Workflow.Some(Strings(kinds))
    case _ => Workflow.None
  }

  function DigitsValue(s: string, acc: nat): Option<nat> {
    if s == "" then Workflow.Some(acc)
    else if '0' <= s[0] <= '9' then DigitsValue(s[1..], 10 * acc + (s[0] as int - '0' as int))
    else Workflow.None
  }

  /** `str::parse::<i64>`: one optional sign, at least one digit, in range. */
  function ParseI64(s: string): Option<Integer> {
    var negative := s != "" && s[0] == '-';
    var digits := if s != "" && (s[0] == '-' || s[0] == '+') then s[1..] else s;
    if digits == "" then Workflow.None
    else
      match DigitsValue(digits, 0)
      case None => Workflow.None
      case Some(n) =>
        var signed := if negative then 0 - n as int else n as int;
        if I64_MIN <= signed < -I64_MIN then Workflow.Some(signed) else Workflow.None
  }

  function LowerAscii(s: string): string {
    seq(|s|, i requires 0 <= i < |s| => if 'A' <= s[i] <= 'Z' then (s[i] as int + 32) as char else s[i])
  }

  function Coerce(codec: Codec, v: Value, schema: Option<Value>): Value {
    match SchemaTypes(schema)
    case None => v
    case Some(types) =>
      if v == Null then v
      else if "string" in types then Str(TemplateString(codec, v))
      else if "integer" in types then
        if v.Str? && ParseI64(v.s).Some? then Num(Integral(ParseI64(v.s).value)) else v
      else if "number" in types then
        if v.Str? && codec.parseFloat(v.s).Some? then Num(codec.parseFloat(v.s).value) else v
      else if "boolean" in types && v.Str? && LowerAscii(v.s) == "true" then Bool(true)
      else if "boolean" in types && v.Str? && LowerAscii(v.s) == "false" then Bool(false)
      else v
  }

  function ChildSchema(schema: Option<Value>, key: string): Option<Value> {
    var direct := Get(Get(schema, "properties"), key);
    var additional := Get(schema, "additionalProperties");
    if direct.Some? then direct
    else if additional.Some? && additional.value.Obj? then additional
    else Workflow.None
  }

  function ResolveString(c: View, text: string, schema: Option<Value>): Value {
    var name := ExactPlaceholder(text);
    if name.Some? && LookupValue(c, name.value).Some?
    then Coerce(c.codec, LookupValue(c, name.value).value, schema)
    else Str(Interpolate(c, text))
  }

  function ResolveConfig(c: View, v: Value, schema: Option<Value>): Value
    decreases v
  {
    match v
    case Str(text) => ResolveString(c, text, schema)
    case Arr(items) =>
      var item := Get(schema, "items");
      Arr(seq(|items|, i requires 0 <= i < |items| => ResolveConfig(c, items[i], item)))
    case Obj(fields) => Obj(map k | k in fields :: ResolveConfig(c, fields[k], ChildSchema(schema, k)))
    case _ => v
  }

  // ----------------------------------------------------- the run's context

  /** The part of an execution context that resolution reads and nodes write. */
  class ExecutionContext {
    var variables: Scope
    const secrets: set<string>
    const codec: Codec

    constructor (variables: Scope, secrets: set<string>, codec: Codec)
      ensures Sees() == View(variables, secrets, codec)
    {
      this.variables, this.secrets, this.codec := variables, secrets, codec;
    }

    function Sees(): View
      reads this
    {
      View(variables, secrets, codec)
    }

    /**
     * A variable is looked up under its own name, masked if it is secret, and shows under no name that
     * does not start with its own; one with a dot in its name is out of reach of every lookup.
     */
    method SetVariable(name: string, value: Value)
      modifies this
      ensures variables == old(variables)[name := value]
      ensures '.' !in name ==> LookupValue(Sees(), name) == Workflow.Some(if name in secrets then MASK else value)
      ensures forall query :: Split(query, '.')[0] != name ==> LookupValue(Sees(), query) == LookupValue(old(Sees()), query)
      ensures '.' in name ==> forall query :: LookupValue(Sees(), query) == LookupValue(old(Sees()), query)
    {
      PiecesHoldNoSeparator(name, '.');
      forall query: string ensures '.' !in Split(query, '.')[0] {
        PiecesHoldNoSeparator(query, '.');
      }
      variables := variables[name := value];
    }

    method LookupVariable(name: string) returns (r: Option<Value>)
      ensures r == LookupValue(Sees(), name)
    {
      var segments := Split(name, '.');
      var head := segments[0];
      if head !in variables {
        return Workflow.None;
      }
      var current := variables[head];
      for i := 1 to |segments|
        invariant Walk(current, segments[i..]) == Walk(variables[head], segments[1..])
      {
        assert segments[i..][1..] == segments[i + 1..];
        if !current.Obj? || segments[i] !in current.fields {
          return Workflow.None;
        }
        current := current.fields[segments[i]];
      }
      if head in secrets {
        return Workflow.Some(MASK);
      }
      return Workflow.Some(current);
    }

    /** Tries the placeholder that would start at the front of the remaining text. */
    method MatchPlaceholder(rest: string) returns (hit: Hit)
      ensures hit == PlaceholderAt(Sees(), rest)
    {
      if 2 <= |rest| && rest[0] == '{' && rest[1] == '{' {
        assert rest[..2] == "{{";
        var close := Find(rest[2..], "}}");
        if close.At? {
          var resolved := LookupVariable(Trim(rest[2..2 + close.index]));
          if resolved.Some? {
            return Hit(resolved.value, 2 + close.index + 2);
          }
        }
      }
      return NoHit;
    }

    /** Scans left to right with an index and an output buffer. */
    method InterpolateText(text: string) returns (result: string)
      ensures result == Interpolate(Sees(), text)
    {
      hide Interpolate, PlaceholderAt, LookupValue;
      result := "";
      var i := 0;
      assert text[0..] == text;
      while i < |text|
        invariant 0 <= i <= |text|
        invariant result + Interpolate(Sees(), text[i..]) == Interpolate(Sees(), text)
      {
        var hit := MatchPlaceholder(text[i..]);
        InterpolateUnfold(Sees(), text, i);
        if hit.Hit? {
          result := result + TemplateString(codec, hit.value);
          i := i + hit.length;
        } else {
          result := result + [text[i]];
          i := i + 1;
        }
      }
      InterpolateEmpty(Sees());
      assert text[i..] == "";
    }
  }

  lemma InterpolateEmpty(c: View)
    ensures Interpolate(c, "") == ""
  {
  }

  lemma InterpolateUnfold(c: View, text: string, i: nat)
    requires i < |text|
    ensures
      var hit := PlaceholderAt(c, text[i..]);
      var piece := if hit.Hit? then TemplateString(c.codec, hit.value) else [text[i]];
      var next := if hit.Hit? then i + hit.length else i + 1;
      next <= |text| &&
      forall done: string :: done + Interpolate(c, text[i..]) == (done + piece) + Interpolate(c, text[next..])
  {
    hide PlaceholderAt, LookupValue;
    var rest := text[i..];
    var hit := PlaceholderAt(c, rest);
    var width := if hit.Hit? then hit.length else 1;
    var piece := if hit.Hit? then TemplateString(c.codec, hit.value) else [text[i]];
    assert rest[width..] == text[i + width..];
    assert Interpolate(c, rest) == piece + Interpolate(c, rest[width..]);
    forall done: string ensures done + Interpolate(c, rest) == (done + piece) + Interpolate(c, text[i + width..]) {
    }
  }
}
