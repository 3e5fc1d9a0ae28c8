// What template resolution guarantees: it is blind to secret values, and the schema-directed
// resolver refines plain interpolation.
module TemplateLaws {
  import opened Text
  import opened Json
  import opened Words
  import opened Template
  import Workflow

  // ------------------------------------------------------- names in reach

  /** The names a template can ask for: trimmed, and free of the closing braces. */
  predicate Observable(name: string) {
    Trim(name) == name && !Contains(name, "}}")
  }

  lemma OccurrenceInMiddle(a: string, m: string, z: string, p: string, i: int)
    requires OccursAt(m, p, i)
    ensures OccursAt(a + m + z, p, |a| + i)
  {
    assert (a + m + z)[|a| + i..|a| + i + |p|] == m[i..i + |p|];
  }

  lemma TrimKeepsAbsence(raw: string)
    requires !Contains(raw, "}}")
    ensures Observable(Trim(raw))
  {
    var lead, trail := TrimSplits(raw);
    FindIsLeftmost(Trim(raw), "}}");
    FindIsLeftmost(raw, "}}");
    if Contains(Trim(raw), "}}") {
      OccurrenceInMiddle(lead, Trim(raw), trail, "}}", Find(Trim(raw), "}}").index);
    }
  }

  lemma BeforeFirstClose(s: string)
    requires Find(s, "}}").At?
    ensures !Contains(s[..Find(s, "}}").index], "}}")
  {
    var end := Find(s, "}}").index;
    FindIsLeftmost(s, "}}");
    FindIsLeftmost(s[..end], "}}");
    assert "" + s[..end] + s[end..] == s;
    if Contains(s[..end], "}}") {
      OccurrenceInMiddle("", s[..end], s[end..], "}}", Find(s[..end], "}}").index);
    }
  }

  /** Whatever the interpolator or the exact form looks up is observable. */
  lemma PlaceholderNamesObservable(text: string)
    ensures StartsWith(text, "{{") && Find(text[2..], "}}").At? ==>
      Observable(Trim(text[2..2 + Find(text[2..], "}}").index]))
    ensures ExactPlaceholder(text).Some? ==> Observable(ExactPlaceholder(text).value)
  {
    if StartsWith(text, "{{") && Find(text[2..], "}}").At? {
      BeforeFirstClose(text[2..]);
      var end := Find(text[2..], "}}").index;
      assert text[2..][..end] == text[2..2 + end];
      TrimKeepsAbsence(text[2..2 + end]);
    }
    if ExactPlaceholder(text).Some? {
      var trimmed := Trim(text);
      TrimKeepsAbsence(trimmed[2..|trimmed| - 2]);
    }
  }

  // ---------------------------------------------------- secrets do not matter

  /**
   * Two scopes an observer may not tell apart: same names, same non-secret values, and the same
   * dotted paths resolve below the secrets. The secret values themselves are arbitrary.
   */
  ghost predicate LowEquivalent(a: View, b: View) {
    && a.secrets == b.secrets && a.codec == b.codec
    && a.vars.Keys == b.vars.Keys
    && (forall n :: n in a.vars && n !in a.secrets ==> a.vars[n] == b.vars[n])
    && (forall name :: Observable(name) ==> (LookupValue(a, name).Some? <==> LookupValue(b, name).Some?))
  }

  lemma LookupAgrees(a: View, b: View, name: string)
    requires LowEquivalent(a, b) && Observable(name)
    ensures LookupValue(a, name) == LookupValue(b, name)
  {
    var head := Split(name, '.')[0];
    if head in a.vars && head in a.secrets {
      assert LookupValue(a, name).Some? <==> LookupValue(b, name).Some?;
    }
  }

  lemma {:induction false} InterpolateBlind(a: View, b: View, text: string)
    requires LowEquivalent(a, b)
    ensures Interpolate(a, text) == Interpolate(b, text)
    decreases |text|
  {
    if text != "" {
      PlaceholderNamesObservable(text);
      if StartsWith(text, "{{") && Find(text[2..], "}}").At? {
        LookupAgrees(a, b, Trim(text[2..2 + Find(text[2..], "}}").index]));
      }
      assert PlaceholderAt(a, text) == PlaceholderAt(b, text);
      match PlaceholderAt(a, text)
      case Hit(v, length) => InterpolateBlind(a, b, text[length..]);
      case NoHit => InterpolateBlind(a, b, text[1..]);
    }
  }

  lemma {:induction false} ResolveValueBlind(a: View, b: View, v: Value)
    requires LowEquivalent(a, b)
    ensures ResolveValue(a, v) == ResolveValue(b, v)
  {
    match v
    case Str(text) => InterpolateBlind(a, b, text);
    case Arr(items) =>
      forall i | 0 <= i < |items| { ResolveValueBlind(a, b, items[i]); }
    case Obj(fields) =>
      forall k | k in fields { ResolveValueBlind(a, b, fields[k]); }
    case _ =>
  }

  lemma {:induction false} ResolveConfigBlind(a: View, b: View, v: Value, schema: Option<Value>)
    requires LowEquivalent(a, b)
    ensures ResolveConfig(a, v, schema) == ResolveConfig(b, v, schema)
    decreases v
  {
    match v
    case Str(text) =>
      InterpolateBlind(a, b, text);
      PlaceholderNamesObservable(text);
      if ExactPlaceholder(text).Some? {
        LookupAgrees(a, b, ExactPlaceholder(text).value);
      }
    case Arr(items) =>
      forall i | 0 <= i < |items| { ResolveConfigBlind(a, b, items[i], Get(schema, "items")); }
    case Obj(fields) =>
      forall k | k in fields { ResolveConfigBlind(a, b, fields[k], ChildSchema(schema, k)); }
    case _ =>
  }

  lemma RedactedBlind(a: View, b: View)
    requires LowEquivalent(a, b)
    ensures RedactedVariables(a) == RedactedVariables(b)
  {
  }

  /** Non-interference: nothing any resolver or the redacted scope shows depends on a secret value. */
  lemma SecretsDoNotInterfere(a: View, b: View)
    requires LowEquivalent(a, b)
    ensures forall text :: Interpolate(a, text) == Interpolate(b, text)
    ensures forall v :: ResolveValue(a, v) == ResolveValue(b, v)
    ensures forall v, schema :: ResolveConfig(a, v, schema) == ResolveConfig(b, v, schema)
    ensures RedactedVariables(a) == RedactedVariables(b)
  {
    forall text { InterpolateBlind(a, b, text); }
    forall v { ResolveValueBlind(a, b, v); }
    forall v, schema { ResolveConfigBlind(a, b, v, schema); }
    RedactedBlind(a, b);
  }

  // -------------------------------------------- and nothing weaker suffices

  /** A template that asks for exactly `name`. */
  function Probe(name: string): string {
    "{{" + name + " }}"
  }

  predicate ClosesAt(s: string, i: int) {
    0 <= i && i + 2 <= |s| && s[i] == '}' && s[i + 1] == '}'
  }

  lemma OccursClose(s: string, i: int)
    ensures OccursAt(s, "}}", i) <==> ClosesAt(s, i)
  {
    if 0 <= i && i + 2 <= |s| {
      assert s[i..i + 2] == [s[i], s[i + 1]];
    }
  }

  lemma FindClose(s: string, k: nat)
    requires ClosesAt(s, k) && forall i :: 0 <= i < k ==> !ClosesAt(s, i)
    ensures Find(s, "}}") == At(k)
  {
    FindIsLeftmost(s, "}}");
    OccursClose(s, k);
    var found := Find(s, "}}");
    assert found.At?;
    OccursClose(s, found.index);
  }

  lemma AbsentNeverCloses(s: string)
    requires !Contains(s, "}}")
    ensures forall i :: !ClosesAt(s, i)
  {
    FindIsLeftmost(s, "}}");
    forall i ensures !ClosesAt(s, i) {
      OccursClose(s, i);
    }
  }

  /** The first closing braces after a placeholder body are the ones that end it. */
  lemma CloseAtEnd(inner: string, tail: string)
    requires forall i :: !ClosesAt(inner, i)
    requires inner != "" ==> inner[|inner| - 1] != '}'
    ensures Find(inner + "}}" + tail, "}}") == At(|inner|)
  {
    var s := inner + "}}" + tail;
    forall i | 0 <= i < |inner| ensures !ClosesAt(s, i) {
      assert !ClosesAt(inner, i);
    }
    FindClose(s, |inner|);
  }

  lemma ProbeAsks(c: View, name: string)
    requires Observable(name)
    ensures
      match LookupValue(c, name)
      case Some(v) => Interpolate(c, Probe(name)) == TemplateString(c.codec, v)
      case None => Interpolate(c, Probe(name)) != "" && Interpolate(c, Probe(name))[0] == '{'
  {
    hide LookupValue;
    var text := Probe(name);
    assert text[..2] == "{{" && text[2..] == (name + " ") + "}}" + "";
    AbsentNeverCloses(name);
    forall i ensures !ClosesAt(name + " ", i) {
      assert !ClosesAt(name, i);
    }
    CloseAtEnd(name + " ", "");
    var raw := text[2..2 + |name| + 1];
    assert raw == "" + name + " ";
    var lead, trail := TrimSplits(name);
    TrimPadded("", name, " ");
    match LookupValue(c, name)
    case Some(v) =>
      assert PlaceholderAt(c, text) == Hit(v, |text|);
      assert text[|text|..] == "";
      assert Interpolate(c, "") == "";
    case None =>
      assert PlaceholderAt(c, text) == NoHit;
  }

  lemma RedactedShowsPublic(a: View, b: View, n: string)
    requires a.secrets == b.secrets && RedactedVariables(a) == RedactedVariables(b)
    requires n in a.vars && n !in a.secrets
    ensures n in b.vars && a.vars[n] == b.vars[n]
  {
    assert n in RedactedVariables(a);
    assert RedactedVariables(a)[n] == RedactedVariables(b)[n];
  }

  lemma SameKeysFromRedacted(a: View, b: View)
    requires RedactedVariables(a) == RedactedVariables(b)
    ensures a.vars.Keys == b.vars.Keys
  {
    assert a.vars.Keys == RedactedVariables(a).Keys;
    assert b.vars.Keys == RedactedVariables(b).Keys;
  }

  lemma LookupHeadAgrees(a: View, b: View, name: string)
    requires a.secrets == b.secrets && a.codec == b.codec && a.vars.Keys == b.vars.Keys
    requires forall n :: n in a.vars && n !in a.secrets ==> a.vars[n] == b.vars[n]
    requires Observable(name) && Interpolate(a, Probe(name)) == Interpolate(b, Probe(name))
    ensures LookupValue(a, name).Some? ==> LookupValue(b, name).Some?
  {
    var head := Split(name, '.')[0];
    if head in a.vars && head in a.secrets {
      ProbeAsks(a, name);
      ProbeAsks(b, name);
    }
  }

  ghost predicate SameText(a: View, b: View) {
    forall text :: Interpolate(a, text) == Interpolate(b, text)
  }

  lemma IndistinguishableIsLowEquivalent(a: View, b: View)
    requires a.secrets == b.secrets && a.codec == b.codec
    requires RedactedVariables(a) == RedactedVariables(b)
    requires SameText(a, b)
    ensures LowEquivalent(a, b)
  {
    SameKeysFromRedacted(a, b);
    forall n | n in a.vars && n !in a.secrets ensures a.vars[n] == b.vars[n] {
      RedactedShowsPublic(a, b, n);
    }
    forall n | n in b.vars && n !in b.secrets ensures a.vars[n] == b.vars[n] {
      RedactedShowsPublic(a, b, n);
    }
    forall name | Observable(name) ensures LookupValue(a, name).Some? <==> LookupValue(b, name).Some? {
      assert Interpolate(a, Probe(name)) == Interpolate(b, Probe(name));
      LookupHeadAgrees(a, b, name);
      LookupHeadAgrees(b, a, name);
    }
  }

  /**
   * Exactness: the equivalence is precisely what an observer of the redacted scope and of all
   * interpolations can determine. In particular the shape of a secret stays visible.
   */
  lemma IndistinguishableIffLowEquivalent(a: View, b: View)
    requires a.secrets == b.secrets && a.codec == b.codec
    ensures LowEquivalent(a, b) <==>
      RedactedVariables(a) == RedactedVariables(b) && SameText(a, b)
  {
    if LowEquivalent(a, b) {
      SecretsDoNotInterfere(a, b);
    } else if RedactedVariables(a) == RedactedVariables(b) && SameText(a, b) {
      IndistinguishableIsLowEquivalent(a, b);
    }
  }

  // ---------------------------------------- refinement of plain interpolation

  /** Every string leaf is either not an exact placeholder or one that does not resolve. */
  ghost predicate NoExactLeaf(c: View, v: Value) {
    match v
    case Str(text) => ExactPlaceholder(text).Some? ==> LookupValue(c, ExactPlaceholder(text).value).None?
    case Arr(items) => forall i :: 0 <= i < |items| ==> NoExactLeaf(c, items[i])
    case Obj(fields) => forall k :: k in fields ==> NoExactLeaf(c, fields[k])
    case _ => true
  }

  /** Without resolvable exact placeholders the schema is irrelevant. */
  lemma {:induction false} ConfigWithoutExactLeaves(c: View, v: Value, schema: Option<Value>)
    requires NoExactLeaf(c, v)
    ensures ResolveConfig(c, v, schema) == ResolveValue(c, v)
    decreases v
  {
    match v
    case Arr(items) =>
      forall i | 0 <= i < |items| { ConfigWithoutExactLeaves(c, items[i], Get(schema, "items")); }
    case Obj(fields) =>
      forall k | k in fields { ConfigWithoutExactLeaves(c, fields[k], ChildSchema(schema, k)); }
    case _ =>
  }

  /** Same tree with only string leaves replaced: keys, lengths and the other scalars are untouched. */
  ghost predicate SameSkeleton(before: Value, after: Value) {
    match before
    case Str(_) => true
    case Arr(items) =>
      after.Arr? && |after.items| == |items| &&
      forall i :: 0 <= i < |items| ==> SameSkeleton(items[i], after.items[i])
    case Obj(fields) =>
      after.Obj? && after.fields.Keys == fields.Keys &&
      forall k :: k in fields ==> SameSkeleton(fields[k], after.fields[k])
    case _ => after == before
  }

  lemma {:induction false} ConfigKeepsSkeleton(c: View, v: Value, schema: Option<Value>)
    ensures SameSkeleton(v, ResolveConfig(c, v, schema))
    decreases v
  {
    match v
    case Arr(items) =>
      forall i | 0 <= i < |items| { ConfigKeepsSkeleton(c, items[i], Get(schema, "items")); }
    case Obj(fields) =>
      forall k | k in fields { ConfigKeepsSkeleton(c, fields[k], ChildSchema(schema, k)); }
    case _ =>
  }

  lemma NotOpening(s: string)
    requires s != "" && s[0] != '{'
    ensures !StartsWith(s, "{{")
  {
    if |s| >= 2 {
      assert s[..2][0] == s[0] && "{{"[0] == '{';
    }
  }

  /** Text without an opening brace passes through, whatever follows it. */
  lemma {:induction false} InterpolateSkips(c: View, pre: string, rest: string)
    requires '{' !in pre
    ensures Interpolate(c, pre + rest) == pre + Interpolate(c, rest)
  {
    if pre == "" {
      assert pre + rest == rest;
    } else {
      assert pre[0] in pre && (pre + rest)[0] == pre[0];
      NotOpening(pre + rest);
      assert (pre + rest)[1..] == pre[1..] + rest;
      InterpolateSkips(c, pre[1..], rest);
    }
  }

  lemma WhiteHasNoBrace(s: string)
    requires AllWhite(s)
    ensures '{' !in s
  {
  }

  lemma EndsInThree(core: string, inner: string)
    requires core == "{{" + inner + "}}"
    ensures EndsWith(core, "}}}") <==> inner != "" && inner[|inner| - 1] == '}'
  {
    var tail := core[|core| - 3..];
    assert tail[1..] == "}}";
    if inner == "" {
      assert tail[0] == '{' && "}}}"[0] == '}';
    } else {
      assert tail[0] == inner[|inner| - 1];
      if inner[|inner| - 1] == '}' {
        assert tail == [tail[0]] + tail[1..];
      }
    }
  }

  lemma PlaceholderFound(c: View, inner: string, trail: string, v: Value)
    requires !Contains(inner, "}}") && (inner != "" ==> inner[|inner| - 1] != '}')
    requires LookupValue(c, Trim(inner)) == Workflow.Some(v)
    ensures PlaceholderAt(c, "{{" + inner + "}}" + trail) == Hit(v, |inner| + 4)
  {
    var rest := "{{" + inner + "}}" + trail;
    assert rest[..2] == "{{" && rest[2..] == inner + "}}" + trail;
    AbsentNeverCloses(inner);
    CloseAtEnd(inner, trail);
    assert rest[2..2 + |inner|] == inner;
  }

  /** A well-formed placeholder between brace-free margins is replaced, margins kept. */
  lemma PlaceholderBetweenMargins(c: View, lead: string, inner: string, trail: string, v: Value)
    requires '{' !in lead && '{' !in trail
    requires !Contains(inner, "}}") && (inner != "" ==> inner[|inner| - 1] != '}')
    requires LookupValue(c, Trim(inner)) == Workflow.Some(v)
    ensures Interpolate(c, lead + "{{" + inner + "}}" + trail) == lead + TemplateString(c.codec, v) + trail
  {
    hide Interpolate, PlaceholderAt, LookupValue, Trim, Contains;
    var rest := "{{" + inner + "}}" + trail;
    assert lead + "{{" + inner + "}}" + trail == lead + rest;
    InterpolateSkips(c, lead, rest);
    PlaceholderFound(c, inner, trail, v);
    InterpolateHit(c, rest, v, |inner| + 4);
    assert rest[|inner| + 4..] == trail && trail + "" == trail;
    InterpolateSkips(c, trail, "");
    InterpolateEmpty(c);
  }

  lemma InterpolateHit(c: View, text: string, v: Value, length: nat)
    requires PlaceholderAt(c, text) == Hit(v, length)
    ensures Interpolate(c, text) == TemplateString(c.codec, v) + Interpolate(c, text[length..])
  {
    hide PlaceholderAt, LookupValue, TemplateString;
  }

  /** Text without an opening pair of braces is a fixed point of interpolation. */
  lemma InterpolatePlain(c: View, text: string)
    requires !Contains(text, "{{")
    ensures Interpolate(c, text) == text
  {
    DoubledIsContained(text, '{');
    NothingOpens(c, text);
  }

  lemma {:induction false} NothingOpens(c: View, text: string)
    requires !Doubled(text, '{')
    ensures Interpolate(c, text) == text
  {
    hide LookupValue;
    if text != "" {
      var rest := text[1..];
      forall i | 0 <= i < |rest| - 1 ensures !(rest[i] == '{' && rest[i + 1] == '{') {
        assert rest[i] == text[i + 1] && rest[i + 1] == text[i + 1 + 1];
      }
      assert !StartsWith(text, "{{") by {
        OpeningIsDoubled(text);
      }
      NothingOpens(c, rest);
    }
  }

  lemma OpeningIsDoubled(s: string)
    ensures StartsWith(s, "{{") ==> Doubled(s, '{')
  {
    if StartsWith(s, "{{") {
      assert s[..2][0] == s[0] && s[..2][1] == s[1];
      assert s[0] == '{' && s[0 + 1] == '{';
    }
  }

  lemma ExactShape(text: string) returns (inner: string)
    requires ExactPlaceholder(text).Some?
    ensures Trim(text) == "{{" + inner + "}}" && !Contains(inner, "}}")
    ensures ExactPlaceholder(text).value == Trim(inner)
  {
    hide Trim, Contains;
    var core := Trim(text);
    inner := core[2..|core| - 2];
    assert core[2..][|core| - 4..] == core[|core| - 2..];
  }

  /** An exact placeholder interpolates to its value between the surrounding white space. */
  lemma ExactInterpolates(c: View, text: string, v: Value) returns (lead: string, trail: string)
    requires ExactPlaceholder(text).Some? && LookupValue(c, ExactPlaceholder(text).value) == Workflow.Some(v)
    requires !EndsWith(Trim(text), "}}}")
    ensures text == lead + Trim(text) + trail
    ensures Interpolate(c, text) == lead + TemplateString(c.codec, v) + trail
  {
    hide ExactPlaceholder, Interpolate, LookupValue, Trim, Contains, EndsWith, TemplateString;
    lead, trail := TrimSplits(text);
    var inner := ExactShape(text);
    EndsInThree(Trim(text), inner);
    WhiteHasNoBrace(lead);
    WhiteHasNoBrace(trail);
    assert text == lead + "{{" + inner + "}}" + trail;
    PlaceholderBetweenMargins(c, lead, inner, trail, v);
  }

  lemma RendersAsText(c: View, text: string, v: Value, schema: Option<Value>)
    requires ExactPlaceholder(text).Some? && LookupValue(c, ExactPlaceholder(text).value) == Workflow.Some(v)
    requires !EndsWith(Trim(text), "}}}")
    requires SchemaTypes(schema).Some? && "string" in SchemaTypes(schema).value
    ensures ResolveConfig(c, Str(text), schema) == Str(Interpolate(c, text)) <==> v != Null && Trim(text) == text
  {
    var lead, trail := ExactInterpolates(c, text, v);
    assert ResolveConfig(c, Str(text), schema) == if v == Null then Null else Str(TemplateString(c.codec, v));
    MarginsShow(lead, Trim(text), trail);
    MarginsShow(lead, TemplateString(c.codec, v), trail);
  }

  /** In every scope in which the placeholder has a value, a string field holds the interpolated text. */
  ghost predicate AlwaysText(text: string, schema: Option<Value>)
    requires ExactPlaceholder(text).Some?
  {
    forall c: View, v :: LookupValue(c, ExactPlaceholder(text).value) == Workflow.Some(v) && v != Null ==>
      ResolveConfig(c, Str(text), schema) == Str(Interpolate(c, text))
  }

  function Nest(path: seq<string>, v: Value): Value
    decreases |path|
  {
    if path == [] then v else Obj(map[path[0] := Nest(path[1..], v)])
  }

  lemma {:induction false} WalkNest(path: seq<string>, v: Value)
    ensures Walk(Nest(path, v), path) == Workflow.Some(v)
    decreases |path|
  {
    if path != [] {
      WalkNest(path[1..], v);
    }
  }

  /** A scope in which a given name has a given value. */
  function ScopeWith(name: string, v: Value): View {
    var segments := Split(name, '.');
    View(map[segments[0] := Nest(segments[1..], v)], {}, Codec(_ => "", _ => Workflow.None))
  }

  lemma ScopeWithHolds(name: string, v: Value)
    ensures LookupValue(ScopeWith(name, v), name) == Workflow.Some(v)
  {
    WalkNest(Split(name, '.')[1..], v);
  }

  /** Where three braces close, the last one is never part of a placeholder. */
  lemma {:induction false} ThirdBraceStays(c: View, body: string, trail: string)
    requires !Contains(body, "}}") && (body != "" ==> body[|body| - 1] != '}')
    ensures Interpolate(c, body + "}}}" + trail) != ""
  {
    hide LookupValue, TemplateString;
    var text := body + "}}}" + trail;
    var hit := PlaceholderAt(c, text);
    if hit.Hit? {
      assert hit.length == |body| + 2 by {
        ClosesAtBody(c, body, trail);
      }
      assert text[hit.length..] == "}" + trail;
      NotOpening("}" + trail);
    }
  }

  lemma OpensInBody(body: string, trail: string)
    requires StartsWith(body + "}}}" + trail, "{{")
    ensures |body| >= 2
  {
    var text := body + "}}}" + trail;
    assert text[..2][0] == text[0] && text[..2][1] == text[1];
    assert forall k :: |body| <= k < 2 ==> text[k] == '}';
  }

  lemma ClosesAtBody(c: View, body: string, trail: string)
    requires !Contains(body, "}}") && (body != "" ==> body[|body| - 1] != '}')
    requires PlaceholderAt(c, body + "}}}" + trail).Hit?
    ensures PlaceholderAt(c, body + "}}}" + trail).length == |body| + 2
  {
    hide LookupValue;
    var text := body + "}}}" + trail;
    OpensInBody(body, trail);
    var inner := body[2..];
    FindIsLeftmost(body, "}}");
    FindIsLeftmost(inner, "}}");
    assert body == body[..2] + inner + "";
    if Contains(inner, "}}") {
      OccurrenceInMiddle(body[..2], inner, "", "}}", Find(inner, "}}").index);
    }
    AbsentNeverCloses(inner);
    CloseAtEnd(inner, "}" + trail);
    assert text[2..] == inner + "}}" + ("}" + trail);
  }

  /** Three closing braces: no scope that gives the placeholder the empty text makes the two agree. */
  lemma ThreeBracesDisagree(c: View, text: string, schema: Option<Value>)
    requires ExactPlaceholder(text).Some? && EndsWith(Trim(text), "}}}")
    requires LookupValue(c, ExactPlaceholder(text).value) == Workflow.Some(Str(""))
    requires SchemaTypes(schema).Some? && "string" in SchemaTypes(schema).value
    ensures ResolveConfig(c, Str(text), schema) == Str("") && Interpolate(c, text) != ""
  {
    hide ExactPlaceholder, Interpolate, LookupValue, Trim, Contains, EndsWith;
    var lead, trail := TrimSplits(text);
    var inner := ExactShape(text);
    EndsInThree(Trim(text), inner);
    WhiteHasNoBrace(lead);
    var body := "{{" + inner[..|inner| - 1];
    BodyOfThree(inner);
    assert inner == inner[..|inner| - 1] + "}";
    assert Trim(text) == body + "}}}";
    InterpolateSkips(c, lead, body + "}}}" + trail);
    assert text == lead + (body + "}}}" + trail);
    ThirdBraceStays(c, body, trail);
  }

  lemma BodyOfThree(inner: string)
    requires inner != "" && inner[|inner| - 1] == '}' && !Contains(inner, "}}")
    ensures
      var body := "{{" + inner[..|inner| - 1];
      !Contains(body, "}}") && body[|body| - 1] != '}'
  {
    var body := "{{" + inner[..|inner| - 1];
    DoubledIsContained(inner, '}');
    DoubledIsContained(body, '}');
    assert forall k :: 2 <= k < |body| ==> body[k] == inner[k - 2];
    forall i | 0 <= i < |body| - 1 ensures !(body[i] == '}' && body[i + 1] == '}') {
      assert i >= 2 ==> !(inner[i - 2] == '}' && inner[i - 2 + 1] == '}');
    }
    assert |inner| >= 2 ==> body[|body| - 1] == inner[|inner| - 2];
  }

  /**
   * String fields: an exact placeholder becomes the interpolated text, whatever non-null value it has,
   * exactly if it needs no trimming and does not close with three braces.
   */
  lemma StringFieldsRenderAsText(text: string, schema: Option<Value>)
    requires ExactPlaceholder(text).Some?
    requires SchemaTypes(schema).Some? && "string" in SchemaTypes(schema).value
    ensures AlwaysText(text, schema) <==> Trim(text) == text && !EndsWith(Trim(text), "}}}")
  {
    hide ExactPlaceholder, Interpolate, LookupValue, Trim, ResolveConfig, ScopeWith, EndsWith;
    var name := ExactPlaceholder(text).value;
    if EndsWith(Trim(text), "}}}") {
      ScopeWithHolds(name, Str(""));
      ThreeBracesDisagree(ScopeWith(name, Str("")), text, schema);
    } else if Trim(text) != text {
      ScopeWithHolds(name, Str(""));
      RendersAsText(ScopeWith(name, Str("")), text, Str(""), schema);
    } else {
      forall c: View, v | LookupValue(c, name) == Workflow.Some(v) && v != Null
        ensures ResolveConfig(c, Str(text), schema) == Str(Interpolate(c, text))
      {
        RendersAsText(c, text, v, schema);
      }
    }
  }

  lemma MarginsShow(lead: string, core: string, trail: string)
    ensures lead + core + trail == core <==> lead == "" && trail == ""
  {
    if lead + core + trail == core {
      assert |lead| + |core| + |trail| == |core|;
    }
  }

  /** The text spells a value of the first scalar type that the schema names. */
  predicate Spells(codec: Codec, types: seq<string>, s: string) {
    if "integer" in types then ParseI64(s).Some?
    else if "number" in types then codec.parseFloat(s).Some?
    else "boolean" in types && (LowerAscii(s) == "true" || LowerAscii(s) == "false")
  }

  /**
   * A typed field keeps the value it is given: only text that spells a value of the first type the
   * schema names is converted, to the value it spells; everything else stays as it is.
   */
  lemma TypedFieldsKeepValue(c: View, text: string, v: Value, schema: Option<Value>)
    requires ExactPlaceholder(text).Some? && LookupValue(c, ExactPlaceholder(text).value) == Workflow.Some(v)
    requires SchemaTypes(schema).None? || "string" !in SchemaTypes(schema).value
    ensures
      var r := ResolveConfig(c, Str(text), schema);
      var converts := SchemaTypes(schema).Some? && v.Str? && Spells(c.codec, SchemaTypes(schema).value, v.s);
      && (r == v <==> !converts)
      && (converts ==>
            var types := SchemaTypes(schema).value;
            r == if "integer" in types then Num(Integral(ParseI64(v.s).value))
                 else if "number" in types then Num(c.codec.parseFloat(v.s).value)
                 else Bool(LowerAscii(v.s) == "true"))
  {
    hide LookupValue, ExactPlaceholder, Interpolate;
  }

  // ------------------------------------------------------ typed numerals

  function Numeral(i: int): string {
    if i < 0 then "-" + Decimal(-i) else Decimal(i)
  }

  lemma {:induction false} DigitsValueSnoc(s: string, d: char, acc: nat)
    ensures DigitsValue(s + [d], acc) ==
      if DigitsValue(s, acc).Some? && '0' <= d <= '9'
      then Workflow.Some(10 * DigitsValue(s, acc).value + (d as int - '0' as int)) else Workflow.None
  {
    if s == "" {
      assert s + [d] == [d] && [d][1..] == "";
    } else {
      assert (s + [d])[1..] == s[1..] + [d];
      if '0' <= s[0] <= '9' {
        DigitsValueSnoc(s[1..], d, 10 * acc + (s[0] as int - '0' as int));
      }
    }
  }

  lemma {:induction false} DecimalParses(n: nat)
    ensures DigitsValue(Decimal(n), 0) == Workflow.Some(n)
    ensures Decimal(n) != "" && '0' <= Decimal(n)[0] <= '9'
  {
    if n < 10 {
      assert Decimal(n)[1..] == "";
    } else {
      DecimalParses(n / 10);
      DigitsValueSnoc(Decimal(n / 10), Digit(n % 10), 0);
    }
  }

  /** Numerals parse to their number exactly when it fits a signed 64-bit word. */
  lemma NumeralsParse(i: int)
    ensures ParseI64(Numeral(i)) == if I64_MIN <= i < -I64_MIN then Workflow.Some(i) else Workflow.None
  {
    var n := if i < 0 then -i else i;
    DecimalParses(n);
    if i < 0 {
      assert ("-" + Decimal(n))[1..] == Decimal(n);
    }
  }

  /** Text in an integer field becomes the number it spells; a numeral that does not fit stays text. */
  lemma IntegerFieldsReadNumerals(codec: Codec, schema: Option<Value>, i: int)
    requires SchemaTypes(schema).Some? && "integer" in SchemaTypes(schema).value && "string" !in SchemaTypes(schema).value
    ensures Coerce(codec, Str(Numeral(i)), schema) ==
      if I64_MIN <= i < -I64_MIN then Num(Integral(i)) else Str(Numeral(i))
  {
    hide ParseI64, Numeral;
    NumeralsParse(i);
  }
}
