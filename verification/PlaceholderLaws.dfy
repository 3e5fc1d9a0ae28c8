// What placeholders mean: which text is one, what a dotted name leads to, and what takes the place of a
// placeholder inside other text.
module PlaceholderLaws {
  import opened Text
  import opened Json
  import opened Template
  import opened TemplateLaws
  import Workflow

  // ------------------------------------------------------- exact placeholders

  /**
   * The text asks for a variable and for nothing else: a name in double braces, with white space around the
   * braces and the name at most. The name has no white space at its ends and holds no double brace.
   */
  ghost predicate Asks(text: string, name: string) {
    exists lead, left, right, trail :: Surrounds(text, name, lead, left, right, trail)
  }

  predicate IsName(name: string) {
    name != "" && !IsWhite(name[0]) && !IsWhite(name[|name| - 1]) && !Contains(name, "{{") && !Contains(name, "}}")
  }

  ghost predicate Surrounds(text: string, name: string, lead: string, left: string, right: string, trail: string) {
    && AllWhite(lead) && AllWhite(left) && AllWhite(right) && AllWhite(trail)
    && text == lead + ("{{" + (left + name + right) + "}}") + trail && IsName(name)
  }

  /** White margins hold no brace, so they neither add nor hide a double one. */
  lemma MarginsHoldNoBrace(left: string, name: string, right: string, d: char)
    requires AllWhite(left) && AllWhite(right) && !IsWhite(d)
    ensures Doubled(left + name + right, d) <==> Doubled(name, d)
  {
    var s := left + name + right;
    if Doubled(s, d) {
      var i :| 0 <= i < |s| - 1 && s[i] == d && s[i + 1] == d;
      assert forall k :: 0 <= k < |left| ==> s[k] == left[k] && left[k] in left;
      assert forall k :: |left| + |name| <= k < |s| ==> s[k] == right[k - |left| - |name|] && right[k - |left| - |name|] in right;
      assert name[i - |left|] == d && name[i - |left| + 1] == d;
    }
    if Doubled(name, d) {
      var i :| 0 <= i < |name| - 1 && name[i] == d && name[i + 1] == d;
      assert s[|left| + i] == d && s[|left| + i + 1] == d;
    }
  }

  lemma SurroundedIsExact(text: string, name: string, lead: string, left: string, right: string, trail: string)
    requires Surrounds(text, name, lead, left, right, trail)
    ensures ExactPlaceholder(text) == Workflow.Some(name)
  {
    var inner := left + name + right;
    var core := "{{" + inner + "}}";
    hide Trim, Contains;
    TrimPadded(lead, core, trail);
    TrimPadded(left, name, right);
    assert core[..2] == "{{" && core[2..][|core| - 4..] == "}}" && core[2..|core| - 2] == inner;
    MarginsHoldNoBrace(left, name, right, '{');
    MarginsHoldNoBrace(left, name, right, '}');
    DoubledIsContained(inner, '{');
    DoubledIsContained(inner, '}');
    DoubledIsContained(name, '{');
    DoubledIsContained(name, '}');
  }

  lemma ExactIsSurrounded(text: string)
    requires ExactPlaceholder(text).Some?
    ensures Asks(text, ExactPlaceholder(text).value)
  {
    var name := ExactPlaceholder(text).value;
    var inner := ExactBody(text);
    hide ExactPlaceholder, Trim, Contains;
    var lead, trail := TrimSplits(text);
    var left, right := TrimSplits(inner);
    MarginsHoldNoBrace(left, name, right, '{');
    MarginsHoldNoBrace(left, name, right, '}');
    DoubledIsContained(inner, '{');
    DoubledIsContained(inner, '}');
    DoubledIsContained(name, '{');
    DoubledIsContained(name, '}');
    assert Surrounds(text, name, lead, left, right, trail);
  }

  lemma ExactBody(text: string) returns (inner: string)
    requires ExactPlaceholder(text).Some?
    ensures Trim(text) == "{{" + inner + "}}" && !Contains(inner, "{{") && !Contains(inner, "}}")
    ensures ExactPlaceholder(text).value == Trim(inner) != ""
  {
    hide Trim, Contains;
    var core := Trim(text);
    inner := core[2..|core| - 2];
    assert core[2..][|core| - 4..] == core[|core| - 2..];
  }

  /** Exact placeholders are exactly the texts that ask for one name. */
  lemma ExactPlaceholdersAsk(text: string, name: string)
    ensures ExactPlaceholder(text) == Workflow.Some(name) <==> Asks(text, name)
  {
    hide ExactPlaceholder, Surrounds;
    if ExactPlaceholder(text).Some? {
      ExactIsSurrounded(text);
    }
    if Asks(text, name) {
      var lead, left, right, trail :| Surrounds(text, name, lead, left, right, trail);
      SurroundedIsExact(text, name, lead, left, right, trail);
    }
  }

  // ------------------------------------------------------------- dotted names

  /** The scope as it is, nothing masked. */
  function Bare(c: View): View {
    View(c.vars, {}, c.codec)
  }

  lemma {:induction false} WalkSnoc(v: Value, path: seq<string>, segment: string)
    ensures
      var before := Walk(v, path);
      Walk(v, path + [segment]) ==
        if before.Some? && before.value.Obj? && segment in before.value.fields
        then Workflow.Some(before.value.fields[segment]) else Workflow.None
    decreases |path|
  {
    if path == [] {
      assert path + [segment] == [segment] && [segment][1..] == [];
    } else {
      assert (path + [segment])[1..] == path[1..] + [segment];
      if v.Obj? && path[0] in v.fields {
        WalkSnoc(v.fields[path[0]], path[1..], segment);
      }
    }
  }

  /** A name without a dot is a variable's; one more segment leads one field further down an object. */
  lemma DottedNamesLead(c: View, name: string, segment: string)
    requires '.' !in segment
    ensures LookupValue(Bare(c), segment) == if segment in c.vars then Workflow.Some(c.vars[segment]) else Workflow.None
    ensures
      var before := LookupValue(Bare(c), name);
      LookupValue(Bare(c), name + "." + segment) ==
        if before.Some? && before.value.Obj? && segment in before.value.fields
        then Workflow.Some(before.value.fields[segment]) else Workflow.None
  {
    PiecesHoldNoSeparator(segment, '.');
    SplitSnoc(name, segment, '.');
    var segments := Split(name, '.');
    assert (segments + [segment])[1..] == segments[1..] + [segment];
    if segments[0] in c.vars {
      WalkSnoc(c.vars[segments[0]], segments[1..], segment);
    }
  }

  /** What a name leads to is masked exactly if the variable it starts from is secret. */
  lemma SecretNamesAreMasked(c: View, variable: string, name: string)
    requires '.' !in variable && (name == variable || (|variable| < |name| && name[..|variable| + 1] == variable + "."))
    ensures
      var bare := LookupValue(Bare(c), name);
      LookupValue(c, name) == if bare.Some? && variable in c.secrets then Workflow.Some(Str("***")) else bare
  {
    HeadOf(variable, name);
  }

  lemma {:induction false} HeadOf(variable: string, name: string)
    requires '.' !in variable && (name == variable || (|variable| < |name| && name[..|variable| + 1] == variable + "."))
    ensures Split(name, '.')[0] == variable
  {
    if name == variable {
      PiecesHoldNoSeparator(name, '.');
    } else {
      assert name[|variable|] == (variable + ".")[|variable|] == '.';
      if variable != "" {
        assert name[0] == (variable + ".")[0] == variable[0] && variable[0] in variable;
        assert name[1..][..|variable[1..]| + 1] == (variable + ".")[1..] == variable[1..] + ".";
        HeadOf(variable[1..], name[1..]);
      }
    }
  }

  // ------------------------------------------------- placeholders inside text

  /** How a value reads inside text. */
  ghost predicate ReadsAs(codec: Codec, v: Value, s: string) {
    match v
    case Str(text) => s == text
    case Null => s == ""
    case _ => s == codec.render(v)
  }

  lemma OpeningPair(text: string)
    ensures StartsWith(text, "{{") ==> text[0] == text[1] == '{'
  {
    if StartsWith(text, "{{") {
      assert text[..2][0] == text[0] && text[..2][1] == text[1];
    }
  }

  lemma {:induction false} UnopenedStays(c: View, pre: string, rest: string)
    requires !Doubled(pre + "{", '{') && rest != "" && rest[0] == '{'
    ensures Interpolate(c, pre + rest) == pre + Interpolate(c, rest)
  {
    hide LookupValue, TemplateString;
    if pre == "" {
      assert pre + rest == rest;
    } else {
      var text := pre + rest;
      assert text[1..] == pre[1..] + rest;
      OpeningPair(text);
      assert |text| >= 2 && text[0] == (pre + "{")[0] && text[1] == (pre + "{")[0 + 1];
      forall i | 0 <= i < |pre[1..] + "{"| - 1 ensures !((pre[1..] + "{")[i] == '{' && (pre[1..] + "{")[i + 1] == '{') {
        assert (pre[1..] + "{")[i] == (pre + "{")[i + 1] && (pre[1..] + "{")[i + 1] == (pre + "{")[i + 1 + 1];
      }
      UnopenedStays(c, pre[1..], rest);
    }
  }

  /**
   * The first double brace with a closing one opens a placeholder. If its name, trimmed, leads to a value
   * the placeholder is replaced and the text behind it comes next; otherwise one brace stays as it is and
   * everything after it comes next.
   */
  lemma PlaceholdersAreReplaced(c: View, pre: string, body: string, rest: string) returns (shown: string)
    requires !Doubled(pre + "{", '{') && !Doubled(body + "}", '}')
    ensures
      var text, found := pre + ("{{" + body + "}}" + rest), LookupValue(c, Trim(body));
      if found.Some? then ReadsAs(c.codec, found.value, shown) && Interpolate(c, text) == pre + (shown + Interpolate(c, rest))
      else Interpolate(c, text) == pre + ("{" + Interpolate(c, "{" + body + "}}" + rest))
  {
    hide LookupValue, Trim, Doubled, TemplateString, Interpolate;
    UnopenedStays(c, pre, "{{" + body + "}}" + rest);
    ReplacedAtOnce(c, body, rest);
    var found := LookupValue(c, Trim(body));
    shown := if found.Some? then TemplateString(c.codec, found.value) else "";
    if found.Some? {
      ReadsAsText(c.codec, found.value);
    }
  }

  lemma ReplacedAtOnce(c: View, body: string, rest: string)
    requires !Doubled(body + "}", '}')
    ensures
      var text, found := "{{" + body + "}}" + rest, LookupValue(c, Trim(body));
      Interpolate(c, text) ==
        if found.Some? then TemplateString(c.codec, found.value) + Interpolate(c, rest)
        else "{" + Interpolate(c, "{" + body + "}}" + rest)
  {
    var text := "{{" + body + "}}" + rest;
    FirstClosing(body, rest);
    assert text[..2] == "{{" && text[2..] == body + "}}" + rest && text[2..2 + |body|] == body;
    hide LookupValue, Trim, Doubled, Find, TemplateString;
    assert text[|body| + 4..] == rest;
    assert text[1..] == "{" + body + "}}" + rest;
  }

  lemma ReadsAsText(codec: Codec, v: Value)
    ensures ReadsAs(codec, v, TemplateString(codec, v))
  {
  }

  lemma FirstClosing(body: string, rest: string)
    requires !Doubled(body + "}", '}')
    ensures Find(body + "}}" + rest, "}}") == At(|body|)
  {
    DoubledIsContained(body, '}');
    forall i | 0 <= i < |body| - 1 ensures !(body[i] == '}' && body[i + 1] == '}') {
      assert (body + "}")[i] == body[i] && (body + "}")[i + 1] == body[i + 1];
    }
    if body != "" {
      assert (body + "}")[|body| - 1] == body[|body| - 1] && (body + "}")[|body| - 1 + 1] == '}';
    }
    AbsentNeverCloses(body);
    CloseAtEnd(body, rest);
  }

  lemma ContainedLater(text: string, k: nat)
    requires k <= |text|
    ensures Contains(text[k..], "}}") ==> Contains(text, "}}")
  {
    FindIsLeftmost(text, "}}");
    FindIsLeftmost(text[k..], "}}");
    if Contains(text[k..], "}}") {
      assert OccursAt(text, "}}", k + Find(text[k..], "}}").index);
    }
  }

  /** A double brace that is never closed stays as it is. */
  lemma {:induction false} UnclosedStays(c: View, text: string)
    requires !Contains(text, "}}")
    ensures Interpolate(c, text) == text
  {
    hide LookupValue, TemplateString;
    if text != "" {
      ContainedLater(text, 1);
      if |text| >= 2 {
        ContainedLater(text, 2);
      }
      UnclosedStays(c, text[1..]);
    }
  }
}
