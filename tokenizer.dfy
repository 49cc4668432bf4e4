/**
 * The tokenizer: flattens variables, text styles and effect styles into one
 * ordered list of leaf tokens, each with a name path, a value, an optional
 * theme and an origin.
 */
module Tokenizer {
  import opened Results
  import opened Records
  import opened Parser

  /** Where a token comes from: a variable (kept for the alias resolver) or a style. */
  datatype Origin = VariableOrigin(variable: Variable) | StyleOrigin

  /** A design token; `theme == None` places it in the shared bucket. */
  datatype Token = Token(name: seq<string>, theme: Option<string>, value: Value, origin: Origin)

  /** A text style: its name path and its properties in key order. */
  datatype TextStyle = TextStyle(name: seq<string>, props: Entries<Value>)

  /** The fields of a shadow effect that become tokens. */
  datatype Shadow = Shadow(color: Value, offsetX: Value, offsetY: Value, radius: Value, spread: Value)

  /**
   * An effect, told apart by its `type`: `DROP_SHADOW`, `INNER_SHADOW`, or
   * `OtherEffect` for an effect of any other type, whose fields the
   * tokenizer never reads.
   */
  datatype Effect = DropShadow(shadow: Shadow) | InnerShadow(shadow: Shadow) | OtherEffect

  datatype EffectStyle = EffectStyle(name: seq<string>, effects: seq<Effect>)

  /** The validated export. */
  datatype FigmaData = FigmaData(variables: seq<Variable>, textStyles: seq<TextStyle>, effectStyles: seq<EffectStyle>)

  /** Concatenation of `f(x)` over `xs`, in order. */
  function FlatMap<T, U>(xs: seq<T>, f: T -> seq<U>): seq<U>
  {
    if xs == [] then [] else FlatMap(xs[..|xs| - 1], f) + f(xs[|xs| - 1])
  }

  /** FlatMap distributes over concatenation: each input's outputs stay together and in input order. */
  lemma {:induction false} FlatMapAppend<T, U>(xs: seq<T>, ys: seq<T>, f: T -> seq<U>)
    ensures FlatMap(xs + ys, f) == FlatMap(xs, f) + FlatMap(ys, f)
  {
    if ys != [] {
      var zs := xs + ys;
      assert zs[..|zs| - 1] == xs + ys[..|ys| - 1];
      FlatMapAppend(xs, ys[..|ys| - 1], f);
    } else {
      assert xs + ys == xs;
    }
  }

  lemma ConcatAssoc<T>(a: seq<T>, b: seq<T>, c: seq<T>)
    ensures a + b + c == a + (b + c)
  {
  }

  /** Extending the input by one element appends that element's outputs. */
  lemma FlatMapSnoc<T, U>(xs: seq<T>, i: nat, f: T -> seq<U>)
    requires i < |xs|
    ensures FlatMap(xs[..i + 1], f) == FlatMap(xs[..i], f) + f(xs[i])
  {
    assert xs[..i + 1][..i] == xs[..i];
  }

  /** The outputs of the `i`-th input sit, together, between those of the inputs before and after it. */
  lemma FlatMapAt<T, U>(xs: seq<T>, i: nat, f: T -> seq<U>)
    requires i < |xs|
    ensures FlatMap(xs, f) == FlatMap(xs[..i], f) + f(xs[i]) + FlatMap(xs[i + 1..], f)
  {
    assert xs == xs[..i + 1] + xs[i + 1..];
    FlatMapAppend(xs[..i + 1], xs[i + 1..], f);
    FlatMapSnoc(xs, i, f);
  }

  /** An output of FlatMap comes from some input. */
  lemma {:induction false} FlatMapMember<T, U>(xs: seq<T>, f: T -> seq<U>, u: U)
    requires u in FlatMap(xs, f)
    ensures exists i :: 0 <= i < |xs| && u in f(xs[i])
  {
    var n := |xs|;
    if u in f(xs[n - 1]) {
    } else {
      FlatMapMember(xs[..n - 1], f, u);
      var i :| 0 <= i < n - 1 && u in f(xs[..n - 1][i]);
      assert xs[..n - 1][i] == xs[i];
    }
  }

  /** The tokens of a per-theme entry list, one per entry. */
  function ThemeTokens(v: Variable, entries: Entries<Value>): seq<Token>
  {
    if entries == [] then []
    else
      var last := entries[|entries| - 1];
      ThemeTokens(v, entries[..|entries| - 1]) + [Token(v.name, Some(last.0), last.1, VariableOrigin(v))]
  }

  /** One token per theme entry, in entry order, each tagged with its entry's theme and carrying its value. */
  lemma {:induction false} ThemeTokensAt(v: Variable, entries: Entries<Value>)
    ensures |ThemeTokens(v, entries)| == |entries|
    ensures forall k :: 0 <= k < |entries| ==>
              ThemeTokens(v, entries)[k] == Token(v.name, Some(entries[k].0), entries[k].1, VariableOrigin(v))
  {
    if entries != [] {
      ThemeTokensAt(v, entries[..|entries| - 1]);
    }
  }

  /** The tokens of one variable: a single untagged token when shared, one per theme otherwise. */
  function VariableTokens(v: Variable): seq<Token>
  {
    match v
    case SharedVariable(_, name, value) => [Token(name, None, value, VariableOrigin(v))]
    case ThemedVariable(_, _, themeValues) => ThemeTokens(v, themeValues)
  }

  /** The tokens of a text style's properties, one per key. */
  function PropTokens(name: seq<string>, props: Entries<Value>): seq<Token>
  {
    if props == [] then []
    else
      var last := props[|props| - 1];
      PropTokens(name, props[..|props| - 1]) + [Token(name + [last.0], None, last.1, StyleOrigin)]
  }

  /** Each text-style key gives one token named by the style's path plus the key, with style origin and no theme. */
  lemma {:induction false} PropTokensAt(name: seq<string>, props: Entries<Value>)
    ensures |PropTokens(name, props)| == |props|
    ensures forall k :: 0 <= k < |props| ==>
              PropTokens(name, props)[k] == Token(name + [props[k].0], None, props[k].1, StyleOrigin)
  {
    if props != [] {
      PropTokensAt(name, props[..|props| - 1]);
    }
  }

  function TextStyleTokens(s: TextStyle): seq<Token>
  {
    PropTokens(s.name, s.props)
  }

  /** One token of an effect: the style's path plus one key. */
  function CreateEffectToken(prefix: seq<string>, key: string, value: Value): (t: Token)
    ensures t.name == prefix + [key] && t.value == value
    ensures t.theme.None? && t.origin.StyleOrigin?
  {
    Token(prefix + [key], None, value, StyleOrigin)
  }

  /** The tokens of one effect, by its type. */
  function CreateEffectTokens(styleName: seq<string>, effect: Effect): seq<Token>
  {
    match effect
    case DropShadow(s) => ShadowTokens(styleName, s)
    case InnerShadow(s) => ShadowTokens(styleName, s)
    case OtherEffect => []
  }

  /** A drop or inner shadow gives exactly five style tokens named x, y, color, radius, spread, in that order; any other effect gives none. */
  lemma EffectTokensShape(styleName: seq<string>, effect: Effect)
    ensures effect.OtherEffect? ==> CreateEffectTokens(styleName, effect) == []
    ensures !effect.OtherEffect? ==>
              var r := CreateEffectTokens(styleName, effect);
              |r| == 5
              && r[0].name == styleName + ["x"] && r[0].value == effect.shadow.offsetX
              && r[1].name == styleName + ["y"] && r[1].value == effect.shadow.offsetY
              && r[2].name == styleName + ["color"] && r[2].value == effect.shadow.color
              && r[3].name == styleName + ["radius"] && r[3].value == effect.shadow.radius
              && r[4].name == styleName + ["spread"] && r[4].value == effect.shadow.spread
    ensures forall t :: t in CreateEffectTokens(styleName, effect) ==> t.theme.None? && t.origin.StyleOrigin?
  {
  }

  /** Effect tokens never carry a theme and always have style origin. */
  lemma {:induction false} EffectsTokensAreStyleTokens(styleName: seq<string>, effects: seq<Effect>, t: Token)
    requires t in EffectsTokens(styleName, effects)
    ensures t.theme.None? && t.origin.StyleOrigin?
  {
    var n := |effects|;
    if t in CreateEffectTokens(styleName, effects[n - 1]) {
      EffectTokensShape(styleName, effects[n - 1]);
    } else {
      EffectsTokensAreStyleTokens(styleName, effects[..n - 1], t);
    }
  }

  function ShadowTokens(styleName: seq<string>, s: Shadow): seq<Token>
  {
    [ CreateEffectToken(styleName, "x", s.offsetX),
      CreateEffectToken(styleName, "y", s.offsetY),
      CreateEffectToken(styleName, "color", s.color),
      CreateEffectToken(styleName, "radius", s.radius),
      CreateEffectToken(styleName, "spread", s.spread) ]
  }

  /** The tokens of a style's effects, in effect order. */
  function EffectsTokens(styleName: seq<string>, effects: seq<Effect>): seq<Token>
  {
    if effects == [] then []
    else EffectsTokens(styleName, effects[..|effects| - 1]) + CreateEffectTokens(styleName, effects[|effects| - 1])
  }

  function EffectStyleTokens(s: EffectStyle): seq<Token>
  {
    EffectsTokens(s.name, s.effects)
  }

  /** The tokenizer's output: variable tokens, then text-style tokens, then effect tokens, each in input order. */
  function Tokens(data: FigmaData): seq<Token>
  {
    FlatMap(data.variables, VariableTokens)
      + FlatMap(data.textStyles, TextStyleTokens)
      + FlatMap(data.effectStyles, EffectStyleTokens)
  }

  /** The inner loop over one variable: its single token when shared, else one token per theme entry. */
  method PushVariableTokens(tokens: seq<Token>, variable: Variable) returns (pushed: seq<Token>)
    ensures pushed == tokens + VariableTokens(variable)
  {
    pushed := tokens;
    if variable.IsShared() {
      pushed := pushed + [Token(variable.name, None, variable.value, VariableOrigin(variable))];
    } else {
      var entries := variable.themeValues;
      for j := 0 to |entries|
        invariant pushed == tokens + ThemeTokens(variable, entries[..j])
      {
        var entry := entries[j];
        assert entries[..j + 1][..j] == entries[..j];
        pushed := pushed + [Token(variable.name, Some(entry.0), entry.1, VariableOrigin(variable))];
      }
      assert entries[..|entries|] == entries;
    }
  }

  /** The inner loop over one text style: one token per property key. */
  method PushTextStyleTokens(tokens: seq<Token>, textStyle: TextStyle) returns (pushed: seq<Token>)
    ensures pushed == tokens + TextStyleTokens(textStyle)
  {
    pushed := tokens;
    var props := textStyle.props;
    for j := 0 to |props|
      invariant pushed == tokens + PropTokens(textStyle.name, props[..j])
    {
      var prop := props[j];
      assert props[..j + 1][..j] == props[..j];
      pushed := pushed + [Token(textStyle.name + [prop.0], None, prop.1, StyleOrigin)];
    }
    assert props[..|props|] == props;
  }

  /** The inner loop over one effect style: the tokens of each effect in turn. */
  method PushEffectStyleTokens(tokens: seq<Token>, effectStyle: EffectStyle) returns (pushed: seq<Token>)
    ensures pushed == tokens + EffectStyleTokens(effectStyle)
  {
    pushed := tokens;
    var effects := effectStyle.effects;
    for j := 0 to |effects|
      invariant pushed == tokens + EffectsTokens(effectStyle.name, effects[..j])
    {
      var effect := effects[j];
      assert effects[..j + 1][..j] == effects[..j];
      ConcatAssoc(tokens, EffectsTokens(effectStyle.name, effects[..j]), CreateEffectTokens(effectStyle.name, effect));
      pushed := pushed + CreateEffectTokens(effectStyle.name, effect);
    }
    assert effects[..|effects|] == effects;
  }

  /** `tokenize`: nested loops push every token onto one list. */
  method Tokenize(data: FigmaData) returns (tokens: seq<Token>)
    ensures tokens == Tokens(data)
  {
    tokens := [];
    var vars := data.variables;
    for i := 0 to |vars|
      invariant tokens == FlatMap(vars[..i], VariableTokens)
    {
      FlatMapSnoc(vars, i, VariableTokens);
      tokens := PushVariableTokens(tokens, vars[i]);
    }
    assert vars[..|vars|] == vars;

    ghost var afterVariables := tokens;
    var texts := data.textStyles;
    for i := 0 to |texts|
      invariant tokens == afterVariables + FlatMap(texts[..i], TextStyleTokens)
    {
      FlatMapSnoc(texts, i, TextStyleTokens);
      ConcatAssoc(afterVariables, FlatMap(texts[..i], TextStyleTokens), TextStyleTokens(texts[i]));
      tokens := PushTextStyleTokens(tokens, texts[i]);
    }
    assert texts[..|texts|] == texts;

    ghost var afterTexts := tokens;
    var effectStyles := data.effectStyles;
    for i := 0 to |effectStyles|
      invariant tokens == afterTexts + FlatMap(effectStyles[..i], EffectStyleTokens)
    {
      FlatMapSnoc(effectStyles, i, EffectStyleTokens);
      ConcatAssoc(afterTexts, FlatMap(effectStyles[..i], EffectStyleTokens), EffectStyleTokens(effectStyles[i]));
      tokens := PushEffectStyleTokens(tokens, effectStyles[i]);
    }
    assert effectStyles[..|effectStyles|] == effectStyles;
  }

  /**
   * The tokenizer's guarantee about each token: a style token has no theme; a
   * variable token carries its variable's name, has a theme exactly when the
   * variable is per-theme, and its value is the shared value or one of the
   * theme entries under that theme.
   */
  predicate WellFormedToken(t: Token) {
    match t.origin
    case StyleOrigin => t.theme.None?
    case VariableOrigin(v) =>
      && t.name == v.name
      && (v.IsShared() <==> t.theme.None?)
      && (v.IsShared() ==> t.value == v.value)
      && (!v.IsShared() ==> (t.theme.value, t.value) in v.themeValues)
  }

  /** Every token the tokenizer produces is well formed; in particular no style token carries a theme. */
  lemma TokensWellFormed(data: FigmaData, t: Token)
    requires t in Tokens(data)
    ensures WellFormedToken(t)
  {
    if t in FlatMap(data.variables, VariableTokens) {
      FlatMapMember(data.variables, VariableTokens, t);
      var i :| 0 <= i < |data.variables| && t in VariableTokens(data.variables[i]);
      var v := data.variables[i];
      if !v.IsShared() {
        ThemeTokensAt(v, v.themeValues);
        var k :| 0 <= k < |v.themeValues| && ThemeTokens(v, v.themeValues)[k] == t;
        assert v.themeValues[k] == (t.theme.value, t.value);
      }
    } else if t in FlatMap(data.textStyles, TextStyleTokens) {
      FlatMapMember(data.textStyles, TextStyleTokens, t);
      var i :| 0 <= i < |data.textStyles| && t in TextStyleTokens(data.textStyles[i]);
      PropTokensAt(data.textStyles[i].name, data.textStyles[i].props);
    } else {
      FlatMapMember(data.effectStyles, EffectStyleTokens, t);
      var i :| 0 <= i < |data.effectStyles| && t in EffectStyleTokens(data.effectStyles[i]);
      var s := data.effectStyles[i];
      EffectsTokensAreStyleTokens(s.name, s.effects, t);
    }
  }

  /**
   * Ordering: the tokens of the `i`-th variable form one contiguous run,
   * preceded by the tokens of the variables before it and followed by those
   * of the variables after it, then all style tokens.
   */
  lemma VariableTokensInOrder(data: FigmaData, i: nat)
    requires i < |data.variables|
    ensures Tokens(data) == FlatMap(data.variables[..i], VariableTokens)
                            + VariableTokens(data.variables[i])
                            + FlatMap(data.variables[i + 1..], VariableTokens)
                            + FlatMap(data.textStyles, TextStyleTokens)
                            + FlatMap(data.effectStyles, EffectStyleTokens)
  {
    FlatMapAt(data.variables, i, VariableTokens);
  }

  /** Ordering: the tokens of the `i`-th text style form one run after every variable token and the earlier text styles' tokens. */
  lemma TextStyleTokensInOrder(data: FigmaData, i: nat)
    requires i < |data.textStyles|
    ensures Tokens(data) == FlatMap(data.variables, VariableTokens)
                            + (FlatMap(data.textStyles[..i], TextStyleTokens)
                               + TextStyleTokens(data.textStyles[i])
                               + FlatMap(data.textStyles[i + 1..], TextStyleTokens))
                            + FlatMap(data.effectStyles, EffectStyleTokens)
  {
    FlatMapAt(data.textStyles, i, TextStyleTokens);
  }

  /** Ordering: the tokens of the `i`-th effect style form one run after every variable and text-style token. */
  lemma EffectStyleTokensInOrder(data: FigmaData, i: nat)
    requires i < |data.effectStyles|
    ensures Tokens(data) == FlatMap(data.variables, VariableTokens)
                            + FlatMap(data.textStyles, TextStyleTokens)
                            + (FlatMap(data.effectStyles[..i], EffectStyleTokens)
                               + EffectStyleTokens(data.effectStyles[i])
                               + FlatMap(data.effectStyles[i + 1..], EffectStyleTokens))
  {
    FlatMapAt(data.effectStyles, i, EffectStyleTokens);
  }

  /** A shared variable gives exactly one token: no theme, the variable's name and value, variable origin. */
  lemma SharedVariableToken(v: Variable)
    requires v.IsShared()
    ensures VariableTokens(v) == [Token(v.name, None, v.value, VariableOrigin(v))]
  {
  }

  /** A per-theme variable gives one token per theme entry, in entry order, each tagged with that entry's theme. */
  lemma ThemedVariableTokens(v: Variable)
    requires !v.IsShared()
    ensures var ts := VariableTokens(v);
            |ts| == |v.themeValues|
            && forall k :: 0 <= k < |ts| ==>
                 ts[k].theme == Some(v.themeValues[k].0) && ts[k].value == v.themeValues[k].1
                 && ts[k].name == v.name && ts[k].origin == VariableOrigin(v)
  {
    ThemeTokensAt(v, v.themeValues);
  }
}
