/**
 * The emitter: turns a token graph into the statements of one generated
 * module. Leaves become literals, `null` with an error comment, or accessor
 * chains to other tokens; objects become object literals; each top-level
 * name becomes a type alias and a const export.
 *
 * The naming convention's `identifier` and `accessorChain` throw on an
 * invalid name; a throw is modelled as `Err(message)` and ends emission.
 */
module Emitter {
  import opened Results
  import opened Records
  import opened Parser
  import opened Tokenizer
  import opened Graph
  import opened Resolver
  import opened Syntax
  import opened Naming
  import opened Colors

  // ---------------------------------------------------------------------
  // Import path rewriting
  // ---------------------------------------------------------------------

  /** Every backslash turned into a forward slash. */
  function ForwardSlashes(path: string): (r: string)
    ensures |r| == |path|
    ensures forall i :: 0 <= i < |path| ==> r[i] == if path[i] == '\\' then '/' else path[i]
  {
    if path == [] then []
    else ForwardSlashes(path[..|path| - 1]) + [if path[|path| - 1] == '\\' then '/' else path[|path| - 1]]
  }

  /** The position of the last `.` in `s`, if any. */
  function LastDot(s: string): (r: Option<nat>)
    ensures r.None? <==> '.' !in s
    ensures r.Some? ==> r.value < |s| && s[r.value] == '.' && '.' !in s[r.value + 1..]
  {
    if s == [] then None
    else if s[|s| - 1] == '.' then Some(|s| - 1)
    else
      var init := s[..|s| - 1];
      var r := LastDot(init);
      SnocWithoutDot(init, s[|s| - 1]);
      assert s == init + [s[|s| - 1]];
      r
  }

  /** Appending a character other than `.` adds no dot, and extends every suffix by that character. */
  lemma SnocWithoutDot(init: string, c: char)
    requires c != '.'
    ensures '.' in init + [c] <==> '.' in init
    ensures forall j :: 0 <= j <= |init| ==> (init + [c])[j..] == init[j..] + [c]
  {
    var s := init + [c];
    if '.' in s {
      var k :| 0 <= k < |s| && s[k] == '.';
      assert init[k] == '.';
    }
    forall j | 0 <= j <= |init| ensures s[j..] == init[j..] + [c] {
    }
  }

  /** Removes a match of `\.[^.]+$`: a final dot followed by at least one character, and what follows it. */
  function StripExtension(s: string): string
  {
    var dot := LastDot(s);
    if dot.Some? && dot.value < |s| - 1 then s[..dot.value] else s
  }

  /** `toTypescriptImportPath`. */
  function ToTypescriptImportPath(path: string): string
  {
    StripExtension(ForwardSlashes(path))
  }

  /**
   * The rewritten path has no backslashes; it is the slash-normalised path
   * itself when that has no dot or ends in one, and otherwise that path cut
   * just before a dot that has one or more characters after it and no
   * further dot.
   */
  lemma ImportPathRewrite(path: string)
    ensures '\\' !in ToTypescriptImportPath(path)
    ensures var n := ForwardSlashes(path); var r := ToTypescriptImportPath(path);
      r <= n &&
      (r == n <==> '.' !in n || n[|n| - 1] == '.') &&
      (r != n ==> |r| + 1 < |n| && n[|r|] == '.' && '.' !in n[|r| + 1..])
  {
    var n := ForwardSlashes(path);
    assert '\\' !in n by {
      forall i | 0 <= i < |n| ensures n[i] != '\\' {
      }
    }
    var dot := LastDot(n);
    if dot.Some? && dot.value < |n| - 1 {
      assert n[..dot.value] <= n;
      assert |n[..dot.value]| != |n|;
    }
  }

  // ---------------------------------------------------------------------
  // Tokens and token graphs
  // ---------------------------------------------------------------------

  /** How a token node is placed in its parent object. */
  datatype ElementType = PropertyElement | GetAccessorElement

  datatype Element = Element(elementType: ElementType, value: Expr)

  const SkippedAliasPrefix := " Error: Skipped alias. "

  /** A number literal: unary minus over the magnitude for a negative number. */
  function NumberExpr(x: real): (e: Expr)
    ensures x < 0.0 ==> e == PrefixMinus(NumLit(-x))
    ensures x >= 0.0 ==> e == NumLit(x)
  {
    if x < 0.0 then PrefixMinus(NumLit(-x)) else NumLit(x)
  }

  /** A property holding the outcome of an accessor chain, or the chain's thrown error. */
  function ChainElement(r: Result<Expr, string>, elementType: ElementType): Result<Element, string>
  {
    if r.Err? then Err(r.error) else Ok(Element(elementType, r.value))
  }

  /** The element for one token: a literal for its value, or, for an alias, what resolving it decides. */
  function LeafElement(token: Token, lookup: map<string, Variable>, cnc: NamingConvention): Result<Element, string>
  {
    match token.value
    case Bool(b) => Ok(Element(PropertyElement, if b then True else False))
    case Number(x) => Ok(Element(PropertyElement, NumberExpr(x)))
    case Str(s) => Ok(Element(PropertyElement, StringLit(s)))
    case Rgb(_, _, _) => Ok(Element(PropertyElement, StringLit(SerializeColor(token.value))))
    case Rgba(_, _, _, _) => Ok(Element(PropertyElement, StringLit(SerializeColor(token.value))))
    case Alias(_) =>
      var result := Resolve(lookup, token, token.value);
      if result.Err? then
        Ok(Element(PropertyElement, Null(Some(SkippedAliasPrefix + result.error))))
      else if !result.value.isLocal then
        ChainElement(cnc.Chain([cnc.referenceImportName] + result.value.path), PropertyElement)
      else
        ChainElement(cnc.Chain(result.value.path), GetAccessorElement)
  }

  /** `AST_designTokenNode`: an object becomes a property holding its object literal, a token becomes its leaf element. */
  function DesignTokenNode(node: Node, lookup: map<string, Variable>, cnc: NamingConvention): Result<Element, string>
    decreases node, 2, 0
  {
    match node
    case Leaf(token) => LeafElement(token, lookup, cnc)
    case Interior(children) =>
      var g := DesignTokenGraph(children, lookup, cnc);
      if g.Err? then Err(g.error) else Ok(Element(PropertyElement, g.value))
  }

  /** `AST_designTokenGraph`: an object literal with one member per entry, in entry order. */
  function DesignTokenGraph(children: TokenGraph, lookup: map<string, Variable>, cnc: NamingConvention): Result<Expr, string>
    decreases Interior(children), 1, 0
  {
    var ms := GraphMembers(children, Elements(Interior(children), |children|, lookup, cnc), |children|, cnc);
    if ms.Err? then Err(ms.error) else Ok(ObjectLit(ms.value))
  }

  /** The elements of the first `k` entries of the object `node`, each the outcome of emitting that entry's node. */
  function Elements(node: Node, k: nat, lookup: map<string, Variable>, cnc: NamingConvention): (es: seq<Result<Element, string>>)
    requires node.Interior? && k <= |node.children|
    ensures |es| == k
    decreases node, 0, k
  {
    if k == 0 then []
    else Elements(node, k - 1, lookup, cnc) + [DesignTokenNode(node.children[k - 1].1, lookup, cnc)]
  }

  /** The member for one entry: a property, or a getter when the element is a get-accessor. */
  function MemberFor(key: Expr, e: Element): Member
  {
    match e.elementType
    case PropertyElement => Property(key, e.value)
    case GetAccessorElement => GetAccessor(key, e.value)
  }

  /**
   * The members for the first `k` entries, given each entry's element: the
   * entry's transformed key paired with its element; the first entry whose
   * element threw ends the mapping with that error.
   */
  function GraphMembers(entries: TokenGraph, elements: seq<Result<Element, string>>, k: nat, cnc: NamingConvention): (r: Result<seq<Member>, string>)
    requires k <= |entries| && k <= |elements|
    ensures r.Ok? ==> |r.value| == k
  {
    if k == 0 then Ok([])
    else
      var init := GraphMembers(entries, elements, k - 1, cnc);
      if init.Err? then Err(init.error)
      else if elements[k - 1].Err? then Err(elements[k - 1].error)
      else Ok(init.value + [MemberFor(cnc.Accessor(entries[k - 1].0), elements[k - 1].value)])
  }

  /** Entry `i`'s element is the outcome of emitting entry `i`'s node. */
  lemma {:induction false} ElementAt(node: Node, k: nat, i: nat, lookup: map<string, Variable>, cnc: NamingConvention)
    requires node.Interior? && i < k <= |node.children|
    ensures Elements(node, k, lookup, cnc)[i] == DesignTokenNode(node.children[i].1, lookup, cnc)
  {
    if i < k - 1 {
      ElementAt(node, k - 1, i, lookup, cnc);
    }
  }

  /** The members are produced exactly when every entry's element is. */
  lemma {:induction false} GraphMembersSucceed(entries: TokenGraph, elements: seq<Result<Element, string>>, k: nat, cnc: NamingConvention)
    requires k <= |entries| && k <= |elements|
    ensures GraphMembers(entries, elements, k, cnc).Ok? <==> forall i :: 0 <= i < k ==> elements[i].Ok?
  {
    if k > 0 {
      GraphMembersSucceed(entries, elements, k - 1, cnc);
    }
  }

  /** The members correspond one to one, in order, to the entries, each built from the entry's transformed key and its element. */
  lemma {:induction false} GraphMembersShape(entries: TokenGraph, elements: seq<Result<Element, string>>, k: nat, cnc: NamingConvention)
    requires k <= |entries| && k <= |elements|
    ensures var r := GraphMembers(entries, elements, k, cnc);
      r.Ok? ==> forall i :: 0 <= i < k ==>
        elements[i].Ok? && r.value[i] == MemberFor(cnc.Accessor(entries[i].0), elements[i].value)
  {
    var r := GraphMembers(entries, elements, k, cnc);
    if k > 0 && r.Ok? {
      GraphMembersShape(entries, elements, k - 1, cnc);
      var init := GraphMembers(entries, elements, k - 1, cnc);
      assert init.Ok? && elements[k - 1].Ok?;
      assert r.value == init.value + [MemberFor(cnc.Accessor(entries[k - 1].0), elements[k - 1].value)];
      assert forall i :: 0 <= i < k - 1 ==> r.value[i] == init.value[i];
    }
  }

  /** Each member's key spells the transformed entry name, bare exactly when that is a valid identifier. */
  lemma GraphMemberKeys(entries: TokenGraph, elements: seq<Result<Element, string>>, k: nat, cnc: NamingConvention)
    requires k <= |entries| && k <= |elements|
    ensures var r := GraphMembers(entries, elements, k, cnc);
      r.Ok? ==> forall i :: 0 <= i < k ==>
        KeyText(r.value[i].key) == cnc.Transform(entries[i].0) &&
        (r.value[i].key.Identifier? <==> IsValidIdentifier(cnc.Transform(entries[i].0)))
  {
    GraphMembersShape(entries, elements, k, cnc);
  }

  /** When the mapping fails, the error is the one of the first entry whose element failed. */
  lemma {:induction false} GraphMembersFirstError(entries: TokenGraph, elements: seq<Result<Element, string>>, k: nat, cnc: NamingConvention)
    requires k <= |entries| && k <= |elements|
    ensures var r := GraphMembers(entries, elements, k, cnc);
      r.Err? ==> exists j :: (0 <= j < k && elements[j] == Err(r.error) && forall i :: 0 <= i < j ==> elements[i].Ok?)
  {
    if k > 0 {
      GraphMembersFirstError(entries, elements, k - 1, cnc);
      var init := GraphMembers(entries, elements, k - 1, cnc);
      if init.Ok? && elements[k - 1].Err? {
        GraphMembersSucceed(entries, elements, k - 1, cnc);
        assert GraphMembers(entries, elements, k, cnc) == Err(elements[k - 1].error);
      }
    }
  }

  /**
   * An object becomes an object literal exactly when every entry's node can
   * be emitted; its members are then, in entry order, the transformed key
   * of each entry with that entry's element.
   */
  lemma GraphLiteral(children: TokenGraph, lookup: map<string, Variable>, cnc: NamingConvention)
    ensures var g := DesignTokenGraph(children, lookup, cnc);
      (g.Ok? <==> forall i :: 0 <= i < |children| ==> DesignTokenNode(children[i].1, lookup, cnc).Ok?) &&
      (g.Ok? ==> g.value.ObjectLit? && |g.value.members| == |children|) &&
      (g.Ok? ==> forall i :: 0 <= i < |children| ==>
        g.value.members[i] == MemberFor(cnc.Accessor(children[i].0), DesignTokenNode(children[i].1, lookup, cnc).value))
  {
    var es := Elements(Interior(children), |children|, lookup, cnc);
    forall i | 0 <= i < |children| ensures es[i] == DesignTokenNode(children[i].1, lookup, cnc) {
      ElementAt(Interior(children), |children|, i, lookup, cnc);
    }
    GraphMembersSucceed(children, es, |children|, cnc);
    GraphMembersShape(children, es, |children|, cnc);
  }

  /** When an object cannot be emitted, the error is the one of its first entry that cannot. */
  lemma GraphFirstError(children: TokenGraph, lookup: map<string, Variable>, cnc: NamingConvention)
    ensures var g := DesignTokenGraph(children, lookup, cnc);
      g.Err? ==> exists j :: (0 <= j < |children| && DesignTokenNode(children[j].1, lookup, cnc) == Err(g.error) &&
        forall i :: 0 <= i < j ==> DesignTokenNode(children[i].1, lookup, cnc).Ok?)
  {
    var es := Elements(Interior(children), |children|, lookup, cnc);
    forall i | 0 <= i < |children| ensures es[i] == DesignTokenNode(children[i].1, lookup, cnc) {
      ElementAt(Interior(children), |children|, i, lookup, cnc);
    }
    GraphMembersFirstError(children, es, |children|, cnc);
  }

  /** Every literal value becomes a plain property; reading a boolean, number or string literal back gives the token's value. */
  function EvalLiteral(e: Expr): Option<Value>
  {
    match e
    case True => Some(Bool(true))
    case False => Some(Bool(false))
    case NumLit(m) => Some(Number(m))
    case PrefixMinus(NumLit(m)) => Some(Number(-m))
    case StringLit(s) => Some(Str(s))
    case _ => None
  }

  /**
   * A leaf whose value is not an alias is always emitted as a property:
   * booleans, numbers and strings as literals that read back as the value
   * (numeric literals never negative), colours as the serialized string.
   */
  lemma LiteralLeaf(token: Token, lookup: map<string, Variable>, cnc: NamingConvention)
    requires !token.value.Alias?
    ensures var r := LeafElement(token, lookup, cnc);
      r.Ok? && r.value.elementType == PropertyElement &&
      (token.value.IsColor() ==> r.value.value == StringLit(SerializeColor(token.value))) &&
      (!token.value.IsColor() ==> EvalLiteral(r.value.value) == Some(token.value)) &&
      (r.value.value.NumLit? ==> r.value.value.magnitude >= 0.0) &&
      (r.value.value.PrefixMinus? ==> r.value.value.operand.NumLit? && r.value.value.operand.magnitude > 0.0)
  {
  }

  /**
   * The four outcomes of an alias leaf: a failed resolution becomes `null`
   * with the error in a comment; a non-local target becomes a property
   * reading through the shared-file namespace; a local one becomes a getter
   * over the target's path. Only the chains can throw.
   */
  lemma AliasLeaf(token: Token, lookup: map<string, Variable>, cnc: NamingConvention)
    requires token.value.Alias?
    ensures var res := Resolve(lookup, token, token.value); var r := LeafElement(token, lookup, cnc);
      (res.Err? ==> r == Ok(Element(PropertyElement, Null(Some(SkippedAliasPrefix + res.error))))) &&
      (res.Ok? && !res.value.isLocal ==>
        r == ChainElement(cnc.Chain([cnc.referenceImportName] + res.value.path), PropertyElement) &&
        (r.Ok? <==> IsValidIdentifier(cnc.Transform(cnc.referenceImportName)))) &&
      (res.Ok? && res.value.isLocal ==> r == ChainElement(cnc.Chain(res.value.path), GetAccessorElement)) &&
      (r.Ok? && r.value.elementType == GetAccessorElement ==> res.Ok? && res.value.isLocal)
  {
    var res := Resolve(lookup, token, token.value);
    if res.Ok? && !res.value.isLocal {
      ChainRoundTrip(cnc, [cnc.referenceImportName] + res.value.path);
    }
  }

  /**
   * A theme token aliasing a shared variable reads the target through the
   * namespace import: the chain's segments are the transformed import name
   * followed by the transformed target path.
   */
  lemma ThemeToSharedAlias(token: Token, lookup: map<string, Variable>, cnc: NamingConvention)
    requires token.value.Alias? && token.value.id in lookup
    requires !IsSourceReference(token) && lookup[token.value.id].IsShared()
    requires IsValidIdentifier(cnc.Transform(cnc.referenceImportName))
    ensures var r := LeafElement(token, lookup, cnc);
      r.Ok? && r.value.elementType == PropertyElement &&
      Segments(r.value.value) == Some(cnc.TransformAll([cnc.referenceImportName] + lookup[token.value.id].name))
  {
    ChainRoundTrip(cnc, [cnc.referenceImportName] + lookup[token.value.id].name);
  }

  // ---------------------------------------------------------------------
  // The generated file
  // ---------------------------------------------------------------------

  /** The namespace import of the shared file, under the transformed import name, unless the shared file is this file. */
  function ImportStatements(relativePathToReferenceFile: string, cnc: NamingConvention): Result<seq<Stmt>, string>
  {
    if relativePathToReferenceFile == "." then Ok([])
    else
      var binding := cnc.Identifier(cnc.referenceImportName);
      if binding.Err? then Err(binding.error)
      else Ok([Import(binding.value, ToTypescriptImportPath(relativePathToReferenceFile))])
  }

  /** `AST_importAllAs`: `import * as <identifier(name)> from "<path>"`. */
  function ImportAllAs(importPath: string, variableName: string, cnc: NamingConvention): (r: Result<Stmt, string>)
    ensures r.Ok? <==> IsValidIdentifier(cnc.Transform(variableName))
    ensures r.Ok? ==> r.value == Import(Expr.Identifier(cnc.Transform(variableName)), importPath)
  {
    var binding := cnc.Identifier(variableName);
    if binding.Err? then Err(binding.error) else Ok(Import(binding.value, importPath))
  }

  /** `AST_typeAlias`: `export type X = keyof typeof X`. */
  function TypeAliasFor(exportId: Expr, identifierId: Expr): Stmt
  {
    TypeAlias(exportId, identifierId)
  }

  /** `AST_asConstExport`: `export const X = init`. */
  function AsConstExport(name: Expr, initializer: Expr): Stmt
  {
    ConstExport(name, initializer)
  }

  /** The initializer for a top-level entry: a token's element value, or an object's literal. */
  function EntryInitializer(node: Node, lookup: map<string, Variable>, cnc: NamingConvention): Result<Expr, string>
  {
    match node
    case Leaf(_) =>
      var e := DesignTokenNode(node, lookup, cnc);
      if e.Err? then Err(e.error) else Ok(e.value.value)
    case Interior(children) => DesignTokenGraph(children, lookup, cnc)
  }

  /** The initializers of the first `k` top-level entries, each the outcome of emitting that entry. */
  function Initializers(tokens: TokenGraph, k: nat, lookup: map<string, Variable>, cnc: NamingConvention): (inits: seq<Result<Expr, string>>)
    requires k <= |tokens|
    ensures |inits| == k
  {
    if k == 0 then [] else Initializers(tokens, k - 1, lookup, cnc) + [EntryInitializer(tokens[k - 1].1, lookup, cnc)]
  }

  /** Entry `i`'s initializer is the outcome of emitting entry `i`. */
  lemma {:induction false} InitializerAt(tokens: TokenGraph, k: nat, i: nat, lookup: map<string, Variable>, cnc: NamingConvention)
    requires i < k <= |tokens|
    ensures Initializers(tokens, k, lookup, cnc)[i] == EntryInitializer(tokens[i].1, lookup, cnc)
  {
    if i < k - 1 {
      InitializerAt(tokens, k - 1, i, lookup, cnc);
    }
  }

  /** The two statements for one top-level entry, given its initializer: the type alias, then the const export, both named by the transformed key. */
  function EntryStatements(name: string, initializer: Result<Expr, string>, cnc: NamingConvention): Result<seq<Stmt>, string>
  {
    var id := cnc.Identifier(name);
    if id.Err? then Err(id.error)
    else if initializer.Err? then Err(initializer.error)
    else Ok([TypeAliasFor(id.value, id.value), AsConstExport(id.value, initializer.value)])
  }

  /** The statements for the first `k` top-level entries, after the import, given each entry's initializer. */
  function FileStatements(tokens: TokenGraph, inits: seq<Result<Expr, string>>, k: nat, relativePathToReferenceFile: string,
                          cnc: NamingConvention): Result<seq<Stmt>, string>
    requires k <= |tokens| && k <= |inits|
  {
    if k == 0 then ImportStatements(relativePathToReferenceFile, cnc)
    else
      var before := FileStatements(tokens, inits, k - 1, relativePathToReferenceFile, cnc);
      if before.Err? then before
      else
        var entry := EntryStatements(tokens[k - 1].0, inits[k - 1], cnc);
        if entry.Err? then Err(entry.error) else Ok(before.value + entry.value)
  }

  /** One iteration of the entry loop: push the type alias, then the const export of the token's element or the object's literal. */
  method PushEntry(statements: seq<Stmt>, tokenName: string, tokenNode: Node, lookup: map<string, Variable>,
                   cnc: NamingConvention) returns (r: Result<seq<Stmt>, string>)
    ensures var entry := EntryStatements(tokenName, EntryInitializer(tokenNode, lookup, cnc), cnc);
      r == if entry.Err? then Err(entry.error) else Ok(statements + entry.value)
  {
    var tokenNameAsId := cnc.Identifier(tokenName);
    if tokenNameAsId.Err? {
      return Err(tokenNameAsId.error);
    }
    var pushed := statements + [TypeAliasFor(tokenNameAsId.value, tokenNameAsId.value)];
    ghost var initializer := EntryInitializer(tokenNode, lookup, cnc);
    if tokenNode.Leaf? {
      var element := DesignTokenNode(tokenNode, lookup, cnc);
      if element.Err? {
        assert initializer == Err(element.error);
        return Err(element.error);
      }
      assert initializer == Ok(element.value.value);
      pushed := pushed + [AsConstExport(tokenNameAsId.value, element.value.value)];
    } else {
      var literal := DesignTokenGraph(tokenNode.children, lookup, cnc);
      if literal.Err? {
        assert initializer == literal;
        return Err(literal.error);
      }
      assert initializer == literal;
      pushed := pushed + [AsConstExport(tokenNameAsId.value, literal.value)];
    }
    assert pushed == statements + [TypeAliasFor(tokenNameAsId.value, tokenNameAsId.value), AsConstExport(tokenNameAsId.value, initializer.value)];
    r := Ok(pushed);
  }

  /** The first step of `AST_designTokenFile`: push the namespace import of the shared file unless the shared file is this file. */
  method PushImport(relativePathToReferenceFile: string, cnc: NamingConvention) returns (r: Result<seq<Stmt>, string>)
    ensures var imported := ImportAllAs(ToTypescriptImportPath(relativePathToReferenceFile), cnc.referenceImportName, cnc);
      r == if relativePathToReferenceFile == "." then Ok([])
        else if imported.Err? then Err(imported.error) else Ok([imported.value])
  {
    var statements: seq<Stmt> := [];
    if relativePathToReferenceFile != "." {
      var imported := ImportAllAs(ToTypescriptImportPath(relativePathToReferenceFile), cnc.referenceImportName, cnc);
      if imported.Err? {
        return Err(imported.error);
      }
      statements := [imported.value];
    }
    r := Ok(statements);
  }

  /** `AST_designTokenFile`: push the optional import, then each top-level entry's statements in entry order. */
  method DesignTokenFile(tokens: TokenGraph, lookup: map<string, Variable>, relativePathToReferenceFile: string,
                         cnc: NamingConvention) returns (r: Result<seq<Stmt>, string>)
    ensures r == FileStatements(tokens, Initializers(tokens, |tokens|, lookup, cnc), |tokens|, relativePathToReferenceFile, cnc)
  {
    ghost var inits := Initializers(tokens, |tokens|, lookup, cnc);
    var start := PushImport(relativePathToReferenceFile, cnc);
    FileStart(tokens, inits, relativePathToReferenceFile, cnc);
    if start.Err? {
      FileErrorSticks(tokens, inits, 0, relativePathToReferenceFile, cnc);
      return start;
    }
    var statements := start.value;
    for i := 0 to |tokens|
      invariant FileStatements(tokens, inits, i, relativePathToReferenceFile, cnc) == Ok(statements)
    {
      var tokenName, tokenNode := tokens[i].0, tokens[i].1;
      InitializerAt(tokens, |tokens|, i, lookup, cnc);
      FileNext(tokens, inits, i, relativePathToReferenceFile, cnc);
      var pushed := PushEntry(statements, tokenName, tokenNode, lookup, cnc);
      if pushed.Err? {
        FileErrorSticks(tokens, inits, i + 1, relativePathToReferenceFile, cnc);
        return Err(pushed.error);
      }
      statements := pushed.value;
    }
    r := Ok(statements);
  }

  /** Before any entry: the import when the shared file is another file, which throws when the import name is invalid. */
  lemma FileStart(tokens: TokenGraph, inits: seq<Result<Expr, string>>, rel: string, cnc: NamingConvention)
    ensures var imported := ImportAllAs(ToTypescriptImportPath(rel), cnc.referenceImportName, cnc);
      FileStatements(tokens, inits, 0, rel, cnc) ==
        if rel == "." then Ok([]) else if imported.Err? then Err(imported.error) else Ok([imported.value])
  {
  }

  /** One more entry appends its two statements, or ends emission with its error. */
  lemma FileNext(tokens: TokenGraph, inits: seq<Result<Expr, string>>, i: nat, rel: string, cnc: NamingConvention)
    requires i < |tokens| && i < |inits| && FileStatements(tokens, inits, i, rel, cnc).Ok?
    ensures var entry := EntryStatements(tokens[i].0, inits[i], cnc);
      FileStatements(tokens, inits, i + 1, rel, cnc) ==
        if entry.Err? then Err(entry.error) else Ok(FileStatements(tokens, inits, i, rel, cnc).value + entry.value)
  {
  }

  /** Once a statement throws, emission ends with that error: later entries change nothing. */
  lemma {:induction false} FileErrorSticks(tokens: TokenGraph, inits: seq<Result<Expr, string>>, k: nat, rel: string, cnc: NamingConvention)
    requires k <= |tokens| == |inits|
    requires FileStatements(tokens, inits, k, rel, cnc).Err?
    ensures FileStatements(tokens, inits, |tokens|, rel, cnc) == FileStatements(tokens, inits, k, rel, cnc)
    decreases |tokens| - k
  {
    if k < |tokens| {
      FileErrorSticks(tokens, inits, k + 1, rel, cnc);
    }
  }

  /** The two statements of an entry, when it can be emitted, are the type alias and the const export named by the transformed key. */
  lemma EntryStatementsShape(name: string, initializer: Result<Expr, string>, cnc: NamingConvention)
    ensures var entry := EntryStatements(name, initializer, cnc); var id := Expr.Identifier(cnc.Transform(name));
      (entry.Ok? <==> IsValidIdentifier(cnc.Transform(name)) && initializer.Ok?) &&
      (entry.Ok? ==> entry.value == [TypeAlias(id, id), ConstExport(id, initializer.value)])
  {
  }

  /**
   * The file layout: the import comes first exactly when the shared file is
   * another file, then each top-level entry contributes two statements.
   */
  lemma {:induction false} FileLayout(tokens: TokenGraph, inits: seq<Result<Expr, string>>, k: nat, rel: string, cnc: NamingConvention)
    requires k <= |tokens| && k <= |inits|
    ensures var r := FileStatements(tokens, inits, k, rel, cnc); var offset := if rel == "." then 0 else 1;
      r.Ok? ==>
        |r.value| == offset + 2 * k &&
        (rel != "." ==> r.value[0] == Import(Expr.Identifier(cnc.Transform(cnc.referenceImportName)), ToTypescriptImportPath(rel)))
  {
    var r := FileStatements(tokens, inits, k, rel, cnc);
    if k == 0 {
      FileStart(tokens, inits, rel, cnc);
    } else if r.Ok? {
      FileLayout(tokens, inits, k - 1, rel, cnc);
      var before := FileStatements(tokens, inits, k - 1, rel, cnc);
      assert before.Ok?;
      FileNext(tokens, inits, k - 1, rel, cnc);
      EntryStatementsShape(tokens[k - 1].0, inits[k - 1], cnc);
      assert r.value[..|before.value|] == before.value;
    }
  }

  /**
   * Top-level entry `i`, in entry order, contributes a type alias
   * immediately followed by a const export of its initializer, both named
   * by the same transformed identifier, at its place after the import and
   * the entries before it.
   */
  lemma {:induction false} FileEntry(tokens: TokenGraph, inits: seq<Result<Expr, string>>, k: nat, i: nat, rel: string, cnc: NamingConvention)
    requires i < k <= |tokens| && k <= |inits|
    ensures var r := FileStatements(tokens, inits, k, rel, cnc); var offset := if rel == "." then 0 else 1;
      var id := Expr.Identifier(cnc.Transform(tokens[i].0));
      r.Ok? ==>
        offset + 2 * i + 1 < |r.value| && inits[i].Ok? &&
        r.value[offset + 2 * i] == TypeAlias(id, id) &&
        r.value[offset + 2 * i + 1] == ConstExport(id, inits[i].value)
  {
    var r := FileStatements(tokens, inits, k, rel, cnc);
    if r.Ok? {
      var before := FileStatements(tokens, inits, k - 1, rel, cnc);
      assert before.Ok?;
      FileNext(tokens, inits, k - 1, rel, cnc);
      FileLayout(tokens, inits, k - 1, rel, cnc);
      if i < k - 1 {
        FileEntry(tokens, inits, k - 1, i, rel, cnc);
        assert r.value[..|before.value|] == before.value;
      } else {
        EntryStatementsShape(tokens[i].0, inits[i], cnc);
      }
    }
  }

  /** The statements are produced exactly when the import name (if needed), every top-level name and every entry's initializer can be emitted. */
  lemma {:induction false} FileSucceeds(tokens: TokenGraph, inits: seq<Result<Expr, string>>, k: nat, rel: string, cnc: NamingConvention)
    requires k <= |tokens| && k <= |inits|
    ensures FileStatements(tokens, inits, k, rel, cnc).Ok? <==>
      (rel == "." || IsValidIdentifier(cnc.Transform(cnc.referenceImportName))) &&
      forall i :: 0 <= i < k ==> IsValidIdentifier(cnc.Transform(tokens[i].0)) && inits[i].Ok?
  {
    if k == 0 {
      FileStart(tokens, inits, rel, cnc);
    } else {
      FileSucceeds(tokens, inits, k - 1, rel, cnc);
      if FileStatements(tokens, inits, k - 1, rel, cnc).Ok? {
        FileNext(tokens, inits, k - 1, rel, cnc);
        EntryStatementsShape(tokens[k - 1].0, inits[k - 1], cnc);
      }
    }
  }

  /**
   * The generated file exists exactly when the import name (if needed) and
   * every top-level name are valid identifiers and every top-level entry
   * can be emitted.
   */
  lemma FileProduced(tokens: TokenGraph, lookup: map<string, Variable>, rel: string, cnc: NamingConvention)
    ensures FileStatements(tokens, Initializers(tokens, |tokens|, lookup, cnc), |tokens|, rel, cnc).Ok? <==>
      (rel == "." || IsValidIdentifier(cnc.Transform(cnc.referenceImportName))) &&
      forall i :: 0 <= i < |tokens| ==>
        IsValidIdentifier(cnc.Transform(tokens[i].0)) && EntryInitializer(tokens[i].1, lookup, cnc).Ok?
  {
    var inits := Initializers(tokens, |tokens|, lookup, cnc);
    forall i | 0 <= i < |tokens| ensures inits[i] == EntryInitializer(tokens[i].1, lookup, cnc) {
      InitializerAt(tokens, |tokens|, i, lookup, cnc);
    }
    FileSucceeds(tokens, inits, |tokens|, rel, cnc);
  }
}
