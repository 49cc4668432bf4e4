/**
 * The identifier grammar and the naming convention: how token names become
 * identifiers, object keys and accessor chains in emitted code.
 */
module Naming {
  import opened Results
  import opened Syntax

  /** A character that may start an identifier: `[a-zA-Z_]`. */
  predicate IsIdentifierStart(c: char)
  {
    'a' <= c <= 'z' || 'A' <= c <= 'Z' || c == '_'
  }

  /** A word character, `\w`: a letter, a digit or `_`. */
  predicate IsWordChar(c: char)
  {
    IsIdentifierStart(c) || '0' <= c <= '9'
  }

  /** Scans `s` left to right for the `\w*` part of the pattern. */
  function AllWordChars(s: string): (b: bool)
    ensures b <==> forall i :: 0 <= i < |s| ==> IsWordChar(s[i])
  {
    if s == [] then true else IsWordChar(s[0]) && AllWordChars(s[1..])
  }

  /** `isValidIdentifier`: the whole name matches `^[a-zA-Z_]\w*$`. */
  function IsValidIdentifier(name: string): (b: bool)
    ensures b <==> |name| >= 1 && IsIdentifierStart(name[0]) && forall i :: 1 <= i < |name| ==> IsWordChar(name[i])
  {
    |name| >= 1 && IsIdentifierStart(name[0]) && AllWordChars(name[1..])
  }

  function InvalidIdentifierError(name: string): string
  {
    "Invalid identifier: " + name
  }

  /** One later segment of a chain: `.part` when it is a valid identifier, `["part"]` otherwise. */
  function Step(node: Expr, part: string): (e: Expr)
    ensures e.PropAccess? <==> IsValidIdentifier(part)
  {
    if IsValidIdentifier(part) then PropAccess(node, part) else ElemAccess(node, StringLit(part))
  }

  /** The chain built from `root` by applying `Step` for each segment of `rest` in order. */
  function ChainFrom(root: Expr, rest: seq<string>): Expr
  {
    if rest == [] then root else Step(ChainFrom(root, rest[..|rest| - 1]), rest[|rest| - 1])
  }

  /**
   * The naming convention: the name the shared file is imported under, and
   * an optional renaming applied to every name before it is emitted. It
   * holds only settings that never change.
   */
  datatype NamingConvention = NamingConvention(referenceImportName: string, rename: Option<string -> string>)
  {
    /** The configured renaming, or the name unchanged when none is configured. */
    function Transform(name: string): (r: string)
      ensures rename.None? ==> r == name
    {
      if rename.Some? then rename.value(name) else name
    }

    /** `assertIdentifier`: an identifier node for a valid name, a thrown error otherwise. */
    function AssertIdentifier(name: string): (r: Result<Expr, string>)
      ensures r.Ok? <==> IsValidIdentifier(name)
      ensures r.Ok? ==> r.value == Expr.Identifier(name)
      ensures r.Err? ==> r.error == InvalidIdentifierError(name)
    {
      if !IsValidIdentifier(name) then Err(InvalidIdentifierError(name)) else Ok(Expr.Identifier(name))
    }

    /** `identifier`: the transformed name as an identifier; an invalid transformed name throws. */
    function Identifier(input: string): (r: Result<Expr, string>)
      ensures r.Ok? <==> IsValidIdentifier(Transform(input))
      ensures r.Ok? ==> r.value.Identifier? && r.value.text == Transform(input)
      ensures r.Err? ==> r.error == InvalidIdentifierError(Transform(input))
    {
      AssertIdentifier(Transform(input))
    }

    /** `accessor`: an object key that is bare when the transformed name is a valid identifier and quoted otherwise; it never throws. */
    function Accessor(input: string): (key: Expr)
      ensures key.Identifier? || key.StringLit?
      ensures key.Identifier? <==> IsValidIdentifier(Transform(input))
      ensures KeyText(key) == Transform(input)
    {
      var name := Transform(input);
      if IsValidIdentifier(name) then AssertIdentifier(name).value else StringLit(name)
    }

    /** Every part run through `Transform`, in order. */
    function TransformAll(parts: seq<string>): (ts: seq<string>)
      ensures |ts| == |parts|
      ensures forall i :: 0 <= i < |parts| ==> ts[i] == Transform(parts[i])
    {
      if parts == [] then [] else TransformAll(parts[..|parts| - 1]) + [Transform(parts[|parts| - 1])]
    }

    /**
     * The chain `accessorChain` builds: the first transformed part must be an
     * identifier, each later one is a property or element access. With no
     * parts, `parts[0]` is the value `undefined`; the name check reads it as
     * the string "undefined", which is valid, and the model renders the
     * root as the identifier "undefined".
     */
    function Chain(parts: seq<string>): Result<Expr, string>
    {
      var ts := TransformAll(parts);
      var first := if ts == [] then "undefined" else ts[0];
      var root := AssertIdentifier(first);
      if root.Err? then Err(root.error)
      else Ok(ChainFrom(root.value, if ts == [] then [] else ts[1..]))
    }

    /** `accessorChain`: transform the parts, assert the root, then extend the node one segment at a time. */
    method AccessorChain(parts: seq<string>) returns (r: Result<Expr, string>)
      ensures r == Chain(parts)
    {
      var transformed := TransformAll(parts);
      var first := if transformed == [] then "undefined" else transformed[0];
      var root := AssertIdentifier(first);
      if root.Err? {
        return Err(root.error);
      }
      var node := root.value;
      var rest := if transformed == [] then [] else transformed[1..];
      for j := 0 to |rest|
        invariant node == ChainFrom(root.value, rest[..j])
      {
        var part := rest[j];
        assert rest[..j + 1][..j] == rest[..j];
        if IsValidIdentifier(part) {
          node := PropAccess(node, part);
        } else {
          node := ElemAccess(node, StringLit(part));
        }
      }
      assert rest[..|rest|] == rest;
      r := Ok(node);
    }
  }

  /** Reads the segments back out of an accessor chain: the root's name, then each accessed name in order. */
  function Segments(e: Expr): Option<seq<string>>
  {
    match e
    case Identifier(t) => Some([t])
    case PropAccess(target, name) =>
      var s := Segments(target);
      if s.None? then None else Some(s.value + [name])
    case ElemAccess(target, StringLit(k)) =>
      var s := Segments(target);
      if s.None? then None else Some(s.value + [k])
    case _ => None
  }

  /** A chain in the only form the convention builds: an identifier root, `.name` for identifier segments, `["key"]` for the rest. */
  predicate CanonicalChain(e: Expr)
  {
    match e
    case Identifier(t) => IsValidIdentifier(t)
    case PropAccess(target, name) => CanonicalChain(target) && IsValidIdentifier(name)
    case ElemAccess(target, StringLit(k)) => CanonicalChain(target) && !IsValidIdentifier(k)
    case _ => false
  }

  lemma {:induction false} ChainFromDecodes(root: string, rest: seq<string>)
    requires IsValidIdentifier(root)
    ensures Segments(ChainFrom(Expr.Identifier(root), rest)) == Some([root] + rest)
    ensures CanonicalChain(ChainFrom(Expr.Identifier(root), rest))
  {
    if rest != [] {
      var init := rest[..|rest| - 1];
      ChainFromDecodes(root, init);
      var prev := ChainFrom(Expr.Identifier(root), init);
      var last := rest[|rest| - 1];
      assert ChainFrom(Expr.Identifier(root), rest) == Step(prev, last);
      if IsValidIdentifier(last) {
        assert Segments(PropAccess(prev, last)) == Some(Segments(prev).value + [last]);
      } else {
        assert Segments(ElemAccess(prev, StringLit(last))) == Some(Segments(prev).value + [last]);
      }
      assert [root] + rest == ([root] + init) + [rest[|rest| - 1]];
    } else {
      assert [root] + rest == [root];
    }
  }

  /**
   * An accessor chain succeeds exactly when the transformed first part is a
   * valid identifier, and then reading its segments back gives the
   * transformed parts, each rendered in canonical form.
   */
  lemma ChainRoundTrip(cnc: NamingConvention, parts: seq<string>)
    requires parts != []
    ensures cnc.Chain(parts).Ok? <==> IsValidIdentifier(cnc.Transform(parts[0]))
    ensures cnc.Chain(parts).Ok? ==>
      Segments(cnc.Chain(parts).value) == Some(cnc.TransformAll(parts)) && CanonicalChain(cnc.Chain(parts).value)
    ensures cnc.Chain(parts).Err? ==> cnc.Chain(parts).error == InvalidIdentifierError(cnc.Transform(parts[0]))
  {
    var ts := cnc.TransformAll(parts);
    if IsValidIdentifier(ts[0]) {
      ChainFromDecodes(ts[0], ts[1..]);
      assert [ts[0]] + ts[1..] == ts;
    }
  }

  /** With no parts the chain is rendered as the identifier "undefined", the model's stand-in for an identifier built from the value `undefined`. */
  lemma ChainOfNothing(cnc: NamingConvention)
    ensures cnc.Chain([]) == Ok(Expr.Identifier("undefined"))
  {
    var u := "undefined";
    assert IsIdentifierStart(u[0]);
    assert forall i :: 1 <= i < |u| ==> 'a' <= u[i] <= 'z';
    assert IsValidIdentifier(u);
    assert cnc.TransformAll([]) == [];
  }

  /** Two canonical chains with the same segments are the same expression: the rendering of each segment is forced. */
  lemma {:induction false} CanonicalChainUnique(e1: Expr, e2: Expr)
    requires CanonicalChain(e1) && CanonicalChain(e2)
    requires Segments(e1).Some? && Segments(e1) == Segments(e2)
    ensures e1 == e2
  {
    var s1, s2 := Segments(e1).value, Segments(e2).value;
    match e1
    case Identifier(_) =>
      if !e2.Identifier? {
        SegmentsLength(e2.target);
      }
    case PropAccess(t1, n1) =>
      SegmentsLength(t1);
      if e2.Identifier? {
      } else {
        SegmentsLength(e2.target);
        assert s1[..|s1| - 1] == Segments(t1).value && s2[..|s2| - 1] == Segments(e2.target).value;
        CanonicalChainUnique(t1, e2.target);
      }
    case ElemAccess(t1, k1) =>
      SegmentsLength(t1);
      if e2.Identifier? {
      } else {
        SegmentsLength(e2.target);
        assert s1[..|s1| - 1] == Segments(t1).value && s2[..|s2| - 1] == Segments(e2.target).value;
        CanonicalChainUnique(t1, e2.target);
      }
  }

  lemma SegmentsLength(e: Expr)
    requires CanonicalChain(e)
    ensures Segments(e).Some? && |Segments(e).value| >= 1
  {
  }
}
