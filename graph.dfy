/**
 * The graph builder: re-nests a flat token list into a tree keyed by name
 * segments, writing each token at its name path.
 *
 * A node is a token (leaf) or an object of named children; objects keep
 * their keys in insertion order. The builder's intermediate objects are
 * fresh literals reachable from the root along exactly one key path, so an
 * object is identified here by that key path ("address").
 */
module Graph {
  import opened Results
  import opened Records
  import opened Tokenizer

  datatype Node = Leaf(token: Token) | Interior(children: Entries<Node>)

  type TokenGraph = Entries<Node>

  /** The child stored under `k`, typed as a node. */
  function Child(g: TokenGraph, k: string): Option<Node>
  {
    Get(g, k)
  }

  /**
   * The key path a token is written under. An empty name skips the descent
   * and writes under `path[-1]`, which JavaScript reads as `undefined` and
   * turns into the key "undefined".
   */
  function KeyPath(name: seq<string>): (p: seq<string>)
    ensures |p| >= 1
    ensures name != [] ==> p == name
  {
    if name == [] then ["undefined"] else name
  }

  // ---------------------------------------------------------------------
  // Reference definition of a write and of reading a path back
  // ---------------------------------------------------------------------

  /** Whether a looked-up child is a token. */
  predicate IsToken(found: Option<Node>)
  {
    found.Some? && found.value.Leaf?
  }

  /** The children of a looked-up object; an absent child stands for a fresh empty object. */
  function ChildrenOr(found: Option<Node>): TokenGraph
  {
    if found.Some? && found.value.Interior? then found.value.children else []
  }

  /**
   * The graph after writing `n` at key path `p`: missing intermediate
   * objects are created empty, existing ones are reused, the last key is
   * assigned. A path that runs into a token is not written at all.
   */
  function Put(g: TokenGraph, p: seq<string>, n: Node): TokenGraph
    requires |p| >= 1
    decreases |p|
  {
    if |p| == 1 then Set(g, p[0], n)
    else if IsToken(Child(g, p[0])) then g
    else Set(g, p[0], Interior(Put(ChildrenOr(Child(g, p[0])), p[1..], n)))
  }

  /** The node found by following key path `p`. */
  function Lookup(g: TokenGraph, p: seq<string>): Option<Node>
    requires |p| >= 1
    decreases |p|
  {
    if |p| == 1 then Child(g, p[0])
    else if IsToken(Child(g, p[0])) then None
    else Lookup(ChildrenOr(Child(g, p[0])), p[1..])
  }

  /** Whether a token sits at a strict prefix of `p`, so that a write to `p` would descend into it. */
  predicate Blocked(g: TokenGraph, p: seq<string>)
    requires |p| >= 1
    decreases |p|
  {
    |p| > 1 && (IsToken(Child(g, p[0])) || Blocked(ChildrenOr(Child(g, p[0])), p[1..]))
  }

  /** Whether two key paths part ways: they differ at some position both have. */
  predicate Diverge(p: seq<string>, q: seq<string>)
  {
    |p| > 0 && |q| > 0 && (p[0] != q[0] || Diverge(p[1..], q[1..]))
  }

  // ---------------------------------------------------------------------
  // Properties of a write
  // ---------------------------------------------------------------------

  /** One level of a write: only the first segment's child changes, and it becomes the written node or the updated object. */
  lemma ChildPut(g: TokenGraph, p: seq<string>, n: Node, k: string)
    requires |p| >= 1
    ensures Child(Put(g, p, n), k) ==
      if k != p[0] || (|p| > 1 && IsToken(Child(g, p[0]))) then Child(g, k)
      else if |p| == 1 then Some(n)
      else Some(Interior(Put(ChildrenOr(Child(g, p[0])), p[1..], n)))
  {
    if |p| == 1 {
      GetSet(g, p[0], n, k);
    } else if !IsToken(Child(g, p[0])) {
      GetSet(g, p[0], Interior(Put(ChildrenOr(Child(g, p[0])), p[1..], n)), k);
    }
  }

  /** After a write, reading its key path gives the written node, unless the path runs into a token. */
  lemma {:induction false} LookupPut(g: TokenGraph, p: seq<string>, n: Node)
    requires |p| >= 1
    requires !Blocked(g, p)
    ensures Lookup(Put(g, p, n), p) == Some(n)
    decreases |p|
  {
    ChildPut(g, p, n, p[0]);
    if |p| > 1 {
      LookupPut(ChildrenOr(Child(g, p[0])), p[1..], n);
    }
  }

  /** A write whose path runs into a token changes nothing. */
  lemma {:induction false} PutBlocked(g: TokenGraph, p: seq<string>, n: Node)
    requires |p| >= 1
    requires Blocked(g, p)
    ensures Put(g, p, n) == g
    decreases |p|
  {
    var found := Child(g, p[0]);
    if !IsToken(found) {
      PutBlocked(ChildrenOr(found), p[1..], n);
      SetSame(g, p[0], found.value);
    }
  }

  /** A write leaves every path that parts ways with it as it was: siblings keep their values at every level. */
  lemma {:induction false} LookupPutOther(g: TokenGraph, p: seq<string>, n: Node, q: seq<string>)
    requires |p| >= 1 && |q| >= 1
    requires Diverge(p, q)
    ensures Lookup(Put(g, p, n), q) == Lookup(g, q)
    decreases |p|
  {
    ChildPut(g, p, n, q[0]);
    if p[0] == q[0] && !IsToken(Child(g, p[0])) {
      LookupPutOther(ChildrenOr(Child(g, p[0])), p[1..], n, q[1..]);
    }
  }

  /**
   * Along the path of a write, each intermediate object is the one that was
   * there, reused with its other children, or a fresh empty object when the
   * segment was absent; either way it receives the rest of the write.
   */
  lemma {:induction false} PutAlongPath(g: TokenGraph, p: seq<string>, n: Node, j: nat)
    requires 1 <= j < |p|
    requires !Blocked(g, p)
    ensures Lookup(Put(g, p, n), p[..j]) == Some(Interior(Put(ChildrenOr(Lookup(g, p[..j])), p[j..], n)))
    decreases j
  {
    var c := ChildrenOr(Child(g, p[0]));
    var written := Put(c, p[1..], n);
    ChildPut(g, p, n, p[0]);
    assert Child(Put(g, p, n), p[0]) == Some(Interior(written));
    if j == 1 {
      assert p[..1] == [p[0]];
      assert Lookup(g, p[..1]) == Child(g, p[0]);
      assert p[1..] == p[j..];
    } else {
      var q := p[..j];
      assert q[0] == p[0] && q[1..] == p[1..][..j - 1];
      assert p[1..][j - 1..] == p[j..];
      PutAlongPath(c, p[1..], n, j - 1);
      assert Lookup(Put(g, p, n), q) == Lookup(written, p[1..][..j - 1]);
      assert Lookup(g, q) == Lookup(c, p[1..][..j - 1]);
    }
  }

  /** A write never puts a token on its own path's prefixes, so a path that was open stays open. */
  lemma {:induction false} PutKeepsOpen(g: TokenGraph, p: seq<string>, n: Node)
    requires |p| >= 1
    requires !Blocked(g, p)
    ensures !Blocked(Put(g, p, n), p)
    decreases |p|
  {
    if |p| > 1 {
      ChildPut(g, p, n, p[0]);
      PutKeepsOpen(ChildrenOr(Child(g, p[0])), p[1..], n);
    }
  }

  /** Top-level keys keep their order; a write under a new first segment appends it. */
  lemma PutKeys(g: TokenGraph, p: seq<string>, n: Node)
    requires |p| >= 1
    ensures Keys(Put(g, p, n)) == if p[0] in Keys(g) then Keys(g) else Keys(g) + [p[0]]
  {
    if |p| == 1 {
      KeysSet(g, p[0], n);
    } else if !IsToken(Child(g, p[0])) {
      KeysSet(g, p[0], Interior(Put(ChildrenOr(Child(g, p[0])), p[1..], n)));
    }
  }

  // ---------------------------------------------------------------------
  // The write as the source performs it: a descent loop over addresses
  // ---------------------------------------------------------------------

  /** The object reached from the root along `addr`, if every step names an object. */
  function ObjectAt(g: TokenGraph, addr: seq<string>): Option<TokenGraph>
    decreases |addr|
  {
    if addr == [] then Some(g)
    else
      var found := Child(g, addr[0]);
      if found.Some? && found.value.Interior? then ObjectAt(found.value.children, addr[1..]) else None
  }

  /** The graph after `object[key] = n` on the object at `addr`; nothing changes when no object is there. */
  function UpdateAt(g: TokenGraph, addr: seq<string>, key: string, n: Node): TokenGraph
    decreases |addr|
  {
    if addr == [] then Set(g, key, n)
    else
      var found := Child(g, addr[0]);
      if found.Some? && found.value.Interior? then Set(g, addr[0], Interior(UpdateAt(found.value.children, addr[1..], key, n)))
      else g
  }

  /** One step of the descent: create `step` as an empty object on the object at `addr` when it is absent there. */
  function EnsureChild(g: TokenGraph, addr: seq<string>, step: string): TokenGraph
  {
    var obj := ObjectAt(g, addr);
    if obj.Some? && Child(obj.value, step).None? then UpdateAt(g, addr, step, Interior([])) else g
  }

  /** The graph after the whole descent along `steps`. */
  function EnsurePath(g: TokenGraph, steps: seq<string>): TokenGraph
    decreases |steps|
  {
    if steps == [] then g
    else if IsToken(Child(g, steps[0])) then g
    else Set(g, steps[0], Interior(EnsurePath(ChildrenOr(Child(g, steps[0])), steps[1..])))
  }

  lemma ObjectAtUnder(g: TokenGraph, y: string, e: TokenGraph, addr: seq<string>)
    ensures ObjectAt(Set(g, y, Interior(e)), [y] + addr) == ObjectAt(e, addr)
  {
    GetSet(g, y, Interior(e), y);
    assert ([y] + addr)[1..] == addr;
  }

  lemma UpdateAtUnder(g: TokenGraph, y: string, e: TokenGraph, addr: seq<string>, key: string, n: Node)
    ensures UpdateAt(Set(g, y, Interior(e)), [y] + addr, key, n) == Set(g, y, Interior(UpdateAt(e, addr, key, n)))
  {
    GetSet(g, y, Interior(e), y);
    assert ([y] + addr)[1..] == addr;
    SetSet(g, y, Interior(e), Interior(UpdateAt(e, addr, key, n)));
  }

  /** The descent one step further is one more `EnsureChild` at the address reached so far. */
  lemma {:induction false} EnsurePathSnoc(g: TokenGraph, s: seq<string>, x: string)
    ensures EnsurePath(g, s + [x]) == EnsureChild(EnsurePath(g, s), s, x)
    decreases |s|
  {
    if s == [] {
      assert [] + [x] == [x];
      var found := Child(g, x);
      if found.Some? && found.value.Interior? {
        SetSame(g, x, found.value);
      }
    } else {
      var y, s' := s[0], s[1..];
      assert (s + [x])[0] == y && (s + [x])[1..] == s' + [x];
      assert s == [y] + s';
      if !IsToken(Child(g, y)) {
        var c := ChildrenOr(Child(g, y));
        EnsurePathSnoc(c, s', x);
        var e := EnsurePath(c, s');
        ObjectAtUnder(g, y, e, s');
        UpdateAtUnder(g, y, e, s', x, Interior([]));
      }
    }
  }

  /** The descent followed by the final assignment is exactly the reference write. */
  lemma {:induction false} PutByDescent(g: TokenGraph, p: seq<string>, n: Node)
    requires |p| >= 1
    ensures Put(g, p, n) == UpdateAt(EnsurePath(g, p[..|p| - 1]), p[..|p| - 1], p[|p| - 1], n)
    decreases |p|
  {
    var init, last := p[..|p| - 1], p[|p| - 1];
    if |p| == 1 {
      assert init == [];
    } else {
      var rest := p[1..];
      assert init == [p[0]] + rest[..|rest| - 1];
      assert rest[|rest| - 1] == last;
      var found := Child(g, p[0]);
      if IsToken(found) {
        assert EnsurePath(g, init) == g;
      } else {
        var c := ChildrenOr(found);
        var e := EnsurePath(c, rest[..|rest| - 1]);
        PutByDescent(c, rest, n);
        assert EnsurePath(g, init) == Set(g, p[0], Interior(e));
        UpdateAtUnder(g, p[0], e, rest[..|rest| - 1], last, n);
      }
    }
  }

  /** One more step of the descent along `path`, as the loop of `assocPath` takes it. */
  lemma DescentStep(graph: TokenGraph, path: seq<string>, i: nat)
    requires i < |path|
    ensures EnsurePath(graph, path[..i + 1]) == EnsureChild(EnsurePath(graph, path[..i]), path[..i], path[i])
  {
    assert path[..i + 1] == path[..i] + [path[i]];
    EnsurePathSnoc(graph, path[..i], path[i]);
  }

  /** The descent over all but the last segment, then the assignment of the last one, is the reference write of `KeyPath(path)`. */
  lemma DescentComplete(graph: TokenGraph, path: seq<string>, n: Node)
    ensures var d := if path == [] then 0 else |path| - 1;
      var last := if path == [] then "undefined" else path[|path| - 1];
      Put(graph, KeyPath(path), n) == UpdateAt(EnsurePath(graph, path[..d]), path[..d], last, n)
  {
    var p := KeyPath(path);
    PutByDescent(graph, p, n);
    if path == [] {
      assert p[..|p| - 1] == [] == path[..0];
    } else {
      assert p[..|p| - 1] == path[..|path| - 1];
    }
  }

  /**
   * `assocPath`: walk all but the last segment, creating each missing
   * segment as an empty object and moving `target` into it, then assign the
   * token under the last segment.
   */
  method AssocPath(path: seq<string>, graph: TokenGraph, value: Token) returns (updated: TokenGraph)
    ensures updated == Put(graph, KeyPath(path), Leaf(value))
  {
    updated := graph;
    var target: seq<string> := [];
    var i := 0;
    while i < |path| - 1
      invariant 0 <= i <= if path == [] then 0 else |path| - 1
      invariant target == path[..i]
      invariant updated == EnsurePath(graph, target)
    {
      var step := path[i];
      var obj := ObjectAt(updated, target);
      if obj.Some? && Child(obj.value, step).None? {
        updated := UpdateAt(updated, target, step, Interior([]));
      }
      DescentStep(graph, path, i);
      target := target + [step];
      i := i + 1;
    }
    var lastStep := if path == [] then "undefined" else path[|path| - 1];
    updated := UpdateAt(updated, target, lastStep, Leaf(value));
    DescentComplete(graph, path, Leaf(value));
  }

  // ---------------------------------------------------------------------
  // Building the graph from a token list
  // ---------------------------------------------------------------------

  /** The graph after writing every token, in list order, at its name path. */
  function BuildGraph(tokens: seq<Token>): TokenGraph
  {
    if tokens == [] then []
    else
      var t := tokens[|tokens| - 1];
      Put(BuildGraph(tokens[..|tokens| - 1]), KeyPath(t.name), Leaf(t))
  }

  /** `createTokenGraph`: start from an empty object and write every token into it. */
  method CreateTokenGraph(tokens: seq<Token>) returns (collection: TokenGraph)
    ensures collection == BuildGraph(tokens)
  {
    collection := [];
    for i := 0 to |tokens|
      invariant collection == BuildGraph(tokens[..i])
    {
      assert tokens[..i + 1][..i] == tokens[..i];
      collection := AssocPath(tokens[i].name, collection, tokens[i]);
    }
    assert tokens[..|tokens|] == tokens;
  }

  /** The first segment a token is filed under. */
  function TopKey(t: Token): string
  {
    KeyPath(t.name)[0]
  }

  function TopKeys(tokens: seq<Token>): (ks: seq<string>)
    ensures |ks| == |tokens|
    ensures forall i :: 0 <= i < |tokens| ==> ks[i] == TopKey(tokens[i])
  {
    if tokens == [] then [] else TopKeys(tokens[..|tokens| - 1]) + [TopKey(tokens[|tokens| - 1])]
  }

  /** An empty token list gives an empty graph. */
  lemma BuildEmpty()
    ensures BuildGraph([]) == []
  {
  }

  /** Top-level keys appear in the order their first segment was first written. */
  lemma {:induction false} BuildGraphKeys(tokens: seq<Token>)
    ensures Keys(BuildGraph(tokens)) == FirstAppearances(TopKeys(tokens))
  {
    if tokens != [] {
      var init := tokens[..|tokens| - 1];
      var t := tokens[|tokens| - 1];
      BuildGraphKeys(init);
      PutKeys(BuildGraph(init), KeyPath(t.name), Leaf(t));
      assert TopKeys(tokens)[..|tokens| - 1] == TopKeys(init);
    }
  }

  /** After a token is written, its full name path reads back that token, unless the path runs into an earlier token. */
  lemma LastWriteWins(tokens: seq<Token>, t: Token)
    requires !Blocked(BuildGraph(tokens), KeyPath(t.name))
    ensures Lookup(BuildGraph(tokens + [t]), KeyPath(t.name)) == Some(Leaf(t))
  {
    assert (tokens + [t])[..|tokens|] == tokens;
    LookupPut(BuildGraph(tokens), KeyPath(t.name), Leaf(t));
  }

  /** Of two tokens with the same name, the later one is the one the graph holds. */
  lemma LaterTokenWins(tokens: seq<Token>, first: Token, second: Token)
    requires first.name == second.name
    requires !Blocked(BuildGraph(tokens), KeyPath(first.name))
    ensures Lookup(BuildGraph(tokens + [first, second]), KeyPath(second.name)) == Some(Leaf(second))
  {
    var p := KeyPath(first.name);
    var all := tokens + [first, second];
    assert all[..|all| - 1] == tokens + [first] && all[|all| - 1] == second;
    assert (tokens + [first])[..|tokens|] == tokens;
    var g1 := Put(BuildGraph(tokens), p, Leaf(first));
    assert BuildGraph(tokens + [first]) == g1;
    assert BuildGraph(all) == Put(g1, p, Leaf(second));
    PutKeepsOpen(BuildGraph(tokens), p, Leaf(first));
    LookupPut(g1, p, Leaf(second));
  }
}
