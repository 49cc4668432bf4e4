/**
 * JavaScript objects used as dictionaries: an insertion-ordered list of
 * (key, value) entries. Reading a key finds its entry; assigning a key
 * replaces the value in place when the key is present and appends a new
 * entry otherwise, which is how property assignment orders an object's keys.
 */
module Records {
  import opened Results

  type Entries<V> = seq<(string, V)>

  /** The keys of `e`, in entry order (`Object.keys`). */
  function Keys<V>(e: Entries<V>): (ks: seq<string>)
    ensures |ks| == |e|
    ensures forall i :: 0 <= i < |e| ==> ks[i] == e[i].0
  {
    if e == [] then [] else [e[0].0] + Keys(e[1..])
  }

  /** No key occurs twice, as in every JavaScript object. */
  predicate DistinctKeys<V>(e: Entries<V>) {
    forall i, j :: 0 <= i < j < |e| ==> e[i].0 != e[j].0
  }

  /** The value stored under `k` (`obj[k]`), `None` when `k` is absent. */
  function Get<V>(e: Entries<V>, k: string): (r: Option<V>)
    ensures r.None? <==> k !in Keys(e)
    ensures r.Some? ==> exists i :: 0 <= i < |e| && e[i] == (k, r.value)
  {
    if e == [] then None
    else if e[0].0 == k then Some(e[0].1)
    else
      var r := Get(e[1..], k);
      assert r.Some? ==> exists i :: 0 <= i < |e[1..]| && e[1..][i] == (k, r.value);
      r
  }

  /** The object after `obj[k] = v`. */
  function Set<V>(e: Entries<V>, k: string, v: V): Entries<V>
  {
    if e == [] then [(k, v)]
    else if e[0].0 == k then [(k, v)] + e[1..]
    else [e[0]] + Set(e[1..], k, v)
  }

  /** Reading after an assignment: the assigned key gives the new value, every other key its old one. */
  lemma {:induction false} GetSet<V>(e: Entries<V>, k: string, v: V, k': string)
    ensures Get(Set(e, k, v), k') == if k' == k then Some(v) else Get(e, k')
  {
    if e != [] && e[0].0 != k {
      GetSet(e[1..], k, v, k');
    }
  }

  /** Assigning a key twice keeps only the second value. */
  lemma {:induction false} SetSet<V>(e: Entries<V>, k: string, v: V, w: V)
    ensures Set(Set(e, k, v), k, w) == Set(e, k, w)
  {
    if e != [] && e[0].0 != k {
      SetSet(e[1..], k, v, w);
    }
  }

  /** Assigning a key the value it already holds changes nothing. */
  lemma {:induction false} SetSame<V>(e: Entries<V>, k: string, v: V)
    requires Get(e, k) == Some(v)
    ensures Set(e, k, v) == e
  {
    if e[0].0 != k {
      SetSame(e[1..], k, v);
    }
  }

  /** Assignment keeps the key order and appends a key that was absent. */
  lemma {:induction false} KeysSet<V>(e: Entries<V>, k: string, v: V)
    ensures Keys(Set(e, k, v)) == if k in Keys(e) then Keys(e) else Keys(e) + [k]
  {
    if e != [] {
      var rest := e[1..];
      if e[0].0 != k {
        KeysSet(rest, k, v);
        assert Set(e, k, v)[1..] == Set(rest, k, v);
      } else {
        assert Set(e, k, v)[1..] == rest;
      }
    }
  }

  /** Assignment keeps the keys distinct. */
  lemma SetDistinct<V>(e: Entries<V>, k: string, v: V)
    requires DistinctKeys(e)
    ensures DistinctKeys(Set(e, k, v))
  {
    KeysSet(e, k, v);
    var s := Set(e, k, v);
    assert forall i :: 0 <= i < |s| ==> Keys(s)[i] == s[i].0;
  }

  /** The position of the first occurrence of `x` in `xs`. */
  function FirstIndex<T(==)>(xs: seq<T>, x: T): (r: nat)
    requires x in xs
    ensures r < |xs| && xs[r] == x
    ensures forall k :: 0 <= k < r ==> xs[k] != x
  {
    if xs[0] == x then 0 else 1 + FirstIndex(xs[1..], x)
  }

  /** The first occurrence of an element of a prefix lies in that prefix. */
  lemma FirstIndexPrefix<T>(xs: seq<T>, m: nat, x: T)
    requires m <= |xs| && x in xs[..m]
    ensures x in xs && FirstIndex(xs, x) == FirstIndex(xs[..m], x)
  {
    var r, r' := FirstIndex(xs, x), FirstIndex(xs[..m], x);
    assert xs[r'] == xs[..m][r'];
    assert r <= r';
    assert xs[..m][r] == xs[r];
  }

  /** The distinct elements of `xs` in the order of their first appearance. */
  function FirstAppearances<T(==)>(xs: seq<T>): (d: seq<T>)
    ensures forall i :: 0 <= i < |xs| ==> xs[i] in d
    ensures forall i :: 0 <= i < |d| ==> d[i] in xs
    ensures forall i, j :: 0 <= i < j < |d| ==> d[i] != d[j]
  {
    if xs == [] then []
    else
      var d := FirstAppearances(xs[..|xs| - 1]);
      var x := xs[|xs| - 1];
      assert xs == xs[..|xs| - 1] + [x];
      if x in d then d else d + [x]
  }

  /** The distinct elements are listed in the order in which each first occurs in `xs`. */
  lemma {:induction false} FirstAppearancesOrder<T>(xs: seq<T>)
    ensures forall i, j :: 0 <= i < j < |FirstAppearances(xs)| ==>
      FirstIndex(xs, FirstAppearances(xs)[i]) < FirstIndex(xs, FirstAppearances(xs)[j])
  {
    if xs != [] {
      var init := xs[..|xs| - 1];
      var d := FirstAppearances(init);
      var x := xs[|xs| - 1];
      FirstAppearancesOrder(init);
      assert xs == init + [x];
      forall i | 0 <= i < |d| ensures FirstIndex(xs, d[i]) == FirstIndex(init, d[i]) {
        FirstIndexPrefix(xs, |xs| - 1, d[i]);
      }
      var d' := FirstAppearances(xs);
      if x !in d {
        assert x !in init;
        assert FirstIndex(xs, x) == |xs| - 1;
        assert d' == d + [x];
      } else {
        assert d' == d;
      }
      forall i, j | 0 <= i < j < |d'| ensures FirstIndex(xs, d'[i]) < FirstIndex(xs, d'[j]) {
        assert d'[i] == d[i] && FirstIndex(xs, d[i]) == FirstIndex(init, d[i]) < |init|;
        if j < |d| {
          assert d'[j] == d[j] && FirstIndex(xs, d[j]) == FirstIndex(init, d[j]);
          assert FirstIndex(init, d[i]) < FirstIndex(init, d[j]);
        } else {
          assert d'[j] == x && FirstIndex(xs, x) == |init|;
        }
      }
    }
  }
}
