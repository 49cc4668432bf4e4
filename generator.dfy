/**
 * Bucketing: `groupBy` splits a list into groups by a key, keeping the
 * groups in the order their keys first appear and each group in input
 * order. The generator uses it to split tokens by theme, tokens with no
 * theme forming the shared bucket.
 */
module Generator {
  import opened Results
  import opened Records
  import opened Tokenizer

  /** A `Map` from keys to lists, as its insertion-ordered entries. */
  type Groups<K, V> = seq<(K, seq<V>)>

  function KeysOf<K, V>(groups: Groups<K, V>): (ks: seq<K>)
    ensures |ks| == |groups|
    ensures forall i :: 0 <= i < |groups| ==> ks[i] == groups[i].0
  {
    if groups == [] then [] else KeysOf(groups[..|groups| - 1]) + [groups[|groups| - 1].0]
  }

  /** The position of `key`'s entry (`result.get(key)`), `None` when it has none. */
  function FindGroup<K(==), V>(groups: Groups<K, V>, key: K): (r: Option<nat>)
    ensures r.None? <==> key !in KeysOf(groups)
    ensures r.Some? ==> r.value < |groups| && groups[r.value].0 == key
  {
    if groups == [] then None
    else if groups[|groups| - 1].0 == key then Some(|groups| - 1)
    else FindGroup(groups[..|groups| - 1], key)
  }

  /** One step of the loop: push `value` onto its key's list, creating the list at the end of the map when the key is new. */
  function AddToGroup<K(==), V>(groups: Groups<K, V>, key: K, value: V): Groups<K, V>
  {
    var found := FindGroup(groups, key);
    if found.Some? then groups[found.value := (key, groups[found.value].1 + [value])]
    else groups + [(key, [value])]
  }

  /** The map `groupBy` returns: every value added in input order. */
  function Grouped<K(==), V>(getGroup: V -> K, values: seq<V>): Groups<K, V>
  {
    if values == [] then []
    else
      var last := values[|values| - 1];
      AddToGroup(Grouped(getGroup, values[..|values| - 1]), getGroup(last), last)
  }

  /** `groupBy`: look each value's key up, create an empty list for a new key, and push the value onto the list. */
  method GroupBy<K(==), V>(getGroup: V -> K, values: seq<V>) returns (result: Groups<K, V>)
    ensures result == Grouped(getGroup, values)
  {
    result := [];
    for i := 0 to |values|
      invariant result == Grouped(getGroup, values[..i])
    {
      var value := values[i];
      var key := getGroup(value);
      ghost var before := result;
      var list := FindGroup(result, key);
      if list.None? {
        result := result + [(key, [])];
        list := Some(|result| - 1);
      }
      var index := list.value;
      result := result[index := (key, result[index].1 + [value])];
      if FindGroup(before, key).None? {
        assert [] + [value] == [value];
        assert result == before + [(key, [value])];
      }
      assert result == AddToGroup(before, key, value);
      assert values[..i + 1][..i] == values[..i];
    }
    assert values[..|values|] == values;
  }

  /** The keys of the values, in input order. */
  function KeySequence<K, V>(getGroup: V -> K, values: seq<V>): (ks: seq<K>)
    ensures |ks| == |values|
    ensures forall i :: 0 <= i < |values| ==> ks[i] == getGroup(values[i])
  {
    if values == [] then [] else KeySequence(getGroup, values[..|values| - 1]) + [getGroup(values[|values| - 1])]
  }

  /** The values whose key is `key`, in input order. */
  function Members<K(==), V>(getGroup: V -> K, values: seq<V>, key: K): (m: seq<V>)
    ensures |m| <= |values|
    ensures forall i :: 0 <= i < |m| ==> getGroup(m[i]) == key
  {
    if values == [] then []
    else
      var last := values[|values| - 1];
      Members(getGroup, values[..|values| - 1], key) + (if getGroup(last) == key then [last] else [])
  }

  lemma {:induction false} MembersAbsent<K, V>(getGroup: V -> K, values: seq<V>, key: K)
    requires key !in KeySequence(getGroup, values)
    ensures Members(getGroup, values, key) == []
  {
    if values != [] {
      var init := values[..|values| - 1];
      assert KeySequence(getGroup, values) == KeySequence(getGroup, init) + [getGroup(values[|values| - 1])];
      MembersAbsent(getGroup, init, key);
    }
  }

  /** The map's keys are the distinct keys in order of first appearance. */
  lemma {:induction false} GroupedKeys<K, V>(getGroup: V -> K, values: seq<V>)
    ensures KeysOf(Grouped(getGroup, values)) == FirstAppearances(KeySequence(getGroup, values))
  {
    if values != [] {
      var init := values[..|values| - 1];
      var v := values[|values| - 1];
      var k := getGroup(v);
      var g := Grouped(getGroup, init);
      GroupedKeys(getGroup, init);
      var ks := KeySequence(getGroup, init);
      assert KeySequence(getGroup, values) == ks + [k];
      assert (ks + [k])[..|ks|] == ks;
      var g' := AddToGroup(g, k, v);
      assert Grouped(getGroup, values) == g';
      var found := FindGroup(g, k);
      assert FirstAppearances(ks + [k]) == if k in FirstAppearances(ks) then FirstAppearances(ks) else FirstAppearances(ks) + [k];
      if found.Some? {
        assert KeysOf(g') == KeysOf(g) by {
          assert forall i :: 0 <= i < |g'| ==> KeysOf(g')[i] == KeysOf(g)[i];
        }
        assert KeysOf(g)[found.value] == k;
      } else {
        assert KeysOf(g') == KeysOf(g) + [k] by {
          assert forall i :: 0 <= i < |g'| ==> KeysOf(g')[i] == (KeysOf(g) + [k])[i];
        }
      }
    }
  }

  /** Each key's list is exactly the values with that key, in input order. */
  lemma {:induction false} GroupedLists<K, V>(getGroup: V -> K, values: seq<V>)
    ensures forall i :: 0 <= i < |Grouped(getGroup, values)| ==>
      Grouped(getGroup, values)[i].1 == Members(getGroup, values, Grouped(getGroup, values)[i].0)
  {
    if values != [] {
      var init := values[..|values| - 1];
      var v := values[|values| - 1];
      var k := getGroup(v);
      var g := Grouped(getGroup, init);
      GroupedLists(getGroup, init);
      GroupedKeys(getGroup, init);
      var ks := KeySequence(getGroup, init);
      var g' := AddToGroup(g, k, v);
      var found := FindGroup(g, k);
      forall i | 0 <= i < |g'|
        ensures g'[i].1 == Members(getGroup, values, g'[i].0)
      {
        var key := g'[i].0;
        assert Members(getGroup, values, key) == Members(getGroup, init, key) + (if k == key then [v] else []);
        if found.Some? {
          if i != found.value {
            assert KeysOf(g)[i] != KeysOf(g)[found.value];
          }
        } else if i < |g| {
          assert KeysOf(g)[i] != k;
        } else {
          assert k !in ks;
          MembersAbsent(getGroup, init, k);
        }
      }
    }
  }

  /** Every value is in its key's list, and no list is empty. */
  lemma GroupedCovers<K, V>(getGroup: V -> K, values: seq<V>)
    ensures forall i :: 0 <= i < |values| ==>
      exists j :: 0 <= j < |Grouped(getGroup, values)| && Grouped(getGroup, values)[j].0 == getGroup(values[i])
    ensures forall j :: 0 <= j < |Grouped(getGroup, values)| ==> |Grouped(getGroup, values)[j].1| > 0
  {
    var g := Grouped(getGroup, values);
    var ks := KeySequence(getGroup, values);
    GroupedKeys(getGroup, values);
    GroupedLists(getGroup, values);
    forall i | 0 <= i < |values|
      ensures exists j :: 0 <= j < |g| && g[j].0 == getGroup(values[i])
    {
      assert ks[i] in KeysOf(g);
      var j :| 0 <= j < |g| && KeysOf(g)[j] == ks[i];
      assert g[j].0 == getGroup(values[i]);
    }
    forall j | 0 <= j < |g|
      ensures |g[j].1| > 0
    {
      assert KeysOf(g)[j] in ks;
      var i :| 0 <= i < |values| && ks[i] == g[j].0;
      MembersContain(getGroup, values, i);
    }
  }

  lemma {:induction false} MembersContain<K, V>(getGroup: V -> K, values: seq<V>, i: nat)
    requires i < |values|
    ensures values[i] in Members(getGroup, values, getGroup(values[i]))
  {
    var init := values[..|values| - 1];
    if i < |values| - 1 {
      MembersContain(getGroup, init, i);
      assert values[i] == init[i];
    }
  }

  /** The total number of values over all lists. */
  function TotalSize<K, V>(groups: Groups<K, V>): nat
  {
    if groups == [] then 0 else TotalSize(groups[..|groups| - 1]) + |groups[|groups| - 1].1|
  }

  lemma {:induction false} TotalSizePush<K, V>(groups: Groups<K, V>, j: nat, v: V)
    requires j < |groups|
    ensures TotalSize(groups[j := (groups[j].0, groups[j].1 + [v])]) == TotalSize(groups) + 1
  {
    var g' := groups[j := (groups[j].0, groups[j].1 + [v])];
    var n := |groups|;
    if j < n - 1 {
      assert g'[..n - 1] == groups[..n - 1][j := (groups[j].0, groups[j].1 + [v])];
      TotalSizePush(groups[..n - 1], j, v);
    } else {
      assert g'[..n - 1] == groups[..n - 1];
    }
  }

  /** The list lengths add up to the number of values: nothing is lost or duplicated. */
  lemma {:induction false} GroupedSizes<K, V>(getGroup: V -> K, values: seq<V>)
    ensures TotalSize(Grouped(getGroup, values)) == |values|
  {
    if values != [] {
      var init := values[..|values| - 1];
      var v := values[|values| - 1];
      var g := Grouped(getGroup, init);
      GroupedSizes(getGroup, init);
      var found := FindGroup(g, getGroup(v));
      if found.Some? {
        TotalSizePush(g, found.value, v);
      } else {
        assert (g + [(getGroup(v), [v])])[..|g|] == g;
      }
    }
  }

  /** The theme of a token, the key the generator groups by. */
  function ThemeOf(t: Token): Option<string>
  {
    t.theme
  }

  /** Tokens split by theme: the bucket under `None` holds exactly the tokens without a theme, the shared ones, in order. */
  lemma ThemeBuckets(tokens: seq<Token>)
    ensures forall j :: 0 <= j < |Grouped(ThemeOf, tokens)| ==>
      Grouped(ThemeOf, tokens)[j].1 == Members(ThemeOf, tokens, Grouped(ThemeOf, tokens)[j].0)
    ensures (exists i :: 0 <= i < |tokens| && tokens[i].theme.None?) <==> None in KeysOf(Grouped(ThemeOf, tokens))
  {
    GroupedKeys(ThemeOf, tokens);
    GroupedLists(ThemeOf, tokens);
    var ks := KeySequence(ThemeOf, tokens);
    if exists i :: 0 <= i < |tokens| && tokens[i].theme.None? {
      var i :| 0 <= i < |tokens| && tokens[i].theme.None?;
      assert ks[i] == None;
    }
    if None in KeysOf(Grouped(ThemeOf, tokens)) {
      assert None in ks;
    }
  }
}
