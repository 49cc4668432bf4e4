/**
 * The alias resolver: an id-indexed table of variables, and the rule that
 * decides where an alias from a token points and whether that target lives
 * in the same generated file as the token.
 */
module Resolver {
  import opened Results
  import opened Parser
  import opened Tokenizer

  /** Where an alias resolved to: the target's name path, and whether it is in the same file as the token. */
  datatype ResolvedAlias = ResolvedAlias(isLocal: bool, path: seq<string>)

  const ReferenceOnThemeError := "Reference tokens may not depend on theme tokens"

  function NotFoundError(id: string): string
  {
    "Could not find variable with id " + id
  }

  /** The table after registering every variable in order: a later variable replaces an earlier one with the same id. */
  function LookupOf(variables: seq<Variable>): map<string, Variable>
  {
    if variables == [] then map[]
    else
      var v := variables[|variables| - 1];
      LookupOf(variables[..|variables| - 1])[v.id := v]
  }

  /** `createAliasResolver`'s table-building loop. */
  method CreateAliasResolver(variables: seq<Variable>) returns (lookup: map<string, Variable>)
    ensures lookup == LookupOf(variables)
  {
    lookup := map[];
    for i := 0 to |variables|
      invariant lookup == LookupOf(variables[..i])
    {
      assert variables[..i + 1][..i] == variables[..i];
      lookup := lookup[variables[i].id := variables[i]];
    }
    assert variables[..|variables|] == variables;
  }

  /** An id is in the table exactly when some variable carries it. */
  lemma {:induction false} LookupOfDomain(variables: seq<Variable>, id: string)
    ensures id in LookupOf(variables) <==> exists i :: 0 <= i < |variables| && variables[i].id == id
  {
    if variables != [] {
      var init, v := variables[..|variables| - 1], variables[|variables| - 1];
      LookupOfDomain(init, id);
      assert LookupOf(variables) == LookupOf(init)[v.id := v];
      if v.id != id {
        if exists i :: 0 <= i < |variables| && variables[i].id == id {
          var i :| 0 <= i < |variables| && variables[i].id == id;
          assert init[i] == variables[i];
        }
        if id in LookupOf(init) {
          var i :| 0 <= i < |init| && init[i].id == id;
          assert variables[i] == init[i];
        }
      }
    }
  }

  /** A registered id maps to the last variable that carries it. */
  lemma {:induction false} LookupOfLastWins(variables: seq<Variable>, id: string)
    requires id in LookupOf(variables)
    ensures exists i :: (0 <= i < |variables| && variables[i].id == id && LookupOf(variables)[id] == variables[i] &&
      forall j :: i < j < |variables| ==> variables[j].id != id)
  {
    var init, v := variables[..|variables| - 1], variables[|variables| - 1];
    assert LookupOf(variables) == LookupOf(init)[v.id := v];
    if v.id == id {
      assert variables[|variables| - 1].id == id && LookupOf(variables)[id] == variables[|variables| - 1];
    } else {
      LookupOfLastWins(init, id);
      var i :| 0 <= i < |init| && init[i].id == id && LookupOf(init)[id] == init[i] &&
        forall j :: i < j < |init| ==> init[j].id != id;
      assert variables[i] == init[i];
      assert forall j :: i < j < |variables| ==> variables[j].id != id by {
        forall j | i < j < |variables| ensures variables[j].id != id {
          if j < |init| {
            assert variables[j] == init[j];
          }
        }
      }
    }
  }

  /** Whether a token is a "reference" token: every style token is; a variable token is when its variable is shared. */
  predicate IsSourceReference(source: Token)
  {
    source.origin.StyleOrigin? || source.origin.variable.IsShared()
  }

  /** `resolve`: look the alias's id up, refuse a reference token pointing at a theme variable, and report the target's path. */
  function Resolve(lookup: map<string, Variable>, source: Token, alias: Value): (r: Result<ResolvedAlias, string>)
    requires alias.Alias?
    ensures alias.id !in lookup ==> r == Err(NotFoundError(alias.id))
    ensures r.Ok? ==> alias.id in lookup && r.value.path == lookup[alias.id].name
  {
    if alias.id !in lookup then
      Err(NotFoundError(alias.id))
    else
      var resolved := lookup[alias.id];
      var isTargetRef := resolved.IsShared();
      var isSourceRef := IsSourceReference(source);
      if isSourceRef && !isTargetRef then
        Err(ReferenceOnThemeError)
      else
        Ok(ResolvedAlias(isSourceRef == isTargetRef, resolved.name))
  }

  /**
   * The four combinations of source and target kind, for a known id: a
   * reference token may point at a reference variable (same file); a theme
   * token may point at a theme variable (same file) or at a reference
   * variable (the shared file); a reference token pointing at a theme
   * variable is refused.
   */
  lemma ResolveCases(lookup: map<string, Variable>, source: Token, alias: Value)
    requires alias.Alias? && alias.id in lookup
    ensures var r := Resolve(lookup, source, alias);
      var targetShared := lookup[alias.id].IsShared();
      (IsSourceReference(source) && targetShared ==> r == Ok(ResolvedAlias(true, lookup[alias.id].name))) &&
      (IsSourceReference(source) && !targetShared ==> r == Err(ReferenceOnThemeError)) &&
      (!IsSourceReference(source) && targetShared ==> r == Ok(ResolvedAlias(false, lookup[alias.id].name))) &&
      (!IsSourceReference(source) && !targetShared ==> r == Ok(ResolvedAlias(true, lookup[alias.id].name)))
  {
  }

  /** Resolution succeeds exactly when the id is known and the source is a theme token or the target is shared. */
  lemma ResolveSucceeds(lookup: map<string, Variable>, source: Token, alias: Value)
    requires alias.Alias?
    ensures Resolve(lookup, source, alias).Ok? <==>
      alias.id in lookup && (!IsSourceReference(source) || lookup[alias.id].IsShared())
  {
  }

  /** A non-local result always points from a theme token into the shared file. */
  lemma NonLocalIsThemeToShared(lookup: map<string, Variable>, source: Token, alias: Value)
    requires alias.Alias?
    requires Resolve(lookup, source, alias).Ok? && !Resolve(lookup, source, alias).value.isLocal
    ensures !IsSourceReference(source) && lookup[alias.id].IsShared()
  {
  }

  /** Every style token is a reference token, so a style token may only point at shared variables. */
  lemma StyleTokensNeedSharedTargets(lookup: map<string, Variable>, source: Token, alias: Value)
    requires alias.Alias? && source.origin.StyleOrigin?
    ensures Resolve(lookup, source, alias).Ok? ==>
      alias.id in lookup && lookup[alias.id].IsShared() && Resolve(lookup, source, alias).value.isLocal
  {
  }

  /** The outcome depends on the source token only through whether it is a reference token. */
  lemma ResolveDependsOnKind(lookup: map<string, Variable>, s1: Token, s2: Token, alias: Value)
    requires alias.Alias?
    requires IsSourceReference(s1) == IsSourceReference(s2)
    ensures Resolve(lookup, s1, alias) == Resolve(lookup, s2, alias)
  {
  }

  /** Over a table built from a variable list, a successful resolution names the last variable carrying the id. */
  lemma ResolveFromVariables(variables: seq<Variable>, source: Token, alias: Value)
    requires alias.Alias?
    ensures Resolve(LookupOf(variables), source, alias).Ok? ==>
      exists i :: 0 <= i < |variables| && variables[i].id == alias.id &&
        Resolve(LookupOf(variables), source, alias).value.path == variables[i].name &&
        forall j :: i < j < |variables| ==> variables[j].id != alias.id
    ensures (forall i :: 0 <= i < |variables| ==> variables[i].id != alias.id) ==>
      Resolve(LookupOf(variables), source, alias) == Err(NotFoundError(alias.id))
  {
    LookupOfDomain(variables, alias.id);
    if alias.id in LookupOf(variables) {
      LookupOfLastWins(variables, alias.id);
    }
  }
}
