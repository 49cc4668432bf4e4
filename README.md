# figma-to-typescript, modelled in Dafny

This project models the transformation core of figma-to-typescript. The
tool turns a design-tool export (variables, text styles and effect styles)
into TypeScript modules: one module of shared tokens and one per theme.
Each module exposes every token as a typed constant, nested by the token's
name path. The model covers these stages, one module and file each:

- **Variable classification** (`parser.dfy`). A variable's per-mode values
  become one shared value, or a per-theme map when there are several modes.
  No mode at all is an error.
- **Tokenizer** (`tokenizer.dfy`). Variables, text styles and effect styles
  are flattened into one ordered list of leaf tokens. Each token has a name
  path, an optional theme, a value and an origin. `tokenize` is a method
  with the source's nested loops, proved equal to a flat-map specification.
- **Bucketing** (`generator.dfy`). `groupBy` splits the tokens into
  per-theme buckets. It is a method over an insertion-ordered map, proved
  against a fold.
- **Graph builder** (`graph.dfy`). The flat token list is re-nested into a
  tree by writing each token at its name path. `assocPath` keeps the
  source's descent loop, which creates or reuses one intermediate object
  per step. It is proved equal to a recursive reference write, and the
  properties of a write are proved on that reference.
- **Alias resolver** (`resolver.dfy`). The id→variable table is built by a
  loop. `resolve` returns the target's path and whether it is local, or an
  error.
- **Naming convention** (`naming.dfy`). This covers the identifier
  grammar, bare versus quoted keys and the accessor chain. The chain is a
  method with the source's loop, plus a decoder that reads a chain back.
- **Colour serialization** (`colors.dfy`). It produces the `rgb(...)` or
  `rgba(...)` text, with `Math.round` and `toFixed(2)` written out over
  exact reals.
- **Emitter** (`emitter.dfy`). This covers the leaf case split, object
  literals, the import-path rewrite and the file layout. The file is a
  method that pushes statements in a loop. The emitted syntax is a small
  datatype (`syntax.dfy`).

JavaScript objects used as dictionaries are modelled as insertion-ordered
lists of `(key, value)` entries (`records.dfy`). An assignment replaces a
present key in place and appends an absent one. `Result` and an `Option`
standing for `undefined` are in `results.dfy`.

The `identifier` and `accessorChain` calls throw on an invalid name. A
throw is modelled as `Err(message)`, which ends the emission of the file.

A text style gives one token per top-level key other than `name`
(`src/tokenizer.ts:35-45`), whatever that key holds. A drop or inner shadow
gives exactly five tokens, for its x and y offsets, colour, radius and
spread (`src/tokenizer.ts:59-69`). Nothing is walked recursively.

## Model

| member | source | states |
|---|---|---|
| Results.ConstructorsTagged | src/result.ts:3-9 | `ok(v)` is tagged ok and carries exactly `v`; `err(e)` is tagged not-ok and carries exactly `e` |
| Results.TagsDisjoint | src/result.ts:1 | the two variants are told apart by the `ok` tag alone |
| Records.Get | src/graph.ts:22 | reading a key gives `None` exactly when the key is absent, and otherwise a value stored under that key |
| Records.GetSet | src/graph.ts:23-28 | after `obj[k] = v`, reading `k` gives `v` and every other key reads as before |
| Records.SetSet | src/graph.ts:28 | assigning a key twice keeps only the second value |
| Records.SetSame | src/graph.ts:25 | assigning a key the value it already holds changes nothing |
| Records.KeysSet | src/graph.ts:22-23 | an assignment keeps the key order and appends an absent key at the end |
| Records.SetDistinct | src/graph.ts:23 | an assignment keeps the keys distinct |
| Records.FirstAppearances | src/generator.ts:87-90 | the result holds every element of the input, only elements of the input, and each once |
| Records.FirstIndex | src/generator.ts:87-90 | the position of an element's first occurrence: the element is there and at no earlier position |
| Records.FirstAppearancesOrder | src/generator.ts:87-90 | the distinct elements are listed in the order of their first occurrences: of any two, the earlier one first occurs earlier |
| Parser.ValueShapes | src/parser.ts:9-36 | a value is exactly one of alias, boolean, string, number, rgba and rgb, and only rgba has an alpha field |
| Parser.ToVariable | src/parser.ts:77-97 | no mode gives the error "A variable must have at least one value"; one mode gives a shared variable holding that value; several modes give a per-theme variable whose theme map is the mode map unchanged; id and parsed name are carried over; a per-theme variable has at least two distinct themes |
| Tokenizer.ThemeTokensAt | src/tokenizer.ts:23-31 | one token per theme entry, in entry order, each with that entry's theme and value |
| Tokenizer.PropTokensAt | src/tokenizer.ts:36-44 | one token per text-style key, named by the style's path plus the key, with style origin and no theme |
| Tokenizer.CreateEffectToken | src/tokenizer.ts:75-86 | the token is named by the prefix plus the key, carries the value, has no theme and has style origin |
| Tokenizer.CreateEffectTokens | src/tokenizer.ts:55-73 | the tokens of one effect, chosen by its type: the five shadow tokens for a drop or inner shadow and none for any other type; Tokenizer.EffectTokensShape states their names, values and origin |
| Tokenizer.EffectTokensShape | src/tokenizer.ts:55-73 | a drop or inner shadow gives exactly five tokens named x, y, color, radius and spread, in that order, with the matching values; any other effect gives none |
| Tokenizer.EffectsTokensAreStyleTokens | src/tokenizer.ts:47-51 | every effect token has style origin and no theme |
| Tokenizer.PushVariableTokens | src/tokenizer.ts:15-32 | the inner loop over one variable appends exactly that variable's tokens |
| Tokenizer.PushTextStyleTokens | src/tokenizer.ts:36-44 | the inner loop over one text style appends exactly that style's tokens |
| Tokenizer.PushEffectStyleTokens | src/tokenizer.ts:48-50 | the inner loop over one effect style appends the tokens of each effect in turn |
| Tokenizer.Tokens | src/tokenizer.ts:11-53 | the tokenizer's output as a specification: every variable's tokens, then every text style's, then every effect style's, each group in input order; Tokenizer.Tokenize is proved equal to it, and Tokenizer.TokensWellFormed and the three `InOrder` lemmas state its properties |
| Tokenizer.Tokenize | src/tokenizer.ts:11-53 | the output is the variable tokens, then the text-style tokens, then the effect tokens, each group in input order |
| Tokenizer.TokensWellFormed | src/tokenizer.ts:14-51 | every token is well formed: a style token has no theme; a variable token has its variable's name, has a theme exactly when the variable is per-theme, and carries the shared value or the entry for its theme |
| Tokenizer.VariableTokensInOrder | src/tokenizer.ts:14-33 | the tokens of the i-th variable form one run, after those of earlier variables and before all later and all style tokens |
| Tokenizer.TextStyleTokensInOrder | src/tokenizer.ts:35-45 | the tokens of the i-th text style form one run, after every variable token and those of earlier text styles |
| Tokenizer.EffectStyleTokensInOrder | src/tokenizer.ts:47-51 | the tokens of the i-th effect style form one run, after every variable and text-style token |
| Tokenizer.SharedVariableToken | src/tokenizer.ts:15-21 | a shared variable gives exactly one token: no theme, the variable's name and value, variable origin |
| Tokenizer.ThemedVariableTokens | src/tokenizer.ts:22-32 | a per-theme variable gives one token per theme entry, in entry order, with that theme and value, the variable's name and variable origin |
| Graph.Put | src/graph.ts:15-29 | the reference write of a node at a key path: missing intermediate objects are created empty, existing ones reused, the last key assigned, and a path that runs into a token is not written; Graph.ChildPut, Graph.LookupPut, Graph.PutBlocked, Graph.LookupPutOther, Graph.PutAlongPath, Graph.PutKeepsOpen and Graph.PutKeys state its properties |
| Graph.KeyPath | src/graph.ts:20-28 | a non-empty name is its own key path; an empty one writes the single key "undefined" |
| Graph.ChildPut | src/graph.ts:20-28 | a write changes only the first segment's child, which becomes the written node or the updated object; a write into a token changes nothing |
| Graph.LookupPut | src/graph.ts:27-28 | after a write, reading its key path gives the written node, unless the path runs into a token |
| Graph.PutBlocked | src/graph.ts:20-25 | a write whose path runs into a token changes nothing |
| Graph.LookupPutOther | src/graph.ts:15-29 | a write leaves every path that parts ways with it unchanged, so siblings keep their values at every level |
| Graph.PutAlongPath | src/graph.ts:20-25 | each intermediate object on the path keeps its other children and has the rest of the path written into it; an existing object is reused, and only an absent one starts empty |
| Graph.PutKeepsOpen | src/graph.ts:20-28 | a write never puts a token on a strict prefix of its own path |
| Graph.PutKeys | src/graph.ts:22-23 | top-level keys keep their order, and a new first segment is appended |
| Graph.EnsurePathSnoc | src/graph.ts:20-26 | descending one segment further is one more create-if-absent step at the address reached so far |
| Graph.PutByDescent | src/graph.ts:20-28 | the descent followed by the assignment of the last segment is exactly the reference write |
| Graph.DescentStep | src/graph.ts:21-25 | one loop iteration of the descent adds one create-if-absent step |
| Graph.DescentComplete | src/graph.ts:20-28 | the descent over all but the last segment, then the assignment of the last one, is the reference write of the token's key path |
| Graph.AssocPath | src/graph.ts:15-29 | the descent loop and the final assignment produce exactly the reference write of the token at its key path |
| Graph.BuildGraph | src/graph.ts:7-13 | the graph as a specification: the empty object with each token written at its key path, in list order; Graph.CreateTokenGraph is proved equal to it, and Graph.BuildGraphKeys, Graph.LastWriteWins and Graph.LaterTokenWins state its properties |
| Graph.CreateTokenGraph | src/graph.ts:7-13 | the graph is the empty object with every token written at its name path, in list order |
| Graph.BuildEmpty | src/graph.ts:8-12 | an empty token list gives an empty graph |
| Graph.BuildGraphKeys | src/graph.ts:9-11 | top-level keys appear in the order their first segment was first written (the order stated by Records.FirstAppearancesOrder) |
| Graph.LastWriteWins | src/graph.ts:27-28 | right after a token is written, its key path reads back that token, unless the path runs into an earlier token |
| Graph.LaterTokenWins | src/graph.ts:9-11 | of two tokens with the same name, the graph holds the later one |
| Resolver.LookupOf | src/resolver.ts:6-9 | the table after registering each variable under its id, in order; Resolver.LookupOfDomain and Resolver.LookupOfLastWins state its domain and that a later variable replaces an earlier one |
| Resolver.IsSourceReference | src/resolver.ts:24-27 | a source token is a reference token exactly when it is a style token or a token of a shared variable; Resolver.ResolveCases and Resolver.StyleTokensNeedSharedTargets state how it decides resolution |
| Resolver.CreateAliasResolver | src/resolver.ts:5-9 | the table-building loop registers every variable in order |
| Resolver.LookupOfDomain | src/resolver.ts:6-9 | an id is in the table exactly when some variable carries it |
| Resolver.LookupOfLastWins | src/resolver.ts:6-9 | a registered id maps to the last variable that carries it |
| Resolver.Resolve | src/resolver.ts:11-37 | an unknown id gives "Could not find variable with id <id>"; on success the id is known and the path is the target's name |
| Resolver.ResolveCases | src/resolver.ts:23-36 | reference→reference and theme→theme are local, theme→reference is not local, and reference→theme is refused with "Reference tokens may not depend on theme tokens" |
| Resolver.ResolveSucceeds | src/resolver.ts:15-31 | resolution succeeds exactly when the id is known and the source is a theme token or the target is shared |
| Resolver.NonLocalIsThemeToShared | src/resolver.ts:33-36 | a non-local result always points from a theme token into the shared file |
| Resolver.StyleTokensNeedSharedTargets | src/resolver.ts:24-27 | a style token counts as a reference token, so it resolves only to shared targets, always locally |
| Resolver.ResolveDependsOnKind | src/resolver.ts:11-37 | the outcome depends on the source token only through whether it is a reference token |
| Resolver.ResolveFromVariables | src/resolver.ts:5-21 | over a table built from a variable list, success names the last variable carrying the id; an id no variable carries is not found |
| Naming.AllWordChars | src/ast.ts:253 | the scan accepts exactly the strings of word characters |
| Naming.IsValidIdentifier | src/ast.ts:252-254 | a name is valid exactly when it is non-empty, starts with a letter or `_`, and continues with word characters |
| Naming.Step | src/ast.ts:222-224 | a segment becomes a property access exactly when it is a valid identifier, and an element access otherwise |
| Naming.NamingConvention.Transform | src/ast.ts:247-249 | with no renaming configured, a name is left unchanged |
| Naming.NamingConvention.AssertIdentifier | src/ast.ts:240-245 | a valid name gives an identifier of that name; any other name throws "Invalid identifier: <name>" |
| Naming.NamingConvention.Identifier | src/ast.ts:236-238 | succeeds exactly when the transformed name is valid, giving that identifier; otherwise it throws the error for the transformed name |
| Naming.NamingConvention.Accessor | src/ast.ts:229-234 | never throws; the key is a bare identifier exactly when the transformed name is valid, and a string literal otherwise; either way it spells the transformed name |
| Naming.NamingConvention.TransformAll | src/ast.ts:219 | every part is transformed, in order |
| Naming.NamingConvention.Chain | src/ast.ts:218-227 | the chain `accessorChain` builds, as a specification: the transformed first part must be an identifier, and each later part is a property or element access; Naming.ChainRoundTrip states that it reads back as the transformed parts |
| Naming.NamingConvention.AccessorChain | src/ast.ts:218-227 | the loop builds exactly the chain of the transformed parts, or throws for an invalid root |
| Naming.ChainFromDecodes | src/ast.ts:220-226 | a chain from a valid root reads back as the root followed by the segments, and is in canonical form |
| Naming.ChainRoundTrip | src/ast.ts:218-227 | a chain succeeds exactly when the transformed first part is valid, then reads back as the transformed parts; otherwise it throws the error for the transformed root |
| Naming.ChainOfNothing | src/ast.ts:219-220 | a chain of no parts succeeds with a bare root and no accesses; the root is the model's identifier "undefined", standing for an identifier built from the value `undefined` |
| Naming.CanonicalChainUnique | src/ast.ts:221-225 | two canonical chains with the same segments are the same expression |
| Colors.Round | src/ast.ts:263 | the result is the integer within half of the input, with halves rounded up |
| Colors.NatToString | src/ast.ts:258 | a natural number prints as one or more decimal digits, with no leading zero |
| Colors.IntToString | src/ast.ts:258 | an integer prints as digits with an optional minus sign, present exactly for negative numbers |
| Colors.NatToStringRoundTrip | src/ast.ts:258 | the printed digits read back as the number |
| Colors.IntToStringRoundTrip | src/ast.ts:258 | a printed integer reads back as the integer |
| Colors.Hundredths | src/ast.ts:258 | the text has at least one digit before a point and exactly two digits after it |
| Colors.HundredthsRoundTrip | src/ast.ts:258 | the two-decimal text without its point reads back as the hundredths it came from |
| Colors.ToFixed2Value | src/ast.ts:258 | for a non-negative alpha, `toFixed(2)` prints digits, a point and two digits, whose value is within half a hundredth of the alpha |
| Colors.ToFixed2 | src/ast.ts:258 | `toFixed(2)`: a minus sign for a negative number, then the magnitude rounded to hundredths with halves up; Colors.ToFixed2Value states its form and its distance from the number |
| Colors.Channel | src/ast.ts:263 | `Math.round(value * 255)`, with rounding as stated by Colors.Round |
| Colors.SerializeColor | src/ast.ts:256-261 | `serializeColor`: the three channels, and the alpha to two decimals when it is other than 1; Colors.SerializeColorForm and Colors.ChannelText state its form and channels |
| Colors.SerializeColorForm | src/ast.ts:256-261 | the `rgba(` form is chosen exactly when the colour has an alpha other than 1, and the `rgb(` form otherwise; the text ends with `)` |
| Colors.ChannelText | src/ast.ts:263 | a channel prints as the integer nearest to 255 times its value |
| Emitter.ToTypescriptImportPath | src/ast.ts:202-204 | backslashes become slashes, then a final dot with characters after it is cut off with them; Emitter.ImportPathRewrite states the result |
| Emitter.ForwardSlashes | src/ast.ts:203 | every backslash becomes a slash, and every other character is kept |
| Emitter.LastDot | src/ast.ts:203 | finds the position of the last dot exactly when there is one |
| Emitter.ImportPathRewrite | src/ast.ts:202-204 | the rewritten path has no backslash; it is the slash-normalised path unless that has a final dot with characters after it, in which case it is cut just before that dot |
| Emitter.NumberExpr | src/ast.ts:75-85 | a negative number becomes unary minus over its magnitude, and any other number a plain literal |
| Emitter.LeafElement | src/ast.ts:66-125 | a token's element: booleans, numbers and strings as literals, colours as their serialized string, an alias as a `null` for a failed resolution, a chain through the import name for a non-local target, or a getter over the target's path; Emitter.LiteralLeaf and Emitter.AliasLeaf state these cases |
| Emitter.DesignTokenNode | src/ast.ts:55-126 | `AST_designTokenNode`: a token gives its leaf element, an object a property holding its object literal or that literal's error; Emitter.ElementAt ties it to the graph's entries |
| Emitter.LiteralLeaf | src/ast.ts:69-96 | a non-alias leaf always becomes a property: booleans, numbers and strings as literals that read back as the value, colours as the serialized string; number literals are never negative |
| Emitter.AliasLeaf | src/ast.ts:97-124 | a failed resolution becomes `null` with the comment " Error: Skipped alias. <error>"; a non-local target becomes a property holding the chain through the import name; a local one becomes a getter over the target's path; only the chains can throw |
| Emitter.ThemeToSharedAlias | src/ast.ts:110-118 | a theme token aliasing a shared variable reads the target through the namespace import, segment by segment |
| Emitter.DesignTokenGraph | src/ast.ts:128-154 | `AST_designTokenGraph`: an object literal of the members for the entries, or the first failing entry's error; Emitter.GraphLiteral and Emitter.GraphFirstError state this |
| Emitter.ElementAt | src/ast.ts:134-139 | entry i's element is the outcome of emitting entry i's node |
| Emitter.GraphMembers | src/ast.ts:134-152 | when the mapping succeeds, there is one member per entry |
| Emitter.GraphMembersSucceed | src/ast.ts:134-152 | the members are produced exactly when every entry's element is |
| Emitter.GraphMembersShape | src/ast.ts:140-151 | the members correspond one to one, in order, to the entries, each built from the transformed key and its element |
| Emitter.GraphMemberKeys | src/ast.ts:142-146 | each member's key spells the transformed entry name, and is bare exactly when that name is a valid identifier |
| Emitter.GraphMembersFirstError | src/ast.ts:134-139 | a failed mapping carries the error of the first entry whose element failed |
| Emitter.GraphLiteral | src/ast.ts:128-154 | an object becomes an object literal exactly when every entry can be emitted, with one member per entry in entry order |
| Emitter.GraphFirstError | src/ast.ts:128-154 | when an object cannot be emitted, the error is that of its first entry that cannot be |
| Emitter.ImportAllAs | src/ast.ts:156-172 | the import succeeds exactly when the transformed name is valid, and binds that identifier to the given path |
| Emitter.TypeAliasFor | src/ast.ts:174-187 | `AST_typeAlias`: the statement `export type X = keyof typeof X` for the given names; Emitter.EntryStatementsShape and Emitter.FileEntry state where it is placed |
| Emitter.AsConstExport | src/ast.ts:189-200 | `AST_asConstExport`: the statement `export const X = init`; Emitter.EntryStatementsShape and Emitter.FileEntry state where it is placed |
| Emitter.EntryInitializer | src/ast.ts:32-42 | the initializer of a top-level entry: a token's element value, or an object's literal, or the error of either; Emitter.InitializerAt and Emitter.FileProduced state how it decides the file |
| Emitter.InitializerAt | src/ast.ts:32-42 | entry i's initializer is the outcome of emitting entry i |
| Emitter.PushImport | src/ast.ts:18-26 | the import of the shared file is pushed unless the shared file is this file, and it throws when the import name is invalid |
| Emitter.PushEntry | src/ast.ts:29-42 | one loop iteration appends the entry's type alias and const export, or ends with the entry's error |
| Emitter.DesignTokenFile | src/ast.ts:10-53 | the loop produces exactly the import, then each entry's statements, or the first error |
| Emitter.EntryStatements | src/ast.ts:29-42 | the two statements of one top-level entry, given its initializer: the type alias, then the const export, both named by the transformed key, or the error of the name or of the initializer; Emitter.EntryStatementsShape states this |
| Emitter.FileStatements | src/ast.ts:16-43 | the statements for the first entries as a specification: the import when the shared file is another file, then each entry's type alias and const export, stopping at the first error; Emitter.DesignTokenFile is proved equal to it, and Emitter.FileLayout, Emitter.FileEntry and Emitter.FileSucceeds state its properties |
| Emitter.FileStart | src/ast.ts:16-26 | before any entry, the statements are the import when the shared file is another file, and nothing otherwise |
| Emitter.FileNext | src/ast.ts:28-43 | one more entry appends its two statements, or ends emission with its error |
| Emitter.FileErrorSticks | src/ast.ts:28-43 | once a statement throws, later entries change nothing |
| Emitter.EntryStatementsShape | src/ast.ts:29-42 | an entry is emitted exactly when its transformed name is valid and its initializer succeeds, as a type alias followed by a const export, both named by that identifier |
| Emitter.FileLayout | src/ast.ts:16-43 | the file has the import first exactly when the shared file is another file, then two statements per entry |
| Emitter.FileEntry | src/ast.ts:28-43 | entry i contributes a type alias immediately followed by a const export of its initializer, both named by the same transformed identifier, at its place after the import and the earlier entries |
| Emitter.FileSucceeds | src/ast.ts:16-43 | the statements are produced exactly when the import name (if needed), every top-level name and every initializer can be emitted |
| Emitter.FileProduced | src/ast.ts:10-53 | the file is produced exactly when the import name (if needed) and every top-level name are valid identifiers, and every top-level entry can be emitted |
| Generator.FindGroup | src/generator.ts:86 | finds the list of a key exactly when the key is in the map |
| Generator.Grouped | src/generator.ts:82-94 | the map `groupBy` returns, as a specification: each value pushed in input order onto its key's list, a new key's list created at the end; Generator.GroupBy is proved equal to it, and Generator.GroupedKeys, Generator.GroupedLists and Generator.GroupedCovers state its properties |
| Generator.GroupBy | src/generator.ts:82-94 | the loop builds exactly the map of every value added in input order |
| Generator.GroupedKeys | src/generator.ts:87-90 | the map's keys are the distinct keys, in order of first appearance (the order stated by Records.FirstAppearancesOrder) |
| Generator.GroupedLists | src/generator.ts:84-91 | each key's list is exactly the values with that key, in input order |
| Generator.GroupedCovers | src/generator.ts:84-91 | every value's key has a list, and no list is empty |
| Generator.MembersContain | src/generator.ts:91 | every value is in its key's list |
| Generator.GroupedSizes | src/generator.ts:84-91 | the list lengths add up to the number of values |
| Generator.ThemeBuckets | src/generator.ts:32 | the bucket under no theme holds exactly the shared tokens, in order, and exists exactly when some token has no theme |

## Left out

- The CLI (`src/cli.ts`, `src/index.ts`) and file output (`src/io.ts`) are I/O and are not part of this model.
- `generate` beyond `groupBy` is not modelled: file reading, JSON parsing, the per-file fan-out, the TypeScript printer and formatting are I/O, concurrency or foreign code.
- The zod schemas are not modelled; the values and variables are taken as already validated datatypes. The name parser is a function parameter of `Parser.ToVariable`.
- The TypeScript factory API is replaced by the `Syntax` datatype. The trailing comment on `null` is a field of the `Null` constructor.
- `isShared` and `isReference` are one flag, `Variable.IsShared`. The generator's call without the naming convention is modelled as if the convention were passed.
- `isDesignToken` is replaced by the `Leaf`/`Interior` node constructors, so a token can never be confused with an object.
- Tokenizer.PropTokensAt: a text style's properties are the entry list of its keys other than `name`. The parser's nested `props` field (`src/parser.ts:100-108`) disagrees with the destructuring in the tokenizer; the model follows the tokenizer.
- Objects are insertion-ordered. JavaScript lists integer-like keys first, in numeric order, and that reordering is not modelled. Prototype keys such as `constructor` seen by `in` are not modelled either.
- Graph.Put: a write whose path runs into a token is dropped. The source instead sets a property on the token object. Under the key `value` or `origin` that breaks later emission: a leaf whose `value` is an object has no `type`, so no element is produced and the destructuring at `src/ast.ts:33` or `src/ast.ts:135` throws, and a replaced `origin` makes the check at `src/resolver.ts:24-27` throw when it reads `variable` from the token object, which has none. A longer path through `value` changes the emitted value. The model does not capture these outcomes.
- Graph.KeyPath: an empty name path writes the key "undefined", the string JavaScript makes of `name[0]` when the name is empty.
- Naming.NamingConvention.Chain: with no parts the source builds an identifier from the value `undefined` (`src/ast.ts:219-220`). The model renders that root as the identifier "undefined", which is its stand-in, not literally what the printer would produce.
- Graph.AssocPath: an object reference is modelled by its key path from the root. The intermediate objects are fresh literals, so no two paths share one.
- Generator.GroupBy: the pushed-onto list is updated in the map's entry by value. The list aliasing between `list` and the map is not modelled.
- Resolver.Resolve: the resolver closure is modelled as the table it closes over, passed explicitly.
- Numbers are exact reals, not IEEE doubles. `Math.round` and `toFixed(2)` are stated on exact values; `toFixed`'s exponent form for values of 1e21 and above is not modelled.
- Emitter.GraphMembers: every entry's element is computed and the first failing one gives the error. The source stops at the first throw. Without side effects the outcome is the same.
- Emitter.PushEntry: the source pushes the type alias before the export's initializer throws. The array is then discarded, so the model does not record that push.
