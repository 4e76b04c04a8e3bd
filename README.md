# graphql-codegen core, modelled in Dafny

This project models the code generator of `graphql-codegen`
(`codegen/codegen.go`). The generator reads a GraphQL schema and renders one
Go source file per schema type through configurable text templates:

- **Type expressions** (`TypeExpr`). `getTypeName` turns a GraphQL type reference
  into a Go type expression:
  - a `*` for every nullable layer;
  - a `[]` for every LIST layer;
  - the Go type of a built-in scalar, or `<Name>Resolver` for any other named type.

  The imperative loop (its `goto check` becomes a `while` loop with `break`) is
  proved equal to a four-equation recursive definition. That definition is
  then shown to count the markers and to determine the wrapper chain.
- **Built-in scalars** (`TypeTable`). This is the table of the five built-in
  GraphQL scalars plus an entry for the kind string "SCALAR": their Go types,
  import lines and "do not generate" flags.
- **Imports** (`Imports`). `getImports` gives the import line of a reference's
  base type. `removeDuplicates` is a loop proved equal to a first-occurrence
  deduplication, which keeps no duplicates, keeps every element and keeps the
  order of first occurrences.
- **Naming helpers** (`Naming`). These are `capitalise`, `unCapitalise`,
  `returnString` and `strings.Trim(s, " \t")`.
- **Rendering** (`Render`). `generateField` and `generateType` are methods with
  nested loops over template variants and fields. Each is proved equal to a
  fold over the variants. When no variant is configured, the single variant
  "default" is used. The first error aborts the fold. The context handed to a
  type template lists the fields in order and each needed import exactly once.
- **The driver** (`Driver`). `Generate` is a loop over the schema's type
  catalogue and has these properties:
  - it skips `_`-prefixed introspection types and flagged built-in scalars;
  - it gives enums, input objects and unions an empty entry;
  - it renders every other type;
  - it keys the results by the lower-cased name followed by `_gen.go`, and the
    last write wins;
  - it fails fast with the first error and returns no files at all.

The template store, Go's `text/template` and the source formatter are
function-valued fields of `Render.Env`. Every property holds whatever those
functions do.

## Model

| member | source | states |
|---|---|---|
| Schema.KindName | codegen/codegen.go:252-258 | a reference's kind is "NON_NULL" exactly for a NON_NULL wrapper and "LIST" exactly for a LIST wrapper |
| TypeTable.IgnoredNames | codegen/codegen.go:22-54 | every table entry is flagged, so the names the driver skips as built-ins are exactly SCALAR, Boolean, Float, Int, ID and String |
| Naming.Capitalise | codegen/codegen.go:286-291 | any spelling of "id" becomes "ID"; otherwise only the first character changes, to a non-lower-case one, and the name is unchanged up to case |
| Naming.UnCapitalise | codegen/codegen.go:293-295 | only the first character changes, to a non-upper-case one, and the name is unchanged up to case |
| Naming.CapitaliseIdempotent | codegen/codegen.go:286-291 | capitalising twice is the same as capitalising once |
| Naming.CaseTransformsCommute | codegen/codegen.go:286-295 | capitalising an un-capitalised name equals capitalising it; un-capitalising a capitalised name restores the un-capitalised name, except that "id" comes back as "iD" |
| Naming.ReturnString | codegen/codegen.go:103-108 | a present description is returned as is and an absent one as "" |
| Naming.Trim | codegen/codegen.go:127 | the result is a contiguous slice of the input with blanks (space, tab) cut from both ends: the parts cut off are blank and the result neither starts nor ends with a blank |
| TypeExpr.TypeName | codegen/codegen.go:250-272 | the unwrapping loop returns exactly the Go type of the recursive definition, for every well-formed reference |
| TypeExpr.GoTypeSplit | codegen/codegen.go:264-269 | the Go type is the wrapper markers followed by the base: the scalar's Go type, or the name followed by "Resolver" |
| TypeExpr.MarkerCounts | codegen/codegen.go:250-262 | the Go type holds one "[" and one "]" per LIST layer; its "*" count plus the NON_NULL count is the LIST count plus one |
| TypeExpr.GoTypeDeterminesModifiers | codegen/codegen.go:250-272 | two references with the same Go type have the same chain of LIST and NON_NULL layers and bases with the same Go type |
| TypeExpr.TypeNameFixtures | codegen/codegen.go:250-272 | worked examples: String! is string, String is *string, ID! is graphql.ID, Post is *PostResolver, and the SCALAR entry maps to "" |
| TypeExpr.ListTypeNameFixtures | codegen/codegen.go:250-262 | [String!] is *[]string, [String!]! is []string, [String]! is []*string and [String] is *[]*string |
| TypeExpr.GetPointer | codegen/codegen.go:228-233 | the result is the type name itself exactly when the field's type is NON_NULL, and otherwise the name with one leading "*" |
| TypeExpr.PointerAgreesWithTypeName | codegen/codegen.go:228-233 | adding the pointer marker to the Go type of the field's non-null form gives the field's Go type |
| Imports.ImportsOf | codegen/codegen.go:235-248 | at most one import line: the base's table import path (which may be "") for a built-in scalar, none otherwise |
| Imports.ImportsFixtures | codegen/codegen.go:235-248 | ID! and [ID!] need the graphql-go import line; String, Int, Float and Boolean need the empty line ""; [Post]! needs nothing |
| Imports.Dedup | codegen/codegen.go:274-284 | the result has no duplicates, holds exactly the input's elements and is no longer than the input |
| Imports.DedupKeepsFirstOccurrenceOrder | codegen/codegen.go:274-284 | the elements of the result appear in the order of their first occurrences in the input |
| Imports.DedupOfNoDup | codegen/codegen.go:274-284 | a list without duplicates is returned unchanged |
| Imports.DedupIdempotent | codegen/codegen.go:274-284 | deduplicating twice is the same as deduplicating once |
| Imports.RemoveDuplicates | codegen/codegen.go:274-284 | the loop with its seen-set returns exactly the first-occurrence deduplication of its input |
| Render.WithDefault | codegen/codegen.go:180-183 | an empty variant list becomes the single variant "default" with no parameters; a non-empty one is kept |
| Render.NormalizedTypeConf | codegen/codegen.go:112-119 | the type's configuration keeps its field configuration; an empty variant list becomes exactly the single variant "default" with no parameters, and a non-empty one is left unchanged |
| Render.GenerateField | codegen/codegen.go:172-226 | the variant loop returns exactly the fold of the per-variant rendering over the configured (or default) variants, failing with the first lookup or parse error |
| Render.GenerateType | codegen/codegen.go:110-170 | the variant loop with its nested field loop returns exactly the formatted concatenation of every variant's rendering, failing with the first error of a lookup, a parse, a field or the formatter |
| Render.DefaultTypeVariantOnly | codegen/codegen.go:116-119 | a type with no configured variants is rendered with the single "default" variant, and the result is that rendering, formatted |
| Render.DefaultFieldVariantOnly | codegen/codegen.go:180-183 | a field with no configured variants is rendered with the single "default" variant |
| Render.VariantsFailOnUnknown | codegen/codegen.go:121-125 | if any variant names no known template, the variant loop fails |
| Render.UnknownTypeTemplate | codegen/codegen.go:121-125 | a type configured with an unknown variant cannot be rendered; if that variant comes first, the error is the template store's |
| Render.FieldVariantsImports | codegen/codegen.go:185-222 | each variant of a field adds the import lines of the field's type and nothing else |
| Render.FieldImports | codegen/codegen.go:222-225 | the import lines a field returns are exactly those of its type |
| Render.CollectFieldsOrder | codegen/codegen.go:137-146 | after the field loop, the i-th code and method fragments are those of the i-th field, and every field succeeded |
| Render.CollectFieldsImports | codegen/codegen.go:137-146 | the field loop's import list holds exactly the import lines of the fields |
| Render.TypeContextLists | codegen/codegen.go:132-165 | a type template sees the fields' code and methods in field order, and each import line a field type needs exactly once |
| Driver.FileName | codegen/codegen.go:82 | the file name is the lower-cased type name followed by "_gen.go" |
| Driver.FileNameInjective | codegen/codegen.go:82 | two types share a file exactly when their names agree up to case |
| Driver.Generate | codegen/codegen.go:62-101 | the driver loop returns exactly the fold of the per-type outcomes over the catalogue, or the parse error |
| Driver.CollectKeys | codegen/codegen.go:72-98 | a completed loop holds exactly the files written by some type |
| Driver.CollectUntouched | codegen/codegen.go:97 | a file that no later type writes keeps its text |
| Driver.CollectLastWins | codegen/codegen.go:97 | the last type that writes a file decides its text |
| Driver.CollectAborts | codegen/codegen.go:88-92 | the loop fails exactly when some type's rendering fails |
| Driver.CollectFirstAbort | codegen/codegen.go:88-92 | a failed loop reports the error of the first failing type |
| Driver.ParseFailurePropagates | codegen/codegen.go:63-66 | a schema parse error is the driver's result |
| Driver.OutcomeKeys | codegen/codegen.go:72-98 | for any rendering results, the files are exactly those of the types not skipped |
| Driver.GenerateKeys | codegen/codegen.go:72-98 | a successful run writes exactly the files of the types that are neither `_`-prefixed nor flagged built-ins |
| Driver.UnderscoreNeverWritten | codegen/codegen.go:74-76 | no `_`-prefixed type's file name is ever among the results |
| Driver.IgnoredNeverWritten | codegen/codegen.go:78-80 | a built-in scalar's file is never written unless a type that is not skipped has the same name up to case |
| Driver.OutcomeValues | codegen/codegen.go:86-97 | for any rendering results, a file holds what the last type writing it produced |
| Driver.GenerateValues | codegen/codegen.go:86-97 | a file's text is "" when the last type writing it is an enum, input object or union, and that type's rendered code otherwise |
| Driver.OutcomeFails | codegen/codegen.go:88-92 | for any rendering results, the run fails exactly when some rendered type fails |
| Driver.GenerateFails | codegen/codegen.go:88-92 | the run fails, returning no files, exactly when rendering some type fails |
| Driver.GenerateFirstError | codegen/codegen.go:88-92 | the run's error is that of the first type, in catalogue order, whose rendering fails |
| Driver.UnknownVariantAborts | codegen/codegen.go:121-125 | a rendered type configured with an unknown variant aborts the whole run |
| Driver.EnumOnlyFixture | codegen/codegen.go:72-98 | a schema of `__Schema`, String and an enum Status yields exactly one entry, "status_gen.go" with empty text, whatever the templates |

## Left out

- Schema parsing and introspection (`graphql.ParseSchema`, `Inspect`) belong to the graphql-go library. They are not part of this model. The driver takes the parser's result as its input: a type catalogue or an error.
- The template store (`GetTypeTemplate`, `GetPropertyTemplate`), Go's `text/template` and `FormatCode` are not part of this model. They are the function-valued fields of `Render.Env`, and no property depends on what they do.
- Template execution errors are dropped by the generator, so `Env.execute` is total.
- Logging (`log.Printf`) produces no result and is left out.
- Go map iteration order is random. The configured variants are therefore a sequence in whatever order the iteration gives, and no property depends on that order. The results map is a Dafny `map`.
- Template parameter bags (`map[string]interface{}`) are maps from string to string that the generator passes through unread. Of the configuration, only the per-type and per-field variants are modelled; the whole configuration reaches the templates as an opaque value.
- Possible types of interfaces and unions are modelled by their names only, which is all the generator reads.
- Case mapping covers ASCII letters only. Go's `strings.ToLower`/`ToUpper` handle all of Unicode, and `capitalise` converts the first byte, not the first character.
- Naming.Capitalise: Go indexes `str[0]` and panics on an empty string. The model requires a non-empty name, as GraphQL names always are. The same holds for Naming.UnCapitalise.
- TypeExpr.TypeName: the model requires that NON_NULL never wraps NON_NULL, which GraphQL forbids. Go would dereference a missing name at codegen/codegen.go:265 for such a reference. Render and Driver require the same of every field type of the schema.
- Render.GenerateType: a type without a field list, such as a user-defined scalar, is given an empty one. Go dereferences the library's field list at codegen/codegen.go:133, and what the library returns there is not part of this model.
- Driver.GenerateValues: enums, input objects and unions are only logged as not supported (codegen/codegen.go:93-94), yet line 97 still inserts an entry with empty text for them; the model does the same.
