# protoc-gen-go_api: the REST call compiler, in Dafny

protoc-gen-go_api is a protoc plugin. It reads the google.api.http binding
of every RPC method of the files it is asked to generate. It writes one Go
client file per proto file. Each unary method gets a body that:

- builds the request URL from the binding's template;
- copies the query parameters and the form fields out of the request
  message;
- attaches the request body;
- calls the HTTP session method named after the verb.

This project models that core. It covers goapi/rest.go, the compiler from a
binding to the Go statements of one method. It also covers goapi/gen.go,
which walks files, services and methods, derives names, and ends a run at
the first error.

The model works over an explicit, read-only schema instead of the global
descriptor index. The schema is `Descriptors.Schema`, a map from
fully-qualified, dot-prefixed type name to a message, whose fields are kept
in declaration order. The identity of a field descriptor (Go compares
descriptor pointers) is `Descriptors.FieldRef`: the owning message's key,
the position there, and the field.

A Go panic becomes `Fail(Panic)`. The panics are:

- a failed type assertion on a type name missing from the index;
- the nil binding of a method without options.

An error the Go code returns becomes `Fail(Error(message))`.

Collaborators whose code is not part of this model are the fields of
`Descriptors.Externals`:

- the query-string, form and multipart templates;
- the streaming stubs;
- the file renderer;
- the option parser;
- the release string.

Many operations are written as imperative methods with loops, as the Go
code is: snakeToCamel, buildAccessor, lookupField, baseURL, pathParams,
formParams, the leaf filter of queryParams and bodyForm, the getLeafs
closures, and the loops of gen.go. Each is proved equal to a specification
function, and the properties are proved about those functions.

getLeafs shares one map between recursive closures. It is modelled as the
class `Leafs.LeafCollector`, whose field `pathsToLeafs` the methods
`HandleLeaf`, `HandleMsg` and `Recurse` update in place. The recursion
terminates because no field repeats on the current path, and there are
finitely many fields in the schema (`Leafs.Measure`).

Modules:

- `Wrappers`: results with early return.
- `Strings`: the `strings` functions used.
- `GoQuote`: the `%q` verb.
- `GoSort`: `sort.Strings`.
- `Descriptors`: the descriptors and the records of goapi/data.go.
- `Binding`: getHTTPInfo.
- `UrlTemplate`: the two placeholder patterns.
- `Naming`: accessors and identifiers.
- `FieldLookup`: lookupField and pathParams.
- `Leafs`: getLeafs.
- `Params`: formParams, queryParams, queryString and bodyForm.
- `RestMethod`: genRestMethodCode.
- `GenHelpers`: strContains and typeName.
- `Gen`: gen.go.

Behaviour of the code that the model keeps:

- A unary method without options panics. getHTTPInfo returns nil for it
  (goapi/rest.go:141-142), and baseURL then reads the URL of the nil binding
  (goapi/rest.go:77, goapi/rest.go:186). See `RestMethod.MethodCodeFailure`.
- A method whose options carry no http rule is still generated. The
  pattern switch (goapi/rest.go:162-178) leaves its verb and URL empty, so its
  dispatch line (goapi/rest.go:136) reads `c.session.(rawURL,opts...)`. See
  `RestMethod.DispatchNames`.
- Query parameters are leaves of the whole request message
  (goapi/rest.go:316), walked with the body field excluded (goapi/rest.go:321-324).
  They are not the leaves of the body sub-message. See
  `Params.QueryParamsOf`.
- The query filter (goapi/rest.go:329) and the form filter (goapi/rest.go:210) drop
  every leaf whose own name `lookupField` resolves on the request's
  *short* name. The index is keyed by fully-qualified names, so that
  lookup usually finds no message (goapi/rest.go:441-446), and then no leaf is
  dropped. See `Params.LeafFilterChar` and `Params.QueryParamsAllLeaves`.
- The records in goapi/data.go have no `PkgName` or `ReqCode` field, but
  goapi/gen.go:66 and goapi/gen.go:92-100 fill both. The records of the model follow
  gen.go.

## Model

| member | source | states |
|---|---|---|
| Binding.GetHTTPInfo | goapi/rest.go:140-181 | no binding exactly when the method has no options; otherwise the verb and URL are those of the pattern case that is set |
| Binding.BodySelectorPlain | goapi/rest.go:149-156 | a selector without a comma is the body field itself, with the JSON encoding |
| Binding.BodySelectorWithFormat | goapi/rest.go:153-160 | a selector with commas gives the text before the first comma as body and the text between the first two as encoding |
| Binding.VerbGetDelete | goapi/rest.go:101-104 | the upper-cased verb is GET exactly for the get case and DELETE exactly for the delete case |
| Binding.VerbEmptyOutsideSwitch | goapi/rest.go:162-178 | the verb is empty exactly for an unset or custom pattern, whose URL is then empty too |
| UrlTemplate.VarMatchAt | goapi/rest.go:19 | a match at a position is a `{name}` or `{name=capture}` token whose group is the name |
| UrlTemplate.VarMatchAtComplete | goapi/rest.go:19 | every placeholder token starting at a position is the match found there (the lazy group and the optional capture leave one match) |
| UrlTemplate.VarMatchesOrdered | goapi/rest.go:186 | the matches are in template order and do not overlap |
| UrlTemplate.VarMatchesLeftmost | goapi/rest.go:186 | the matches are leftmost-first: no placeholder starts before a match or between two matches |
| UrlTemplate.LeftmostUnique | goapi/rest.go:186 | the leftmost-first match sequence is unique, so the scanner is the regexp's search |
| UrlTemplate.FormatIsSplice | goapi/rest.go:81 | the format keeps the literal text and puts `%v` in place of each match |
| UrlTemplate.FormatCountsMatches | goapi/rest.go:81 | in a template without `%`, the format holds one `%` per match |
| UrlTemplate.ArgTokens | goapi/rest.go:190 | one `in` + fieldGetter(name) per match, in order |
| UrlTemplate.BaseURL | goapi/rest.go:183-193 | baseURL's loop gives the accessor of each placeholder, in template order |
| UrlTemplate.BraceMatchAt | goapi/rest.go:423-424 | a match of `{([^}]+)}` is a brace pair whose group is the text between them, without `}` |
| UrlTemplate.ParamName | goapi/rest.go:428 | the name before the first `=`, with the rest starting at `=` or empty |
| UrlTemplate.ParamNames | goapi/rest.go:424-428 | the parameter name of every match, in order |
| UrlTemplate.BraceAgreesWithVar | goapi/rest.go:423-428 | where the first pattern matches, the second matches the same text, and its name is the first pattern's group |
| UrlTemplate.BraceNoneWhereVarNone | goapi/rest.go:423-428 | in a template where every `{` opens a placeholder, the second pattern matches nowhere the first does not |
| UrlTemplate.ScannersAgree | goapi/rest.go:423-428 | on such a template, pathParams' names are baseURL's names, in order |
| UrlTemplate.ScannersDisagree | goapi/rest.go:423 | on `{a/b}` the first pattern finds nothing while the second finds the name `a/b` |
| GoQuote.EscapeChar | goapi/rest.go:84 | every character is written as one to four characters inside a Go literal (ASCII escapes only; see Left out) |
| GoQuote.Quote | goapi/rest.go:84 | `%q` writes a literal enclosed in double quotes |
| GoQuote.UnquoteQuote | goapi/rest.go:84 | the literal `%q` writes reads back as the original string |
| GoQuote.QuoteInjective | goapi/rest.go:84 | different strings give different literals |
| Naming.SnakeToCamel | goapi/rest.go:506-524 | the loop with the `up` flag computes the character-by-character CamelCase form |
| Naming.CamelUnderscoresPrecedeDigits | goapi/rest.go:510-515 | every `_` in the result is followed by a digit: only a digit after a word break is prefixed with `_` |
| Naming.CamelLowerWord | goapi/rest.go:516-521 | a lower-case word is capitalised and otherwise kept |
| Naming.CamelAsciiExample | goapi/rest.go:506-524 | `mass_kg` gives `MassKg` and `f_1st` gives `F_1st` |
| Naming.UpperFirst | goapi/rest.go:526-532 | the empty string stays empty; otherwise only the first character changes, to upper case |
| Naming.GettersAppend | goapi/rest.go:496-498 | the getters of two runs of segments are the concatenation of each run's getters |
| Naming.BuildAccessor | goapi/rest.go:484-503 | the loop gives one `.Get<Camel>()` per segment, with the raw `.Camel` last when asked |
| Naming.SplitPath | goapi/rest.go:491 | a dotted path of names without dots splits back into them |
| Naming.AccessorsOfSegments | goapi/rest.go:480-503 | fieldGetter has one getter per segment; directAccess has getters for all but the last, then `.Camel` of the last |
| Naming.GettersLast | goapi/rest.go:496-498 | the last segment's getter comes last |
| Naming.AccessorsOfPath | goapi/rest.go:473-503 | the two accessors of a path built from field names |
| Naming.AccessorsOfThree | goapi/rest.go:473-477 | the accessors of a three-segment path |
| Naming.ExampleCamels | goapi/rest.go:473-477 | `squid`, `mantle` and `mass_kg` give `Squid`, `Mantle` and `MassKg` |
| Naming.AccessorExamples | goapi/rest.go:552-556 | `squid.mantle.mass_kg` gives `.GetSquid().GetMantle().GetMassKg()` and `.GetSquid().GetMantle().MassKg` |
| Naming.AccessorsOfEmpty | goapi/rest.go:485-488 | the empty path has no accessor at all |
| Naming.IsRequired | goapi/rest.go:535-550 | true exactly when the field has options and REQUIRED is among its behaviours |
| FieldLookup.FindFrom | goapi/rest.go:455-468 | the first field at or after a position with the name, or none when no field has it |
| FieldLookup.LookupField | goapi/rest.go:439-471 | the two nested loops compute the segment-by-segment lookup |
| FieldLookup.LookupKeepsMatch | goapi/rest.go:452-469 | once a segment has matched, the result is never nil again |
| FieldLookup.LookupSegsNone | goapi/rest.go:452-469 | from nothing found, the result is nothing exactly when no segment matches where it is looked up |
| FieldLookup.LookupNone | goapi/rest.go:439-471 | nil exactly when the message is missing or no segment matches |
| FieldLookup.LookupSegsSound | goapi/rest.go:452-469 | every field returned is a field of the schema, named by a segment |
| FieldLookup.LookupSound | goapi/rest.go:439-471 | a returned field is a schema field whose name is one of the path's segments |
| FieldLookup.LookupSegsClosed | goapi/rest.go:461-464 | the only failure is the panic on a missing message type, and it cannot happen in a closed schema |
| FieldLookup.LookupFailure | goapi/rest.go:441-464 | lookupField fails only by that panic, and never on a closed schema |
| FieldLookup.LookupSkipsUnknownSegment | goapi/rest.go:452-469 | a segment that names nothing is skipped, whether before or after the segment that matches |
| FieldLookup.JoinTwo | goapi/rest.go:452 | two names without dots, joined by a dot, split back into them |
| FieldLookup.PathParams | goapi/rest.go:415-437 | pathParams' loop computes the fold over the placeholder names |
| FieldLookup.PathFoldChar | goapi/rest.go:424-434 | the fold succeeds when every lookup does, and then keeps exactly the names that resolve, with their fields |
| FieldLookup.PathNamesNoEquals | goapi/rest.go:428 | no parameter name holds `=` |
| FieldLookup.PathParamsChar | goapi/rest.go:415-437 | empty without a binding; otherwise exactly the placeholder names that resolve on the input type; failure only by panic |
| FieldLookup.PathFoldFailure | goapi/rest.go:429 | the fold fails only by a panic |
| Leafs.StackPush | goapi/rest.go:389-395 | walking into a new field keeps the path well formed and shortens the measure |
| Leafs.StackBounded | goapi/rest.go:389-392 | a path without repeated fields is no longer than the set of fields |
| Leafs.Names | goapi/rest.go:371-373 | the names of the fields on the path, one per field |
| Leafs.LeafCollector.constructor | goapi/rest.go:354 | the collector starts with an empty map |
| Leafs.LeafCollector.HandleLeaf | goapi/rest.go:369-377 | the leaf is stored under the dot-join of the path's names and its own |
| Leafs.LeafCollector.HandleMsg | goapi/rest.go:379-396 | repeated, excluded and already-walked fields are skipped; otherwise the field's type is walked with the field pushed |
| Leafs.LeafCollector.Recurse | goapi/rest.go:398-409 | every field of the message, in order, goes to handleMsg or handleLeaf, as the walk function does |
| Leafs.GetLeafs | goapi/rest.go:353-413 | getLeafs computes the leaf map of the root |
| Leafs.WalkFailureStays | goapi/rest.go:402-408 | a failure part-way through a message is the walk's outcome |
| Leafs.SkippedStartsNothing | goapi/rest.go:380-392 | a repeated, excluded or already-walked message field starts no leaf path |
| Leafs.LeafStartsItself | goapi/rest.go:403-407 | a non-message or well-known-type field, repeated or not, is a leaf path on its own and the only one starting at it |
| Leafs.LeafPathCons | goapi/rest.go:394-395 | a leaf path of a field's type, behind that field, is a leaf path through the field |
| Leafs.LeafPathUncons | goapi/rest.go:394-395 | and back: a longer leaf path is its first field followed by a leaf path of that field's type |
| Leafs.LeafPathSplit | goapi/rest.go:402 | the leaf paths among the first `n` fields are those among the first `n - 1` fields and those through the `n`-th |
| Leafs.WalkChar | goapi/rest.go:398-409 | every entry added by the walk comes from a leaf path, and every leaf path has its key in the result |
| Leafs.HandleChar | goapi/rest.go:379-396 | the same for one field, with the leaf paths starting at it |
| Leafs.LeafMapChar | goapi/rest.go:337-352 | the leaf map's keys are exactly the keys of the leaf paths from the root, each mapped to a path's leaf |
| Leafs.LeafMapValuesAreLeaves | goapi/rest.go:337-338 | every value is a schema field that is not expanded: a non-message or a well-known type |
| Leafs.ChainValid | goapi/rest.go:394-395 | every field of a chain is a field of the schema |
| Leafs.RootLeafCollected | goapi/rest.go:403-407 | a leaf of the root itself is in the map under its own name |
| Leafs.WalkOutcome | goapi/rest.go:394 | a walk fails only by the panic on a missing message type, and never on a closed schema |
| Leafs.HandleOutcome | goapi/rest.go:394 | the same for one field |
| Leafs.LeafMapOutcome | goapi/rest.go:353-413 | getLeafs fails only by that panic, and never on a closed schema |
| GoSort.Insert | goapi/rest.go:230 | inserting keeps a sequence sorted and adds exactly the element |
| GoSort.Sort | goapi/rest.go:230 | the result is sorted and a permutation of the input |
| GoSort.SortDistinct | goapi/rest.go:226-230 | sorting distinct keys gives a strictly increasing sequence |
| GoSort.StrictlySortedUnique | goapi/rest.go:226-230 | two strictly sorted sequences with the same elements are equal |
| GoSort.SortedKeys | goapi/rest.go:226-230 | the keys of a set listed in strictly increasing order |
| GoSort.SortIsSortedKeys | goapi/rest.go:226-230 | sorting any listing of a map's keys gives the same sequence, whatever the map's iteration order |
| Params.FragmentsOfSnoc | goapi/rest.go:233-296 | one more key appends that key's statements |
| Params.Guard | goapi/rest.go:264-293 | the guard of a leaf chosen by the if-chain and type switch; by `Params.GuardShape` it is always an `if … {` statement |
| Params.ParamBlock | goapi/rest.go:233-296 | the loop body gives the statements of one key: by `Params.FragmentsShape`, one bare statement for a required singular primitive, otherwise guard, indented assignment and `}` |
| Params.KeysOf | goapi/rest.go:226-229 | the keys are gathered, each once |
| Params.Blocks | goapi/rest.go:233-296 | the loop over the sorted keys gives their statements, in order |
| Params.FormParams | goapi/rest.go:223-299 | formParams gives the statements of every parameter, keys in increasing order |
| Params.FragmentsShape | goapi/rest.go:257-295 | one unconditional statement exactly for a required singular primitive; otherwise three: an `if` guard, the indented assignment and `}` |
| Params.GuardShape | goapi/rest.go:264-293 | every guard is an `if` statement opening a block |
| Params.RepeatedDependsOnPathOnly | goapi/rest.go:264-272 | a repeated leaf's statements depend on its path alone: the well-known-type marshalling is overwritten |
| Params.ParentPathOf | goapi/rest.go:275-277 | the parent path is the join of all segments but the last |
| Params.GetterOfNames | goapi/rest.go:480 | fieldGetter of a dotted path has one getter per segment |
| Params.ParentThenDirect | goapi/rest.go:273-279 | the optional guard tests the parent's getters, then the raw last field |
| Params.ProtoOptionalAtTop | goapi/rest.go:273-279 | for a top-level optional field the parent accessor is empty and the field is read raw |
| Params.SlotReadsBack | goapi/rest.go:251-254 | each map key is a Go string literal that reads back as the path |
| Params.FormParamsOfAnyListing | goapi/rest.go:224-230 | the statements follow the strictly increasing order of the keys |
| Params.FormParamsTwo | goapi/rest.go:224-230 | of two parameters the smaller path comes first, however the map was built |
| Params.FragmentsOfTwo | goapi/rest.go:233-296 | two keys give the first key's statements, then the second's |
| Params.FormParamsEmpty | goapi/rest.go:226-231 | no parameters, no statements |
| Params.FilterLeafs | goapi/rest.go:326-332 | the loop over the leaf map computes the filter |
| Params.LeafFilterChar | goapi/rest.go:326-332 | exactly the leaves not skipped whose name names no field of the message are kept, with their fields; failure only by panic; every unskipped leaf is kept when the message is missing |
| Params.QueryParams | goapi/rest.go:301-335 | queryParams returns the classification that `Params.QueryParamsChar` characterises |
| Params.QueryParamsChar | goapi/rest.go:301-335 | empty without a binding or for the `*` body; otherwise exactly the filtered leaves of the request outside the body field, each from a leaf path; failure only by panic |
| Params.QueryParamsSkipPathAndBody | goapi/rest.go:312-331 | no query parameter is a path parameter, or equal to the body selector, or an expandable message |
| Params.QueryParamsAllLeaves | goapi/rest.go:323-331 | when the short name is no index key, every leaf outside the body field that is neither a path parameter nor the body selector is a query parameter |
| Params.QueryString | goapi/rest.go:218-221 | queryString's statements for the query parameters, into `params` |
| Params.QueryStringEmpty | goapi/rest.go:218-221 | no statements without a binding or for the `*` body; failure only by panic |
| Params.BodyForm | goapi/rest.go:195-216 | bodyForm returns the form statements that `Params.BodyFormMessage` and `Params.BodyFormWholeRequest` characterise |
| Params.BodyFormMessage | goapi/rest.go:198-202 | the request for `*`; otherwise the type of the selected field, and a panic when the selector resolves to nothing |
| Params.BodyFormWholeRequest | goapi/rest.go:197-215 | with the `*` body, the form statements are those of every leaf of the request |
| Params.BodyFormFailure | goapi/rest.go:198-201 | bodyForm fails only by a panic |
| RestMethod.UrlCode | goapi/rest.go:77-87 | the `rawURL` statement, with the accessors as arguments when there are any; by `RestMethod.UrlLineArguments` its format has one `%` per argument |
| RestMethod.BodyChoice | goapi/rest.go:99-111 | `nil` without a body, `in` for `*`, `in` + fieldGetter otherwise; the selector's encoding only with a body |
| RestMethod.BodyStatements | goapi/rest.go:112-135 | the form or multipart template for such encodings when there are fields, JSON otherwise |
| RestMethod.GenRestMethodCode | goapi/rest.go:72-138 | the code written piece by piece is the URL statement, the query block, the body statements and the dispatch |
| RestMethod.UrlLineArguments | goapi/rest.go:81-86 | the format holds one `%` per argument: the address and one per accessor; the literal in the statement reads back as that format |
| RestMethod.BodyCodeChar | goapi/rest.go:112-135 | no body statements without a body or without form fields; unknown encodings are JSON; failures are panics or collaborator errors |
| RestMethod.GetDeleteBodyRefused | goapi/rest.go:101-106 | a body on GET or DELETE is an error whose message quotes the method name, and no code is produced |
| RestMethod.OtherBindingsAccepted | goapi/rest.go:99-137 | other verbs, and GET or DELETE without a body, produce the four parts in order |
| RestMethod.MethodCodeShape | goapi/rest.go:84-137 | generated code starts with the `rawURL` statement and ends with the session call |
| RestMethod.MethodCodeFailure | goapi/rest.go:72-138 | no options means a panic; any failure is a panic, the GET/DELETE error, or a collaborator error |
| RestMethod.DispatchNames | goapi/rest.go:136 | the session call is `Get`, `Post`, `Put`, `Patch` or `Delete` for those cases, and empty for a custom pattern |
| GenHelpers.Contains | goapi/gen.go:106-113 | true exactly when some element equals the string |
| GenHelpers.TypeName | goapi/gen.go:115-118 | the last dot-separated segment: no dot in it, and it ends the name after a dot or alone |
| GenHelpers.TypeNameOfPath | goapi/gen.go:115-118 | a dot-joined path of names gives its last name |
| GenHelpers.TypeNameExample | goapi/gen.go:115-118 | `.pkg.Msg` gives `Msg` |
| Wrappers.MapResultChar | goapi/gen.go:53-59 | a loop with early return succeeds exactly when every element does, giving one result per element in order; otherwise it fails with the first failure |
| Wrappers.MapResultFailureStays | goapi/gen.go:54-57 | a failure among the first elements is the loop's outcome |
| Gen.GoPackageName | goapi/gen.go:44-49 | the package name holds no `-` and no `/` |
| Gen.GoPackageNameOfPath | goapi/gen.go:44-49 | the last `/` segment of go_package, with `-` replaced by `_` |
| Gen.GoPackageNameDashed | goapi/gen.go:49 | a last segment `a-b` gives `a_b` |
| Gen.ServiceNameOfSuffix | goapi/gen.go:67 | `XService` gives `X` whenever `Service` does not occur in `X` |
| Gen.ServiceNameExamples | goapi/gen.go:67 | `SearchService` gives `Search` and `StorageService` gives `Storage` |
| Gen.OutputNameOfProto | goapi/gen.go:35 | `X.proto` gives `X.api.go` |
| Gen.Selected | goapi/gen.go:22-25 | exactly the files whose names are among the names to generate |
| Gen.SelectedAppend | goapi/gen.go:22-25 | selection keeps the request's order |
| Gen.SelectedAll | goapi/gen.go:22-25 | when every file is asked for, every file is generated, in order |
| Gen.SelectedPrefixFailure | goapi/gen.go:22-29 | a failure among the first files is the run's failure |
| Gen.ParseRestMethod | goapi/gen.go:82-104 | parseRestMethod returns the method data that `Gen.MethodDataChar` characterises |
| Gen.MethodDataChar | goapi/gen.go:82-104 | names and types of the method; client streaming wins over server streaming; a unary method fails exactly when its code does, with the same failure |
| Gen.StreamingIgnoresBinding | goapi/gen.go:90-95 | a streaming method always succeeds, whatever its binding and the schema |
| Gen.ParseRestService | goapi/gen.go:64-80 | the loop over the methods returns the service data that `Gen.ServiceDataChar` characterises |
| Gen.MethodsChar | goapi/gen.go:70-79 | one entry per method, in order, when every method succeeds; otherwise the first failure |
| Gen.ServiceDataChar | goapi/gen.go:64-80 | the service succeeds exactly when every method does, with its package, its name without `Service` and its methods in order |
| Gen.ParseRestFile | goapi/gen.go:43-62 | the loop over the services returns the file data that `Gen.FileDataChar` characterises |
| Gen.ServicesChar | goapi/gen.go:51-60 | one entry per service, in order, when every service succeeds; otherwise the first failure |
| Gen.FileDataChar | goapi/gen.go:43-62 | the file succeeds exactly when every method of every service does, with the release, the source, the Go package name and its services in order |
| Gen.FileOutput | goapi/gen.go:26-37 | one output file: the file's data rendered by the file template, under the name `Gen.OutputNameOfProto` describes |
| Gen.OutputsChar | goapi/gen.go:22-38 | one output per file, in order, when every file succeeds; otherwise the first failure |
| Gen.Generate | goapi/gen.go:12-41 | Gen's loop returns the response that `Gen.GenChar` characterises |
| Gen.GenChar | goapi/gen.go:12-41 | an option error ends the run; otherwise one output per requested file, in request order, named after it and holding its rendered data, unless a file fails, and then the first failure is the run's |

## Left out

- main.go: reading the request from standard input, writing the response,
  protobuf wire encoding and exit handling are transport, outside the
  model.
- goapi/tmpl.go: the templates are rendered by `html/template`. They are
  the function-typed fields of `Descriptors.Externals`: `queryStringContent`,
  `bodyFormContent`, `multipartContent` and `renderFile`. The streaming stub
  formats are `noClientStream` and `noServerStream`.
- initRest and pbinfo.Of: the descriptor index is the `Schema` parameter.
- initComment and getComment: the comment of each method is given,
  resolved, in `Method.comment`.
- parseOptions and Release: they are `Externals.parseOptions` and
  `Externals.release`; the parsed options are unused by the code.
- proto.GetExtension: every method carries its resolved http rule, and
  every field its resolved behaviour list.
- The Go regexp engine: only the two placeholder patterns are modelled, as
  scanners over strings.
- GoQuote.Quote: non-ASCII characters are copied as they are, as
  strconv.Quote does for printable ones; the escapes Go uses for
  non-printable non-ASCII characters are not modelled.
- GoQuote.EscapeChar: its bound of four characters holds for the model
  only; strconv.Quote writes up to ten (a `\U` escape) for a
  non-printable non-ASCII character.
- Naming.SnakeToCamel: casing and the digit test are ASCII only. Other
  characters keep their case, where Go would map them with Unicode
  tables. Only `0`-`9` after a word break is prefixed with `_`, where
  `unicode.IsDigit` (goapi/rest.go:512) also accepts other decimal digits: for
  `a_٣` Go writes `A_٣` and the model writes `A٣`.
- Naming.UpperFirst: ASCII only, for the same reason.
- Map iteration order: the loops over Go maps pick keys in an unspecified
  order; each result is a map or is sorted afterwards, so order does not
  matter. A failure is always a payload-free panic, so which key fails
  first does not matter either.
