# ease analysis core, in Dafny

ease is a Go code generator. It scans a Go module and reads `ease:` directives
in doc comments, such as `//ease:api method=POST path=/api/todos`. From them it
builds a model of packages, types and functions, works out which constructors
must be called, and in what order, to build a service's dependencies, and
generates an HTTP server (gin) that calls the annotated handlers.

This project models the analysis core of that generator and proves properties
of it. The core is:

- the deduplicating, insertion-ordered `Set`;
- the directive mini-parser and the declaration wrapper that splits comments
  into documentation and directives;
- the entity model: packages, types, variables and the `VarKind` bit flags;
- the registry of parsed declarations and the type-shape walker;
- the older type resolver;
- constructor dependency resolution;
- the two readings of the `ease:api` directive into an endpoint;
- the generator's identifier helpers and the data the gin server template is
  given.

The modules follow the Go packages:

| file | module | Go source |
|---|---|---|
| results.dfy | `Results` | `Option` and `Result` helper types |
| text.dfy | `Text` | the `strings` functions the core uses, ASCII only |
| flag.dfy | `Flag` | pkg/flag/flag.go |
| directive.dfy | `Directives` | pkg/parser/directive.go |
| decl.dfy | `Declarations` | pkg/parser/decl.go |
| collection.dfy | `Collection` | pkg/collection/set.go |
| entities.dfy | `Entities` | pkg/parser/package.go, type.go, var.go, pkg/crypto/hash.go |
| syntax.dfy | `Syntax` | the fragment of `go/ast` the core reads |
| shape.dfy | `Shapes` | the type walker of result.go and resolver.go, as a specification |
| registry.dfy | `Registry` | pkg/parser/result.go and `Func.parse`/`HasError` of pkg/parser/func.go |
| resolution.dfy | `Resolution` | `Funcs.Resolve` and `resolveFn` of pkg/parser/func.go |
| typeresolver.dfy | `TypeResolution` | pkg/parser/resolver.go |
| http.dfy | `HttpMethods` | the `Method` constants of pkg/parser/api |
| schema.dfy | `ApiSchema` | pkg/parser/api/schema.go |
| apiparser.dfy | `ApiParser` | pkg/parser/api/parser.go |
| context.dfy | `GeneratorContext` | `Identifier` and `Declaration` of pkg/generator/context.go |
| gin.dfy | `GinServer` | `Generate` of pkg/generator/gin/server.go, up to the template emission |

Objects whose fields the Go code updates in place are classes: `Set`, `Decl`,
`Package`, `Type`, `Func`, the registry `Result` and its per-file
`FileResult`, `ResolveResult`, the type resolvers and the generator
`Context`. Their methods state the new state in terms of specification
functions. Values are datatypes: variables, directives, endpoints, AST
nodes and signatures.

Each `sync.Once` gate is a boolean field: the first call computes and caches,
later calls return the cache.

Go's map iteration order is unspecified, and the loops over a directive's
parameter map pick any remaining key. Their contracts are proved for every
order.

The source has no cycle guard in dependency resolution, so the model takes a
rank on the functions. Every producer of a parameter type ranks below the
function that needs it. This precondition is exactly an acyclic dependency
graph.

Where the code and its description differ, the model follows the code:

- `Endpoint` from `parseEndpoint` keeps an empty method when the directive
  has no `method` key. Only an explicit empty value becomes GET.
- Every producer of a parameter type is resolved, not just the first.

## Model

| member | source | states |
|---|---|---|
| Text.Trim | pkg/parser/decl.go:58 | the result is `s` with a leading run and a trailing run of `cut` characters removed, and it neither starts nor ends with one |
| Text.TrimSurrounded | pkg/parser/decl.go:58 | trimming a text whose ends are outside `cut`, between a prefix and a suffix made of `cut` characters, gives the text back |
| Text.AfterLastSlash | pkg/parser/package.go:25 | the result is a suffix of the path without any `/` |
| Text.AfterLastSlashMaximal | pkg/parser/package.go:25 | the suffix is maximal: the character before it, if any, is a `/` |
| Text.Contains | pkg/parser/api/schema.go:100 | true exactly when `sub` occurs in `s` at some position |
| Text.ReplaceChar | pkg/generator/context.go:62 | same length, every `from` replaced by `to`, every other character kept |
| Text.ToLowerAscii | pkg/parser/type.go:52 | same length; each upper-case ASCII letter becomes its lower-case letter and every other character stays, so no upper-case letter is left |
| Flag.IsSetAfterOr | pkg/flag/flag.go:4-6 | a nonzero flag OR-ed into a value is set, whatever is OR-ed in later |
| Flag.IsSetOr | pkg/flag/flag.go:4-6 | a flag is set in `v \| w` exactly when it is set in `v` or in `w` |
| Directives.IndexFromSpec | pkg/parser/directive.go:11 | the first `c` at or after `from`, or the end when there is none |
| Directives.WordEnd | pkg/parser/directive.go:12 | the end of the maximal run of `\w` characters from `from` |
| Directives.WordStartSpec | pkg/parser/directive.go:11 | the start of the maximal run of `\w` characters ending at `end`, bounded by `lo` |
| Directives.NonSpaceEndSpec | pkg/parser/directive.go:11 | the end of the maximal run of non-space characters from `from` |
| Directives.ParseDirectiveParams | pkg/parser/directive.go:35-50 | the loop builds the map of the line's pairs in order, a later pair replacing an earlier one |
| Directives.TryParseDirective | pkg/parser/directive.go:21-32 | a directive exactly when the line starts with `ease:` and a word character; its name is the whole word run and its params the line's key/value map |
| Directives.ToMapLastWins | pkg/parser/directive.go:41-47 | a key is in the map exactly when some pair has it, and it maps to the value of the last such pair |
| Directives.ToMapPair | pkg/parser/directive.go:41-47 | the map of two pairs applies the second one last |
| Directives.ToMapAppend | pkg/parser/directive.go:41-47 | the map of `a + b` is the map of `a` overridden by the map of `b` |
| Directives.MatchesShape | pkg/parser/directive.go:11 | every extracted pair is a word-character key right before a `=` and the following run of non-space characters, found in the line |
| Directives.KeyValuesShape | pkg/parser/directive.go:35-50 | the same for a whole line |
| Directives.KeyValuesEmptyIff | pkg/parser/directive.go:37 | a line yields no pair exactly when it holds no `=` |
| Directives.NoEqualsNoParams | pkg/parser/directive.go:35-50 | a directive line without `=` has an empty parameter map, not an error |
| Directives.MatchesRoundTrip | pkg/parser/directive.go:11 | rendered ` key=value` pairs read back as the same pairs in order, whatever `=`-free text precedes them |
| Directives.KeyValuesRoundTrip | pkg/parser/directive.go:35-50 | a `=`-free lead followed by rendered pairs reads back as those pairs |
| Directives.ApiDirectiveExample | examples/todo/service.go:40 | `ease:api method=<m> path=<p>` is the directive `api` with exactly `method` and `path` |
| Directives.RepeatedKeyLastWins | pkg/parser/directive.go:41-47 | a key given twice on one line keeps its second value |
| Directives.ValueEdgeCases | pkg/parser/directive.go:11 | a value may contain `=` (`a==b` gives `=b`) and may be empty (`c=`) |
| Directives.NameStopsAtNonWord | pkg/parser/directive.go:21-32 | `ease:api-x` is the directive named `api` |
| Directives.NotDirectives | pkg/parser/directive.go:22-26 | plain text, a bare `ease:` and `ease: api` are not directives |
| Declarations.Decl.constructor | pkg/parser/decl.go:19-29 | the comments are kept, nothing is parsed yet, and a nil ident gives the empty name |
| Declarations.Decl.Parse | pkg/parser/decl.go:46-69 | after the call the documentation and the directive map are those of the comment lines; a second call changes nothing |
| Declarations.Decl.ParseLines | pkg/parser/decl.go:57-66 | one comment group's lines extend the documentation and the directive map as the specification functions say |
| Declarations.Decl.Doc | pkg/parser/decl.go:34-37 | the documentation of the comment lines, parsing first if needed |
| Declarations.Decl.Directive | pkg/parser/decl.go:40-44 | found exactly when some comment line is a directive of that name, and then the last such directive |
| Declarations.LinesStep | pkg/parser/decl.go:52-57 | one more comment group adds its lines, a nil group none |
| Declarations.LineStep | pkg/parser/decl.go:58-65 | one more line: a directive replaces the entry under its name, any other line appends its trimmed text and a newline |
| Declarations.DocOfAppend | pkg/parser/decl.go:63-65 | the documentation of consecutive runs of lines is the concatenation of theirs, in source order |
| Declarations.DirectivesOfAppend | pkg/parser/decl.go:59-62 | the directives of a later run of lines replace those of an earlier run with the same name |
| Declarations.OneLine | pkg/parser/decl.go:58-65 | a directive line gives its directive and no text; any other line, empty ones included, gives its trimmed text and a newline and no directive |
| Declarations.LineEntriesIff | pkg/parser/decl.go:59-62 | a line yields an entry exactly when it parses to that directive, stored under the directive's name |
| Declarations.EntriesOfSpec | pkg/parser/decl.go:57-62 | each directive entry comes from a line that parses to it, and each such line yields one |
| Declarations.DirectiveFoundIff | pkg/parser/decl.go:39-62 | a name is in the directive map exactly when some trimmed comment line is a directive with that name |
| Declarations.DirectiveFromLine | pkg/parser/decl.go:56-62 | a name in the directive map is the name of some comment line's directive |
| Declarations.LineDirectiveFound | pkg/parser/decl.go:56-62 | the directive of every comment line that parses is in the directive map under its name |
| Declarations.NilGroupsSkipped | pkg/parser/decl.go:53-55 | nil comment groups contribute no line, wherever they are |
| Declarations.EmptyCommentLine | pkg/parser/decl.go:57-65 | an empty `//` comment line is no directive and adds an empty line to the documentation |
| Declarations.ServiceCommentExample | examples/todo/service.go:38-40 | `Create`'s three comment lines (a text line, an empty `//`, then `//ease:api method=... path=...`) give the text and an empty line, each followed by a newline, as documentation, and the `api` directive |
| Collection.PutSpec | pkg/collection/set.go:20-31 | storing keeps the invariant, adds the key, stores the item only for a new key and moves no other key's item |
| Collection.KeysOf | pkg/collection/set.go:20-31 | exactly the keys that some request names |
| Collection.PutAllFirstItems | pkg/collection/set.go:20-31 | from empty, the items are the first item of each key in order of first request, and the keys are exactly the requested keys |
| Collection.PutAllAppend | pkg/collection/set.go:20-31 | issuing `a` then `b` is issuing `a + b` |
| Collection.PutAllGet | pkg/collection/set.go:20-31 | from empty, a key's item is the item of its first request |
| Collection.KeysOfAppend | pkg/collection/set.go:20-31 | the keys of `a + b` are those of `a` and those of `b` |
| Collection.Set.constructor | pkg/collection/set.go:13-17 | a new set is empty and valid |
| Collection.Set.Set | pkg/collection/set.go:20-31 | a present key returns its stored item and changes nothing; a new key appends the item under the next index and returns it |
| Collection.Set.SetLazy | pkg/collection/set.go:35-47 | the supplier is called exactly when the key is absent; its result is then stored and returned, otherwise the stored item is returned and nothing changes |
| Collection.SetTwiceScenario | pkg/collection/set_test.go:10-25 | setting `foo` to `bar` twice leaves exactly the one item `bar` |
| Collection.SetLazyScenario | pkg/collection/set_test.go:27-52 | two lazy requests for `foo` call the supplier once and leave exactly the one item `bar` |
| Entities.Prefix | pkg/crypto/hash.go:9-13 | the first `n` characters of the key's digest |
| Entities.Package.constructor | pkg/parser/package.go:23-28 | the path is kept, the name is the text after its last `/`, and no alias is cached yet |
| Entities.Package.Alias | pkg/parser/package.go:35-41 | `<name>_<first 4 digest characters of the path>`, cached by the first call and returned unchanged afterwards |
| Entities.FullyQualifiedName | pkg/parser/type.go:68-74 | the bare name without a package, otherwise the path, a dot and the name |
| Entities.Type.constructor | pkg/parser/type.go:26-31 | the package and the name are kept and no alias is cached yet |
| Entities.Type.Alias | pkg/parser/type.go:49-57 | empty for a package-less type, otherwise the lower-cased name, `_` and 4 digest characters of the type's string; computed once |
| Entities.Type.Declaration | pkg/parser/type.go:60-66 | the bare name for a package-less type, otherwise the package alias, a dot and the name |
| Entities.IsErrorIff | pkg/parser/type.go:43 | `IsError` holds exactly for the package-less type named `error` |
| Entities.IsContextIff | pkg/parser/type.go:42 | `IsContext` holds exactly for `Context` of the package whose path is `context`, or a package-less type literally named `context.Context` |
| Entities.KindsAreDistinctBits | pkg/parser/var.go:7-16 | the six kinds are `1 << i` for i = 0..5, pairwise disjoint |
| Entities.IsPointerIff | pkg/parser/var.go:25 | `IsPointer` holds exactly when the Pointer bit (4) is set, and clearing that bit clears it |
| Shapes.WalkKeepsBits | pkg/parser/result.go:210-244 | the walk never clears a bit it started with |
| Shapes.WalkBits | pkg/parser/result.go:225-238 | Slice, Map, Pointer and SliceOfPointer are each set exactly when the expression has the matching shape (a `*` before any `[]` for Pointer, after one for SliceOfPointer) or the bit was already set |
| Shapes.SliceOfPointers | pkg/parser/result.go:225-236 | `[]*T` gives Slice, SliceOfPointer and the leaf bit, never Pointer |
| Shapes.PointerShapes | pkg/parser/result.go:225-238 | `*T` and `map[K]*V` both give exactly the Pointer bit before the leaf, the key type being ignored |
| Shapes.UnknownQualifierAndOther | pkg/parser/result.go:239-243 | a selector with an unknown qualifier lands on a package-less type; any other expression gives nothing |
| Shapes.SelectorBitsDiffer | pkg/parser/resolver.go:166-167 | for `x.Sel` the registry walker adds only the leaf bit while the resolver also adds Ident |
| Shapes.OrQualifier | pkg/parser/result.go:225-238 | OR-ing in one qualifier bit sets it and leaves the other three as they were |
| Shapes.OrOtherBits | pkg/parser/result.go:218-222 | OR-ing in a leaf bit leaves the four qualifier bits as they were |
| Registry.ImportEntries | pkg/parser/result.go:122-135 | one entry per import, keyed by its local name or its package's short name, with the unquoted path |
| Registry.Func.FromDecl | pkg/parser/func.go:25-32 | a function of the file's package with the declaration's name, not parsed yet |
| Registry.Func.constructor | pkg/parser/result.go:47-67 | a bare function with a package and a name, no declaration and no file; its signature is filled in by the caller |
| Registry.Func.Parse | pkg/parser/func.go:52-77 | runs at most once; without a declaration it fails with `NilFuncDecl` and changes nothing; otherwise the receiver, one var per parameter and one var per result field, each describing its field, and the registry only grows |
| Registry.Func.AccessorsAsWritten | pkg/parser/func.go:34-47 | the signature after `parse`, or `parse`'s failure: it fails exactly on a first call for a function without a declaration |
| Registry.RegisteredAccessFails | pkg/parser/result.go:47-67 | every function the registry holds has no declaration, so the first `Recv()`, `Params()` or `Returns()` call on it fails under pkg/parser/func.go's `parse` (a pairing of two source revisions, see Findings) |
| Registry.Func.Accessors | pkg/parser/func.go:34-47 | the receiver, parameters and results: those already filled in for a function without a declaration, otherwise those `parse` made from the declaration on the first call, each describing its field |
| Registry.HasError | pkg/parser/func.go:80-88 | true exactly when some var's type is `error` |
| Registry.Result.constructor | pkg/parser/result.go:19-25 | an empty registry |
| Registry.Result.Package | pkg/parser/result.go:29-44 | the package of the unquoted path: the registered instance if there is one, otherwise a new one registered under that path |
| Registry.Result.Func | pkg/parser/result.go:47-67 | the function of this fully-qualified name: the registered one, otherwise exactly one new entry |
| Registry.Result.Type | pkg/parser/result.go:70-90 | the type of this fully-qualified name, a builtin name losing its package first: the registered one, otherwise exactly one new entry |
| Registry.Result.ImportsMap | pkg/parser/result.go:122-135 | keys are the local or short names of the imports, each mapped to the registered package of its unquoted path |
| Registry.Result.ParseFile | pkg/parser/result.go:105-119 | the file's package is registered, and so is every type spec and function declaration of the file; no package, type or function registered before is lost or replaced; the function registered under the name of the file's last declaration of that name has a receiver, parameters and results that describe that declaration's, resolved against the file's imports (`SignatureParsed`, `ScopeImports`) |
| Registry.RegisteredGrows | pkg/parser/result.go:105-119 | what is registered stays registered as the registry grows |
| Registry.ImportKeyExamples | examples/todo/service.go:7-8 | `contextalias "context"` is keyed `contextalias`, `"errors"` is keyed `errors` |
| Registry.FileResult.ParseDeclarations | pkg/parser/result.go:112-116 | every declaration of the file is registered and nothing registered is lost; for each name, the last function declaration with it determines the registered function's signature (an earlier method of the same name on another receiver is overwritten, since functions are keyed by package and name) |
| Registry.FileResult.ParseDeclaration | pkg/parser/result.go:137-162 | the declaration's function, or every type of its type specs, is registered; a function declaration's signature is parsed into the registered function, and every other registered function is left unchanged |
| Registry.FileResult.ParseFunc | pkg/parser/result.go:164-191 | the registered function gets the receiver, the parameters when the list is not empty and the results when the list is not nil, each describing its field; every other registered function is left unchanged |
| Registry.FileResult.ParseFieldList | pkg/parser/result.go:173-179 | one var per field, in order, each describing its field |
| Registry.FileResult.ParseField | pkg/parser/result.go:193-208 | the field's first name or the empty string, with the type and kind bits of the walk over its type |
| Registry.FileResult.ParseType | pkg/parser/result.go:210-244 | nothing for an expression the walk does not understand, otherwise the registered type the walk lands on and its kind bits |
| Registry.FileResult.ParseIdent | pkg/parser/result.go:212-224 | the registered type of the name, with the Ident bit, or the Builtin bit when the type has no package |
| Registry.FileResult.ParseFuncAsWritten | pkg/parser/result.go:164-190 | fails with `NilResultList` exactly when the result list is nil; otherwise registers the function with the receiver, parameters and results the guarded `ParseFunc` gives |
| Registry.NoResultsFails | examples/todo/service.go:88-91 | `parseFunc` as written fails on the todo example's `WithoutParams`, which has a nil result list |
| Registry.NoResultsParsed | examples/todo/service.go:88-91 | the guarded `ParseFunc` gives `WithoutParams` its receiver `s`, and, when new, no parameter and no result |
| Resolution.ResolveResult.constructor | pkg/parser/func.go:100-102 | an empty call order and no recorded type |
| Resolution.ResolveResult.ResolveFn | pkg/parser/func.go:133-164 | the resolution of one function: its parameters resolved first, then itself appended, or the first missing constructor's error |
| Resolution.Resolve | pkg/parser/func.go:99-129 | a fresh result advanced over every target, or the error and no result |
| Resolution.GrowsTrans | pkg/parser/func.go:133-164 | the state only grows, transitively |
| Resolution.ResolveFnSound | pkg/parser/func.go:133-164 | dependency-first: a resolved function comes last in the call order, after the recorded producer of each of its parameter types |
| Resolution.ParamsSound | pkg/parser/func.go:134-160 | the parameter loop keeps every recorded producer returning its type and in the call order, and records every parameter type |
| Resolution.ScanSound | pkg/parser/func.go:141-153 | the producer scan keeps the state sound and records the type once a producer is met |
| Resolution.ScanFound | pkg/parser/func.go:141-158 | the scan meets a producer exactly when there is one ahead of it |
| Resolution.ParamsSkip | pkg/parser/func.go:134-139 | parameters whose types are already recorded are skipped without scanning or changing anything |
| Resolution.TargetsSkip | pkg/parser/func.go:104-110 | targets whose types are already recorded are skipped without scanning or changing anything |
| Resolution.MissingConstructorError | pkg/parser/func.go:156-158 | the first parameter type that is neither recorded nor produced fails the resolution with `could not find a valid constructor for <type>` |
| Resolution.ResolveFnOk | pkg/parser/func.go:133-164 | when every parameter type has a producer, resolving a function succeeds |
| Resolution.TopScanSound | pkg/parser/func.go:112-124 | the target scan keeps the state sound and records the target once a producer is met |
| Resolution.ResolveFSound | pkg/parser/func.go:104-126 | the target loop keeps the state sound and records every target some function produces |
| Resolution.ResolvedSound | pkg/parser/func.go:99-129 | every recorded type maps to a function returning it that is already in the call order, the call order holds functions of the input only, and every produced target is recorded |
| Resolution.TopScanNone | pkg/parser/func.go:112-126 | with no producer ahead, the target scan changes nothing |
| Resolution.TargetWithoutProducerSkipped | pkg/parser/func.go:112-126 | a target no function produces is skipped without an error and without an entry |
| Resolution.ResolvedComplete | pkg/parser/func.go:99-129 | when every parameter type of every function has a producer, resolution succeeds whatever the targets |
| Resolution.ScanOne | pkg/parser/func.go:141-153 | with a single producer, the parameter scan resolves and records exactly it |
| Resolution.TopScanOne | pkg/parser/func.go:112-124 | with a single producer, the target scan resolves and records exactly it |
| Resolution.DepWellFormed | pkg/parser/testdepdata/dep.go:25-49 | the functions of dep.go are typed and acyclic, and each of the five types has exactly one producer |
| Resolution.DepKeysDiffer | pkg/parser/testdepdata/dep.go:25-49 | the five types of dep.go have distinct strings |
| Resolution.DepScenario | pkg/parser/testdepdata/dep.go:25-49 | resolving `Service` calls LoadOptions, OpenDatabase, NewLogger, NewOtherService, NewService in that order, each recorded for the type it returns |
| Resolution.DepLogger | pkg/parser/testdepdata/dep.go:31-39 | NewService's `Logger` parameter brings LoadOptions, OpenDatabase and NewLogger, in that order |
| Resolution.EveryProducerResolved | pkg/parser/func.go:141-153 | with two producers of a parameter type both are resolved and appended, and the type stays recorded with the last |
| Resolution.FirstProducer | pkg/parser/func.go:141-153 | meeting the first producer resolves and records it and goes on scanning |
| Resolution.SecondProducer | pkg/parser/func.go:141-153 | meeting the second producer resolves it and records it in place of the first |
| TypeResolution.IsFlagSet | pkg/parser/resolver.go:196-198 | the same test as `flag.IsSet`; a set flag means both value and flag are nonzero |
| TypeResolution.MirrorsPut | pkg/parser/resolver.go:174-188 | storing an unshared package keeps the import map one package per key, at its path |
| TypeResolution.NewImportsMap | pkg/parser/resolver.go:174-188 | one fresh package per import key, at the unquoted path and named after it, no package shared by two keys |
| TypeResolution.TypeResolver.constructor | pkg/parser/resolver.go:33-37 | no type yet |
| TypeResolution.TypeResolver.Resolve | pkg/parser/resolver.go:39-59 | the type of this fully-qualified name, a builtin losing its package: the same instance for a repeated name, one new entry otherwise |
| TypeResolution.TypeResolver.Scope | pkg/parser/resolver.go:62-77 | a fresh scoped resolver with a fresh package for the path and a fresh import map, every type object of the file's scope resolved |
| TypeResolution.TypeResolver.ResolveObjs | pkg/parser/resolver.go:70-74 | the loop over the file's scope keeps every type already resolved and resolves the type of every type object in the scoped package |
| TypeResolution.ScopedTypeResolver.Obj | pkg/parser/resolver.go:79-87 | nothing for an object that is not a type, otherwise the type of its spec's name in this package |
| TypeResolution.ScopedTypeResolver.Func | pkg/parser/resolver.go:89-119 | a fresh function of this package on every call, with a receiver exactly when declared and one var per parameter and result field |
| TypeResolution.ScopedTypeResolver.FuncAsWritten | pkg/parser/resolver.go:89-119 | fails with `NilResultList` exactly when the result list is nil; otherwise the fresh function the guarded `Func` gives |
| TypeResolution.ScopedTypeResolver.FieldList | pkg/parser/resolver.go:105-107 | one var per field, in order |
| TypeResolution.ScopedTypeResolver.Field | pkg/parser/resolver.go:121-135 | the field's first name or the empty string, with the type and kind bits of the walk over its type |
| TypeResolution.ScopedTypeResolver.ParseType | pkg/parser/resolver.go:137-171 | the walk with Ident also OR-ed in for a qualified name: nothing for an expression it does not understand, otherwise the resolved type and its bits |
| TypeResolution.ScopedTypeResolver.ParseIdent | pkg/parser/resolver.go:139-151 | the resolved type of the name, with Ident or Builtin |
| ApiSchema.ParseMethod | pkg/parser/api/schema.go:126-140 | the six methods pass unchanged, `""` means GET, anything else is `ErrInvalidMethod` |
| ApiSchema.FirstNonErrorIndex | pkg/parser/api/schema.go:113-121 | the position of the first result whose type is not `error`, every earlier one being an `error` |
| ApiSchema.ParseEndpoint | pkg/parser/api/schema.go:65-124 | an invalid method fails with `ErrInvalidMethod`, else a missing or empty path with `ErrInvalidPath`; otherwise the handler, the method (empty when absent), the path, the request parameters and the response, for every map order |
| ApiSchema.RequestParams | pkg/parser/api/schema.go:89-111 | the loop yields the non-context parameters in order, each with its source |
| ApiSchema.Returns | pkg/parser/api/schema.go:113-121 | the loop yields the first result that is not an `error`, or nothing |
| ApiSchema.EndpointParamsAppend | pkg/parser/api/schema.go:89-111 | parameters are filtered, never reordered |
| ApiSchema.EndpointParamsMembers | pkg/parser/api/schema.go:89-111 | a request parameter exists exactly for each non-context handler parameter, with its name, its source and the parameter itself |
| ApiSchema.EndpointParamsNoContext | pkg/parser/api/schema.go:89-111 | without context parameters, one request parameter per handler parameter, in order |
| ApiSchema.PrefixNameReadFromPath | pkg/parser/api/schema.go:100-108 | in `/api/todos/:id`, `id` and also `i` are read from the path, `cmd` from the body of a PUT |
| ApiSchema.MissingMethodReadsBody | pkg/parser/api/schema.go:66-108 | with no `method` key the method is empty, so a non-path parameter is read from the body, while an explicit empty method means GET and the query |
| ApiSchema.UpdateTodoScenario | examples/todo/service.go:66-78 | `Update(ctx, id, cmd)` on `PUT /api/todos/:id` gives two parameters, `id` from the path and `cmd` from the body, and the `*Todo` response |
| ApiSchema.ParseUpdateTodo | pkg/parser/api/schema.go:65-124 | on a handler taking a context, `id` and `cmd` and returning a non-error first, `ease:api method=PUT path=/api/todos/:id` gives `id` from the path, `cmd` from the body and the first result as the response |
| ApiSchema.UpdateTodoParams | examples/todo/service.go:68-69 | the context is dropped, `id` is read from the path and `cmd` from the body |
| ApiParser.MethodFromRawValue | pkg/parser/api/parser.go:106-123 | the six exact upper-case names map to themselves, anything else to the empty `MethodInvalid` |
| ApiParser.ParseEndpoint | pkg/parser/api/parser.go:82-104 | fails with `ErrInvalidPath` exactly when the path is missing or empty; the method is the directive's when it is one of the six and GET otherwise, for every map order |
| ApiParser.ExtraKeysIgnored | pkg/parser/api/parser.go:85-97 | parsing a map with or without a key other than `method` and `path` gives the same outcome, and a parsed method is always one of the six |
| ApiParser.LowerCasePostScenario | pkg/parser/api/parser.go:88-97 | `method=post` silently becomes GET |
| GeneratorContext.NewIdentifier | pkg/generator/context.go:60-64 | the prefix with every `-` turned into `_`, then `_`, then the first 6 digest characters of the key |
| GeneratorContext.Context.constructor | pkg/generator/context.go:52-58 | no identifier yet |
| GeneratorContext.Context.Identifier | pkg/generator/context.go:60-64 | the stored identifier of a known key, otherwise a new one, which is stored; every stored identifier ends with its key's digest prefix |
| GeneratorContext.Context.Declaration | pkg/generator/context.go:66-75 | the bare name without a package, otherwise the package's identifier (keyed by path), a dot and the name |
| GeneratorContext.IdentifierMemoised | pkg/generator/context.go:60-64 | once a key has an identifier, a later call returns it whatever the prefix and stores nothing new |
| GeneratorContext.IdentifierConsistent | pkg/generator/context.go:60-64 | storing a made identifier keeps every stored identifier ending with its own key's digest prefix |
| GeneratorContext.SharedQualifier | pkg/generator/context.go:66-75 | two declarations of one package share one qualifier |
| GinServer.FirstCtorIndex | pkg/generator/gin/server.go:73-85 | the position of the first function returning the type; no earlier function returns it |
| GinServer.Generate | pkg/generator/gin/server.go:39-100 | `Fields`, `Dependencies` and `Imports` are the sets reached by the requests the loops issue; each field with a constructor has its first constructor recorded |
| GinServer.RegisterEndpoints | pkg/generator/gin/server.go:49-68 | the endpoint loop issues each handler's parameter packages, then its receiver type |
| GinServer.RegisterDependencies | pkg/generator/gin/server.go:70-100 | the receiver loop records each found constructor and imports its package |
| GinServer.RegisterParams | pkg/generator/gin/server.go:51-57 | each parameter type's package, if any, is requested under its path |
| GinServer.FindCtor | pkg/generator/gin/server.go:73-85 | the nested search with its two breaks finds the first function returning the type |
| GinServer.FieldKeys | pkg/generator/gin/server.go:59-67 | fields are keyed by exactly the strings of the handlers' receiver types; a handler without a receiver adds nothing |
| GinServer.PackagesOfKeys | pkg/generator/gin/server.go:51-57 | the parameter imports are keyed by exactly the paths of the parameters' packages |
| GinServer.ParamImportsComplete | pkg/generator/gin/server.go:51-57 | every package of a handler parameter's type is imported under its path |
| GinServer.ParamImportsSound | pkg/generator/gin/server.go:51-57 | every parameter import is the package of some handler parameter's type |
| GinServer.DependencyKeys | pkg/generator/gin/server.go:87-92 | a dependency is recorded for exactly the receiver types that have a constructor; the others are skipped |
| GinServer.DependencyIsFirstCtor | pkg/generator/gin/server.go:73-92 | with distinct receiver strings, each receiver with a constructor has its first constructor recorded under its string |
| GinServer.FieldItemsDistinct | pkg/generator/gin/server.go:59-67 | the field items have distinct strings |

## Left out

- Concurrency: the mutexes of `Set`, `Result` and `typeResolver` are not modelled, and each `sync.Once` gate is a boolean field (a single-threaded model).
- SHA-256 and hex encoding (pkg/crypto/hash.go) are not modelled. The digest is a parameter `hash` that returns a 64-character string.
- The regular expressions of pkg/parser/directive.go are re-expressed as ASCII scanners over the line. RE2 itself is not modelled.
- `IsBuiltin` is modelled as membership in a fixed list of the names of Go's universe scope, not as a call into `go/types`.
- `strings.ToLower` is modelled on ASCII letters only.
- `DefinedBy` and `declFromComments`, called from pkg/parser/result.go, are not part of this model. Types and functions are registered with their names only, and their comments are not attached.
- The Go AST is reduced to the fragment the core reads: identifiers, `*`, `[]`, `map`, `x.Sel`, fields, function declarations, import specs and scope objects. A `Selector` whose qualifier is not an identifier, which panics in the source, is not representable.
- `Decl` embedding is not modelled. `Type`, `Func` and `Var` carry their name directly.
- `Endpoint.String`, the `API` accessors, `apiParser.Visit`, `ParseDirectives` and `helpers.go`'s `ParseAnnotation` are not part of this model.
- I/O: module loading, `ParseDir`, `EmitTemplate`, `EmitFile`, `mkdirAll` and the template emission that ends `Generate` are not modelled.
- The CLI and the extension loop of pkg/generator/generator.go are not modelled.
- Resolution.Resolve: requires the whole dependency graph to be acyclic (a rank every producer undercuts). The source recurses without end only when its scan reaches a producer on a cycle while that producer's type is not yet recorded. Graphs it does resolve are therefore outside the model: those with a cycle no target reaches, and those whose reached cycle the memo breaks because a producer outside the cycle is listed, and so resolved, first (`NewLogger() Logger` before a decorator `Wrap(l Logger) Logger`).
- Resolution.Resolve: requires every parameter to have a type (`Typed`). A parameter whose type expression is not one the walker understands (`func`, `chan`, `interface`, variadic) has a nil type, and the source's `p.Type().String()` dereferences it (pkg/parser/func.go:135).
- Resolution.Resolve: on an error the partially filled result is dropped, as in the source, so nothing is said about it.
- Registry.Result.ParseFile: registers functions through the corrected `FileResult.ParseFunc` of the pkg/parser/result.go:186 Findings row. As written, a file with a function without results, such as examples/todo/service.go:88-91, makes `parseFile` fail.
- Registry.FileResult.ParseDeclarations: uses the corrected `ParseFunc` of the same Findings row, so as written it fails on such a function.
- Registry.FileResult.ParseDeclaration: uses the corrected `ParseFunc` of the same Findings row, so as written it fails on such a function.
- Resolution.ResolveResult.ResolveFn: functions are read through `Signature` snapshots, the values the corrected `Registry.Func.Accessors` returns. Taken together, the files as given make every accessor call on a registered function fail, because pkg/parser/result.go builds functions without a declaration and pkg/parser/func.go's `parse` dereferences it. Those files come from two revisions that do not compile together (see Findings), so the resolution, `parseEndpoint` and `Generate` are modelled on the accessors that return the signature already filled in.
- Registry.HasError: requires every var to have a type. This is stronger than the source needs: its loop dereferences the type of each var only up to the first `error`, so a var without a type after that point does not fail there.
- ApiSchema.ParseEndpoint: requires every parameter and result of the handler to have a type. This is stronger than the source needs: the parameter loop reads every parameter's type, but the result loop stops at the first non-error result, and a method or path error returns before either loop.
- GinServer.Generate: requires every parameter and receiver of the handlers to have a type. A parameter or receiver without one makes the source's `param.Type().Package()` or `recvTyp.String()` (pkg/generator/gin/server.go:52,67) dereference nil.
- GinServer.Generate: the resolved call order `ctx.Funcs()` is taken as a parameter.
- VarKind values are 8-bit vectors. Go's `uint` is wider, but no value the core builds needs more than six bits.
- pkg/parser/api/schema.go and pkg/parser/api/parser.go both declare `Endpoint` and `parseEndpoint`. They are modelled as two separate modules, each against its own text.
- GeneratorContext.Context.Identifier: pkg/generator/context.go calls `SetFunc`, which pkg/collection/set.go does not define. It is modelled as a call of `SetLazy`, the only lazy setter there.

## Findings

| source | as written | input that shows it | evidently intended | confidence | as-written member | corrected member |
|---|---|---|---|---|---|---|
| pkg/parser/result.go:186 and pkg/parser/resolver.go:114 | the result loop ranges over `decl.Type.Results.List` even when `decl.Type.Results` is nil, which dereferences a nil pointer | `func (s *TodoService) WithoutParams()` at examples/todo/service.go:88-91, a handler with no result | guard the loop as `Func.parse` does (pkg/parser/func.go:69-75), leaving the results empty | not executed | Registry.FileResult.ParseFuncAsWritten, TypeResolution.ScopedTypeResolver.FuncAsWritten, Registry.NoResultsFails | Registry.FileResult.ParseFunc, TypeResolution.ScopedTypeResolver.Func, Registry.NoResultsParsed |
| pkg/parser/func.go:55 and pkg/parser/result.go:58-62 | an interaction between two revisions in the files as given: `Result.Func` and `scopedTypeResolver.Func` build a `Func` without `decl` and fill its receiver, parameters and results themselves, while func.go's `Recv()`, `Params()` and `Returns()` still run `parse`, which reads `f.decl.Recv` and dereferences nil. The two do not compile together: result.go:58-62 and pkg/parser/resolver.go:90-93 set a `name` field that func.go:13-22's `Func` only gets by promotion from `*Decl`, and result.go:86 calls `newType` with three arguments where pkg/parser/type.go:26 takes two; func.go's own `newFunc` (func.go:25-32) always sets `decl` | any registered function, such as `NewService` of pkg/parser/testdepdata/dep.go, on the first `Params()` call of `Resolve` (pkg/parser/func.go:134), if the two revisions are combined | skip `parse` when there is no declaration, returning the signature already filled in | not executed; low, the files as given do not build | Registry.Func.Parse, Registry.Func.AccessorsAsWritten, Registry.RegisteredAccessFails | Registry.Func.Accessors |
