# responserms/spec: the ordered multi-pass registrar, in Dafny

This project models the core of the Go library `github.com/responserms/spec`. The library
validates HCL and JSON configuration against a schema made of block definitions. It decodes
the configuration in several passes, so that values computed from one block can be used by
the blocks that follow it.

- **`parser/parser.go`**, in `parser.dfy`, module `Parser`. A `BlockDefinition` always
  has a grammar, its `Spec()`. It may also have two independent optional capabilities,
  `VariableInjector` and `FunctionInjector`. Each capability is an `Option` holding a
  function from the decoded block value to the map of names it injects.
  `NamedBlockDefinition` pairs a definition with its block name.
- **`parser/registrar.go`**, in `registrar.dfy`, module `Registrar`. `Registration` and
  `Registrar` are classes, because Go shares them through pointers. The registrar keeps
  an order counter (`NextOrder`), a step (`IncreaseNextOrderBy`) and the list of
  registrations. `Parse` sorts that list in place by order key. It then decodes the body
  in one partial decode per registration. Each pass decodes what the previous pass left
  over. Every pass's diagnostics are appended, and nothing stops early. After each pass,
  the injected functions and then the injected variables are merged into the shared
  `EvalContext`, last write wins. One whole `Parse` is specified as a pure fold, `Run`,
  over the definitions in processing order. The methods are proved against it, and the
  lemmas about `Run`, `PassAt` and `ScopeAfter` state what the passes promise.
- **`spec.go` and `files.go`**, in `spec.dfy` (class `Spec`) and `files.dfy` (module
  `FileIngest`). `New` and `NewSubset` register a definition list with step 1. `Files`
  dispatches each filename on its `path.Ext` extension: `.json`, `.hcl`, or unsupported.
  It adds up the diagnostics of a whole batch and fills the file store. `ParsedFiles` and
  `Body` iterate over that store. `FileGlob` runs `Files` over a glob's matches. The
  batch is specified as the fold `IngestAll`, and its lemmas say which names are stored
  and which diagnostics appear.
- **`hcl.dfy`**, module `Hcl`. This is the interface of the HCL engine these files call.
  Values, functions, grammars, bodies and parsed files are opaque types. `PartialDecode`,
  `MergeFiles`, `hclsyntax.ParseConfig` and `json.Parse` are function fields of an
  `Engine` value passed as a parameter. `EvalContext` is a class whose two maps are
  `Option`s, because a Go map can be nil.
- **`base.dfy`**, module `Base`. `Option`, Go's 64-bit `int` with its wrap-around
  addition, and distinctness of a sequence.

The file system is a parameter `fs: map<string, seq<byte>>`. A name that is missing from
`fs` fails to read. The glob is a parameter function from the pattern to its matches, or to a bad-pattern
error. Go
map iteration order is unspecified, so `Body` returns the order it used as a ghost sequence
of keys, and its contract holds whatever that order is. Each pass's call to `Spec()` is
recorded by `DecodePass`, where the grammar is read, in the ghost trace `specCalls` that
`Registrar.Parse` returns.

`Parse` sorts with `sort.Slice`, which is not stable. The model promises a sorted
permutation and nothing about the relative order of registrations with equal keys.

## Model

| member | source | states |
|---|---|---|
| `Base.WrappingAdd` | parser/registrar.go:89 | the sum is congruent to a + b modulo 2^64, and equals a + b when that fits in 64 bits |
| `Registrar.Registration.constructor` | parser/registrar.go:82-86 | the new registration holds exactly the given name, order key and definition |
| `Registrar.Registrar.constructor` | parser/registrar.go:64-70 | NewRegistrar(k) has NextOrder 0, step k and no registrations |
| `Registrar.Registrar.Registrations` | parser/registrar.go:74-76 | the current list; its elements are the registrar's own `Registration` objects |
| `Registrar.Registrar.RegisterBlock` | parser/registrar.go:81-91 | appends exactly one new registration {name, old NextOrder, definition}; earlier entries are unchanged; NextOrder advances by the step with 64-bit wrap-around; the step is unchanged |
| `Registrar.Registrar.AddRegistration` | parser/registrar.go:99-101 | appends the given registration verbatim as the last element; both counters are unchanged |
| `Registrar.Registrar.Build` | parser/registrar.go:105-113 | the key set is the set of registered names; each name maps to the grammar of the last registration with that name in list order |
| `Registrar.Registrar.SortByOrder` | parser/registrar.go:128-133 | the list becomes a permutation of itself sorted by non-decreasing order key; the counters are unchanged |
| `Registrar.SortedCopy` | parser/registrar.go:128-133 | the result is sorted by order key and is a permutation (equal multiset) of the input |
| `Registrar.Registrar.Parse` | parser/registrar.go:117-159 | leaves the list a sorted permutation of itself; both context maps end non-nil; asks each registration for its Spec() exactly once, in list order after sorting; the diagnostics and final context are those of Run over the sorted definitions, starting from the caller's body, no diagnostics and the caller's context |
| `Registrar.Registrar.DecodeInOrder` | parser/registrar.go:135-158 | the loop over sorted registrations threads residual body, diagnostics and context exactly as Run does, and visits every registration once, in order |
| `Registrar.DecodePass` | parser/registrar.go:139-155 | one loop iteration: records the registration whose grammar it reads, decodes with that grammar against the current context, appends the diagnostics, continues with the residual body and merges injected functions then variables; the new body, diagnostics and context are Step's |
| `Registrar.InjectFunctions` | parser/registrar.go:144-148 | the function map becomes the old map overridden by the injected one (last write wins, other keys kept); variables untouched |
| `Registrar.InjectVariables` | parser/registrar.go:151-155 | the variable map becomes the old map overridden by the injected one (last write wins, other keys kept); functions untouched |
| `Parser.BlockDefinition.IsVariableInjector` | parser/registrar.go:151 | the definition of the VariableInjector type assertion: the definition carries a variables function (a `Some` field), whatever its functions field holds |
| `Parser.BlockDefinition.IsFunctionInjector` | parser/registrar.go:144 | the definition of the FunctionInjector type assertion: the definition carries a functions function (a `Some` field), whatever its variables field holds |
| `Registrar.Step` | parser/registrar.go:138-156 | the reference definition of one pass: partial decode of the residual body against the current scope, diagnostics appended, residual body kept, injected functions and variables merged with map override; StepMergesScope states the merge name by name |
| `Registrar.Run` | parser/registrar.go:135-158 | the reference definition of a whole Parse: Step folded over the definitions in order, from the initial body, diagnostics and scope; the lemmas below state its properties |
| `Registrar.StepMergesScope` | parser/registrar.go:144-155 | after one pass every injected name holds the injected value (last write wins), and every other name keeps its presence and value, for variables and for functions |
| `Registrar.StepKeepsKeys` | parser/registrar.go:144-155 | one pass removes no variable and no function from the scope |
| `Registrar.RunPrefixStep` | parser/registrar.go:138-156 | the unfolding of Run on a prefix: Run over defs[..n + 1] is Step applied to Run over defs[..n] with defs[n] |
| `Registrar.RunAppend` | parser/registrar.go:138-156 | running a + b is running b from the state that running a leaves |
| `Registrar.FirstPassDecodesInput` | parser/registrar.go:135-139 | the first pass decodes the body given to Parse, against the caller's context |
| `Registrar.PassDecodesPreviousResidual` | parser/registrar.go:139-141 | each later pass decodes the residual body returned by the pass before it |
| `Registrar.DiagnosticsConcatenate` | parser/registrar.go:136-140 | after n passes the diagnostics are the initial ones followed by those of passes 0 to n - 1, in pass order |
| `Registrar.DiagnosticsOnlyGrow` | parser/registrar.go:140 | the diagnostics after i passes are a prefix of the diagnostics after any n >= i passes |
| `Registrar.ErrorsSurvive` | parser/registrar.go:138-158 | an error reported by any pass is an error of the whole Parse: there is no early exit and nothing is dropped |
| `Registrar.InjectedVariableVisibleLater` | parser/parser.go:53-56 | a variable injected by pass i is in the scope after every later pass n, with the injected value, unless a pass strictly between writes it again |
| `Registrar.InjectedFunctionVisibleLater` | parser/parser.go:64-66 | a function injected by pass i is in the scope after every later pass n, with the injected value, unless a pass strictly between writes it again |
| `Registrar.UninjectedVariableKept` | parser/registrar.go:151-155 | a variable no pass writes keeps its initial presence and value |
| `Registrar.UninjectedFunctionKept` | parser/registrar.go:144-148 | a function no pass writes keeps its initial presence and value |
| `Registrar.ScopeKeysPersist` | parser/registrar.go:144-155 | names are never removed from the context: the keys after i passes are among the keys after n >= i passes |
| `Registrar.PlainDefinitionKeepsScope` | parser/registrar.go:143-155 | a definition that is neither injector leaves the context exactly as it found it |
| `Registrar.PassSeesOnlyEarlierDefinitions` | parser/parser.go:48-49 | what pass i decodes, and against which scope, depends only on the definitions before it and its own grammar: injection happens after decoding, and later definitions are invisible |
| `Registrar.LowerOrderProcessedFirst` | parser/registrar.go:128-133 | in the sorted list, a strictly smaller order key is at a strictly earlier position |
| `Registrar.SortedThreeKeys` | parser/registrar_test.go:144-173 | registrations added with keys 100, 50, 1 are, after any sort by key, asked for in the order 1, 50, 100 |
| `Registrar.IndexOrderedListSortsToItself` | parser/parser.go:25-27 | when the order keys are the positions 0, 1, 2, ... (as New makes them), the only sorted permutation is the list itself, so a pre-ordered definition list is processed in its own order |
| `FileIngest.ParseSource` | hcl.go:23 | the definition of the parser dispatch: HCL sources go to hclsyntax.ParseConfig and JSON sources to json.Parse (json.go:23), each given the bytes and the filename |
| `FileIngest.Quote` | hcl.go:41 | the definition of %q on a filename: the escaped name between double quotes; QuoteRoundTrip proves it unquotes back |
| `FileIngest.IngestAll` | files.go:31-44 | the reference definition of a whole Files call: IngestFile folded over the filenames in input order from the given store and diagnostics; the batch lemmas below state its properties |
| `FileIngest.Classify` | files.go:32-43 | the file kind is JSON exactly when the extension is ".json", HCL exactly when it is ".hcl", and unsupported exactly when it is neither |
| `FileIngest.ReadFailure` | hcl.go:35-44 | an error with summary "Failed to read file", and detail "The HCL file" or "The JSON file", then the quoted filename, then "could not be read."; it is never the unsupported-type diagnostic |
| `FileIngest.QuoteRoundTrip` | hcl.go:41 | the quoted filename in that detail is enclosed in double quotes and unquotes back to the filename |
| `FileIngest.UnescapeEscapeChar` | hcl.go:41 | unquoting reads back each escaped character |
| `FileIngest.UnescapeEscape` | hcl.go:41 | unquoting the escaped filename gives the filename back |
| `FileIngest.FileDiagnostics` | files.go:33-42 | an unsupported name gives exactly the unsupported-type error; a supported name that does not read gives exactly its read-failure error; every name that is not stored gives exactly one error; a stored name gives its parser's diagnostics |
| `FileIngest.IngestFile` | files.go:31-43 | one iteration of Files appends that file's diagnostics, adds the name to the store exactly when it is stored, with the unit parsed from its bytes, and leaves every other entry unchanged |
| `FileIngest.Ext` | files.go:32 | path.Ext: the result is a suffix of the path; when non-empty it starts with the last dot and contains no later dot or slash; when empty every dot in the path is followed by a slash |
| `FileIngest.ClassifyHclFile` | files.go:35-36 | "./testdata/test.hcl" goes to the HCL path |
| `FileIngest.ClassifyJsonFile` | files.go:33-34 | "./testdata/test.json" goes to the JSON path |
| `FileIngest.ClassifyUpperCaseUnsupported` | files.go:37-42 | "main.HCL" is unsupported: the match is exact and case-sensitive |
| `FileIngest.ExtOfDottedName` | files.go:32 | the extension of dir + "." + x, where x has no dot and no slash, is "." + x, whatever dir holds |
| `FileIngest.ExtAfterSlash` | files.go:32 | when the final element x of dir + "/" + x has no dot, the extension is empty, whatever dots dir holds |
| `FileIngest.ClassifyDotInDirectoryUnsupported` | files.go:37-42 | "./testdata.d/main" is unsupported: a dot in a directory name does not count |
| `FileIngest.IngestAllAppend` | files.go:31-44 | ingesting a + b is ingesting a, then b from the resulting store and diagnostics |
| `FileIngest.IngestedDiagnostics` | files.go:29-46 | the batch's diagnostics are every filename's own diagnostics concatenated in input order; an unsupported or unreadable file does not stop later ones |
| `FileIngest.IngestedKeys` | files.go:31-43 | the store afterwards holds the earlier names plus exactly the given names that have a supported extension and read; unsupported and unreadable names are never added |
| `FileIngest.IngestedUnits` | hcl.go:22-27 | a stored name holds the unit parsed from its bytes, replacing any earlier entry; every other name keeps what it held |
| `FileIngest.PrefixDiagnostics` | files.go:31-44 | the diagnostics after the first n filenames are a prefix of the diagnostics of the whole batch |
| `FileIngest.UnsupportedNameReported` | files.go:37-42 | a filename with an unsupported extension puts the "cannot determine file type" error in the result, which then has errors |
| `FileIngest.GlobErrorOnlyFromParsers` | files.go:21-22 | Files never creates a diagnostic with summary DiagGlobError itself: such a diagnostic can only come from parsing one of the stored files |
| `FileIngest.DistinctFilesAllStored` | files_test.go:41-43 | n distinct readable .hcl/.json names ingested into an empty store give a store of n files |
| `Spec.RegistrarFor` | spec.go:34-38 | a fresh registrar with step 1 whose registration i has name defs[i].name, definition defs[i] and order key i; NextOrder ends at len(defs) |
| `Spec.Spec.New` | spec.go:33-44 | registers the definitions in slice order with step 1: registration i has the i-th name, definition and order key i, the count is len(defs); the file store is empty |
| `Spec.Spec.NewSubset` | spec.go:49-60 | the same for variadic definitions; with none there are no registrations; the file store is empty |
| `Spec.Spec.Registrations` | spec.go:64-66 | the registrar's current list; its elements are the registrar's own `Registration` objects |
| `Spec.Spec.Build` | spec.go:69-71 | the registrar's object grammar: keys are the registered names, each mapped to the grammar of its last registration |
| `Spec.Spec.Body` | spec.go:75-83 | collects every stored file exactly once, in some order of distinct keys covering the store, and merges them |
| `Spec.Spec.Parse` | spec.go:87-89 | runs the registrar's Parse on the merged body with the same context; the wrapped diagnostics are Run's diagnostics unchanged |
| `Spec.Spec.ParseSource` | hcl.go:22-27 | parses the source with the format's parser, stores the unit under the filename (replacing any earlier one) and returns the parser's diagnostics |
| `Spec.Spec.ParseFile` | hcl.go:34-47 | an unreadable file gives exactly one "Failed to read file" error naming the format and the quoted filename, and stores nothing; a readable one behaves as ParseSource on its bytes |
| `Spec.Spec.Files` | files.go:28-47 | the store and the diagnostics are IngestAll's over the filenames in input order; no filenames leave the store unchanged and give no diagnostics |
| `Spec.Spec.ParsedFiles` | files.go:51-59 | each stored filename exactly once: distinct, as many as the store holds, and exactly its keys |
| `Spec.Spec.FileGlob` | files.go:63-66 | with matches, the store and diagnostics are those of Files over the matches; a malformed pattern (no matches, error discarded) leaves the store unchanged with empty diagnostics, as does a pattern that matches nothing |
| `Hcl.HasErrors` | diagnostics.go:40-42 | some entry has error severity; an empty list has none |
| `Hcl.HasErrorsConcat` | parser/registrar.go:140 | a concatenation of diagnostics has errors exactly when one of its parts does, so Extend and Append keep every error |
| `Spec.Diagnostics.HasErrors` | diagnostics.go:40-42 | the wrapper has errors exactly when some diagnostic in it has error severity |
| `Hcl.EvalContext.constructor` | parser/registrar_test.go:133-136 | a context holds exactly the given maps, which may be nil |
| `Hcl.EvalContext.Current` | parser/registrar.go:120-126 | the definition of the scope a context presents to the engine: each map as it is held, and a nil map read as the empty one, the way Go reads a nil map |

## Left out

- `Spec.Decode` (spec.go:104-106) is not modelled. It is `gohcl.DecodeBody`, reflection-driven struct-tag decoding into a caller's Go value.
- `diagnostics.go` is reduced to the `Diagnostics` record and `HasErrors`. `Raw`, `Error` and `Errs` forward to the HCL library, and `WriteText` renders text to an `io.Writer`.
- The public wrappers `ParseHCL`, `ParseHCLFile`, `ParseJSON` and `ParseJSONFile` (hcl.go:18-20, 30-32 and json.go) are left out. They only wrap the unexported functions in `newDiagnostics`. HCL and JSON share one `ParseSource`/`ParseFile` with a `Format` parameter.
- `hcldec.PartialDecode`, `hcl.MergeFiles`, `hclsyntax.ParseConfig` and `json.Parse` are opaque functions of an `Engine` parameter. Grammars, values, functions, bodies and files are opaque types.
- Diagnostics carry severity, summary and detail. Source ranges and expression context are left out.
- FileIngest.ReadFailure: quotes the filename with the escapes `\"`, `\\`, `\n`, `\r` and `\t` only. Go's `%q` also escapes other control and non-printable characters.
- `ioutil.ReadFile` is modelled as a lookup in a map parameter, I/O errors other than a missing file are not distinguished, and `filepath.Glob` is a parameter function.
- Go accepts `AddRegistration(nil)` and a registration whose `Definition` is nil. `Build` (parser/registrar.go:109) and `Parse` (parser/registrar.go:131, 139) then panic. The model's `Registration` is a non-null object and `BlockDefinition` a datatype, so these inputs and their panics are not expressible.
- The `Engine` functions are total, so panics inside the HCL library are not modelled. `hcldec.PartialDecode` (parser/registrar.go:139) panics on a nil body and on a nil `Spec()` grammar; the model instead returns whatever the engine gives for them. The one nil-body call in the library's tests (parser/registrar_test.go:138) has no registrations, so no decode happens.
- A nil `*hcl.EvalContext` passed to `Parse` makes Go panic. The model takes a context object. The parent chain of an `EvalContext` is not modelled.
- Go maps are shared by reference. The model keeps the context maps as fields of the one `EvalContext` object. It does not model a caller holding another reference to the same map value.
- `Registrations()` returns the backing slice. The model shares the `Registration` objects but not the slice itself. In Go, writing to an element slot of the returned slice would also change the registrar's list, and `sort.Slice` in `Parse` reorders a slice the caller may hold.
- Registrar.Registrar.Parse: it is stated for any sorted permutation. Which permutation Go's unstable sort picks for equal keys is not modelled.
- Within one pass, functions are merged before variables. The two maps are disjoint, so the order is not observable, and `Step` merges both after the decode.
- `Spec.Spec.New`, `Spec.Spec.NewSubset` and `Spec.RegistrarFor` require at most `INT64_MAX` definitions. That is the bound on a Go slice length, and so the order keys 0 to n - 1 never wrap.
- Go's `int` is modelled as 64 bits wide. On a 32-bit platform it wraps at 2^32 instead.
- `Spec.Spec.Body` and `Spec.Spec.Parse` expose the map iteration order they used as a ghost sequence of distinct keys. The contract holds for every such order, and the order itself stays unspecified.
