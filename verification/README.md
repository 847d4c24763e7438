# Verified model of the Vidbyte SDK contract tooling

A Dafny 4.11 model of the static-analysis core that guards the SDK's cross-repository contracts,
and proofs about it. Four parts of the repository are modelled, each in the form its code has:

- **Route matcher** (`lint/core/platform_contract.py`): which contract routes a traced request path
  with holes can reach. The worklist search over the product automaton is proved to decide whether
  the template's language and the traced path's language share a concrete text; the tokenisers,
  the normalised path and the URL origin are proved against grammars of their own.
- **`__all__` resolver** (`lint/core/public_api_contract.py`): a memoising abstract interpreter over
  module statements with a cycle stack and errors that are stored instead of raised. It is a class
  with a mutable cache, proved against an uncached evaluation (`ModuleEvaluation.Outcome`). That in
  turn is stated statement by statement on the shape of the statement (`ResolverSteps`), compared
  with a reading of Python (`PythonMeaning.Meaning`), and proved to succeed on every acyclic program
  of supported constructs (`SupportedPrograms`).
- **Contract codec and generator** (`lint/core/public_api_contract.py`,
  `scripts/generate-sdk-public-api.py`): the canonical rendering line by line, a JSON reader for
  committed copies that is proved to decide its grammar (`JsonGrammar.LoadsExactlySpelled`), and the
  generator as a state machine over working files, contract file, HEAD and commits.
- **Module index** (`lint/core/python_index.py`): symbol resolution through cyclic imports, the
  base-class queue, and the two call traversals.

How the pieces meet: the resolver's cache invariant (`AllResolution.Settled`) says what a cached
answer depends on, so the files a derivation read settle what it derives (`ReadModules`); together
with the codec's round trip this gives provenance over every run of edits, commits, checkouts and
generator calls, and with the comparison with Python it says what the derived exports are
(`PublicApiDerivation.DerivedExportsArePythons`).

Three places where the code and its prose, or its promise, differ, and how the model treats them:

- `ModuleIndex.bases` is described as depth-first but takes from the front and adds at the back; the
  model keeps the queue and proves breadth-first order.
- The generator promises never to record a commit whose inputs differ from what was read. Its check
  looks only at files that were read, so removing a package initialiser from the index (`git rm`)
  without committing can make a dotted name fall back to a plain module file and pass. (A plain `rm`
  stops earlier: the source catalogue refuses a listed file that is gone.)
  `PublicApiGenerator.RunsKeepSound` proves the promise whenever, at the moment of the call, no
  dotted name of HEAD has moved (`LookupsStand`): none leads here to another module that stands in
  both trees, and none that a from-import looks up leads nowhere while some other module stands in
  both. The condition speaks of paths only, and it is exact for them
  (`DeletedModule.PathsKeepProvenanceExactly`): where a lookup has moved there are contents with
  which a clean call records a wrong commit, and where none has there are no such contents.
- The resolver follows changes of `__all__` only, and only those it recognises. `StaleBinding` holds
  the failing inputs: a list extended under its own name, `x = __all__.pop()`, `helper(__all__)`, a
  comprehension that appends, an import of `__all__` inside a compound statement, and a list changed
  under a name imported from a module, itself or another. `ReadModules.ResolvedNamesArePythons`
  proves the answer right where the modules read are `Traceable`, and
  `PythonExactness.AnswersExactlyKnownNames` that there it gives up only when Python's value is not
  known either. On straight-line programs, which bind every name once and import only modules of
  lower rank, it answers and is right with no such condition
  (`StraightPrograms.StraightProgramsArePythons`).

A module is `Traceable` when what the resolver has recorded under a name is neither lent to other
code nor changed nor rebound except by assignment, when no module that was read reaches it from
outside (as an attribute, or under an imported name that is changed or lent; `Reach` names what is
reached and `Covers` checks a module's text against it), and when `__all__` changes only in the
forms the resolver handles or refuses. Constants, tables, imports and functions are free in such
modules (`PythonMeaning.OtherValuesAreTraceable`). Nothing is asked of modules that were not read;
what is assumed of them is that they change no list and rebind no name of a module that was.

`NameLending` computes this from text alone and without regard to order: a name is lent when it is
passed on, stored in a structure, used by nested code or given a second name. The reading of Python
(`PythonMeaning.Meaning`) claims to know no list that is lent or reached, so it stays right when
functions of the modules read change such a list.

Parameters instead of models: Python's and TOML's parsers, and `str.isidentifier`
(`PublicApiDerivation.Parsers`); HEAD, the commits and file texts are state components.

`dafny verify dfyconfig.toml` checks the whole project.

## Model

| member | source | states |
|---|---|---|
| RouteTemplate.RouteTokens | lint/core/platform_contract.py:326-336 | The copying loop over the parameter matches yields the position-by-position reading of the template |
| RouteTemplate.TokensOfNextPiece | lint/core/platform_contract.py:330-335 | The text before the leftmost parameter stands for itself and the parameter for one hole |
| RouteTemplate.ParamLenIsThatOfParam | lint/core/platform_contract.py:43 | A text starts with a parameter exactly when a prefix is a name without braces and slashes between braces, and that prefix is unique |
| RouteTemplate.NormalizedKeepsTokens | lint/core/platform_contract.py:92-95 | Normalising is idempotent and never changes a template's tokens, stray and nested braces included |
| RouteTemplate.ParamLenOfNormalized | lint/core/platform_contract.py:43 | A stray brace stays stray after normalising, and `{}` is a parameter whatever follows it |
| RouteTemplate.NormalizedDecidesTokens | lint/core/platform_contract.py:92-95 | Normalised paths are equal exactly when the token sequences are |
| RouteLanguage.StepKeepsCommon | lint/core/platform_contract.py:364-390 | No move of the search loses a common text |
| RouteLanguage.RunSpells | lint/core/platform_contract.py:350-362 | Every run into the accepting state yields a text both sides accept |
| RouteLanguage.CommonHasStep | lint/core/platform_contract.py:364-390 | From every state with a common text left there is a move that keeps one and makes progress |
| RouteLanguage.CommonReaches | lint/core/platform_contract.py:350-362 | Every common text leads the search to the accepting state |
| RouteLanguage.ReachingMeansMeeting | lint/core/platform_contract.py:350-362 | The accepting state is reachable exactly when the two languages share a text |
| RouteMatching.Moves | lint/core/platform_contract.py:364-390 | The listed moves are exactly the automaton's empty moves and common one-character moves |
| RouteMatching.Intersects | lint/core/platform_contract.py:350-362 | The answer is whether the languages meet, what was seen is exactly the reachable state set, and the worklist ends |
| RouteMatching.TracedTokens | lint/core/platform_contract.py:338-348 | The loop flattens literals and merges runs of holes |
| RouteMatching.TracedOfHasNoAdjacentHoles | lint/core/platform_contract.py:340-345 | The tokens never have two adjacent holes, empty literals between holes included |
| RouteMatching.TracedOfLanguage | lint/core/platform_contract.py:338-348 | The tokens accept exactly the texts of the concatenated pieces |
| RouteMatching.HoleAcceptsMore | lint/core/platform_contract.py:338-348 | Replacing a literal piece by a hole accepts at least as much |
| RouteMatching.NamesCounted | lint/core/platform_contract.py:203-207 | The loader's count of distinct names accepts exactly the route lists without a repeated name |
| RouteMatching.JudgedByOwnTemplate | lint/core/platform_contract.py:311-314 | With unique names every route is looked up under its own template |
| RouteMatching.JudgedByLast | lint/core/platform_contract.py:311-314 | A name stands for the last route that has it |
| RouteMatching.SelectPicks | lint/core/platform_contract.py:319 | The selection holds every route that satisfies the test, in order and once per position |
| RouteMatching.RouteMatcher.constructor | lint/core/platform_contract.py:311-314 | The token table maps each name to the tokens of the last route of that name |
| RouteMatching.RouteMatcher.Match | lint/core/platform_contract.py:316-319 | Returns the routes at ascending indices; an index is among them exactly when the template its route is judged by shares a concrete text with the traced pieces |
| RouteMatching.UniqueNamesMatchOwnTemplates | lint/core/platform_contract.py:316-319 | With unique names the routes returned are those whose own template fits |
| RouteMatching.TemplateLanguage | lint/core/platform_contract.py:326-336 | A template accepts exactly its instances, each parameter replaced by non-empty slash-free text |
| RouteMatching.HoleFreeFitsInstances | lint/core/platform_contract.py:316-319 | A hole-free request fits a route exactly when it is an instance of the template |
| RouteMatching.HolesLoseNoRoute | lint/core/platform_contract.py:316-319 | Knowing less of a request never loses a route |
| RouteMatching.EqualNormalizedFitAlike | lint/core/platform_contract.py:92-95 | Routes with equal normalised paths fit the same requests |
| UrlOrigins.ParseAccepts | lint/core/platform_contract.py:257-266 | Every text of the origin grammar parses to its lower-cased scheme, dot-stripped host, port and end |
| UrlOrigins.ParsedIsSpelled | lint/core/platform_contract.py:257-266 | Exactly the texts of the grammar parse |
| UrlOrigins.OriginReparses | lint/core/platform_contract.py:257-270 | A printed origin followed by a path, query, fragment or nothing parses back to itself exactly when its host is not empty |
| UrlOrigins.Alphabets | lint/core/platform_contract.py:42 | The characters of schemes, hosts and ports, and those that end an origin, one by one |
| UrlOrigins.LowerCaseOf | lint/core/platform_contract.py:266 | Only ASCII capitals change, each to its small letter |
| UrlOrigins.OnlyDotsAreStripped | lint/core/platform_contract.py:266 | A host loses its trailing dots and nothing else |
| ModuleEvaluation.SequenceBelow | lint/core/public_api_contract.py:307-347 | An expression that resolves still resolves, to the same list, when more modules resolve or stored errors become lists |
| ModuleEvaluation.BodyBelow | lint/core/public_api_contract.py:200-218 | The same for whole module bodies, also in a tree with other paths whose lookups of resolved modules are kept |
| ModuleEvaluation.ShorterChainKeepsAnswers | lint/core/public_api_contract.py:200-218 | Shrinking the cycle stack never loses or changes a successful resolution |
| ModuleEvaluation.BodyWrittenIn | lint/core/public_api_contract.py:321-327 | Every export is a string literal of the module or of a module it followed, with its line |
| ModuleEvaluation.ResolvedNamesAreLiterals | lint/core/public_api_contract.py:200-218 | Whatever resolves lists string literals of modules of the tree, each with its file and line |
| AllResolution.JoinsCache | lint/core/public_api_contract.py:215-218 | A module walked to its end may be cached: its outcome is the same on every stack that avoids the cache and in every tree that agrees on the cached modules and keeps lookups |
| AllResolution.AllResolver.Resolve | lint/core/public_api_contract.py:200-218 | The outcome is the uncached one on this stack, after any earlier calls; the cache invariant holds again; every import graph terminates |
| AllResolution.AllResolver.RejectsHiddenMutation | lint/core/public_api_contract.py:233-243 | Reports a compound statement exactly when it stores, deletes or declares `__all__` or uses an attribute of it |
| ResolverSteps.CompoundIsPassedOrRefused | lint/core/public_api_contract.py:233-243 | A compound statement is refused exactly for such a node, and else changes nothing |
| ResolverSteps.ResolvedHidesNothing | lint/core/public_api_contract.py:233-243 | Where `__all__` resolves, no compound statement of the module holds such a node |
| AllResolution.AllResolver.RecordImportsOf | lint/core/public_api_contract.py:245-259 | The bindings after an import statement |
| ResolverSteps.FromImportStep | lint/core/public_api_contract.py:245-255 | A from-import makes the names it binds no lists and an imported `__all__` that of its module; all other names keep what they stand for |
| ResolverSteps.SubmoduleStep | lint/core/public_api_contract.py:254-255 | A name stands for the last tracked submodule imported under it, and else for what it did |
| ResolverSteps.PlainImportStep | lint/core/public_api_contract.py:256-259 | `import m as n` makes n stand for m; an import without `as` binds nothing |
| ModulePaths.RelativeImportLeadsTo | lint/core/public_api_contract.py:349-355 | A relative import leads to the directory of the module, one up for each further dot, and past the top counts from the end again |
| ModulePaths.DottedNameLeadsTo | lint/core/public_api_contract.py:357-363 | A dotted name leads to the initialiser on its path when that is tracked, and else to the module file |
| AllResolution.AllResolver.ApplyStatement | lint/core/public_api_contract.py:261-277 | The new `__all__`, its line and the bindings agree with every evaluation that knows the cached modules |
| ResolverSteps.AllIsBoundPlainly | lint/core/public_api_contract.py:263-268 | `__all__` is bound by one plain assignment of a readable value only, on its line, and nothing else is bound |
| ResolverSteps.AugmentedStep | lint/core/public_api_contract.py:271-274 | `+=` adds a readable list to a bound `__all__`, another operator is refused, other targets change nothing |
| ResolverSteps.OtherExpressionStep | lint/core/public_api_contract.py:275-277 | Any expression but a method call of `__all__` changes nothing |
| ResolverSteps.FirstLineIsFirstChange | lint/core/public_api_contract.py:210-214 | The line kept with a list is that of the first statement that binds `__all__` or adds to it |
| AllResolution.AllResolver.BindOther | lint/core/public_api_contract.py:284-296 | A failing right-hand side is kept with the name, and modules resolved on the way stay cached |
| ResolverSteps.OtherNamesAreBound | lint/core/public_api_contract.py:284-296 | Any other assignment binds exactly its plain targets to what the value lists, drops them as imports, and leaves `__all__` alone |
| ResolverSteps.NameIsReboundFromItself | lint/core/public_api_contract.py:284-296 | The value is read with the name's own list still in place and its import gone |
| AllResolution.AllResolver.MutateAll | lint/core/public_api_contract.py:298-305 | `extend` and `append` agree with the uncached evaluation, everything else fails |
| ResolverSteps.MethodOfAllStep | lint/core/public_api_contract.py:298-305 | `extend` adds a list and `append` an item to a bound `__all__`; every other call of it is refused |
| AllResolution.AllResolver.SequenceOf | lint/core/public_api_contract.py:307-319 | An expression's list agrees with the uncached evaluation |
| ResolverSteps.OnlyItsNamesMatter | lint/core/public_api_contract.py:307-347 | An expression's list depends on nothing but what its own names stand for |
| ResolverSteps.OnlyCopyingCallsAreRead | lint/core/public_api_contract.py:313-314 | `list`, `tuple` and `sorted` of one argument are read as that argument, and no other call is read |
| AllResolution.AllResolver.ElementOf | lint/core/public_api_contract.py:321-327 | A list element is a literal or a starred sequence |
| ResolverSteps.DisplaysListTheirLiterals | lint/core/public_api_contract.py:309-325 | A display of string literals lists them in order, each with its file and line |
| ResolverSteps.ReExportedAllIsExtended | lint/core/public_api_contract.py:329-340 | An `__all__` imported under its own name and then extended in a display gives the other module's names followed by the own ones |
| AllResolution.AllResolver.ForeignAll | lint/core/public_api_contract.py:342-347 | Another module's `__all__` is the uncached outcome on the longer stack |
| PythonMeaning.SortKeepsNames | lint/core/public_api_contract.py:313-314 | Sorting keeps every name as often, so ignoring it keeps the list up to order |
| PythonMeaning.SequenceDescribes | lint/core/public_api_contract.py:307-340 | A resolved expression lists the names of Python's value, each as often |
| PythonMeaning.StatementDescribes | lint/core/public_api_contract.py:210-214 | One traceable statement keeps the resolver's bindings a description of Python's environment |
| PythonMeaning.OtherValuesAreTraceable | lint/core/public_api_contract.py:269-270 | Assigning a constant, a table or a call to another name is traceable in every module and records nothing |
| PythonMeaning.ResolvedDescribes | lint/core/public_api_contract.py:200-218 | Among traceable modules a resolved list is a permutation of Python's `__all__`, and equal to it when nothing was sorted, for every import chain |
| ReadModules.ReadOutcomeStands | lint/core/public_api_contract.py:220-222 | What resolves with all modules blanked but those read resolves alike in the whole tree |
| ReadModules.CachedModulesSuffice | lint/core/public_api_contract.py:220-222 | The resolved modules are all a resolution needs |
| ReadModules.ReadOutcomeCarries | lint/core/public_api_contract.py:357-363 | A resolution answers alike in every tree with the same content of the files read and no moved lookup |
| ReadModules.ReadMeaningStands | lint/core/public_api_contract.py:342-347 | What is known of Python's `__all__` from the modules read stays true in the whole tree, in runs that do not raise |
| ReadModules.ResolvedNamesArePythons | lint/core/public_api_contract.py:200-218 | When the modules read are traceable, and so reach no recorded list of one another, the resolved list is a permutation of Python's `__all__`, in the same order when nothing was sorted |
| PythonExactness.KnownSequenceResolves | lint/core/public_api_contract.py:307-347 | An expression whose strings are known in Python resolves |
| PythonExactness.StatementResolves | lint/core/public_api_contract.py:210-214 | A statement either loses `__all__` for good or is walked with everything known still resolvable |
| PythonExactness.AnswersExactlyKnownNames | lint/core/public_api_contract.py:200-218 | On traceable modules that also assign `__all__` once and import explicitly, the resolver answers exactly when Python's `__all__` is known to be strings |
| SupportedPrograms.StatementInScope | lint/core/public_api_contract.py:261-305 | A statement of the supported constructs is never refused, and the names it brings into scope resolve |
| SupportedPrograms.AcyclicProgramsResolve | lint/core/public_api_contract.py:200-218 | Every module of an acyclic program of supported constructs resolves, whatever imports it |
| StraightPrograms.StraightIsTraceable | lint/core/public_api_contract.py:261-305 | Modules of lists, concatenations, copies and imports that bind every name once lend nothing and are traceable |
| StraightPrograms.StraightProgramsArePythons | lint/core/public_api_contract.py:200-218 | On acyclic programs of such modules the resolver answers, Python does not raise, and both lists have the same names, in the same order where nothing was sorted |
| StaleBinding.StaleBindingDropsName | lint/core/public_api_contract.py:261-277 | Extending another name's list makes the resolver answer one name where Python has two |
| StaleBinding.PoppedNameStays | lint/core/public_api_contract.py:233-243 | `x = __all__.pop()` leaves the resolver with two names where Python has one |
| StaleBinding.LentAllIsKept | lint/core/public_api_contract.py:233-243 | A nested import of `__all__`, a comprehension that appends and `helper(__all__)` leave the resolver's list as it was, though Python's is no longer known |
| StaleBinding.SelfImportDropsName | lint/core/public_api_contract.py:245-277 | A list changed under a name the module imports from itself leaves the resolver with the old list |
| StaleBinding.ImportedListDropsName | lint/core/public_api_contract.py:245-277 | A list changed under a name imported from another module, which is also that module's `__all__`, leaves the resolver with the old list |
| StaleBinding.AttributeListsAreReached | lint/core/public_api_contract.py:275-277 | Changing `m.names`, which the resolver ignores, always counts as reaching `names` |
| StaleBinding.VersionIsTraceable | vidbyte/__init__.py:43 | A version constant beside the list leaves a module traceable |
| JsonText.EscapeReads | lint/core/public_api_contract.py:104 | A written code point reads back as itself unless a low surrogate's escape follows a high one |
| JsonText.EscapedReads | lint/core/public_api_contract.py:114-116 | A written string reads back with exactly its surrogate pairs merged |
| JsonText.MergedKeepsExactlyUnpaired | lint/core/public_api_contract.py:104 | Merging changes nothing exactly when no high surrogate is followed by a low one |
| JsonText.ReadStringsAreUnpaired | lint/core/public_api_contract.py:114-116 | Every string the parser reads is one that is written back as itself |
| JsonText.EscapeIsSpelled | lint/core/public_api_contract.py:104 | Printable ASCII is written as itself and other characters in four lower-case hexadecimal digits, the seven with short escapes apart |
| JsonText.LongEscapeIsSpelled | lint/core/public_api_contract.py:104 | A character beyond the basic plane is written as its two surrogates |
| JsonText.RepeatedKeyIsReplaced | lint/core/public_api_contract.py:116-118 | A repeated key keeps its place and takes the last value |
| JsonGrammar.ValueIsSpelled | lint/core/public_api_contract.py:116 | Whatever is read is spelled, in the grammar of RFC 8259 with Python's three further words, by the text that was read |
| JsonGrammar.ValueIsRead | lint/core/public_api_contract.py:116 | Every spelling of a value is read as that value where white space, a comma, a closing bracket or nothing follows |
| JsonGrammar.LoadsExactlySpelled | lint/core/public_api_contract.py:116 | A text loads as a value exactly when it is a spelling of it between white space |
| JsonLayout.LayoutDoesNotMatter | lint/core/public_api_contract.py:153 | Replacing the line feeds of a JSON text by any white space keeps the document |
| SortedStrings.LessIsStrictOrder | lint/core/public_api_contract.py:87 | Code-point order on strings is a strict total order |
| SortedStrings.LessIsBefore | lint/core/public_api_contract.py:87 | The first difference decides: a proper prefix comes first, or the smaller code point does |
| SortedStrings.SortedUniqueIsAscending | lint/core/public_api_contract.py:87 | A list is sorted and unique exactly when each element comes before the next |
| SortedStrings.SortedSorts | lint/core/public_api_contract.py:432 | Sorting gives a strictly increasing list with the same elements |
| SortedStrings.SameElementsSameList | lint/core/public_api_contract.py:87 | Sorted unique lists with equal element sets are equal |
| PublicApiCodec.Render | lint/core/public_api_contract.py:101-112 | The line-by-line writer produces the canonical document |
| CodecForms.RenderedIsLines | lint/core/public_api_contract.py:101-112 | The canonical document line by line |
| PublicApiCodec.Parse | lint/core/public_api_contract.py:114-125 | Whatever parses is a valid contract |
| CodecForms.DecodesExactly | lint/core/public_api_contract.py:114-125 | One JSON value decodes to a contract, the schema's document, and only when repository, commit, generator, name, version and exports are allowed |
| CodecForms.ParsesExactly | lint/core/public_api_contract.py:114-125 | A text parses to a contract exactly when it loads as that document and its values are allowed |
| PublicApiCodec.RenderedLoads | lint/core/public_api_contract.py:101-112 | The canonical document is JSON with exactly the schema's keys in order and the contract's values |
| PublicApiCodec.RenderedParses | lint/core/public_api_contract.py:98-125 | Parsing a rendering gives the contract back exactly when no string holds a surrogate pair as two code points |
| PublicApiCodec.RenderedIsInjective | lint/core/public_api_contract.py:98-112 | Different contracts never share a rendering |
| PublicApiCodec.CanonicalFormKeepsContract | lint/core/public_api_contract.py:114-125 | The canonical rewrite of any accepted text spells the same contract |
| CodecForms.CarriageReturnsAreSeen | lint/core/public_api_contract.py:152-160 | A checkout with carriage returns parses to the same contract and is no contract's canonical document |
| PublicApiDerivation.CachedModulesDetermine | lint/core/public_api_contract.py:429-433 | The files read settle the derived data in every tree that agrees on them and whose lookups stand here |
| PublicApiDerivation.DerivedExportsArePythons | lint/core/public_api_contract.py:419-433 | When the modules read are traceable, the derived exports are the sorted set of the names in Python's `__all__` |
| PublicApiDerivation.OriginsOfNames | lint/core/public_api_contract.py:428-430 | Every name has an origin, that of the first export of the name |
| PublicApiDerivation.DerivedExactly | lint/core/public_api_contract.py:419-433 | The data derived is the stated name and version and the resolved names, ascending, without repeats and all identifiers |
| PublicApiDerivation.UnresolvableExactly | lint/core/public_api_contract.py:369-383 | Nothing is derived exactly when the list does not resolve or no static name and version that are not blank are stated |
| PublicApiDerivation.DerivedDataIsUnpaired | lint/core/public_api_contract.py:432 | Derived strings are written back as themselves |
| PublicApiDerivation.RecordOrigins | lint/core/public_api_contract.py:428-430 | The loop keeps the first origin of every name |
| PublicApiDerivation.PublicApiDeriver.DeriveNow | lint/core/public_api_contract.py:419-433 | The derived data, first origins and read paths; every origin is a line of a read file where a string literal spells the name, and the read paths settle the data, are all the resolution needs and resolve |
| PublicApiGenerator.PublicApiContractGenerator.Run | scripts/generate-sdk-public-api.py:53-79 | `--check` writes nothing and returns 0 exactly on the canonical rendering of the derived data; otherwise the call succeeds exactly when the contract already carries the data or every file read is committed as it was read, and then the file is current |
| PublicApiGenerator.GeneratesExactly | scripts/generate-sdk-public-api.py:65-79 | What a call writes, with which source, and that any other call leaves everything alone, in terms of file texts here and in HEAD |
| PublicApiGenerator.PublicApiContractGenerator.Check | scripts/generate-sdk-public-api.py:88-106 | Comparing exports as sets, fields one by one and bytes with the rendering amounts to being current |
| PublicApiGenerator.PublicApiContractGenerator.RestoreCanonical | scripts/generate-sdk-public-api.py:108-116 | Only formatting drift is rewritten, with the recorded source |
| PublicApiGenerator.CurrentLoads | lint/core/public_api_contract.py:151-169 | A current file is read back as the derived data |
| PublicApiGenerator.GenerateThenCheck | scripts/generate-sdk-public-api.py:53-79 | After a call that returned 0 the check passes and another call writes nothing |
| PublicApiGenerator.ConvertedCheckoutIsRestored | scripts/generate-sdk-public-api.py:88-116 | Carriage returns in a current file fail the check, and the next call removes them and keeps the source |
| PublicApiGenerator.CommitChangesWithData | scripts/generate-sdk-public-api.py:65-73 | The recorded commit changes only when the data does, and then to HEAD |
| PublicApiGenerator.CleanInputsDeriveTheSame | scripts/generate-sdk-public-api.py:118-121 | Clean inputs derive the same data in the checked-out commit when HEAD's lookups stand |
| PublicApiGenerator.ActionKeepsSound | scripts/generate-sdk-public-api.py:53-79 | Every action keeps each readable contract naming a commit that derives its data |
| PublicApiGenerator.RunsKeepSound | scripts/generate-sdk-public-api.py:53-79 | Provenance over every run of edits, commits of any part of the tree, checkouts that may carry local edits, restores, damage, and generator calls in which HEAD's lookups stand |
| DeletedModule.MovedLookupBreaksProvenance | scripts/generate-sdk-public-api.py:69-73 | For any paths among which a lookup has moved there are contents with which a clean call records a wrong commit |
| DeletedModule.PathsKeepProvenanceExactly | scripts/generate-sdk-public-api.py:69-73 | For given package paths here and in HEAD, no contents let a clean call record a wrong commit exactly when no lookup has moved |
| DeletedModule.DeletedModuleBreaksProvenance | scripts/generate-sdk-public-api.py:69-73 | The smallest case: a package initialiser removed from the index while a plain module of its name stands |
| SymbolResolution.ResolvedHasChain | lint/core/python_index.py:217-248 | Every answer stands at the end of a chain of imports |
| SymbolResolution.ChainIsFound | lint/core/python_index.py:217-248 | A chain that avoids the pairs already on the path is never missed |
| SymbolResolution.ResolveFindsExactlyChains | lint/core/python_index.py:217-237 | A name resolves exactly when some chain of imports leads to a definition, module or submodule |
| SymbolResolution.ResolveImportFindsExactlyChains | lint/core/python_index.py:239-248 | The same for an import reference |
| SymbolResolution.AnswerWins | lint/core/python_index.py:217-248 | Every answer stands at the end of a winning chain: a submodule only where nothing leads on from the import's target, star imports in their order |
| SymbolResolution.WinnerIsAnswered | lint/core/python_index.py:217-248 | The end of a winning chain is the answer, so all winning chains end alike |
| SymbolResolution.ResolveAnswersWinner | lint/core/python_index.py:217-237 | The search answers a symbol exactly when the winning chain ends there |
| SymbolResolution.AnswerStandsInItsModule | lint/core/python_index.py:223-228 | An answered constant, function, class or module is one of the module it names, constants before functions before classes |
| SymbolResolution.OwnSymbolIsAnswered | lint/core/python_index.py:223-228 | A name that the module defines is answered with its own symbol, before anything imported |
| SymbolResolution.AnswerIsOwnSymbolOfLast | lint/core/python_index.py:217-248 | The answer belongs to the last pair of the winning chain, or is the module or submodule that pair imports |
| BaseClasses.BasesOf | lint/core/python_index.py:250-262 | Every reachable class exactly once, the class first, never a farther class before a nearer one, and else in the order in which earlier classes name their bases, on any graph |
| BaseClasses.NearOrWaiting | lint/core/python_index.py:253-261 | A class within n base edges was emitted at depth n or something still waits at depth n |
| BaseClasses.QueueIsExact | lint/core/python_index.py:253-258 | A class taken from the queue is no nearer than its place says |
| DirectCalls.BodyReader.Visit | lint/core/python_index.py:328-339 | The reader records a node's calls in reading order and stays out of nested scopes |
| DirectCalls.DirectCallsOf | lint/core/python_index.py:407-416 | The explicit-stack walk yields the same multiset of calls, in mirrored order, and ends |
| CallOrder.WalksFindCalls | lint/core/python_index.py:407-416 | Both walks find exactly the calls that no scope encloses, each once, a call before those inside it, siblings in reading order or mirrored |
| DirectCalls.SameCalls | lint/core/python_index.py:407-416 | Mirrored order and reading order hold the same calls |

## Left out

- `RouteMatcher.closest`, `VidbyteHosts` and the field checks of the platform contract records: library ranking or single comparisons.
- TOML reading beyond the project table's name, version and dynamic flag, and Python's own parser: parameters.
- Error messages, lines of errors, `key_line` and `export_line`: a failure is modelled as no result, a stored error as a name without a sequence.
- JSON integers of more than 4300 digits and nesting beyond the interpreter's recursion limit, which raise errors nothing catches.
- Lone surrogates in export names written as escapes in Python source: names are Unicode text; the codec itself is modelled on all code points.
- `git ls-files` listing a module that is gone from disk, for which the source catalogue raises, and I/O failures: every listed file has a text.
- Hand edits of the contract file to another valid contract, and commits of an older staged version of it: the repository's own rules forbid the first, and a run contains only losses, damage, reformatting and restores.
- PublicApiGenerator.RunsKeepSound: asks LookupsStand at each generator call; where a lookup has moved the promise is false, as DeletedModule shows.
- Python's import-time effects beyond a module's final `__all__`: partially initialised modules, ImportError on cycles, names of a package that shadow a submodule, and an imported submodule becoming a name of its package.
- Names reached by text or by object rather than by name: `globals()`, `exec`, `sys.modules`, `getattr` and `setattr` with a computed name, `__dict__`; modules that were not read changing a list or rebinding a name of one that was; operators that a class defines.
- Two corners of `git status`: a path whose staged text differs from HEAD while its working text does not, which it reports, and an untracked ignored `pyproject.toml`, which it does not; `Dirty` compares the working text with HEAD.
- ReadModules.ResolvedNamesArePythons: list and tuple values are not told apart, so a TypeError from adding them is not seen; star imports, an `__all__` imported under its own name and lists with two names are outside the conditions; it is stated for runs in which Python does not raise.
- PythonExactness.AnswersExactlyKnownNames: what is known of Python's values covers displays, `+`, `list`/`tuple`/`sorted`, names, `name.__all__`, `+=`, `extend`, `append` and `pop`; `package.module.__all__`, comprehensions and other calls count as unknown, and a module on the current import chain has no known value.
- The `_functions` and `_bodies` caches of `ModuleIndex`, `annotation_classes`, `is_enum` and the other facts of `_BodyReader`: the base lists and call trees are given.
- Everything under `vidbyte/`, the other lint rules, and the test drivers in `scripts/`.
