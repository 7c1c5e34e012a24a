# Language-server client profiles and inheritance heuristics

This project models part of the Language Server Protocol (LSP 3.17) client layer of
serena/multilspy. It covers two things:

- **Backend profiles.** For clangd (C/C++), gopls (Go), rust-analyzer (Rust), jedi
  (Python), Metals (Scala) and LanguageServer.jl (Julia), it models:
  - the directory names each backend ignores;
  - the `initialize` parameters each backend sends;
  - the assertions each backend makes about the server's `initialize` response;
  - the readiness events that the notification and request handlers set.
- **Inheritance heuristics.** These answer "does type S inherit from, implement or
  embed T?" when the LSP type hierarchy is not used. Each one reads a few lines of
  source text around the declaration.

It also models Metals' extra rules:

- the choice of an answer to `window/showMessageRequest`;
- the compile tracker driven by `metals/status`;
- the merge of the two reference answers that `request_references` may receive.

Finally, it models the language configuration of `ls_config.py`:

- the `Language` enum and its experimental members;
- `iter_all`;
- the file-name patterns per language;
- `FilenameMatcher`;
- `LanguageServerConfig.from_dict`.

## How the model is organised

- **`PyJson`** — JSON values as Python hands them over (None, bool, int, str, list,
  dict), with Python's semantics:
  - `==`, where `True == 1`;
  - `in`, `d[k]`, `d.get(k, default)` and truthiness;
  - the exception each of these raises.

  Each handler returns either `Pass` or the Python exception it would raise.
- **`Text`** — the string primitives the heuristics use:
  - `strip`, substring `in`, `startswith`/`endswith` and `str.replace(p, "")`;
  - the regular-expression classes `\s`, `\w` and `\b`;
  - ASCII lower-casing.
- **Files are parameters.** A file is given as its lines, or as None when it does not
  exist. The Rust workspace is the sequence of files that `os.walk` reaches, in walk
  order. Each file carries its text or the way reading it fails.
- **Imperative code stays imperative.** The scan loops of the heuristics are methods.
  So are the registration loop, the TypeScript pattern loops, `iter_all`, the
  references merge and the placeholder substitution. Each is proved against a
  specification function; the lemmas then state the source's promises about that
  function.
- **Handlers that set events are methods of a class.** `Handlers.ClientEvents` holds
  the events of the multilspy clients, and `Metals.MetalsClient` holds the events and
  the compile tracker of the Scala client.
- **Shared initialize-params builder.** clangd, gopls, rust-analyzer and jedi build
  their `initialize` params with the same code, `InitParams.FromTemplate`, from a
  JSON template. The template, `Path.as_uri` and `os.getpid` are parameters.

## Model

| member | source | states |
|---|---|---|
| Declaration.StartLine | src/multilspy/language_servers/clangd_language_server/clangd_language_server.py:213 | the start line comes only from a dict; a range without `start` gives -1 |
| Declaration.RangeLine | src/multilspy/language_servers/clangd_language_server/clangd_language_server.py:212-213 | a symbol without `range` has start line -1, which rejects it; a non-dict symbol has none |
| Declaration.RangeOrLocationLine | src/multilspy/language_servers/gopls/gopls.py:183-189 | the start line is read from `range` when present, else from `location.range` when that is a dict holding `range`; a dict symbol with neither key has none; any start line found comes from a dict symbol holding one of the two |
| Declaration.SymbolAtLine | src/multilspy/language_servers/jedi_language_server/jedi_server.py:145-146 | a symbol whose range starts at line n is read as line n by both readers |
| Capabilities.SyncKindOf | src/multilspy/language_servers/clangd_language_server/clangd_language_server.py:176 | a `change` value names a TextDocumentSyncKind exactly when its number is that kind's code (None 0, Full 1, Incremental 2); True counts as 1 |
| Capabilities.ChangeTwoIsIncremental | src/multilspy/language_servers/clangd_language_server/clangd_language_server.py:176 | `change == 2` holds exactly when the sync kind is Incremental |
| Capabilities.CheckSyncAndCompletion | src/multilspy/language_servers/rust_analyzer/rust_analyzer.py:174-180 | the three assertions pass iff sync is Incremental and a completion provider equal to the expected one under Python `==` is present |
| Capabilities.ResponseChecked | src/multilspy/language_servers/jedi_language_server/jedi_server.py:114-119 | a response carrying `change` and a provider passes iff the change is Incremental and the provider equals the expected one |
| Capabilities.CheckKeys | src/multilspy/language_servers/gopls/gopls.py:144-146 | the key assertions pass iff every key is in the capabilities |
| InitParams.BasenameIsLastComponent | src/multilspy/language_servers/jedi_language_server/jedi_server.py:62 | `os.path.basename` gives the last path component: a suffix of the path without `/`, preceded by `/` unless it is the whole path |
| InitParams.Substituted | src/multilspy/language_servers/gopls/gopls.py:98-113 | exactly the template's keys minus `_description` plus `processId`; the root path, URI and pid set; the first folder's uri and name replaced, the other folders and entries kept; rootUri equals the first folder's uri |
| InitParams.FromTemplate | src/multilspy/language_servers/clangd_language_server/clangd_language_server.py:95-113 | succeeds iff all four placeholders are in place (otherwise a lookup or assertion raises), and then returns the substituted params with `as_uri(root)` and `basename(root)` |
| Handlers.RegistrationItems | src/multilspy/language_servers/rust_analyzer/rust_analyzer.py:129 | iterating the registrations yields a list's items; it succeeds iff the value is a list, an empty dict or an empty string, and every failure is a TypeError |
| Handlers.Methods | src/multilspy/language_servers/rust_analyzer/rust_analyzer.py:129-130 | the `method` of each registration in order, up to the first lookup that raises, together with that error |
| Handlers.RegisteredMethods | src/multilspy/language_servers/rust_analyzer/rust_analyzer.py:128 | a request without `registrations` fails the assertion; methods are read only when the key is present |
| Handlers.RegistrationMethods | src/solidlsp/language_servers/scala_language_server.py:185-187 | a well-formed request reads exactly its methods, with no error |
| Handlers.RegistrationAnnouncesListed | src/solidlsp/language_servers/scala_language_server.py:186-194 | a well-formed request announces a method iff the method is listed |
| Handlers.ClientEvents.constructor | src/multilspy/language_servers/clangd_language_server/clangd_language_server.py:42 | a new client has no event set |
| Handlers.ClientEvents.RegisterCapability | src/multilspy/language_servers/clangd_language_server/clangd_language_server.py:129-135 | passes iff every registration is read; the searcher and resolve-main events are set iff executeCommand is announced before any error; they are never cleared; nothing else changes |
| Handlers.ClientEvents.LanguageStatus | src/multilspy/language_servers/rust_analyzer/rust_analyzer.py:135-140 | service-ready is set iff both type and message are "ServiceReady"; a missing `type` raises, and so does a missing `message` after a matching type |
| Handlers.ClientEvents.ExperimentalStatus | src/multilspy/language_servers/rust_analyzer/rust_analyzer.py:148-150 | server-ready is set iff `quiescent == True`; a missing key raises; nothing else changes |
| Handlers.QuiescentValues | src/multilspy/language_servers/clangd_language_server/clangd_language_server.py:151 | `quiescent == True` holds for True and for 1, and for nothing else |
| Clangd.SupportsLspTypeHierarchy | src/multilspy/language_servers/clangd_language_server/clangd_language_server.py:192-195 | clangd uses the LSP type hierarchy |
| Clangd.CheckCapabilities | src/multilspy/language_servers/clangd_language_server/clangd_language_server.py:176-181 | passes iff sync is Incremental and the completion provider equals {triggers `. < > : " / *`, resolveProvider False} |
| Clangd.ResolveZeroAccepted | src/multilspy/language_servers/clangd_language_server/clangd_language_server.py:178-181 | resolveProvider 0 passes, since Python's `0 == False` |
| Clangd.ReorderedTriggersRejected | src/multilspy/language_servers/clangd_language_server/clangd_language_server.py:178-181 | trigger characters in another order fail, since list equality is ordered |
| Clangd.FullSyncRejected | src/multilspy/language_servers/clangd_language_server/clangd_language_server.py:176 | Full sync (change 1) fails |
| Clangd.Initialized | src/multilspy/language_servers/clangd_language_server/clangd_language_server.py:183-187 | after `initialized`, completions and readiness are set; nothing else changes |
| Clangd.IsInheritingFrom | src/multilspy/language_servers/clangd_language_server/clangd_language_server.py:203-241 | true iff the file exists, its start line is in bounds (a missing range gives -1), and the window from that line holds inheritance evidence |
| Clangd.ScanWindow | src/multilspy/language_servers/clangd_language_server/clangd_language_server.py:220-237 | the loop over at most five lines, stopping after the first line with `{`, returns true iff the window holds evidence |
| Clangd.WindowExhausted | src/multilspy/language_servers/clangd_language_server/clangd_language_server.py:220 | when none of the five lines is evidence, there is no inheritance |
| Clangd.WindowClosed | src/multilspy/language_servers/clangd_language_server/clangd_language_server.py:233-235 | lines after the first brace line are never evidence |
| Clangd.BraceLineDecides | src/multilspy/language_servers/clangd_language_server/clangd_language_server.py:225-235 | with a brace line inside the window, the answer is whether some line up to and including it is evidence |
| Clangd.EvidenceNamesTarget | src/multilspy/language_servers/clangd_language_server/clangd_language_server.py:225 | an evidence line contains `:` and the target |
| Clangd.ClauseRemove | src/multilspy/language_servers/clangd_language_server/clangd_language_server.py:229 | `str.replace` of a keyword with neither space nor comma removes it from the access keyword of each base and from nothing else, when no base name contains it |
| Clangd.RemoveAccessBases | src/multilspy/language_servers/clangd_language_server/clangd_language_server.py:229 | removing `public`, `private` and `protected` from ` public B1, ..., public Bn {` leaves the bare base names, for any base names that contain none of the three keywords |
| Clangd.PublicBaseIsEvidence | test/resources/repos/cpp/test_repo/MultipleInterfaces.h:17 | `class S : public B1, ..., public Bn {` is evidence for every Bi whose names contain no access keyword (lower-case `p` included, as in `Shape`), so MultipleInterfaces inherits Readable, Writable and Processable |
| Clangd.ShapeBaseIsEvidence | src/multilspy/language_servers/clangd_language_server/clangd_language_server.py:225-231 | `class Circle : public Shape {` has that form and `Shape` holds no access keyword, so Circle inherits Shape |
| Clangd.ChildClassDeclaration | test/resources/repos/cpp/test_repo/ChildClass.h:4 | the ChildClass declaration is the one-base instance of that form |
| Clangd.NoMentionNoInheritance | src/multilspy/language_servers/clangd_language_server/clangd_language_server.py:225 | a target named on no window line is never inherited |
| Clangd.BaseClassDoesNotInheritChildClass | test/resources/repos/cpp/test_repo/BaseClass.h:4 | `class BaseClass {` does not inherit ChildClass |
| Gopls.SupportsLspTypeHierarchy | src/multilspy/language_servers/gopls/gopls.py:157-164 | gopls falls back to the heuristic |
| Gopls.Count | src/multilspy/language_servers/gopls/gopls.py:210 | `line.count(c)` is at most the line's length, and zero iff c does not occur |
| Gopls.Scan | src/multilspy/language_servers/gopls/gopls.py:203-216 | the brace loop ends inside its range; it stops early only after a `{`; it ends with no brace only when no line holds `{` (where it closes is stated by Gopls.ClosesAtBalance) |
| Gopls.Window | src/multilspy/language_servers/gopls/gopls.py:203 | the struct window starts at the declaration and has at most 50 lines |
| Gopls.IsInheritingFrom | src/multilspy/language_servers/gopls/gopls.py:173-243 | true iff the file exists, a start line from `range` or `location.range` is in bounds, and the struct window embeds the target |
| Gopls.ScanWindow | src/multilspy/language_servers/gopls/gopls.py:199-239 | the brace-counting loop followed by the pattern search returns true iff the window embeds the target |
| Gopls.EmbedsNamesTarget | src/multilspy/language_servers/gopls/gopls.py:224-232 | a line matching any of the four patterns contains the target |
| Gopls.NoMentionNoEmbedding | src/multilspy/language_servers/gopls/gopls.py:235-239 | a target named on no line is not embedded |
| Gopls.QualifiedPointerIsQualified | src/multilspy/language_servers/gopls/gopls.py:230-232 | every `*pkg.T` match is also a `pkg.T` match |
| Gopls.WordTargetDirect | src/multilspy/language_servers/gopls/gopls.py:226-232 | for a target starting with a word character, any of the four patterns implies the direct pattern |
| Gopls.FieldLineEmbeds | test/resources/repos/go/test_repo/child.go:7 | a field line `T` followed by spaces and an optional `//` comment embeds T, as in ChildStruct |
| Gopls.NoBraceNoEmbedding | src/multilspy/language_servers/gopls/gopls.py:218-219 | without `{` in the window the answer is false |
| Gopls.BalancedFirstLine | src/multilspy/language_servers/gopls/gopls.py:208-216 | a first line whose braces balance is the whole window |
| Gopls.ClosesAtBalance | src/multilspy/language_servers/gopls/gopls.py:203-219 | the window has a `{` iff one of its at most 50 lines holds one; counting from the first brace line, it ends after the first line whose running count of `{` minus `}` is zero or below, and runs to its limit when there is none; nested braces included |
| Gopls.CheckCapabilities | src/multilspy/language_servers/gopls/gopls.py:144-146 | passes iff the capabilities hold textDocumentSync, completionProvider and definitionProvider |
| Gopls.AnyValuesPass | src/multilspy/language_servers/gopls/gopls.py:144-146 | only the presence of the keys matters, not their values |
| Gopls.DefinitionRequired | src/multilspy/language_servers/gopls/gopls.py:146 | a response without definitionProvider fails |
| Gopls.Initialized | src/multilspy/language_servers/gopls/gopls.py:148-152 | after `initialized`, completions and readiness are set |
| RustAnalyzer.SupportsLspTypeHierarchy | src/multilspy/language_servers/rust_analyzer/rust_analyzer.py:188-194 | rust-analyzer falls back to the heuristic |
| RustAnalyzer.DeriveStart | src/multilspy/language_servers/rust_analyzer/rust_analyzer.py:234 | the derive scan starts at `max(0, s - 10)`: never negative, never below s - 10, and one of the two |
| RustAnalyzer.Grow | src/multilspy/language_servers/rust_analyzer/rust_analyzer.py:239-245 | the derive text only grows from the stripped start line; a line already holding `)]` is read alone |
| RustAnalyzer.DeriveScan | src/multilspy/language_servers/rust_analyzer/rust_analyzer.py:234-248 | the loop with its inner `while` returns true iff some derive attribute from `max(0, s-10)` to s names the target |
| RustAnalyzer.DeriveLineNamesTarget | src/multilspy/language_servers/rust_analyzer/rust_analyzer.py:247-248 | a derive line that itself names the target is evidence, whatever follows it |
| RustAnalyzer.DirectLine | src/multilspy/language_servers/rust_analyzer/rust_analyzer.py:255 | `impl T for S` followed by a non-word character or the end matches the direct impl pattern |
| RustAnalyzer.ClosedDeriveReadAlone | src/multilspy/language_servers/rust_analyzer/rust_analyzer.py:242 | a derive line containing `)]` is not extended |
| RustAnalyzer.ImplNamesTarget | src/multilspy/language_servers/rust_analyzer/rust_analyzer.py:253-262 | every impl match contains the target, case-insensitively |
| RustAnalyzer.LowerImplLine | src/multilspy/language_servers/rust_analyzer/rust_analyzer.py:266 | case-insensitive matching lower-cases an impl line part by part |
| RustAnalyzer.ImplLineIsEvidence | test/resources/repos/rust/test_repo/src/child.rs:24 | a text holding `impl T for S` followed by a non-word character is evidence, as for ChildStruct and Processable |
| RustAnalyzer.RustFiles | src/multilspy/language_servers/rust_analyzer/rust_analyzer.py:275-280 | the collected files are exactly the walked `.rs` files under no `target`, `node_modules` or `.git` directory |
| RustAnalyzer.RustFilesConcat | src/multilspy/language_servers/rust_analyzer/rust_analyzer.py:274-280 | the filter distributes over concatenation, so the collected files keep walk order, which decides the fifty read |
| RustAnalyzer.CollectRustFiles | src/multilspy/language_servers/rust_analyzer/rust_analyzer.py:274-280 | the walk loop appends, file by file, exactly those files in walk order |
| RustAnalyzer.Scanned | src/multilspy/language_servers/rust_analyzer/rust_analyzer.py:283 | `rust_files[:50]` reads at most fifty files, and all of them when there are fewer |
| RustAnalyzer.ScanWorkspace | src/multilspy/language_servers/rust_analyzer/rust_analyzer.py:283-298 | true iff one of the first fifty files holds impl evidence and is read before any read fails outright; undecodable and unpermitted files are skipped |
| RustAnalyzer.ScanStopped | src/multilspy/language_servers/rust_analyzer/rust_analyzer.py:296-298 | a failed read, or the end of the fifty files, with no evidence before it means no workspace evidence |
| RustAnalyzer.OnlyFirstFiftyRead | src/multilspy/language_servers/rust_analyzer/rust_analyzer.py:283 | files after the fiftieth never change the answer |
| RustAnalyzer.TargetPruned | src/multilspy/language_servers/rust_analyzer/rust_analyzer.py:277 | a file under `target` is never collected |
| RustAnalyzer.IsInheritingFrom | src/multilspy/language_servers/rust_analyzer/rust_analyzer.py:203-304 | true iff the name is truthy, the file exists, the start line is in bounds, and there is derive evidence, impl evidence in the current file, or workspace evidence (the last two only for a string name) |
| RustAnalyzer.EmptyNameFalse | src/multilspy/language_servers/rust_analyzer/rust_analyzer.py:204-206 | a missing or empty name is falsy, so the answer is false |
| RustAnalyzer.CheckCapabilities | src/multilspy/language_servers/rust_analyzer/rust_analyzer.py:174-180 | passes iff sync is Incremental and the provider equals {resolve True, triggers `: . ' (`, labelDetailsSupport True} |
| RustAnalyzer.CompletionItemRequired | src/multilspy/language_servers/rust_analyzer/rust_analyzer.py:179 | a provider without `completionItem` fails |
| RustAnalyzer.Initialized | src/multilspy/language_servers/rust_analyzer/rust_analyzer.py:181-184 | `initialized` sets completions but not readiness, which waits for the server status |
| Jedi.SupportsLspTypeHierarchy | src/multilspy/language_servers/jedi_language_server/jedi_server.py:125-128 | jedi falls back to the heuristic |
| Jedi.ScanEnd | src/multilspy/language_servers/jedi_language_server/jedi_server.py:159 | the continuation scan ends at `min(s + 3, n)`, so it reads at most two lines |
| Jedi.IsInheritingFrom | src/multilspy/language_servers/jedi_language_server/jedi_server.py:136-171 | true iff the file exists, the start line is in bounds, and the class line holds `(T`, `, T` or `T)`, or a continuation line read before the base list ends names T |
| Jedi.SingleBaseNamed | src/multilspy/language_servers/jedi_language_server/jedi_server.py:155 | `class S(T):` names T |
| Jedi.LaterBaseNamed | src/multilspy/language_servers/jedi_language_server/jedi_server.py:155 | `class S(A, T):` names T |
| Jedi.FirstLineEndsScan | src/multilspy/language_servers/jedi_language_server/jedi_server.py:164-165 | a next line that continues nothing stops the scan |
| Jedi.ScanReadsTwoLines | src/multilspy/language_servers/jedi_language_server/jedi_server.py:159 | a base named only on the third line after the declaration is never seen |
| Jedi.CheckCapabilities | src/multilspy/language_servers/jedi_language_server/jedi_server.py:114-119 | passes iff sync is Incremental and the provider equals {triggers `. ' "`, resolve True} |
| Jedi.ResolveRequired | src/multilspy/language_servers/jedi_language_server/jedi_server.py:118 | a provider with resolveProvider False fails |
| Jedi.ExperimentalStatus | src/multilspy/language_servers/jedi_language_server/jedi_server.py:88-90 | `quiescent == True` sets completions; a missing key raises; nothing else changes |
| Ignored.GoplsIgnores | src/multilspy/language_servers/gopls/gopls.py:29-34 | for every name and base answer: ignored iff the base class ignores it or it is vendor, node_modules, dist or build |
| Ignored.RustIgnores | src/multilspy/language_servers/rust_analyzer/rust_analyzer.py:46-47 | for every name and base answer: ignored iff the base class ignores it or it is `target` |
| Ignored.JediIgnores | src/multilspy/language_servers/jedi_language_server/jedi_server.py:38-40 | for every name and base answer: ignored iff the base class ignores it or it is venv or `__pycache__` |
| Ignored.ScalaIgnores | src/solidlsp/language_servers/scala_language_server.py:68-73 | for every name and base answer: ignored iff the base class ignores it or it is `.bloop`, `.metals` or `target` |
| Ignored.JuliaIgnores | src/solidlsp/language_servers/julia_language_server.py:28-35 | for every name and base answer: ignored iff the base class ignores it or it is `Manifest.toml`, `.julia` or `docs` |
| Metals.ImportIn | src/solidlsp/language_servers/scala_language_server.py:220-223 | returns the first action titled "Import build"; none iff every action is a dict without that title; a non-dict before the match raises AttributeError |
| Metals.ImportAction | src/solidlsp/language_servers/scala_language_server.py:220 | iterating a truthy non-list raises |
| Metals.ChooseAction | src/solidlsp/language_servers/scala_language_server.py:210-228 | non-dict params raise AttributeError; no answer only when there are no actions |
| Metals.NoActionIffEmpty | src/solidlsp/language_servers/scala_language_server.py:226-228 | for dict actions there is no answer iff the list is empty |
| Metals.ImportBuildChosen | src/solidlsp/language_servers/scala_language_server.py:219-223 | a message mentioning "Import build" is answered with the first action so titled |
| Metals.FirstActionChosen | src/solidlsp/language_servers/scala_language_server.py:225-227 | otherwise the first action is the answer |
| Metals.ShowCompileStarts | src/solidlsp/language_servers/scala_language_server.py:249-250 | a shown status mentioning "compile" starts compiling |
| Metals.HideWhileCompilingSignals | src/solidlsp/language_servers/scala_language_server.py:251-253 | a hide while compiling stops compiling and raises the retry signal |
| Metals.IdleUnchanged | src/solidlsp/language_servers/scala_language_server.py:249-253 | when idle, a status that starts no compilation changes nothing, hidden or not |
| Metals.RetryOnlyAfterCompile | src/solidlsp/language_servers/scala_language_server.py:249-253 | the retry signal is never lowered, and is raised only by a hide that ends a compilation |
| Metals.LogAsksForReferences | src/solidlsp/language_servers/scala_language_server.py:205-206 | the intended log-message test: it raises iff the message is a truthy non-dict or carries a non-string text; it is true iff the text, lower-cased, mentions "find references" or "references again" |
| Metals.MetalsClient.constructor | src/solidlsp/language_servers/scala_language_server.py:62-66 | a new client has no event set and is not compiling |
| Metals.MetalsClient.RegisterCapability | src/solidlsp/language_servers/scala_language_server.py:184-195 | passes iff every registration is read; executeCommand sets the searcher event, completion sets completions, documentSymbol or definition sets readiness; events are never cleared |
| Metals.MetalsClient.Announce | src/solidlsp/language_servers/scala_language_server.py:186-194 | the registration loop sets each event iff its method occurs before the first lookup that raises |
| Metals.MetalsClient.CheckExperimentalStatus | src/solidlsp/language_servers/scala_language_server.py:230-236 | `quiescent == True` sets readiness and completions; non-dict params raise |
| Metals.MetalsClient.CheckMetalsStatus | src/solidlsp/language_servers/scala_language_server.py:238-253 | "Indexing finished" sets readiness; a shown non-string text raises TypeError and leaves the tracker alone; otherwise the tracker takes one step |
| Metals.MetalsClient.WindowLogMessageAsWritten | src/solidlsp/language_servers/scala_language_server.py:203-207 | every log message raises NameError and changes nothing |
| Metals.MetalsClient.WindowLogMessage | src/solidlsp/language_servers/scala_language_server.py:203-207 | the handler reading its own argument: it raises the retry signal iff the message asks for references again |
| Metals.MetalsClient.Initialized | src/solidlsp/language_servers/scala_language_server.py:275-278 | after `initialized`, readiness and completions are set |
| Metals.MetalsClient.BeginReferences | src/solidlsp/language_servers/scala_language_server.py:291 | the retry signal is cleared before the first request |
| Metals.CompileMatchesIgnoringCase | src/solidlsp/language_servers/scala_language_server.py:249 | "Compile" matches, since the search ignores case |
| Metals.CompilingDoesNotMatch | src/solidlsp/language_servers/scala_language_server.py:249 | "Compiling" does not contain "compile", so it starts no compilation |
| Metals.RetryRequestLogged | src/solidlsp/language_servers/scala_language_server.py:205-207 | "Please run Find References again" asks for references under the intended test |
| Metals.EmptyLogAsksNothing | src/solidlsp/language_servers/scala_language_server.py:205 | a falsy message, or one without a text, asks for nothing |
| Metals.FirstIndex | src/solidlsp/language_servers/scala_language_server.py:309-314 | the first occurrence of an element: it is there and not earlier |
| Metals.DedupElements | src/solidlsp/language_servers/scala_language_server.py:306-315 | the merge holds exactly the elements of both answers |
| Metals.DedupMember | src/solidlsp/language_servers/scala_language_server.py:312-314 | every element of the merge comes from the answers |
| Metals.DedupDistinct | src/solidlsp/language_servers/scala_language_server.py:312-314 | the merge has no duplicates |
| Metals.DedupLength | src/solidlsp/language_servers/scala_language_server.py:306-315 | the merge is no longer than the two answers together |
| Metals.DedupFirstSeenOrder | src/solidlsp/language_servers/scala_language_server.py:309-314 | the merge lists elements in the order of their first occurrence |
| Metals.DedupDistinctUnchanged | src/solidlsp/language_servers/scala_language_server.py:309-315 | an answer without duplicates is its own merge |
| Metals.DedupIdempotent | src/solidlsp/language_servers/scala_language_server.py:309-315 | merging twice is merging once |
| Metals.MergeReferences | src/solidlsp/language_servers/scala_language_server.py:291-317 | without the signal the first answer is returned unchanged; with it, the merge of both answers keeps each location at its first occurrence |
| Metals.AsWrittenKey | src/solidlsp/language_servers/scala_language_server.py:311 | the key as written fails only with AttributeError (no `.items`) or TypeError (unhashable) |
| Metals.MergeAsWritten | src/solidlsp/language_servers/scala_language_server.py:306-315 | as written, the signalled merge raises iff some reference's key cannot be formed or hashed |
| Metals.LocationKeyUnhashable | src/solidlsp/language_servers/scala_language_server.py:311 | the key of any Location raises TypeError, because its range is a dict |
| Metals.RepeatedLocationKeptOnce | src/solidlsp/language_servers/scala_language_server.py:312-314 | with whole-location equality, a location answered twice is kept once |
| Metals.InitializeParams | src/solidlsp/language_servers/scala_language_server.py:133-177 | exactly the keys locale, processId, rootPath, rootUri and initializationOptions; rootPath is the argument, rootUri is `as_uri(root)` (a parameter), processId the pid, locale "en" |
| Julia.InitializeParams | src/solidlsp/language_servers/julia_language_server.py:88-137 | the six keys; rootPath is the argument; rootUri equals the one workspace folder's uri; the folder is named by the basename |
| Julia.SymbolKindsOneToTwentySix | src/solidlsp/language_servers/julia_language_server.py:113-123 | both symbol-kind lists are exactly 1 to 26 |
| Julia.CheckCapabilities | src/solidlsp/language_servers/julia_language_server.py:169-170 | passes iff the response has capabilities holding textDocumentSync |
| Julia.OptionalProvidersIgnored | src/solidlsp/language_servers/julia_language_server.py:171-174 | completion and definition providers do not change the outcome |
| Julia.MissingCapabilitiesFail | src/solidlsp/language_servers/julia_language_server.py:169-170 | a response without capabilities fails the assertion |
| Julia.Initialized | src/solidlsp/language_servers/julia_language_server.py:176-180 | after `initialized`, completions and readiness are both set |
| LsConfig.LiteralGlob | src/solidlsp/ls_config.py:24 | a pattern without wildcards matches only itself |
| LsConfig.StarSuffix | src/solidlsp/ls_config.py:24 | `*` plus a literal suffix matches exactly the names ending with that suffix |
| LsConfig.IsRelevantFilename | src/solidlsp/ls_config.py:22-26 | true iff some pattern matches |
| LsConfig.RelevantIsSuffix | src/solidlsp/ls_config.py:22-26 | for `*.ext` patterns, a name is relevant iff it ends with one of the suffixes |
| LsConfig.JuliaStr | src/solidlsp/ls_config.py:83-84 | `str(Language.JULIA)` is "julia" |
| LsConfig.ValueInjective | src/solidlsp/ls_config.py:29-69 | no two languages share a value |
| LsConfig.AllLanguagesListed | src/solidlsp/ls_config.py:29-69 | the declaration-order list holds every language |
| LsConfig.AllLanguagesDistinct | src/solidlsp/ls_config.py:29-69 | the list holds no language twice |
| LsConfig.Yielded | src/solidlsp/ls_config.py:73-75 | a language is yielded iff it is listed and experimental ones are asked for or it is not experimental |
| LsConfig.IterAll | src/solidlsp/ls_config.py:71-75 | the loop yields exactly the filtered declaration order |
| LsConfig.YieldedAll | src/solidlsp/ls_config.py:74 | with experimental languages, nothing is filtered |
| LsConfig.YieldedSnoc | src/solidlsp/ls_config.py:73-75 | one more language in the enumeration is appended to what is yielded exactly when it passes the filter |
| LsConfig.YieldedConcat | src/solidlsp/ls_config.py:73-75 | filtering distributes over concatenation |
| LsConfig.YieldedStable | src/solidlsp/ls_config.py:74 | non-experimental languages are all kept |
| LsConfig.YieldedExperimental | src/solidlsp/ls_config.py:74 | experimental languages are all dropped without the flag |
| LsConfig.YieldedSplit | src/solidlsp/ls_config.py:57-75 | stable languages followed by experimental ones yield exactly the stable ones without the flag |
| LsConfig.IterAllWithExperimental | src/solidlsp/ls_config.py:71-75 | `iter_all(True)` yields every language in declaration order |
| LsConfig.IterAllStable | src/solidlsp/ls_config.py:57-75 | `iter_all(False)` yields the 23 stable languages, in order |
| LsConfig.IterAllExcludesExperimental | src/solidlsp/ls_config.py:77-81 | `iter_all(False)` yields a language iff it is not one of the four experimental ones |
| LsConfig.BuildTypeScriptPatterns | src/solidlsp/ls_config.py:94-98 | the three nested loops produce the twelve TypeScript patterns |
| LsConfig.TypeScriptPatternsEnumerate | src/solidlsp/ls_config.py:95-98 | there are 12 patterns, and pattern k is `*.{prefix}{base}{postfix}` of loop iteration k |
| LsConfig.SourcePatternsStar | src/solidlsp/ls_config.py:86-141 | every language's patterns are `*` followed by a wildcard-free suffix |
| LsConfig.SourceFnMatcher | src/solidlsp/ls_config.py:86-143 | every language has a non-empty pattern list, each pattern `*` plus a suffix, so a file is relevant iff its name ends with one of the suffixes |
| LsConfig.SharedMatchers | src/solidlsp/ls_config.py:88-101 | Python and Jedi share `*.py`/`*.pyi`; TypeScript and vtsls share the twelve patterns; both C# servers share `*.cs` |
| LsConfig.OneSuffix | src/solidlsp/ls_config.py:22-26 | a one-pattern `*.ext` matcher accepts exactly the names ending with `.ext` |
| LsConfig.JuliaSources | src/solidlsp/ls_config.py:140-141 | Julia sources are the `.jl` names: script.jl and Main.jl are, script.py and README.md are not |
| LsConfig.SolargraphSources | src/solidlsp/ls_config.py:108-109 | Solargraph sources are the `.rb` names, so `.erb` is not one |
| LsConfig.RubyErb | src/solidlsp/ls_config.py:106-107 | ruby-lsp accepts `.erb` |
| LsConfig.TypeScriptStar | src/solidlsp/ls_config.py:98 | every TypeScript pattern is `*` plus a literal suffix |
| LsConfig.TypeScriptSources | src/solidlsp/ls_config.py:92-99 | App.tsx and index.mjs are TypeScript sources |
| LsConfig.SuffixRelevant | src/solidlsp/ls_config.py:23-25 | a name ending with any one pattern's suffix is relevant |
| LsConfig.PackageJsonNotTypeScript | src/solidlsp/ls_config.py:92-99 | package.json is not a TypeScript source |
| LsConfig.FromDict | src/solidlsp/ls_config.py:285-292 | fails with TypeError iff `code_language` is missing; otherwise keeps the language as given, and each of trace, independent-process and ignored-paths is the given value or, when absent, False, True and the empty list |
| LsConfig.FromDictIgnoresExtraKeys | src/solidlsp/ls_config.py:292 | keys that are not constructor parameters are dropped |
| LsConfig.FromDictDefaults | src/solidlsp/ls_config.py:279-282 | defaults are no tracing, an independent process and no ignored paths |
| LsConfig.FromDictKeepsGiven | src/solidlsp/ls_config.py:282-292 | a given `ignored_paths` wins over the default |

## Left out

- Runtime-dependency setup is left out: downloads, `subprocess.run`, `shutil.which`, `chmod` and Julia package probing. It is process and network I/O.
- The server lifecycle is left out: process start, asyncio context managers, `Event.wait` and the references timeout. Events are booleans, and whether the retry signal arrived is an input of `Metals.MergeReferences`.
- Filesystem access is left out: `open`, `os.path.exists`, `os.walk` and JSON template loading. Files, the walk order, `Path.as_uri` and `os.getpid` are parameters.
- Logging calls are left out, and so are the handlers that only log or do nothing.
- `Language.get_ls_class` and `Language.from_ls_class` are left out: they import server classes dynamically.
- `src/multilspy/watchdog.py` and `src/solidlsp/settings.py` are left out: threads and directory creation around a path join.
- `LsConfig.Str`: carries no contract of its own. It is `Value`, and `LsConfig.JuliaStr` and `LsConfig.ValueInjective` state what it promises.
- Python's `Language(value)` lookup is not modelled; `LsConfig.ValueInjective` shows that it names at most one member.
- Clangd.PublicBaseIsEvidence: stated for base names that contain no access keyword. For a base such as `republic`, the keyword removal cuts into the name, as the source's does; the model's `RemoveAccess` does the same, but no lemma describes that case.
- `LsConfig.SourceFnMatcher`: the `ValueError` of the default case is not modelled. Every member of the enum has a case, so that branch cannot be reached.
- Floating point is not modelled. The wait times, 10 s for Metals and 5.0 s for Julia, are constants.
- Character classes and case: `\w` is the ASCII word class, and case-insensitive matching lower-cases ASCII letters only. Unicode letters are not modelled.
- `fnmatch` is case-sensitive here, as on POSIX. `[...]` character classes are not modelled; no pattern of `ls_config.py` contains one.
- Gopls.IsInheritingFrom: the embedding patterns are matched line by line. A backtick struct tag that spans several lines is not modelled.
- Gopls.IsInheritingFrom follows the code, not the prose around it: a named field such as `base BaseStruct` ends with the type name, so it counts as an embedding.
- RustAnalyzer.IsInheritingFrom: a file that cannot be read is modelled as a missing file.
- RustAnalyzer.ScanWorkspace: an exception in the workspace walk itself is modelled as a read that fails outright. Either way the search stops with False.
- `clangd_language_server.py` uses the `@override` decorator without importing it. The class definition would raise NameError when the module loads. The model describes the class as if the name were bound.
- Metals.ChooseAction: the contract states only the error for non-dict params and when there is no answer. The full choice is stated for dict actions by `Metals.NoActionIffEmpty`, `Metals.ImportBuildChosen` and `Metals.FirstActionChosen`.
- `Metals.MetalsClient.WindowLogMessage` is only the corrected half of a finding. The client as written never raises the retry signal from a log message (`Metals.MetalsClient.WindowLogMessageAsWritten`).
- `Language.SCALA` is used by a Scala test but does not exist in the enum, so it is not modelled.

## Findings

| source | as written | input that shows it | evidently intended | confidence | as-written member | corrected member |
|---|---|---|---|---|---|---|
| src/solidlsp/language_servers/scala_language_server.py:308-315 | the dedup key is `tuple(sorted(ref.items()))`, added to a set | any LSP Location, whose `range` value is a dict, so the key tuple cannot be hashed and the merge raises TypeError | drop later duplicates of a location and keep first-seen order | high; not executed | Metals.MergeAsWritten, Metals.LocationKeyUnhashable | Metals.MergeReferences |
| src/solidlsp/language_servers/scala_language_server.py:203-207 | the log handler reads `params`, a name bound neither in the handler nor in `_start_server` | any `window/logMessage`, e.g. {"type": 3, "message": "Please run Find References again"}: NameError, and the retry signal is never raised | read the handler's own argument `msg` and raise the retry signal when the text asks for references again | high; not executed | Metals.MetalsClient.WindowLogMessageAsWritten | Metals.MetalsClient.WindowLogMessage, Metals.RetryRequestLogged |
