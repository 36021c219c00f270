# Mycellios: verified models of its protocols and algorithms

This project models the parts of Mycellios whose correctness depends on more than one function or
on more than one moment, and proves what they promise for all inputs, all runs or all reachable
states. `dafny verify dfyconfig.toml` checks everything.

The modules, by the part of the system they model:

- **Python import analyzer.** `PythonSyntax` is the syntax the analyzer looks at and its tree walk;
  `AliasAnalysis` is the lattice of alias tables; `ImportAnalyzer` is the analyzer's class, proved to
  compute the least solution and to report exactly what that solution says. `PythonValues` gives the
  analyzed files a run-time meaning; `PythonUnpacking` and `PythonWrites` tell from the syntax of an
  assignment how far it runs and which APIs it can write where, both exactly. `ImportFlows` proves when
  closed tables cover a set of assignments; `ImportRuns` and `ImportPrecision` prove the tables sound for
  all histories and exact for runs of whole statements; `ImportEscapes` holds the files on which they
  are not. `ImportCoverage` carries all that to the list of modules the analyzer prints.
- **Sessions.** `SessionProtocol` is the browser storage shared by any number of tabs and the refresh
  protocol of the account service; `PanelIdentity` is the control panel's session, identity and
  account with the sequence number that drops late replies; `TabAgreement` puts the two together, with
  the storage events that keep the tabs' panels in step.
- **Benchmark client.** `EventStream` is the reader of a chunked event stream, and `EventStandard` the
  standard it is measured against; `LoadStatistics` is percentiles and load over a window;
  `BenchmarkVerdict` is the comparison of two runs and the choice of a baseline.
- **Shader launcher.** `ShaderText` recognises declarations and array bodies; `ShaderEmbed` is the
  rewriting of a source into one that pulls its arrays in from files.
- **Globe.** `GlobeCodec` is the decoder of the country borders, in 32-bit arithmetic, with the encoder
  that the format description implies.
- **Activation sketches.** `ActivationSketch` is the selection of coordinates and the verdict on two
  sketches, over exact reals.
- **Network page.** `DailyJobs` buckets a cumulative counter by day; `Downsampling` is the two ways a
  history is thinned.
- **Shared.** `StableSort` is sorting as the libraries do it; `RealArithmetic` names products and quotients.
- **Billing and chat.** `CheckoutRetries` is checkout under idempotency keys; `ChatRequests` is the life
  of a chat request.

Protocols are step systems: a `Next` function over an event type, a run predicate, an invariant that
every step keeps, and theorems over all runs from the start. Beside each stands a class whose methods
are the handlers of the code and are proved to take exactly those steps. Network, storage events,
clocks and random values enter as events and parameters: a reply may come late, in any order or never.

## What turned out not to hold

Some properties one would expect fail on the code as it is. For each there are lemmas that show failing
inputs and a lemma with the exact condition under which the property does hold.

- The alias tables miss a module that is assigned through `:=` or a conditional expression or unpacked
  from a tuple variable, and a function brought in by `from importlib import *`
  (`ImportEscapes.WalrusValueEscapes`, `ImportEscapes.ChoiceEscapes`,
  `ImportEscapes.TupleVariableEscapes`, `ImportEscapes.StarImportEscapes`). Closed tables cover a set of
  assignments if and only if everything the assignments can write is carried by pairings the analyzer
  sees (`ImportFlows.AllCarriedExactly`); likewise for callees (`ImportRuns.SeenExactly`) and for one
  imported name (`ImportRuns.StarSeenExactly`).
- They list an alias no run of whole statements reaches when one assignment stores to a name twice, or
  when an unpacking before it fails (`ImportEscapes.RepeatedTargetOverreports`,
  `ImportEscapes.RefusalWritesNothing`). A write stands in every environment if and only if no
  unpacking before it can fail and no later write that can happen hits its name
  (`PythonUnpacking.ArrivesExactly`); when every pair is delivered so, the tables are exact
  (`ImportPrecision.AliasesAreExact`).
- The module list leaves out packages around an imported module and submodules taken from a deeper
  package, and holds names of the package that are no modules (`ImportCoverage.SurroundingIsNotRecorded`,
  `ImportCoverage.SubmoduleIsNotRecorded`, `ImportCoverage.LoadedIsRecordedIff`,
  `ImportCoverage.RecordedIsLoadedIff`). Of what a call loads it holds the target only
  (`ImportCoverage.CallSurroundingIsNotRecorded`, `ImportCoverage.MainIsNotRecorded`,
  `ImportCoverage.FromlistIsNotRecorded`, `ImportCoverage.CallLoadedIsRecordedIff`), and not even that of
  an `__import__` with a level (`ImportCoverage.TargetIsCertainIff`).
- The reply to a refresh that was sent with the empty refresh token, which the code accepts, is stored
  whatever the storage holds: it brings a session back after a sign-out or replaces another user's
  (`SessionProtocol.BlankReplyStores`). Sign-ins and sign-outs alone decide who is stored, and a
  sign-out lasts, exactly when no such reply comes at the wrong time (`SessionProtocol.SignInsDecideIff`,
  `SessionProtocol.ClearedStaysClearedIff`); none comes where the empty token is never issued
  (`SessionProtocol.IssuedTokensGuard`).
- A step-up that returns after a sign-out stores the session again, because unlike a refresh it writes
  without looking (`SessionProtocol.LateStepUpStoresAgain`, `SessionProtocol.StepUpKeepsAccountIff`), and its late result can put one user's
  session beside another's identity, at once or when an awaited reply comes
  (`PanelIdentity.LateElevationMismatches`, `PanelIdentity.LateReplyMismatches`,
  `PanelIdentity.ElevationIsSafeIff`, `PanelIdentity.SafeThroughoutIff`).
- A restore that comes back from an OAuth redirect returns its session without checking the storage
  again (`SessionProtocol.RedirectRaceReturnsCleared`, `SessionProtocol.RedirectReturnsStoredIff`,
  `SessionProtocol.RedirectSurvivesIff`).
- Tabs can disagree with the storage for good, for example when the panel turn of a sign-in comes after
  another tab's sign-out was delivered (`TabAgreement.LateSignInStaysOnShow`). They agree throughout a
  run exactly when all its turns are in time (`TabAgreement.StepAgreesIff`,
  `TabAgreement.TabsAgreeIff`).
- A panel whose refresh is refused clears the storage without comparing tokens, and so clears the fresh
  session that another tab has just stored (`TabAgreement.RefusalClearsFreshSession`,
  `TabAgreement.RefusalClearsUnrefusedIff`).
- Event streams with CR LF line ends, which the event-stream format allows, always end in the
  missing-evidence error, and an event with no space after `data:` is not seen
  (`EventStream.CrLfStreamsAreNotRead`, `EventStandard.UnspacedDataIsNotRead`); exactly which streams are
  read as the standard says is `EventStandard.ReadsStandardIff`.
- A shader source that defines one symbol twice keeps only the last bytes
  (`ShaderEmbed.RepeatedSymbolInSource`, `ShaderEmbed.RepeatedSymbolLosesBytes`,
  `ShaderEmbed.SymbolsKeepTheirBytesIff`).
- Daily buckets lose growth whose day, as its timestamp spells it, lies outside the days of the first
  and last sample (`DailyJobs.MixedOffsetsLoseGrowth`, `DailyJobs.BucketsConserveIff`); with UTC
  timestamps nothing is lost.
- Of two benchmark runs each can be "faster" than the other when a run reports a P5 above its P95
  (`BenchmarkVerdict.SwapMirrorsIff`).

## Model

| member | source | states |
|---|---|---|
| `PythonSyntax.Walk` | scripts/native-python-import-analyzer.py:39-39 | the breadth-first walk ends on every tree and visits exactly the nodes that structural recursion finds |
| `PythonSyntax.QueueShrinks` | scripts/native-python-import-analyzer.py:50-50 | taking a node off the queue and appending its children lowers a weight, so the walk ends |
| `AliasAnalysis.ResolveIsMonotone` | scripts/native-python-import-analyzer.py:123-137 | larger tables never resolve an expression to fewer modules or functions |
| `AliasAnalysis.BindGrows` | scripts/native-python-import-analyzer.py:86-108 | retrying an assignment never removes an alias and never stores an empty set |
| `AliasAnalysis.BindStaysBelow` | scripts/native-python-import-analyzer.py:86-108 | an assignment adds nothing beyond any closed tables that already lie above |
| `AliasAnalysis.BindFixedIffClosed` | scripts/native-python-import-analyzer.py:80-108 | an assignment changes nothing if and only if the tables already contain everything it implies, which is what makes "nothing changed" the right test for stopping |
| `AliasAnalysis.LeastIsUnique` | scripts/native-python-import-analyzer.py:80-84 | there is only one least closed pair of tables above given seeds |
| `ImportAnalyzer.AddAlias` | scripts/native-python-import-analyzer.py:110-121 | the reported change flag is true exactly when the table really changed, although the code only compares set sizes |
| `ImportAnalyzer.MeasureShrinks` | scripts/native-python-import-analyzer.py:80-84 | a pass that changes something leaves strictly fewer aliases to add, so the loop ends on every tree |
| `ImportAnalyzer.SolutionIsUnique` | scripts/native-python-import-analyzer.py:48-84 | the tables are fixed by the set of nodes: neither walk order nor assignment order matters |
| `ImportAnalyzer.ReportIsDetermined` | scripts/native-python-import-analyzer.py:38-46 | two analyses of one file both fail, or both succeed with the same modules |
| `ImportAnalyzer.ImportAnalyzer.constructor` | scripts/native-python-import-analyzer.py:27-36 | a new analyzer holds the least solution of its tree and has recorded nothing |
| `ImportAnalyzer.ImportAnalyzer.CollectApiAliases` | scripts/native-python-import-analyzer.py:48-84 | the collected tables are the least ones above the seeds that are closed under every assignment of the tree |
| `ImportAnalyzer.ImportAnalyzer.CollectNode` | scripts/native-python-import-analyzer.py:51-72 | one import statement extends the seeds by exactly the API names it binds |
| `ImportAnalyzer.ImportAnalyzer.CloseUnder` | scripts/native-python-import-analyzer.py:80-84 | the loop ends, in the least closed tables above where it began |
| `ImportAnalyzer.ImportAnalyzer.Pass` | scripts/native-python-import-analyzer.py:82-84 | one pass only grows the tables, adds nothing unneeded, and reports no change only if the tables are closed |
| `ImportAnalyzer.ImportAnalyzer.BindAssignment` | scripts/native-python-import-analyzer.py:86-108 | the in-place update of both tables is the step of the analysis, and the flag says whether anything changed |
| `ImportAnalyzer.ImportAnalyzer.Analyze` | scripts/native-python-import-analyzer.py:38-46 | succeeds with exactly the modules that the nodes of the tree mention, or fails with the error of one of them, and fails whenever one of them is an error |
| `ImportAnalyzer.ImportAnalyzer.VisitImport` | scripts/native-python-import-analyzer.py:139-141 | records each imported package module, or stops at an invalid one |
| `ImportAnalyzer.ImportAnalyzer.VisitImportFrom` | scripts/native-python-import-analyzer.py:143-171 | records what a `from` import names, relative or absolute; refuses imports that leave the package |
| `ImportAnalyzer.ImportAnalyzer.VisitCall` | scripts/native-python-import-analyzer.py:173-202 | records the target of a call for every API its callee may stand for |
| `ImportAnalyzer.ImportAnalyzer.VisitApiCall` | scripts/native-python-import-analyzer.py:175-202 | one API: a static absolute name, or a one-dot name inside the package for `import_module`, is recorded; a dynamic name is refused |
| `ImportAnalyzer.ImportAnalyzer.RecordAbsoluteModule` | scripts/native-python-import-analyzer.py:240-251 | names outside the package are ignored, the package stands for its `__init__`, other names need identifiers throughout |
| `PythonValues.WritesFollow` | scripts/native-python-import-analyzer.py:86-108 | storing a value writes the names of the target in order and, if it fails, the ones before the failure |
| `PythonValues.AlignedYields` | scripts/native-python-import-analyzer.py:99-107 | unpacking a literal, starred target included, gives each target a value of its own element |
| `PythonUnpacking.Bounds` | scripts/native-python-import-analyzer.py:99-108 | told from the syntax alone: whether an unpacking must or can run to its end, and the least and greatest number of names it writes; what is no literal may always refuse |
| `PythonUnpacking.SureMet` | scripts/native-python-import-analyzer.py:99-108 | some environment lets the assignment write no more than the least number, failing there if it can fail |
| `PythonUnpacking.MostMet` | scripts/native-python-import-analyzer.py:99-108 | and some value lets it write the greatest number |
| `PythonUnpacking.ArrivesExactly` | scripts/native-python-import-analyzer.py:99-108 | a write is made and stands in every environment, whatever is chosen, if and only if no unpacking before it can fail and no later write that can happen hits its name |
| `PythonWrites.WriteHasSource` | scripts/native-python-import-analyzer.py:86-137 | every API an assignment writes comes from one of the sources its syntax shows: a name, a function of a module that a name has, or an unknown tuple |
| `PythonWrites.SourceIsWritten` | scripts/native-python-import-analyzer.py:86-137 | and every such source is written by some evaluation, as long as only the APIs that names can hold are restricted |
| `ImportFlows.WritesAreDescribed` | scripts/native-python-import-analyzer.py:80-137 | closed tables describe all that carried assignments write, each name being read at any moment |
| `ImportFlows.AllCarriedExactly` | scripts/native-python-import-analyzer.py:80-137 | all closed tables cover a set of assignments if and only if every possible write is carried to its name by a chain of pairings the analyzer sees |
| `ImportFlows.TablesAreEnvironments` | scripts/native-python-import-analyzer.py:123-137 | reading from the tables is reading, each time, from some environment within them |
| `ImportRuns.StarSeenExactly` | scripts/native-python-import-analyzer.py:51-72 | tables that hold what an import statement seeds describe what one of its names binds, if and only if a star brings in nothing that is not also imported by name |
| `ImportRuns.SeenExactly` | scripts/native-python-import-analyzer.py:128-137 | the resolver finds every API a callee can be, under all tables, if and only if the callee is a name, an attribute of a name, or can be no API at all |
| `ImportRuns.HistoriesAreDescribed` | scripts/native-python-import-analyzer.py:48-137 | soundness: in every history of a tracked file, with writes of all statements in any order and reads at any moment, each API ever written to a name is in its alias set |
| `ImportRuns.StoreStaysWithin` | scripts/native-python-import-analyzer.py:86-108 | one carried assignment, with a value computed in any environment and stored in any other, keeps closed tables covering |
| `ImportRuns.RunIsHistory` | scripts/native-python-import-analyzer.py:48-137 | a run of whole statements is such a history |
| `ImportRuns.RunsStayWithin` | scripts/native-python-import-analyzer.py:48-137 | so after any run of a tracked file each API a name holds is in its alias set |
| `ImportPrecision.PairIsWritten` | scripts/native-python-import-analyzer.py:86-108 | the write of a paired name has a value of the expression the analyzer pairs it with |
| `ImportPrecision.AliasesAreReached` | scripts/native-python-import-analyzer.py:48-137 | precision: if every pair that can bring an API is delivered, each computed alias is a value that some run gives the name |
| `ImportPrecision.AliasesAreExact` | scripts/native-python-import-analyzer.py:48-137 | on tracked files whose pairs are delivered, a name has an alias if and only if a run gives it that API, if and only if any history does |
| `ImportEscapes.WalrusValueEscapes` | scripts/native-python-import-analyzer.py:123-126 | a module assigned through `:=` reaches the outer name although the tables say it has none |
| `ImportEscapes.ChoiceEscapes` | scripts/native-python-import-analyzer.py:123-126 | so does a module assigned through a conditional expression, `and` or `or` |
| `ImportEscapes.TupleVariableEscapes` | scripts/native-python-import-analyzer.py:99-108 | a module unpacked from a tuple variable reaches its target although the tables say it has none |
| `ImportEscapes.StarImportEscapes` | scripts/native-python-import-analyzer.py:60-72 | a star import from an API module binds its function although the tables do not say so |
| `ImportEscapes.RepeatedTargetOverreports` | scripts/native-python-import-analyzer.py:99-107 | storing twice to one name in one assignment leaves an alias that no run of whole statements ever reaches |
| `ImportEscapes.RefusalWritesNothing` | scripts/native-python-import-analyzer.py:99-107 | a constant, a call result or another unknown value may refuse to be unpacked, so nothing behind it in the assignment is delivered |
| `ImportEscapes.OneMomentMasks` | scripts/native-python-import-analyzer.py:99-107 | an assignment that gives its target no API in any one environment, because unpacking the same name fails first |
| `ImportEscapes.TwoMomentsEscape` | scripts/native-python-import-analyzer.py:99-107 | it does give it one when the name changes between the two reads, which is why the tables are compared with reads from different moments |
| `ImportCoverage.StaticIsCertain` | scripts/native-python-import-analyzer.py:227-238 | an expression with a static string value never evaluates to another string |
| `ImportCoverage.AcceptedCall` | scripts/native-python-import-analyzer.py:173-202 | if the analyzer accepts a call that can import a module, that module is what it records |
| `ImportCoverage.TargetIsCertainIff` | scripts/native-python-import-analyzer.py:173-202 | the target of an accepted call is always the recorded one, if and only if the call is no `__import__` that may be given a level |
| `ImportCoverage.CallLoadedIsRecordedIff` | scripts/native-python-import-analyzer.py:173-202 | of the package modules Python loads for an accepted call, packages around the target, the `__main__` of a run package and `fromlist` modules included, the analyzer records exactly the target |
| `ImportCoverage.CallSurroundingIsNotRecorded` | scripts/native-python-import-analyzer.py:173-202 | the packages around the target of an accepted call are loaded and not recorded |
| `ImportCoverage.MainIsNotRecorded` | scripts/native-python-import-analyzer.py:173-202 | the `__main__` of a package that is run is loaded and not recorded |
| `ImportCoverage.FromlistIsNotRecorded` | scripts/native-python-import-analyzer.py:173-202 | a module named in a `fromlist` is loaded and not recorded |
| `ImportCoverage.ReachedCallsAreNear` | scripts/native-python-import-analyzer.py:173-251 | completeness: when in some history of a tracked file a callee is an import API, then for every package module the call loads, every successful result holds it, a module inside it, or the package directly around it, and the target itself it holds |
| `ImportCoverage.LoadedIsRecordedIff` | scripts/native-python-import-analyzer.py:139-171 | of the package modules Python loads for an import statement, packages around the named module and submodules included, the analyzer records exactly those the statement names |
| `ImportCoverage.RecordedIsLoadedIff` | scripts/native-python-import-analyzer.py:139-171 | and what it records is loaded, except for names of the package that are no modules |
| `ImportCoverage.SurroundingIsNotRecorded` | scripts/native-python-import-analyzer.py:139-141 | importing a module loads the packages around it and records none of them |
| `ImportCoverage.SubmoduleIsNotRecorded` | scripts/native-python-import-analyzer.py:143-171 | taking a submodule from a deeper package loads it and does not record it |
| `ImportCoverage.LoadedModulesAreNear` | scripts/native-python-import-analyzer.py:139-171 | completeness: for every package module Python loads for a statement, the list holds it, a module inside it, or the package directly around it |
| `ImportCoverage.ListedModulesAreCaused` | scripts/native-python-import-analyzer.py:38-46 | precision: each listed module lies in the package and is loaded by a statement, taken as a name from the package, or importable by a call that a run reaches |
| `SessionProtocol.NextKeepsSingleFlight` | landing/src/auth.ts:152-160 | every step of every tab keeps its register equal to its outstanding refreshes |
| `SessionProtocol.NextKeepsAttribution` | landing/src/auth.ts:142-161 | every step keeps each session, stored, awaited or returned, with the owner of its refresh token |
| `SessionProtocol.RunsKeepInv` | landing/src/auth.ts:113-161 | both hold after every run of any number of tabs |
| `SessionProtocol.OneRefreshPerToken` | landing/src/auth.ts:152-160 | in every reachable state, whatever the server answers, a tab has at most one outstanding refresh per refresh token |
| `SessionProtocol.StoredUserIsAccount` | landing/src/auth.ts:503-517 | over every interleaving, a stored session is that of the user the log names: the last sign-in, or reply to a refresh of the empty token, since the last sign-out; no other late refresh or restore changes the user, given that a refresh token belongs to one user and the server keeps the user |
| `SessionProtocol.SignInsDecideIff` | landing/src/auth.ts:503-517 | throughout a run sign-ins and sign-outs alone decide who is stored, if and only if replies to refreshes of the empty token come only while its owner is signed in |
| `SessionProtocol.ClearedStaysClearedIff` | landing/src/auth.ts:514-516 | after a sign-out the storage stays empty until somebody signs in, if and only if no reply to a refresh of the empty token comes |
| `SessionProtocol.IssuedTokensGuard` | landing/src/auth.ts:493-517 | where the empty string is never issued as a refresh token, no such reply comes |
| `SessionProtocol.BlankReplyStores` | landing/src/auth.ts:514-516 | the reply to a refresh of the empty token is stored after a sign-out, and over another sign-in |
| `SessionProtocol.StepKeepsUserIff` | landing/src/auth.ts:142-161 | a step that is no sign-in leaves the stored user in place or the storage empty, if and only if it is no reply to a refresh of the empty token for somebody who is not stored |
| `SessionProtocol.RestoreHoldsToken` | landing/src/auth.ts:116-136 | a session that a restore returns carries the refresh token the storage holds at that moment, in every state and whatever the server answered |
| `SessionProtocol.RestoreReturnsStored` | landing/src/auth.ts:116-136 | in every run such a session is also that of the user the log names |
| `SessionProtocol.StorageHoldsLastLeft` | landing/src/auth.ts:113-175 | after every run the storage holds the token that the last writer left: sign-ins, step-ups, redirects, sign-outs, the reply to a refresh of that very token or of the empty one, or a restore that learns it is refused |
| `SessionProtocol.RedirectReturnsStoredIff` | landing/src/auth.ts:114-115 | a restore that comes back from a redirect returns the session it stored on arrival; the storage still holds its token if and only if the last writer in between, in whatever tab, left it there |
| `SessionProtocol.RedirectSurvivesIff` | landing/src/auth.ts:114-115 | when refresh tokens are issued once, that is so if and only if nobody touched the storage in between |
| `SessionProtocol.RedirectRaceReturnsCleared` | landing/src/auth.ts:449-456 | a sign-out elsewhere during that restore: a session is returned although none is stored |
| `SessionProtocol.StepUpKeepsAccountIff` | landing/src/auth.ts:361-368 | after every run a step-up leaves the stored user in place if and only if a session is stored and the log names the step-up's user |
| `SessionProtocol.LateStepUpStoresAgain` | landing/src/auth.ts:361-368 | a sign-out before the step-up returns: the user is stored again |
| `SessionProtocol.Browser.RefreshAuthSession` | landing/src/auth.ts:142-161 | the code takes the step of the protocol: an unexpired session at once, else the pending request of the token, else a new one |
| `SessionProtocol.Browser.ValidAuthSession` | landing/src/auth.ts:163-175 | has the effect of a refresh of the given session, nothing else |
| `SessionProtocol.BegunIsForUser` | landing/src/auth.ts:142-175 | what a refresh gives its caller, at once or with the reply it waits for, is a session of the caller's user |
| `SessionProtocol.Browser.ReceiveReply` | landing/src/auth.ts:459-518 | the write at the end of a refresh happens only if the token that was exchanged is still stored, or is empty |
| `SessionProtocol.Browser.FinishRequest` | landing/src/auth.ts:155-157 | a finished request leaves the register only if it is still the one registered |
| `SessionProtocol.Browser.FinishStepUp` | landing/src/auth.ts:361-368 | the elevated session is stored whatever the storage holds |
| `SessionProtocol.Browser.ClearAuthSession` | landing/src/auth.ts:296-297 | sign-out empties the storage and touches no request |
| `SessionProtocol.Browser.RestoreAuthSession` | landing/src/auth.ts:117-121 | up to its first wait, a restore returns nothing, the stored session, or waits for its refresh |
| `SessionProtocol.Browser.ResumeRestoreSession` | landing/src/auth.ts:121-135 | after its refresh, a restore decides by what is stored then |
| `PanelIdentity.NextKeepsInv` | landing/src/Panel.tsx:426-484 | every handler keeps this: a reply that would pass its number check was asked for with a token of the shown session's user |
| `PanelIdentity.RunsKeepInv` | landing/src/Panel.tsx:426-597 | that holds after every interleaving of session changes and late replies |
| `PanelIdentity.ShownProfileIsCurrentUsers` | landing/src/Panel.tsx:426-597 | an identity or account on show always belongs to the user of the session on show, as long as step-ups return while everything shown and awaited is their user's |
| `PanelIdentity.ElevationIsSafeIff` | landing/src/Panel.tsx:985-985 | that condition is exact: after a step-up result is installed, every continuation keeps the match if and only if everything on show and awaited under the current number was its user's |
| `PanelIdentity.SafeThroughoutIff` | landing/src/Panel.tsx:426-597 | with an honest server everything shown and awaited is the signed-in user's throughout a run, if and only if step-ups return while the panel is their user's |
| `PanelIdentity.LateElevationMismatches` | landing/src/Panel.tsx:985-985 | a late step-up puts the first user's session beside the second user's identity |
| `PanelIdentity.LateReplyMismatches` | landing/src/Panel.tsx:985-985 | with nothing on show the mismatch comes later, with the reply the second user was waiting for |
| `PanelIdentity.ControlPanel.OnStorage` | landing/src/Panel.tsx:426-443 | a storage change drops what was loaded, takes a new number and asks again under it |
| `PanelIdentity.ControlPanel.GetValidSession` | landing/src/Panel.tsx:445-448 | a caller starts from the session and the number of that moment |
| `PanelIdentity.ControlPanel.OnValidSession` | landing/src/Panel.tsx:449-467 | the caller gets a session only if neither session nor number moved while it waited, and then it is the one on show |
| `PanelIdentity.ControlPanel.OnInvalidSession` | landing/src/Panel.tsx:468-483 | the stored session is cleared exactly on a definitive failure of a caller still current; a session handed back is shown and unexpired |
| `PanelIdentity.ControlPanel.OnRestored` | landing/src/Panel.tsx:573-585 | the startup restore counts only if no session change came first |
| `PanelIdentity.ControlPanel.OnAuthenticated` | landing/src/Panel.tsx:1021-1033 | signing in takes a new number and shows the identity that came with it |
| `PanelIdentity.ControlPanel.DisconnectAccount` | landing/src/Panel.tsx:861-869 | disconnecting drops session, identity and account and takes a new number |
| `PanelIdentity.ControlPanel.OnLoaded` | landing/src/Panel.tsx:435-442 | a reply is shown only if its number, or for prompt loads its token, is still the current one |
| `TabAgreement.NextKeepsInv` | landing/src/Panel.tsx:445-467 | every turn of every tab keeps each session in the browser, stored, shown, handed over or awaited, with the owner of its token; a caller gets a session of the user it asked for |
| `TabAgreement.StepAgreesIff` | landing/src/auth.ts:177-183 | any turn of any tab, start-up restores, refreshes, sign-outs and delivered storage events included, keeps all tabs in agreement with the storage if and only if it is in time |
| `TabAgreement.TabsAgreeIff` | landing/src/Panel.tsx:426-484 | all tabs agree with the storage throughout a run if and only if all its turns are in time |
| `TabAgreement.SettledTabsShowStoredUser` | landing/src/Panel.tsx:426-484 | in every such run of any number of tabs, a tab that has got all storage events, shown all it was handed and finished its start-up shows exactly the stored user, so any two such tabs agree |
| `TabAgreement.RestoredIsStored` | landing/src/auth.ts:113-136 | a session that a restore returns is the stored user's, so showing it needs no condition |
| `TabAgreement.LateSignInStaysOnShow` | landing/src/Panel.tsx:1021-1033 | a run of two tabs after which one is settled and shows a user although nobody is stored |
| `TabAgreement.RefusalClearsUnrefusedIff` | landing/src/Panel.tsx:468-477 | a refused caller clears a session that nobody refused, if and only if the stored token is not the one it asked for and no other request for it was refused |
| `TabAgreement.RefusalClearsFreshSession` | landing/src/Panel.tsx:468-477 | a run of two tabs that refresh one token: the second, refused before it is told, clears the first one's fresh session |
| `EventStream.EventsOfConcat` | python/distributed_runtime/api_benchmark.py:174-178 | bytes that arrive later never move an event boundary already there: splitting resumes from the unterminated tail |
| `EventStream.ReadConcat` | python/distributed_runtime/api_benchmark.py:179-196 | reading two lists of payloads one after the other is reading them together, the first error included |
| `EventStream.ReadEvent` | python/distributed_runtime/api_benchmark.py:179-196 | the loop over the lines of an event applies its data lines in order up to the first error |
| `EventStream.StreamRequest` | python/distributed_runtime/api_benchmark.py:168-201 | for every way of cutting a stream into chunks, text, finish reason, final evidence and first error are those of splitting the whole stream at blank lines and dropping the tail |
| `EventStream.ErrorIsFinal` | python/distributed_runtime/api_benchmark.py:186-187 | an error met in the first chunks is the error of the whole stream, however it goes on |
| `EventStream.PayloadsAcrossBreak` | python/distributed_runtime/api_benchmark.py:177-179 | a blank line ends a line wherever it stands, also after a carriage return |
| `EventStream.EventsCarryDataLines` | python/distributed_runtime/api_benchmark.py:177-183 | the events carry exactly the data lines of the terminated part of the stream |
| `EventStream.CrLfStreamsAreNotRead` | python/distributed_runtime/api_benchmark.py:177-178 | a stream whose line feeds all follow carriage returns always ends in the missing-evidence error |
| `EventStandard.ReadsStandardIff` | python/distributed_runtime/api_benchmark.py:174-183 | the payloads read are the event data of section 9.2.6 of the WHATWG HTML standard, the closing mark aside, if and only if up to the last pair of line feeds every event has at most one data line, written `data: ` or the closing mark, and after it the standard dispatches nothing else |
| `EventStandard.StandardSplits` | python/distributed_runtime/api_benchmark.py:174-183 | as the standard sees it, a stream is its part up to the last pair of line feeds and, independently, the rest |
| `EventStandard.JoinedDiffers` | python/distributed_runtime/api_benchmark.py:179-183 | an event with two data lines, which the standard joins, always makes a difference |
| `EventStandard.AlikeIsRead` | python/distributed_runtime/api_benchmark.py:168-201 | on the streams read alike, the result is that of reading the standard's events |
| `EventStandard.UnspacedDataIsNotRead` | python/distributed_runtime/api_benchmark.py:180-183 | an event written `data:x` is dispatched by the standard and not seen by the reader |
| `ShaderText.NoLineIsBoth` | scripts/decision-shader-compiler.py:31-37 | no line declares both an array and a length |
| `ShaderText.ScanConcat` | scripts/decision-shader-compiler.py:48-50 | scanning literals line by line finds what scanning the whole initializer finds |
| `ShaderText.HopelessPart` | scripts/decision-shader-compiler.py:48-52 | a body part that is already wrong or too long cannot be completed to an acceptable body |
| `ShaderText.TakeLine` | scripts/decision-shader-compiler.py:42-53 | one line extends the bytes by its literals, or is refused for its trailer, for other text, for a literal above 255, or for the size |
| `ShaderText.ReadBody` | scripts/decision-shader-compiler.py:41-57 | the early aborts accept exactly the bodies that one check of the whole initializer accepts, with the same bytes and the same lines used |
| `ShaderEmbed.NothingIsLost` | scripts/decision-shader-compiler.py:28-40 | cutting the source into kept lines and arrays loses no line and reorders none |
| `ShaderEmbed.OutcomeIsEmitted` | scripts/decision-shader-compiler.py:29-64 | converting while reading gives what first reading everything and then emitting gives, and fails on the same sources |
| `ShaderEmbed.ConvertLines` | scripts/decision-shader-compiler.py:28-64 | the loop over the line iterator succeeds exactly when the recursive conversion does, with the same output |
| `ShaderEmbed.EmbedArray` | scripts/decision-shader-compiler.py:38-64 | one array: refused or embedded exactly as its geometry and body demand, consuming its lines |
| `ShaderEmbed.Convert` | scripts/decision-shader-compiler.py:22-67 | accepts exactly the sources that have a reading whose arrays all fit and that hold one, and writes the output of their items |
| `ShaderEmbed.OutputFollowsItems` | scripts/decision-shader-compiler.py:35-63 | kept lines are unchanged and in order; each array became a reference to its own file under its own symbol |
| `ShaderEmbed.BlobIsLastDefinition` | scripts/decision-shader-compiler.py:59-60 | the file of a symbol holds the bytes of its last definition |
| `ShaderEmbed.SymbolsKeepTheirBytesIff` | scripts/decision-shader-compiler.py:38-63 | every symbol keeps its bytes if and only if none is defined twice with different bytes |
| `ShaderEmbed.RepeatedSymbolLosesBytes` | scripts/decision-shader-compiler.py:59-60 | of two definitions with different bytes the earlier one is lost |
| `ShaderEmbed.RepeatedSymbolInSource` | scripts/decision-shader-compiler.py:22-67 | an accepted source text with two such definitions, and the one file it leaves |
| `GlobeCodec.ZigIsExact` | landing/src/network-globe.ts:66-67 | zig-zag fits a word if and only if the number has 32 bits, and is then undone by the decoder |
| `GlobeCodec.LebRoundTrip` | landing/src/network-globe.ts:57-65 | the shift-and-or loop reads back every value below 2^32, leaving the following bytes alone |
| `GlobeCodec.CodeRoundTrip` | landing/src/network-globe.ts:57-68 | every 32-bit number is read back from its varint |
| `GlobeCodec.LineRoundTrip` | landing/src/network-globe.ts:69-84 | an encoded polyline decodes to itself and the decoder goes on behind it |
| `GlobeCodec.BordersRoundTrip` | landing/src/network-land.ts:4-8 | every list of encodable polylines decodes to itself, whatever follows |
| `GlobeCodec.DecodedLinesAreEncodable` | landing/src/network-globe.ts:69-84 | whatever the bytes, every decoded line has 1 to 100,000 vertices and 32-bit steps |
| `GlobeCodec.EncodeRoundTripIff` | landing/src/network-globe.ts:53-86 | a table decodes to the lines it was encoded from if and only if each has 1 to 100,000 vertices and 32-bit steps |
| `GlobeCodec.ReadVarint` | landing/src/network-globe.ts:57-68 | the loop over the cursor ends on every byte string, truncated ones included, moves forward and reads the number that stands there |
| `GlobeCodec.ReadLine` | landing/src/network-globe.ts:72-82 | the vertex loop reads the line that stands at the cursor |
| `GlobeCodec.DecodeBorders` | landing/src/network-globe.ts:53-86 | the decoder ends on every byte string and gives its meaning |
| `ActivationSketch.DrawnIsExact` | python/distributed_runtime/activation_integrity.py:70-78 | the selection holds exactly the residues drawn, each once, all in range |
| `ActivationSketch.DrawnGrows` | python/distributed_runtime/activation_integrity.py:70-78 | more draws only append to the selection |
| `ActivationSketch.ProjectionIndices` | python/distributed_runtime/activation_integrity.py:57-79 | ends whenever the stream shows enough residues, and returns the first ones; invalid counts are refused |
| `ActivationSketch.SelectionIsFirstDistinct` | python/distributed_runtime/activation_integrity.py:57-79 | each index is at its first appearance with nothing skipped, and a smaller sample is a prefix of a larger one |
| `ActivationSketch.DotIsBounded` | python/distributed_runtime/activation_integrity.py:129-131 | the Cauchy-Schwarz inequality for the sums the verdict computes |
| `ActivationSketch.RatioIsCosine` | python/distributed_runtime/activation_integrity.py:132-134 | in exact arithmetic the clamp never changes the cosine |
| `ActivationSketch.CosineIsBounded` | python/distributed_runtime/activation_integrity.py:128-134 | the cosine lies in [-1, 1] and does not depend on the order of the sketches |
| `ActivationSketch.CosineOfSelf` | python/distributed_runtime/activation_integrity.py:132-134 | a projection has cosine 1 with itself, the zero one included |
| `ActivationSketch.FullCosineIsProportional` | python/distributed_runtime/activation_integrity.py:132-134 | cosine 1 between non-zero projections means that one is the other scaled |
| `ActivationSketch.RelativeNormIsBounded` | python/distributed_runtime/activation_integrity.py:135-136 | the relative norm lies in [0, 1], is symmetric, and is 0 for equal norms |
| `ActivationSketch.VerdictFailsClosed` | python/distributed_runtime/activation_integrity.py:110-142 | a verdict passes only on two well-formed sketches of one seed and shape under valid thresholds that its figures meet |
| `ActivationSketch.VerdictIsSymmetric` | python/distributed_runtime/activation_integrity.py:110-142 | swapping the sketches changes neither the verdict nor its figures |
| `ActivationSketch.SketchPassesAgainstItself` | python/distributed_runtime/activation_integrity.py:110-142 | a well-formed sketch passes against itself under all valid thresholds |
| `LoadStatistics.SortSorts` | python/distributed_runtime/api_benchmark.py:118-118 | the sample is put in order and nothing is added or lost |
| `LoadStatistics.SortKeepsBelow` | python/distributed_runtime/api_benchmark.py:118-118 | sorting keeps a pointwise order between two samples although it pairs values differently |
| `LoadStatistics.PercentileBetween` | python/distributed_runtime/api_benchmark.py:115-125 | an interpolated percentile lies between the least and the greatest value |
| `LoadStatistics.PercentileMonotone` | python/distributed_runtime/api_benchmark.py:115-125 | a higher fraction never gives a lower percentile |
| `LoadStatistics.PercentilePointwise` | python/distributed_runtime/api_benchmark.py:115-125 | raising samples never lowers a percentile |
| `LoadStatistics.MeanInflightSplits` | python/distributed_runtime/api_benchmark.py:458-472 | the load of a window is the length-weighted mean of the loads of any two parts of it |
| `LoadStatistics.HalvesAverage` | python/distributed_runtime/api_benchmark.py:509-511 | the two half-window figures average to the figure of the whole window |
| `LoadStatistics.MeanInflightBounded` | python/distributed_runtime/api_benchmark.py:458-472 | the load is never negative and never above the number of samples, for every window, empty ones included |
| `BenchmarkVerdict.BaselineIsLatestMatch` | landing/src/benchmark-comparison.ts:168-188 | the default baseline is the latest matching run of its pool, the first listed of several at one time, and none only if none matches; the pool is the earlier runs if there are any |
| `Downsampling.PicksAreOrdered` | landing/src/NetworkPage.tsx:1350-1354 | the direct indices ascend strictly from the first item to the last |
| `Downsampling.PositionsAreEven` | landing/src/NetworkPage.tsx:1350-1354 | the positions ascend strictly from the first to the last, are as many as fit, and each is the one closest to an evenly spaced point |
| `Downsampling.AscendingIsUnique` | landing/src/Panel.tsx:2066-2066 | a strictly ascending list is determined by its elements, so sorting the set gives the direct indices |
| `Downsampling.CollectIndices` | landing/src/Panel.tsx:2061-2065 | the set filled by the loop holds exactly the direct indices |
| `Downsampling.SortIndices` | landing/src/Panel.tsx:2066-2066 | the sorted list has exactly the elements of the set, strictly ascending |
| `Downsampling.DownsampleHistory` | landing/src/Panel.tsx:2056-2067 | the form through a set returns the same samples as the direct form, for every length and every limit above one |
| `Downsampling.Downsample` | landing/src/NetworkPage.tsx:1350-1354 | the direct form returns the items at strictly ascending positions from the first to the last, all of them or as many as the limit, each closest to an evenly spaced point |
| `StableSort.SortedOrders` | landing/src/NetworkPage.tsx:168-171 | sorting puts the elements in order of their keys |
| `StableSort.SortedIsStable` | landing/src/NetworkPage.tsx:168-171 | it loses nothing, repeats nothing and keeps the order of elements of equal key |
| `DailyJobs.CollectDeltas` | landing/src/NetworkPage.tsx:173-180 | the map filled by the loop holds for every day the sum of the positive deltas dated to it |
| `DailyJobs.DeriveDailyJobs` | landing/src/NetworkPage.tsx:167-189 | one bucket per day, ascending and without gaps, from the first sample's day to the last one's, each with its day's growth |
| `DailyJobs.BucketsTotal` | landing/src/NetworkPage.tsx:181-188 | the counts add up to the growth dated within the days shown |
| `DailyJobs.BucketsConserveIff` | landing/src/NetworkPage.tsx:173-188 | they add up to all growth if and only if every growth is dated within those days |
| `DailyJobs.MixedOffsetsLoseGrowth` | landing/src/NetworkPage.tsx:173-188 | two samples written with different offsets can lose all growth between them |
| `DailyJobs.DailyJobsConserve` | landing/src/NetworkPage.tsx:161-189 | with UTC timestamps the counts add up to all positive deltas of the time-sorted samples; without resets that is last minus first |
| `CheckoutRetries.NextKeepsInv` | landing/src/BillingAccountPanel.tsx:55-81 | every step of panel, network and server keeps the account of keys: each drawn key but a held one was followed by a good reply |
| `CheckoutRetries.RunsKeepInv` | landing/src/BillingAccountPanel.tsx:24-81 | that holds after every run of attempts, losses, late deliveries and failures |
| `CheckoutRetries.CreatedIsBounded` | landing/src/BillingAccountPanel.tsx:55-67 | the server never creates more than one checkout beyond the good replies received, and none beyond them while no key is held; the same for the portal |
| `CheckoutRetries.BoundIsMet` | landing/src/BillingAccountPanel.tsx:55-67 | the bound is the best possible: for every number of replies some run creates exactly one more |
| `CheckoutRetries.RetriesShareKey` | landing/src/BillingAccountPanel.tsx:58-66 | all attempts between two good replies, retries after failures included, are sent under one key |
| `CheckoutRetries.BusyIsReleased` | landing/src/BillingAccountPanel.tsx:30-81 | a busy panel always has an open request that will release it, unless it has navigated away |
| `CheckoutRetries.BillingPanel.Refresh` | landing/src/BillingAccountPanel.tsx:30-33 | each load gets the next number |
| `CheckoutRetries.BillingPanel.OnLoaded` | landing/src/BillingAccountPanel.tsx:34-41 | a load that is no longer the latest changes nothing |
| `CheckoutRetries.BillingPanel.Request` | landing/src/BillingAccountPanel.tsx:55-60 | a held key is used again; only without one is a new key drawn |
| `CheckoutRetries.BillingPanel.OnReply` | landing/src/BillingAccountPanel.tsx:60-62 | a good reply gives the key up, even if its address is then refused |
| `CheckoutRetries.BillingPanel.OnFailure` | landing/src/BillingAccountPanel.tsx:63-66 | a failure keeps both keys |
| `ChatRequests.MessagesFollowTurns` | landing/src/Panel.tsx:4506-4513 | the message list is the optional trimmed instructions, one pair per turn with that turn's own contents, and the new message |
| `ChatRequests.MessagesAlternate` | landing/src/Panel.tsx:4506-4513 | after the instructions, user and assistant alternate strictly, user first and last |
| `ChatRequests.NextKeepsInv` | landing/src/Panel.tsx:4475-4546 | every step keeps the page consistent: what is pending is the active request, and each answer belongs to the conversation above it |
| `ChatRequests.PageIsCoherent` | landing/src/Panel.tsx:4475-4546 | in every reachable state a turn is pending exactly when a request is active, and every answer on the page was given to exactly the conversation shown above it |
| `ChatRequests.ResetDropsLateReplies` | landing/src/Panel.tsx:4519-4537 | after a reset no reply to an earlier request ever adds a turn, in any later run |
| `ChatRequests.FailureRestoresDraft` | landing/src/Panel.tsx:4523-4529 | whatever happens between sending and a failure, the failure gives back the prompt and files that were sent |
| `ChatRequests.ChatPage.Submit` | landing/src/Panel.tsx:4475-4513 | a request starts exactly if the draft may be sent and none is active, and posts the recorded message list |
| `ChatRequests.ChatPage.OnUpdate` | landing/src/Panel.tsx:4514-4518 | an update counts only for the active request, and not after a stop |
| `ChatRequests.ChatPage.OnReply` | landing/src/Panel.tsx:4519-4532 | a reply adds a turn only for the active, unstopped request, and only with text |
| `ChatRequests.ChatPage.OnError` | landing/src/Panel.tsx:4523-4532 | an error changes the page only for the active request |
| `ChatRequests.ChatPage.ResetConversation` | landing/src/Panel.tsx:4535-4546 | a reset aborts and forgets the active request together with the turns |
| `SessionProtocol.FreshestIsIdempotent` | landing/src/auth.ts:163-175 | one call: choosing the freshest session twice, as the two functions do, changes nothing, and neither choice changes the user or shortens the life |
| `SessionProtocol.RestoreClearsIff` | landing/src/auth.ts:125-135 | one call: a restore signs out exactly when the server definitively refused the very token still stored |
| `BenchmarkVerdict.SwapMirrorsIff` | landing/src/benchmark-comparison.ts:335-381 | one call: swapping two runs keeps the mode, and swaps "faster" and "slower" exactly when their percentile ranges do not cross |
| `BenchmarkVerdict.FasterIsStrictOrder` | landing/src/benchmark-comparison.ts:355-381 | one call: "faster" is transitive through, and asymmetric between, runs whose P5 is not above P95; a run is faster than itself exactly when it breaks that rule |

## Left out

- Import analyzer: sorting of the result, the wording of errors, request parsing, and the identifier test, which is a parameter that refuses the empty string.
- Import analyzer runs: values returned by calls, taken out of containers by subscripts, repetition, comprehensions, `for` targets or `match` captures, stored in attributes, passed as parameters, reached through `__builtins__` or attributes of the API modules (`runpy.importlib`), or imported from other modules (`from m import importlib as x`) count as no import API; names inside classes are not mangled; a literal with a starred element and a sum of possible tuples count as any tuple; other values that are no import API and no known tuple either unpack into as many such values as are asked for or refuse; submodules listed in a package's `__all__` are not loaded by a star.
- Sessions and panel: browser storage and React updates are one atomic action per handler; a setter and the effect that copies it into a ref happen together; identity of session objects is equality of their contents.
- Sessions: the expiry of a session is a number; a redirect without a numeric one, whose session is stored and then not read back, is not modelled.
- PanelIdentity.ShownProfileIsCurrentUsers: excludes step-ups that return when the panel is no longer their user's, because the code does not guard them; `SafeThroughoutIff` and `ElevationIsSafeIff` prove that condition exact.
- TabAgreement.SettledTabsShowStoredUser: excludes turns that come too late, because the code does not guard them; `TabsAgreeIff` proves that condition exact.
- ImportCoverage.ReachedCallsAreNear: excludes `__import__` with a level, because the analyzer does not look at it; `TargetIsCertainIff` proves that condition exact.
- ImportCoverage.AcceptedCall: as above.
- ImportCoverage.CallLoadedIsRecordedIff: as above.
- Event stream: time stamps, HTTP status, and the parsing of the final evidence; decoding one payload is a parameter; a byte-order mark at the start of a stream is not stripped, and of the standard's fields only `data` matters here.
- Shader launcher: white space and digits are the ASCII ones; hashes, the JSON manifest text, file paths and which of several errors is raised are not modelled, nor is the compiler call that follows.
- Globe: the land bitmap, floating-point coordinates and all drawing; coordinates stay integer grid units.
- Activation sketches: tensors, random seeds and SHA-256, whose digests are a parameter; floating-point rounding and overflow (with doubles the sums can overflow and the ratio can then be no number, which the clamp turns into 1); the 64-bit draw counter is unbounded.
- LoadStatistics.PercentileBetween: fractions outside [0, 1] are excluded, as the benchmark never asks for them; sums are exact.
- Downsampling.DownsampleHistory: limits below two divide by zero or less in the source and are excluded; rounding is exact.
- Downsampling.Downsample: as above.
- Daily jobs: timestamp parsing; a sample carries its instant and the day its timestamp spells.
- BenchmarkVerdict.BaselineIsLatestMatch: finish times of the other runs must parse, because sorting by an unparseable time has no defined order.
- Benchmark comparison: percentages, narrative, filters, trend selection, and the normalisation that builds a run snapshot.
- Checkout: the timed re-checks after returning from Stripe; requests of an unmounted panel.
- Chat: the code takes the turns it sends from the last rendering, here they are the current ones; attachment reading and formatting, the elapsed-time ticker, instructions in local storage, and abort on unmount; the text of a stop error is the browser's.
- Activation progress timelines, the node-list loader of the contribute page, the round-trip matrix script, and all other pages: they would add easier members only.
- Coordinator, worker and planner sources are not part of this model.
