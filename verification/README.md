# Verification of the sylar server base

A model in Dafny of the parts of this C++ server base whose behaviour spans
several functions, whole runs or several threads: the log pattern compiler,
fibers, configuration variables and their YAML loader, loggers and their
reconciliation with the configuration, the locks around all of these, and the
argument parser. `dafny verify dfyconfig.toml` checks everything.

| file | what it models |
|---|---|
| `Pattern.dfy` | `LogFormatter::init`: a recursive grammar, the scanner with its jumping index, printing, step counts |
| `FiberModel.dfy`, `FiberProofs.dfy`, `FiberResults.dfy` | fibers, contexts, handles and threads as a machine; its invariant; what follows for every run |
| `FiberProgress.dfy` | every swapIn gets back to its call site, every callback can be run to its end |
| `FiberWitness.dfy` | two concrete runs: what the assertion in swapIn lets through, and why its caller must hold a reference |
| `FiberRuntime.dfy` | the statements of `src/fiber.cc` on mutable state, refining that machine |
| `LockOrder.dfy` | the nests of scoped locks of all operations, the lock machine, freedom from deadlock; the guard class |
| `ConfigVarRace.dfy`, `ConfigVarCalls.dfy` | one `ConfigVar` under any interleaving of its calls; what each call has done when it ends |
| `ConfigPaths.dfy` | the flattened form of a YAML tree and the meaning of its dotted paths |
| `ConfigLoad.dfy` | `ConfigVar`, the registry and `LoadFromYaml`, single threaded |
| `Yaml.dfy`, `Ordered.dfy`, `Casts.dfy` | YAML trees, ordered containers, the container casts |
| `LogDefines.dfy` | log levels, logger definitions, their casts |
| `Loggers.dfy` | appenders, loggers and the manager as objects; what log statements write |
| `LogConfig.dfy`, `LogAgreement.dfy` | the listener on "logs" editing live loggers; what runs of updates and log statements leave behind |
| `EnvArgs.dfy` | `Env::init` |

Objects the source updates in place are classes here; each method is proved
against a function on values (`Grammar`, `Step`, `Latest`, `Print`/`Parse`,
`Deliveries`, `SetValueSpec`, `Scan`), and the theorems are lemmas about those
functions. A `swapcontext` saves and resumes a continuation; a callback is an
arbitrary finite script of actions, yields, return or throw; every shared_ptr is
a handle with an owner, those on a fiber's own stack included. Listeners'
locks, lists of appenders and other values read at run time are parameters of
an operation's lock nest, so every outcome is covered.

The client discipline of the fiber theorems is `FiberModel.Legal`: GetThis
before the first swapIn, swapIn only from the main fiber on INIT, READY or HOLD
through a reference the caller keeps, yields only inside sub-fibers, a started
fiber stays on its thread, reset only of ended or unstarted fibers, and fewer
than 2^64 creations.

Where the source and its comments disagree, the model follows the code:

* `%%` (`src/log.cc:505`) is announced as an escape, but only one of the two
  signs is consumed: k signs are k-1 literal ones and the start of a
  specification.
* The names a variable may have leave out the digit 9 (`src/config.cc:24`,
  `src/config.h:473`), although the comment at `src/config.h:441` says 0-9.
* `LogDefine::operator==` compares `appenders` with itself (`src/log.cc:679`).
* The reader ignores an appender's `level` (`src/log.cc:708-739`), the writer
  writes it.
* `fromString` returns false even when it succeeds (`src/config.h:330-340`).
* `swapIn` asserts only that the state is not EXEC (`src/fiber.cc:112`); an ended
  fiber passes.

## Model

| member | source | states |
|---|---|---|
| `Pattern.LogFormatter.Init` | src/log.cc:506-627 | The jumping scanner with its retry after an unclosed brace yields exactly the items of the recursive grammar, reports an error exactly when the parse has one, makes Cost inner steps, at most size*(size-1)/2, and at most size when no brace is left unclosed |
| `Pattern.LogFormatter.ScanSpec` | src/log.cc:524-565 | The inner loop always moves forward, and returns the type, the format and the resume index that the grammar reads at that percent sign, or reports the unclosed brace |
| `Pattern.LogFormatter.BuildItems` | src/log.cc:588-626 | Types are looked up in the table of twelve; the error flag ends set exactly when the parse holds an unclosed brace or an unknown type |
| `Pattern.LogFormatter.constructor` | src/log.cc:480-482 | A new formatter holds the items of its pattern and the error flag of its parse |
| `Pattern.Normalisation` | src/log.cc:506-627 | For every pattern parsed without error, printing the pieces and parsing again gives the identical list, again without error |
| `Pattern.CanonicalIsImage` | src/log.cc:506-627 | The lists with non-adjacent non-empty literals, percent signs only as a run before a specification, known types and brace-free formats are exactly the error-free parses |
| `Pattern.GrammarIsCanonical` | src/log.cc:512-586 | Every error-free parse has that shape |
| `Pattern.ParseOfPrint` | src/log.cc:506-627 | Parsing what a list of that shape prints as gives the list back |
| `Pattern.CanonicalHasNoError` | src/log.cc:574-580 | Such a list holds neither an unclosed brace nor an unknown type |
| `Pattern.PercentRun` | src/log.cc:512-565 | A run of k percent signs is k-1 literal ones, and the last one opens a specification, or an unclosed brace |
| `Pattern.PlainSpecIsRead` | src/log.cc:524-573 | A percent sign and a type, up to a character that neither belongs to a type nor opens a format, is a specification without format |
| `Pattern.BracedSpecIsRead` | src/log.cc:524-573 | With a brace after the type the format is the text up to the first closing brace |
| `Pattern.OpenSpecIsError` | src/log.cc:574-580 | With a brace that is never closed it is an error, and the rest is scanned again with the pending text kept |
| `Pattern.ErrorsExactly` | src/log.cc:574-621 | A pattern is in error exactly when a brace is left open or a type is none of the twelve letters |
| `Pattern.AfterUnclosed` | src/log.cc:531-580 | After a brace left unclosed, a later percent sign is an error of the same kind if and only if it opens a brace, and otherwise reads an empty format |
| `Pattern.FormatsStopAtUnclosed` | src/log.cc:574-580 | In the parsed list no specification after the first unclosed brace has a format |
| `Pattern.CostIsQuadratic` | src/log.cc:531-565 | Twice the number of inner steps is at most size*(size-1) |
| `Pattern.CostIsLinear` | src/log.cc:531-573 | At most size inner steps when no brace is left unclosed |
| `Pattern.CostIsReallyQuadratic` | src/log.cc:574-580 | Patterns of length 2k that take k*k inner steps: rescanning after an error is quadratic |
| `FiberRuntime.Runtime.CreateMain` | src/fiber.cc:49-56 | The main fiber is in EXEC at once, has no stack, id 0 and no references yet, and becomes t_fiber |
| `FiberRuntime.Runtime.GetThis` | src/fiber.cc:126-134 | First call on a thread makes the main fiber and both its references; later calls add one reference to the current fiber |
| `FiberRuntime.Runtime.Create` | src/fiber.cc:58-75 | A new fiber gets the next id, the entry context and its callback's captures |
| `FiberRuntime.Runtime.Unref` | src/fiber.cc:77-90 | Dropping a reference counts down, and the last one runs the destructor with its assertions true |
| `FiberRuntime.Runtime.Destruct` | src/fiber.cc:77-90 | The destructor clears t_fiber only for its own main fiber and releases what the callback captured |
| `FiberRuntime.Runtime.Reset` | src/fiber.cc:96-108 | The fiber is as a new one with the same id and references |
| `FiberRuntime.Runtime.SwapIn` | src/fiber.cc:110-117 | The main fiber's continuation is saved as this call site, and control enters the fiber's saved context |
| `FiberRuntime.Runtime.SwapOut` | src/fiber.cc:119-124 | The fiber's continuation is saved, and control returns to the call site saved last |
| `FiberRuntime.Runtime.SwapContext` | src/fiber.cc:114-122 | One context is saved and another one returned, no other fiber is touched |
| `FiberRuntime.Runtime.Yield` | src/fiber.cc:136-148 | A second reference to what t_fiber points to on the fiber's own stack, state READY or HOLD, then out |
| `FiberRuntime.Runtime.MainFunc` | src/fiber.cc:152-175 | Each statement of MainFunc is a step of the machine, through t_fiber, `cur` and raw_ptr as the code has it, the catch clauses included |
| `FiberRuntime.Runtime.Execute` | src/fiber.cc:49-175 | Every legal step runs with all its assertions true and its pointers live, and keeps the invariant |
| `FiberRuntime.Runtime.Run` | src/fiber.cc:49-175 | So does every legal sequence of steps, of any number of threads, with the result the machine gives |
| `FiberProofs.StepKeeps` | src/fiber.cc:49-175 | The invariant on handles, stacks, reference counts, fibers, ids and threads survives every step |
| `FiberProofs.SelfIsInControl` | src/fiber.cc:126-175 | What GetThis() finds in t_fiber, what `cur` points to and raw_ptr are all the fiber in control |
| `FiberResults.NeverBad` | src/fiber.cc:77-175 | In no legal run does an assertion fail, is a freed fiber or null pointer used, or is the line after the last swapOut reached |
| `FiberResults.FreedFibersAreDone` | src/fiber.cc:77-90 | A fiber is freed only by its last reference, ended or never started, and never while it is some live thread's t_fiber |
| `FiberResults.WaitingFibersLive` | src/fiber.cc:136-148 | A waiting fiber is kept alive by `cur` of MainFunc and `cur` of the Yield on its own stack |
| `FiberResults.RawPointerLives` | src/fiber.cc:170-172 | While a fiber has control, also after cur.reset(), the caller of swapIn holds a reference to it |
| `FiberResults.ThreadView` | src/fiber.cc:110-134 | t_fiber is null exactly without a main fiber, else the main fiber or the running one; the main fiber is in EXEC; its saved context is the latest swapIn whenever a sub-fiber has control |
| `FiberResults.ExecIsCurrent` | src/fiber.cc:110-117 | A sub-fiber in EXEC is its thread's t_fiber, so a thread has at most one |
| `FiberResults.CallSitesReturnOnce` | src/fiber.cc:110-124 | Each swapIn returns once, to its own call site, in order |
| `FiberResults.IdsAndCount` | src/fiber.cc:19-21 | Sub-fiber ids are positive and distinct over all threads, and the counter equals the number of live fibers |
| `FiberResults.EndedFiberRanItsCallback` | src/fiber.cc:152-175 | The segments an ended fiber executed concatenate to its callback's uninterrupted run, one more segment than yields, and the state says how the callback ended |
| `FiberResults.EndsAfterYieldsPlusOne` | src/fiber.cc:110-175 | Counted over the whole run, a callback with n yields has ended after exactly n+1 swapIns, waits after at most n, and is INIT after none |
| `FiberResults.WaitingFiberIsOnItsWay` | src/fiber.cc:136-148 | A waiting fiber has executed exactly the first blocks of its callback, and is READY exactly when the yield it executed last was to ready |
| `FiberResults.OneRunPerSwapIn` | src/fiber.cc:110-124 | Whatever other threads do, only a swapIn of a fiber starts another segment of it, and only a reset replaces its callback |
| `FiberResults.ResetIsFresh` | src/fiber.cc:96-108 | After reset a fiber equals a new one with its old id and references; what the old callback had captured is released and the new captures are all it holds |
| `FiberResults.ResetFiberRunsAnew` | src/fiber.cc:96-175 | Whatever all threads do until its next reset, a fiber that was reset keeps its id and the new callback, has executed the first blocks of that callback, one per swapIn since the reset, and has ended after one more than there are yields with the uninterrupted run executed |
| `FiberResults.GoneForGood` | src/fiber.cc:77-90 | A freed fiber never comes back in any continuation |
| `FiberResults.SwapInIsSafeExactlyWhen` | src/fiber.cc:110-117 | The code asserts only that the state is not EXEC. In every reachable world, for a caller in its main fiber that holds the reference and a fiber not started on another thread, no legal continuation of the call goes wrong if and only if the fiber is INIT, READY or HOLD |
| `FiberWitness.EndedFiberPassesTheCheck` | src/fiber.cc:110-117 | A legal run that reaches a fiber in TERM: the caller owes nothing, the assertion passes, and the call runs into the line after the last swapOut |
| `FiberWitness.EndedFiberCanBeReset` | src/fiber.cc:96-108 | The same fiber may be reset with any callback |
| `FiberWitness.ReferenceMustBeHeld` | src/fiber.cc:152-175 | A legal run to an INIT fiber with a shared reference only: the call through it starts well, and some legal continuation uses the freed fiber in the last swapOut, so the caller must hold a reference |
| `FiberProgress.SwapInReturns` | src/fiber.cc:110-175 | Every swapIn can get back: steps of its own thread alone lead to the main fiber, to this swapIn's own call site, after all earlier ones have returned |
| `FiberProgress.CallbacksFinish` | src/fiber.cc:110-175 | Wherever a callback stands, resuming it through a held reference ends it, with the uninterrupted run executed |
| `FiberProgress.BackToMain` | src/fiber.cc:136-175 | A bound on what MainFunc and pending destructors still have to do falls with every step, so a thread reaches its main fiber with no destructor pending |
| `FiberProgress.ReleaseGetsOn` | src/fiber.cc:77-94 | A destructor uses up one reference and neither moves control nor touches the fiber its thread still holds |
| `LockOrder.DeadlockFree` | src/log.cc:313-396 | For any threads running any operations, in every reachable state some unfinished thread can step, even when readers give way to waiting writers |
| `LockOrder.OperationDescends` | src/config.h:355-371 | Every operation, the listener inside setValue inside a load included, takes locks in strictly descending order |
| `LockOrder.GuardIsAround` | src/mutex.h:59-100 | A guard takes its lock before and drops it after everything in its scope |
| `LockOrder.LogTakes` | src/log.cc:383-396 | Logging takes the logger's lock around those of the appenders the event passes or, when it has none, around the root's and those of the root's appenders |
| `LockOrder.VisitTakes` | src/log.cc:313-357 | setFormatter and toYamlString take every appender's lock inside the logger's |
| `LockOrder.SetTakes` | src/config.h:355-371 | setValue calls listeners inside the read lock and takes the write lock after it, and only for another value |
| `LockOrder.FlattenOrdered` | src/mutex.h:59-100 | Scoped guards nest: releases come last first, and every acquisition ranks below all locks held |
| `LockOrder.NeverRetaken` | src/mutex.h:106-194 | No thread ever waits for a lock it holds in any mode, nor for one of equal rank |
| `LockOrder.FinishedHoldsNothing` | src/mutex.h:59-194 | A thread that has finished holds no lock |
| `LockOrder.SchedulesAreFinite` | src/mutex.h:59-194 | Every schedule is finite, so with freedom from deadlock all threads finish |
| `LockOrder.ReachableKeeps` | src/mutex.h:232-268 | Lock order and mutual exclusion hold in every reachable state |
| `LockOrder.SomeoneCanGo` | src/log.cc:313-396 | From any unfinished thread, following the holders of wanted locks leads to a thread that can step |
| `LockOrder.GuardsAlternate` | src/mutex.h:59-100 | Whatever lock() and unlock() calls a scope makes, the underlying lock sees locks and unlocks in turn and ends free |
| `LockOrder.InScope` | src/mutex.h:59-100 | A guard object in a scope sends the underlying lock exactly that sequence |
| `LockOrder.ScopedLock.Lock` | src/mutex.h:78-83 | Locks only when not locked yet |
| `LockOrder.ScopedLock.Unlock` | src/mutex.h:88-93 | Unlocks only when locked |
| `ConfigVarRace.PassesAreExact` | src/config.h:355-371 | In every interleaving a completed notification pass called exactly the listeners registered at its start, once each in order of id, all with one old value that was current throughout |
| `ConfigVarRace.StoredWasAnnounced` | src/config.h:355-371 | A value is stored only after its own writer's completed pass, and each pass is used for one store |
| `ConfigVarRace.GotWasAnnounced` | src/config.h:345-349 | getValue returns the value stored last, which is the default or was announced to every listener before it was stored |
| `ConfigVarCalls.EveryCallIsDone` | src/config.h:345-417 | In every interleaving the events of a call that has ended are exactly those of one setValue, one getValue or one edit of the listeners |
| `ConfigVarCalls.SetValueKeepsOrReplaces` | src/config.h:355-371 | A setValue(v) that has ended did exactly one of two things: it met, since it began, a stored value that v is equal to and logged nothing, or it met another one, told each listener registered then in order with that value and v, and stored v once |
| `ConfigVarCalls.StoredUnlessEqual` | src/config.h:355-371 | When no other thread has stored a value meanwhile, the variable then holds v or a value that v is equal to |
| `ConfigVarCalls.SetThenGet` | src/config.h:345-371 | After any interleaving that leaves all threads idle, a thread by itself can run setValue(v) and getValue to their ends, and gets v or a value that v is equal to |
| `ConfigVarCalls.EndsAlone` | src/config.h:345-417 | A thread by itself ends whatever call it is in |
| `ConfigVarCalls.RegisteredExactly` | src/config.h:382-417 | A listener is registered exactly when it was added and neither it nor all of them were removed since |
| `ConfigVarRace.MoveKeeps` | src/config.h:345-417 | Every step of every call, listener edits included, keeps the invariant behind these |
| `ConfigLoad.Config.LoadFromYaml` | src/config.cc:41-61 | For every tree and registry each registered non-empty name ends with the value of the last pre-order node at its path whose text converts, or its old value, and the registry does not change; when no key is empty or holds a dot, these are the nodes that the keys between the name's dots lead to from the root, a scalar giving its own text and another node its emission |
| `ConfigLoad.ListAllMember` | src/config.cc:20-39 | The recursion over an output list by reference appends exactly the pruned traversal |
| `ConfigPaths.PruningIsFiltering` | src/config.cc:20-39 | The pruned traversal is the full pre-order traversal filtered by valid paths: no valid path is lost |
| `ConfigPaths.PathMeaning` | src/config.cc:31-38 | In a tree whose keys are not empty and hold no dot, a node is listed at p exactly when following from the root the keys between the dots of p leads to it |
| `ConfigPaths.PathsFollowKeys` | src/config.cc:31-38 | The nodes listed at p are, in document order and with repetitions, those that these keys lead to |
| `ConfigPaths.NameChars` | src/config.cc:24-29 | The characters of a valid name are the lower-case letters, dot, underscore and the digits 0 to 8 |
| `ConfigPaths.ParentsListed` | src/config.cc:20-39 | Every listed node but the root comes after the mapping it is an entry of |
| `ConfigPaths.ListedPathsAreLower` | src/config.cc:24-49 | Lower-casing changes no listed path |
| `ConfigLoad.LatestIsLastHit` | src/config.cc:45-60 | The value that stays is that of the last node at the path that converts |
| `ConfigLoad.LatestWithoutHit` | src/config.h:330-340 | Without one the variable keeps its value |
| `ConfigLoad.LatestOfValid` | src/config.cc:24-29 | For a valid name, dropping the invalid paths does not change the outcome |
| `ConfigLoad.LatestFollowsKeys` | src/config.cc:41-61 | A name is left the value of the last node that converts among those its keys lead to, or its old value when none does |
| `ConfigLoad.ConfigVar.SetValue` | src/config.h:355-371 | An equal value does nothing; else each listener is told once with old and new value, then the value is stored |
| `ConfigLoad.ConfigVar.FromString` | src/config.h:330-340 | A text that converts to another value tells each listener once and stores it; one that converts to the same value or does not convert changes nothing; the result is false in every case |
| `ConfigLoad.Config.Lookup` | src/config.h:444-484 | An existing name gives its variable or, for another type, nothing; a new name is created only when valid |
| `ConfigLoad.Config.LookupBase` | src/config.cc:11-15 | The variable of a registered name, or none |
| `Casts.RoundTrip` | src/config.h:101-281 | String to T after T to string is the identity for every nesting of vector, list, set and string-keyed map |
| `Casts.RoundTrips` | src/config.h:101-281 | The same also after the detour through the node of a surrounding container |
| `Casts.ParsedHasType` | src/config.h:161-236 | Whatever is parsed is a value of the type: sets and maps sorted, without duplicates |
| `Casts.MapHoldsFirst` | src/config.h:221-236 | From a mapping in any order a map holds, of each key, exactly the first entry |
| `Casts.SetHoldsFirst` | src/config.h:161-175 | From elements in any order a set holds, of equivalent ones, exactly the first |
| `Casts.FieldsAreEntries` | src/config.h:221-236 | Each entry read has its own key and the value of its child's text |
| `Casts.ItemsAreElements` | src/config.h:101-175 | Each element read is the value of its child's text |
| `Casts.OtherTexts` | src/config.h:101-236 | A scalar or an empty text is read as an empty container, and a sequence with elements is no map |
| `Ordered.InsertAllExactly` | src/config.h:161-175 | An ordered container holds, of the values inserted in turn, exactly the first of each kind |
| `Ordered.StrLessExactly` | src/log.cc:683 | Names are ordered by their first difference, a prefix before what extends it |
| `Yaml.LookupIsFirst` | src/log.cc:691-739 | A key gives the value of the first entry with it |
| `Yaml.DecimalIsNumber` | src/config.h:164-174 | An index is looked up in its plain decimal notation |
| `Casts.LawfulExists` | src/config.h:88-97 | The laws assumed of YAML and of the leaf cast can be met, by leaves of which any sorted list of strings is a set |
| `Casts.ToText` | src/config.h:117-250 | The filling loops emit the tree of the specification |
| `Casts.FromText` | src/config.h:101-175 | The reading loops give the specified value, or fail at the first child that does |
| `Casts.FromMapping` | src/config.h:221-236 | The same for maps |
| `LogDefines.DefineIsStable` | src/log.cc:689-781 | For every node the reader accepts, writing the definition and reading it again gives the same definition |
| `LogDefines.DefineRoundTrip` | src/log.cc:746-781 | A definition survives writing and reading if and only if its appenders are of a known type, have no level of their own, and have a file only when they are files |
| `LogDefines.ReadIsRepresentable` | src/log.cc:708-739 | Every appender the reader yields has type 1 or 2 and no level |
| `LogDefines.SetIsStable` | src/config.h:161-189 | The same for sets: sorted, unique by name, and stable under writing and reading |
| `LogDefines.FirstOfNameWins` | src/log.cc:683 | Of several definitions with a name the first read is kept |
| `LogDefines.LoadAppenders` | src/log.cc:708-739 | The loop over the appenders skips or fails element by element as specified |
| `LogDefines.LoadSet` | src/config.h:164-174 | The inserting loop gives the specified set, or fails at the first element that does |
| `LogDefines.MappingIsNoSet` | src/config.h:164-174 | A mapping in place of the sequence is visited by index too; if any index below its size is no key of it, the cast fails and no set is read |
| `LogDefines.LevelRoundTrip` | src/log.cc:20-58 | A level's name reads back as the level |
| `LogDefines.LevelNames` | src/log.cc:20-58 | Each level prints as its upper-case name and is read from it in upper or lower case |
| `LogDefines.OtherNames` | src/log.cc:36-58 | Any other text is read as UNKNOW |
| `LogDefines.DocumentedForm` | bin/conf/log.yaml:1-9 | A definition in the form of the shipped configuration file, with any name, level and file, is read with that level and with a file and a console appender |
| `LogDefines.DefineIsRead` | src/log.cc:689-743 | A name is required, level and formatter default to the empty text, appenders to none |
| `LogDefines.AppenderIsRead` | src/log.cc:708-739 | A console appender, and a file appender with a file, is read with its type and formatter |
| `LogDefines.AppenderIsSkipped` | src/log.cc:708-739 | An appender without a type, with an unknown one, or for a file without naming it, is left out |
| `LogDefines.WriterKeepsLevel` | src/log.cc:756-781 | The writer writes an appender's level unless it is UNKNOW |
| `Loggers.LogAppender.SetFormatter` | src/log.cc:88-96 | The own-formatter flag is set exactly for a formatter that is not null |
| `Loggers.LogAppender.Log` | src/log.cc:413-463 | An event that passes the level is written once, formatted by the appender's formatter; another one is not |
| `Loggers.Logger.SetFormatter` | src/log.cc:313-323 | Appenders without their own formatter share the new one, the others keep theirs, and inheritance survives a formatter that is not null |
| `Loggers.Logger.SetPattern` | src/log.cc:325-333 | A pattern with an error changes nothing; another becomes the formatter of the logger and of the appenders without their own |
| `Loggers.Logger.AddAppender` | src/log.cc:359-366 | Inheritance survives if and only if the appender has no formatter yet, has its own, or already has this logger's |
| `Loggers.Logger.DelAppender` | src/log.cc:368-376 | Exactly the first position of the appender goes |
| `Loggers.Logger.ClearAppenders` | src/log.cc:378-381 | No appender stays attached |
| `Loggers.Logger.Log` | src/log.cc:383-396 | The logger's list, or the root's under the root's level when it is empty, gets the event: each sink grows by the texts addressed to it, in order, and no other object changes |
| `Loggers.LogEach` | src/log.cc:388-391 | The loop delivers to each position of the list in order |
| `Loggers.OneDeliveryPerPosition` | src/log.cc:383-396 | Deliveries are exactly one per position whose level does not come after the event's in the list of levels, in order, each formatted by its own appender's formatter and carrying the original event |
| `Loggers.PatternSays` | src/log.cc:104-278 | An event's text is, piece by piece of the parsed pattern, the literal text, the error marks, or for each of the twelve letters the field it stands for |
| `Loggers.DefaultLine` | src/log.cc:305-310 | A new logger's lines are the time, thread id, thread name and fiber id with tabs between, level and logger in brackets, file and line, and the message |
| `Loggers.AtItsOwnLevel` | src/log.cc:383-463 | An event of exactly the logger's and the appender's level is written, and one of the level before it is not |
| `Loggers.MakeCall` | src/log.cc:313-381 | Each call changes level, pattern and appenders of its logger as specified, position by position, and keeps inheritance |
| `Loggers.MakeCalls` | src/log.cc:313-381 | After any sequence of calls with fresh appenders and non-null formatters every attached appender has a formatter, one without its own shares the logger's current one, and the logger is what folding the calls over its view gives |
| `Loggers.LoggerManager.constructor` | src/log.cc:629-637 | Only root exists, writes to the console, and has no root of its own |
| `Loggers.LoggerManager.GetLogger` | src/log.cc:639-650 | The logger of the name as it was, or a new one under root when there was none; no other logger changes |
| `Loggers.LoggerManager.Call` | src/log.cc:313-381 | A call on one managed logger changes that logger as the call says and no other, and keeps the manager valid |
| `Loggers.LoggerManager.LogOn` | src/log.cc:383-396 | A log statement on a managed logger is written by exactly the appenders whose thresholds its level does not come before in the list of levels, with the texts its view gives; the manager stays valid, every view as it was, and every sink grows by exactly the texts delivered to it |
| `Loggers.LoggerManager.Handle` | src/log.cc:383-396 | One call or log statement on a logger obtained by name |
| `Loggers.LoggerManager.Serve` | src/log.cc:313-396 | After any sequence of calls and log statements on loggers obtained by name the manager is valid, each call has changed its own logger only, the texts written in order are those the loggers as they then were emit, and every appender, attached or not, has written exactly what was delivered to it |
| `Loggers.DeliveriesAreSent` | src/log.cc:383-396 | What a list of appenders delivers follows from levels and patterns alone: its own pattern, or else its logger's |
| `Loggers.LoggerManager.HeardBy` | src/log.cc:383-463 | The appenders that write an event are, one delivery each and in order, those whose level, like the logger's and on the way to root the root's, does not come after the event's in the list of levels |
| `Loggers.LoggerManager.DeliveredSays` | src/log.cc:383-463 | Each text a statement leads to is what the pattern of the appender's formatter says, piece by piece, for the logger the statement is on |
| `Loggers.LoggerManager.OriginatorIsNamed` | src/log.cc:146-153 | %c in the pattern of any text a statement leads to prints the name of the logger the statement is on, also when the root's appenders write it |
| `Loggers.LoggerManager.OnlySinks` | src/log.cc:383-396 | Writing to sinks alone keeps the manager valid and every view |
| `Loggers.LoggerManager.CanDeliver` | src/log.cc:383-396 | In a valid manager any logger can take any event: only root has no root, so log recurses at most once, and no formatter is missing |
| `Loggers.LoggerManager.Confined` | src/log.cc:359-381 | A change confined to one logger and its appenders keeps the manager valid |
| `LogConfig.ReadIsBuildable` | src/log.cc:816-839 | What is read for "logs" has only types the listener builds, so it never uses a null appender |
| `LogConfig.BuildAppender` | src/log.cc:817-838 | An appender as its definition says; a formatter with an error is left out |
| `LogConfig.BuiltExactly` | src/log.cc:816-839 | Appenders are built in order from all definitions or, under `d`, from all but the console ones, each with the type, level, file and, when it parses, formatter of its definition |
| `LogConfig.ApplyDefine` | src/log.cc:810-840 | The logger ends with the definition's level, its formatter when that parses, and exactly its appenders, minus console ones under `d` |
| `LogConfig.Configure` | src/log.cc:795-840 | The same for the managed logger of that name; all others stay as they were |
| `LogConfig.Retire` | src/log.cc:843-851 | A logger no longer defined ends with level 0 and no appenders and keeps its formatter |
| `LogConfig.EditLoggers` | src/log.cc:795-841 | The first loop changes exactly the loggers of definitions that are new or unequal |
| `LogConfig.RemoveLoggers` | src/log.cc:843-851 | The second loop retires exactly the loggers of definitions that are gone |
| `LogConfig.LogsVar.OnChange` | src/log.cc:792-852 | The listener first logs its line to root, under root's configuration before the change, and then edits and retires loggers; no sink grows by anything else |
| `LogConfig.LogsVar.SetValue` | src/config.h:355-371 | setValue on "logs" takes the live loggers and the stored set to the specified next state; an equal value writes nothing, another one exactly the listener's line through the root logger |
| `LogConfig.LogsVar.SetValues` | src/config.h:355-371 | So does any sequence of setValues, with the listener's lines in order |
| `LogConfig.LogsVar.Perform` | src/log.cc:792-852 | So does any mixture of setValues, calls on loggers and log statements, and each text written, the listener's included, is the one the loggers as configured then emit, in order, to the sinks that hold it |
| `LogAgreement.LevelsAgree` | src/log.cc:792-852 | After any updates every defined logger has its defined level, every name once defined but now absent has level 0 and no appenders, and names never defined are untouched |
| `LogAgreement.FormattersAgree` | src/log.cc:812-814 | After any updates every defined logger whose definition has a formatter that parses writes with that formatter |
| `LogAgreement.AppendersAgree` | src/log.cc:677-683 | A defined logger's appenders are those of the last update that defined it newly or with another level or formatter, minus console ones when `d` was set |
| `LogAgreement.PatternsAgree` | src/log.cc:812-814 | A logger's formatter is that of the last applied definition with one that parses, or the original |
| `LogAgreement.AppendersAreCurrentExactlyWhen` | src/log.cc:677-683 | After any updates a defined logger has the appenders its current definition asks for if and only if the definition applied last asked for the same ones |
| `LogAgreement.EditArrivesExactlyWhen` | src/log.cc:677-680 | The last update of any run gives a logger the appenders it asks for if and only if the name is new, the level is another one, the formatter is another one, or the logger had those appenders already |
| `LogAgreement.AppenderEditsAreDropped` | src/log.cc:677-680 | For any two definitions of a name that differ in their appenders alone, the second update leaves the logger with the first appenders, which are not those it asks for |
| `LogAgreement.AnotherFileIsIgnored` | src/log.cc:677-680 | A concrete pair: after the file of the only appender is edited the logger still writes to the old one |
| `LogAgreement.UpdateAt` | src/log.cc:792-852 | One setValue as a single name sees it, whether or not the listener ran |
| `LogAgreement.ValueIsLast` | src/config.h:355-371 | The stored set equals the last one handed in as far as operator== can tell |
| `LogAgreement.SetsEqualExactlyWhen` | src/log.cc:677-683 | A new set is taken for the stored one if and only if the same names are defined, each with the same level and formatter |
| `EnvArgs.Env.Init` | src/env.cc:37-70 | True exactly for argument lists that parse; then the table is the old one overwritten by the options in order, else by the options completed before the first word out of place |
| `EnvArgs.AcceptedArePrinted` | src/env.cc:42-69 | The accepted lists are exactly the printed lists of options with non-empty keys and values without a leading dash, each from one list of options |
| `EnvArgs.AcceptedPointwise` | src/env.cc:43-65 | Accepted if and only if no word is a lone dash and every other plain word directly follows a dashed one |
| `EnvArgs.LastWins` | src/env.cc:72-75 | The last option with a key decides its value, other keys keep theirs |
| `EnvArgs.TableRoundTrip` | src/env.cc:42-69 | A table of such keys and values, spelled out as arguments in any order, is parsed back to itself |
| `EnvArgs.SpellTable` | src/env.cc:42-69 | Every table of non-empty keys and values without a leading dash has such a spelling |
| `EnvArgs.TablesAreValid` | src/env.cc:42-69 | Those tables are exactly the ones some accepted argument list leaves behind |
| `EnvArgs.ScanFails` | src/env.cc:50-63 | A failing parse has stored exactly the options completed before the first word out of place |

## Left out

- YAML text parsing and emission and boost's lexical_cast: a tree type, and for
  the casts the laws in `Casts.Lawful`, stand for them. Keys are scalars, and
  an index finds a key only in its plain decimal notation, not as `0x0` or `00`.
- strftime, its 64-byte buffer and localtime: `LogEvent.stamp` is a parameter.
- Files, the console and `FileLogAppender::m_lastTime`: an appender's sink is
  a growing list of texts.
- ucontext, stack memory, stack sizes and the `use_caller` flag of a fiber.
- Fibers moving between threads: YieldToReady sets READY before the context is
  saved (`src/fiber.cc:139-140`), so another thread could resume a stale one.
- The memory model: atomics and lock operations are single steps, and
  unsynchronised reads of `m_level` are not modelled.
- `setValue`'s old value when other writers come between its two locks: no
  claim beyond `ConfigVarRace.PassesAreExact`; a later writer may publish an
  older announcement.
- A value type whose operator== is not equality, in `ConfigLoad`: `ConfigVarRace`
  and `LogConfig` take any.
- Listeners that throw, call setValue again or take other locks.
- `s_fun_id`, shared by all variables of one type: in `ConfigVarRace` any id
  may be handed out.
- Unordered containers: their iteration order is unspecified.
- An ASSERT aborting the program: the runtime methods take the assertions as
  preconditions and `FiberRuntime.Runtime.Execute` proves them.
- Diagnostic lines of fibers, of `Lookup` and of failing conversions, and what
  goes straight to std::cout: the loggers' locks appear in `LockOrder`, the
  texts nowhere.
- The texts of `toYamlString` of loggers and appenders: only their locks.
- `Config::Lookup` without a default and listener registration as class methods:
  lookups and edits of a map.
- Paths, environment variables and help of `Env`; `Thread`, `Semaphore`,
  `Backtrace`, `Singleton` and the assertion macros.
- LogConfig.ApplyDefine: takes definitions whose appenders have type 1 or 2;
  for another type the listener dereferences a null appender
  (`src/log.cc:816-828`), and `LogConfig.ReadIsBuildable` shows that the
  casts yield none.
- EnvArgs.Env.Init: the program path read from /proc is not part of this model.
