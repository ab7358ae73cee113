# Azzazelloqq.Config: a verified model of the configuration pipeline

Azzazelloqq.Config loads typed configuration pages. A *parse executor*
produces the page of one runtime type (its target kind) and may declare the
kinds it depends on. Its body reads the pages of those kinds from a shared
context.

- `SimpleResolver` orders the executors by a depth-first traversal. It
  rejects a null array, two executors with the same target kind, a
  dependency that no executor produces, and a cycle.
- `DependencyAwareConfigParser` runs the resolved order level by level. It
  keeps a counter of unfinished dependencies per executor and a queue of
  ready executors. Each finished page goes into the context and the output,
  and the counters of its dependants are decremented. The parser has a
  blocking `Parse`, an awaitable `ParseAsync(token)`, and a
  `ParseAsync(progress, token)` that reports one event per page.
- `CompositeConfigParser` concatenates the pages of several parsers in
  parser order. There are two of them: one in `Source/Parser`, and a shorter
  one at the repository root.
- `Config` is the façade. It is initialised once from a parser and then
  hands out pages by kind.

The model is written in Dafny. Each source file that changes state becomes
imperative Dafny:

- the resolver's traversal is the class `Traversal`, with the `visited`,
  `stack` and `sorted` collections as fields;
- the scheduler's counters, queue, context and output are the class
  `Batches`;
- the façade is the class `Config`;
- the composite's loops and its offset copy into an array are methods with
  loop invariants.

Each of these is proved equal to a specification function over values:
`ResolveSpec`, `Run` / `ParseRun`, `ByKind`, `Combined`. The lemmas then
state what the source promises about those functions.

Executor bodies, sub-parsers and the façade's parser are code this model
cannot see. They are parameters:

- an executor's body is a function `work` from the executor and the context
  it is given to a page or a fault; the parser's lemmas assume that such a
  page has the executor's target kind (`OwnKind`, see "Left out");
- a sub-parser or the façade's parser is represented by the outcome of its
  call;
- a cancellation token is a boolean saying whether it was cancelled before
  the call.

Files:

| file | module | contents |
|---|---|---|
| `types.dfy` | `ConfigTypes` | kinds, pages, producers (executors), the error values standing for the exceptions, `ByKind` (pages stored under their kinds, last one wins) |
| `resolver.dfy` | `SimpleResolver` | the resolver: specification functions and the imperative `Resolve` / `Traversal.Visit` |
| `resolver_properties.dfy` | `ResolverProperties` | what a resolver result and each resolver error mean |
| `resolver_examples.dfy` | `ResolverExamples` | concrete inputs and what they resolve to |
| `level_books.dfy` | `LevelBooks` | the counters and the queue: what they hold between steps |
| `schedule_spec.dfy` | `ScheduleSpec` | the level scheduler as functions over its state, and the invariants they keep |
| `parse_spec.dfy` | `ParseSpec` | a whole parse as a function, and what it promises |
| `dependency_aware_parser.dfy` | `DependencyAwareParser` | the imperative parser, proved to follow `ParseSpec` |
| `composite_parser.dfy` | `CompositeParser` | the composite of `Source/Parser` |
| `root_composite_parser.dfy` | `RootCompositeParser` | the root composite, and its agreement with the other one |
| `config.dfy` | `ConfigFacade` | the façade |

The parser runs the members of a level in parallel: through `Parallel.For`
in `Parse`, and through `Task.WhenAll` in the awaitable forms. The model
runs them one after the other in dequeue order. For the awaitable forms the
model follows what the code does when every member's task completes
normally or faults inside its task: every member is started on the context
as it was when the level began, the first fault in dequeue order is
reported, and otherwise the pages are committed in dequeue order. A member
that throws before returning its task, and a cancelled task beside a
faulted one, behave differently; "Left out" says how. For the blocking form
the model is one of the interleavings that `Parallel.For` allows: each
member parses, commits and unlocks in turn.

## Model

| member | source | states |
|---|---|---|
| SimpleResolver.FirstDuplicateSound | Source/Resolver/SimpleResolver.cs:15-23 | the duplicate check finds nothing exactly when all target kinds are distinct; what it finds is a kind that occurs twice |
| SimpleResolver.Owners | Source/Resolver/SimpleResolver.cs:15-23 | the executor map stores every executor under its own target kind and holds exactly the input's kinds |
| SimpleResolver.OwnersFind | Source/Resolver/SimpleResolver.cs:15-23 | with distinct kinds every executor is found under its kind, and other entries are untouched |
| SimpleResolver.ExecutorMap | Source/Resolver/SimpleResolver.cs:15-23 | a map without error is keyed by its executors' own kinds and covers exactly the input's kinds |
| SimpleResolver.BuildExecutorMap | Source/Resolver/SimpleResolver.cs:15-23 | the loop fails on the first kind already in the map, or returns the full map |
| SimpleResolver.OwnersStep | Source/Resolver/SimpleResolver.cs:18-22 | one step of that loop: a kind already present is the first duplicate, otherwise the scan goes on with the executor added |
| SimpleResolver.Traversal.constructor | Source/Resolver/SimpleResolver.cs:25-27 | empty `visited`, `stack` and `sorted` |
| SimpleResolver.Traversal.Visit | Source/Resolver/SimpleResolver.cs:37-67 | the recursive visit with the shared sets updated in place ends in the walk or the error of `Dfs`, and on success leaves the stack as it found it |
| SimpleResolver.Resolve | Source/Resolver/SimpleResolver.cs:8-35 | the whole resolver: null array, duplicate, traversal in input order |
| SimpleResolver.FewerUnstacked | Source/Resolver/SimpleResolver.cs:49-52 | pushing a kind of the map onto the stack leaves fewer kinds off it, so the recursion ends |
| ResolverProperties.NullArgumentOnlyForNull | Source/Resolver/SimpleResolver.cs:10-13 | the invalid-argument error occurs exactly for a null array |
| ResolverProperties.DuplicateReportedFirst | Source/Resolver/SimpleResolver.cs:15-23 | repeated target kinds are always reported as a duplicate, before the traversal looks at anything; the kind named occurs at two positions |
| ResolverProperties.MissingDependencySound | Source/Resolver/SimpleResolver.cs:54-59 | a missing dependency is declared by some executor and produced by none |
| ResolverProperties.CircularDependencySound | Source/Resolver/SimpleResolver.cs:49-52 | the kind named by a circular-dependency error reaches itself through the dependency graph |
| ResolverProperties.ResolveSucceeds | Source/Resolver/SimpleResolver.cs:8-67 | distinct kinds, no missing dependency and no cycle guarantee a result |
| ResolverProperties.ResolveSortsTopologically | Source/Resolver/SimpleResolver.cs:29-35 | a result is a permutation of the input, has distinct kinds, and places each executor after the owners of its dependencies |
| ResolverProperties.ResolveKeepsOrderedInput | Source/Resolver/SimpleResolver.cs:29-34 | an input already in dependency order comes back unchanged |
| ResolverProperties.DfsKeeps | Source/Resolver/SimpleResolver.cs:37-67 | a visit keeps the sorted list in dependency order, only extends it, and marks the visited executor |
| ResolverProperties.DfsDepsKeeps | Source/Resolver/SimpleResolver.cs:54-62 | visiting a dependency list marks every dependency visited |
| ResolverProperties.DfsAllKeeps | Source/Resolver/SimpleResolver.cs:29-32 | the top-level loop visits every input kind |
| ResolverProperties.DfsErrors | Source/Resolver/SimpleResolver.cs:49-59 | every traversal error names a missing dependency or a kind on a cycle |
| ResolverProperties.DfsAllErrors | Source/Resolver/SimpleResolver.cs:29-32 | the same for the whole top-level loop |
| ResolverProperties.TraversalErrors | Source/Resolver/SimpleResolver.cs:8-67 | the same for the whole resolver |
| ResolverExamples.ReversedChainResolves | Source/Resolver/SimpleResolver.cs:29-66 | [C needs B, B needs A, A] resolves to [A, B, C] |
| ResolverExamples.ThreeCycleNamesFirst | Source/Resolver/SimpleResolver.cs:49-52 | in a three-cycle the error names the kind where the traversal started |
| ResolverExamples.SelfDependencyIsCycle | Source/Resolver/SimpleResolver.cs:49-52 | an executor depending on its own kind is a cycle |
| ResolverExamples.UnknownDependencyIsMissing | Source/Resolver/SimpleResolver.cs:56-59 | an unproduced dependency is reported by its kind |
| ResolverExamples.UnrelatedMayBeReordered | Source/Resolver/SimpleResolver.cs:29-32 | [C needs A, B, A] resolves to [A, C, B], so A and B, which are unrelated, swap places |
| ResolverExamples.DuplicateBeforeMissing | Source/Resolver/SimpleResolver.cs:15-23 | a duplicate hides a missing dependency of an earlier executor |
| LevelBooks.OutstandingZero | Source/Parser/DependencyAwareConfigParser.cs:200-206 | a counter reaches zero only for a dependency list without repetition whose kinds have all finished |
| LevelBooks.OutstandingDone | Source/Parser/DependencyAwareConfigParser.cs:200-206 | conversely, all kinds finished and none repeated means zero |
| LevelBooks.OutstandingFinish | Source/Parser/DependencyAwareConfigParser.cs:200-206 | finishing a kind takes one off each counter whose list names it and leaves the others alone |
| LevelBooks.UnlockScan | Source/Parser/DependencyAwareConfigParser.cs:200-206 | one step of the unlock loop reads the counter from before the loop, decrements it and enqueues the executor at zero |
| LevelBooks.DecrementedOverAll | Source/Parser/DependencyAwareConfigParser.cs:200-206 | the scan over the whole order gives each dependant exactly one decrement |
| LevelBooks.BooksStart | Source/Parser/DependencyAwareConfigParser.cs:169-172 | the initial counters and the ready queue are consistent with nothing done |
| LevelBooks.BooksDequeue | Source/Parser/DependencyAwareConfigParser.cs:275-286 | taking the whole queue as a level keeps the counters consistent |
| LevelBooks.BooksUnlock | Source/Parser/DependencyAwareConfigParser.cs:200-206 | unlocking a newly finished kind keeps the counters and the queue consistent |
| LevelBooks.BooksQueued | Source/Parser/DependencyAwareConfigParser.cs:202-204 | an executor that is queued or was dequeued has all its dependencies finished |
| LevelBooks.BooksComplete | Source/Parser/DependencyAwareConfigParser.cs:174-208 | once the queue is empty, an order in dependency order whose lists repeat no kind has been dequeued completely |
| ScheduleSpec.StartValid | Source/Parser/DependencyAwareConfigParser.cs:35-36 | the state before the first level satisfies the run invariant |
| ScheduleSpec.InlineKeeps | Source/Parser/DependencyAwareConfigParser.cs:174-207 | a level in the blocking shape keeps the run invariant or ends in a fault of an invoked executor, and invokes at least one new executor |
| ScheduleSpec.SnapshotKeeps | Source/Parser/DependencyAwareConfigParser.cs:221-245 | the same for a level in the awaitable shape, whose members all see the context from the start of the level |
| ScheduleSpec.BodiesSound | Source/Parser/DependencyAwareConfigParser.cs:225-231 | awaiting a level gives every member's page in dequeue order, or the fault of one of its members |
| ScheduleSpec.CommitAllReports | Source/Parser/DependencyAwareConfigParser.cs:114-127 | committing pages appends them to the output and reports one event per page |
| ScheduleSpec.ProgressOfEvents | Source/Parser/DependencyAwareConfigParser.cs:117-126 | the k-th event reports k + 1 pages done out of the order's length, with the kind of the k-th page |
| ScheduleSpec.RunSound | Source/Parser/DependencyAwareConfigParser.cs:164-246 | a whole run keeps the invariant and ends with an empty queue, or ends with the fault of an invoked executor |
| ScheduleSpec.CommittedCovers | Source/Parser/DependencyAwareConfigParser.cs:41-45 | after every invocation is committed, the context holds the kind of every executor invoked |
| ScheduleSpec.CommittedLacks | Source/Parser/DependencyAwareConfigParser.cs:41-45 | the context holds no kind that no committed executor produces |
| ParseSpec.ParseResolveError | Source/Parser/DependencyAwareConfigParser.cs:32-48 | a resolver error is the parse's result, and no executor runs and nothing is reported |
| ParseSpec.ParseScheduled | Source/Parser/DependencyAwareConfigParser.cs:164-246 | every invoked executor is in the order, runs at most once, after all its dependencies, on a context holding them |
| ParseSpec.ParseFault | Source/Parser/DependencyAwareConfigParser.cs:190-197 | a failed parse carries the fault of an executor that was invoked |
| ParseSpec.ParsePages | Source/Parser/DependencyAwareConfigParser.cs:38-47 | a successful parse returns each invoked executor's page in invocation order; each executor saw only returned pages; no two pages share a kind, so, for executors that return a page of their own target kind (`OwnKind`), the context never meets a duplicate key; the events count the pages one by one |
| ParseSpec.ParseComplete | Source/Parser/DependencyAwareConfigParser.cs:169-208 | when no list repeats a kind, a successful parse ran every executor and returns one page per executor |
| ParseSpec.ParseProgressEnds | Source/Parser/DependencyAwareConfigParser.cs:114-127 | with progress and no repeated dependency, one event per executor, the last one reporting all of them done |
| ParseSpec.ParseEmpty | Source/Parser/DependencyAwareConfigParser.cs:32-73 | no executors give no pages and no events, in every shape |
| ParseSpec.ParseSucceeds | Source/Parser/DependencyAwareConfigParser.cs:164-246 | executors that never fault, over a resolvable input, give a result |
| DependencyAwareParser.BuildRemainingDeps | Source/Parser/DependencyAwareConfigParser.cs:249-259 | each counter starts at the length of the executor's dependency list |
| DependencyAwareParser.DependsOn | Source/Parser/DependencyAwareConfigParser.cs:288-301 | true exactly when the kind is in the dependency list |
| DependencyAwareParser.Batches.constructor | Source/Parser/DependencyAwareConfigParser.cs:169-172 | the initial counters and the ready executors enqueued |
| DependencyAwareParser.Batches.EnqueueReady | Source/Parser/DependencyAwareConfigParser.cs:261-273 | appends the executors whose counter is zero, in order |
| DependencyAwareParser.Batches.DequeueLevel | Source/Parser/DependencyAwareConfigParser.cs:275-286 | takes the whole queue in order and leaves it empty |
| DependencyAwareParser.Batches.Invoke | Source/Parser/DependencyAwareConfigParser.cs:194-196 | the executor's body on the given context, recorded |
| DependencyAwareParser.Batches.Commit | Source/Parser/DependencyAwareConfigParser.cs:41-45 | the page added to context and output, and reported when progress is on |
| DependencyAwareParser.Batches.Unlock | Source/Parser/DependencyAwareConfigParser.cs:200-206 | decrements the dependants' counters and enqueues those that reach zero |
| DependencyAwareParser.Batches.RunLevelInline | Source/Parser/DependencyAwareConfigParser.cs:174-207 | one level in the blocking shape, as `InlineLevel` |
| DependencyAwareParser.Batches.InvokeLevel | Source/Parser/DependencyAwareConfigParser.cs:225-231 | every member started on the same context; the pages in dequeue order or the first fault (when every member returns its task and none is cancelled beside a faulted one; see "Left out") |
| DependencyAwareParser.Batches.CommitPages | Source/Parser/DependencyAwareConfigParser.cs:232-235 | the pages committed in order |
| DependencyAwareParser.Batches.UnlockLevel | Source/Parser/DependencyAwareConfigParser.cs:237-244 | every member unlocks its dependants in dequeue order |
| DependencyAwareParser.Batches.RunLevel | Source/Parser/DependencyAwareConfigParser.cs:221-245 | one level in the awaitable shape, as `SnapshotLevel` |
| DependencyAwareParser.Batches.Execute | Source/Parser/DependencyAwareConfigParser.cs:164-246 | levels until the queue is empty or a fault, as `Run` |
| DependencyAwareParser.Parse | Source/Parser/DependencyAwareConfigParser.cs:32-48 | the blocking parse, as `ParseRun` with the blocking shape |
| DependencyAwareParser.ParseAsync | Source/Parser/DependencyAwareConfigParser.cs:51-73 | a cancelled token is reported first; otherwise the awaitable parse |
| DependencyAwareParser.ParseAsyncWithProgress | Source/Parser/DependencyAwareConfigParser.cs:75-149 | as `ParseAsync`, with the progress events of the run |
| CompositeParser.WhenAll | Source/Parser/CompositeConfigParser.cs:43-49 | awaiting all sub-parsers gives every page array in parser order, or the fault of the first faulting sub-parser, all before it successful (same conditions as `InvokeLevel`; see "Left out") |
| CompositeParser.Parse | Source/Parser/CompositeConfigParser.cs:17-28 | the first fault in parser order, or all pages in parser order |
| CompositeParser.Concatenate | Source/Parser/CompositeConfigParser.cs:51-65 | the offset copy builds a fresh array holding the arrays one after the other |
| CompositeParser.CopyAt | Source/Parser/CompositeConfigParser.cs:61 | `Array.Copy` writes the array at the offset and leaves the rest of the destination alone |
| CompositeParser.ParseAsync | Source/Parser/CompositeConfigParser.cs:30-66 | a cancelled token is reported first; a single sub-parser's outcome passes through unchanged; otherwise the same result as `Parse` |
| CompositeParser.ParseAsyncWithProgress | Source/Parser/CompositeConfigParser.cs:68-90 | the same result as `Parse`, and one event (k + 1 done of all) for each sub-parser that finished before the first fault |
| CompositeParser.CombinedSingle | Source/Parser/CompositeConfigParser.cs:37-40 | with one sub-parser, the general path delivers exactly that sub-parser's outcome, so the shortcut changes nothing |
| CompositeParser.SucceedingFault | Source/Parser/CompositeConfigParser.cs:76-87 | the composite succeeds exactly when every sub-parser does; a fault is that of the first failing sub-parser |
| CompositeParser.FlattenLength | Source/Parser/CompositeConfigParser.cs:51-57 | the combined array is as long as the sum of the sub-arrays |
| CompositeParser.FlattenAt | Source/Parser/CompositeConfigParser.cs:57-63 | page j of sub-parser i sits at position (lengths before i) + j |
| CompositeParser.WhenAllPrefixFault | Source/Parser/CompositeConfigParser.cs:21-25 | a fault among the first sub-parsers is the composite's fault, whatever follows |
| RootCompositeParser.ParseAgrees | CompositeConfigParser.cs:16-33 | both root entry points deliver what the `Source/Parser` composite delivers |
| RootCompositeParser.ParseFaultAt | CompositeConfigParser.cs:16-21 | asking the sub-parsers from the front stops at the first fault |
| RootCompositeParser.SelectManyFlatten | CompositeConfigParser.cs:30-32 | concatenating from the front equals concatenating from the back |
| RootCompositeParser.ParseLength | CompositeConfigParser.cs:16-21 | no sub-parsers give no pages from either entry point; otherwise as many pages as the sub-parsers returned |
| ConfigFacade.BuildContainer | Source/Main/Config.cs:68-80 | each page stored under its kind, a later page replacing an earlier one |
| ConfigFacade.Config.constructor | Source/Main/Config.cs:15-20 | not initialised, no container |
| ConfigFacade.Config.Initialize | Source/Main/Config.cs:22-32 | a second call fails and changes nothing; a parser fault leaves the façade uninitialised; otherwise the container holds the pages by kind |
| ConfigFacade.Config.InitializeAsync | Source/Main/Config.cs:34-46 | as `Initialize`, with a cancelled token reported after the already-initialised check |
| ConfigFacade.Config.GetConfigPage | Source/Main/Config.cs:48-66 | null container, missing kind and success are told apart, each exactly; on a valid façade the cast never fails |
| ConfigFacade.LastPageFound | Source/Main/Config.cs:55-63 | after initialisation, the last page of a kind is the one returned for it |
| ConfigFacade.UnproducedNotFound | Source/Main/Config.cs:55-58 | a kind no page has is not found |
| ConfigFacade.ProducedFound | Source/Main/Config.cs:55-63 | every kind some page has is found |
| ConfigTypes.ByKindWins | Source/Main/Config.cs:73-77 | a page that no later page of its kind follows is the one stored |
| ConfigTypes.ByKindOnly | Source/Main/Config.cs:73-77 | nothing but the pages' kinds is stored |
| ConfigTypes.ByKindKeyed | Source/Main/Config.cs:73-77 | every page is stored under its own kind |

## Where the model follows the code rather than the documentation

- The resolver's interface promises only a deterministic order that
  satisfies every declared dependency
  (`Source/Resolver/IExecutorResolver.cs`, lines 5-13). One test of the
  pipeline expects the input order to be kept, but its executors have no
  dependencies at all, and for such input the depth-first traversal does
  keep the order (`ResolveKeepsOrderedInput`). With dependencies it need
  not: [C needs A, B, A] resolves to [A, C, B], so the unrelated A and B
  swap places (`UnrelatedMayBeReordered`). The model follows the code.
- An executor that lists a dependency twice has a counter that starts at
  the list's length but loses only one per finished kind. It never reaches
  zero, so that executor never runs, and the parse still returns without
  error, missing its page. The model keeps this behaviour: `ParseComplete`
  and `ParseProgressEnds` require lists without repetition, and
  `ParseScheduled` shows that only executors with such lists ever run.
- In the blocking `Parse`, a member of a level may see pages committed
  earlier in the same level; `Parallel.For` allows this. In the awaitable
  forms it cannot, because every member is started before any page is
  committed.

## Left out

- Parallelism: `Parallel.For` and concurrently running tasks are modelled by
  one sequential order (described above). Races on the non-thread-safe
  `Dictionary`, `List` and `Queue` in the blocking form are not modelled.
- DependencyAwareParser.Parse: a fault in a blocking level of two or more
  members reaches the caller wrapped in an `AggregateException` (with every
  fault of that level), because `Parallel.For` wraps whatever its
  iterations throw, even a single fault; other members may already have
  committed. The model returns the first fault in dequeue order, unwrapped.
  Only a one-member level rethrows the executor's exception as it is, and
  there the model agrees.
- `OwnKind`: the scheduler lemmas and the parser methods assume that every
  executor returns a page of its own target kind, as
  `IParseExecutor.TargetType` documents. The code never checks this: it
  stores a page under its runtime type but unlocks dependants by
  `TargetType`. An executor that breaks the contract can make the
  context's `Add` throw on a repeated key, or unlock a dependant whose
  dependency is absent from the context. These behaviours are not
  modelled.
- A null page is not modelled: pages are values. In the code, a null page
  from an executor or a parser throws a `NullReferenceException` at
  `page.GetType()`, both in the parser's commit and in the façade's
  container build.
- Cancellation is modelled only as a token cancelled before the call.
  Executors and sub-parsers receive the token, and a cancellation they
  observe is one of their faults.
- DependencyAwareParser.Batches.InvokeLevel: the awaitable level is
  modelled as "every member started, first fault in dequeue order". So is
  the awaitable composite (`CompositeParser.WhenAll`, in parser order). Two
  behaviours of the code differ:
  - A member whose `ParseAsync` throws before returning its task stops the
    level there. Later members are never started, and the faults of earlier
    members' tasks are never observed. The caller gets that member's
    exception. The model starts every member and reports the first fault in
    order.
  - `Task.WhenAll` reports a faulted task in preference to a cancelled
    one, whatever their order. When tasks were only cancelled, it reports
    its own cancellation. The model treats a cancellation like any other
    fault and reports the first in order.

  The awaitable entry points of both parsers, and the agreement of the two
  composites (`RootCompositeParser.ParseAgrees`), inherit these two gaps.
- CompositeParser.WhenAll: the same two gaps as
  `DependencyAwareParser.Batches.InvokeLevel` just above. A sub-parser that
  throws before returning its task, and a cancelled sub-parser before a
  faulted one, are not modelled.
- Null elements are not modelled, since executors, dependency lists and
  page arrays are values. In the code each of these throws a
  `NullReferenceException`:
  - a null element of the executors array, when the resolver reads its
    target type;
  - a null `Dependencies` collection, in the resolver's traversal and when
    the parser sets up its counters;
  - a null page array returned by a sub-parser, when the composite calls
    `AddRange` or `Array.Copy`.
- `ParseProgress` carries a `float` fraction and a message naming the page
  type or the sub-parser. The model reports the two integers the fraction is
  computed from (done and total), plus the page kind; floating point and
  message text are left out.
- The callback overloads `ParseAsync(Action<ParseProgress>,
  Action<IConfigPage[]>, CancellationToken)` of both parsers are left out:
  they start the progress-reporting `ParseAsync` on a background task.
- The `resolver` argument of the `DependencyAwareConfigParser` constructor:
  the model always uses `SimpleResolver`. A null executors array reaches the
  resolver's null check instead of the constructor's; the error is the same.
- A null `parsers` array for a composite is left out.
- `GetConfigPage`'s `is T` test is a subtype test in C#. The model compares
  kinds exactly, so a page stored under its own kind always passes it.
- Executors, sub-parsers and the façade's parser are parameters (see the
  introduction); their own code is not part of this model.
