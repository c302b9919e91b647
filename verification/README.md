# Verification of the asset optimizer

The service takes mesh optimization commands from a PGMQ queue, downloads a GLB from an object
store, optimizes it, uploads the result, and answers on a second queue. This project models its
delivery protocol and its text, path and tree algorithms, and proves what they promise.

## The delivery protocol

- `Errors`, `Validation`, `Events`: error chains and what the consumer reads off them, the checks on
  a job, the progress table and the result events.
- `Delivery`: one delivery as a partial state machine over its outside effects (fetch, store,
  enqueue, cancellation sample, delete, visibility change, archive). Every effect can land while its
  call reports a failure. The laws are about every effect sequence the machine accepts.
- `Script`: the handler's calls with the answers they got, as a log. It says which call comes when,
  which answer ends the pipeline with which reason, and what a log explains by itself.
- `Environment`, `Processor`, `Consumer`: the code itself, as classes that call a `World`. Each call
  may fail, and cancellation can come before it. A call may be made only where `Delivery` and `Script`
  have it, so verifying `Consumer.Process` shows that the code follows both on every path.
- `Cluster`: any number of deliveries over one command queue, result queue and store, with crashes,
  lost reads, expiring leases, redelivery and a clock in whole seconds. `ClusterSafety` holds the
  inductive invariant, `ClusterLaws` the safety and counting theorems, `ClusterLease` who holds a
  command when, `ClusterRetries` how long a command is tried, `ClusterProgress` that it never gets
  stuck, `ClusterTruth` and `ClusterDisturbed` exactly when completed results stay true, `ClusterIds`
  under which ids results are queued.
- `Shutdown`: `Start`, the workers and `Close`, interleaved in every way.
- `Backoff`: the retry delay in 64-bit arithmetic.

## The algorithms

- `InspectReport`, `Csv`, `InspectLaws`, `InspectMeaning`, `InspectRoundTrip`: the line-fed report parser
  as a class, against a fold over what each line means. `InspectMeaning` says what any report parses to
  without a parser, by the title and the header in force at each line; printing and parsing give back
  every number.
- `Options`, `ParticleArgs`: the arguments the service builds and the flag loop that reads them in the
  other program.
- `NestedIf`: the walk of the linter, against a definition by paths in the syntax tree.
- `FilePath`, `WorkDir`: lexical path cleaning, the removal guard, creation and stale cleanup over a
  file system object.
- `Strip`: the strip pass over a document graph, in place.
- `Wrappers`, `Folds`, `Int64`, `Strings`, `Decimals`: what the others share.

## Where the code and the expectation part

Each of these is stated as an exact condition.

- A completed result can become false: a delivery of another job may overwrite its source, and the
  redelivered job then makes another object under the same key. `TruthfulExactly`: results stay true
  in all runs if and only if no accepted command writes a key that an accepted command reads, and
  commands sharing an output key share source and options. Two jobs chained through one file, or two
  jobs with one output, break this; the validation only protects a job from itself.
- The validation does even that only if the key builder tells files apart (`SourcesSurviveExactly`).
- The retry delay is the intended one exactly for read counts up to 61, and for 63 (`DelayIsIntended`);
  from 62 on the product leaves 64 bits, and the delay is then 0 except at 63.
- The removal guard is confined to the root exactly when the cleaned root does not end in `..`
  (`ContainsExactly` for the cleaned paths, `ConfinesExactly` for where they lead), and lets the program's own directories go exactly when the cleaned root is
  neither `/` nor `.` (`ReleasesExactly`).
- The linter misses a nested `if` exactly when it stands in a function's signature, for example inside
  a function literal in an array length (`ReportsAllExactly`, `SignatureIsMissed`).
- Parsing two reports one after the other adds their numbers exactly when the second has no data rows
  before its first section title (`AdditiveExactly`).
- The order in which the linter prints its findings is determined exactly when findings at one displayed
  path and offset print alike (`OutputDeterminedExactly`; `SortDeterminedExactly` for the sorted list
  itself). Under one root this always holds (`OneRootIsDetermined`). With two roots it can fail: paths are
  displayed relative to their root, the sort looks only at path and offset, and it is not stable
  (`TwoRootsAreNot`).
- The results of one command are queued under one id in all runs exactly when it is not an accepted job
  whose id has white space around it (`OneIdExactly`). The publisher queues under the id in the event;
  a completion carries the trimmed id, a failure the id as it came. A failure that landed but was
  reported lost, followed by a completion, then leaves two ids. UUID parsing is a parameter here; the
  emptiness test is the only one that trims.
- `Close` can return while a late `Start` is still adding workers; those leave at their first select,
  and nothing touches the queue (`NothingAfterClose`).

## Assumptions

The environment's errors carry neither marker method. The optimizer's output depends on its input and
options only, and nobody else writes to the store. A call that reports success took effect; one that
reports failure may have. The script's number conversion reads
plain signed decimals exactly. Cancellation of a delivery's parent is never withdrawn.

## Model

| member | source | states |
|---|---|---|
| Errors.UnmarkedIsPlain | internal/mq/consumer.go:124-132 | an unmarked library error, wrapped or not, is neither terminal nor retryable, and has no reason of the pipeline |
| Errors.ReasonSurvives | internal/handler/handler.go:158-164 | the pipeline's reason is found under any number of wrappings |
| Errors.FirstAnswerExactly | internal/mq/consumer.go:124-132 | an error chain answers with its outermost link that has the method, and no link further in overrules it |
| Validation.AcceptedExactly | internal/handler/validation.go:26-120 | the checks accept exactly the jobs with valid ids, matching files, both targets under their built keys and valid options, and the accepted work has the trimmed id, the keys built for its two files and the requested options |
| Validation.SourcesSurviveExactly | internal/handler/validation.go:79-120 | no accepted job writes over its own source if and only if the key builder tells files apart |
| Options.OptionsFromEventKeeps | internal/optimizer/options.go:29-67 | accepted options are in range and give back the event they came from |
| Events.TableClimbs | internal/handler/events.go:22-47 | every prefix of the progress table counts from 1 and gains percentage; only the whole table shows 100 |
| Delivery.OneResultOneDisposition | internal/mq/consumer.go:82-122 | a delivery attempts one result if it has a job and none otherwise, and disposes of its message once |
| Delivery.JobOfExactly | internal/handler/handler.go:102-111 | a command has a job to answer for exactly when it is free of contract errors, of the configured type, with a payload that decodes to a job with a UUID that is not blank; an accepted job is worked on, any other is rejected |
| Delivery.DispositionExactly | internal/mq/consumer.go:82-122 | which disposition a delivery makes, told from its effects: a malformed message or one of another type is archived with no other effect; any other is given back with delay 0 if cancellation was seen, or else deleted if a result was acknowledged, or else retried after the backoff within the limit if it has a job, or else archived |
| Delivery.OutcomeEncoding | internal/handler/handler.go:102-156 | the handler's outcome is nil, terminal, retryable or plain exactly when an acknowledged completion, an acknowledged failure, an attempt reported failed, or no attempt is behind it |
| Delivery.CompletedIsStored | internal/handler/pipeline.go:112-143 | a completed result is published only after its output was uploaded with success, and the event names that file, its size and hash, and the vertex and triangle counts of source and output in their places |
| Delivery.ResultsAnswer | internal/handler/events.go:49-109 | every result carries the correlation id and identity of the command's job and its job id, as it came in a failure and trimmed in a completion |
| Delivery.DeletedAfterResult | internal/mq/consumer.go:97-106 | a delivery deletes its message only after a result for its job was acknowledged |
| Delivery.AnswersDoNotFail | internal/mq/consumer.go:99-121 | with a cancellation that stays, neither nil nor a terminal result reaches the failure branch |
| Delivery.WithdrawnCancellation | internal/mq/consumer.go:99-121 | with a cancellation that is withdrawn between the checks, a completed command is archived |
| Delivery.ArchivedWhenSpent | internal/mq/consumer.go:107-121 | a well-formed command is archived only by a delivery beyond the retry limit whose publish was reported failed |
| Delivery.FinishedIsFinal | internal/mq/consumer.go:134-160 | a delivery does nothing after its disposition |
| Delivery.RequeueingIsCancelled | internal/mq/consumer.go:107-114 | a message is given back at once only when cancellation was seen |
| Script.ReasonExactly | internal/handler/pipeline.go:44-144 | the recorded answers explain exactly the failure at which the pipeline stopped: a rejection is a recorded size above the limit, a missing source a failed lookup, a failed download a failed download or stat, and so on; while all goes well they explain none |
| Script.AnnouncedExactly | internal/handler/handler.go:123-156 | an accepted job is announced once: completed if and only if no call reported a failure and no size of the source is above the limit, otherwise failed with the one reason that the answers explain |
| Script.CompletedScript | internal/handler/pipeline.go:70-144 | before a completion every call and report of the pipeline was made, in this order, and answered well; the 100 percent report follows only an acknowledged one |
| Script.ReportsExactly | internal/handler/events.go:22-47 | the reports of a job are a prefix of the progress table whose length agrees with the result |
| Script.CleanedUpOnce | internal/handler/pipeline.go:44-57 | every work directory is cleaned up by one call, after the last call that can use it and before the result is announced |
| Processor.Processor.DownloadSource | internal/handler/pipeline.go:70-97 | the log explains the outcome: rejected only by a recorded size above the limit, not found exactly when the lookup failed, download failed exactly when the download or the stat failed, success exactly when all went well within the limit; then the source is fetched and on disk, in the work directory |
| Processor.Processor.ProduceOutput | internal/handler/pipeline.go:106-130 | inspects, optimizes, inspects, stats and hashes, each after its report; fails with OPTIMIZATION_FAILED exactly when one of these calls failed |
| Processor.Processor.OptimizeSource | internal/handler/pipeline.go:99-144 | success means the optimized object is stored and its sizes and hash are in the result; a failure has the one reason that the log explains |
| Processor.Processor.RunPipeline | internal/handler/pipeline.go:44-68 | the pipeline succeeds exactly when the log explains no failure, fails with the reason it explains, and has cleaned up its directory once on every path |
| Processor.Processor.PublishFail | internal/handler/events.go:99-120 | one failure result with the reason at which the pipeline stopped; a terminal error if it was acknowledged, a publish error if not, and never acknowledged once the job context is done |
| Processor.Processor.PublishComplete | internal/handler/handler.go:143-155 | one completed result; nil and the last progress report only if it was acknowledged, and no failure event otherwise |
| Processor.Processor.ProcessJob | internal/handler/handler.go:123-156 | the outcome says what was published, the result is the one the answers account for, reports and reason agree, the directory is cleaned up |
| Processor.Processor.HandleMeshJob | internal/handler/handler.go:102-121 | the same for every message body; with the job context done the outcome is never an acknowledgement |
| Consumer.Consumer.Process | internal/mq/consumer.go:82-122 | every path is one complete delivery of the protocol with monotone cancellation samples, the disposition its effects call for, and the result its answers account for: if the job is accepted, no call failed and the source is within the limit, the one result is a completion; otherwise a failure with its reason |
| Consumer.Consumer.Dispose | internal/mq/consumer.go:97-122 | the branches after the handler's return make exactly the disposition that the delivery's effects call for |
| ClusterSafety.AlwaysSound | internal/mq/consumer.go:65-122 | the joint invariant of queues, attempts and results holds in every reachable state |
| ClusterLaws.NoDeleteWithoutResult | internal/mq/consumer.go:97-106 | in every reachable state a deleted command has a result for its job in the result queue; if the job id has no white space around it, the result has exactly that id |
| ClusterLaws.Conservation | internal/mq/consumer.go:82-122 | in every reachable state a command is queued, deleted or archived, and only one of these |
| ClusterLaws.ArchivedOnlyWhenSpent | internal/mq/consumer.go:107-121 | in every reachable state an archived well-formed command was read more often than the retry limit, and the publish of the attempt that archived it was reported failed |
| ClusterLaws.EveryDispositionDecided | internal/mq/consumer.go:82-122 | in every reachable state each disposition of each attempt is the one its effects call for |
| ClusterLaws.CancelledGivesBack | internal/mq/consumer.go:107-114 | in every reachable state an attempt that saw its context cancelled has not deleted, archived or delayed its message, whether its result was acknowledged, reported lost or never attempted |
| ClusterLaws.EveryResultAnswers | internal/mq/publisher.go:31-58 | in every reachable state each result in the queue answers the command it was posted for, with the exact ids |
| ClusterIds.OneIdExactly | internal/mq/publisher.go:31-41 | all results of a command are queued under one id, in all runs, if and only if it is not an accepted job with white space around its id |
| ClusterIds.FailureThenCompletion | internal/handler/events.go:99-110 | the run in which such a command leaves two results under two ids |
| ClusterLaws.ResultsWithinReads | internal/mq/publisher.go:43-58 | over any run a command has no more results than reads |
| ClusterLaws.RetriesWithinLimit | internal/mq/consumer.go:115-121 | over any run a command is retried with a delay at most RetryLimit times, and waits at most 60 s per retry in all, 35 s for a limit of 3 |
| ClusterLease.LeaseExclusion | internal/mq/consumer.go:65-114 | within the margin no two live attempts hold one command, and a live attempt's row is hidden by its own read's lease |
| ClusterLease.LeasesSufficeExactly | internal/mq/consumer.go:65-114 | exclusion holds in all timely runs if and only if read time plus acknowledgement, and read time plus the 5 s requeue, stay under the minute |
| ClusterLease.RetryIsWaitedFor | internal/mq/consumer.go:107-120 | within the margin a message given back with a delay is not read, answered or lost, before the delay has run out, and can be read from then on |
| ClusterRetries.LeavesTheQueue | internal/mq/consumer.go:107-121 | in calm runs a command is read at most RetryLimit + 1 times, and is gone after the last |
| ClusterProgress.NeverStuck | internal/mq/consumer.go:82-122 | from every calm state some calm continuation deletes or archives the command |
| ClusterLease.TimelyRunsAreRuns | internal/mq/consumer.go:65-114 | runs that keep to the budget are runs, so the laws of all runs hold in them |
| ClusterTruth.StaysTruthful | internal/handler/pipeline.go:112-143 | with undisturbed commands every completed result's object is in the store with the size and hash of the event, in every reachable state |
| ClusterTruth.DistinctFilesSuffice | internal/handler/validation.go:79-120 | files of one's own that no other job reads are enough |
| ClusterDisturbed.TruthfulExactly | internal/handler/validation.go:79-120 | results stay true for every optimizer, store and run if and only if no accepted commands clash |
| ClusterDisturbed.Deliver | internal/handler/pipeline.go:44-68 | an undisturbed delivery leaves the optimized object and its completed result, and everything queued again once its lease is over |
| Shutdown.WaitGroupCountsWorkers | internal/mq/consumer.go:38-56 | the wait group counts the live workers and those being started; the channel is closed at most once |
| Shutdown.CloseReturnsQuiescent | internal/mq/consumer.go:162-166 | when Close returns no worker is live and every message read has had its disposition attempted |
| Shutdown.NothingAfterClose | internal/mq/consumer.go:55-80 | after a Close has returned nothing touches the queue, whatever is started or closed later |
| Shutdown.NobodyLeavesEarly | internal/mq/consumer.go:55-80 | without a cancellation or a close no worker leaves |
| Shutdown.LeavesExactly | internal/mq/consumer.go:57-68 | a worker leaves exactly at a select that finds the context done or the channel closed, and at a read that fails with the context done; at any other select it reads |
| Shutdown.CancelledStops | internal/mq/consumer.go:55-80 | once the context is cancelled no read starts, whatever is spawned later; the queue is touched at most once more for each worker then reading or processing, and messages come only to those reading |
| Shutdown.WindsDownInAnyOrder | internal/mq/consumer.go:55-80 | once the context is cancelled the workers stop after a bounded number of moves, in whatever order they move |
| Shutdown.CancelledWindsDown | internal/mq/consumer.go:38-80 | from a cancelled context on, some continuation without Close empties the wait group |
| Backoff.DelayIsIntended | internal/mq/consumer.go:116-117 | in 64 bits the delay is min(60, 5*2^(n-1)) exactly for read counts up to 61 and for 63 |
| Backoff.DelayRange | internal/mq/consumer.go:116-117 | the delay is never negative nor above a minute, and at least 5 s up to 61 reads |
| Backoff.DelayNeverShrinks | internal/mq/consumer.go:116-117 | up to 61 reads the delay does not shrink |
| Backoff.TotalDelayBound | internal/mq/consumer.go:116-117 | the delays up to a limit sum to at most 60 s each, 35 s in all for the default of 3 |
| InspectReport.InspectParser.Consume | internal/optimizer/inspect.go:52-75 | one line advances the parser's fields by what the line means |
| InspectReport.InspectParser.ApplyRow | internal/optimizer/inspect.go:86-108 | one data row counts in its section, with wrapping 64-bit sums; the names of the columns are pinned by `ParsedMeans` and `RoundTrip` |
| InspectReport.IndexHeaders | internal/optimizer/inspect.go:132-138 | the last column of each name |
| InspectReport.SplitList | internal/optimizer/inspect.go:153-166 | the trimmed names of a list without empty ones and none |
| InspectReport.ParseInspectCSV | internal/optimizer/inspect.go:29-44 | the loop over the lines is the fold over their meanings; Draco is set exactly when its extension is in either list |
| InspectMeaning.LineMeans | internal/optimizer/inspect.go:52-84 | which lines are skipped, titles, headers, data or malformed, told by their trimmed text |
| InspectMeaning.ParsedMeans | internal/optimizer/inspect.go:29-108 | what any report parses to: the number of data rows below each title, the 64-bit sums of the cells under the columns that the header in force names, and the last value of each overview key |
| InspectMeaning.NamesOnBothSides | internal/optimizer/inspect.go:153-166 | the names of a list are those of its parts on both sides of a comma, in order; with `OneName`, which says what a text without a comma gives, this determines the list |
| Csv.RecordRoundTrip | internal/optimizer/inspect.go:110-118 | a record written with fields quoted as in section 2 of RFC 4180 reads back as its fields |
| Csv.RecordExactly | internal/optimizer/inspect.go:110-118 | a line without line breaks is read as these fields if and only if it is a record of them written as in RFC 4180 |
| Csv.DecimalRoundTrip | internal/optimizer/inspect.go:185-207 | every 64-bit integer is read back from its decimal form |
| Csv.NumberOtherwise | internal/optimizer/inspect.go:185-207 | a cell that is not a signed decimal within 64 bits counts as 0 |
| InspectLaws.ParsedExactly | internal/optimizer/inspect.go:29-75 | a report is refused exactly when some line is a malformed record |
| InspectLaws.AdditiveExactly | internal/optimizer/inspect.go:35-74 | appending a report adds its counts and totals to every report exactly when it has no data rows before its first title |
| InspectLaws.PlusWithoutOverflow | internal/optimizer/inspect.go:92-100 | inside 64 bits these are the integer sums |
| InspectRoundTrip.RoundTrip | internal/optimizer/inspect.go:29-75 | parsing a printed report recovers every count, the total of each named column, each name list and the Draco flag |
| InspectRoundTrip.ListRoundTrip | internal/optimizer/inspect.go:153-166 | a printed extension list reads back as its names |
| InspectRoundTrip.ColumnOrderIrrelevant | internal/optimizer/inspect.go:132-138 | reordering table columns does not change what is parsed |
| ParticleArgs.ParseFlags | scripts/optimize-particle-mesh.mjs:47-73 | the index += 2 loop stops at the first bad pair or missing value, and otherwise holds the last value of each flag |
| ParticleArgs.ParseParticleMeshArgs | scripts/optimize-particle-mesh.mjs:34-93 | the parser's result for every argument list |
| ParticleArgs.AcceptsExactly | scripts/optimize-particle-mesh.mjs:38-92 | help exactly when asked for; otherwise exactly the complete lists of known pairs with values in range and all or nothing of simplify are accepted |
| ParticleArgs.ReturnsLast | scripts/optimize-particle-mesh.mjs:43-92 | accepted arguments give the first two as paths and the values of the last ratio and the last cap option, or no simplification if that is turned off |
| ParticleArgs.BoundsExactly | scripts/optimize-particle-mesh.mjs:24-32 | a ratio is accepted exactly above 0 and up to 1, an error cap exactly from 0 to 1 |
| ParticleArgs.OrderOfFlags | scripts/optimize-particle-mesh.mjs:47-92 | permuting the pairs keeps acceptance, and the result too when no flag repeats |
| ParticleArgs.ArgumentsRoundTrip | internal/optimizer/options.go:100-133 | for all paths that are not help flags the script accepts the built arguments exactly for percentages 1 to 100, and reads back the paths, the ratio and the error cap; 100 means no simplification |
| ParticleArgs.ErrorCapOrder | internal/optimizer/options.go:116-133 | the error cap is in (0, 1], does not grow with the percentage, and has these five steps |
| NestedIf.Visit | scripts/ci/no-nested-if.go:114-131 | the walk of a node appends what its subtree reports at this depth and keeps earlier findings |
| NestedIf.InspectIf | scripts/ci/no-nested-if.go:133-149 | an if statement reports itself when nested, then its parts; an else-if keeps the depth |
| NestedIf.VisitorMeetsSpecification | scripts/ci/no-nested-if.go:114-154 | the walk reports exactly the if nodes nested in an if of their function outside signatures, each once, in source order |
| NestedIf.SourceOrderIsUnique | scripts/ci/no-nested-if.go:114-149 | membership and source order determine the list |
| NestedIf.ReportsAllExactly | scripts/ci/no-nested-if.go:114-154 | every nested if is reported exactly when none stands in a function's signature |
| NestedIf.SignatureIsMissed | scripts/ci/no-nested-if.go:119-124 | a file with a nested if inside a function literal in an array length, for which nothing is reported |
| NestedIf.LessIsStrictWeakOrder | scripts/ci/no-nested-if.go:42-47 | the comparator is a strict weak order that ties exactly the findings at one path and offset; its direction is in `SortedMeans` |
| NestedIf.SortedMeans | scripts/ci/no-nested-if.go:42-47 | of any two findings in the sorted list the first has the smaller path, by its first differing character or as a proper prefix, or the same path and no larger offset |
| NestedIf.SortDeterminedExactly | scripts/ci/no-nested-if.go:42-47 | whatever the sort does with ties, the sorted list is determined if and only if no two findings at one path and offset differ |
| NestedIf.OutputDeterminedExactly | scripts/ci/no-nested-if.go:42-56 | the printed lines are determined if and only if findings at one path and offset have the same line and column |
| NestedIf.OneRootIsDetermined | scripts/ci/no-nested-if.go:29-56 | the findings of any files under one root are sorted and printed in one way |
| NestedIf.OneRootOrder | scripts/ci/no-nested-if.go:29-56 | under one root the findings come file by file in the order of their paths, with growing offsets in each |
| NestedIf.TwoRootsAreNot | scripts/ci/no-nested-if.go:29-56 | two files under two roots whose findings can be printed in two orders, with both outputs |
| NestedIf.FileReportIsSorted | scripts/ci/no-nested-if.go:97-112 | one file's findings come out sorted, no two at one offset |
| FilePath.JoinName | internal/workdir/workdir.go:36-41 | Clean(dir/name) is Clean(dir)/name for a plain name |
| FilePath.CleanTwice | internal/workdir/workdir.go:36-41 | cleaning keeps the components, so doing it again changes nothing |
| FilePath.CleanKeepsPlace | internal/workdir/workdir.go:36-41 | a cleaned path leads where the path leads, wherever the program runs |
| WorkDir.SanitizeIsClean | internal/workdir/workdir.go:65-72 | a sanitized id is never empty, has no separators and no dash at either end |
| WorkDir.SanitizeTwice | internal/workdir/workdir.go:65-72 | a sanitized id is left as it is by sanitizing again |
| WorkDir.SanitizeExactly | internal/workdir/workdir.go:65-72 | what sanitizing leaves of an id: the part between the outer separators, blanks and dashes, with the inner ones made dashes, or the fallback word |
| WorkDir.JobNameIsOneComponent | internal/workdir/workdir.go:31-34 | a job directory is one component with the prefix the sweep looks for, whatever the job id |
| WorkDir.JobNameShowsId | internal/workdir/workdir.go:31-34 | a job directory's name carries the sanitized id, with the random part after it or in place of its last star |
| WorkDir.GuardedExactly | internal/workdir/workdir.go:36-41 | the guard accepts exactly the paths whose components go on from the root's, at any depth, and nothing for a root that cleans to `/` or `.` |
| WorkDir.ContainsExactly | internal/workdir/workdir.go:36-41 | everything the guard accepts lies strictly below the root if and only if the cleaned root does not end in a parent step; all absolute roots qualify |
| WorkDir.ConfinesExactly | internal/workdir/workdir.go:36-41 | everything the guard accepts leads strictly below where the root leads if and only if the cleaned root does not end in a parent step |
| WorkDir.ReleasesExactly | internal/workdir/workdir.go:31-41 | the guard accepts every directory created for any job if and only if the cleaned root is neither the file system root nor the current directory |
| WorkDir.Manager.CreateJobWorkDir | internal/workdir/workdir.go:31-34 | adds one directory that the guard and the sweep recognise |
| WorkDir.Manager.CleanupJobWorkDir | internal/workdir/workdir.go:36-41 | removes only what the guard accepts, and fails then exactly when the removal failed |
| WorkDir.Manager.CleanupStaleWorkDirs | internal/workdir/workdir.go:43-63 | removes stale directories only, counts them, and takes all of them unless listing the root or removing one failed |
| Strip.Document.StripPrimitive | scripts/optimize-particle-mesh.mjs:132-140 | leaves POSITION and the indices; its targets are gone from every primitive |
| Strip.Document.StripMeshes | scripts/optimize-particle-mesh.mjs:124-142 | the nested loops strip every primitive of every mesh, and fail exactly when one has no POSITION |
| Strip.Document.StripParticleMeshPayload | scripts/optimize-particle-mesh.mjs:108-149 | the whole pass equals the stripped document, and fails exactly when a primitive has no POSITION |
| Strip.StripAllLeaves | scripts/optimize-particle-mesh.mjs:124-142 | the order of primitives, and meeting one in several meshes, make no difference |
| Strip.StrippableExactly | scripts/optimize-particle-mesh.mjs:124-132 | the pass goes through exactly when every primitive of every listed mesh has a POSITION |
| Strip.StripKeeps | scripts/optimize-particle-mesh.mjs:108-149 | only POSITION stays; names, links, indices and POSITION data are unchanged, everything else is gone |
| Strip.StripLeavesOthers | scripts/optimize-particle-mesh.mjs:124-142 | meshes and primitives that are not listed keep their attributes and indices |
| Strip.StripTwice | scripts/optimize-particle-mesh.mjs:108-149 | stripping again changes nothing |

## Left out

- PostgreSQL, PGMQ, S3, gltf-transform, Draco and meshoptimizer: abstract steps; the source of the PGMQ client is not part of this model.
- Telemetry, logging, spans, correlation headers, timestamps and processing times: no effect on outcomes.
- HTTP health endpoint, signals, wiring, environment loading, Docker and compose: plumbing.
- Protobuf and JSON encoding, UUID parsing, SHA-256 and the media key builder: parameters; decoding is partial.
- NewConsumer's and NewManager's argument checks: finite claims.
- Progress notification and its size limit: a signal is recorded, and whether it arrives is ignored, as by its sender.
- Errors.FirstAnswer: follows one cause per link; errors that join several causes are not modelled.
- BuildOptimizeArgs and the command-line runner: the same argument rules around another program.
- File and directory traversal of the linter, and Go parsing: the model starts from a tree in which every function declaration has a body.
- NestedIf.SortDeterminedExactly: the sort itself is the library's, and may leave any sorted permutation.
- NestedIf.OneRootIsDetermined: the traversal is taken to visit each file of a root once and to display different files under different paths.
- ParticleArgs.ArgumentsRoundTrip: ratios and caps are exact decimals; floating-point rounding is not modelled.
- Csv.RecordRoundTrip: fields contain no line break, since the parser splits at line breaks first.
- Strip.Document.StripParticleMeshPayload: properties attached by extensions, and the weld, prune and simplify steps around the pass, are not modelled.
- ClusterLease.LeaseExclusion: handlers that outlive their deadline are excluded by the timing hypothesis, and times are whole seconds.
- A worker's panic and a sleeping worker's delay: no state of their own.
