# Aragorn, verified

Aragorn runs suites of regression tests: a scheduler starts suites at intervals,
a runner retries, stops and reports their tests, HTTP tests substitute saved
documents into their URLs and check the responses, and gRPC tests load their
documents across files. This project models those parts and proves what they
promise. `dafny verify dfyconfig.toml` checks all of it.

| part | files |
|---|---|
| Scheduler as a step system, and the methods as runs of it | `SchedulerMachine`, `SchedulerSafety`, `SchedulerCancel`, `SchedulerStop`, `SchedulerPrompt`, `SchedulerLost`, `SchedulerNames`, `SchedulerRate`, `SchedulerDue`, `SchedulerImpl` |
| URL templates and percent-encoding | `Placeholders`, `PercentEncoding`, `Templating`, `UrlTemplates`, `UrlText` |
| JSON queries, responses, HTTP tests, saved documents | `Strings`, `Json`, `JsonQuery`, `JsonAddress`, `Response`, `HttpTest`, `MetadataFlow`, `HttpSuite`, `HttpRun` |
| Suites, reports, the exec command | `Notifier`, `RunSpec`, `SuiteConfig`, `SuiteRunner`, `Exec` |
| In-place rewriting of decoded JSON | `GoJson`, `RefFixing`, `RefFixer`, `DocLoading`, `DocOutcome`, `DocTermination`, `DocLoader` |

**Scheduler.** A state holds the job map, every job struct ever allocated, every
timer the runtime was given, the holder of the mutex, the clock and a log of run
starts and ends. A step is one action of one goroutine: a part of an API call
under the mutex, the clock, a timer firing, a callback entering or leaving
`Run`, re-arming, or assigning `j.timer`. Arming a timer and publishing it in
`j.timer` are separate steps, as they are in the code. The class `Scheduler` has
the real fields; its methods allow any number of clock, timer and callback steps
between their own, and its ghost history shows that every call is a run of the
step system, so the theorems about all runs hold of the methods.

**Templates.** The regular expression, the left-to-right replacer and the
query escaper are written out. A text is parsed into literal characters and
holes; the renderer over that parse is the reference to which the pipeline of
extraction, lookup and replacement is proved equal.

**Runner.** Outcomes, durations and cancellation are functions of a count of
observations (an attempt, a retry wait, a look at `ctx.Err()`), so each theorem
covers every outcome of every attempt and every moment of cancellation.
`HttpSuite` joins the runner with HTTP tests in one machine: the outcomes are what
the attempts log, and the requests depend on what earlier attempts saved.
`HttpRun` is the program of that machine, the runner's loops over real tests.

**Decoded JSON.** Maps and slices are nodes on the heap; a node's ghost model is
the document it stands for. The rewriting methods assign entries in place and
are proved against functions on documents.

## Findings

Where a promise of the code or of its documentation does not hold, the code is
modelled as it is, an input or a run is given on which it fails, and the exact
condition is proved.

- `Stop` can miss a job that has no callback in flight: a timer that fires
  before `j.timer` is assigned is later published over its successor
  (`SchedulerPrompt.StopCanMissAnIdleJob` is such a run). When timers are
  published before they fire, exactly the callbacks in flight escape
  (`SchedulerPrompt.PromptEscapesIffInFlight`); and whenever a timer of a
  registered job fires before its publication, some continuation ends in a
  `Stop` that misses the job (`SchedulerLost.UnpromptFireIsMissed`).
- `Stop` leaves `running` set, so a stopped scheduler cannot be started again,
  and jobs added afterwards are scheduled at once
  (`SchedulerStop.NeverStartsAgain`, `SchedulerImpl.Scheduler.StopThenStart`).
- Runs of one job struct never overlap, but runs of one name can: `Remove` while
  the job runs, and `Add` of the same name, leave two instances
  (`SchedulerNames.NamesCanOverlap` is such a run). It happens exactly when the
  older instance escaped its removal (`SchedulerNames.OlderLivesIffEscaped`).
- Replacing in the decoded path equals rendering the raw template, for all saved
  documents, if and only if percent-decoding spells no further placeholder with
  an extracted name (`HttpTest.PathCommutesIff`, for a printer that prints
  strings as themselves, as `fmt.Sprint` does). It fails for the raw path
  `{{a}}%7B%7Ba%7D%7D` with the document `{"a": "x"}` (`HttpTest.EncodedBracesDiffer`).
- A query panics exactly when it applies a negative index to an array, because
  only the upper bound is checked (`JsonQuery.PanicsIffNegativeIndex`); `a.-1`
  does on `{"a": []}` (`JsonQuery.NegativeIndexPanics`).
- `loadDoc` panics on an object under a key of another object, unless the inner
  one stands for a string, because the comparison `newVal != v` compares two
  maps. A document loads if and only if every file met can be read and there is
  no such object, here or in a file (`DocOutcome.LoadOutcome`); `{"a": {}}`
  panics (`DocOutcome.NestedObjectPanics`).
- A loaded document is free of references if and only if no object met on the
  way holds an object under `$ref` or `$raw`
  (`DocLoading.LoadedIsResolvedIffClean`); `{"$ref": {"$raw": "x"}}` loads to a
  reference (`DocLoading.DirtyDocument`).
- `exec` without `-failfast` overrides the `failFast` of a suite file named on
  the command line, and keeps it for one named in a configuration file
  (`SuiteConfig.ExecFailFast`).
- The README of aragorn says that failures are not retried; the code retries
  every attempt that logged an error. A comment in `server/suite.go` speaks of
  waiting n times the retry wait; the code waits it once between attempts. The
  model follows the code in both.

## Model

| member | source | states |
|---|---|---|
| SchedulerSafety.CancelKeeps | scheduler/job.go:30-34 | stopping a published timer leaves at most one armed timer or un-re-armed callback for every instance |
| SchedulerSafety.RearmKeeps | scheduler/job.go:24-27 | a callback that re-arms hands its one token to the new timer, so no instance ever has two |
| SchedulerSafety.StepKeepsInv | scheduler/scheduler.go:37-127 | no step of any API call, of the clock or of a callback breaks the invariant: references in range, one name per instance, one token per instance, nothing pending was ever scheduled before |
| SchedulerSafety.Reachable | scheduler/scheduler.go:21-34 | the invariant holds after every interleaving from a new scheduler |
| SchedulerSafety.SingleFlight | scheduler/job.go:22-28 | after any interleaving two different timers of one instance are never both armed or running, so its runs never overlap |
| SchedulerCancel.CancelEffect | scheduler/job.go:30-34 | a cancellation leaves its instance able to run exactly when it escapes (anything but the armed timer in j.timer), and affects no other instance |
| SchedulerCancel.DeadForever | scheduler/scheduler.go:119-126 | an instance without timer or callback never starts again, whatever is called or added later |
| SchedulerCancel.RunKeepsLive | scheduler/job.go:22-28 | nothing but its own cancellation takes an instance out of circulation, over any run |
| SchedulerCancel.StartsAgainIffLive | scheduler/job.go:22-34 | having a timer or un-re-armed callback is exactly being able to start again by clock and callbacks alone |
| SchedulerCancel.CancellationIsExact | scheduler/scheduler.go:115-127 | an instance that escapes `Stop` or `Remove` can start again after every continuation that does not cancel it again; one that does not escape never starts again |
| SchedulerCancel.ReachedOnce | scheduler/scheduler.go:57-60 | the loop of `Stop` reaches each of its jobs at one moment, and what the job can do afterwards is decided at that moment |
| SchedulerCancel.StopIsExact | scheduler/scheduler.go:57-59 | each job that the loop of `Stop` ranges over can start again afterwards iff it escaped when the loop cancelled it, callbacks interleaved at will |
| SchedulerCancel.QuietForever | scheduler/job.go:22-34 | a state without armed timers and callbacks stays one, and no run starts or ends, unless a job is added |
| SchedulerStop.RemovalDecides | scheduler/scheduler.go:119-126 | whether a removed instance can ever run again is decided when it is removed, whatever is called later |
| SchedulerStop.NamelessWasRemoved | scheduler/scheduler.go:125 | an allocated instance under no name was removed at some step of the run |
| SchedulerStop.StopDecides | scheduler/scheduler.go:51-61 | after a complete `Stop` in any run, of all instances ever allocated exactly those can start again that escaped this `Stop` or, removed earlier, escaped their `Remove` |
| SchedulerStop.QuietIffNoneEscaped | scheduler/scheduler.go:51-61 | a complete `Stop` leaves no timer armed and no callback behind iff nothing escaped it or an earlier `Remove` |
| SchedulerStop.StopSilences | scheduler/scheduler.go:51-61 | if nothing escaped, no run ever starts again unless a job is added |
| SchedulerStop.NeverStartsAgain | scheduler/scheduler.go:40-42 | once `running` is set, `Start` is refused in every continuation |
| SchedulerPrompt.PromptRunKeeps | scheduler/job.go:24 | if timers are published before they fire, every armed timer is in j.timer or about to be |
| SchedulerPrompt.PromptEscapesIffInFlight | scheduler/job.go:22-34 | under the same condition, the instances that escape a cancellation are exactly those with a callback in flight |
| SchedulerPrompt.StopCanMissAnIdleJob | scheduler/scheduler.go:51-61 | a run in which `Stop` cancels a job with no callback in flight and the job can start again |
| SchedulerLost.UnpromptFireIsMissed | scheduler/job.go:24-27 | whenever a timer of a registered job fires before its publication, some continuation ends in a complete `Stop` that misses the job with none of its callbacks in flight |
| SchedulerNames.OlderLivesIffEscaped | scheduler/scheduler.go:65-127 | of the instances added under one name, one that is not the latest still has a timer or a callback exactly when it escaped its removal |
| SchedulerNames.NamesCanOverlap | scheduler/scheduler.go:115-127 | a run in which two instances added under one name are inside `Run` at once |
| SchedulerRate.AlwaysPaced | scheduler/job.go:22-41 | in every reachable state each instance's starts and ends alternate and its one timer is due late enough |
| SchedulerRate.RunsAlternate | scheduler/job.go:22-41 | a run starts no earlier than the end of the run before it plus the interval |
| SchedulerRate.RateBound | scheduler/job.go:22-41 | any window of length T holds at most T/interval + 1 starts of an interval job, in every interleaving |
| SchedulerDue.DueAfterInterval | scheduler/job.go:22-41 | in every run from the start, each timer of an interval job was armed at some step to be due the clock of that step plus the interval, and keeps that deadline while it is armed |
| SchedulerDue.StartsAgainOnTime | scheduler/job.go:22-41 | after every run of an interval job, re-arming waits the interval and nothing else, and a continuation starts the next run exactly then |
| SchedulerDue.PunctualRunsArePeriodic | scheduler/job.go:22-41 | over every run in which time passes only while no timer is overdue and no callback is kept waiting, each run starts exactly the interval after the end of the run before it |
| SchedulerImpl.Scheduler.constructor | scheduler/scheduler.go:30-34 | a new scheduler is the initial state, with an empty history |
| SchedulerImpl.Scheduler.Interfere | scheduler/job.go:24-27 | what clock, timers and callbacks can do between two actions of a method: any such run; the guarded fields stay and no job loses its token |
| SchedulerImpl.Scheduler.Schedule | scheduler/job.go:22-41 | a job with a usable delay gets its token, an interval job's timer is due the interval after the call, and which others have one is as before; without interval and cron expression it panics |
| SchedulerImpl.Scheduler.ScheduleAll | scheduler/scheduler.go:43-45 | the loop gives every registered job a timer, in whatever order, each interval job's due its interval after a moment of the call; or it panics at a job without a usable delay |
| SchedulerImpl.Scheduler.Start | scheduler/scheduler.go:37-48 | a second start is an error and changes nothing; otherwise exactly the registered jobs can run, each interval job first due its interval after a moment of the call, or the call panics iff some job has no usable delay |
| SchedulerImpl.Scheduler.Stop | scheduler/scheduler.go:51-61 | `running` and the job map stay; of all instances ever allocated exactly those can start again that escaped this call or an earlier removal |
| SchedulerImpl.Scheduler.StopThenStart | scheduler/scheduler.go:37-61 | a start after a completed stop is refused |
| SchedulerImpl.Scheduler.CancelOne | scheduler/scheduler.go:57-59 | one round of the loop of `Stop` under interference is a run that cancels one job |
| SchedulerImpl.Scheduler.Store | scheduler/scheduler.go:73-83 | the name is bound to a new instance, which can run iff the scheduler is running, an interval job then being armed between old(now) + interval and now + interval; which others can run is as before |
| SchedulerImpl.Scheduler.Add | scheduler/scheduler.go:65-84 | a known name is refused and changes nothing; a new job can run iff `running` is set, and is then armed for the interval after a moment of the call; which others can run is as before; a non-positive interval panics only when running |
| SchedulerImpl.Scheduler.AddCron | scheduler/scheduler.go:88-112 | as `Add`, with the parse error reported only for a new name and without a change |
| SchedulerImpl.Scheduler.Remove | scheduler/scheduler.go:115-127 | the name goes; the instance can still run iff it escaped; no other instance is affected |
| Strings.JoinSplit | testsuite/httpexpect/response.go:157-161 | joining the pieces of a query gives the query back |
| Strings.SplitJoin | testsuite/httpexpect/response.go:157-161 | splitting joined dot-free keys gives the keys back |
| Strings.SplitConcat | testsuite/httpexpect/response.go:157 | splitting distributes over a separator |
| Strings.AtoiItoa | testsuite/httpexpect/response.go:173-175 | a printed array index or length is read back as itself, within 64 bits |
| Strings.AtoiExact | testsuite/httpexpect/response.go:175-178 | a key is an index iff it is an optional sign and decimal digits spelling a number within 64 bits, and it is that number |
| Strings.ItoaIsDecimal | testsuite/httpexpect/response.go:173 | the printed length is decimal notation, digit by digit |
| JsonQuery.QueryJSONData | testsuite/httpexpect/response.go:155-166 | the loop computes the key-by-key walk, with the failing prefix joined as reported |
| JsonQuery.QueriesCompose | testsuite/httpexpect/response.go:155-166 | the query p.q is q asked of the answer to p, with failures reported below p |
| JsonQuery.WalkStops | testsuite/httpexpect/response.go:158-164 | a query that does not answer has one key at which it stops, and answers at every shorter prefix |
| JsonQuery.FailureIsShortest | testsuite/httpexpect/response.go:158-164 | the reported path is the shortest failing dot-prefix; it fails for the reported reason and all shorter prefixes succeed |
| JsonQuery.PanicsIffNegativeIndex | testsuite/httpexpect/response.go:175-182 | a query panics exactly when one of its keys is a negative index into an array |
| JsonQuery.NegativeIndexPanics | testsuite/httpexpect/response.go:175-182 | a query and a document on which it does |
| JsonQuery.AddressingComplete | testsuite/httpexpect/response.go:155-191 | every node below dot-free keys and 64-bit indices is returned by the query that spells its path |
| JsonQuery.AddressingSound | testsuite/httpexpect/response.go:155-191 | whatever a query returns is a node of the document or the length of one of its arrays |
| JsonAddress.QueryIff | testsuite/httpexpect/response.go:155-191 | a query has the value v iff its keys match, edge by edge, a path to v (a field by its name, an item by a numeral of its index below the length), or end in "length" after an array of that length |
| JsonAddress.FailureReason | testsuite/httpexpect/response.go:155-191 | a query without a value stops at a key looked up in the value that the keys before it lead to: out of bounds iff the index is at least the length, an invalid index iff the key of an array is no integer, not found iff the key is absent, an invalid type iff a scalar is descended into |
| JsonAddress.QueryPanicsIff | testsuite/httpexpect/response.go:175-182 | a query panics iff a key is a negative index into the array that the keys before it lead to |
| JsonAddress.PastTheEnd | testsuite/httpexpect/response.go:179-181 | `items.5` on an array of two fails at `items.5`, out of bounds |
| Placeholders.ExtractedIffSpelled | testsuite/httpexpect/config.go:21 | a text in double braces is extracted iff it is not empty and spelled with `0-9`, `A-Z`, `a-z`, '.', '_' and '-' |
| Placeholders.MatchIsPlaceholder | testsuite/httpexpect/config.go:21 | what the regular expression matches is a quoted name |
| Placeholders.PrefixFree | testsuite/httpexpect/config.go:21 | no placeholder is a proper prefix of another |
| Placeholders.ParseFlattens | testsuite/httpexpect/config.go:152-153 | a template is the text it was parsed from |
| Placeholders.ParseUnique | testsuite/httpexpect/config.go:152-153 | a text is a template in one way only |
| Placeholders.ScanFindsHoles | testsuite/httpexpect/config.go:152-153 | the scan extracts exactly the holes, in order |
| Placeholders.NoOverlap | testsuite/httpexpect/config.go:21 | two placeholders in a text never overlap |
| Placeholders.OccurrencesAreHoles | testsuite/httpexpect/config.go:152-153 | every occurrence of a placeholder anywhere in the text is a hole: the scan misses none |
| Placeholders.HolesAreOccurrences | testsuite/httpexpect/config.go:152-153 | every hole is an occurrence of its placeholder |
| PercentEncoding.EscapeRoundTrip | testsuite/httpexpect/httpexpect.go:99 | decoding an escaped value gives the value back (section 2.1 of RFC 3986) |
| PercentEncoding.DecodeEscaped | testsuite/httpexpect/httpexpect.go:99 | the same whatever text follows the value |
| PercentEncoding.EscapeAlphabet | testsuite/httpexpect/httpexpect.go:99 | escaped values consist of unreserved bytes, '%' and '+' |
| PercentEncoding.EscapeExact | testsuite/httpexpect/httpexpect.go:99 | a byte is escaped to itself if it is a letter, a digit or one of "-_.~", a space to "+", any other to '%' and two upper-case hexadecimal digits |
| PercentEncoding.EscapeConcat | testsuite/httpexpect/httpexpect.go:99 | values are escaped byte by byte |
| PercentEncoding.DecodesIffWellFormed | testsuite/httpexpect/config.go:152 | a text does not decode iff it holds a '%' that two hexadecimal digits do not follow |
| PercentEncoding.DecodeEscape | testsuite/httpexpect/config.go:152 | '%' and two hexadecimal digits of either case decode to the byte they spell |
| PercentEncoding.DecodeOther | testsuite/httpexpect/config.go:152 | any other byte decodes to itself, '+' to a space only in queries |
| Templating.MatchIsAssigned | testsuite/httpexpect/httpexpect.go:89 | at any position at most one pair of the table can match, so the order of the pairs does not matter |
| Templating.ReplaceIsRender | testsuite/httpexpect/httpexpect.go:89 | the left-to-right replacer renders the parsed template, copying unknown placeholders whole |
| Templating.TableAssigns | testsuite/httpexpect/httpexpect.go:81-88 | the table assigns exactly the extracted names that resolve |
| Templating.SubstituteRenders | testsuite/httpexpect/httpexpect.go:80-101 | extracting from one text and replacing in another renders the other with the extracted names |
| Templating.PipelineRenders | testsuite/httpexpect/httpexpect.go:80-101 | extraction, lookup and replacement render the template: each resolvable hole once, the rest unchanged, nothing inserted is expanded again |
| Templating.DecodeCommutes | testsuite/httpexpect/httpexpect.go:89-90 | percent-decoding a text decodes exactly the literals of its template |
| UrlTemplates.DecodedPathKeepsPlaceholders | testsuite/httpexpect/config.go:152 | every placeholder extracted from the raw path occurs literally in the decoded path |
| UrlTemplates.PathRenders | testsuite/httpexpect/httpexpect.go:80-90 | if decoding creates no placeholder of an extracted name, the new path is the raw template rendered with decoded literals |
| UrlTemplates.EncodedBracesConjure | testsuite/httpexpect/config.go:152 | a raw path whose decoding creates a placeholder of an extracted name |
| HttpTest.SavedDocumentsBreakPath | testsuite/httpexpect/httpexpect.go:80-90 | if decoding creates a placeholder of an extracted name, some saved documents alone give another path |
| HttpTest.PathCommutesIff | testsuite/httpexpect/httpexpect.go:80-90 | with a printer that prints strings as themselves, the path equals the rendered raw template for all saved documents if and only if decoding creates no placeholder of an extracted name |
| HttpTest.EncodedBracesDiffer | testsuite/httpexpect/httpexpect.go:80-90 | one raw path and one saved document for which the path is another |
| UrlTemplates.RenderAround | testsuite/httpexpect/httpexpect.go:92-101 | rendering a query divided by a structural byte renders its two sides |
| UrlTemplates.QueryStructureKept | testsuite/httpexpect/httpexpect.go:92-101 | splitting the rendered query at a structural byte gives the renderings of the parts of the original |
| UrlTemplates.AmpersandAndEqualsAreStructural | testsuite/httpexpect/httpexpect.go:99 | '&' and '=' are such bytes |
| UrlTemplates.RenderedQueryDecodes | testsuite/httpexpect/httpexpect.go:92-101 | with well-formed literals, decoding the rendered query gives the decoded literals interleaved with the printed values |
| UrlText.RenderSpelled | testsuite/httpexpect/httpexpect.go:80-101 | rendering copies literal text and replaces each placeholder by its name's value, or copies it if there is none |
| UrlText.DecodedSpelled | testsuite/httpexpect/httpexpect.go:89-90 | the decoded template holds the decoded literal text before a placeholder, the placeholder, and the rest decoded |
| HttpTest.LookupResolves | testsuite/httpexpect/httpexpect.go:82-86 | a name's value is the printed node that its keys lead to, and a name that leads to none has no value |
| HttpTest.IssueRenders | testsuite/httpexpect/httpexpect.go:80-101 | the path sent is the parsed path rendered with the values of the names in the raw path, and the decoded raw template rendered if decoding creates no placeholder; the raw path is dropped iff it has a placeholder; the query sent is the parsed query rendered with escaped values; a URL without placeholders is unchanged |
| HttpTest.UrlPanicsIff | testsuite/httpexpect/httpexpect.go:80-101 | the substitution panics iff a placeholder of the URL applies a negative index to a saved array |
| UrlText.SavedIdIsSent | testsuite/httpexpect/httpexpect.go:80-101 | the path `/users/{{login.id}}` is sent with a saved id as it is, and `t={{login.id}}&u={{login.no}}` with the id escaped and the unsaved name left alone |
| Response.FaultsOfHead | testsuite/httpexpect/response.go:39-81 | a wrong status is logged iff the status differs from an expected one; each header is logged as missing iff its value is empty and as wrong iff it is another, under the right status only |
| Response.FaultsOfBody | testsuite/httpexpect/response.go:54-137 | when exactly an undecodable body, a document mismatch, a schema failure, a query without a value and a query with a wrong value are logged |
| Response.NoFaultsIffMeets | testsuite/httpexpect/response.go:39-137 | there is nothing to report iff status, headers, document, schema, every value and decodability for saving hold of a fresh decode |
| Response.Response.UnmarshalJSONBody | testsuite/httpexpect/response.go:139-152 | the cached document is a fresh decode, and the decode failure is logged at most once over all checks, also for bodies that decode to nil |
| Response.Response.CheckHeader | testsuite/httpexpect/response.go:73-81 | logs each missing or wrong header once, in whatever order |
| Response.Response.MatchDocument | testsuite/httpexpect/response.go:84-97 | logs a mismatch with the expected bytes or document, judged on a fresh decode |
| Response.Response.MatchJSONSchema | testsuite/httpexpect/response.go:100-119 | logs one schema failure iff the freshly decoded body does not validate |
| Response.Response.CheckValue | testsuite/httpexpect/response.go:128-135 | one query is logged at most once, and panics iff its lookup does |
| Response.Response.ContainsJSONValues | testsuite/httpexpect/response.go:123-137 | logs each query that fails or differs once, in whatever order, or panics |
| Response.Response.RunChecks | testsuite/httpexpect/response.go:54-69 | together the checks log each fault of the response once |
| Response.CheckResponse | testsuite/httpexpect/response.go:39-70 | the log gains exactly the faults judged on fresh decodes, each once; the document is saved iff the status is right, saving is asked for and the body decodes; it panics iff, under the right status, one of the queries does |
| HttpTest.Request.WithContext | testsuite/httpexpect/httpexpect.go:76 | assumption on net/http: a copy with its own URL |
| HttpTest.Test.constructor | testsuite/httpexpect/config.go:150-153 | the prepared placeholders are those of the prepared URL |
| HttpTest.Test.CloneRequest | testsuite/httpexpect/httpexpect.go:124-138 | equal headers in a fresh map; the URL is shared |
| HttpTest.BuildPair | testsuite/httpexpect/httpexpect.go:95-99 | nothing for a name that does not resolve, one pair otherwise, a panic iff the lookup panics |
| HttpTest.BuildTable | testsuite/httpexpect/httpexpect.go:81-88 | the loop builds the table of the resolvable placeholders, or panics iff one of the lookups does |
| HttpTest.Test.BuildRequest | testsuite/httpexpect/httpexpect.go:75-103 | the request has the prepared header and body and the rendered URL: path, raw path and query as in IssueRenders; it panics iff a placeholder applies a negative index; nothing reachable from the prepared request is written |
| HttpTest.Test.Run | testsuite/httpexpect/httpexpect.go:75-120 | one attempt: the rendered URL is requested, each fault is logged once, the document is saved iff the status is right, saving is asked for and the body decodes; it panics iff a placeholder or a value query applies a negative index |
| HttpTest.NothingToRender | testsuite/httpexpect/httpexpect.go:92 | skipping a query without placeholders changes nothing |
| MetadataFlow.DocsAreLatest | testsuite/httpexpect/response.go:64-69 | an id is known iff an earlier attempt saved under it, and holds the document of the latest one |
| HttpSuite.RunAt | server/suite.go:188 | an attempt within a run logs its outcome, issues its request and saves its document as the joint machine of runner and tests does |
| HttpSuite.RunnerAgrees | server/suite.go:160-177 | the attempts that the retry loop makes are those that what the tests log calls for, and a report holds what its test's last attempt logged |
| HttpSuite.PassedIffMet | server/suite.go:195 | a report is empty iff the response to the test's last attempt met every expectation |
| HttpSuite.SuiteVerdict | server/suite.go:138-156 | without cancellation a suite reports no failure iff every test was run and the response to its last attempt met every expectation |
| HttpSuite.MetadataOfRun | server/suite.go:141-143 | at every point of a run the metadata is what the attempts before saved, starting empty, and each request was rendered with it |
| HttpSuite.RequestOfAttempt | server/suite.go:160-188 | every recorded attempt requests its URL rendered with what the attempts before it saved |
| HttpRun.RunTestWithRetry | server/suite.go:160-177 | the retry loop over a real test takes the joint machine's steps: attempts, waits, requests, saved documents, the last attempt's log, and a panic exactly where the machine has one |
| HttpRun.RunTests | server/suite.go:138-156 | the loop over real tests is a complete run of the joint machine: its reports hold the last attempts' logs, its requests were rendered with what earlier attempts saved, and the documents are what all attempts saved, also when an attempt panics |
| HttpRun.RunTwice | server/suite.go:138-156 | with the same responses a second run of the same tests gives the same reports, requests, documents and panic |
| Notifier.Report.NewTestReport | notifier/notifier.go:38-45 | an empty report of the test is appended |
| Notifier.TestReport.Errorf | notifier/notifier.go:62-64 | the error is appended |
| Notifier.TestReport.Reset | notifier/notifier.go:66-68 | the errors are forgotten |
| RunSpec.RetriedMeans | server/suite.go:160-177 | a test is attempted once, and again up to the retry count as long as it fails and no wait is ended by the context; the report holds what the last attempt logged |
| RunSpec.CompleteMeans | server/suite.go:138-156 | tests follow each other unless the last failed under fail-fast or the context was done after it, and only these leave tests out |
| RunSpec.CountFailedCounts | server/suite.go:143-145 | the failure count is the number of reports that hold an error |
| RunSpec.RetriedUnique | server/suite.go:160-177 | the outcomes determine how often a test is attempted and what its report holds |
| RunSpec.RunUnique | server/suite.go:138-156 | outcomes and cancellation determine the whole sequence of reports |
| RunSpec.NoneFailed | server/suite.go:143-145 | the failure count is zero iff no report holds an error |
| RunSpec.FailFastOnlyLast | server/suite.go:144-150 | under fail-fast at most the last report is failed |
| RunSpec.UncancelledRun | server/suite.go:138-156 | without cancellation only fail-fast cuts a run short, a failed test used all its attempts, and no failure means every test ran and passed |
| RunSpec.SpentBound | server/suite.go:160-177 | a test whose attempts respect the timeout and whose waits the retry wait takes at most max(1,n) timeouts and max(1,n)-1 retry waits |
| RunSpec.ElapsedBound | server/suite.go:138-177 | a run takes at most that for each reported test |
| SuiteConfig.LayeringTakesLast | server/suite_option.go:44-65 | over any sequence of configurations each duration and count is the last positive one, each name the last nonempty one, and failFast is the disjunction |
| SuiteConfig.FiltersConjoin | server/suite_option.go:66-78 | filtering by one configuration after the other keeps the tests that pass all filters |
| SuiteConfig.FilterKeepsOrder | server/suite_option.go:71-77 | a filter keeps exactly the matching tests, in order |
| SuiteConfig.ExecOptionsApplied | cmd/aragorn/exec.go:49-56 | the options of exec replace failFast and the filter, and the timeout if positive |
| SuiteConfig.ExecFailFast | cmd/aragorn/exec.go:49-72 | the suite file's failFast is kept for suites from a configuration file and overridden for suites from the arguments |
| SuiteConfig.EntryOverFile | cmd/aragorn/exec.go:49-66 | for a suite from a configuration file a positive timeout of exec wins, then the entry's settings, then the suite file's |
| SuiteConfig.OptionsOverFile | cmd/aragorn/exec.go:49-72 | for a suite from the arguments a positive timeout of exec wins, then the suite file's settings |
| SuiteConfig.ExecFilter | cmd/aragorn/exec.go:49-56 | the filter of exec replaces any other: it is an error iff it is nonempty and does not compile, and keeps the tests whose names match, or all if it is empty |
| SuiteConfig.PassesEveryFilter | server/suite_option.go:66-78 | a test passes all filters iff its name matches every nonempty one |
| SuiteRunner.Suite.KeepMatching | server/suite_option.go:71-77 | compacting the slice over its own backing array keeps the matching tests in order |
| SuiteRunner.Suite.ApplyKnobs | server/suite_option.go:45-65 | the scalar settings are layered |
| SuiteRunner.Suite.ApplyConfig | server/suite_option.go:44-80 | settings layered and tests filtered; a filter that does not compile is an error and leaves the tests |
| SuiteRunner.Suite.ApplyConfigs | server/suite_option.go:44-80 | after any sequence of configurations the tests are the ordered subsequence that passes all filters |
| SuiteRunner.Suite.RunTest | server/suite.go:179-212 | one attempt appends the errors it logs and succeeds iff the report is empty |
| SuiteRunner.Suite.RunTestWithRetry | server/suite.go:160-177 | at least one and at most max(1,n) attempts, stopping at the first success or at cancellation; the report holds exactly the last attempt's errors |
| SuiteRunner.Suite.RunNext | server/suite.go:143-153 | one round of the loop reports the test, counts it iff it failed, and stops exactly at fail-fast or cancellation |
| SuiteRunner.Suite.RunTests | server/suite.go:138-156 | the reports are those of a prefix of the tests, proper only through fail-fast or cancellation, with an exact failure count and duration |
| SuiteRunner.RunTimeBound | server/suite.go:160-189 | if the attempts that were made respect the timeout and the waits the retry wait, a run takes at most tests × (max(1,n)·timeout + (max(1,n)−1)·retryWait) |
| Exec.Verdict | cmd/aragorn/exec.go:87 | a report counts no failure iff no test failed, and without cancellation iff every test ran and passed |
| Exec.RunSuite | cmd/aragorn/exec.go:83 | the report of a suite names its tests in order, with the errors and the failure count of the run |
| Exec.ExecSuites | cmd/aragorn/exec.go:80-95 | nil iff every suite ran and none reported a failure, which without cancellation is every test of every suite passing; each report is notified; with failfast they end at the first failing suite |
| RefFixing.FixIdempotent | testsuite/httpexpect/config.go:253-279 | a second pass over a schema changes nothing |
| RefFixing.FixKeepsShape | testsuite/httpexpect/config.go:253-279 | away from `$ref` keys every scalar stays as it is, every array keeps its length and every object its keys, at all depths |
| RefFixing.FixAtRef | testsuite/httpexpect/config.go:255-265 | a string `$ref` without "://" whose absolute path is p becomes `file://` and p; any other value, and everything below a `$ref` key, stays |
| RefFixer.FixRefInInterface | testsuite/httpexpect/config.go:270-279 | rewriting any decoded value in place gives the fixed document, on the same nodes |
| RefFixer.FixRefInSlice | testsuite/httpexpect/config.go:272-275 | every item is rewritten in place |
| RefFixer.FixRefInDoc | testsuite/httpexpect/config.go:253-268 | assigning entries while ranging over the map, in whatever order, gives the fixed document |
| RefFixer.FixEntry | testsuite/httpexpect/config.go:254-267 | one iteration over the map changes that entry only, as its key calls for |
| RefFixer.FixKid | testsuite/httpexpect/config.go:266 | rewriting one child changes the document at that edge only |
| RefFixer.FixOneRef | testsuite/httpexpect/config.go:255-264 | the `$ref` entry becomes `file://` and the absolute path if it is a string without "://" that has one, and stays otherwise |
| GoJson.Decode | pkg/util/json/json.go:29-39 | decoding builds a fresh tree that stands for the document |
| GoJson.Attach | testsuite/grpcexpect/config.go:170 | assigning one entry of a container whose other children are intact gives a tree again, changed at that edge only |
| GoJson.Detached | testsuite/grpcexpect/config.go:166-170 | whatever happens below one edge of a tree leaves its other children intact |
| DocLoading.LoadItems | testsuite/grpcexpect/config.go:164-172 | an array loads iff all its items do, to the array of the loaded items |
| DocLoading.LoadItemFails | testsuite/grpcexpect/config.go:166-168 | the first item that fails fails the array, in its way |
| DocLoading.FieldsLoad | testsuite/grpcexpect/config.go:189-198 | an object whose fields load, none from a map to a map, loads to the object of the loaded fields |
| DocLoading.FieldsOutcome | testsuite/grpcexpect/config.go:189-198 | whether an object loads, and whether it may give an error or a panic, is decided by its fields, each of which may be met first |
| DocLoading.FieldFails | testsuite/grpcexpect/config.go:189-198 | a field that fails, or a map that stays a map, can fail the object in the same way |
| DocLoading.ObjectLoads | testsuite/grpcexpect/config.go:173-222 | an object that refers to a raw file loads to the base64 text of the file's bytes, one that refers to another file to what its contents load to in its own directory, a raw string to its base64 text, any other to its loaded fields; a file that cannot be read is an error |
| DocLoading.LoadKeepsKind | testsuite/grpcexpect/config.go:162-201 | a scalar loads to itself, an array to an array, an object to a string or an object |
| DocLoading.LoadFields | testsuite/grpcexpect/config.go:189-198 | a loaded object has the same keys, holds no object, and a string where a string or an object was |
| DocLoading.LoadedIsResolvedIffClean | testsuite/grpcexpect/config.go:162-201 | a loaded document has no string `$ref` or `$raw` iff no object met here or in a file holds an object under those keys |
| DocOutcome.LoadsToString | testsuite/grpcexpect/config.go:174-188 | an object that loads becomes a string iff it is a raw string, a raw file, or refers to a file that holds such an object |
| DocOutcome.LoadOutcome | testsuite/grpcexpect/config.go:162-215 | every document: it loads iff every file met can be read and every object under a key stands for a string; an error means the first fails, a panic the second |
| DocOutcome.OneCause | testsuite/grpcexpect/config.go:162-215 | with every file readable the load panics iff an object under a key stands for no string; with none such it gives an error iff a file cannot be read |
| DocOutcome.NestedObjectPanics | testsuite/grpcexpect/config.go:194-195 | a document that panics |
| DocLoading.LoadIdempotent | testsuite/grpcexpect/config.go:162-201 | loading the result for a clean document succeeds from any directory and changes nothing |
| DocLoading.DirtyDocument | testsuite/grpcexpect/config.go:174-188 | a document whose loaded form is again a reference |
| DocLoading.RankIrrelevant | testsuite/grpcexpect/config.go:203-215 | the result does not depend on the ranking that shows termination |
| DocTermination.RankedIffWithin | testsuite/grpcexpect/config.go:203-215 | what the proof of termination asks for, a ranking of the files that a document leads to, exists exactly when its chains of references are of bounded length |
| DocTermination.CircularIsEndless | testsuite/grpcexpect/config.go:203-215 | from files that are references to each other the chain of files to read is longer than any bound |
| DocLoader.LoadDoc | testsuite/grpcexpect/config.go:162-201 | terminates, by file rank and document size, when the files the document leads to are acyclic; gives the loaded document, or an error or panic that the load allows; a raw file gives the base64 text of its bytes, a raw string its own, a scalar itself, an unreadable file an error |
| DocLoader.LoadKid | testsuite/grpcexpect/config.go:189-197 | loading one child and writing it back changes the document at that edge only, or fails as the child does |
| DocLoader.LoadSlice | testsuite/grpcexpect/config.go:164-172 | writing each item back while ranging over the slice gives the loaded array, on the same slice |
| DocLoader.LoadObject | testsuite/grpcexpect/config.go:173-199 | file reference, raw file, raw string and plain object are told apart; a raw file gives the base64 text of its bytes, a raw string its own, an unreadable file an error |
| DocLoader.LoadField | testsuite/grpcexpect/config.go:189-198 | one iteration over a map loads that field and leaves the others |
| DocLoader.LoadMap | testsuite/grpcexpect/config.go:189-200 | assigning entries while ranging over the map, in whatever order, gives the loaded object or an allowed failure |
| DocLoader.LoadJSONFile | testsuite/grpcexpect/config.go:203-215 | a referenced file is decoded afresh and loaded relative to its own directory |
| DocLoader.KindOfLoaded | testsuite/grpcexpect/config.go:144-154 | the loaded document is of an invalid kind iff the document is a scalar other than null or an object that stands for a string |
| DocLoader.NewDocToMsgs | testsuite/grpcexpect/config.go:139-160 | messages iff the document loads and its kind is valid: the items of an array, the one object, or one empty object for null; an error or panic only for its cause |

## Left out

- HTTP and gRPC calls, TLS, OAuth2, tracing and protocol buffers: what a server
  answers, or that no answer could be read, is an input of an attempt.
- cron expressions: parsing is a boolean input, the delay of a cron job is
  arbitrary, and cron jobs have no rate bound.
- JSON decoding, schema validation, `cmp.Equal`, the user's regular expression,
  base64, `fmt.Sprint` and the path functions are total functions given as
  inputs. Go prints a value the same way each time it is printed, and a string as itself.
- The decoding of suite files and of entries, with its defaults of one attempt, a wait of a
  second and a timeout of 30 seconds: the decoded configurations are given.
- The file system is a map from paths to contents that does not change during a load.
- `net/url`: a path is the decoding of the raw path when the raw path is set,
  and `WithContext` copies the URL; both are assumptions on the libraries.
- SchedulerImpl.Scheduler.Remove: the cancellation and the deletion of the name are one
  step; both happen under the mutex, and no timer or callback reads the job map.
- SchedulerImpl.Scheduler.Start: a nil-pointer panic ends the run of the model; nothing
  is said about a program that recovers from it.
- SuiteRunner.RunTimeBound: the timeout and the retry wait bound the recorded
  durations by hypothesis; that the context's timeout ends an attempt is up to the test.
- DocLoader.LoadDoc: a file holding `null` is an object without keys in the model, a nil
  map in Go; the partly rewritten document after an error or panic is unspecified,
  since the callers drop it.
- Response.CheckResponse: error texts and the truncation of the body in them.
- `prepare` beyond the extraction of placeholders and the fixing of references,
  `getDocumentField`, `getObjectField`, multipart and form bodies.
- DocLoader.NewDocToMsgs: the messages are the values; their encoding as JSON and the
  comparison of gRPC answers are left out.
- HttpSuite.SuiteVerdict: stated, like HttpSuite.RunnerAgrees and HttpSuite.PassedIffMet,
  for runs in which no attempt panics, since a panic ends the program.
- The order in which one attempt of a test logs its entries is the order of a Go map,
  so reports are compared as multisets.
- Watching and reloading of suites, the notifier plugins, Slack, logging, the
  plugin registry, `MergeHeaders`, `getRequestData`, the walk over directories and
  command-line parsing: plumbing that holds at a glance.
