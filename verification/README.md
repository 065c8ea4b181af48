# kubernetes-mcp-server: a verified model of its shared state

This project models the parts of the server whose state must stay coherent while the configuration
reloads, watchers fire and requests run, and proves what the code and its comments promise about them.
Run `dafny verify dfyconfig.toml` here (Dafny 4.11).

Three kinds of model are used, often side by side for one source file:

- **Functions and lemmas** for code that computes: URL and path parsers, snapshots, keys, text splicing.
- **Classes and methods** for code that updates fields: each method is proved against a function of the
  old state, and the lemmas are about that function.
- **Step machines** for code that many goroutines run: a state, an action for each step that another
  goroutine can come in between, and `Run` over a list of actions. A lemma about `Run` is a statement about every
  interleaving. A held mutex is part of the state, so "whenever the lock is free" is said literally.
  Where a class models the same code, a lemma says that one call alone, step by step, does what its method does.

| file | models |
|---|---|
| `ToolReload.dfy`, `ReloadProtocol.dfy` | the transactional tool reload: convert everything, commit four registries, publish; one thread at a time as a class, then any number of threads |
| `SighupReload.dfy` (with `Configuration.dfy`) | the SIGHUP loop, the three copies of the configuration it keeps in step, and the log it reloads on the way |
| `RateLimiter.dfy` (with `Integers.dfy`) | the token bucket in exact arithmetic |
| `SessionLimits.dfy` | the per-session table of limiters with its reaper and its reset on configuration changes |
| `SessionReaping.dfy`, `ReapingObserved.dfy` | why the reaper cannot be observed, and exactly when it can |
| `SessionRates.dfy`, `LimitChanges.dfy` | the rate bound of a session; how often changes of the limits discard all limiters |
| `LogSink.dfy` | the log destination: who owns which file while writers, reloads and Close interleave |
| `Runs.dfy`, `Common.dfy` | runs of a step machine, as all interleaving models use them but that of the sessions, whose steps are always possible; option and result types |
| `WatcherLifecycle.dfy`, `Debounce.dfy` | start, stop and restart of the three watchers; the debounce timer in timed form |
| `KcpProvider.dfy` | workspace managers created on demand |
| `WorkspaceDiscovery.dfy`, `WorkspaceUrls.dfy` | recursive workspace discovery; workspace URLs |
| `MustGatherIndex.dfy` (with `SortedStrings.dfy`) | the resource index and its two views |
| `RestPaths.dfy` | what access control reads off a REST path, against the paths clients build |
| `DeepMerge.dfy` | merging configuration files |
| `StsCache.dfy` | the token exchange configuration memo and the HTTP client memo inside it |
| `WellKnownCache.dfy` | the cached openid-configuration, its singleflight fetch and the copies handed out |
| `ReadmeMarkers.dfy` (with `Strings.dfy`) | text replacement between markers |

## Where the code does less, or more, than is said of it

- **Textbook rate bound.** `rate.Limiter` truncates a wait to whole nanoseconds, so "at most burst + limit × d in any interval of
  length d" fails for most limits. It holds exactly when a token takes a whole number of nanoseconds, or nothing is ever admitted
  (`RateLimiter.PlainBoundExactlyWhen`); for every limit it holds with one more nanosecond (`RateLimiter.RateBound`). At p/q nanoseconds
  to a token that is admitted × p ≤ burst × p + d × q + q − 1 in whole numbers, and in lowest terms there is a run that meets it
  (`RateLimiter.RateBoundInIntegers`, `RateLimiter.RateBoundIsMet`).
- **Clock order.** The limiter is asked outside the middleware's mutex, so readings can reach it out of order, and d is then the sum of their
  forward movements (`RateLimiter.RateBound`, `SessionRates.SessionRateBound`). With readings in order that is the interval
  (`RateLimiter.RateBoundInOrder`, `SessionRates.SessionRateBoundInOrder`); out of order the interval will not do
  (`RateLimiter.OutOfOrderBreaksBound`).
- **A change of limits.** A request that looked its limiter up before a change is answered by the old one, on top of the new burst
  (`SessionRates.ChangeLetsOneMoreThrough`). The bound for a segment of constant limits therefore counts the requests that come into it
  holding another limiter and may still ask.
- **A configuration change resets every session once.** The limits are read before the mutex is taken, so a request can carry old
  limits past one that carried the new ones. Resets are exactly the changes in mutex order (`LimitChanges.ResetsAreChanges`); one change
  resets once if and only if no request is late like that (`LimitChanges.OneChangeResetsOnceExactlyWhen`).
- **Reaping.** The limiter is asked after the mutex is released. With `delay` bounding the time between looking a limiter up and asking it,
  reaping is unobservable, over any changes of the limits, when every limiter fills up in time (`SessionReaping.ReapingIsUnobservable`): at
  p/q nanoseconds to a token when burst × p ≤ (600 s − delay) × q + 1. Otherwise there is a run in which it changes an answer
  (`ReapingObserved.ReapingIsObservable`, `ReapingObserved.NeverObservedExactlyWhen`).
- **Concurrent log reloads.** The comment at `pkg/logging/sink.go:212-217` warns that two concurrent Reloads could leave the sink at a closed file. They
  cannot (`LogSink.FilesAreSafe`); what can happen is that `lastLogFile` names another destination than the writer, and that is ruled
  out exactly when at most one thread reloads (`LogSink.AgreeExactlyWhenOneReloads`).
- **Kubeconfig watchers.** When Watch returns early it has already set `started`, and then a Close never returns: a waiting Close can
  return exactly when a goroutine was launched (`WatcherLifecycle.CloseReturnsExactlyWhen`); `WatcherLifecycle.KubeconfigGetsStuck` gives the run.
- **A rotated CA file.** The comment at `pkg/tokenexchange/config.go:163-165` says that a CA rotation takes effect on the next call; it does
  when the path changes, not when the file is replaced under the same path. The memo is right exactly on a miss, or when the file still
  is what it was when the client was built (`StsCache.FreshClientExactlyWhen`).
- **Joined cache keys.** The token exchange memo joins lists with NUL, so `[]` and `[""]` share a key, and so does any list of several
  strings with that of their join. For a configuration that validates, the memo is right after every history exactly when both its lists
  are one non-empty string without NUL (`StsCache.AlwaysFreshExactlyWhen`); `StsCache.NoScopesAreMistaken` is the shortest failure. A single
  answer is right exactly on a miss, or when the call that built what the memo holds had the same lists (`StsCache.AnswerIsFreshExactlyWhen`).
  If only clean lists are ever asked for, being clean is enough (`StsCache.FreshExactlyWhenClean`).
- **Callbacks after Close.** A tick that is due when Close closes its channel can still arm a timer, which fires after Close has returned. This
  happens exactly when a tick is due at that moment, and with one timer at most (`Debounce.FiresAfterCloseExactlyWhen`,
  `Debounce.OneCallbackAtMost`).
- **Missed changes.** A reload that worked takes the state at its end for known, so a change that came while it ran, and stays, is never reloaded
  (`Debounce.ChangeDuringReloadIsMissed`).
- **Grouping of configuration files** matters exactly when a leaf comes between two tables of which the last does not cover the first
  (`DeepMerge.AssociativeExactlyWhen`).
- **Kubeconfig's goroutine** can end by itself when its file watcher is closed. The watcher then counts as started, and nothing is watched before a
  Close (`WatcherLifecycle.KubeconfigEndsByItself`, `WatcherLifecycle.EndedUntilClosed`). The other two run until told (`WatcherLifecycle.RunsUntilTold`).
- **Slashes in the must-gather index.** A cluster-scoped object with a slash in its name can answer for another object
  (`MustGatherIndex.SlashInClusterName`). Get is right for all plain identities, and the two views agree, exactly when no resource with such a
  name or namespace is the last under its key (`MustGatherIndex.GetIsLastExactlyWhen`, `MustGatherIndex.ViewsAgreeExactlyWhen`). A List in one
  namespace is always right; one over all namespaces misses nothing exactly when no two identities of the kind share a key
  (`MustGatherIndex.ListsAllWantedExactlyWhen`).

## Assumptions

- The SDK's feature set adds by upsert and removes by key (`vendor/github.com/modelcontextprotocol/go-sdk/mcp/features.go:40-62`); the
  conversions of tools, prompts, resources and templates file an item under its own name or URI.
- Tokens are reals, not floats; `rate.Inf` is its own case; times are unbounded integers of nanoseconds. A limit that is a float is a
  fraction, so a token takes p/q nanoseconds for some whole p and q.
- For reaping, one clock orders the requests and the reaper's ticks; the rate bounds need no such order.
- The parts of `WellKnownCache` under its read-write mutex are taken as atomic: a request reads map, time and URL together, and a fetch stores
  them together. The same goes for singleflight's own table of calls.
- Validation, collection of items, conversions, listings, selectors, provider creation, file opening and HTTP requests are arbitrary
  functions or outcomes, free to fail. What the clusters answer during one call is one value.
- Timers and tickers of `Debounce` are punctual, looking at the cluster takes no time, and a polling goroutine that is told to stop takes the tick that
  is due, if there is one, and ends before time goes on.

## Model

| member | source | states |
|---|---|---|
| ToolReload.FeatureSet.Add | vendor/github.com/modelcontextprotocol/go-sdk/mcp/features.go:40-47 | adding replaces what had the same key and nothing else |
| ToolReload.FeatureSet.Remove | vendor/github.com/modelcontextprotocol/go-sdk/mcp/features.go:50-62 | removing takes out exactly the named keys |
| ToolReload.ConvertItems | pkg/mcp/mcp.go:341-356 | succeeds exactly when every item converts; the error names the first bad item |
| ToolReload.CommitItems | pkg/mcp/mcp.go:360-384 | removes the stale names, then adds in order; returns the names as the enabled list |
| ToolReload.LastWinsMeaning | pkg/mcp/mcp.go:360-384 | each key maps to the last item that carries it |
| ToolReload.KeysAreNames | pkg/mcp/mcp.go:360-384 | the registry's key set is the enabled list as a set |
| ToolReload.CommitExactlyWhen | pkg/mcp/mcp.go:360-384 | a commit leaves exactly the new items if and only if every other key was on the previous list |
| ToolReload.ServerObject.ApplyToolsets | pkg/mcp/mcp.go:219-328 | all or nothing: a failed conversion changes no registry, configuration or list |
| ToolReload.ServerObject.ReloadConfiguration | pkg/mcp/mcp.go:552-574 | an invalid or inconvertible configuration changes nothing, otherwise it is applied |
| ToolReload.AcceptsExactlyWhen | pkg/mcp/mcp.go:226-266 | a call goes through if and only if every item of all four kinds converts, for the configuration it is about |
| ToolReload.ApplyMeaning | pkg/mcp/mcp.go:219-328 | the configuration and the enabled lists it leaves, item by item |
| ToolReload.ConfigIsLatest | pkg/mcp/mcp.go:200-243 | the live configuration is that of the latest committed reload; no re-apply rolls it back |
| ToolReload.SurfaceIsLatestBatch | pkg/mcp/mcp.go:244-328 | after any calls the four registries are the last-wins view of the latest batch and the lists are its names |
| ReloadProtocol.StepKeepsInv | pkg/mcp/mcp.go:219-328 | every step of every thread keeps the protocol's invariant, inside and outside the lock |
| ReloadProtocol.ReloadsAreSerial | pkg/mcp/mcp.go:193-328 | in every interleaving, whenever reloadMu is free, configuration, registries and enabled lists are what the finished calls give one at a time, and agree with each other |
| ReloadProtocol.ReadersSeeVettedConfig | pkg/mcp/mcp.go:206-328 | a reader without the lock sees the first configuration or one that validates, and it is a committed one or already converted and in all four registries; no call on the log has an invalid one |
| ReloadProtocol.LetInExactlyWhenValid | pkg/mcp/mcp.go:552-574 | a reload is let in with its own configuration if and only if that validates, and otherwise changes nothing |
| ReloadProtocol.EveryCallIsServedOnce | pkg/mcp/mcp.go:193-328 | in every run each thread's calls are served once, in order, for the configurations they brought, but for the one under way |
| ReloadProtocol.HolderFinishes | pkg/mcp/mcp.go:219-328 | from wherever it is, the holder of reloadMu can finish by itself, and its call has then been applied |
| ReloadProtocol.ReloadAlone | pkg/mcp/mcp.go:552-574 | a reload step by step, with nobody in between, has the effect of the method |
| ReloadProtocol.ReapplyAlone | pkg/mcp/mcp.go:200-204 | so has a re-apply, for the live configuration |
| SighupReload.StepKeepsInv | pkg/kubernetes-mcp-server/cmd/root.go:433-485 | each step of the loop, and each re-apply in between, keeps the copies coherent |
| SighupReload.CopiesAgreeAtLoopHead | pkg/kubernetes-mcp-server/cmd/root.go:433-485 | at each loop head both configurations are the same, the provider was built from the snapshot's own fields, and unless a rebuild has just failed the snapshot equals the configuration in all six fields, with no provider exactly when there is no URL |
| SighupReload.OnlyUpdatesTouchOAuth | pkg/kubernetes-mcp-server/cmd/root.go:440-462 | rejected reloads, re-applies and log reloads leave the OAuth snapshot alone |
| SighupReload.NextReloadRetries | pkg/kubernetes-mcp-server/cmd/root.go:462-482 | across rejected signals and re-applies the snapshot follows the next accepted configuration field by field: kept provider, none, the attempt's own, or no change when the attempt fails |
| SighupReload.UpdateFollows | pkg/kubernetes-mcp-server/cmd/root.go:462-482 | what one update makes of the snapshot, said of the configuration's fields and the attempt; it is out of step exactly when a URL is set, provider fields differ and the attempt failed |
| SighupReload.NoSnapshotYet | pkg/kubernetes-mcp-server/cmd/root.go:462-467 | the snapshot that stands in where none was stored has no provider and empty fields |
| SighupReload.ReapplyIsTheServers | pkg/kubernetes-mcp-server/cmd/root.go:433-485 | a re-apply changes the server alone and keeps its configuration |
| SighupReload.StartupExactlyWhen | pkg/oauth/state.go:80-139 | the server starts exactly when the first configuration converts and its provider, if it names one, can be built; and what it starts with |
| SighupReload.HandleIsTheSteps | pkg/kubernetes-mcp-server/cmd/root.go:433-485 | the loop body done at once is its steps done one by one |
| SighupReload.HandleMeaning | pkg/kubernetes-mcp-server/cmd/root.go:433-485 | a signal does nothing unless its configuration can be read, validates and converts; then server, log, published configuration and snapshot each follow it |
| SighupReload.LogFailureIsNotFatal | pkg/kubernetes-mcp-server/cmd/root.go:450-458 | a log file that cannot be opened changes nothing but that the log stays where it was |
| SighupReload.SignalHandler.HandleSignal | pkg/kubernetes-mcp-server/cmd/root.go:433-485 | one signal, on all failure branches, with or without a stored snapshot and a log sink, has the effect of the specification; the sink applies the setting of an accepted configuration |
| SighupReload.SignalHandler.UpdateOAuth | pkg/kubernetes-mcp-server/cmd/root.go:462-482 | the update of the stored snapshot, as specified |
| SighupReload.SignalHandler.HandleSignals | pkg/kubernetes-mcp-server/cmd/root.go:433-485 | after any number of signals the copies agree |
| RateLimiter.Limiter.AllowAt | vendor/golang.org/x/time/rate/rate.go:337-381 | an admitted call takes its token and moves the clock, a refused one leaves tokens and clock as they were |
| RateLimiter.NoWaitExactlyWhen | vendor/golang.org/x/time/rate/rate.go:405-418 | a debt costs no wait exactly when it is less than one nanosecond's worth |
| RateLimiter.AdmitsExactlyWhen | vendor/golang.org/x/time/rate/rate.go:337-381 | admitted exactly when a token is there or comes within the nanosecond |
| RateLimiter.RefusedLeavesNoTrace | vendor/golang.org/x/time/rate/rate.go:337-381 | the bucket after a call, admitted or refused |
| RateLimiter.RefusedDoNotMatter | vendor/golang.org/x/time/rate/rate.go:337-381 | all refused calls of a run can be struck out: the others are admitted as before and the bucket ends up the same |
| RateLimiter.RefusedCanBeLeftOut | vendor/golang.org/x/time/rate/rate.go:337-381 | so can any one of them, without another answer changing |
| RateLimiter.NobodyStarves | vendor/golang.org/x/time/rate/rate.go:337-427 | at p/q nanoseconds to a token, a call p/q nanoseconds or more after the last admission is admitted, however many refusals lie between |
| RateLimiter.PaceIsServed | vendor/golang.org/x/time/rate/rate.go:337-427 | a client that keeps that pace is never refused once it has been admitted |
| RateLimiter.UnlimitedAdmits | vendor/golang.org/x/time/rate/rate.go:337-381 | without a limit every call is admitted |
| RateLimiter.NothingEarned | vendor/golang.org/x/time/rate/rate.go:405-427 | without a rate a call is admitted exactly for a token that is there |
| RateLimiter.RateBound | vendor/golang.org/x/time/rate/rate.go:337-427 | in whatever order readings come, and whatever came before, fewer calls are admitted than burst plus rate times their forward movements and one nanosecond |
| RateLimiter.RateBoundInOrder | vendor/golang.org/x/time/rate/rate.go:337-427 | with readings in order, the same with the interval |
| RateLimiter.RateBoundInIntegers | vendor/golang.org/x/time/rate/rate.go:337-427 | at p/q nanoseconds to a token, admitted times p is at most burst times p plus the forward movements times q plus q minus 1 |
| RateLimiter.RateBoundIsMet | vendor/golang.org/x/time/rate/rate.go:337-427 | in lowest terms a new bucket meets that bound, so it cannot be improved |
| RateLimiter.PlainBoundExactlyWhen | vendor/golang.org/x/time/rate/rate.go:337-427 | the bound without the extra nanosecond holds for every run, in order or not, if and only if the burst is 0 or a token takes a whole number of nanoseconds |
| RateLimiter.NanosecondMatters | vendor/golang.org/x/time/rate/rate.go:405-418 | at 0.3 per second two calls exceed the bound without the nanosecond |
| RateLimiter.OutOfOrderBreaksBound | vendor/golang.org/x/time/rate/rate.go:387-401 | a call with an old reading lets a burst of two admit four between two equal readings |
| RateLimiter.FullBucketsAnswerAlike | vendor/golang.org/x/time/rate/rate.go:387-401 | a full bucket answers every future like a new one |
| RateLimiter.ShortBucketIsObservable | vendor/golang.org/x/time/rate/rate.go:337-381 | a bucket short of full by a nanosecond's worth can be told from a new one |
| SessionLimits.SessionLimiters.Lookup | pkg/mcp/middleware.go:371-406 | the section under the mutex: reset on changed limits, create or touch the session's entry, leave the others |
| SessionLimits.SessionLimiters.Reap | pkg/mcp/middleware.go:349-368 | a tick removes exactly the entries idle for more than ten minutes |
| SessionLimits.LookupMeaning | pkg/mcp/middleware.go:388-406 | what a lookup leaves, session by session |
| SessionLimits.ReapMeaning | pkg/mcp/middleware.go:349-368 | what a tick leaves: exactly the sessions looked up in the last ten minutes |
| SessionLimits.LookupStepIsLookup | pkg/mcp/middleware.go:388-406 | the step of the interleaved model and the method have the same effect |
| SessionLimits.ReapStepIsReap | pkg/mcp/middleware.go:349-368 | the same for the reaper |
| SessionLimits.EnterHoldsTheLimiter | pkg/mcp/middleware.go:371-406 | a limited request holds its session's limiter after its lookup; any other request leaves no trace |
| SessionLimits.LimitersAnswerAlone | pkg/mcp/middleware.go:371-411 | in every run a limiter is asked only by the requests that hold it and answers them as it would answer those calls alone, whatever lookups, resets and the reaper do |
| SessionReaping.RunsStaySimilar | pkg/mcp/middleware.go:349-411 | the simulation between runs with and without the reaper, over any changes of the limits |
| SessionReaping.ReapingIsUnobservable | pkg/mcp/middleware.go:349-411 | from any point of any timed and prompt run on, every request gets the same answer with and without the reaper, when limiters fill up in time at all limits requests carry |
| ReapingObserved.ReapingIsObservable | pkg/mcp/middleware.go:349-411 | when they do not, a timed and prompt run in which the reaper changes an answer |
| ReapingObserved.NeverObservedExactlyWhen | pkg/mcp/middleware.go:349-411 | at fixed limits, whatever fraction of nanoseconds a token takes, reaping is never observed if and only if the limiter fills up in time |
| SessionLimits.ReachableIsSolid | pkg/mcp/middleware.go:371-411 | every reachable state is one from which the rate bound holds |
| SessionRates.SessionRateBound | pkg/mcp/middleware.go:371-411 | from such a state, at constant limits and in any clock order, a session's admissions are bounded by the burst, its requests in flight with another limiter, and the rate times the forward movements and one nanosecond |
| SessionRates.SessionRateBoundInOrder | pkg/mcp/middleware.go:371-411 | with events in order, the same with the time the segment takes |
| SessionRates.ChangeLetsOneMoreThrough | pkg/mcp/middleware.go:388-411 | a request in flight over a change of limits is admitted on top of the new burst |
| SessionRates.BoundedInIntegers | pkg/mcp/middleware.go:371-411 | the bound in whole numbers, at p/q nanoseconds to a token; without the nanosecond when q is 1 |
| SessionRates.RateBoundDespiteReaping | pkg/mcp/middleware.go:349-411 | the rate bound with the reaper at work, from any point of any timed and prompt run, earlier changes of the limits included; of the requests in flight only those count that may still ask |
| SessionRates.RateBoundAtFixedLimits | pkg/mcp/middleware.go:349-411 | when the limits never changed none of them counts |
| LimitChanges.ResetsAreChanges | pkg/mcp/middleware.go:388-393 | all limiters are discarded exactly as often as the limits change in mutex order |
| LimitChanges.OneChangeResetsOnceExactlyWhen | pkg/mcp/middleware.go:371-393 | one change discards all limiters exactly once if and only if no request carries the old limits past one that carried the new |
| LimitChanges.LateReaderResetsAgain | pkg/mcp/middleware.go:371-393 | one such request makes it three resets |
| LogSink.SinkObject.Write | pkg/logging/sink.go:193-200 | where a Write goes; never to a closed file |
| LogSink.SinkObject.ApplyDestination | pkg/logging/sink.go:278-332 | by cases on the setting: the HTTP output, nowhere in stdio mode, standard error or the file just opened, with the old file closed; nothing changes when the open fails or the destination needs no file and is in place |
| LogSink.SinkObject.Swap | pkg/logging/sink.go:312-324 | under the write lock: the new writer and file are in place and the old file is closed |
| LogSink.SinkObject.Close | pkg/logging/sink.go:247-268 | the file is released once and later logs go to stderr |
| LogSink.StepMoves | pkg/logging/sink.go:193-332 | what any step can do to files: open one, swap with the sink, close the one held |
| LogSink.StepKeepsWritersCurrent | pkg/logging/sink.go:193-200 | while a thread is between reading the writer and the end of its Write, no swap happens |
| LogSink.RunKeepsInv | pkg/logging/sink.go:193-332 | every interleaving keeps lock discipline, file ownership and clean writes |
| LogSink.FilesAreSafe | pkg/logging/sink.go:193-332 | no Write, to the writer it read before, reaches a closed file; no file is closed twice; each open file is the sink's or held by a thread |
| LogSink.WriterIsLastAccepted | pkg/logging/sink.go:208-332 | with a single reloader the writer is the one the last accepted Reload asked for, a file that call itself opened even under an unchanged path, or stderr after Close |
| LogSink.HttpOutExactlyWhen | pkg/logging/sink.go:289-297 | with a single reloader and no Close, the log goes to the HTTP server's output if and only if in HTTP mode and the last accepted log_file is empty |
| LogSink.StdioLogsStayOffStdout | pkg/logging/sink.go:289-297 | in stdio mode no Write goes there, in any interleaving with any settings |
| LogSink.ReloadAlone | pkg/logging/sink.go:278-332 | a Reload step by step, with nobody in between, has the effect of the method |
| LogSink.WriteAlone | pkg/logging/sink.go:193-200 | a Write alone goes to the sink's writer and is recorded once |
| LogSink.CloseAlone | pkg/logging/sink.go:247-268 | a Close alone sends the log to standard error and closes the file |
| LogSink.TwoReloadersDisagree | pkg/logging/sink.go:312-324 | from any state at rest two reloaders can leave the writer at a file while lastLogFile says "", and asking again is ignored |
| LogSink.AgreeExactlyWhenOneReloads | pkg/logging/sink.go:208-236 | at rest writer and lastLogFile agree in all runs if and only if at most one thread reloads |
| WatcherLifecycle.Watcher.Watch | pkg/kubernetes/watcher/cluster.go:80-87 | the section under mu: launch exactly when not started |
| WatcherLifecycle.Watcher.Close | pkg/kubernetes/watcher/cluster.go:152-173 | signal and wait exactly when started and not signalled yet, so stopCh is never closed twice |
| WatcherLifecycle.Watcher.Finish | pkg/kubernetes/watcher/cluster.go:174-180 | not started, with two new open channels |
| WatcherLifecycle.StepKeepsSeen | pkg/kubernetes/watcher/cluster.go:80-173 | what a thread has read of started and stopCh under mu is still so when it acts on it |
| WatcherLifecycle.StepKeepsInv | pkg/kubernetes/watcher/cluster.go:77-182 | every step of threads, goroutines and callbacks keeps the lifecycle invariant |
| WatcherLifecycle.LifecycleIsSafe | pkg/kcp/workspace_watcher.go:80-174 | with reading and writing under mu as separate steps, at most one goroutine runs or is about to, and no channel is closed twice |
| WatcherLifecycle.CloseEndsTheGoroutine | pkg/kubernetes/watcher/cluster.go:152-182 | the Close that signalled returns after the goroutine ended; another returns only if not started or a Close is at work |
| WatcherLifecycle.RunsUntilTold | pkg/kubernetes/watcher/cluster.go:77-148 | in every run of a cluster or workspace watcher, from Watch until Close has closed stopCh, its goroutine runs or is about to be launched |
| WatcherLifecycle.PollsAgain | pkg/kubernetes/watcher/cluster.go:100-146 | while mu is free the goroutine can poll once more |
| WatcherLifecycle.CallbackRuns | pkg/kubernetes/watcher/cluster.go:133-143 | and a debounce callback can come and go |
| WatcherLifecycle.KubeconfigEndsByItself | pkg/kubernetes/watcher/kubeconfig.go:83-112 | Kubeconfig's goroutine can end while the watcher counts as started |
| WatcherLifecycle.EndedUntilClosed | pkg/kubernetes/watcher/kubeconfig.go:55-112 | and then nothing is watched before a Close, however often Watch is called |
| WatcherLifecycle.WaitingCloseReturns | pkg/kubernetes/watcher/cluster.go:169-181 | a waiting Close can always be brought to return by what is already under way, even with a poll or callback holding mu |
| WatcherLifecycle.CloseReturnsExactlyWhen | pkg/kubernetes/watcher/kubeconfig.go:55-145 | a waiting Close can return if and only if Watch launched its goroutine; only Kubeconfig's can miss that |
| WatcherLifecycle.KubeconfigGetsStuck | pkg/kubernetes/watcher/kubeconfig.go:63-73 | the run of Watch and Close after which a Close never returns |
| WatcherLifecycle.WatchStartsAgain | pkg/kubernetes/watcher/cluster.go:77-93 | after Close, Watch starts one goroutine on the new channels |
| Debounce.Changed | pkg/kubernetes/watcher/cluster.go:117-127 | the comparison loop decides whether the two states differ |
| Debounce.Debouncer.Poll | pkg/kubernetes/watcher/cluster.go:109-145 | a differing poll stops the pending timer and arms a new one; an equal one does nothing |
| Debounce.Debouncer.Reloaded | pkg/kubernetes/watcher/cluster.go:133-142 | only a reload that worked replaces the last known state |
| Debounce.OnePendingTimer | pkg/kubernetes/watcher/cluster.go:129-144 | at most one timer is pending, it is the one in the field, and every timer is pending, fired or stopped |
| Debounce.EachChangeFires | pkg/kubernetes/watcher/cluster.go:105-146 | with a window below the poll interval each differing poll fires one window later, before the next poll |
| Debounce.ChangeFiresUnlessDisturbed | pkg/kubernetes/watcher/cluster.go:105-146 | whatever the window, the timer of a differing poll fires one window later unless another poll differs or Close stops it; a poll that sees the known state again does not take it back |
| Debounce.SteadyChangeNeverFires | pkg/kcp/workspace_watcher.go:107-139 | with a window above the poll interval a state that differs at every poll never fires |
| Debounce.EqualWindowGoesEitherWay | pkg/kubernetes/watcher/cluster.go:105-146 | with equal window and interval both outcomes are possible |
| Debounce.FailedReloadsAreRetried | pkg/kubernetes/watcher/cluster.go:133-142 | while reloads fail the last known state stays, each differing poll arms again, and with a short window none is stopped |
| Debounce.FiresAfterCloseExactlyWhen | pkg/kubernetes/watcher/cluster.go:90-176 | a timer can fire after Close stopped the pending one if and only if a tick is due when Close closes stopCh |
| Debounce.OneCallbackAtMost | pkg/kubernetes/watcher/cluster.go:90-176 | and no more than one timer is armed from then on |
| Debounce.ChangeDuringReloadIsMissed | pkg/kubernetes/watcher/cluster.go:129-144 | a run after which a change that came during a reload, and stays, never arms a timer |
| KcpProvider.Provider.constructor | pkg/kcp/provider.go:117-123 | every discovered workspace is known without a manager, the default one has the base manager |
| KcpProvider.Provider.ManagerForWorkspace | pkg/kcp/provider.go:184-217 | unknown, existing, failing and created, and nothing else changes |
| KcpProvider.Provider.GetDerived | pkg/kcp/provider.go:301-312 | the same for the workspace asked for, and for the default one only when none is named |
| KcpProvider.Provider.GetTargets | pkg/kcp/provider.go:263-276 | the known workspaces, strictly sorted |
| KcpProvider.Provider.GetTargetManagers | pkg/kcp/provider.go:278-295 | the managers in the order of the names, or a failure that keeps what was created |
| KcpProvider.StepKeepsRecords | pkg/kcp/provider.go:169-218 | every step keeps all answers given so far true and creates only what is missing |
| KcpProvider.ManagersAreStable | pkg/kcp/provider.go:169-295 | between resets the target set is constant, each manager is created at most once, all successful calls return the same manager for a workspace, the one reset left there or created for it, only known workspaces without a manager can fail, and all listings are the same |
| KcpProvider.EveryCallIsAnswered | pkg/kcp/provider.go:169-312 | in every run each call of a thread is answered once, in order, about the workspace it named, or about the default one when it named none |
| KcpProvider.LookupAlone | pkg/kcp/provider.go:169-217 | a lookup step by step, with nobody in between, has the effect of the method |
| KcpProvider.ListAlone | pkg/kcp/provider.go:278-295 | so has a listing |
| SortedStrings.SortedListingUnique | pkg/kcp/provider.go:263-270 | a set of names has one sorted listing, whatever order the map yields |
| WorkspaceDiscovery.DiscoverRecursive | pkg/kcp/workspace.go:52-108 | adds only reachable paths and leaves no child out; terminates by the finite universe even when paths collide |
| WorkspaceDiscovery.DiscoverAllWorkspaces | pkg/kcp/workspace.go:112-136 | exactly the workspaces reachable by successful listings, once each |
| WorkspaceDiscovery.ReachableIsLeast | pkg/kcp/workspace.go:52-108 | the reachable paths lie in every closed set around the root |
| WorkspaceDiscovery.ReachableExactlyWhen | pkg/kcp/workspace.go:80-100 | the reachable paths are exactly the root's followed by a colon and a listed, non-empty name for each level |
| WorkspaceUrls.EarlierOccurrence | pkg/kcp/workspace.go:25-36 | the only way a separator can straddle the join |
| WorkspaceUrls.SeparatorFound | pkg/kcp/workspace.go:25-36 | the parser finds the separator that was put there exactly when the base neither has nor almost has one |
| WorkspaceUrls.ConstructThenParse | pkg/kcp/workspace.go:25-47 | parsing undoes building if and only if the base has no separator, nor ends with one but its slash, and the workspace has no trailing slash |
| WorkspaceUrls.ParseThenConstruct | pkg/kcp/workspace.go:25-47 | building undoes parsing for every URL with a separator, up to one trailing slash |
| WorkspaceUrls.ParseWithoutSeparator | pkg/kcp/workspace.go:25-29 | a URL without a separator is all base |
| MustGatherIndex.ResourceIndex.Add | pkg/ocp/mustgather/index.go:45-73 | the resource is put into both views and counted |
| MustGatherIndex.ResourceIndex.BuildNamespaceList | pkg/ocp/mustgather/index.go:75-81 | strictly sorted and complete |
| MustGatherIndex.ResourceIndex.Get | pkg/ocp/mustgather/index.go:84-100 | the entry under the identity's key |
| MustGatherIndex.ResourceIndex.List | pkg/ocp/mustgather/index.go:103-145 | distinct matching entries, as many as there are or the limit allows |
| MustGatherIndex.BuildIndex | pkg/ocp/mustgather/index.go:35-42 | the index holds the views of the whole list, with the namespaces sorted |
| MustGatherIndex.KeyInjective | pkg/ocp/mustgather/index.go:52-55 | plain identities have distinct keys |
| MustGatherIndex.LastMeaning | pkg/ocp/mustgather/index.go:45-73 | what the last resource of an identity is, said of positions in the list |
| MustGatherIndex.GetIsLast | pkg/ocp/mustgather/index.go:84-100 | Get answers with the last resource of that identity |
| MustGatherIndex.NamespaceViewIsLast | pkg/ocp/mustgather/index.go:61-70 | so does the namespace view |
| MustGatherIndex.ViewsAgree | pkg/ocp/mustgather/index.go:45-73 | the two views agree after every Add, for lists of plain identities |
| MustGatherIndex.GetIsLastExactlyWhen | pkg/ocp/mustgather/index.go:45-100 | for any list, Get answers every plain identity with its last resource if and only if no resource with a misleading slash is last under its key |
| MustGatherIndex.ViewsAgreeExactlyWhen | pkg/ocp/mustgather/index.go:45-100 | and the two views agree on all plain namespaced identities under exactly that condition |
| MustGatherIndex.SlashInClusterName | pkg/ocp/mustgather/index.go:52-55 | a slash in a cluster-scoped name makes them disagree |
| MustGatherIndex.ListRangesOverWanted | pkg/ocp/mustgather/index.go:103-145 | List ranges over matching resources that no later one supersedes: over all of them in a namespace, and over all namespaces when no two identities of the kind share a key |
| MustGatherIndex.PlainSharesNoKeys | pkg/ocp/mustgather/index.go:52-55 | as is the case in lists of plain identities |
| MustGatherIndex.ListsAllWantedExactlyWhen | pkg/ocp/mustgather/index.go:103-145 | a query over all namespaces misses none, whatever the selector, if and only if no two identities of the kind share a key |
| RestPaths.ParseURLToNamespaceAndName | pkg/kubernetes/accesscontrol_round_tripper.go:325-341 | the segment after the first "namespaces" that has one, and the segment after the resource type |
| RestPaths.ParsersAgree | pkg/kubernetes/accesscontrol_round_tripper.go:273-381 | on every path both parsers select the same resource segment, or none |
| RestPaths.PartsOfBuilt | pkg/kubernetes/resources.go:137-147 | splitting a built path gives back its segments |
| RestPaths.NamespaceOfBuilt | pkg/kubernetes/accesscontrol_round_tripper.go:325-341 | the namespace is recovered if and only if no other segment misleads the search |
| RestPaths.BuildThenParse | pkg/kubernetes/accesscontrol_round_tripper.go:273-413 | resource, namespace, name, subresource and the verbs of all methods are recovered if and only if the target is unambiguous |
| RestPaths.OtherMethods | pkg/kubernetes/accesscontrol_round_tripper.go:383-404 | a method without a verb of its own is its verb in lower case |
| RestPaths.StripUndoesPrefix | pkg/kubernetes/accesscontrol_round_tripper.go:308-323 | behind a proxy prefix the parsers see the same path |
| RestPaths.StripElsewhere | pkg/kubernetes/accesscontrol_round_tripper.go:308-323 | the prefix alone is the root, and any other path is left alone |
| DeepMerge.ConfigTable.DeepMerge | pkg/config/config.go:367-381 | in whatever order keys are visited, the map becomes the merge |
| DeepMerge.ReadAndMergeFiles | pkg/config/config.go:340-363 | one bad file fails the read; otherwise the fold over all files |
| DeepMerge.MergeAt | pkg/config/config.go:367-381 | the merge looked up at every path |
| DeepMerge.LeafOfMerge | pkg/config/config.go:367-381 | the leaves of a merge are those of src, and those of dst neither replaced nor shadowed |
| DeepMerge.LeafOfMergeAll | pkg/config/config.go:340-363 | for any files, a leaf comes from the file with the last word on it |
| DeepMerge.LastFileWins | pkg/config/config.go:340-363 | when shapes agree, from the last file that sets it |
| DeepMerge.EmptyIsIdentity | pkg/config/config.go:367-381 | the empty file is the identity on both sides |
| DeepMerge.MergeIdempotent | pkg/config/config.go:367-381 | merging a file twice changes nothing |
| DeepMerge.AbsorbedExactlyWhenCovered | pkg/config/config.go:367-381 | when exactly an earlier file leaves no trace |
| DeepMerge.AssociativeExactlyWhen | pkg/config/config.go:367-381 | grouping is irrelevant if and only if no leaf comes between a table and one that does not cover it |
| DeepMerge.AssociativeWhenSameShape | pkg/config/config.go:367-381 | in particular for files of one shape |
| StsCache.JoinDeterminesCleanLists | pkg/kubernetes/provider_token_exchange.go:173-181 | each list shares its joined string with exactly one clean list, itself just when it is clean |
| StsCache.RigidExactlyWhen | pkg/kubernetes/provider_token_exchange.go:173-181 | no other list has the same joined string if and only if the list is one non-empty string without NUL |
| StsCache.AnswerIsFreshExactlyWhen | pkg/kubernetes/provider_token_exchange.go:75-183 | after any history an answer is what a fresh build would give if and only if it is a miss, or the call that built what the memo holds had the same lists |
| StsCache.AlwaysFreshExactlyWhen | pkg/kubernetes/provider_token_exchange.go:75-183 | that is so after every history if and only if the configuration does not validate or both its lists are rigid in that sense |
| StsCache.NoScopesAreMistaken | pkg/kubernetes/provider_token_exchange.go:75-183 | after one call with one empty scope a configuration without scopes gets that call's |
| StsCache.KeyDeterminesBuild | pkg/kubernetes/provider_token_exchange.go:164-183 | equal keys of clean configurations mean equal configurations |
| StsCache.UncachedMeaning | pkg/kubernetes/provider_token_exchange.go:75-136 | which configurations validate, and each field of what is built, with params for an empty style |
| StsCache.MemoRefinesUncached | pkg/kubernetes/provider_token_exchange.go:75-143 | after any clean history the memo returns what a fresh build and Validate would |
| StsCache.FreshExactlyWhenClean | pkg/kubernetes/provider_token_exchange.go:75-183 | when only clean lists are ever asked for, a valid configuration is always served right if and only if its own lists are clean |
| StsCache.ClientFitsTheCall | pkg/tokenexchange/config.go:171-226 | the client fits the current CA path, TLS version and ciphers; errors leave the memo; with unchanged files it answers as an uncached build |
| StsCache.BuildClientMeaning | pkg/tokenexchange/config.go:181-226 | which failure a client meets, and what it is built from |
| StsCache.FreshClientExactlyWhen | pkg/tokenexchange/config.go:171-226 | the memo answers as an uncached build if and only if the call is a miss, or file and accepted settings are what they were when the client was built |
| StsCache.SamePathIsNotReread | pkg/tokenexchange/config.go:171-193 | any file replaced under the same path goes unnoticed |
| StsCache.TargetTokenExchangeConfig.HTTPClient | pkg/tokenexchange/config.go:171-226 | a hit returns the same object; changed CA path or TLS fields rebuild it and close its idle connections; an error changes nothing |
| StsCache.TargetTokenExchangeConfig.CloseIdleConnections | pkg/tokenexchange/config.go:233-239 | closes the memoized client's connections if there is one |
| StsCache.TokenExchangingProvider.GetOrBuildStsConfig | pkg/kubernetes/provider_token_exchange.go:75-143 | the object kept on a hit, a new one otherwise, the old one left in place on failure |
| WellKnownCache.CopyMap | pkg/http/wellknown.go:409-415 | a new map with the same entries |
| WellKnownCache.ApplyConfigOverrides | pkg/http/wellknown.go:396-405 | the overrides, on the given map |
| WellKnownCache.OverriddenAt | pkg/http/wellknown.go:396-405 | what the overrides do to each key; applying them twice is applying them once |
| WellKnownCache.ProtectedResourceAt | pkg/http/wellknown.go:72-85 | the protected resource metadata, key by key |
| WellKnownCache.WellKnown.FetchOpenIDConfiguration | pkg/http/wellknown.go:291-339 | a hit or a fetch, and never the cached map itself |
| WellKnownCache.WellKnown.ServeGenerated | pkg/http/wellknown.go:198-221 | something is sent exactly when the cache is usable or a document was fetched; what is sent has the overrides, what is cached never does |
| WellKnownCache.StepKeepsInv | pkg/http/wellknown.go:291-339 | every step of requests and fetches keeps maps separate and records true, each flight's own fetch among them |
| WellKnownCache.AnswersAreTrue | pkg/http/wellknown.go:291-339 | every document answered is what one flight fetched, once, for the request's own URL: from the cache the flight that stored it, less than five minutes before it was read, and had fetched it by then; otherwise a flight that fetched it before it ended, and ended after the request began; an answer without one comes from such a flight without one |
| WellKnownCache.EveryRequestIsAnswered | pkg/http/wellknown.go:291-339 | in every run each call is answered once, in order, about the authorization URL at the moment of the call |
| WellKnownCache.RequestAlone | pkg/http/wellknown.go:291-339 | a request step by step, with nobody in between, has the effect of the method: a usable cache answers, otherwise a fetch does and is stored |
| WellKnownCache.RequestFinishes | pkg/http/wellknown.go:291-339 | from every state a request can be in there are steps that bring it to its answer |
| WellKnownCache.CacheIsUntouched | pkg/http/wellknown.go:291-339 | the cache holds what the flight that stored it had fetched by then, however copies are changed, no request owns the cached map, and no URL is fetched twice at once |
| ReadmeMarkers.UpdateReadme | internal/tools/update-readme/main.go:62-200 | the calls of main are the edits one after the other |
| ReadmeMarkers.Spliced | internal/tools/update-readme/main.go:207-217 | outside the markers nothing changes, between them stands the replacement |
| ReadmeMarkers.OccurrencesAfter | internal/tools/update-readme/main.go:207-217 | where a marker occurs after a replacement; none straddles the splice |
| ReadmeMarkers.IdempotentExactlyWhen | internal/tools/update-readme/main.go:207-217 | replacing twice is replacing once if and only if the replacement brings no end marker of its own |
| ReadmeMarkers.EditsCommute | internal/tools/update-readme/main.go:207-217 | edits of disjoint regions commute |
| ReadmeMarkers.RegenerateTwice | internal/tools/update-readme/main.go:62-200 | regenerating a regenerated README changes nothing |
| ReadmeMarkers.RegionsFit | internal/tools/update-readme/main.go:96-200 | markers of regions with different plain names fit and do not get in each other's way |
| ReadmeMarkers.ReadmeRegions | internal/tools/update-readme/main.go:96-200 | the six regions have different plain names |

## Left out

- Kubernetes calls, HTTP and TLS clients, the OIDC library, TOML, YAML and JSON, fsnotify and telemetry: foreign code that appears as an input.
- SessionReaping.ReapingIsUnobservable: bounds the time between lookup and question by an assumed delay; the code has no such bound.
- ReloadProtocol.ReloadsAreSerial: does not model the filters and mutators inside the collection of items, which are a parameter.
- WatcherLifecycle.LifecycleIsSafe: does not model the debounce timer's stop in Close; callbacks may come at any time, also after Close, and `Debounce` says when they do.
- Debounce.EachChangeFires: holds while Close does not stop the timer.
- WellKnownCache.AnswersAreTrue: puts no bound on the time between the fetch of a document and its storing, and a flight joined by a late request may have fetched before that request began.
- KcpProvider.ManagersAreStable: covers the time between two resets; a reset itself replaces the map.
- LogSink.FilesAreSafe: does not model the klog verbosity, the OTel provider or the error of closing a file.
- MustGatherIndex.ResourceIndex.List: reads a selector as a predicate or a parse error; label and field selector syntax is not part of this model.
- DeepMerge.ConfigTable.DeepMerge: nested tables are values, so the aliasing of a source's nested map by the destination is not captured.
- Kubeconfig's and ACM's target sets, confirmation matching, tool filters, registries, getters, config validation branches, prompts, log sanitizing and the other clients: single-branch logic or I/O that would only add easy members.
