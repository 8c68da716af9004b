# DiPECS, verified

DiPECS collects events from a device, sanitizes them, gathers them into windows, lets a decision backend
propose actions for each window, authorizes the actions against a policy, executes them and remembers what came
of them. This project models the parts of that pipeline that keep state or whose guarantees span several
functions, and proves those guarantees for all inputs, all runs and all interleavings.

One file holds one component:

- `Runtime` is the two-task daemon: a collection loop and a processing loop joined by a bounded channel, as a
  state machine over their steps, and the processing loop itself, proved to take the machine's steps; `WindowClosing` reads
  its windows off the turns. `Context` and `SummaryLaws` are the window aggregator, `ReplayWindows` the replay's windowing by
  trace time.
- `Policy`, `PolicyGates`, `Lifecycle` and `Endings` are the governance core: gates, cap, state machine, audit records.
  `ReplayStages` relates policy-only replay to full execution.
- `Memory` and `PrewarmScores` are the model memory: fading scores against the exact discounted history, and the queue of
  pending prewarms against a look-ahead over later windows. `PrewarmOrigin` and `OutcomeCounts`
  follow what is queued and counted back to the adapter's answers.
- `Router` and `RoutingSignals` are routing and the circuit breaker, `Tailer` the JSONL tailer.
- `LocalScore`, `LocalBackend`, `LocalConfidence`, `CandidateKeys`, `PredictiveBackend`, `RuleBackend`,
  `RuleSignals` and `CompositeBackend` are the local decision backends,
  each held against the policy it must satisfy.
- `Artifacts`, `Ranking`, `RankingSources`, `Predictor`, `Ensemble` and `FusionOrder` are the next-app predictor: the artifact validator, the
  rankings, and the fitting of the fusion weights.
- `Calendar`, `Canonical` and `Bridge` are calendar arithmetic, the canonical JSON form, and the texts the Android
  bridge signs.
- `Spec`, `Text`, `Sorting` and `Wrappers` hold shared types and orders.

Objects the program updates in place are classes here, and its loops are loops; each such method is proved equal to
a function of the old state, and the properties are proved of these functions. Floating-point numbers are
reals and counters are natural numbers, except where the program's width matters and is written out. Adapters, clocks,
decision answers, hashes, exponentials, prefetch addresses and grouped score boosts are arbitrary functions or values, so that the
theorems hold for all of them.

Some promises turned out to hold only under a condition. In each case the code is modelled as it is, the failing
inputs are shown, and the condition is proved exact where it could be:

- The tailer repeats lines when a poll ends at a line end and the next visible character is not an opening brace
  (`Tailer.FollowingIsSplitting`).
- The rule-based backend proposes refused actions for empty or unresolvable `pkg:` package names
  (`RuleBackend.WindowIsApprovedExactly`).
- The loader accepts dates that do not exist (`Calendar.RoundTrip`).
- Policy and execution disagree where neither High risk nor NoOp is barred, which no route allows
  (`ReplayStages.StagesAgreeExactly`).
- The recent-error bound fails on a clock less than one breaker window past its earliest instant
  (`Router.BoundIsExact`).
- Proposals for different work share a key, and one is lost, for a package named after another one's prewarm
  (`CandidateKeys.KeysAreExact`, `CandidateKeys.CollisionLosesAProposal`).
- Hours and weekdays share table keys (`Predictor.HourAndWeekdayShareKeys`).

## Model

| member | source | states |
|---|---|---|
| Runtime.RunProcessingLoop | crates/aios-daemon/src/pipeline.rs:211-277 | The loop, run over the turns its select goes through, hands on exactly the windows, and ends with exactly the counts, that folding the turns through one transition function gives; that function is the processor's step in the two-task system below. |
| WindowClosing.WindowsAreTheStretches | crates/aios-daemon/src/pipeline.rs:219-271 | Read off the turns alone: the turns are cut after exactly those that end a window, that is the first turn of each stretch that is an expiry, is checked at or after the stretch's deadline or finds the channel closed, the deadline being one window length after the loop's start or after the previous ending turn's clock; and the windows handed on are exactly the stretches that brought events in, in order, each with its stretch's raw events, from the wall clock of the previous ending turn to that of its own. |
| WindowClosing.StandsAtCut | crates/aios-daemon/src/pipeline.rs:219-271 | The same at any moment before the channel closes: the open window, its start and the deadline are those of the cut. |
| Runtime.StepKeepsInvariant | crates/aios-daemon/src/collection.rs:46-78 | Every step of the collector, the channel, the timer, the shutdown signal or the processor keeps: everything polled is, in order, the windows handed on, the open window, the channel and the collector's unsent events. |
| Runtime.InvariantHolds | crates/aios-daemon/src/pipeline.rs:211-277 | That invariant holds in every state any interleaving reaches. |
| Runtime.HandlingKeepsAccount | crates/aios-daemon/src/pipeline.rs:219-271 | Handling an event, a timer tick or the closed channel moves events between the open window and the handed-on ones without losing, doubling or reordering any; a closed channel leaves no open window. |
| Runtime.NothingIsLost | crates/aios-daemon/src/pipeline.rs:211-277 | Whenever the processing loop has returned, its windows concatenate to exactly the polled events in order; they are non-empty, numbered 0 to n-1, each with raw statistics that total its events; the collector has stopped, the channel is empty, and at least one poll took place. |
| Runtime.SendNeverFails | crates/aios-daemon/src/collection.rs:52-66 | The sender never finds the receiver gone, in any reachable state. |
| Runtime.StopsOnlyAfterPolling | crates/aios-daemon/src/collection.rs:46-78 | A stopped collector polled at least once and left nothing unsent, even when shutdown came first. |
| Runtime.NeverStuck | crates/aios-daemon/src/pipeline.rs:211-277 | With a channel of capacity at least one, until both tasks have ended one of them has a move of its own. |
| Runtime.EveryRunDrains | crates/aios-daemon/src/pipeline.rs:428-441 | Once the sender is dropped, in every run, timer turns included: each receive brings the end one closer, at most one for each queued event and one more take place, and the processor has returned exactly when all of them have. |
| Runtime.DrainsToTheEnd | crates/aios-daemon/src/pipeline.rs:428-441 | From every such state there is a run to the end that consists of just these receives. |
| Runtime.StopsOnlyWhenSignalled | crates/aios-daemon/src/collection.rs:46-78 | In no reachable state has the collector stopped without a shutdown signal. |
| Runtime.SignalIsHeeded | crates/aios-daemon/src/collection.rs:46-78 | After the signal at most one more poll begins, and none if the collector is past its poll. |
| Runtime.WindowsLastTheirLength | crates/aios-daemon/src/pipeline.rs:219-271 | No window ends before its deadline unless the channel is closed, and the next deadline is one window length after the clock at that end. |
| Context.WindowAggregator.Close | crates/aios-core/src/context_builder.rs:65-86 | Closing hands out everything buffered since the last close with the summary of those events, or nothing if there was nothing; the next window starts at the closing time. |
| Context.BuildSummary | crates/aios-core/src/context_builder.rs:89-174 | The one-sweep builder computes the summary defined part by part from the events. |
| Context.AppListsAreExact | crates/aios-core/src/context_builder.rs:102-142 | The app lists of a summary hold each app once, and exactly the apps some event shows or notifies. |
| Context.FileCountsAreExact | crates/aios-core/src/context_builder.rs:89-174 | The file activity of a summary counts each category's events, and lists no category without one. |
| Context.HintListIsExact | crates/aios-core/src/context_builder.rs:89-174 | The hints of a summary are listed once each, and are exactly those some notification carries. |
| Context.LatestStatusIsLatest | crates/aios-core/src/context_builder.rs:89-174 | The status of a summary is the one reported last, and there is none exactly if none was reported. |
| Context.TierIsExact | crates/aios-core/src/context_builder.rs:89-174 | The tier of a summary is the daemon's exactly if some event's is. |
| SummaryLaws.ListedByFirstShowing | crates/aios-core/src/context_builder.rs:102-142 | The foreground list holds, once each and in the order of first showing, exactly the apps that came to the foreground, ran as a process or acted on another app; the notified list those that notified. |
| SummaryLaws.DurationIsFloor | crates/aios-core/src/context_builder.rs:65-86 | A window's duration is its length in whole seconds rounded down while that fits 32 bits, and zero if it ends before it starts. |
| ReplayWindows.RunWindows | crates/aios-cli/src/replay.rs:294-342 | The replay loop cuts the trace into windows that tile it: each starts where the last ended, covers the next stretch of events, and, unless it is the last, was closed by an event at least the window length after its start; the last ends with the latest capture. |
| ReplayWindows.WindowingIsUnique | crates/aios-cli/src/replay.rs:294-342 | These conditions leave only one list of windows for a trace, summaries and durations included. |
| ReplayWindows.NothingLost | crates/aios-cli/src/replay.rs:294-342 | Every event of the trace is in exactly one window, in trace order, and no window is empty. |
| ReplayWindows.EventsLieInTheirWindow | crates/aios-cli/src/replay.rs:294-342 | When capture times never decrease, every event lies in [start, start + length) of its window, and every window but the last spans at least the length. |
| Calendar.CivilInvertsDayNumber | crates/aios-agent/src/backends/cloud_llm/mod.rs:463-493 | For every valid Gregorian date of any year, civil-from-days takes the loader's day number back to the date. |
| Calendar.DayNumberIsCount | crates/aios-cli/src/next_app/loader.rs:341-352 | The closed-form day number of a date is the number of days counted one at a time from 1970-01-01 under the leap-year rule of Appendix C of RFC 3339, forwards or backwards, and no other number leads to that date. |
| Calendar.DayNumberCounts | crates/aios-cli/src/next_app/loader.rs:341-352 | Counting n days from 1970-01-01 arrives at a date whose closed-form day number is n, for every integer n. |
| Calendar.NextDayAddsOne | crates/aios-cli/src/next_app/loader.rs:341-352 | Turning a calendar page adds one to the day number, across months, leap days and centuries. |
| Calendar.CivilIsValid | crates/aios-agent/src/backends/cloud_llm/mod.rs:463-493 | Civil-from-days always yields a valid date, whose day number is the one it was given. |
| Calendar.RoundTrip | crates/aios-cli/src/next_app/loader.rs:324-355 | For every timestamp from 1970 on that the loader accepts, printing it gives back the year, month, day and time of day if and only if the date exists; the loader itself accepts days such as 31 February. |
| Calendar.TimeFeatures | crates/aios-cli/src/next_app/loader.rs:381-389 | The hour feature of an encoded time is its hour, and the weekday feature moves on by one with every calendar day. |
| Policy.CollectKnownTargets | crates/aios-core/src/policy_engine.rs:354-393 | The sweep over the window collects exactly the packages its summary or events mention. |
| Policy.EvaluateIntent | crates/aios-core/src/policy_engine.rs:118-260 | The engine's pass, which stops approving at the cap, gives each action the verdict defined for it on its own: the intent's refusal, the cap, the action's first failing gate, or approval. |
| Policy.EvaluateBatchWithContext | crates/aios-core/src/policy_engine.rs:96-116 | A batch gets one decision for each action, in order, under the targets its window mentions. |
| Policy.ApprovedIsCapped | crates/aios-core/src/policy_engine.rs:162-259 | An intent past its own gates gets the smaller of the cap and the number of passing actions approved; one that fails them gets none. |
| Policy.ApprovedAreTheFirstPassing | crates/aios-core/src/policy_engine.rs:162-259 | The approved actions are exactly the first max_actions_per_batch actions that pass every per-action gate. |
| PolicyGates.ApprovedExactly | crates/aios-core/src/policy_engine.rs:118-393 | An action is approved if and only if its intent's risk and confidence pass, fewer actions than the cap were approved before it, no blocked text occurs in its name, it is not deferred, the capability lists it, and its target is admissible: written out per action type over the packages the window mentions and the scopes own:, notif:, work:, cache:prefetch, cache:all, url: and uri:. |
| PolicyGates.ReasonIsFirstFailingGate | crates/aios-core/src/policy_engine.rs:118-260 | A denial carries the reason of the first failing gate, in the order risk by capability, risk by configuration, confidence, cap, blocked name, urgency, capability, target; each gate is looked at on its own. |
| PolicyGates.RoutesFormAChain | crates/aios-spec/src/intent.rs:165-202 | The routes' capabilities form a strict chain from the fallback over the rules and the local evaluator to the cloud, which alone may act on Medium risk; prewarming and prefetching start with the local evaluator. |
| Policy.EnlargingNeverApprovesFewer | crates/aios-core/src/policy_engine.rs:118-260 | A larger capability never lowers the number of approved actions of an intent. |
| Policy.WithdrawnExactly | crates/aios-core/src/policy_engine.rs:162-259 | An approval is withdrawn by a larger capability exactly when its action, counted among the actions that now pass, is past the cap; the reason is then the cap. |
| Policy.EnlargingMayWithdrawApproval | crates/aios-core/src/policy_engine.rs:162-184 | This does happen: a capability, a larger one and an intent. |
| Lifecycle.Run | crates/aios-core/src/action_lifecycle.rs:55-151 | Driving the batch yields exactly the defined records and adapter calls; the coordinate lookup never comes up empty. |
| Lifecycle.IndexDecisions | crates/aios-core/src/action_lifecycle.rs:55-92 | Every action of the batch has a decision under its coordinates, and it is that action's own verdict. |
| Lifecycle.Drive | crates/aios-core/src/action_lifecycle.rs:94-147 | One action taken through the machine ends as its schema check, its verdict and the adapter's answer determine. |
| Lifecycle.AuditTrail | crates/aios-core/src/action_lifecycle.rs:55-151 | One record for each suggested action in lexicographic order; each on one of the five legal paths, ending in its terminal state, with a reason, outcome or error exactly where that state calls for one; the adapter gets each approved well-formed action once, in order, and nothing else. |
| Lifecycle.DispatchesAreExact | crates/aios-core/src/action_lifecycle.rs:110-147 | The credentials handed out are those of the dispatching actions, each once and in order. |
| Lifecycle.RecordIsLegal | crates/aios-spec/src/governance.rs:199-224 | A record's transitions form a legal path that ends in its terminal state. |
| Endings.EndingIsExact | crates/aios-core/src/action_lifecycle.rs:94-189 | A record ends rejected exactly if the action is a prewarm without a target or a NoOp of a High-risk intent; otherwise denied by the capability exactly if the intent's risk exceeds it, or it does not list the action and no earlier gate fails; otherwise denied by the policy exactly if some gate fails; otherwise succeeded or failed as the adapter answers. |
| ReplayStages.ProcessWindow | crates/aios-cli/src/replay.rs:364-551 | One replayed window: from the policy stage on, policy-only and execution add the same approved and rejected intents and authorized and denied actions, those of the policy's decisions. |
| ReplayStages.ReplayAll | crates/aios-cli/src/replay.rs:408-537 | Over a whole replay these four totals are functions of the windows' jobs alone, the same for both stages. |
| ReplayStages.PolicyBranch | crates/aios-cli/src/replay.rs:408-462 | The policy branch, which groups decisions by intent, counts every decision once, and each denial under its reason. |
| ReplayStages.ExecuteBranch | crates/aios-cli/src/replay.rs:489-537 | The execution branch counts the same from finished audit records, and failures and records besides. |
| ReplayStages.ByIntentIsTotal | crates/aios-cli/src/replay.rs:408-462 | Going through decisions intent by intent counts each exactly once, whatever is counted. |
| ReplayStages.RulingsAgree | crates/aios-core/src/action_lifecycle.rs:94-147 | Action by action, execution authorizes what policy approves; it names the policy's reason unless the schema check spoke first. |
| ReplayStages.StagesAgreeExactly | crates/aios-core/src/action_lifecycle.rs:155-175 | For a configuration and a capability: execution dispatches exactly what policy approves, on every batch, if and only if High risk is barred by one of them, or NoOp is not allowed, is blocked, or the cap is zero. |
| ReplayStages.ApprovedIsWellFormed | crates/aios-core/src/action_lifecycle.rs:155-175 | Under that condition schema checking removes only actions that policy denies. |
| ReplayStages.RoutesBarHighRisk | crates/aios-spec/src/intent.rs:165-202 | Every route's capability bars High risk. |
| ReplayStages.HighRiskSplitsStages | crates/aios-core/src/action_lifecycle.rs:155-175 | Whenever the condition fails, a NoOp for a High-risk intent is approved by policy and rejected by the schema check. |
| ReplayStages.DenialCountsDiffer | crates/aios-cli/src/replay.rs:489-537 | For each reason, the policy stage's denial count exceeds the execution stage's by exactly the denials that the schema check anticipated. |
| Memory.ModelMemoryStore.ObserveWindow | crates/aios-core/src/context_memory.rs:247-315 | One observation takes the store from its old value to the one obtained by resolving, fading, noting and registering, in that order. |
| Memory.ModelMemoryStore.ResolvePendingPrewarms | crates/aios-core/src/context_memory.rs:393-426 | Every waiting prewarm is settled or kept waiting one window more. |
| Memory.ModelMemoryStore.DecayMomentum | crates/aios-core/src/context_memory.rs:381-391 | All score maps fade and are pruned; counts stay. |
| Memory.MomentumTracksHistory | crates/aios-core/src/context_memory.rs:499-512 | Over any run of sightings and fadings, a pruned score never exceeds the exact discounted sum, is short by at most 1/99 of itself while the key is present, and stands for at most 1/99 once it is gone; counts are exact. |
| Memory.FadeTracks | crates/aios-core/src/context_memory.rs:503-512 | One fading with pruning keeps that bound, in every case of present, pruned and absent keys. |
| Memory.StoreTracksRun | crates/aios-core/src/context_memory.rs:253-311 | The same holds for the six score maps a window is noted in, against the history of the windows the store observed, from a fresh store on. |
| PrewarmScores.OutcomesTrackRun | crates/aios-core/src/context_memory.rs:393-441 | And for the hit and miss maps, against the outcomes of the look-aheads window by window, which are noted before their window's fade. |
| PrewarmScores.ResolvingNotes | crates/aios-core/src/context_memory.rs:393-426 | Resolving the queue notes exactly the packages whose look-ahead comes to its outcome in that window, in the order of registration. |
| Memory.DiscountedIsBounded | crates/aios-core/src/context_memory.rs:381-391 | The exact discounted sum of keys listed at most once a window stays below the geometric series. |
| Memory.ForegroundMomentumBounded | crates/aios-core/src/context_memory.rs:253-262 | Foreground momentum never exceeds 1000/(1000 - decay_milli), because a summary lists each app at most once. |
| Memory.FateIsFirstShowing | crates/aios-core/src/context_memory.rs:393-426 | A registration's fate, as a look-ahead: a hit at the first of the next N windows that shows its package, a miss at exactly the N-th when none does, otherwise waiting. |
| Memory.ResolvingLooksFurther | crates/aios-core/src/context_memory.rs:393-426 | Resolving the queue in one window extends every waiting look-ahead by that window, and books each hit and miss once, under its package. |
| Memory.QueueIsLookAhead | crates/aios-core/src/context_memory.rs:247-315 | After any run the pending queue, the hits and the misses are those of the look-aheads of all registrations. |
| Memory.PrewarmsAreConserved | crates/aios-core/src/context_memory.rs:463-481 | After any run, for each package, hits and misses and pending entries add up to the registrations, and every pending entry has observed fewer than N windows. |
| PrewarmOrigin.QueuedPackagesWereSeen | crates/aios-core/src/context_memory.rs:463-481 | Whatever backend proposed it and however the adapter behaves, a prewarm that enters the queue was dispatched in its window and names a package that window mentions, up to surrounding blanks. |
| PrewarmOrigin.RecordIsQueued | crates/aios-core/src/context_memory.rs:463-481 | A record adds exactly one entry to the queue, its target, the trimmed remainder and no window observed, if it is a prewarm that succeeded on pkg: followed by something not blank; any other record adds nothing. |
| PrewarmOrigin.QueueCountsSuccesses | crates/aios-core/src/context_memory.rs:463-481 | Over a window's whole work, for each package, the queue grows by exactly the number of dispatched prewarms of it whose adapter call returned well. |
| OutcomeCounts.CountsAreOutcomes | crates/aios-core/src/context_memory.rs:276-295 | For each action type the success, failure and denial counts grow by exactly the calls answered well, the calls that failed, and the actions turned away for their form or by policy. |
| OutcomeCounts.ConfigurationIsClamped | crates/aios-core/src/context_memory.rs:140-174 | A configured decay and horizon are kept within 999 and 1 to 20, and moved to the nearest bound otherwise. |
| Text.TrimIsExact | crates/aios-core/src/context_memory.rs:492-497 | Trimming takes blanks, and only blanks, off both ends until none is left there. |
| Router.DecisionRouter.EvaluateModelInput | crates/aios-agent/src/router/mod.rs:354-431 | A call takes the route, fails or not, and updates the remembered failures as defined by the state before it. |
| Router.DecisionRouter.CountRecentErrors | crates/aios-agent/src/router/mod.rs:81-87 | The filter over the remembered failures counts those at or after the cutoff: one window back, or a second reading of the clock where the clock cannot represent that. |
| Router.CloudOnlySeesInsensitiveWindows | crates/aios-agent/src/router/mod.rs:436-514 | Over every run, a call goes to the cloud exactly when fewer than threshold failures of the streak before it are recent, the cloud is ready, the privacy score is within its threshold, no event is actionable locally and at least two kinds of hints occur. |
| RoutingSignals.RouteIsExact | crates/aios-agent/src/router/mod.rs:436-567 | Over every run, a call's route: fallback if enough of the streak is recent; else the rules if more places of the window than allowed hold a verification code or a financial context; else the local evaluator if some event is file activity, an app coming to the foreground, or a notification with a file, an image or a link; else the rules unless two different hints occur; else the cloud if it is ready. |
| RoutingSignals.ScoreCountsPlaces | crates/aios-agent/src/router/mod.rs:516-533 | The privacy score is the number of pairs of a notification and a position in it that hold a verification code or a financial context. |
| RoutingSignals.SensitiveWindowsStayLocal | crates/aios-agent/src/router/mod.rs:436-514 | Whatever the run, a window with more such places than allowed goes to the rules when the breaker is closed, and never to the cloud. |
| RoutingSignals.FailureIsExact | crates/aios-agent/src/router/mod.rs:374-431 | A call fails exactly when the backend that answered it reports an error, and a call that falls back never does. |
| RoutingSignals.RecentErrorsAreCounted | crates/aios-agent/src/router/mod.rs:81-87 | The recent-error count is the number of remembered failures at or after the cutoff. |
| Router.ErrorsAreTheStreak | crates/aios-agent/src/router/mod.rs:70-87 | Over every run, the stored failures are exactly those since the last call that did not fail. |
| Router.StreakMeaning | crates/aios-agent/src/router/mod.rs:374-431 | That streak is the longest run of failing calls at the end of the history. |
| Router.TripsOnlyAfterStreak | crates/aios-agent/src/router/mod.rs:436-449 | A call falls back exactly when enough of the streak is recent, hence only after at least threshold consecutive failing calls. |
| Router.NeverFallsBackTwice | crates/aios-agent/src/router/mod.rs:374-431 | With a threshold of at least one, two consecutive calls never both fall back. |
| Router.BoundIsExact | crates/aios-agent/src/router/mod.rs:81-87 | For every threshold of at least one, window, earliest representable instant and clock value: the recent-error count stays within the threshold in all monotone runs from that value on if and only if the value is at least one window past the earliest instant, so that the cutoff subtraction never fails. |
| Router.BoundIsExactWhenReadOnce | crates/aios-agent/src/router/mod.rs:81-87 | If the clock does not move between the two readings of one call, the condition is weaker by one instant, and again exact. |
| Router.RecentErrorsAreBounded | crates/aios-agent/src/router/mod.rs:81-87 | Under either condition every run keeps the bound. |
| Router.YoungClockOverflows | crates/aios-agent/src/router/mod.rs:81-87 | For every threshold and every younger clock, threshold failures at one instant and one more drop out of the count and exceed the threshold once the clock is one window old. |
| Tailer.AndroidJsonlTailer.PollLines | crates/aios-collector/src/android_jsonl.rs:124-174 | A poll changes offset and unfinished line and yields lines as defined by the state before it and the file it finds. |
| Tailer.AndroidJsonlTailer.TakeCompleteLines | crates/aios-collector/src/android_jsonl.rs:197-226 | The complete lines of the unfinished text and the new chunk are yielded without carriage returns, blanks dropped, and the text after the last newline is kept. |
| Tailer.TerminatedOfConcat | crates/aios-collector/src/android_jsonl.rs:197-226 | Splitting a text in two pieces, the unfinished line carried over, is splitting it at once, for every cut. |
| Tailer.SplitIsTerminatedAndPartial | crates/aios-collector/src/android_jsonl.rs:197-226 | Splitting at newlines gives the terminated lines followed by the unfinished one. |
| Tailer.KeptExactly | crates/aios-collector/src/android_jsonl.rs:197-214 | Each piece that is not empty is yielded, trimmed, in its place among them, and nothing else is. |
| Tailer.TrimmedExactly | crates/aios-collector/src/android_jsonl.rs:197-214 | A line loses its trailing carriage returns, all of them and nothing else. |
| Tailer.FirstVisibleExactly | crates/aios-collector/src/android_jsonl.rs:185-195 | The character a chunk is judged by is the first one that is not white space. |
| Tailer.PollKeepsUp | crates/aios-collector/src/android_jsonl.rs:124-226 | A poll that starts anywhere but at a misleading place yields exactly the lines completed since, and leaves offset and unfinished line as a fresh pass would. |
| Tailer.FollowKeepsUp | crates/aios-collector/src/android_jsonl.rs:124-226 | Over any schedule of appends and polls that avoids misleading places, the yielded lines are those of the whole text read so far, each once and in order. |
| Tailer.FollowingIsSplitting | crates/aios-collector/src/android_jsonl.rs:185-195 | Following agrees with one-shot splitting under every schedule if and only if the file has no misleading place: a line end, with a line before it, after which the first visible character is not an opening brace. |
| Tailer.MisleadingRepeats | crates/aios-collector/src/android_jsonl.rs:185-195 | At every misleading place the tailer does go wrong: a poll there makes the next one yield all earlier lines again. |
| Tailer.JsonlIsFollowed | crates/aios-collector/src/android_jsonl.rs:124-226 | A file whose non-blank lines begin with an opening brace is followed exactly under every schedule. |
| Tailer.TruncationStartsOver | crates/aios-collector/src/android_jsonl.rs:135-184 | A poll that finds the file shorter than its offset reads it like a new one. |
| Canonical.CanonicalizeIsCanonical | crates/aios-cli/src/replay.rs:596-615 | Canonical values have their objects' keys sorted and free of volatile keys at every depth. |
| Canonical.NormalForm | crates/aios-cli/src/replay.rs:596-615 | Two values canonicalize equally if and only if they are equal up to key order and volatile entries at every depth. |
| Canonical.ContentKept | crates/aios-cli/src/replay.rs:43-49 | Canonicalizing keeps everything but volatile entries. |
| Canonical.Idempotent | crates/aios-cli/src/replay.rs:596-615 | Canonicalizing twice changes nothing more. |
| Bridge.NumberReadsBack | crates/aios-action/src/android_adapter.rs:217-226 | A printed number reads back, and consists of digits and a sign only. |
| Bridge.EnvelopesDiffer | crates/aios-action/src/android_adapter.rs:217-226 | Equal canonical envelopes come from equal issue time, expiry and action text, whatever characters they hold. |
| Bridge.ActionsDiffer | crates/aios-cli/src/android_bridge.rs:193-208 | Equal canonical actions come from equal times, type, target and urgency, whatever characters the fields hold. |
| Bridge.HmacDigest | crates/aios-cli/src/android_bridge.rs:210-236 | The hand-written loop computes the keyed hash of section 2 of RFC 2104 over any hash with 32-byte digests, for keys of every length. |
| Bridge.FillKeyBlock | crates/aios-cli/src/android_bridge.rs:210-222 | The key block is the key, or its hash if it is longer than a block, padded with zeros. |
| Bridge.FoldKey | crates/aios-cli/src/android_bridge.rs:224-231 | The pad arrays are the key block with each byte exclusive-or the pad byte. |
| Ensemble.WeightedHitAt1 | crates/aios-agent/src/backends/predictive/ensemble.rs:361-388 | The objective is the share of examples whose label is the unique top of the fused scores, ties broken by name. |
| FusionOrder.FusedScoreIsTotalGain | crates/aios-agent/src/backends/predictive/ensemble.rs:366-376 | For any rankings and weights, an app's fused score is the sum over its places of the weight times the reciprocal of one plus the place, plus half the score; exactly the apps some weighted component lists have one. |
| FusionOrder.OneRankingKeepsOrder | crates/aios-agent/src/backends/predictive/ensemble.rs:366-386 | Fusing one ranking of distinct apps whose scores never increase, under a positive weight, keeps its order, so that its first app is on top. |
| FusionOrder.MovingUpPays | crates/aios-agent/src/backends/predictive/ensemble.rs:366-376 | Exchanging two neighbours with equal scores in one component's ranking raises the fused score of the one that moves up, lowers the other's by as much, and touches no third app. |
| Ensemble.FindTop | crates/aios-agent/src/backends/predictive/ensemble.rs:378-384 | Whatever the order of the entries, the maximum found is the highest score, the first name among equals. |
| Ensemble.TopIsUnique | crates/aios-agent/src/backends/predictive/ensemble.rs:378-384 | There is only one such top. |
| Ensemble.AscendCoordinate | crates/aios-agent/src/backends/predictive/ensemble.rs:266-281 | Trying the grid for one weight leaves the best value in place, changes no other weight, and knows the objective at the result; without improvement the old weight stays. |
| Ensemble.Sweep | crates/aios-agent/src/backends/predictive/ensemble.rs:264-285 | After a sweep the remembered best hit is the objective at the current weights; a sweep without improvement has shown them optimal against every single change on the grid. |
| Ensemble.FitRrfCombiner | crates/aios-agent/src/backends/predictive/ensemble.rs:247-295 | The fitted weights never score below the starting ones; if the ascent stopped on an unimproved sweep they are optimal against every single-weight grid change, otherwise every sweep gained at least one example. |
| Ensemble.HigherRateMoreHits | crates/aios-agent/src/backends/predictive/ensemble.rs:361-388 | A higher rate is a higher number of hits. |
| Artifacts.ValidateArtifact | crates/aios-agent/src/backends/predictive/predictor.rs:225-381 | The validator, with its early exits, accepts exactly the artifacts with a non-empty duplicate-free vocabulary, matching vector sizes, score lists of distinct vocabulary apps, full where required, well-formed keys, and valid combiners. |
| Artifacts.ValidateScoreList | crates/aios-agent/src/backends/predictive/predictor.rs:417-444 | A score list is accepted exactly when it lists distinct vocabulary apps, all of them where a full list is required. |
| Artifacts.ValidateCombiner | crates/aios-agent/src/backends/predictive/predictor.rs:383-415 | A combiner is accepted exactly when it is empty or pairs distinct known components with non-negative weights. |
| Artifacts.FittedCombinerIsValid | crates/aios-agent/src/backends/predictive/ensemble.rs:290-294 | What the fitting produces passes the validator. |
| Predictor.Load | crates/aios-agent/src/backends/predictive/predictor.rs:13-25 | A predictor is built exactly for valid artifacts, and its index maps every vocabulary app to its place. |
| Predictor.RankNaiveBayes | crates/aios-agent/src/backends/predictive/predictor.rs:64-82 | The in-place sums over feature vectors give each app its prior plus the log probabilities of every feature, ranked after normalisation. |
| Predictor.RankFeatureLift | crates/aios-agent/src/backends/predictive/predictor.rs:209-222 | The indexed writes give each app its base score plus what the trees with an active feature list for it; every index is in bounds. |
| Predictor.RankMarkovContext | crates/aios-agent/src/backends/predictive/predictor.rs:173-207 | The hour and weekday tables add up by app, and the ranking does not depend on the order in which the entries are visited. |
| Predictor.HourAndWeekdayShareKeys | crates/aios-agent/src/backends/predictive/predictor.rs:180-193 | An hour and a weekday use the same table entry exactly when they are the same number, so that the two are mixed up. |
| Predictor.PreviousAppIsNewest | crates/aios-agent/src/backends/predictive/predictor.rs:450-456 | The previous app is the newest one in the history that is not the current app, and there is none exactly when every entry is the current app. |
| RankingSources.MarkovSources | crates/aios-agent/src/backends/predictive/predictor.rs:84-105 | The Markov ranking is the user's table for the current app, else the global one for it, else the global one for the last app of the history, else popularity. |
| RankingSources.Order2Sources | crates/aios-agent/src/backends/predictive/predictor.rs:110-121 | The order-2 ranking is the table of the newest other app and the current one, or nothing. |
| RankingSources.UserSources | crates/aios-agent/src/backends/predictive/predictor.rs:123-162 | The three user components are their tables' entries, or nothing; the last app opened from the current one stands alone with score one. |
| RankingSources.FeatureKeysAreExact | crates/aios-agent/src/backends/predictive/predictor.rs:458-482 | The active features are exactly those of the user, the current app, the last app, the last three apps by age, hour, weekday and event. |
| RankingSources.EachFeatureAdds | crates/aios-agent/src/backends/predictive/predictor.rs:64-82 | Each feature adds the app's log probability under it, or the one for unknown features, to the app's log prior. |
| RankingSources.EachTreeAdds | crates/aios-agent/src/backends/predictive/predictor.rs:209-222 | Each tree whose feature is active adds the score it lists for the app to the app's base score. |
| RankingSources.LikeliestIsServedFirst | crates/aios-agent/src/backends/predictive/predictor.rs:39-82 | With naive Bayes and with feature lift the app served first has the highest logit among the apps other than the current one, for any positive increasing exponential. |
| Predictor.CandidateFeatureRows | crates/aios-agent/src/backends/predictive/ensemble.rs:416-437 | Each candidate's row holds, for every component, its reciprocal rank, score and top flag, or zeros where it is not listed; no write leaves its row, and the current app has no row. |
| RankingSources.RowIsExact | crates/aios-agent/src/backends/predictive/ensemble.rs:425-434 | In a row, component by component: the reciprocal of one plus the place, the score and one if it is first, or three zeros if the component does not list the app. |
| Predictor.RankEnsembleRrf | crates/aios-agent/src/backends/predictive/ensemble.rs:100-126 | The runtime fusion ranks the same fused scores as the fitting objective, under the weight the combiner lists for each component. |
| Predictor.RankEnsembleLogistic | crates/aios-agent/src/backends/predictive/ensemble.rs:63-79 | The reranker orders the candidates by the sigmoid of the weighted feature rows. |
| Predictor.RankEnsembleLegacy | crates/aios-agent/src/backends/predictive/ensemble.rs:81-98 | The fixed-weight fusion adds three components' scores by app. |
| RankingSources.LegacyScoreIsBlend | crates/aios-agent/src/backends/predictive/ensemble.rs:81-98 | An app's fixed-weight score is three tenths of naive Bayes, four tenths of Markov and three tenths of feature lift. |
| Predictor.FittedWeightsAreUsed | crates/aios-agent/src/backends/predictive/types.rs:121-126 | A fitted combiner weighs each component at run time exactly as during the fitting. |
| Predictor.FirstIsTop | crates/aios-agent/src/backends/predictive/ensemble.rs:100-126 | The app a fused ranking puts first is the one the fitting objective compares with the label. |
| Predictor.Rank | crates/aios-agent/src/backends/predictive/predictor.rs:39-62 | Whichever algorithm ranks, the current app is dropped, popularity stands in when nothing is left, and the list is cut to k. |
| Predictor.ServedIsSafe | crates/aios-agent/src/backends/predictive/predictor.rs:39-62 | For every valid artifact, algorithm, feature vector and k: at most k distinct vocabulary apps, never the current one, and none at all if and only if k is zero or the vocabulary has no other app. |
| Ranking.RankEntries | crates/aios-agent/src/backends/predictive/predictor.rs:201-206 | Collecting the entries of a map in any order and sorting them gives one and the same ranking. |
| Ranking.RankingIsUnique | crates/aios-agent/src/backends/predictive/mod.rs:47-49 | Score order with names as tie-break leaves only one arrangement of a map's entries. |
| Ranking.SharesAreFull | crates/aios-agent/src/backends/predictive/predictor.rs:490-505 | Ranking by logits lists every vocabulary app once, in order. |
| Ranking.NormalisingKeepsOrder | crates/aios-agent/src/backends/predictive/predictor.rs:490-505 | Normalising by exponentials does not change which app ranks above which, for any positive increasing exponential. |
| LocalScore.Score.AddGrouped | crates/aios-agent/src/backends/local_evaluator.rs:592-611 | A grouped boost adds what is left of its group's cap at most; a boost with no room left is only tagged. |
| LocalScore.Score.ApplyWindow | crates/aios-agent/src/backends/local_evaluator.rs:613-630 | The window's penalties apply in order and the value is clamped to [0, 0.99]. |
| LocalScore.GroupsAddUpToTheirCap | crates/aios-agent/src/backends/local_evaluator.rs:592-611 | Whatever the order and number of boosts, each group contributes exactly the smaller of its cap and the sum asked for. |
| LocalScore.ConfidenceStaysBelowOne | crates/aios-agent/src/backends/local_evaluator.rs:613-630 | No confidence exceeds 0.99, feedback included; there is no lower bound, as feedback applies after the clamp. |
| LocalBackend.EvaluateIntents | crates/aios-agent/src/backends/local_evaluator.rs:59-253 | The event loop, the low-battery proposal, the filter, the dedupe and the idle fallback give exactly the defined intents. |
| LocalBackend.FinalizeCandidates | crates/aios-agent/src/backends/local_evaluator.rs:664-721 | Filtering, deduplicating through a hash map and sorting give one result, whatever order the map yields its values in. |
| LocalBackend.Deduplicate | crates/aios-agent/src/backends/local_evaluator.rs:682-697 | The dedupe loop keeps, replaces and merges as defined candidate by candidate. |
| LocalBackend.DedupKeepsTheBest | crates/aios-agent/src/backends/local_evaluator.rs:682-697 | Each key keeps the first of its proposals that reach its highest confidence; no key is lost or invented. |
| LocalBackend.DedupKeepsTags | crates/aios-agent/src/backends/local_evaluator.rs:800-806 | The kept proposal carries exactly the tags of all duplicates of its key. |
| LocalBackend.ChosenAreTheBest | crates/aios-agent/src/backends/local_evaluator.rs:699-721 | At most max_intents distinct keys in order of confidence and key, each with its best proposal, and a surviving proposal's key is left out only when the list is full of proposals that rank at least as high. |
| CandidateKeys.KeysAreExact | crates/aios-agent/src/backends/local_evaluator.rs:766-798 | Two surviving proposals of a window share a key if and only if they have the same intent and actions, or one is a switch to p with its prewarm kept and the other a switch to p followed by a separator, PreWarmProcess:pkg: and p. |
| CandidateKeys.ProposalsAreShaped | crates/aios-agent/src/backends/local_evaluator.rs:59-253 | What a surviving proposal has left to do follows from its intent and the screen signal. |
| CandidateKeys.CollisionLosesAProposal | crates/aios-agent/src/backends/local_evaluator.rs:664-721 | For every package-like p, a window in which both of these apps come to the foreground yields two different surviving proposals and only one intent. |
| LocalBackend.LocalActionsAreApproved | crates/aios-agent/src/backends/local_evaluator.rs:59-253 | For every window and all scores, each action of a LocalEvaluator intent is Approved by the default policy under the LocalEvaluator capability if the intent's confidence is at least 0.3, and denied for low confidence otherwise. |
| LocalBackend.LocalRestraint | crates/aios-agent/src/backends/local_evaluator.rs:723-764 | No LocalEvaluator intent prefetches while the window's signals are offline or low battery without charging, and none prewarms a package while the screen is not interactive or under a name that does not look like a package's. |
| LocalBackend.SignalsAccumulate | crates/aios-agent/src/backends/local_evaluator.rs:512-555 | Each of the five signals is raised exactly when the summary's status or some event of the window raises it; later events do not lower it. |
| LocalConfidence.ProposalConfidence | crates/aios-agent/src/backends/local_evaluator.rs:587-630 | Without feedback, a proposal's confidence is its base, its own boosts, the capped sums of its groups and the window's penalties, clamped. |
| LocalConfidence.BelowTheFloorExactly | crates/aios-agent/src/backends/local_evaluator.rs:69-204 | Which surviving proposals fall below 0.3: with boosts of their own alone, exactly a switch under low battery, cellular, offline and screen signals together, and an ongoing notification's app that is not in front, on low battery and offline, and cellular too if it has a link; group boosts can only save them. |
| PredictiveBackend.KnownPackages | crates/aios-agent/src/backends/predictive/backend.rs:143-168 | The backend's own sweep collects the same packages as the policy engine's. |
| PredictiveBackend.HistoryIsLastFive | crates/aios-agent/src/backends/predictive/backend.rs:98-105 | The history feature is the last five remembered foreground apps in the order they were seen. |
| PredictiveBackend.EvaluateModelInput | crates/aios-agent/src/backends/predictive/backend.rs:44-92 | The backend's intents are those of the five best served predictions, or one idle intent. |
| PredictiveBackend.PredictiveActionsAreApproved | crates/aios-agent/src/backends/predictive/backend.rs:179-215 | For every window and every prediction, each action is Approved by the default policy under the LocalEvaluator capability. |
| PredictiveBackend.PredictiveIntentsAreDistinct | crates/aios-agent/src/backends/predictive/backend.rs:44-92 | One to five intents for distinct vocabulary apps, none for the current app; a lone idle intent if and only if the vocabulary has no other app. |
| RuleBackend.GenerateIntents | crates/aios-agent/src/backends/rule_based.rs:29-215 | The sweep with its flags, and the pushes that follow, give exactly the intents the signals of the window call for, in order. |
| RuleSignals.IntentsAreCalledFor | crates/aios-agent/src/backends/rule_based.rs:29-215 | An intent is proposed if and only if the events call for it, each of the seven written out with its signal, confidence, action, target, urgency and tag; the idle one exactly when nothing else is called for. |
| RuleSignals.IntentsAreOrdered | crates/aios-agent/src/backends/rule_based.rs:106-202 | The proposals come in a fixed order, at most one of each kind. |
| RuleBackend.WorstOffenderIsWorst | crates/aios-agent/src/backends/rule_based.rs:70-85 | The process reported for memory pressure is the first of the heaviest ones over either threshold. |
| RuleBackend.RuleVerdicts | crates/aios-agent/src/backends/rule_based.rs:29-215 | In every window with the summary of its own events, a rule-based action is Approved under the RuleBased capability if and only if it has no target, or one that is not empty and not a pkg: name whose remainder the window does not mention; otherwise it is denied for its target. |
| RuleBackend.WindowIsApprovedExactly | crates/aios-agent/src/backends/rule_based.rs:29-215 | In such a window everything the rules propose is Approved if and only if the first notified app, the first app that came to the foreground and the heaviest process's package, as far as there are such, are not empty and not pkg: names whose remainder the window does not mention. |
| RuleBackend.RuleActionsAreApproved | crates/aios-agent/src/backends/rule_based.rs:29-215 | In particular where no mentioned package is empty or prefixed pkg:. |
| RuleBackend.UnnamedAppIsRefused | crates/aios-agent/src/backends/rule_based.rs:139-153 | A window in which an app without a name comes to the foreground makes the backend propose what the policy refuses. |
| CompositeBackend.MergeDropsOnlyIdling | crates/aios-agent/src/router/mod.rs:102-158 | Merging two backends that idle at most once keeps all their active intents in order; one idle intent remains when there are none. |
| CompositeBackend.BackendsIdleAlone | crates/aios-agent/src/router/mod.rs:153-166 | Both local backends idle at most once, and only when they propose nothing else. |
| CompositeBackend.LocalProposalsAreDispatched | crates/aios-core/src/action_lifecycle.rs:94-147 | Through the whole lifecycle, an action of the composite local backend is dispatched if and only if its intent's confidence is at least 0.3; it is always well formed, and low confidence is the only reason for which it is denied. |

## Left out

- Floating point: NaN, infinities and rounding are not modelled, so the validator's finiteness test always passes; f32 and f64 values are reals.
- Counters and ordinals of 32 and 64 bits are unbounded, except window durations (modulo 2^32), saturating counts of observed windows, and saturating time differences.
- Tailer.AndroidJsonlTailer.PollLines: offsets and lengths count characters instead of bytes, so a poll that ends inside a multi-byte character, and the error it raises, are not modelled; parse errors, which drop a batch's envelopes, are not either.
- Calendar.CivilInvertsDayNumber: unsigned casts are not modelled; the program only formats times from 1970 on, the lemma holds for every year.
- Event, window and intent identifiers are left empty; tracing, latency and rationale tags of whole batches are left out.
- LocalBackend.EvaluateIntents: which grouped boosts and feedback penalties a proposal gets, from counts, timestamps, profile and past records, is arbitrary; base scores, an event's own boosts, window penalties and the arithmetic are modelled.
- LocalConfidence.BelowTheFloorExactly: over reals; single-precision rounding may decide a confidence of exactly 0.3.
- Artifacts.ValidateCombiner: the test that weights are finite has no counterpart over reals.
- Memory.ModelMemoryStore.ResolvePendingPrewarms: relabelling the outcomes of recent records is left out.
- LocalBackend.LocalActionsAreApproved: the prefetch address table is any function into addresses that start with https://.
- PredictiveBackend.PredictiveActionsAreApproved: scores are reals, so a clamped score is always a number.
- Memory.ModelMemoryStore.ObserveWindow: the bounded list of recent decision records, their relabelling after a prewarm is resolved, and the rendered profile are left out; attribution is stated on counters and pending entries.
- Memory persistence and its migration of stored configuration are left out; a run starts from a fresh store.
- ReplayStages.ReplayAll: the audit hash and the emitted records are left out; file activity has no order in the model.
- Replay stages below Context, which close no window, are left out of `ReplayWindows`.
- Error messages of the artifact validator and of the loader are left out; acceptance is exact.
- Bridge.HmacDigest: the hash is any function with 32-byte digests, and the digest's hexadecimal rendering is left out.
- Training of the tables and of the logistic reranker, and its comparison with the fused ranking, is left out.
- Sockets, HTTP, files, environment, probes, signals and the profile summary thread are left out.
- The sanitizer, the keyword and address tables, reports, the benchmark baselines and the command line are left out.
