# Device logic of the robot's HAL, and its voice-task report

A Dafny model of the parts of the hardware abstraction layer whose behaviour
spans many events: touch recognition, the LED, speaker and camera arbitration
around sleep and privacy, two small concurrency protocols, and the report that
decides how often a spoken task was completed. Each component is a value-level
step function with theorems over all runs, beside a class (or methods with
loops) in the form the program has, proved equal to the step function.

Run `dafny verify dfyconfig.toml` to check all of it.

## Modules

| module | component |
|---|---|
| `Common`, `Ranking` | options, counting over maps, lexicographic maxima |
| `TaskRecords`, `TurnGroups`, `ExecutionEvidence`, `TaskReport`, `ReportRows`, `ReportLimits` | the completion report: log fold, union-find merge, evidence, counting, what each row adds, growing and reordered logs |
| `Debounce` | debouncing as a property of the sample history |
| `TouchButton`, `TouchButtonRuns`, `TouchButtonAnswers` | the timed button recognizer, the grammar of its gestures, and exactly what it answers to each sample |
| `SpatialTouch`, `SpatialMirror`, `SpatialSwipes`, `SpatialTravel`, `SpatialSweeps`, `SpatialOutcomes`, `SpatialContacts` | the electrode-footprint recognizer, its axis symmetry, why it swipes, the shape of a swipe, exactly when it swipes, how contacts end, exactly what they are reported as |
| `ActionQueue`, `Heralds` | the generation-stamped queue between poll and action threads, and why its guard suffices |
| `HoldLed` | the hold LED's request, commit and worker protocol |
| `Mailbox` | the one-slot priority mailbox of a service |
| `SpeakerOverlay`, `CameraOverlay` | user preferences under the privacy lock, sleep, scenes and restarts |
| `LedArbiter` | who owns the LED strip |
| `HeadPat` | head touch sessions, decisions and cooldown |

## Conventions

Times are integer milliseconds, centroids are reals, electrode masks are sets.
A thread's work between two lock releases is one action; a run is any sequence
of actions, so every interleaving at those boundaries is covered. An action that
is not enabled changes nothing. Timers, drains and callbacks may act at any
moment, which allows more runs than the program has. Fields that the program
always resets together are grouped in one value (`SpatialTouch.Contact`).
Canonical JSON texts and event identifiers are compared through injective
real-valued keys, which can carry any total order of a countable set.
A lemma whose name ends in `Exactly` is an equivalence or an equation: it says
what an operation does on every input, in terms of the log or the history where
it can, and never by the function that computes it.

## Where the program falls short of its documentation

Each point is a lemma with a concrete run or input, beside the lemma that says
exactly when the intended property holds.

- Duplicate executions that share an identity but differ in content make the
  report depend on the order of the export (`ReportLimits.ConflictChangesReport`:
  one set of rows, two reports that disagree on how many turns failed). What is
  kept is the set of executions exactly when no two conflict
  (`ExecutionEvidence.UniqueIsSetExactly`).
- Exact ties between an unknown and a missing outcome admit two verdicts
  (`ReportLimits.TieChangesReport`). The verdict is unique exactly when something
  failed, something was cancelled, or the latest evidence is not such a tie
  (`ExecutionEvidence.OneVerdictExactly`).
- A failed turn can stop being failed when delegation evidence arrives
  (`ExecutionEvidence.DelegationUnfails`). It stays failed exactly in the five
  cases of `ExecutionEvidence.DelegationKeepsFailure`. A log without conflicts
  that gains no delegation keeps every such failure in its report
  (`ReportLimits.FailuresStayReported`).
- The mailbox keeps the event being handled in its slot, so a less urgent event
  that arrives meanwhile is lost although nothing else waits
  (`Mailbox.LostBehindHandledEvent`). With nothing waiting an offer is refused
  exactly then (`Mailbox.RefusedThoughIdle`), and an offered event is lost exactly
  if it was refused or overtaken (`Mailbox.LostExactly`).
- A restart between the two halves of a wake leaves the speaker muted if sleep's
  mute had leaked into the speaker's sidecar
  (`SpeakerOverlay.RestartInsideWakeForgets`), and a scene's mute that lands in
  the same window on a speaker sleep still claims is undone by the wake
  (`SpeakerOverlay.SceneInsideWakeUndone`). Every other step leaves the
  preference as asked (`SpeakerOverlay.StepPreference`, an equivalence).
- An unmute cancels a scene's waiting mute, but a drain that has already passed
  its check still mutes: exactly then, and if its scene is still active
  (`SpeakerOverlay.UnmuteRaces`).
- A privacy lock that closes while the camera is opened but not attached
  (`CameraOverlay.LockDuringBoot`), or whose stop call fails
  (`CameraOverlay.LockWithoutStop`), leaves the sensor running; exactly these
  steps do (`CameraOverlay.LockedStaysOff`).
- The guard's `last_response` looks at the lock only once: asked for just before
  the lock closes it still hands its frame over afterwards
  (`CameraOverlay.ResponseOutlivesLock`). `last_frame` and `capture` look twice
  and hand nothing over while the lock is closed; `CameraOverlay.LockedExposesNothing`
  says exactly what does. A read that spans a lock and its release returns a frame
  taken behind it (`CameraOverlay.ReadAcrossLock`).
- A comment calls an early pet one that could not have become a swipe. Two runs
  pat early on what reads as a swipe: a pad touched twice running
  (`HeadPat.RepeatPatsEarly`), and a crossing after a session that saw only a
  release (`HeadPat.CrossingAfterReleasePatsEarly`). `HeadPat.EarlyPetOfSwipe`
  gives the exact condition.

## Model

| member | source | states |
|---|---|---|
| TaskRecords.Collect | scripts/report_voice_task_metrics.py:106-171 | One pass over the rows leaves, per interaction, a snapshot that no other is later than, by revision and then by canonical JSON, all task starts, and the execution log, whatever order the rows came in |
| TaskRecords.LatestIsHighest | scripts/report_voice_task_metrics.py:166-171 | A snapshot is the authoritative one exactly if no other of its interaction has a higher revision, or the same and a greater JSON text |
| TaskRecords.BuildTurn | scripts/report_voice_task_metrics.py:176-195 | A turn's run id is that of its latest bound start, its start time the earliest known, and a task start proves eligibility unless the turn was realtime |
| TaskRecords.BuildRecords | scripts/report_voice_task_metrics.py:173-195 | The records built are exactly those the set of rows determines, without repetition |
| TaskRecords.RecordAtInjective | scripts/report_voice_task_metrics.py:176-195 | Different interactions never give the same record |
| TurnGroups.ConnectedTransitive | scripts/report_voice_task_metrics.py:197-215 | Being linked through shared identifiers is transitive |
| TurnGroups.ConnectedSymmetric | scripts/report_voice_task_metrics.py:197-215 | Being linked through shared identifiers is symmetric |
| TurnGroups.OneDevice | scripts/report_voice_task_metrics.py:197-215 | A merged group never crosses devices |
| TurnGroups.GroupsPartition | scripts/report_voice_task_metrics.py:197-215 | Merged groups cover all records, are disjoint, and two of them share no identifier |
| TurnGroups.Halve | scripts/report_voice_task_metrics.py:199-203 | Path halving changes no root and moves strictly closer to it |
| TurnGroups.Root | scripts/report_voice_task_metrics.py:199-203 | The in-place root search ends at the index's root and leaves every root as it was |
| TurnGroups.Union | scripts/report_voice_task_metrics.py:205-212 | Hanging one root under another gives exactly the merged root function |
| TurnGroups.Join | scripts/report_voice_task_metrics.py:205-212 | After a record meets the owner of one of its identifiers both have one root, and nothing joined before comes apart |
| TurnGroups.MergeAll | scripts/report_voice_task_metrics.py:197-212 | Two records have one root exactly when a chain of shared identifiers connects them |
| TurnGroups.Gather | scripts/report_voice_task_metrics.py:213-215 | Each root's group holds exactly the records with that root |
| TurnGroups.Merge | scripts/report_voice_task_metrics.py:197-215 | The groups are exactly the connected components, each under one key |
| ExecutionEvidence.Deduplicate | scripts/report_voice_task_metrics.py:236-239 | The last execution of each identity is kept |
| ExecutionEvidence.UniqueIsSet | scripts/report_voice_task_metrics.py:236-239 | Without conflicting contents, what is kept is the set of executions, in any order of the log |
| ExecutionEvidence.UniqueIsSetExactly | scripts/report_voice_task_metrics.py:236-239 | What is kept is the set of executions exactly when no two of them conflict |
| ExecutionEvidence.ConflictDependsOnOrder | scripts/report_voice_task_metrics.py:236-239 | Two executions with one identity and different contents: the order decides which is kept |
| ExecutionEvidence.BuildIndex | scripts/report_voice_task_metrics.py:240-246 | The index files exactly the due executions under exactly the identifiers they carry |
| ExecutionEvidence.Match | scripts/report_voice_task_metrics.py:275-279 | A turn's candidates are the due executions carrying one of its identifiers |
| ExecutionEvidence.Judge | scripts/report_voice_task_metrics.py:277-311 | The verdict after the realtime, delegation and lost-observation filters: failed if any evidence failed, else cancelled if any was, else that of the latest |
| ExecutionEvidence.JudgedUnique | scripts/report_voice_task_metrics.py:275-309 | Without ties the verdict is a function of the set of executions |
| ExecutionEvidence.TieDependsOnOrder | scripts/report_voice_task_metrics.py:296-305 | A tie between unknown and incomplete evidence admits two verdicts |
| ExecutionEvidence.OneVerdictExactly | scripts/report_voice_task_metrics.py:296-309 | The verdict on admitted evidence is unique exactly when some of it failed, some was cancelled, or the latest is not a tie of unknown and missing outcome |
| ExecutionEvidence.FailureSticky | scripts/report_voice_task_metrics.py:275-305 | A turn failed by evidence other than delegation or lost observation stays failed when executions that delegate nothing are added |
| ExecutionEvidence.FailureStaysInLog | scripts/report_voice_task_metrics.py:236-305 | The same over a growing log: added executions that delegate nothing never unfail such a turn |
| ExecutionEvidence.DelegationKeepsFailure | scripts/report_voice_task_metrics.py:275-311 | After a delegation arrives a turn failed by other evidence stays failed exactly if it is realtime, was delegated before, has failing harness evidence, the delegation itself failed and nothing follows it, or it has a failure reason and only lost observations follow the delegation, one of them terminal |
| ExecutionEvidence.DelegationUnfails | scripts/report_voice_task_metrics.py:282-294 | A concrete failed turn that a delegation makes unknown |
| TaskReport.PickTurn | scripts/report_voice_task_metrics.py:217-233 | A merged group is represented by its realtime, else proven, else latest record, with the earliest start time |
| TaskReport.LabelsAreBorne | scripts/report_voice_task_metrics.py:257-311 | The labels counted for a turn are exactly those it bears |
| TaskReport.CountLabels | scripts/report_voice_task_metrics.py:257-311 | Each label of a turn is counted once more and no other counter moves |
| TaskReport.CountGroups | scripts/report_voice_task_metrics.py:216-311 | Every merged group is entered once, judged on its own evidence, and every device counter is the number of entries with that label |
| TaskReport.Aggregate | scripts/report_voice_task_metrics.py:327-331 | The total of a label is the number of merged turns of all devices that bear it |
| TaskReport.Report | scripts/report_voice_task_metrics.py:93-336 | The counts are those the rows determine, up to the order of conflicting executions |
| TaskReport.OrderAndReplayInvariant | scripts/report_voice_task_metrics.py:167-311 | Two exports with the same set of rows, permuted or replayed, have equal counts per device and in total |
| TaskReport.Conservation | scripts/report_voice_task_metrics.py:255-336 | Per device and in total, versioned turns split into ineligible, missing start, fresh and mature, mature ones into the five outcomes, and all merged groups are legacy or versioned |
| TaskReport.SettlingLongerOnlyDelays | scripts/report_voice_task_metrics.py:256-274 | Raising the settling time only moves turns from mature to fresh |
| ReportRows.OlderRevisionChangesNothing | scripts/report_voice_task_metrics.py:166-171 | A snapshot older than one already seen of its interaction changes no count of the report |
| ReportRows.PassedOverChangesNothing | scripts/report_voice_task_metrics.py:110-168 | A row observed later than the report, synthetic, of another cohort, or without a device or what its kind needs changes no count |
| ReportRows.RecordedExactly | scripts/report_voice_task_metrics.py:143-195 | A turn is recorded for exactly the interactions that a snapshot or start not passed over names |
| ReportRows.SourcesExactly | scripts/report_voice_task_metrics.py:143-171 | The snapshots and starts of an interaction are those of the rows that name it, a start with the time its row was observed |
| ReportRows.BaseExactly | scripts/report_voice_task_metrics.py:173-195 | The turn of an interaction is built on the snapshot no other is later than, or on a blank one, and on all its starts |
| ReportRows.RunExactly | scripts/report_voice_task_metrics.py:180-186 | A turn has the run of the start seen last among those that name one, or its snapshot's if none does |
| ReportRows.BegunExactly | scripts/report_voice_task_metrics.py:188-193 | A turn with starts began at the earliest of all its start times |
| ReportRows.TurnExactly | scripts/report_voice_task_metrics.py:176-195 | A start proves eligibility unless the turn was answered in realtime, and run and start time aside nothing else of the snapshot changes |
| ReportRows.SharesExactly | scripts/report_voice_task_metrics.py:197-212 | Two records are merged directly exactly if they are of one device and name the same interaction or the same run |
| ReportRows.GroupTurnExactly | scripts/report_voice_task_metrics.py:217-233 | A merged group is counted by the best of its turns and dated by the earliest start of any |
| ReportRows.IdentityExactly | scripts/report_voice_task_metrics.py:236-239 | Two executions count as one exactly if they are of one device and bear the same event id, or bear none and say the same |
| ReportRows.CandidatesExactly | scripts/report_voice_task_metrics.py:240-279 | The evidence of a turn is what executions no later than the report carry under one of its runs or interactions |
| ReportRows.AdmittedExactly | scripts/report_voice_task_metrics.py:277-299 | Which evidence the realtime, delegation and lost-observation filters keep, each told from the evidence itself |
| ReportRows.VerdictExactly | scripts/report_voice_task_metrics.py:296-311 | Failed exactly if admitted evidence failed or there is none and the turn names a failure, cancelled exactly if some was cancelled and none failed, else the outcome of the latest |
| ReportRows.CountedExactly | scripts/report_voice_task_metrics.py:255-274 | What a merged turn is counted as, told from its fields and the clock |
| ReportLimits.FailuresStayReported | scripts/report_voice_task_metrics.py:93-336 | However many executions that delegate nothing a log without conflicts gains, its report counts every such failed mature turn as failed, per device and in total |
| ReportLimits.ConflictChangesReport | scripts/report_voice_task_metrics.py:236-336 | One set of rows has two reports, one with a failed turn and one without |
| ReportLimits.TieChangesReport | scripts/report_voice_task_metrics.py:296-336 | One set of rows has two reports, the turn unknown in one and incomplete in the other |
| Debounce.DebouncedUnique | hal/drivers/mpr121.py:107-126 | A sample history has one debounced value |
| Debounce.RememberStep | hal/drivers/mpr121.py:115-126 | Stable value, candidate and run start are enough memory to debounce one more sample |
| TouchButton.TierMonotone | hal/drivers/mpr121.py:159-161 | Longer holds never reach a lower tier |
| TouchButton.TierCounts | hal/drivers/mpr121.py:159-161 | The tier is the number of thresholds the held time has reached |
| TouchButton.GestureRecognizer.AcceptEdge | hal/drivers/mpr121.py:123-155 | Accepting a debounced edge changes the fields and emits the events of the specification |
| TouchButton.GestureRecognizer.Update | hal/drivers/mpr121.py:107-176 | One sample changes the fields and emits the events of the specification |
| TouchButton.GestureRecognizer.Cancel | hal/drivers/mpr121.py:101-105 | Cancelling drops press, clicks and deadline and disarms until a stable release |
| TouchButtonRuns.DebounceRefinesHistory | hal/drivers/mpr121.py:107-126 | After any samples and cancellations the stable value is that of the latest constant run spanning the delay, else the first sample |
| TouchButtonRuns.GestureGrammar | hal/drivers/mpr121.py:107-176 | With a monotone clock every gesture id tells one story: taps each begun within the click window of the last accepted release, hold tiers that strictly rise and never pass the tier of the held time, then at most one outcome |
| TouchButtonRuns.AtMostOneOutcome | hal/drivers/mpr121.py:123-176 | After a hold, cue or triple a gesture id emits nothing but cancellations |
| TouchButtonRuns.TripleMeansThreeTaps | hal/drivers/mpr121.py:123-176 | A triple follows exactly three accepted presses and three releases below the first threshold, a cue any other number, and the click window has passed |
| TouchButtonRuns.EntriesFromSamples | hal/drivers/mpr121.py:115-160 | Every press and release closes a constant run of samples that spans the delay and is dated by that run's first sample |
| TouchButtonAnswers.AnswersExactly | hal/drivers/mpr121.py:107-176 | In every run, cancelled or not, a sample is answered by exactly the invalidation, press, release, tap, hold, tier and outcome that the gesture told by the log calls for |
| TouchButtonAnswers.ArmedExactly | hal/drivers/mpr121.py:101-166 | The next accepted touch is a press exactly if a release was accepted, or nothing was touched at first, since the last cancellation or fired hold |
| TouchButtonAnswers.BurstResolves | hal/drivers/mpr121.py:168-175 | A burst whose window is over is answered at the next untouched sample, three taps by a triple and any other number by a cue |
| TouchButtonAnswers.StoryResolves | hal/drivers/mpr121.py:107-176 | In every run without cancellations a gesture whose story is between two taps gets its triple or its cue at the first untouched sample 400 ms after the last release |
| SpatialTouch.LastOffExists | hal/drivers/mpr121.py:356-368 | The latest untouched raw edge exists exactly when some electrode reads untouched |
| SpatialTouch.SpatialStepValid | hal/drivers/mpr121.py:213-371 | No sample sequence makes the recognizer use an absent value or the maximum of nothing |
| SpatialTouch.PreparedTrackable | hal/drivers/mpr121.py:265-300 | After debouncing and resolving, everything the rest of the sample needs is present |
| SpatialTouch.SpatialRecognizer.ReadElectrodes | hal/drivers/mpr121.py:270-280 | The loop over electrodes debounces each of them |
| SpatialTouch.SpatialRecognizer.FinishContact | hal/drivers/mpr121.py:233-251 | A contact resolves to a swipe, to nothing, or to a release dated by its raw edge |
| SpatialTouch.SpatialRecognizer.TravelOn | hal/drivers/mpr121.py:322-354 | Movement on the axis updates the contact as specified |
| SpatialTouch.SpatialRecognizer.TrackContact | hal/drivers/mpr121.py:301-370 | The footprint begins, moves, presses or releases a contact as specified |
| SpatialTouch.SpatialRecognizer.Update | hal/drivers/mpr121.py:253-371 | One sample changes all fields, and the button recognizer's, and emits the events of the specification |
| SpatialMirror.MirrorCenter | hal/drivers/mpr121.py:302-327 | The centroid read from the other end of the axis is the mirrored centroid |
| SpatialMirror.MirrorStep | hal/drivers/mpr121.py:189-371 | One sample commutes with reversing the axis |
| SpatialMirror.MirrorRun | hal/drivers/mpr121.py:189-371 | Over every sample sequence, reversing the axis negates the direction of each swipe and changes no other event and no other state |
| SpatialMirror.AxisMirror | hal/drivers/mpr121.py:189-371 | The same symmetry of the event log for every button configuration, with no assumption left |
| SpatialSwipes.StepGoes | hal/drivers/mpr121.py:253-371 | Between two samples a contact stays, moves by its footprint, is spoilt or begins anew, and swipes come only from the contact being resolved |
| SpatialSwipes.RunRecorded | hal/drivers/mpr121.py:306-354 | In every run start, last arrival, pads seen, origin and peak of the contact are those of the samples that brought new pads |
| SpatialSwipes.SwipeJustified | hal/drivers/mpr121.py:233-251 | A reported swipe reached at least min(3, axis length - 1) pads from its origin on the reported side, its last new pad came 30 ms or more after the start, and arrivals were at most 150 ms apart |
| SpatialSwipes.EverySwipeJustified | hal/drivers/mpr121.py:233-354 | Every swipe in the log of a run is justified by the samples before it |
| SpatialTravel.SwipeIsOneSweep | hal/drivers/mpr121.py:322-354 | The arrivals of a reported swipe lie on the axis, never fall back by more than one position once a position away, and a jump of more than three positions continues the travel |
| SpatialTravel.SwipesAreSweeps | hal/drivers/mpr121.py:233-354 | Both for every swipe of a whole log and every button configuration, with no assumption left |
| SpatialSweeps.RunSweeps | hal/drivers/mpr121.py:301-354 | In every run an open contact travels validly in a direction exactly if its trail of samples is a clean sweep that way: on the axis, brisk, without a far jump against the travel, without falling back, and with no undeclared pad joining |
| SpatialSweeps.ValidIsSwept | hal/drivers/mpr121.py:233-242 | It counts as a swipe exactly if it also came three pads, or the length of a shorter axis, along and lasted 30 ms |
| SpatialSweeps.SwipeExactly | hal/drivers/mpr121.py:233-300 | A sample reports a swipe exactly if a contact that swept so is open and its pads have been off for 120 ms |
| SpatialSweeps.SweptEndsInSwipe | hal/drivers/mpr121.py:233-300 | Whenever a contact that swept ends, the sample that ends it reports exactly that swipe |
| SpatialOutcomes.FootprintRefinesHistory | hal/drivers/mpr121.py:270-280 | In every run the footprint is, electrode by electrode, the debounced value of everything sampled |
| SpatialOutcomes.ButtonsArePrompt | hal/drivers/mpr121.py:107-176 | A button without own debounce yields at most one outcome per press and none without one |
| SpatialOutcomes.ReleaseAnswers | hal/drivers/mpr121.py:133-154 | An accepted release of a press is exactly one tap or one hold, whichever tap of a burst it is |
| SpatialOutcomes.OneOutcomePerCycle | hal/drivers/mpr121.py:213-371 | In every run and for every button configuration without own debounce, each contact cycle yields at most one swipe, tap or hold, and every outcome of the log belongs to one cycle |
| SpatialOutcomes.OutcomesWithinCycles | hal/drivers/mpr121.py:213-371 | Over any stretch of a run the outcomes are covered by the cycles open at its start or begun in it, so a stretch in which none begins has at most one |
| SpatialOutcomes.DeviceButtons | hal/drivers/mpr121.py:419-427 | In particular for the standard and the harness recognizer that contacts are handed to |
| SpatialOutcomes.MovedYieldsNoPress | hal/drivers/mpr121.py:301-364 | From the moment a contact has moved until the next one begins the log holds no hold and no tap, first or later in a burst |
| SpatialOutcomes.MovedClosesQuietly | hal/drivers/mpr121.py:233-300 | When the sample that resolves a moved contact begins another, only events after that beginning may tap or hold |
| SpatialOutcomes.HeldAtStart | hal/drivers/mpr121.py:253-287 | A pad held at start-up causes nothing but invalidations until all electrodes were released for the contact debounce |
| SpatialContacts.RunClocked | hal/drivers/mpr121.py:265-269 | In every run the contact clock holds whether anything is touched and the first sample since which it is |
| SpatialContacts.ContactsExactly | hal/drivers/mpr121.py:288-370 | A sample opens a contact exactly if none is open or the last is over and a stable touch has lasted the debounce; a contact ends exactly 120 ms after its release, or by a pause of the debounce when a still one is touched again on its pads |
| SpatialContacts.ReleaseDated | hal/drivers/mpr121.py:365-368 | In every run an open contact is released exactly while its footprint is empty, and is dated by the raw edge of the pad let go last when the footprint emptied |
| SpatialContacts.FollowTells | hal/drivers/mpr121.py:315-354 | A contact turns into travel, and the button drops its press, exactly if a pad joins that does not belong or a new pad takes the centre a whole position away |
| SpatialContacts.FedExactly | hal/drivers/mpr121.py:233-371 | In every run the button is in the state of one that was told each still contact from its first touch to its last release, and was cancelled or replaced by the moved ones |
| SpatialContacts.ArmsExactly | hal/drivers/mpr121.py:253-364 | Contacts are taken exactly once nothing was touched at the start, or for the debounce since, until a hold fires |
| SpatialContacts.StillIsPressed | hal/drivers/mpr121.py:355-364 | In every run an open contact that has not moved is a press dated by the first touch of the run that opened it |
| SpatialContacts.TapExactly | hal/drivers/mpr121.py:233-251 | The sample that ends a still contact reports exactly a tap or a hold of the time from its first touch to its last release, and what its burst comes to if that is due |
| SpatialContacts.OpeningExactly | hal/drivers/mpr121.py:301-370 | All else a sample reports: the tier of a still contact, the press of a new one, the turn of one into travel, or a burst whose window is over |
| ActionQueue.RunInv | hal/drivers/mpr121.py:558-689 | In every interleaving at most two items wait, in order and after everything begun, and the busy flag means an action runs |
| ActionQueue.NoStaleBegin | hal/drivers/mpr121.py:558-689 | An action begins only if it was queued and no invalidation or stop came in between; hold, triple and swipe begin within 400 ms |
| ActionQueue.BeginInOrder | hal/drivers/mpr121.py:594-675 | Actions begin at most once and in the order they were queued |
| ActionQueue.GuardMissesFetched | hal/drivers/mpr121.py:594-602 | By itself the guard lets a gesture through behind other work exactly when the action thread holds an unvalidated item |
| ActionQueue.GuardSuffices | hal/drivers/mpr121.py:594-602 | If an invalidation precedes every guarded gesture, it is refused exactly while an action runs, and everything waiting when it is queued is stale |
| ActionQueue.NothingAheadBegins | hal/drivers/mpr121.py:558-675 | If so, nothing queued before a guarded gesture ever begins after it was queued |
| ActionQueue.QueuedExactly | hal/drivers/mpr121.py:594-606 | An offer is queued exactly if nothing stopped and fewer than two wait, a guarded one only if none waits and no action runs |
| ActionQueue.BeginsExactly | hal/drivers/mpr121.py:665-674 | A fetched item begins exactly if nothing was invalidated or stopped since it was queued and a hold, triple or swipe is at most 400 ms old; else it is discarded |
| ActionQueue.NothingLost | hal/drivers/mpr121.py:558-689 | In every interleaving every queued item waits, is held, was begun or was discarded |
| ActionQueue.TurnProceeds | hal/drivers/mpr121.py:655-689 | Three turns of the action thread and a check leave nothing waiting |
| ActionQueue.RunTimed | hal/drivers/mpr121.py:655-689 | In every interleaving at most one action has begun and not ended, the one that runs |
| Heralds.ButtonHeralds | hal/drivers/mpr121.py:107-176 | In every run of a button, between the last event offered to the queue and a hold or triple there is an invalidation |
| Heralds.SpatialHeralds | hal/drivers/mpr121.py:213-371 | The same for swipes, holds and triples of the spatial recognizer, for every button configuration |
| Heralds.GesturesStandAlone | hal/drivers/mpr121.py:558-689 | So in every interleaving of a handler fed by its recognizers, whatever was queued before a hold, triple or swipe never begins after it was queued |
| Heralds.GuardDropsExactly | hal/drivers/mpr121.py:568-606 | And such a gesture is dropped exactly while an action runs |
| ActionQueue.MPR121Handler.InvalidatePending | hal/drivers/mpr121.py:558-566 | Invalidation raises the generation and drains the queue |
| ActionQueue.MPR121Handler.ResolveGesture | hal/drivers/mpr121.py:590-606 | Queueing stamps the generation and refuses guarded gestures behind work and anything beyond capacity |
| ActionQueue.MPR121Handler.Get | hal/drivers/mpr121.py:661-664 | The action thread takes the oldest item, outside the lock |
| ActionQueue.MPR121Handler.Validate | hal/drivers/mpr121.py:665-674 | The check before an action begins |
| ActionQueue.MPR121Handler.RequestStop | hal/drivers/mpr121.py:691-700 | A stop request raises the flag that queueing and the check read, and changes nothing else |
| HoldLed.RunLog | hal/drivers/button_actions.py:735-835 | In every interleaving completed and processed generations never pass the current one, a worker that completed a commit rests until something newer is posted, and the log is in protocol order |
| HoldLed.RunPaint | hal/drivers/button_actions.py:735-835 | In every interleaving a served commit has left its warning on the strip, or its RGB call failed |
| HoldLed.CommitBarrier | hal/drivers/button_actions.py:780-790 | Once a commit returned true, every later action on the strip belongs to a request posted after it returned |
| HoldLed.EffectsInOrder | hal/drivers/button_actions.py:802-835 | Actions on the strip follow the order of the requests they serve |
| HoldLed.NoCommitAfterStop | hal/drivers/button_actions.py:780-800 | No commit returns true after a stop |
| HoldLed.CommitPaints | hal/drivers/button_actions.py:718-732 | When a commit returns true its warning was the last colour written, unless the RGB call failed |
| HoldLed.CommitReturns | hal/drivers/button_actions.py:780-835 | A waiting commit is released by at most eight steps of the worker, whichever RGB calls fail |
| HoldLed.PostsExactly | hal/drivers/button_actions.py:752-790 | A tier or commit is posted under the next number exactly until a stop, a release only after something was posted |
| HoldLed.WorkerMovesItself | hal/drivers/button_actions.py:752-765 | The first post starts the worker, and nothing but its own steps and the end of its wait moves it |
| HoldLed.ReturnsExactly | hal/drivers/button_actions.py:780-790 | A waiting commit returns exactly once it was completed or all was stopped, and true exactly if it is still the newest |
| HoldLed.ColourRound | hal/drivers/button_actions.py:718-835 | An undisturbed round stops the effect, writes the colour of its tier once, and completes its request even when the call fails |
| HoldLed.QuietRound | hal/drivers/button_actions.py:802-835 | A round of tier 0 leaves the strip alone and completes |
| HoldLed.FaultRound | hal/drivers/button_actions.py:718-835 | A tier without a colour or a failed stop of the effect leaves one fault and completes |
| HoldLed.OvertakenWritesNothing | hal/drivers/button_actions.py:718-794 | A round overtaken by a request or a stop writes no colour |
| HoldLed.WakesExactly | hal/drivers/button_actions.py:818-835 | A waiting worker reads again exactly at a stop, a newer request, or the end of the blink period of a tier that blinks |
| HoldLed.HoldLEDFeedback.Post | hal/drivers/button_actions.py:752-765 | Posting numbers the request and starts the worker once |
| HoldLed.HoldLEDFeedback.FinishCommit | hal/drivers/button_actions.py:780-790 | A commit succeeds if it is still the newest and nothing stopped |
| HoldLed.HoldLEDFeedback.Take | hal/drivers/button_actions.py:802-815 | The worker reads generation, tier and commit flag together and restarts its blink on a new one |
| HoldLed.HoldLEDFeedback.IsCurrent | hal/drivers/button_actions.py:718-794 | Between stopping the old effect and writing the colour the worker rechecks that its generation is current and nothing stopped |
| HoldLed.HoldLEDFeedback.Complete | hal/drivers/button_actions.py:826-835 | Completion is recorded even when the RGB call failed |
| Mailbox.RunInv | hal/drivers/base.py:37-105 | In every interleaving flag, slot, worker and history agree, and events are offered and taken in order |
| Mailbox.FlagMeansFull | hal/drivers/base.py:43-46 | The availability flag is set exactly when the slot is full |
| Mailbox.LatestIsServed | hal/drivers/base.py:37-105 | The most recently accepted event is in the slot or was taken |
| Mailbox.AcceptedIsServed | hal/drivers/base.py:37-105 | An accepted event is taken or waits, or a later one at least as urgent is or does |
| Mailbox.HandledOnce | hal/drivers/base.py:78-105 | No event is handled twice, none out of turn |
| Mailbox.RefusedIsLost | hal/drivers/base.py:43-46 | A refused event is never handled |
| Mailbox.LostExactly | hal/drivers/base.py:37-105 | An offered event is neither waiting nor ever taken exactly if it was refused, or an event at least as urgent replaced it before it was read |
| Mailbox.RefusedThoughIdle | hal/drivers/base.py:43-102 | With no unread event waiting, an offer is refused exactly while a more urgent event is being handled and still fills the slot |
| Mailbox.NeverWorsens | hal/drivers/base.py:43-105 | The slot's priority does not worsen before an event of it was handled |
| Mailbox.OfferExactly | hal/drivers/base.py:43-46 | In every run an offer is accepted exactly if no more urgent event was the last accepted and is not yet handled |
| Mailbox.WorkerExactly | hal/drivers/base.py:78-102 | A free worker takes what fills the slot whenever something does, and after handling both are free unless something newer came |
| Mailbox.LostBehindHandledEvent | hal/drivers/base.py:43-105 | A less urgent event offered while one is handled is lost though nothing else waits |
| Mailbox.Service.Dispatch | hal/drivers/base.py:43-46 | An offer replaces an equal or less urgent slot and raises the flag |
| Mailbox.Service.Settle | hal/drivers/base.py:91-102 | The slot is emptied only if it still holds the handled event |
| SpeakerOverlay.RunInv | hal/app_state.py:680-906 | A locked speaker is muted and remembers a preference, sleep's mute exists only asleep or while waking, and the sidecars agree with memory |
| SpeakerOverlay.StepPreference | hal/privacy.py:28-73 | Every step leaves the preference as last asked, except exactly a restart inside a wake over a leaked mute and a scene mute sleep still claims |
| SpeakerOverlay.PreferencePreserved | hal/app_state.py:548-862 | Over runs without those two steps the preference is what was last asked for, through sleep, drains, wakes, locks and restarts |
| SpeakerOverlay.AwakeIsNotSleepMuted | hal/app_state.py:810-862 | An awake device with no wake in progress plays what its user chose, or is locked |
| SpeakerOverlay.StepMutes | hal/app_state.py:680-862 | In every reachable state a speaker is silenced, and let play, by exactly the steps named |
| SpeakerOverlay.StepClaims | hal/app_state.py:805-862 | Sleep comes to own a mute exactly when its drain silences the speaker, and gives it up to a user's mute and to the end of the wake |
| SpeakerOverlay.SleepSilences | hal/app_state.py:815-834 | In every run a sleep drain past its check leaves a sleeping device muted, whatever scene is on, and sleep's claim grows exactly if the speaker was not muted before |
| SpeakerOverlay.StepFields | hal/app_state.py:680-906 | The drains, scenes, sleep flags and the lock change by exactly the rules of each step |
| SpeakerOverlay.UnlockRestores | hal/privacy.py:28-73 | Releasing the lock returns to what was captured and keeps the preference; it plays the preference at once unless sleep owns the mute, which finishing the wake removes |
| SpeakerOverlay.RestartInsideWakeForgets | hal/routes/emotion.py:137-157 | A concrete run whose restart leaves a speaker muted that nobody asked to mute |
| SpeakerOverlay.SceneInsideWakeUndone | hal/app_state.py:785-862 | A concrete run whose wake undoes a mute the scene had asked for |
| SpeakerOverlay.CancelledMuteStaysAway | hal/routes/music.py:312-323 | After an unmute or the end of a scene, with no drain past its check, the speaker stays wanted on over every run until someone asks to mute it |
| SpeakerOverlay.UnmuteRaces | hal/app_state.py:718-802 | A drain mutes an awake speaker just unmuted exactly if it had passed its check and its scene is still active |
| SpeakerOverlay.Speaker.ApplyPrivacy | hal/privacy.py:28-73 | Locking captures the flag once, unlocking restores it, both persist the preference |
| SpeakerOverlay.Speaker.FinalizeSleep | hal/app_state.py:680-714 | Finalized sleep replaces a scene's drain by its own, if the preset mutes an unmuted speaker |
| SpeakerOverlay.Speaker.MuteForSleep | hal/app_state.py:805-834 | The drain's commit rechecks sleep and claims the mute for it |
| SpeakerOverlay.Speaker.WakePeripherals | hal/app_state.py:837-862 | Waking removes sleep's mute underneath the lock |
| SpeakerOverlay.Speaker.CancelSceneDrain | hal/app_state.py:777-782 | A waiting scene mute is dropped |
| SpeakerOverlay.Speaker.StartSceneDrain | hal/app_state.py:761-774 | A scene's drain replaces an older one and is skipped while sleep owns or will own the speaker |
| SpeakerOverlay.Speaker.ActivateScene | hal/routes/scene.py:148-164 | A scene that mutes starts a drain, one that unmutes cancels it and yields to the lock |
| SpeakerOverlay.Speaker.MuteForScene | hal/app_state.py:785-802 | A scene's deferred mute yields to sleep and to a scene that is gone |
| SpeakerOverlay.Speaker.MuteSpeaker | hal/routes/music.py:288-307 | An explicit mute replaces sleep's ownership and the locked preference |
| SpeakerOverlay.Speaker.UnmuteSpeaker | hal/routes/music.py:312-323 | An explicit unmute is refused under the lock and drops a waiting scene mute |
| SpeakerOverlay.Speaker.EndCurrentScene | hal/routes/scene.py:182-231 | Ending a scene drops its waiting mute and unmutes, underneath a lock if there is one |
| SpeakerOverlay.Speaker.LoadSidecars | hal/app_state.py:873-906 | A restart restores the flags and sleep's claim on the mute |
| SpeakerOverlay.Speaker.Prepare | hal/privacy.py:82-89 | Start-up then closes what the board locks |
| CameraOverlay.RunInv | hal/privacy.py:28-73 | A locked camera is disabled, and the sidecar always holds the preference |
| CameraOverlay.PreferencePreserved | hal/app_state.py:865-892 | Through locks, unlocks and restarts preference and sidecar are what was last asked for |
| CameraOverlay.UnlockRestores | hal/privacy.py:57-63 | Releasing the lock returns to the last preference, running if it is on |
| CameraOverlay.StepRuns | hal/app_state.py:1740-1782 | In every reachable state the sensor starts, and stops, at exactly the steps named |
| CameraOverlay.StepLock | hal/privacy.py:28-73 | The lock follows the switch, and a restart detaches the capture |
| CameraOverlay.LockedStaysOff | hal/privacy.py:105-109 | A locked camera comes to run exactly when the lock closed on a running capture that was not attached or failed to stop |
| CameraOverlay.LockedNeverRuns | hal/privacy.py:28-109 | Over runs without such a step a locked camera never runs |
| CameraOverlay.LockDuringBoot | hal/runtime.py:445-454 | On a board locked from the start, a lock between opening and attaching leaves the sensor running, if opening outlasts the ten seconds start-up waits |
| CameraOverlay.LockWithoutStop | hal/privacy.py:55-69 | A stop call that fails leaves the sensor running behind the lock |
| CameraOverlay.LockedExposesNothing | hal/privacy.py:118-140 | From the closing of the lock until its release no read that ends hands anything over, except exactly a response asked for before the lock closed, while the camera was unlocked |
| CameraOverlay.ResponseOutlivesLock | hal/privacy.py:128-130 | A run with such a response, where a frame would be withheld |
| CameraOverlay.ReadAcrossLock | hal/privacy.py:118-122 | A read that spans a lock and its release returns a frame taken behind it |
| CameraOverlay.Camera.ApplyPrivacy | hal/privacy.py:28-73 | Locking and unlocking the camera |
| CameraOverlay.Camera.AutoOff | hal/app_state.py:1740-1762 | Automatic off respects the lock, a manual choice and tracking |
| CameraOverlay.Camera.AutoOn | hal/app_state.py:1766-1782 | Automatic on respects the lock and a manual choice |
| CameraOverlay.Camera.DisableByUser | hal/routes/camera.py:73-89 | A manual off under the lock becomes the preference |
| CameraOverlay.Camera.EnableByUser | hal/routes/camera.py:94-107 | A manual on is refused under the lock |
| LedArbiter.StepDark | hal/app_state.py:1080-1736 | No handler lights a sleeping dark strip without waking |
| LedArbiter.SleepStaysDark | hal/app_state.py:680-696 | From the end of sleep's finalization until the sleep flag clears the strip is dark and no effect runs, under every sequence of handlers |
| LedArbiter.LitUntilFinalized | hal/app_state.py:680-696 | Before finalization speech keeps a sleeping strip lit |
| LedArbiter.SpeechKeepsWave | hal/app_state.py:1474-1736 | While an awake device speaks, exactly the end of speech, a forced mute and a finalized sleep take the strip from its wave |
| LedArbiter.SettlingForgets | hal/app_state.py:1280-1399 | The settled look is a function of the owners alone exactly when sleep, the mute indicator, an animated thinking cue, harness, a known saved look or a dark resting look decides it |
| LedArbiter.RedComesBack | hal/app_state.py:1280-1303 | After speech, music, a listening cue or a restore timer an awake silent strip whose mute indicator owns it is red |
| LedArbiter.RestoreShows | hal/app_state.py:1280-1399 | Restoring shows what the owner of the strip wants, colour and effect, and changes nothing else |
| LedArbiter.SettlesToOwner | hal/app_state.py:1280-1645 | Whatever settles the strip, it then shows what its owner wants |
| LedArbiter.EndsNothing | hal/app_state.py:1513-1645 | An end that does not settle the strip repaints nothing |
| LedArbiter.DisplayExactly | hal/app_state.py:1648-1736 | An emotion paints exactly if it has a look, the device is awake or it is sleep's own, nobody speaks, and it is no background face over a saved look unless forced |
| LedArbiter.MicExactly | hal/app_state.py:1131-1149 | The mute indicator is raised at once if forced, else once and in silence, and paints red where it owns the strip |
| LedArbiter.MicDropsExactly | hal/app_state.py:1152-1188 | Dropping it leaves speech and music alone, and otherwise hands the strip on |
| LedArbiter.StepFlags | hal/app_state.py:1080-1736 | Who speaks, plays, thinks, sleeps or has a look saved changes by exactly the rules of each handler |
| LedArbiter.LedState.RestoreUserLed | hal/app_state.py:1280-1399 | Whatever ended hands the strip to its next owner: sleep, speech, music, mute indicator, thinking cue, harness, saved look |
| LedArbiter.LedState.ClearMicMuted | hal/app_state.py:1152-1188 | Dropping the mute indicator |
| LedArbiter.LedState.ApplyMicMuted | hal/app_state.py:1131-1149 | Raising the mute indicator, at once if forced |
| LedArbiter.LedState.DisplayEmotion | hal/app_state.py:1648-1736 | What an emotion may paint |
| LedArbiter.LedState.FinalizeSleep | hal/app_state.py:680-696 | A sleeping emotion clears strip and effect |
| LedArbiter.LedState.OnTtsStart | hal/app_state.py:1474-1510 | Speech takes the strip unless sleep owns it |
| LedArbiter.LedState.OnMusicStart | hal/app_state.py:1567-1620 | Music takes the strip unless sleep or speech owns it |
| LedArbiter.LedState.OnMusicEnd | hal/app_state.py:1623-1645 | Music that ends during speech leaves the strip alone |
| HeadPat.SessionsConserved | hal/drivers/ttp223.py:487-709 | Every head pat consumes at least one counted session; counted sessions are consumed once or pending |
| HeadPat.PatsApart | hal/drivers/ttp223.py:487-784 | Consecutive pats, and a swallowed session and the next pat, are at least the cooldown apart |
| HeadPat.NothingPendsInCooldown | hal/drivers/ttp223.py:507-520 | During the cooldown no session is pending, so no timer pats |
| HeadPat.PassIsOneWay | hal/drivers/ttp223.py:438-440 | The step list turns around nowhere exactly when the positions go one way and move |
| HeadPat.CrossingReversed | hal/drivers/ttp223.py:419-440 | The end the axis is declared from makes no difference to a crossing |
| HeadPat.CrossingRevisits | hal/drivers/ttp223.py:407-458 | A crossing counts as a revisit exactly when a pad was touched twice running |
| HeadPat.EarlyPetOfSwipe | hal/drivers/ttp223.py:525-550 | A session that reads as a swipe pats early exactly if all its steps are travel and either a pad was touched twice running or enough sessions are counted |
| HeadPat.RepeatPatsEarly | hal/drivers/ttp223.py:525-550 | A run of edges that pats early on a swipe that touches one pad twice |
| HeadPat.CrossingAfterReleasePatsEarly | hal/drivers/ttp223.py:525-550 | A run of edges that pats early on a plain crossing after a release-only session |
| HeadPat.TouchExactly | hal/drivers/ttp223.py:267-335 | A touch is a new press exactly on a surface nothing held for 15 ms, and joins the contact unless it repeats the latest pad without a lift |
| HeadPat.CrossesExactly | hal/drivers/ttp223.py:419-440 | A contact crosses exactly if it passes over the whole of an axis of two or more pads |
| HeadPat.VerdictExactly | hal/drivers/ttp223.py:344-471 | What each of the four verdicts means of the contacts of a session |
| HeadPat.SessionExactly | hal/drivers/ttp223.py:487-614 | A session in the cooldown is swallowed and extends it; any other is counted, and pats at once exactly if its stroke is recognized early |
| HeadPat.DecisionExactly | hal/drivers/ttp223.py:629-709 | A decision pats exactly if a session is counted, for all of them, and begins the cooldown |
| HeadPat.GestureExactly | hal/drivers/ttp223.py:629-709 | Which of the four gestures a decision answers with |
| HeadPat.TTP223Handler.OnEdge | hal/drivers/ttp223.py:267-335 | Edges build contacts, presses and releases |
| HeadPat.TTP223Handler.ClassifyCycle | hal/drivers/ttp223.py:344-471 | The loop over contacts computes the classification |
| HeadPat.TTP223Handler.OnSessionEnd | hal/drivers/ttp223.py:487-614 | A session is swallowed, counted or answered at once |
| HeadPat.TTP223Handler.OnDecision | hal/drivers/ttp223.py:629-709 | A decision answers all pending sessions with one gesture |

## Left out

- Parsing and normalizing log lines, losses, coverage counters and percentages of the report: input formats and easy arithmetic.
- Executions whose event id equals another execution's canonical JSON text: identities are kept apart by kind.
- I2C, GPIO, audio, camera, RGB and HTTP drivers: foreign calls; a call that fails is a parameter of its step.
- Floating-point rounding of times and centroids: milliseconds and reals.
- The product of a displacement with a direction is modelled by its sign (`SpatialTouch.Along`).
- Concurrent emotion requests inside the read-then-write of the sleep flag, and a crash between the two persists of one handler.
- ActionQueue: one session between start and stop; harness mode changes act as invalidations.
- Mailbox: one worker at a time; a restart while a worker outlives its join timeout is not modelled.
- HoldLed: the RGB service being absent counts as a failed call.
- CameraOverlay: frame time stamps and descriptions, which look at the lock once, as a response does; that a stop clears the response retained.
- LedArbiter: the backend-error flash, the harness capture effect, user LED commands and effect threads that outlive their join.
- HeadPat: the start-up settle window and the trace recorder.
- Microphone mute, servo, display and presence state, which the modelled handlers also touch.
- Transient mutes while a face or voice is enrolled.
