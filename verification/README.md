# Android WebView browser: a verified model

A Dafny model of four parts of the Android WebView browser process, with proofs of what they are
for. `dafny verify dfyconfig.toml` verifies all of it, with the limits set there.

**The permission broker.** `AwPermissionManager` keeps a table of requests for several permissions,
asks the embedder's delegate once for each origin and permission, hands the answer to everyone who
waits for it, and lets requests be cancelled. `PermissionModel` is the broker as a state machine;
the delegate is its environment, which may answer a call at once, later or never. `PermissionInvariant`
has the table invariant and shows that every operation keeps it, `PermissionCancellation` does so for
cancelling, `PermissionRuns`, `PermissionAnswers` and `PermissionStatus` draw the conclusions about
runs, callbacks and the cached status, `PermissionMeaning` says what every status goes back to, and
`PermissionManager` has the classes with their loops and raw pointers, each method proved to make the
state machine's step.
`ResultCache` is the cache of protected-media results and `GeolocationPrompts` the prompt queue that
serves as a delegate.

**The frame pipeline.** Frames go from the UI thread to the render thread through two queues that
prune each other's leftovers, some of them still futures, and their resources come back through a
filter by sink. `Frames` has the frames as objects and the pruning loop. `FramePipeline` is the whole
pipeline as interleaved steps, one for each time the lock is taken and one for each stretch of the
render thread's own work, with a ledger of everything handed in, delivered and dropped. On it:
`FrameRegisters` (the queues refine three registers), `FrameConservation` and `FrameReturns` (where
resources go, and when none is dropped), `FrameBounds` (how long the queues get). The classes are in
`RenderThreadManagers`, `HardwareRenderers` and `BrowserViewRenderers`; their methods are proved
against the functions the pipeline's steps are made of. A future is modelled by what it turns out to
hold, which nothing looks at before the wait. `RendererLifetime` interleaves the draw calls with the
release of the hardware.

**GL requests and tasks.** `InvokeTracker` interleaves requests for a GL call from any thread, with
cancellable closures as generations. `GpuTasks` is the task queue whose draining loop is entered
again by the tasks it runs; a task is the list of what it schedules.

**Addresses and saved state.** `HouseNumbers`, `AddressWords`, `StateNames` and `AddressFinder` are
the address scanner with its lookahead and restarts, over 16-bit text with a zero behind its end.
`HouseNumberGrammar`, `StateSpelling` and `Addresses` say what it looks for without the machinery that
finds it, and prove that it finds just that.
`StateSerializer` is the writer and reader of the navigation state over a stream of typed values.

## Where the code and its own words differ

- The check at `aw_permission_manager.cc:527` that no request is left after all were cancelled does
  not hold: two requests that wait for the same key keep each other alive. `CancellingAllEmptiesIff`
  has the exact condition and `TwoSharersSurviveCancelling` a run.
- `hardware_renderer.h:96-98` promises that resources are returned in sink order and those of old
  sinks dropped; before the first draw no sink is committed, so frames pruned then are dropped too
  (`PrunedBeforeFirstDraw`).
- The conditions for the render thread to make a renderer are separate accesses, so a renderer can be made
  while a release is under way (`CreationCanOverlapRelease`). `CreationOverlapsReleaseIff` says exactly when;
  it is still gone when the release ends.
- A request turned down by the tracker relies on the one that is pending. When the UI thread's invoke is
  refused (`render_thread_manager.cc:159-162`, "Deadlock likely") the requests turned down meanwhile are lost
  (`RefusedInvokeLosesRequests`); otherwise something is on its way (`TurnedDownIsComingIff`).
- `strchr` narrows its argument at `address_parser_internal.cc:89` and also finds the terminating
  zero, so characters such as U+012C count as delimiters of numbers (`NarrowedDelimiters` says which).
- The rule that no digit follows a letter (`address_parser_internal.cc:148`) is not enforced:
  "1st5" and "one5" are read as numbers (`DigitAfterOrdinal`, `DigitAfterOne`). An accepted number breaks
  it exactly when it goes on behind its first group of letters (`DigitFollowsLetterIff`).
- The limit of five lines between house number and state (`address_parser.cc:22-24`) is not kept: line breaks
  passed while looking ahead for a state are not counted (`FindFarDown`). The lines counted are those of the
  text exactly when no word read ahead begins a new line (`LinesAreSeenIff`).
- The entry for "rhode island" (`address_parser_internal.cc:348`) counts five characters only, so the
  state is found in "Rhode" alone and a ZIP code is looked for in "Island" (`RhodeIslandIsCutShort`).
- The check at `address_parser.cc:116` that a word is not empty fails for "1 a b c new", where the
  lookup of "new york" adds an empty word at the end of the text (`MeetEmptyWord`). `AddressPass.Prepare`
  says exactly when the loop comes to an empty word.

The check at `render_thread_manager.cc:197` holds because a producer never goes back to synchronous
draws: `allow_async_draw_` is never reset (`browser_view_renderer.cc:254`), and a consumer has one
producer at a time whose frames are taken back when it leaves. `QueuesStayShort` assumes just that, and
`MixedDrawsWouldLoseFrames` shows what it is for.

## Model

| member | source | states |
|---|---|---|
| `PermissionRuns.RunsStayAtRest` | src/android_webview/browser/aw_permission_manager.cc:245-484 | every legal run of submissions, answers, cancellations and resets keeps the whole table invariant, and answered and dropped requests stay so |
| `PermissionRuns.EveryAnswerFindsItsRequest` | src/android_webview/browser/aw_permission_manager.cc:365-381 | in every reachable state an outstanding delegate call names a request still in the table and still waiting for that permission, so the lookup cannot fail |
| `PermissionRuns.NoWaiterIsStranded` | src/android_webview/browser/aw_permission_manager.cc:263-320 | in every reachable state an undecided permission of a pending request has exactly one outstanding call for its origin and permission |
| `PermissionRuns.SameKeySameDecision` | src/android_webview/browser/aw_permission_manager.cc:265-279 | pending requests that share origin and permission are all undecided for it or all decided alike |
| `PermissionRuns.IssuedRequestsAreAccountedFor` | src/android_webview/browser/aw_permission_manager.cc:284-361 | in every reachable state each issued id is exactly one of pending, answered, or cancelled and removed |
| `PermissionRuns.AnsweredIsFinal` | src/android_webview/browser/aw_permission_manager.cc:396-407 | the results a callback was run with never change and it never runs again |
| `PermissionRuns.CancelledIsNeverAnswered` | src/android_webview/browser/aw_permission_manager.cc:410-414 | a request cancelled while pending is never answered, whatever happens afterwards |
| `PermissionRuns.ResponseRunsAlignedCallbacks` | src/android_webview/browser/aw_permission_manager.cc:383-407 | each callback an answer runs, between operations or inside a delegation loop, gets at place i the decision taken for permission i, and only when all are decided |
| `PermissionAnswers.StepsAnswerAligned` | src/android_webview/browser/aw_permission_manager.cc:245-408 | for every legal step from a state at rest, whatever the delegate answers inside it: each callback it runs is of a request that was pending and not cancelled, or just submitted, and its results are the decisions on its permissions in order |
| `PermissionAnswers.RunsAnswerAligned` | src/android_webview/browser/aw_permission_manager.cc:245-408 | over every run each callback that has run was run by one step, in that way, and kept its results |
| `PermissionAnswers.DelegationTells` | src/android_webview/browser/aw_permission_manager.cc:290-343 | nothing a callback is told inside the delegation loop is decided again in that loop |
| `PermissionMeaning.ResponseDecides` | src/android_webview/browser/aw_permission_manager.cc:374-403 | after an answer every request on its key, still pending or just told, has that permission granted if the delegate allowed it and denied if it did not |
| `PermissionMeaning.GrantedIff` | src/android_webview/browser/aw_permission_manager.cc:290-408 | over every run an entry of a callback is granted exactly when the last thing that decided its origin and permission was an answer allowing it, or a request for MIDI in a frame with a delegate; otherwise it is denied |
| `PermissionMeaning.DecidedIff` | src/android_webview/browser/aw_permission_manager.cc:290-408 | the same for what a pending request has been told so far |
| `PermissionMeaning.SubmitDecides` | src/android_webview/browser/aw_permission_manager.cc:290-343 | a permission nobody else asks about and no delegate is asked about is granted exactly when it is MIDI and the frame has a delegate, and denied otherwise |
| `PermissionMeaning.SubmitAsks` | src/android_webview/browser/aw_permission_manager.cc:301-320 | a request asks the delegate of its frame, if there is one, about exactly its geolocation, protected-media and MIDI SysEx permissions that nobody else asks about |
| `PermissionMeaning.StatusTellsWhatIsGiven` | src/android_webview/browser/aw_permission_manager.cc:492-505 | the status of a permission that is never asked about is what a request in a frame with a delegate is given; geolocation and MIDI SysEx are reported as denied |
| `PermissionRuns.FinishRunsAlignedCallback` | src/android_webview/browser/aw_permission_manager.cc:345-361 | the callback run at the end of a request gets aligned results too |
| `PermissionRuns.DelegationLoopEnds` | src/android_webview/browser/aw_permission_manager.cc:290-348 | after the delegation loop the state is consistent with nothing left to ask, whatever the delegate answered inside the loop |
| `PermissionRuns.RequestOutcome` | src/android_webview/browser/aw_permission_manager.cc:245-362 | after a request the state is at rest; its id is returned exactly when it is pending, and no id exactly when it has been answered |
| `PermissionStatus.StatusIsLastResponse` | src/android_webview/browser/aw_permission_manager.cc:492-505 | over every run with comma-free requesting origins the protected-media status of a pair is the last response the steps gave for it not followed by a reset or an effective cancellation, else ASK |
| `PermissionStatus.RunHistory` | src/android_webview/browser/aw_permission_manager.cc:379-419 | what reaches the cache over a run is what its steps make known: responses to outstanding calls, also inside delegation loops, effective cancellations and resets |
| `PermissionStatus.CancelForgetsStatus` | src/android_webview/browser/aw_permission_manager.cc:410-419 | an effective cancellation makes the status of the requesting origin with the embedding origin unknown, and leaves every other status |
| `PermissionRuns.CancellingAllEmptiesIff` | src/android_webview/browser/aw_permission_manager.cc:519-528 | cancelling every request, with or without their delegates, empties the table exactly when no two pending requests wait for the same key |
| `PermissionRuns.TwoSharersSurviveCancelling` | src/android_webview/browser/aw_permission_manager.cc:519-528 | two requests for the same key are a run after which cancelling both leaves the table non-empty: the check at line 527 does not hold |
| `PermissionInvariant.AnyMatchAgrees` | src/android_webview/browser/aw_permission_manager.cc:265-279 | in a consistent state every match found in the table, in any iteration order, gives the same decision |
| `PermissionInvariant.ResponseKeepsConsistent` | src/android_webview/browser/aw_permission_manager.cc:364-408 | an answer keeps the invariant, also in the middle of a delegation loop |
| `PermissionInvariant.DeliverKeepsConsistent` | src/android_webview/browser/aw_permission_manager.cc:364-408 | so does any number of answers given before a delegate call returns |
| `PermissionInvariant.AddKeepsConsistent` | src/android_webview/browser/aw_permission_manager.cc:259-284 | a new request takes over known decisions and keeps the invariant, with the permissions it must still delegate private to it |
| `PermissionInvariant.DelegationKeepsConsistent` | src/android_webview/browser/aw_permission_manager.cc:290-343 | while a later permission is still to be delegated the request stays in the table: its raw pointer is good whenever it is used |
| `PermissionCancellation.CancelReachesOwnCall` | src/android_webview/browser/aw_permission_manager.cc:424-458 | a cancellation that reaches the delegate comes from the request that made the call |
| `PermissionCancellation.CancelWithDelegateKeepsRest` | src/android_webview/browser/aw_permission_manager.cc:410-484 | cancelling with the delegate there keeps the invariant and leaves no complete request in the table |
| `PermissionCancellation.LoneCancelOrphansCall` | src/android_webview/browser/aw_permission_manager.cc:421-458 | without the delegate, cancelling a request that waits alone for a delegated permission leaves an orphaned call |
| `PermissionRuns.CancelWithoutDelegateOrphans` | src/android_webview/browser/aw_permission_manager.cc:421-458 | a run: one request asked, then cancelled when its frame has no delegate any more, and its call stays outstanding for nobody |
| `PermissionCancellation.CancelKeepsRestIffSafe` | src/android_webview/browser/aw_permission_manager.cc:410-484 | cancelling keeps the invariant exactly when the delegate is there or every wait of the request is shared |
| `PermissionManager.PendingRequest.SetPermissionStatus` | src/android_webview/browser/aw_permission_manager.cc:173-182 | decides one permission and nothing else, and is only called on an incomplete request |
| `PermissionManager.FindMatch` | src/android_webview/browser/aw_permission_manager.cc:265-279 | finds a request on the key if there is one |
| `PermissionManager.FindOtherWaiting` | src/android_webview/browser/aw_permission_manager.cc:431-441 | tells whether another request waits for the same permission of the same origin |
| `PermissionManager.ResolveAll` | src/android_webview/browser/aw_permission_manager.cc:387-403 | decides the permission in every request on the key and collects exactly the completed ones and the callbacks of those not cancelled |
| `PermissionManager.AwPermissionManager.OnRequestResponse` | src/android_webview/browser/aw_permission_manager.cc:365-408 | changes the manager exactly as the answer does in the state machine |
| `PermissionManager.AwPermissionManager.DelegateAll` | src/android_webview/browser/aw_permission_manager.cc:290-343 | the delegation loop through the raw pointer follows the state machine, with answers inside the loop |
| `PermissionManager.AwPermissionManager.RequestPermissions` | src/android_webview/browser/aw_permission_manager.cc:245-362 | changes the manager exactly as a submission does, and returns the same id |
| `PermissionManager.AwPermissionManager.CancelPermissionRequest` | src/android_webview/browser/aw_permission_manager.cc:410-484 | changes the manager exactly as a cancellation does |
| `PermissionManager.AwPermissionManager.CancelPermissionRequests` | src/android_webview/browser/aw_permission_manager.cc:519-528 | cancels every pending request once, in some order |
| `PermissionManager.AwPermissionManager.ResetPermission` | src/android_webview/browser/aw_permission_manager.cc:486-490 | clears the cached result and nothing else |
| `PermissionManager.AwPermissionManager.GetPermissionStatus` | src/android_webview/browser/aw_permission_manager.cc:492-505 | gives the cached result, or the built-in answer |
| `ResultCache.KeyNamesOnePair` | src/android_webview/browser/aw_permission_manager.cc:134-143 | for comma-free valid origins the joined key determines the pair |
| `ResultCache.JoinCollidesIff` | src/android_webview/browser/aw_permission_manager.cc:134-143 | two joined keys are equal exactly when one origin pair splits the other around a comma |
| `ResultCache.CommasCollide` | src/android_webview/browser/aw_permission_manager.cc:134-143 | with a comma in an origin two different pairs can have one key |
| `ResultCache.CacheHoldsLastOutcome` | src/android_webview/browser/aw_permission_manager.cc:44-143 | over any history the cache holds the last response for the pair not followed by a clear, else ASK |
| `ResultCache.UncacheableIsUnknown` | src/android_webview/browser/aw_permission_manager.cc:44-143 | nothing is remembered for a pair with an empty or invalid origin |
| `ResultCache.LastRequestResultCache.SetResult` | src/android_webview/browser/aw_permission_manager.cc:44-79 | stores protected-media results of valid origins, and nothing else |
| `ResultCache.LastRequestResultCache.GetResult` | src/android_webview/browser/aw_permission_manager.cc:81-108 | finds what was stored for the pair, else ASK |
| `ResultCache.LastRequestResultCache.ClearResult` | src/android_webview/browser/aw_permission_manager.cc:110-131 | removes the pair's result, and nothing else |
| `GeolocationPrompts.PromptsOverRuns` | src/android_webview/browser/aw_contents.cc:547-609 | over any run the last prompt shown is for the front entry whenever the queue is not empty, tickets stay in order, and each callback runs at most once |
| `GeolocationPrompts.RetiredNeverRuns` | src/android_webview/browser/aw_contents.cc:559-579 | a callback that has run or been erased never runs again |
| `GeolocationPrompts.HiddenNeverRuns` | src/android_webview/browser/aw_contents.cc:581-594 | after an origin is hidden none of the callbacks then queued for it can run |
| `GeolocationPrompts.AskingAddsTheCall` | src/android_webview/browser/aw_contents.cc:547-557 | asking adds exactly one outstanding call for the broker |
| `GeolocationPrompts.AnswersComeFromTheQueue` | src/android_webview/browser/aw_contents.cc:560-579 | an answer runs one outstanding call for the answered origin, which is outstanding no more, or none |
| `GeolocationPrompts.FewerAskedOnce` | src/android_webview/browser/aw_contents.cc:560-594 | neither answers nor hiding make a call wait twice |
| `GeolocationPrompts.AskingOnce` | src/android_webview/browser/aw_contents.cc:547-557 | calls wait once each as long as no call is asked that is outstanding |
| `GeolocationPrompts.HidingIsTheBrokersCancelIff` | src/android_webview/browser/aw_contents.cc:581-594 | hiding gives up exactly the calls the broker expects, if and only if no other queued origin has the same canonical form |
| `GeolocationPrompts.EveryCallbackIsAnswered` | src/android_webview/browser/aw_contents.cc:560-579 | every callback that has run was run by one of the answers given, with its value, as the front entry, for the answer's origin |
| `GeolocationPrompts.AwContents.ShowGeolocationPrompt` | src/android_webview/browser/aw_contents.cc:547-557 | queues the entry and shows it only when it is the first |
| `GeolocationPrompts.AwContents.InvokeGeolocationCallback` | src/android_webview/browser/aw_contents.cc:560-579 | runs the front callback when the origin is the front one's, then shows the next |
| `GeolocationPrompts.AwContents.HideGeolocationPrompt` | src/android_webview/browser/aw_contents.cc:581-609 | the erasing loop leaves the entries of the other origins in order |
| `Frames.ChildFrame.WaitOnFutureIfNeeded` | src/android_webview/browser/child_frame.cc:36-48 | moves content and sink from the future to the frame; an empty future leaves the sink as it was |
| `Frames.WaitAndPruneFrameQueue` | src/android_webview/browser/hardware_renderer.cc:199-233 | leaves just the last non-empty frame, if there is one, returns the other non-empty ones in order, and waits for every frame |
| `Frames.PruningKeepsAll` | src/android_webview/browser/hardware_renderer.cc:199-233 | what is pruned and what is kept are together all non-empty frames in order, and nothing is kept exactly when all are empty |
| `FrameRegisters.StepRefines` | src/android_webview/browser/render_thread_manager.cc:182-230 | within one renderer's life each step of the two queues is a step of three registers: latest, committed, shown |
| `FrameRegisters.RunsRefine` | src/android_webview/browser/render_thread_manager.cc:182-230 | so is every run |
| `FrameRegisters.LatestFrameIsShown` | src/android_webview/browser/hardware_renderer.cc:57-136 | after a commit and a later draw the frame shown is the newest non-empty one handed in before the commit, whatever came between |
| `FrameRegisters.SubmittedInOrder` | src/android_webview/browser/hardware_renderer.cc:57-136 | over every run the submitted frames are a subsequence of the produced ones, without repeats |
| `FrameBounds.QueuesStayShort` | src/android_webview/browser/render_thread_manager.cc:182-214 | over every run with regular draws both queues hold at most two frames, no size check fails, and the newest frame is never waited for |
| `FrameBounds.StepStaysRegular` | src/android_webview/browser/hardware_renderer.cc:57-76 | every step keeps the queues short and all but their last frame waited for |
| `FrameBounds.SynchronousOverPending` | src/android_webview/browser/render_thread_manager.cc:193-204 | what a synchronous frame loses: exactly the front frame's resources, when that is still in its future or its compositor is gone |
| `FrameBounds.MixedDrawsWouldLoseFrames` | src/android_webview/browser/render_thread_manager.cc:194-204 | why regular draws are assumed: were a producer to go back to synchronous draws, which it does not, the check at line 197 would fail and resources would be lost |
| `FrameConservation.RunsConserve` | src/android_webview/browser/hardware_renderer.cc:40-136 | over every run the resources of all frames handed in equal, as multisets tagged with compositor and sink, those in the queues, the display, the outgoing calls, the map, delivered and dropped, also when a display hands back only a part of what it holds |
| `FrameConservation.StepConserves` | src/android_webview/browser/render_thread_manager.cc:182-288 | every step of either thread conserves them |
| `FrameConservation.GivenBackAtMostOnce` | src/android_webview/browser/browser_view_renderer.cc:307-343 | nothing is given back more often than it was handed in, nor to another compositor or sink |
| `FrameConservation.InsertingKeepsItems` | src/android_webview/browser/render_thread_manager.cc:267-281 | inserting into the map keeps what is there, except that resources of another sink are cleared |
| `FrameReturns.FilterIsExact` | src/android_webview/browser/hardware_renderer.cc:235-258 | the renderer's filter drops exactly the batches whose sink is not the committed one and keeps the others in order |
| `FrameReturns.PrunedBeforeFirstDraw` | src/android_webview/browser/hardware_renderer.cc:250-258 | a legal run of three frames committed before any draw: the first is pruned, and dropped exactly when its sink is not the initial one |
| `FrameReturns.StepStaysSteady` | src/android_webview/browser/hardware_renderer.cc:40-136 | while all frames carry the committed sink and a registered compositor and the display hands back what it holds, no step drops anything, teardown included |
| `FrameReturns.NothingIsDropped` | src/android_webview/browser/browser_view_renderer.cc:305-343 | over any such run what is handed in is delivered or under way |
| `FrameReturns.OnlyRegisteredGetResources` | src/android_webview/browser/browser_view_renderer.cc:301-343 | no step delivers anything to a compositor that is not registered |
| `FrameReturns.SteadyIsReached` | src/android_webview/browser/hardware_renderer.cc:40-136 | a run of one frame, committed and drawn, leads to such a state with a live renderer |
| `RenderThreadManagers.RenderThreadManager.SetFrameOnUI` | src/android_webview/browser/render_thread_manager.cc:182-214 | places the new frame without waiting for it and hands back the one that will not be committed |
| `RenderThreadManagers.RenderThreadManager.PassFramesOnRT` | src/android_webview/browser/render_thread_manager.cc:216-221 | takes the whole queue as it is |
| `RenderThreadManagers.RenderThreadManager.PassUncommittedFrameOnUI` | src/android_webview/browser/render_thread_manager.cc:223-230 | waits for all frames and takes them |
| `RenderThreadManagers.RenderThreadManager.InsertReturnedResourcesOnRT` | src/android_webview/browser/render_thread_manager.cc:267-281 | appends to the compositor's entry, clearing it first when its sink is another |
| `RenderThreadManagers.RenderThreadManager.SwapReturnedResourcesOnUI` | src/android_webview/browser/render_thread_manager.cc:283-288 | takes the whole map and leaves it empty |
| `RenderThreadManagers.OutboxDrains` | src/android_webview/browser/render_thread_manager.cc:267-281 | one insertion at a time gives the same map as the renderer's loop |
| `HardwareRenderers.HardwareRenderer.CommitFrame` | src/android_webview/browser/hardware_renderer.cc:57-76 | the new queue is the newest content of what was there, then the current frame; the pruned frames of the committed sink go back |
| `HardwareRenderers.HardwareRenderer.DrawGL` | src/android_webview/browser/hardware_renderer.cc:78-136 | prunes by the old sink, then commits the new sink and submits the frame, resetting the support when compositor or sink change |
| `HardwareRenderers.HardwareRenderer.Release` | src/android_webview/browser/hardware_renderer.cc:40-55 | the display's resources go back first, then those of the frames left in the queue |
| `HardwareRenderers.HardwareRenderer.ReturnResourcesToCompositor` | src/android_webview/browser/hardware_renderer.cc:250-258 | resources of another sink than the committed one do not go back |
| `HardwareRenderers.HardwareRenderer.ReturnChildFrame` | src/android_webview/browser/hardware_renderer.cc:235-248 | returns a frame's resources under its own compositor and sink |
| `HardwareRenderers.PipelineCommits` | src/android_webview/browser/hardware_renderer.cc:57-76 | the pipeline's commit has the effect the method is proved to have |
| `HardwareRenderers.PipelineDraws` | src/android_webview/browser/hardware_renderer.cc:78-136 | the pipeline's draw has the effect the method is proved to have |
| `HardwareRenderers.PipelineStops` | src/android_webview/browser/hardware_renderer.cc:40-55 | the pipeline's teardown has the effect the method is proved to have |
| `BrowserViewRenderers.BrowserViewRenderer.OnDrawHardware` | src/android_webview/browser/browser_view_renderer.cc:211-264 | collects returned resources, makes a frame of the kind the switches ask for, hands it over and gives back the one that comes for it; the newest frame then carries what was drawn |
| `BrowserViewRenderers.DrawingIsCarried` | src/android_webview/browser/browser_view_renderer.cc:254-260 | the frame made of a draw has the compositor's id and, once waited for, exactly the sink, content and resources drawn, and is placed last |
| `BrowserViewRenderers.HandedInIsDrawn` | src/android_webview/browser/browser_view_renderer.cc:254-263 | what a draw hands in to the pipeline are the resources drawn, under the compositor and sink they were drawn for |
| `BrowserViewRenderers.BrowserViewRenderer.ReturnUnusedResource` | src/android_webview/browser/browser_view_renderer.cc:313-327 | gives a frame's resources back to its compositor if that is registered and there are any |
| `BrowserViewRenderers.BrowserViewRenderer.ReturnResourceFromParent` | src/android_webview/browser/browser_view_renderer.cc:329-344 | gives back, over all compositors still registered, exactly what was in the map |
| `BrowserViewRenderers.BrowserViewRenderer.ReleaseHardware` | src/android_webview/browser/browser_view_renderer.cc:476-485 | empties the queue and the map and gives everything back |
| `BrowserViewRenderers.GivenIsDelivered` | src/android_webview/browser/browser_view_renderer.cc:307-327 | what the methods give back is what the pipeline counts as delivered |
| `RendererLifetime.StepKeepsInvariant` | src/android_webview/browser/render_thread_manager.cc:294-397 | every access of either thread keeps the lifetime invariant |
| `RendererLifetime.LiveMeansReceived` | src/android_webview/browser/render_thread_manager.cc:319-323 | in every interleaving a live renderer means that a frame has been received |
| `RendererLifetime.ReleaseLeavesNone` | src/android_webview/browser/render_thread_manager.cc:354-397 | the release always leaves no renderer and no call that could make one |
| `RendererLifetime.CreationOverlapsReleaseIff` | src/android_webview/browser/render_thread_manager.cc:319-332 | a renderer can be made during a release exactly when, as the release begins, a call is past its check for a release and has or will find frames |
| `RendererLifetime.CallBegunInsideCreatesNothing` | src/android_webview/browser/render_thread_manager.cc:319-332 | a call that begins during a release makes no renderer, not even after the release |
| `RendererLifetime.OthersNeverCreate` | src/android_webview/browser/render_thread_manager.cc:319-332 | from any other state within a release no way to go on within it makes one |
| `RendererLifetime.CreationCanOverlapRelease` | src/android_webview/browser/render_thread_manager.cc:319-332 | such an interleaving exists: the checks and the creation are separate accesses |
| `InvokeTracker.NeverBothPending` | src/android_webview/browser/render_thread_manager.cc:48-85 | in every interleaving the two pending requests are never both set |
| `InvokeTracker.TurnedDownIsComingIff` | src/android_webview/browser/render_thread_manager.cc:121-163 | whenever a request is turned down a call, a live closure or a thread about to post one is on its way, or the UI thread is still asking, unless the UI thread has just been refused and nothing else is; exactly then nothing is |
| `InvokeTracker.InvokeDecides` | src/android_webview/browser/render_thread_manager.cc:155-163 | an accepted invoke queues a call; a refused one ends with an empty tracker and brings none |
| `InvokeTracker.RefusedInvokeLosesRequests` | src/android_webview/browser/render_thread_manager.cc:155-163 | a run in which a request is turned down just after an invoke was refused: nothing is under way then or afterwards |
| `InvokeTracker.StepKeepsInvariant` | src/android_webview/browser/render_thread_manager.cc:121-163 | every access of a requester, the UI thread or the render thread keeps what that rests on: a manager recorded by another thread has its closure coming, or the UI thread is about to replace the record |
| `InvokeTracker.ClosureLeadsToCall` | src/android_webview/browser/render_thread_manager.cc:151-163 | a live closure leads to one queued call and retires itself; the call clears the tracker |
| `InvokeTracker.RequestInvokeGLTracker.ShouldRequestOnUiThread` | src/android_webview/browser/render_thread_manager.cc:57-72 | cancels a request from elsewhere, and refuses only when one of the UI thread is pending |
| `InvokeTracker.RequestInvokeGLTracker.ShouldRequestOnNonUiThread` | src/android_webview/browser/render_thread_manager.cc:48-55 | refuses when any request is pending |
| `InvokeTracker.RequestInvokeGLTracker.SetQueuedFunctorOnUi` | src/android_webview/browser/render_thread_manager.cc:80-85 | the UI thread's request replaces whatever was pending |
| `InvokeTracker.RequestInvokeGLTracker.ResetPending` | src/android_webview/browser/render_thread_manager.cc:74-78 | forgets both requests |
| `GpuTasks.DeferredGpuCommandService.RunTasks` | src/android_webview/browser/deferred_gpu_command_service.cc:161-182 | ends with an empty queue, having started everything scheduled, in that order, each task and all it spawns exactly once |
| `GpuTasks.DeferredGpuCommandService.ScheduleTask` | src/android_webview/browser/deferred_gpu_command_service.cc:93-103 | with GL allowed, the queue has run when it returns; otherwise the task is queued and a call requested |
| `GpuTasks.DeferredGpuCommandService.PerformIdleWork` | src/android_webview/browser/deferred_gpu_command_service.cc:119-144 | runs exactly the idle tasks present on entry, or the longest prefix of them that is old enough |
| `GpuTasks.DeferredGpuCommandService.PerformAllIdleWork` | src/android_webview/browser/deferred_gpu_command_service.cc:146-153 | terminates, with all idle work started in order |
| `GpuTasks.DeferredGpuCommandService.EnterAllowGL` | src/android_webview/browser/deferred_gpu_command_service.cc:38-44 | entering the scope runs the queue |
| `GpuTasks.DeferredGpuCommandService.LeaveAllowGL` | src/android_webview/browser/deferred_gpu_command_service.cc:46-56 | leaving it leaves the queue empty, and requests a call when idle work is left |
| `GpuTasks.HowManyIs` | src/android_webview/browser/deferred_gpu_command_service.cc:127-137 | the prefix that runs is the maximal one of age at least 16 ms |
| `HouseNumbers.HouseNumberParser.Parse` | src/android_webview/browser/address_parser_internal.cc:126-256 | succeeds exactly when some run from the beginning or after a delimiter is accepted, returns the leftmost, and never reaches the fail-safe |
| `HouseNumberGrammar.AcceptedIff` | src/android_webview/browser/address_parser_internal.cc:126-256 | the token machine accepts just the stretches whose every character fits: at most five digits and hyphens, none of the latter first or last, letters only as "one" at the start, single behind a digit before a delimiter, or as the ordinal suffix of the digits |
| `HouseNumberGrammar.FoundIsLeftmostNumeral` | src/android_webview/browser/address_parser_internal.cc:126-256 | the number found is the leftmost such stretch standing where one may start |
| `HouseNumberGrammar.OrdinalIff` | src/android_webview/browser/address_parser_internal.cc:183-234 | up to five digits and two letters are a number exactly when the letters are st, nd, rd or th as the digits call for: th behind 1, 2, 3 only in 11th, 12th, 13th, and not behind a single 0 |
| `HouseNumberGrammar.LetterIff` | src/android_webview/browser/address_parser_internal.cc:170-181 | up to five digits and one letter are a number exactly when a delimiter or the end follows; at the end of a word the letter behind the word is looked at too |
| `HouseNumbers.FoundNumberShape` | src/android_webview/browser/address_parser_internal.cc:114-256 | a found number has letters, digits and hyphens only, at most five of the latter two, no hyphen at its end, and is followed by a delimiter or the end |
| `HouseNumbers.PlainDigits` | src/android_webview/browser/address_parser_internal.cc:148-157 | a plain run of digits is accepted exactly when it has at most five |
| `HouseNumbers.DigitFollowsLetterIff` | src/android_webview/browser/address_parser_internal.cc:148-244 | in an accepted run a digit follows a letter exactly when the run goes on behind its first group of letters: "one", an ordinal suffix, or a single letter |
| `HouseNumbers.DigitAfterOrdinal` | src/android_webview/browser/address_parser_internal.cc:170-244 | "1st5" is read as one number |
| `HouseNumbers.DigitAfterOne` | src/android_webview/browser/address_parser_internal.cc:161-168 | so is "one5" |
| `HouseNumbers.NarrowedDelimiters` | src/android_webview/browser/address_parser_internal.cc:88-90 | a 16-bit character is taken for a delimiter that is neither whitespace, a quote nor a comma exactly when its low byte is one of the latter or zero, as that of U+012C is; none of those is missed |
| `AddressWords.Tokenizer.GetNextWord` | src/android_webview/browser/address_parser.cc:95-110 | skips to the next word of the text, counting the line breaks on the way |
| `Addresses.WordsSplitText` | src/android_webview/browser/address_parser.cc:72-110 | the words are the stretches between whitespace, line feeds, commas, asterisks and bullets, each as long as can be |
| `AddressWords.IsZipValid` | src/android_webview/browser/address_parser_internal.cc:443-539 | accepts exactly the five- and nine-digit shapes whose prefix is in the state's range |
| `AddressWords.IsValidLocationName` | src/android_webview/browser/address_parser_internal.cc:541-664 | accepts exactly the listed names, with a plural where that is allowed |
| `StateNames.MatchesSpell` | src/android_webview/browser/address_parser_internal.cc:258-441 | a state match is a known two-letter code, or the words from there on spell a known name as far as its counted length |
| `StateSpelling.StateIsFoundIff` | src/android_webview/browser/address_parser_internal.cc:258-441 | a state is found at a word exactly when it stands there: a two-letter word that is a listed code, or otherwise words that spell the counted part of a name listed under their first letter, the first such name |
| `StateSpelling.FoundIsSpelled` | src/android_webview/browser/address_parser_internal.cc:402-437 | the words found for a name are exactly those that spell its counted part |
| `StateNames.RhodeIslandIsCutShort` | src/android_webview/browser/address_parser_internal.cc:348 | the entry for Rhode Island is met exactly by the word "rhode", whatever follows |
| `AddressFinder.AddressPass.FindStateStartingInWord` | src/android_webview/browser/address_parser_internal.cc:368-441 | filling the word list on demand finds the same state as reading the words of the text, and the list grows just as far as the lookup reads |
| `AddressFinder.AddressPass.TakeTurn` | src/android_webview/browser/address_parser.cc:92-207 | one turn of the loop: it goes past a word exactly when the word is there, is not long and is within the lines counted, and then what is accepted, where an address ends and what is passed over |
| `AddressFinder.AddressPass.Prepare` | src/android_webview/browser/address_parser.cc:94-122 | exactly when a word is there, is not long and brings the lines to no more than five it gets into the list, with its line breaks counted once; the loop comes to an empty word exactly when an earlier lookup of a state in the same pass read past the last word of the text, to that place |
| `AddressExamples.CutOffLookup` | src/android_webview/browser/address_parser_internal.cc:412-431 | in "1 a b c new" the lookup at the fourth word finds no state and reads on to an empty word |
| `AddressExamples.MeetEmptyWord` | src/android_webview/browser/address_parser.cc:112-118 | the loop over the words of that text comes to its fifth word, which is empty, against the check at line 116 |
| `StateNames.StateStopsAtEmpty` | src/android_webview/browser/address_parser_internal.cc:406-431 | a lookup that reaches an empty word reads no further |
| `AddressFinder.FindAddress` | src/android_webview/browser/address_parser.cc:59-221 | what is found is a non-empty stretch of the text that has a delimiter or nothing on its left and is an address, its state within the five lines seen; a plain address with the first house number is always found, up to its ZIP code |
| `AddressFinder.LinesAreSeenIff` | src/android_webview/browser/address_parser.cc:22-24 | the lines seen are never more than those of the text, and as many exactly when no word that a lookup reads ahead begins a new line |
| `AddressExamples.FindFarDown` | src/android_webview/browser/address_parser.cc:94-110 | in "1 st a b new" with five line breaks before "ny 10000" an address is found, though its state is on the sixth line |
| `AddressFinder.Pass` | src/android_webview/browser/address_parser.cc:75-217 | one pass from a house number; the next resumes strictly behind where this one started, and where no number is cut in two |
| `AddressFinder.WordsAreResumable` | src/android_webview/browser/address_parser.cc:209-217 | no number begins where a word begins or ends unless a delimiter is on its left |
| `Addresses.AddressMeans` | src/android_webview/browser/address_parser.cc:59-221 | what the finder takes for an address is one in terms of the text: literal limits, a listed state code or name at its word, a location name, no long word, not "et al", and a ZIP code of the state or nothing behind |
| `Addresses.PlainMeans` | src/android_webview/browser/address_parser.cc:59-221 | and so for plain addresses: no other number and no listed state before |
| `Addresses.PlainAddressIsAddress` | src/android_webview/browser/address_parser.cc:59-221 | every plain address meets the definition of an address |
| `AddressFinder.AddressIsAStretch` | src/android_webview/browser/address_parser.cc:185-206 | start is before end and both lie in the text |
| `StateSerializer.StateRoundTrip` | src/android_webview/browser/state_serializer.cc:39-134 | for either version, restoring what was written gives the entries and selection back and consumes exactly what was written |
| `StateSerializer.WhatIsRestored` | src/android_webview/browser/state_serializer.cc:39-134 | what is written now and restored is the same entry by entry, but that an empty data URL is none; in the first version every data URL is lost |
| `StateSerializer.FormatOfEntry` | src/android_webview/browser/state_serializer.cc:168-228 | the thirteen values of an entry in their order; the first version leaves out the data URL |
| `StateSerializer.StateIsWhatWasWritten` | src/android_webview/browser/state_serializer.cc:74-134 | whatever is restored begins with the very values the writer writes for it |
| `StateSerializer.CutShortIsRefused` | src/android_webview/browser/state_serializer.cc:74-107 | every strict prefix of a written stream is refused |
| `StateSerializer.BadHeaderIsRefused` | src/android_webview/browser/state_serializer.cc:79-97 | an unsupported version, a negative count or a selection out of range is refused |
| `StateSerializer.EntryRoundTrip` | src/android_webview/browser/state_serializer.cc:168-338 | one entry round trip: no data URL and an empty one are the same, and the first version drops it |
| `StateSerializer.EntryIsWhatWasWritten` | src/android_webview/browser/state_serializer.cc:235-338 | an entry read is the entry written as those values |
| `StateSerializer.WriteToPickle` | src/android_webview/browser/state_serializer.cc:39-72 | the writer appends exactly the specified values of the current version |
| `StateSerializer.RestoreFromPickle` | src/android_webview/browser/state_serializer.cc:74-134 | the reader restores what the specification says, or returns false with the target unchanged |
| `StateSerializer.WriteNavigationEntryToPickle` | src/android_webview/browser/state_serializer.cc:168-228 | the entry writer follows the specification field by field |
| `StateSerializer.RestoreNavigationEntryFromPickle` | src/android_webview/browser/state_serializer.cc:235-338 | the entry reader follows the specification field by field |

## Left out

- JNI and Java peers, thread checks, tracing and logging: Java references are taken to be alive and threads to be as declared.
- Surfaces, EGL, Skia, transforms, viewports and draw constraints: of drawing only frames, sinks, compositors and resources are kept.
- Callbacks that call the permission manager again while it runs them: their results are recorded instead.
- Requests that name a permission twice: such a request can never complete (lines 167-168 and 197-199 of the permission manager), so permissions are taken to be distinct.
- Delegates whose cancellation does not withdraw the outstanding calls, or that answer a call twice: a delegate is taken to give up exactly the calls of that frame, origin and permission.
- PermissionRuns.RunsStayAtRest: cancelling is legal when the delegate is there or every wait is shared; what happens otherwise is `CancelKeepsRestIffSafe`.
- PermissionRuns.IssuedRequestsAreAccountedFor: requests for no permission get no id; their callbacks are counted apart.
- Canonical forms of URLs, Pickle, IDMap, string tokenizer and cancelable closure internals: they are opaque texts with a function, a stream of typed values, a map from numbers never used again, a splitter, and generation numbers.
- The order in which a table or map is walked: it is arbitrary in the model.
- GeolocationPrompts.HidingIsTheBrokersCancelIff: the queue is compared with the calls of one frame, as one view serves one frame tree.
- Several producers or consumers of frames: one of each is modelled, so `allow_async_draw_` belongs to the pipeline it feeds.
- BrowserViewRenderers.BrowserViewRenderer.OnDrawHardware: memory policy, scroll offset and tile priorities are not part of the model.
- HardwareRenderers.HardwareRenderer.DrawGL: what the display returns when its support is reset is a parameter, at most what it holds; ordinary acknowledgements are steps of the pipeline, not of the class.
- FrameReturns.NothingIsDropped: what the display does not hand back when its support is reset counts as dropped, so there the display is taken to hand back all it holds; it returns each resource at most once.
- RendererLifetime.ReleaseLeavesNone: draw calls are taken to arrive only between a draw that returned true and the next detach, an accepted blocking request to bring a call that is not a sync call, and a rejected one to find the render thread outside of any call.
- Fairness: that a posted closure or a queued call is ever run is not stated, only that it is there.
- GpuTasks.DeferredGpuCommandService.RunTasks: one thread runs GL and schedules; tasks posted by other threads meanwhile are not modelled.
- The state, ZIP and street-name tables: they are parameters of a known shape, not checked entry by entry.
- AddressFinder.FindAddress: which of several addresses is found is stated for plain ones standing first. Of a found address the lines seen are promised to be few, where every word some lookup before it reads ahead is left out.
- Writing to a pickle never fails in the model; the failure returns of the writers are kept as results but always true.
- File access rights and loading after a restore (`state_serializer.cc:115-131`).
- Settings, cookies, autofill, metrics, printing, safe browsing, dev tools, file chooser, GL state save and restore, and the small stores beside them: thin wrappers or easy members.
