# Laser output path: a verified model

A Dafny model of the hard parts of `laser-dac-rs`, the library that streams points to laser
projectors, with proofs of what those parts promise. Nothing here executes the library; every
statement below is checked by the Dafny verifier (`dafny verify dfyconfig.toml`).

## What is modelled

* **Frame presentation.** `PresentationEngine` (FIFO `fill_chunk`, frame-swap
  `compose_hardware_frame`), `ColorDelayLine` and `SlicePipeline` are classes that update their
  state in place. `FifoMachine` is the one-point-at-a-time machine that the batch loop refines,
  `FrameSwap` says what a composed frame is, `SwapStream` what every composed frame of a run shows
  and `FrameCapacity` which of them fit the device; `OutputStage` and `DelayChanges` say what blanking
  and the colour delay do to a stream. `FifoStream` explains the whole output of any run as a chain
  of passes. The user's transition callback is an arbitrary function.
* **Arm/disarm lifecycle.** `Session` is the packed state-and-generation word under any
  interleaving of compare-and-swap loops. `Driver` is the driver loop; control threads may change
  the word between any two reads, and the backend may fail any command. `Lifecycle` says what a
  record of everything the driver did has to satisfy, `PassCourse` what that means for the passes of
  an armed session, and `ArmedOutput` what the content source shows after an arm. `Reconnect` is the
  retry loop against an arbitrary environment.
* **Streaming resampler.** `Resample` is the resampler with its pruned history, for any sample
  type and interpolation; `ResampleStream` and `Spline` compare chunked with whole-stream runs, and
  `Reproduction` says what comes out for lines and parabolas; `AudioSink` is the bounded queue behind
  it.
* **Buffer estimators.** `SoftwareDecay` and `StatusDecay` against the ideal leaky bucket of
  `LeakyBucket`, over real time; `DualTrack` against the bucket of a device that its sends reach
  after a delay. `Repricing` is what they share: an anchored estimate whose time is counted at a rate
  that did not hold all along. `EtherDreamEstimate` is the one production use of the status-driven
  estimator, with the admission check beside it.
* **Ether Dream interlock proxy.** `ProxyFraming` and `ProxyStream` cut the client's bytes into
  commands, `DacCommands` is the library's own encoding of them and `ProxyRoundTrip` ties the two
  together; `Interlock` is the two-thread protocol that keeps commands away from a device in
  e-stop; `InterlockRefusal` is what a refusal does to it.

The environment (other threads, devices, callbacks) appears as steps of a state machine, as
function parameters, or as unconstrained choices inside methods.

## Where the code does not do what it says

Each of these is kept as the code has it, with the exact condition under which the promise holds.

* Lowering the frame capacity does not invalidate the cached hardware frame, so an oversized frame
  is returned until something else forces a recomposition; and a cleared display is one point even
  on a device that takes none (`FrameCapacity.ComposedFitsExactly`,
  `FrameCapacity.LoweredCapacityOverflows`). Neither production caller gets there: a session sets
  the capacity on a new engine (src/presentation/session.rs:402-404) and a reconnect right after the
  engine was reset (src/presentation/driver.rs:384-387), and for such callers every frame fits
  (`FrameCapacity.SetOnResetFits`).
* `StatusDecayEstimator` counts the time between its last anchor, a report or a send, and the start
  of playback as played, so it can under-report until the next anchor
  (`StatusDecay.LateStartUnderReportsExactly`). It never does where the flag says what the device
  does, changes only with a report, and reports are anchored when they are sampled
  (`StatusDecay.PairedNeverUnderReports`).
* Its one caller, the Ether Dream backend, keeps neither: it flags a prepared ring as draining and
  anchors a status when the request was sent, both on purpose
  (src/protocols/ether_dream/backend.rs:575-588, src/protocols/ether_dream/backend.rs:48-51). Exactly
  when a reading there is too low is `EtherDreamEstimate.UnderReportsExactly`; while the device plays
  it is too low by no more than plays between request and sample, and the lower bound that the
  comments promise holds up to less than one point (`EtherDreamEstimate.EstimateIsLowerBound`). The
  admission check's upper bound fails exactly for a device that plays at a reported rate of 0
  (`EtherDreamEstimate.AdmissionCoversExactly`).
* A change of rate prices all the time since the anchor anew. A drop is harmless, a rise can make the
  software-only and the dual-track estimate too low (`SoftwareDecay.RateChangeExactly`,
  `DualTrack.RateRiseExactly`).
* The dark start after an arm is as long as delay and startup blank together only while the delay does
  not change; a shorter delay can end it at once (`DelayChanges.DarkLengthExactly`,
  `DelayChanges.ShrinkEndsIt`).
* The interlock's header promises that only ping, clear and e-stop reach a device known to be in
  e-stop. The stop commands that follow a refusal are sent without asking the gate, if the playback
  state reported last calls for any (`InterlockRefusal.RefusalReachesEstopExactly`,
  `InterlockRefusal.RefusedAtOnceExactly`, `InterlockRefusal.StopFollowsEstop`).
* The startup blank and the colour delay together are to keep the first points after an arm dark.
  The driver reads the word once more after the lifecycle pass to decide whether content is armed
  (src/presentation/driver.rs:249). An arm edge in between produces armed content before the
  preparation, and the preparation does not reset the colour delay, so colours of that content can
  come out right after the shutter opens (`ArmedOutput.DarkStartExactly`,
  `ArmedOutput.LitStartMeansLateArm`, `ArmedOutput.LateArmLightsStart`).
* For a coalesced seam, FIFO and frame-swap delivery drop different endpoints: their periods are
  rotations of each other exactly when the frame ends where it starts
  (`FrameSwap.FifoRotatesFrameSwapExactly`).
* The alternative e-stop command is written with its own opcode but reads back as the e-stop; every
  other command reads back as it was written (`DacCommands.DecodesWhatWasEncoded`).
* Two equal reads of the desired word mean that no edge occurred only below 2^63 edges
  (`Session.EqualReads`).
* The comment on `fill_chunk` says that nothing is written before the first frame. The code fills
  the request with the idle point, and so does the model.
* In FIFO delivery an empty current frame is never left again until a reset, whatever is submitted
  (`FifoStream.ClearedIsAbsorbing`).

## Model

| member | source | states |
|---|---|---|
| FifoStream.OutputIsPasses | src/presentation/engine.rs:136-225 | over every run of submissions and fills of any size and rate, the whole output is a chain of passes: idle points only while nothing was submitted, then frames each running to its last point, each entered through exactly the block (or coalesced skip) the callback plans between the point before and the point after, over the submission that was latest and at the rate in force when the seam was planned, no self-loop block beginning while a newer frame waits, and idle points again only if the submission latest at the seam is empty |
| FifoStream.RunHasStory | src/presentation/engine.rs:115-225 | the invariant behind it: after every run the engine's cursors, block and flags are those of the pass in progress |
| FifoStream.PromotedExactly | src/presentation/engine.rs:136-225 | a pending frame becomes current after exactly the rest of the block and frame (at once if the block is stale), not before, and stays current |
| FifoStream.ClearedIsAbsorbing | src/presentation/engine.rs:115-150 | with an empty current frame, no sequence of submissions and fills leaves it, and only idle points come out |
| FifoMachine.FillIsOneByOne | src/presentation/engine.rs:152-224 | output and final state of a request for n points equal n requests for one point |
| FifoMachine.FillSplits | src/presentation/engine.rs:152-224 | filling a and then b points is filling a + b |
| FifoMachine.BatchIsRun | src/presentation/engine.rs:152-224 | any legal series of batch iterations (drop, drain, draw) is a run of the one-point machine |
| FifoMachine.RunKeepsReady | src/presentation/engine.rs:136-225 | no step leaves a state that FIFO delivery cannot continue from (cursors in range, drawable equal to the current frame) |
| FifoMachine.RunStretch | src/presentation/engine.rs:192-221 | a stretch of a frame comes out as one slice, the seam following at once after its last point |
| FifoMachine.RunAfterDrop | src/presentation/engine.rs:162-177 | dropping a stale self-loop block first does not change what a non-empty run emits |
| Engine.PresentationEngine.FillChunk | src/presentation/engine.rs:136-225 | the batch loop fills the request with exactly the points, and leaves exactly the state, of the one-point machine; the rest of the buffer is untouched; it terminates on points left and pending present |
| Engine.PresentationEngine.RunBatch | src/presentation/engine.rs:152-224 | the loop's iterations form a legal batch that ends with the request filled or nothing to draw |
| Engine.PresentationEngine.Advance | src/presentation/engine.rs:153-222 | one iteration is a drop, a drain or a draw, and writes exactly what it emits |
| Engine.PresentationEngine.CrossSeam | src/presentation/engine.rs:198-221 | at the end of a frame: promote what is pending, or plan the seam of the frame with itself |
| Engine.PresentationEngine.PromotePending | src/presentation/engine.rs:353-378 | the pending frame becomes current through the block planned from the old last point to its first |
| Engine.PresentationEngine.SetPending | src/presentation/engine.rs:115-124 | latest wins; the very first frame becomes current at once |
| Engine.PresentationEngine.Reset | src/presentation/engine.rs:93-104 | back to a new engine; capacity and idle point survive |
| Engine.PresentationEngine.ComposeHardwareFrame | src/presentation/engine.rs:235-287 | returns and caches the frame that the composition functions give, and moves the pending frame to current; what that shows over whole runs is `SwapStream.FrameShowsLatest` |
| Engine.PresentationEngine.ClampToCapacity | src/presentation/engine.rs:333-347 | trimming step by step gives the fitted parts: prefix first, authored points only when it is gone |
| SwapStream.FrameShowsLatest | src/presentation/engine.rs:235-318 | after every run of submissions, capacity changes, resets and compose calls, the next hardware frame shows the latest submission: the first one after a change is the callback's block from the last point of the submission displayed before (the first one of all, if none was composed yet) to the first point of the new one and then the new one, without its first point if the seam coalesces; the ones after that loop it, at the rate of the call; an empty submission is the idle point; before any submission there is nothing |
| SwapStream.UnlimitedFrame | src/presentation/engine.rs:235-318 | without a capacity the frame is exactly that block and those points |
| SwapStream.RunHolds | src/presentation/engine.rs:115-124 | the invariant behind it: what is current is the submission the display has got to, and what waits is the latest one if that is another |
| FrameSwap.ComposeIsCoherent | src/presentation/engine.rs:280-318 | the cache is always what composing afresh would give; with nothing pending the result is the self-loop frame for the rate of this call |
| FrameSwap.FitRespectsCapacity | src/presentation/engine.rs:333-347 | a fitted frame has exactly the smaller of its size and the capacity, keeps every authored point while they fit, and is unchanged if everything fits |
| FrameCapacity.ComposedFitsExactly | src/presentation/engine.rs:235-347 | after every run of submissions, capacity changes, resets and compose calls, the next frame exceeds the capacity if and only if nothing forces a recomposition and the capacity fell below the smaller of the one composed under and the loop's size, or the display is cleared on a device that takes no points |
| FrameCapacity.SetOnResetFits | src/presentation/driver.rs:384-387 | if the capacity is set only while nothing has been composed since the engine was new or reset, every frame fits, except the one point that clears a device that takes none |
| FrameCapacity.RunIsCoherent | src/presentation/engine.rs:280-318 | after every run the cached frame is the self-loop frame, fitted to the capacity it was composed under |
| FrameCapacity.LoweredCapacityOverflows | src/presentation/engine.rs:81-83 | two points submitted and composed, capacity lowered to one: the next frame still has two |
| FrameSwap.FifoLoops | src/presentation/engine.rs:204-220 | from a self-loop seam, k periods of FIFO delivery are k copies of the period and return to the same state |
| FrameSwap.FifoEqualsFrameSwap | src/presentation/engine.rs:434-463 | with a transition seam, k FIFO periods are k copies of the composed hardware frame |
| FrameSwap.FifoRotatesFrameSwapExactly | src/presentation/engine.rs:434-463 | with a coalesced seam, one FIFO period is a rotation of the hardware frame if and only if the frame ends where it starts |
| ColorDelay.ColorDelayLine.Apply | src/presentation/engine.rs:531-568 | the in-place shift gives every point the colour a point-by-point queue releases, for chunks shorter, equal and longer than the delay; positions and the rest of the buffer are untouched; the carry is what the queue holds |
| ColorDelay.ColorDelayLine.Resize | src/presentation/engine.rs:508-528 | a longer delay pads the front with black, a shorter one drops from the front |
| ColorDelay.ColorDelayLine.Reset | src/presentation/engine.rs:499-501 | the carried colours turn black, the delay stays |
| ColorDelay.QueueSplits | src/presentation/engine.rs:531-568 | feeding a chunk to the queue splits queue plus chunk at the chunk's length |
| ColorDelay.QueueChunks | src/presentation/engine.rs:470-482 | chunk boundaries are invisible to the queue |
| OutputStage.ChunkingIsInvisible | src/presentation/slice_pipeline.rs:143-187 | at a constant delay, blanking and delaying chunk by chunk equals doing it once on the whole stream |
| OutputStage.DarkStart | src/presentation/slice_pipeline.rs:366-379 | armed from a clean carry, the first delay + k points are dark however chunked, and from there every point has exactly the colour authored delay points earlier, at its own position |
| OutputStage.DarkFromDisarmToArm | src/presentation/slice_pipeline.rs:143-187 | whatever the carry held before a disarm and whatever disarmed chunks follow at whatever delays, the first delay + k points after arming are dark |
| DelayChanges.DarkLengthExactly | src/presentation/slice_pipeline.rs:167-169 | armed from a clean carry, over any chunks each at its own delay, exactly so many points stay dark whatever the content is, and the next one shows the content as many points older as the delay then in force |
| DelayChanges.LeastDelay | src/presentation/engine.rs:508-528 | while the delay stays at or above some length, the dark start is at least that plus the startup blank |
| DelayChanges.ConstantDelay | src/presentation/engine.rs:531-568 | at a constant delay it is exactly delay plus startup blank |
| DelayChanges.ShrinkEndsIt | src/presentation/engine.rs:508-528 | a shorter delay after enough points ends it at once |
| OutputStage.DisarmedStaysDark | src/presentation/slice_pipeline.rs:366-370 | after the carry was reset a disarmed chunk is dark and leaves the carry clean |
| OutputStage.DisarmedLitBound | src/presentation/slice_pipeline.rs:366-379 | disarmed without a reset, over any chunks, at most as many lit points as lit carry entries |
| OutputStage.DurationToPoints | src/presentation/mod.rs:43-56 | the points of a duration, rounded up, saturating at the largest usize |
| Pipeline.ParkPoint | src/presentation/mod.rs:60-65 | the park point of every policy is dark, at the place it names or else at the centre |
| Pipeline.DisarmedIsParked | src/presentation/slice_pipeline.rs:366-370 | disarmed, once no lit colour waits in the delay line, every point is dark and at the policy's place |
| Pipeline.SlicePipeline.ProduceFifoChunk | src/presentation/slice_pipeline.rs:143-187 | the slice is exactly what the engine emits next, blanked and delayed; it is cached for a verbatim retry; an empty request changes nothing else |
| Pipeline.SlicePipeline.ProduceFrameSwap | src/presentation/slice_pipeline.rs:191-233 | the slice is the composed hardware frame, blanked and delayed, and cached; nothing before the first frame |
| Pipeline.SlicePipeline.ApplyBlanking | src/presentation/slice_pipeline.rs:366-379 | park points while disarmed, otherwise the first points of what is left of the startup blank lose their colour |
| Pipeline.SlicePipeline.OnDisarm | src/presentation/slice_pipeline.rs:313-315 | the carry is black afterwards |
| Pipeline.SlicePipeline.ReplayAfterReconnect | src/presentation/slice_pipeline.rs:254-261 | the engine starts over with the most recent frame, the carry is black, nothing is cached |
| Session.WordCountsEdges | src/session.rs:121-140 | over every interleaving of any number of arm and disarm loops, after k edges the word is 2k + (k mod 2), in 64 bits |
| Session.EqualReads | src/session.rs:45-59 | two reads are equal if and only if the edges between them are a multiple of 2^63 |
| Session.EdgesAreFlips | src/session.rs:121-140 | a step of the protocol counts an edge exactly when the arm state flips, and otherwise leaves the word alone |
| Session.SameStateMakesNoEdge | src/session.rs:124-127 | a call that loads the state it asks for finishes without changing the word, whatever other threads do in between |
| Session.AttemptDecides | src/session.rs:128-140 | in every run, an attempt on an unchanged word of the other state makes exactly one edge, to the state asked for, and finishes; on a changed word it makes none and looks again; no other call is touched |
| Session.RunKeepsInv | src/session.rs:121-140 | every finished call has a moment within it at which the state was the one asked for; a call in progress lost at most one race per edge since it began |
| Reconnect.ReconnectWithRetry | src/reconnect.rs:124-277 | for every environment: each backend obtained is returned (connected, then closed, then validated live, last) or had its shutter closed and its connection dropped last; opens stay within the limit; none follows an observed stop, and each but the first (and that too if flapping) waits out the whole backoff; if no stop is asked for, the first attempt that is not a transient failure decides, with its backend or with the exit of its failure, unless the limit comes first, which ends the session as disconnected; with a limit the loop ends |
| Reconnect.TryOnce | src/reconnect.rs:152-275 | an attempt that sees no stop succeeds if and only if the environment lets it through at every point, is tried again if and only if the failure is transient, and otherwise ends the session with the exit that failure calls for; it gives up what it obtained unless it succeeds |
| Reconnect.UseBackend | src/reconnect.rs:195-275 | a backend in hand is handed over ready or released, with that outcome |
| Reconnect.SleepWithStop | src/reconnect.rs:84-109 | reports a stop if and only if one of its queries, before each slice and at the end, sees one |
| Driver.Driver.HandleShutterTransition | src/presentation/driver.rs:427-490 | keeps the boundary invariant: if the handled generation is armed but unprepared on this backend, the live word is strictly newer; every open in it is for an armed generation prepared here and read again just before; a pass that first reads disarmed ends dark; one that reads an armed word throughout ends open unless a command failed, and one whose armed word changes after it was confirmed ends with a close |
| Driver.Driver.Reconcile | src/presentation/driver.rs:437-468 | a new generation is cleaned up for and prepared, or an edge during the cleanup leaves it to the next pass, or the device is lost closed |
| Driver.Driver.ChooseArmed | src/presentation/driver.rs:249-249 | read right after a pass, the word that arms the content is at least as new as the handled generation, and that generation is prepared exactly when the two are the same |
| Driver.Driver.OpenOrClose | src/presentation/driver.rs:471-487 | opens for the prepared generation if it is still live and only then, so that the pass ends open unless a command failed or the word changed; closes again if the word changes after that, and closes when disarmed |
| Driver.Driver.OpenConfirmed | src/presentation/driver.rs:473-484 | with the word confirmed: open afterwards if it stays and the command succeeded, closed again if it changes, even if opening reported failure |
| PassCourse.ArmedPassOpens | src/presentation/driver.rs:427-490 | in every safe record, a pass that went on, read one armed word only and had no command fail ended with the shutter open |
| PassCourse.LateEdgeIsClosed | src/presentation/driver.rs:481-485 | in every safe record, if the armed word of a pass that went on changed after it was confirmed, the last shutter command of that pass is a close |
| PassCourse.HandledIsEarned | src/presentation/driver.rs:443-467 | in every safe record, a generation counts as handled only if its word was read last and either all four steps of the cleanup came right before or it is prepared on this backend |
| PassCourse.FollowMeans | src/presentation/driver.rs:427-490 | the running account of a pass (words read, cleanup, failures, last command) is what the record spells out |
| Driver.Driver.CommandClose | src/presentation/driver.rs:418-425 | closes unless known closed or forced; the shutter is never left believed open |
| Driver.Driver.ReconnectBackend | src/presentation/driver.rs:330-408 | what is adopted was handed over ready; the new lifecycle starts disarmed, so an armed generation is prepared again; without a policy the session ends disconnected; if no stop is asked for, the reconnect's outcome is what happens, except that a candidate whose rates no longer fit is given up as incompatible |
| Driver.Driver.CloseIfDisarmed | src/presentation/output_model/mod.rs:239-251 | while the adapter waits, only the closing direction touches the shutter: if the word then read is disarmed it is not open afterwards, and was told to close unless known to be closed |
| Driver.Driver.DrainAndBlank | src/presentation/output_model/mod.rs:271-287 | a graceful end issues a close last |
| Driver.Driver.RunLoop | src/presentation/driver.rs:186-307 | the record stays safe over any number of passes, reconnects and failures; stop, stop error, setup failure and graceful end issue a close; while it does not end it goes round once per turn, each time with a whole pass or a new backend |
| Driver.Driver.Run | src/presentation/driver.rs:161-184 | for every behaviour of threads, backend and adapter the record is safe, and every end stops and then disconnects a backend that is still connected |
| Driver.WordIsTheWord | src/session.rs:45-59 | below 2^63 edges the driver's word is the one the control threads maintain |
| Lifecycle.OpenIsPrepared | src/presentation/driver.rs:452-479 | in every safe record, each open command is preceded by a whole rising preparation (with a successful device reset) for the armed word read just before it, not undone since by a cleanup, a failed reset or a new backend |
| Lifecycle.SummaryMeans | src/presentation/driver.rs:427-490 | the running summary of a record (word read, preparation, shutter, pass) is what the record spells out |
| Lifecycle.DisarmedPassEndsDark | src/presentation/driver.rs:427-490 | in every safe record, a pass that first read disarmed opened nothing, did not end open, ended closed unless a close of that pass failed, and told a shutter not known to be closed to close |
| ArmedOutput.DarkStartExactly | src/presentation/driver.rs:452-468 | after every preparation, however the content is armed and chunked, the first delay + blank points are dark if and only if the colours waiting in the delay line at the preparation are, as far as they come out |
| ArmedOutput.DarkUnlessExposed | src/presentation/driver.rs:249-268 | in every safe record they are dark, unless since the last cleanup armed content was produced for a generation that was not prepared |
| ArmedOutput.LitStartMeansLateArm | src/presentation/driver.rs:249-268 | in every safe record, a lit point among them means that content was armed by a word newer than the generation handled when it was read |
| ArmedOutput.LateArmLightsStart | src/presentation/driver.rs:249-268 | a record in which such a point goes out through the open shutter |
| Resample.StreamingResampler.Process | src/resample.rs:175-200 | emits exactly the outputs that become due, each computed as from the whole stream so far, never reading outside the history, and keeps at most two samples; what those outputs are for lines and parabolas is `Reproduction.ChunkedCurve` |
| Resample.StreamingResampler.Prune | src/resample.rs:162-172 | what is dropped is never needed again, and at most two samples remain |
| Resample.StreamingResampler.Read | src/resample.rs:156-159 | a clamped read of the retained samples is a clamped read of the stream |
| Resample.StreamingResampler.PendingOutputCount | src/resample.rs:149-151 | the count equals what the stream's length makes due |
| Resample.StreamingResampler.SetRates | src/resample.rs:124-134 | a change starts a new stream, the same rates change nothing |
| Resample.DueIsInside | src/resample.rs:153-159 | a due output lies within the stream, strictly before its last sample unless it falls exactly on one |
| Resample.NotDueIsBeyond | src/resample.rs:162-172 | an output that is not due yet lies at or beyond the last sample |
| ResampleStream.ChunkedCount | src/resample.rs:138-144 | after N samples, however chunked, floor((N-1)*to/from) + 1 outputs |
| ResampleStream.FeedChunks | src/resample.rs:260-275 | feeding chunks to the resampler gives the chunked stream |
| ResampleStream.ChunkedFromPrefix | src/resample.rs:175-200 | each output was computed from the stream up to the end of the first chunk after which it is due |
| ResampleStream.PrefixContext | src/resample.rs:185-196 | from such a prefix it uses the same first three samples (the third when off a sample) as from the whole stream; only the look-ahead may still be clamped |
| Spline.ChunkedIsClose | src/resample.rs:35-40 | for every way of cutting the input: exact on a sample, otherwise within 2/27 of the step into the look-ahead sample |
| Spline.SplineIsSmooth | src/resample.rs:35-40 | the spline passes through its knots and moves by at most 2/27 of a change of its look-ahead |
| Spline.TwoChunks | src/resample.rs:175-200 | a two-chunk input for which chunked and whole-stream runs use different look-aheads |
| Spline.BoundIsTight | src/resample.rs:35-40 | on that input the chunked output differs from the whole-stream output by exactly the bound |
| Reproduction.ChunkedCurve | src/resample.rs:175-200 | for every chunking of a stream on a parabola, every output whose four samples had arrived when it was computed lies on that parabola at n * from / to |
| Reproduction.ChunkedLine | src/resample.rs:175-200 | in particular on a straight line |
| Reproduction.CurveIsReproduced | src/resample.rs:185-196 | the same for one run over the whole stream |
| Reproduction.CurveWithoutLookAhead | src/resample.rs:185-196 | computed without its look-ahead, an output is off by exactly half the missing step times t * t * (1 - t) |
| Reproduction.SplineReproduces | src/resample.rs:35-40 | between four consecutive points of a parabola the spline is that parabola |
| Reproduction.PositionSplits | src/resample.rs:185-190 | index and phase together are exactly n * from / to |
| AudioSink.PushChunkResampled | src/protocols/audio_sink.rs:154-165 | with room for exactly the pending outputs at the start, every output gets in, in order, whatever the audio callback pops meanwhile |
| AudioSink.ReservationIsNeeded | src/protocols/audio_sink.rs:65-100 | without a pop, all points get in if and only if there was room for all |
| AudioSink.AudioSinkState.HasCapacityFor | src/protocols/audio_sink.rs:69-71 | exactly the free room is granted |
| AudioSink.AudioSinkState.PushPoint | src/protocols/audio_sink.rs:97-100 | a full queue drops the point |
| SoftwareDecay.NeverOffByOne | src/buffer_estimate/software_decay.rs:41-68 | at a constant rate, after any sends at any non-decreasing times, empty spells included, the estimate is strictly within one point of the ideal bucket |
| SoftwareDecay.SendKeepsFollowing | src/buffer_estimate/software_decay.rs:41-58 | the inductive invariant: level - 1 < fullness - points in flight <= level |
| SoftwareDecay.FractionLeft | src/buffer_estimate/software_decay.rs:41-58 | rebasing leaves exactly the fraction of a point in flight |
| SoftwareDecay.RateChangeExactly | src/buffer_estimate/software_decay.rs:41-68 | after every run at one rate, a change to another makes some reading a whole point or more too low if and only if the time since the anchor, priced anew, costs a point |
| SoftwareDecay.RateDropIsSafe | src/buffer_estimate/software_decay.rs:41-68 | a lower rate never does |
| SoftwareDecay.RiseEmptiesEstimate | src/buffer_estimate/software_decay.rs:41-68 | one send and a rise to a rate that would have played it: 0 at once, whatever is still held |
| SoftwareDecay.SoftwareDecayEstimator.RecordSend | src/buffer_estimate/software_decay.rs:41-58 | subtracts whole points and advances the anchor by exactly their time |
| SoftwareDecay.SoftwareDecayEstimator.EstimatedFullness | src/buffer_estimate/software_decay.rs:62-68 | the fullness less the whole points played since the anchor, never below zero |
| StatusDecay.NeverUnderReports | src/buffer_estimate/status_decay.rs:43-71 | from a status report on, the estimate never under-reports the bucket it started, and over-reports it by less than one plus the sends since |
| StatusDecay.RunNeverUnderReports | src/buffer_estimate/status_decay.rs:38-71 | over every run of reports, sends and changes of playback, if since the last report playback started only at anchors, the estimate never under-reports what the device holds |
| StatusDecay.PairedNeverUnderReports | src/buffer_estimate/status_decay.rs:38-71 | if the flag always says what the device does and changes only together with a report, and every report is anchored when it was sampled, the estimate never under-reports |
| EtherDreamEstimate.UnderReportsExactly | src/protocols/ether_dream/backend.rs:579-603 | from one status to the next, some reading under-reports what is yet to be played if and only if the ring stands still (prepared, or playing at rate 0), is not empty and the caller's rate is positive, or the device plays and the points counted from request to reply exceed what the estimate then has in excess |
| EtherDreamEstimate.SampledOnArrival | src/protocols/ether_dream/backend.rs:43-56 | a playing device that samples as its reply leaves is under-reported if and only if its ring is not empty and the request took any time |
| EtherDreamEstimate.EstimateIsLowerBound | src/protocols/ether_dream/backend.rs:43-56 | while the device plays, a reading is less than one point above what it holds, and below it by no more than plays between request and sample |
| EtherDreamEstimate.PreparedExample | src/protocols/ether_dream/backend.rs:1127-1140 | a prepared ring of 100 points reads 40 after 2 ms at 30 kpps |
| EtherDreamEstimate.DacRateEstimator.RecordStatus | src/protocols/ether_dream/backend.rs:579-589 | a status decides flag, anchor, fullness and rate, whatever was before |
| EtherDreamEstimate.DacRateEstimator.EstimatedFullness | src/protocols/ether_dream/backend.rs:592-601 | reads at the reported rate, or at the caller's if there is none |
| EtherDreamEstimate.AdmissionCoversExactly | src/protocols/ether_dream/backend.rs:372-391 | the admission reading is never below what the ring holds, if and only if the device does not play at a reported rate of 0 with points in the ring and a positive rate of the last write |
| EtherDreamEstimate.AdmittedChunkFits | src/protocols/ether_dream/backend.rs:392-400 | otherwise an admitted chunk fits into the ring |
| Repricing.FallsBelowExactly | src/buffer_estimate/status_decay.rs:57-71 | an anchored estimate against a bucket that began to leak at the rate only later: some reading is below it if and only if the points counted before exceed the excess, at once or by the time the running point is complete |
| StatusDecay.LateStartUnderReportsExactly | src/buffer_estimate/status_decay.rs:38-71 | after any such run that ended not playing, a start at any later moment makes some reading before the next anchor under-report if and only if the points counted since the last anchor exceed what the estimate has in excess, at once in whole points or by the time the running point is complete while the device still holds something |
| StatusDecay.LateStartExample | src/buffer_estimate/status_decay.rs:38-71 | a report of 3000 points and a start 50 ms later: 0 reported while the device holds 1500 |
| StatusDecay.StatusDecayEstimator.RecordSend | src/buffer_estimate/status_decay.rs:51-55 | rebases on the present reading plus what is sent |
| StatusDecay.StatusDecayEstimator.EstimatedFullness | src/buffer_estimate/status_decay.rs:57-71 | zero before any report, the anchor while not playing, decayed while playing |
| DualTrack.RunIsConservative | src/buffer_estimate/dual_track_ack.rs:80-149 | in every run at a fixed rate both tracks stay within capacity, and from a send until the next ACK the sent track dominates and is what is reported |
| DualTrack.SendDominates | src/buffer_estimate/dual_track_ack.rs:119-127 | after a send the sent track is at least the ACK track at every later moment |
| DualTrack.EstimateFalls | src/buffer_estimate/dual_track_ack.rs:80-104 | with no send or ACK in between the estimate only falls |
| DualTrack.AllowedSendFits | src/buffer_estimate/dual_track_ack.rs:106-127 | sending no more than allowed is accounted for in full and leaves the latency margin |
| DualTrack.AllowedExactly | src/buffer_estimate/dual_track_ack.rs:106-112 | a send is within the allowance if and only if it is empty or leaves 300 points free beside the estimate |
| DualTrack.AckOfLatestSend | src/buffer_estimate/dual_track_ack.rs:119-144 | the answer to the latest send puts both tracks, and the estimate, on what the device reported |
| DualTrack.AckForgets | src/buffer_estimate/dual_track_ack.rs:129-149 | an ACK forgets its own message and those sent ten seconds ago or earlier, and no other |
| DualTrack.OnlyLatestReanchors | src/buffer_estimate/dual_track_ack.rs:129-144 | an ACK moves the sent track if and only if it answers a send made at the time of the latest one |
| DualTrack.LagBound | src/buffer_estimate/dual_track_ack.rs:80-149 | in every run with honest ACKs, however many are lost, a device that sends reach after a delay holds at most what is reported plus what the rate plays in one delay |
| DualTrack.AllowedSendIsNotLost | src/buffer_estimate/dual_track_ack.rs:106-127 | a send within the allowance loses nothing at that device and leaves the latency margin free there |
| DualTrack.RateRiseExactly | src/buffer_estimate/dual_track_ack.rs:67-104 | after every run that ends with a send, a rise of the rate makes some reading too low if and only if the time since the send, priced anew, exceeds what the estimate has in excess |
| DualTrack.RiseKeepsDomination | src/buffer_estimate/dual_track_ack.rs:67-104 | a rise does not end the domination of the sent track |
| DualTrack.RateDropIsSafe | src/buffer_estimate/dual_track_ack.rs:67-104 | after every run a drop leaves the estimate covering the bucket |
| DualTrack.DualTrackAckEstimator.RecordAck | src/buffer_estimate/dual_track_ack.rs:129-149 | re-anchors, forgets the message and the stale ones, and takes the reported fullness |
| DualTrack.DualTrackAckEstimator.RecordSend | src/buffer_estimate/dual_track_ack.rs:119-127 | anchors the sent track on the larger estimate plus what is sent, clamped to capacity |
| ProxyStream.ProxyFramesTheStream | examples/ether_dream_hwcheck.rs:683-722 | the commands taken out depend only on the bytes, not on how reads split them; each is whole and harmless; together with what is left they are the bytes; which commands they are is `ProxyRoundTrip.ProxyRoundTrip` |
| ProxyStream.TakeCommands | examples/ether_dream_hwcheck.rs:692-708 | the writer's inner loop takes out exactly the commands of the buffer |
| ProxyStream.FramingIgnoresReads | examples/ether_dream_hwcheck.rs:686-708 | feeding a stream piece by piece gives the same commands and verdict as all at once |
| ProxyStream.ExtractIsLossless | examples/ether_dream_hwcheck.rs:692-708 | commands and remainder put together are the stream |
| ProxyFraming.UnsafeMeans | examples/ether_dream_hwcheck.rs:227-255 | a whole command is refused if and only if some point is not a blanked centre point, a rate is out of range or a low-water mark is not zero |
| ProxyFraming.CmdLenStable | examples/ether_dream_hwcheck.rs:202-216 | a known length does not depend on what follows, and is positive |
| ProxyFraming.CutMeans | examples/ether_dream_hwcheck.rs:692-708 | what is taken is whole and harmless, what is refused as a command is not harmless |
| ProxyRoundTrip.ProxyRoundTrip | examples/ether_dream_hwcheck.rs:202-255 | for every list of commands in the library's encoding and every way of splitting its bytes, the proxy takes out exactly the commands before the first one that is not permitted and refuses that one; if there is none, it takes out all, has nothing left and is still going |
| ProxyRoundTrip.PermittedIsHarmless | examples/ether_dream_hwcheck.rs:227-255 | a command is harmless as bytes if and only if its rate is within 1000 to 30000, its low-water mark zero and every point dark and within one count of the centre |
| ProxyRoundTrip.CutsEncoded | examples/ether_dream_hwcheck.rs:692-708 | at the head of the buffer a permitted command is taken out whole, and any other refused, whatever follows |
| ProxyRoundTrip.ForwardedCommandsDecode | src/protocols/ether_dream/protocol.rs:532-647 | if all are permitted, the client's commands can be read back from what is forwarded, one by one |
| DacCommands.DecodesWhatWasEncoded | src/protocols/ether_dream/protocol.rs:442-647 | every command reads back as it was written (opcode, low-water mark, rate, count, points), the alternative e-stop as the e-stop |
| Interlock.GateIsConservative | examples/ether_dream_hwcheck.rs:612-647 | in every run, a command that went through the gate and is not 0x3f, 0x63, 0x00 or 0xff finds the device out of e-stop when it is processed |
| Interlock.EstopIsFlagged | examples/ether_dream_hwcheck.rs:612-647 | in every run the flag is up while 0x00 or 0xff is on the wire or the device is in e-stop; while it is up the proxy answers a client command itself, and drops an injected one, exactly if it is not one of those four, and while it is down none |
| Interlock.OnlyNewsClears | examples/ether_dream_hwcheck.rs:466-476 | the flag comes down only with the ready reply to a command sent after the latest e-stop, and then the device is out of e-stop with none on its way |
| Interlock.RepliesInOrder | examples/ether_dream_hwcheck.rs:763-818 | replies reach the client one per accepted command, in order; injected ones never leak; the reader's reply is the one to the command it took; with nothing under way all are answered |
| Interlock.RunIsSound | examples/ether_dream_hwcheck.rs:612-818 | the invariant behind them, over every interleaving of writer, injector, reader and device |
| Interlock.BeginKeepsInv | examples/ether_dream_hwcheck.rs:645-647 | the gate's decision is sound: a command it does not hold back is protected from then on |
| InterlockRefusal.RefusalReachesEstopExactly | examples/ether_dream_hwcheck.rs:734-754 | in every run, refusing a command can lead to a stop command that finds the device in e-stop if and only if the playback state reported last is not idle (an e-stop may be injected in between) |
| InterlockRefusal.RefusedAtOnceExactly | examples/ether_dream_hwcheck.rs:272-278 | if nobody takes the lock in between: if and only if that state is not idle and the device is in e-stop or an e-stop is on its way |
| InterlockRefusal.StopReachesEstopExactly | examples/ether_dream_hwcheck.rs:745-752 | a stop command that goes out can find the device in e-stop if and only if the device is in e-stop or an e-stop is on its way; with the flag down it cannot |
| InterlockRefusal.StopFollowsEstop | examples/ether_dream_hwcheck.rs:734-754 | such a run of every fresh connection: the client clears, prepares, sends data and begins, a reply says playing, an e-stop takes effect, the next bytes are refused before its reply arrives, and the stop command is the device's next |
| InterlockRefusal.RefusalSendsStops | examples/ether_dream_hwcheck.rs:272-278 | a refusal can go on until exactly 0x73 (playing), 0x62 and 0x73 (prepared) or nothing (idle) is on the wire behind what was there, and the writer ends |
| InterlockRefusal.ReEngageRaisesFlag | examples/ether_dream_hwcheck.rs:799-803 | in every run, re-engaging puts 0x00 on the wire with the flag up |

## Left out

- Floating point and clock resolution: coordinates, samples and times are reals; rounding of f32, f64 and nanoseconds is not modelled.
- Machine integers: lengths, resampler counters and estimator fullness are unbounded, except the 64-bit desired word, the 16-bit tracks, the saturating point counts and the retry counter.
- Output filters: no filter is installed, so the calls to it are recorded in the lifecycle but change no points.
- Pacing adapters: a step is abstract, may close the shutter when disarmed, and never opens it.
- Rate control (`set_pps`, `update_pps_bounds`): each fill takes its rate as a parameter; whether a new backend's bounds fit is a free choice.
- Mixing FIFO and frame-swap calls on one engine: a session selects one mode.
- The default transition's easing and the colour and coordinate conversions: the callback is arbitrary.
- Stereo and multi-channel sample types: the resampler is generic, and the spline bound is for one real channel.
- Sockets, threads' scheduling priority, logging, metrics, callbacks and discovery.
- In the proxy: the hello and abort handling, multi-connection handover, the flag reset between scenarios, and the payload of synthesized replies. A failed read just stops the reader.
- The driver and the reconnect loop may run for ever. `Driver.Driver.Run` is watched for a number of passes and `Reconnect.ReconnectWithRetry` for a horizon, both arbitrary.
- Session: the compare-and-swap loop is a step machine over its atomic actions rather than a loop in a method; the control message that follows an edge is not modelled.
- DacCommands: the commands only; status, broadcast and response records and the simulator are not part of this model.
- Interlock: the connection is a step machine over its atomic actions rather than objects shared by threads.
- Engine.PresentationEngine: the fields that both delivery modes read are one record-valued field.
- Driver.Driver.HandleShutterTransition: the word is the unwrapped one, so it holds for fewer than 2^63 edges (see `Driver.WordIsTheWord`).
- StatusDecay.NeverUnderReports: the bound on over-reporting is for a playing flag that does not change; stopping freezes the estimate at its anchor.
- DualTrack.RateRiseExactly: for a rise that follows a send; after an ACK which of the two tracks is reported depends on their fractions.
- EtherDreamEstimate.UnderReportsExactly: the device is taken not to change its playback state between two statuses; the rest of the backend is not part of this model.
- DualTrack.LagBound: at a fixed rate and one-way delay; an ACK that re-anchors the sent track is taken to answer the latest send.
- OutputStage.DarkStart: at a constant delay while armed; `DelayChanges.DarkLengthExactly` is for delays that change.
- ArmedOutput.DarkStartExactly: at a constant delay.
- ArmedOutput.LateArmLightsStart: the record is one that the driver's rules allow; that the loop makes it is not derived from the loop itself.
