# Boulder Frame: a verified model of its planner, job protocol and evidence pipeline

Boulder Frame turns a wide sports recording and one tap on an athlete into a cropped video that
follows the athlete. This project models the parts of its Python worker, and the two Go files that
share its contracts, on which that result depends, and proves what they promise.

**Camera planning** (`Motion`, `Geometry`, `SeedPlanner`, `SeedSafety`, `SeedRun`, `SeedMotion`,
`MissWidening`, `SeedDetections`, `AxisProgram`, `FramingCosts`, `AxisSolver`, `AxisGuarantees`,
`AxisFraming`, `AxisLoop`, `Kinematics`, `Lookahead`). A causal controller plans a seed path with
hysteresis gates, an exact triangular or trapezoidal motion integrator, source clamping and a
containment repair. The look-ahead planner then compiles each axis of the shot into a linear
program, calls a solver six times in lexicographic order, repairs the answers into legal intervals
and checks them again. Positions and times are exact reals. The square root, logarithm and
exponential are parameters: the root of a non-negative number is its non-negative root, and the
logarithm and exponential are an increasing inverse pair. The solver's answers are parameters about
which nothing is assumed, so every guarantee holds for any solver; the guarantees for a correct
solver say so in a precondition.

**The job protocol** (`JobRepository`, `JobProtocol`, `JobSafety`, `JobRuns`, `JobOutcomes`,
`Queue`, `JobDelivery`, `JobAcknowledgement`, `WorkerProcess`). Each SQL statement on the job row
is one atomic guarded step. Attempts with fresh identifiers, heartbeats, crashes, statements that
commit but report an error, a monotone database clock, deletion and cancellation interleave freely;
a run is any sequence of such events. The broker interleaves optimistic publishers with the
consumer group that delivers, keeps pending and acknowledges entries. `JobDelivery` runs both
together: an entry is acknowledged by a finished attempt on its job and by nothing else, and
`JobAcknowledgement` that it can always come to be.

**The evidence pipeline** (`FrameClock`, `Association`, `Tracking`, `WarningIntervals`, `CropPath`,
`ReviewTrace`). The rational frame clock with half-even rounding, the sampling grid, association
outwards from the selected frame, measurements held between samples, and the warning intervals that
a second service must accept. `CropPath` joins it to the planners, and `ReviewTrace` both to the
review of a video, end to end.

Where the source updates something in place the model does: the controller, row, pass, report,
sampling, measurement and warning loops are methods with loops, the repair and both association
passes overwrite arrays, and the in-memory repository and the delivery are classes. Each of these
is tied to a function or predicate whose meaning the lemmas establish. The worker's `process` is
modelled twice: as steps of a transition system, because other attempts act between any two of its
statements, and as a method over a shared store whose ghost history is a run of that system.

Two findings about the code:

- A valid selection near the end of a video can select a frame that was never analyzed. The frame
  count rounds duration times rate, the selection floors time times rate, and nothing compares
  the two. `FrameClock.PartialFrameOutOfRange` is an instance (1013 ms at 30 frames per second,
  time 1012 ms), `FrameClock.SelectionsInRange` the exact condition for a video and
  `CropPath.ObserveVideo` that for a request, both of which a caller can evaluate beforehand.
- The update statement and the in-memory reference differ: the reference also accepts a queued
  job kept queued or cancelled, and it stores the caller's copy of the lease expiry, which a
  heartbeat may meanwhile have extended. `JobRepository.UpdateRefinesReference` states both.

## Model

| member | source | states |
|---|---|---|
| Motion.AdvanceComposes | worker/src/boulder_frame_worker/planner.py:390-450 | Frame-rate independence: for any capped velocity and any target or none, advancing by t then u is exactly advancing by t + u, through every mix of braking, rising, cruising and falling; the velocity stays capped. |
| Motion.PartitionIrrelevant | worker/src/boulder_frame_worker/planner.py:398-404 | Any partition of a time span into frame intervals gives the motion of the whole span at once. |
| Motion.ArrivesExactly | worker/src/boulder_frame_worker/planner.py:420-450 | The component rests on its target if and only if the time is at least its arrival time, the sum of the phases still ahead of it (brake, then rise, cruise and fall). |
| Motion.AdvanceEnvelope | worker/src/boulder_frame_worker/planner.py:405-450 | Over any duration the speed stays under its cap, velocity changes by at most acceleration times duration, and position by at most the speed cap times duration. |
| Motion.NeverCrosses | worker/src/boulder_frame_worker/planner.py:398-412 | From rest, or when the stopping distance fits in what remains ahead, the position stays between its start and the target. |
| Motion.UpwardAdvance | worker/src/boulder_frame_worker/planner.py:405-450 | Starting at or below the target with non-negative velocity the position never falls back, and it has non-negative velocity while still at or below the target. |
| Motion.ProfileConsistent | worker/src/boulder_frame_worker/planner.py:426-440 | The generated velocity profile covers exactly the distance to the target, ends at rest, respects both limits, and cruises only at the speed cap. |
| Motion.LegComposes | worker/src/boulder_frame_worker/planner.py:426-450 | The remainder of a leg is the leg that would be planned afresh from where it got to, and takes exactly the remaining time. |
| Motion.BrakesExactly | worker/src/boulder_frame_worker/planner.py:405-410 | A moving component brakes first exactly when its stopping distance exceeds the signed distance ahead of it, which unifies the two tests of the code. |
| Motion.BrakingComposes | worker/src/boulder_frame_worker/planner.py:411-418 | A component partway through braking still brakes, comes to the same resting place and at the same time. |
| Geometry.FullFrameValid | worker/src/boulder_frame_worker/planner.py:140-149 | The full-frame crop lies in the source, has exactly the output aspect ratio and reaches the source in one dimension. |
| Geometry.FullFrameLargest | worker/src/boulder_frame_worker/planner.py:140-149 | A crop of the aspect ratio fits the source if and only if it is no larger than the full frame. |
| Geometry.ClampInside | worker/src/boulder_frame_worker/planner.py:152-160 | Clamping succeeds exactly for crops that fit, keeps their size, brings them inside and leaves inside crops alone. |
| Geometry.ClampNearest | worker/src/boulder_frame_worker/planner.py:152-160 | Clamping moves a crop as little on each axis as any move into the source. |
| Geometry.ClampKeeps | worker/src/boulder_frame_worker/planner.py:152-160 | Clamping never loses an in-source box the crop contained. |
| SeedSafety.DesiredFrames | worker/src/boulder_frame_worker/planner.py:321-331 | The desired crop gives the detection exactly the profile's 60, 50, 40 or 33 percent of the height or is the full frame, and is centered as near to the detection as any in-source crop of its size. |
| SeedSafety.AdjustShaped | worker/src/boulder_frame_worker/planner.py:333-387 | An adjustment of a crop of exact aspect ratio is again of exact aspect ratio and keeps every velocity under its cap. |
| SeedSafety.ContainSafe | worker/src/boulder_frame_worker/planner.py:452-483 | The repair never fails on an in-source box, gives a crop the controller may hold, and contains the box if and only if it does not report a source limit, which it does exactly for boxes larger than the full frame. |
| SeedSafety.ContainMinimal | worker/src/boulder_frame_worker/planner.py:471-483 | The repaired crop is the smallest of all crops the controller may hold that contain the box and are at least as large as the crop given, and among those of its size it moves least. |
| SeedSafety.StepSafe | worker/src/boulder_frame_worker/planner.py:198-312 | Safety of one frame, whatever it decides: it fails exactly on a negative or non-increasing timestamp; otherwise its crop is in the source, of exact aspect ratio, no larger than the full frame, and contains its detection exactly when no source limit is reported. |
| SeedRun.RunSafe | worker/src/boulder_frame_worker/planner.py:190-312 | The seed run invariant: every run over in-source boxes succeeds if and only if its timestamps increase, clamping never raises, and every frame of it is safe. |
| SeedRun.Plan | worker/src/boulder_frame_worker/planner.py:190-312 | The loop computes exactly the run of its measurements, which `SeedDetections.RunDecides` says frame by frame, with the guarantees of the run invariant. |
| SeedDetections.StepDecides | worker/src/boulder_frame_worker/planner.py:208-312 | What one frame decides. A later detection: each gate is open exactly outside its band; center and height are where three integrator runs through these gates get from the previous crop towards the desired one; the result is capped, clamped and repaired, only corrected components lose their velocity, and the trace records errors, gates and action. A first detection is framed at once. A first miss shows the full frame; a later one closes both gates, stops the pan and zooms out. |
| SeedDetections.RunDecides | worker/src/boulder_frame_worker/planner.py:190-312 | Every planned shot is a sequence of such frames from a controller at rest with closed gates and no crop. |
| SeedDetections.MovesCompose | worker/src/boulder_frame_worker/planner.py:333-387 | Moving towards a crop through given gates for t and then u seconds is moving for t + u. |
| SeedDetections.DetectionRun | worker/src/boulder_frame_worker/planner.py:230-312 | A run of detections of one box that need no correction and keep their gates is one uninterrupted motion towards the crop that frames it, however the time is cut into frames. |
| SeedDetections.DetectionsLand | worker/src/boulder_frame_worker/planner.py:230-312 | With both gates open, such a run rests exactly on the desired crop if and only if its time is at least the landing time of the slowest component. |
| SeedDetections.LandedStays | worker/src/boulder_frame_worker/planner.py:230-312 | Once it rests there, further detections of the box leave the crop exactly as it is, whatever their gates do. |
| SeedDetections.DetectionsReach | worker/src/boulder_frame_worker/planner.py:230-312 | So detections that stay put bring the crop onto the one that frames them by the landing time and keep it there. |
| SeedMotion.AdjustIsMotion | worker/src/boulder_frame_worker/planner.py:342-387 | Every adjustment is three independent integrators, on the normalized center coordinates and on the logarithm of the height. |
| SeedMotion.AdjustComposes | worker/src/boulder_frame_worker/planner.py:333-387 | Between corrections the whole crop is independent of the frame interval: adjusting twice towards one crop is adjusting once. |
| SeedMotion.AdjustLands | worker/src/boulder_frame_worker/planner.py:333-387 | With both gates open the crop rests exactly on the desired crop if and only if the time is at least that of its slowest component. |
| SeedMotion.BandsAreGates | worker/src/boulder_frame_worker/planner.py:234-253 | Hysteresis: each gate is open after a detection exactly when the detection lies outside its band, 5% or 2% of the wanted height and 1% or 0.4% of the crop's sides. |
| SeedMotion.DeadbandHolds | worker/src/boulder_frame_worker/planner.py:234-265 | A detection inside both bands and inside the crop leaves a resting controller and its crop exactly as they were. |
| MissWidening.MissStep | worker/src/boulder_frame_worker/planner.py:210-229 | One missed frame widens: the new crop contains the whole previous one, and its height follows the zoom integrator capped at the full frame. |
| MissWidening.MissRun | worker/src/boulder_frame_worker/planner.py:210-229 | Over any run of misses the crops are nested, and the height has reached the full frame or follows one uninterrupted motion towards it, however the time is cut into frames. |
| MissWidening.MissRunReachesFull | worker/src/boulder_frame_worker/planner.py:210-229 | A run of misses as long as the computable widening time ends at exactly the dimensions of the full frame, leftover outward velocity included. |
| MissWidening.MissCenter | worker/src/boulder_frame_worker/planner.py:266-276 | On every missed frame the crop keeps its center except for source clamping. |
| AxisProgram.ColumnsPartition | worker/src/boulder_frame_worker/planner.py:676-681 | The column blocks never overlap and leave no gap: variables and columns correspond one to one. |
| AxisProgram.Assemble | worker/src/boulder_frame_worker/planner.py:690-743 | The three loops generate exactly the interval, transition and frame rows, in order. |
| AxisProgram.TransitionMeans | worker/src/boulder_frame_worker/planner.py:629-651 | The coefficients of every transition, both rests included, applied to centers give the velocity change over its time span. |
| AxisProgram.RowsMean | worker/src/boulder_frame_worker/planner.py:698-743 | The encoding is sound and complete: a vector satisfies every row up to a tolerance if and only if its centers meet both limits up to the excess variables and its auxiliaries dominate steps, velocity changes, seed deviations and deviation beyond the deadzone, up to that tolerance. |
| FramingCosts.ExcessLeast | worker/src/boulder_frame_worker/planner.py:698-730 | The excess of a path is the least relaxation of a limit under which all its values fit. |
| FramingCosts.ObjectiveMeans | worker/src/boulder_frame_worker/planner.py:759-775 | Each objective reads its excess column, or the weighted sum of exactly its own block. |
| FramingCosts.ObjectiveDominates | docs/specs/worker/measurements-and-planner.md:166-177 | Every objective of a satisfying vector is at least the documented cost of its centers, up to what the tolerance can add up to. |
| FramingCosts.ExtendMeets | worker/src/boulder_frame_worker/planner.py:683-743 | Any centers extend to a vector that satisfies every row exactly with non-negative auxiliaries. |
| FramingCosts.ExtendCosts | docs/specs/worker/measurements-and-planner.md:166-177 | On that vector all six objectives equal the documented costs of the path at once. |
| AxisSolver.CentersAndOrigins | worker/src/boulder_frame_worker/planner.py:614-625 | Pixel origins and normalized centers are order-preserving inverses of each other. |
| AxisSolver.AccelerationsWithinMeans | worker/src/boulder_frame_worker/planner.py:839-864 | The motion check after a solve bounds exactly the accelerations of the transition rows. |
| AxisGuarantees.TightenedMeans | worker/src/boulder_frame_worker/planner.py:817-834 | Locking a pass adds exactly one demand: its objective at most the positive part of its optimum plus the tolerance. |
| AxisGuarantees.ProgramMeans | worker/src/boulder_frame_worker/planner.py:759-834 | The program of every pass means the first program and all earlier locks, at every tolerance. |
| AxisGuarantees.InitialMeans | worker/src/boulder_frame_worker/planner.py:683-745 | The first program means the framing semantics over legal centers with non-negative auxiliaries. |
| AxisGuarantees.CheckedMeans | worker/src/boulder_frame_worker/planner.py:776-816 | For any answer whatever: a pass accepts it if and only if it is consistent and its repair satisfies the program up to the tolerance; neither motion error can occur after the row check. |
| AxisGuarantees.SolvedMotion | worker/src/boulder_frame_worker/planner.py:796-837 | Solver-independent safety: an accepted solve has legal origins, and speeds and accelerations at most the limit plus the positive part of the first claimed optima plus three tolerances. |
| AxisGuarantees.SolvedCosts | worker/src/boulder_frame_worker/planner.py:817-834 | The accepted vector keeps each earlier objective within two tolerances of the positive part of its claimed optimum, the last within one of its claim, and bounds the documented costs of the path. |
| AxisGuarantees.ProgramsTighten | worker/src/boulder_frame_worker/planner.py:817-834 | What satisfies the program of a later pass satisfies that of every earlier one. |
| AxisGuarantees.LockingKeeps | worker/src/boulder_frame_worker/planner.py:817-834 | An exact solution of a pass stays an exact solution of the next once its own value is locked. |
| AxisGuarantees.LegalPathFeasible | worker/src/boulder_frame_worker/planner.py:683-834 | The program of a pass is exactly feasible for every legal path whose costs meet the locks. |
| AxisGuarantees.AlwaysFeasible | worker/src/boulder_frame_worker/planner.py:683-745 | With non-empty legal intervals the first program always has a solution. |
| AxisGuarantees.ExactAccepted | worker/src/boulder_frame_worker/planner.py:601-626 | Every exact solution with its exact value is accepted, and the repair leaves it unchanged. |
| AxisGuarantees.MinimumLeast | worker/src/boulder_frame_worker/planner.py:757-775 | The exact optimum of a pass is at most the documented cost of every legal path that meets the locks. |
| AxisGuarantees.LexicographicOptimum | worker/src/boulder_frame_worker/planner.py:757-837 | With exact minima in all six passes the solve succeeds, its path meets every locked cost, and no legal path that meets them costs less in the last pass. |
| AxisFraming.SeedCost | worker/src/boulder_frame_worker/planner.py:665-668 | Each frame is measured against its own seed, moving or not: the last cost of a path is zero if and only if its origins are the seed origins. |
| AxisFraming.DeadzoneCost | worker/src/boulder_frame_worker/planner.py:731-743 | The third cost is zero if and only if every origin lies within five percent of its crop extent, in pixels, of its seed origin. |
| AxisFraming.DistanceCost | worker/src/boulder_frame_worker/planner.py:750-775 | A path at a constant distance from its seeds costs that distance, in source extents, times the length of the shot in the last pass. |
| AxisFraming.CostsAreSums | worker/src/boulder_frame_worker/planner.py:731-775 | The last four costs of any path are sums over its frames: how far it is outside its deadzones, weighted by the time each frame stands for, the distance it travels, its velocity changes with both rests, and how far it is off its seeds, weighted likewise. |
| AxisFraming.UniformCosts | worker/src/boulder_frame_worker/planner.py:698-775 | A pan of constant velocity costs its speed above a quarter of the source a second, the distance it travels, and one start and one stop of that velocity. |
| AxisFraming.UniformAcceleration | worker/src/boulder_frame_worker/planner.py:629-651 | Its second cost is at most e exactly when the velocity is reached within half of the first and half of the last interval at a rate of 0.5 + e. |
| AxisFraming.RepairNearest | worker/src/boulder_frame_worker/planner.py:601-626 | The repaired origin of a frame is the legal origin nearest to the one the answer asks for, its center is the one the rows are checked on, and the auxiliaries stay. |
| AxisFraming.RefusalMeans | worker/src/boulder_frame_worker/planner.py:776-816 | Which error an answer is refused with: no answer, not optimal, misshapen or misvalued, too far from an interval, and after the repair rows before bounds. |
| AxisGuarantees.StillSolved | worker/src/boulder_frame_worker/planner.py:757-837 | For every legal shot whose seed center never moves, the seed is an exact minimum of all six passes at no cost, the solve accepts it, and its vector is the result; so the demand of the lexicographic optimum is met. |
| AxisGuarantees.StillAxisMotionless | worker/src/boulder_frame_worker/planner.py:653-688 | There is such a shot: two frames a second apart with a crop of half the source in its middle. |
| AxisLoop.LegalIntervalMeans | worker/src/boulder_frame_worker/planner.py:576-592 | The legal interval holds exactly the origins that keep the crop in the source and around its box, and is non-empty whenever an in-source box fits the crop. |
| AxisLoop.AxisIntervals | worker/src/boulder_frame_worker/planner.py:566-599 | The loop returns the legal interval of every frame, or the empty-interval error exactly when one is empty. |
| AxisLoop.CanonicalOrigins | worker/src/boulder_frame_worker/planner.py:601-626 | Overwrites the leading centers of the solution in place by those of the repaired origins, leaves the rest alone, and fails exactly when a center is farther than the tolerance from its interval. |
| AxisLoop.CheckAnswer | worker/src/boulder_frame_worker/planner.py:792-816 | One pass over an answer in an array gives the specified check, rows and bounds being tested on the overwritten array. |
| AxisLoop.SolvePasses | worker/src/boulder_frame_worker/planner.py:757-837 | The six passes give the specified solve for any six answers, with the program each pass tightened; `AxisGuarantees.CheckedMeans` and the `AxisFraming` lemmas say what that accepts. |
| AxisLoop.SolveAxis | worker/src/boulder_frame_worker/planner.py:653-674 | A single frame keeps its legal seed origin without a program and fails only when that is beyond the tolerance of its interval; several frames give the specified solve; a success is always legal. |
| Kinematics.ChangesCancel | worker/src/boulder_frame_worker/planner.py:629-651 | The signed velocity changes of a path, both rest boundaries included, add up to zero. |
| Kinematics.SpansCover | worker/src/boulder_frame_worker/planner.py:750-753 | The transition spans are the trapezoid weights, and both add up to the length of the shot. |
| Kinematics.AccelerationsCancel | worker/src/boulder_frame_worker/planner.py:846-864 | The accelerations of a path weighted by their spans add up to zero. |
| Kinematics.MotionMeans | worker/src/boulder_frame_worker/planner.py:897-926 | Each trace carries the magnitude of the transitions charged to its frame, over both axes: the start, the change between the two intervals before it, and in the last frame the final rest. |
| Kinematics.FramesBounded | worker/src/boulder_frame_worker/planner.py:897-926 | A bound holds of every frame trace exactly when it holds of the largest acceleration of the linear program. |
| Kinematics.MotionReport | worker/src/boulder_frame_worker/pipeline.py:1169-1220 | The report loop computes the largest speed and acceleration of the linear program over both axes and both rests, and reports an excess in full exactly when it is beyond both tolerances, zero otherwise. |
| Kinematics.FlagsAgree | worker/src/boulder_frame_worker/planner.py:882-884 | The job reports a speed or acceleration excess exactly when some frame trace is flagged for it. |
| Kinematics.ReportedAreCosts | worker/src/boulder_frame_worker/pipeline.py:1211-1212 | The excesses the report starts from are the first two framing costs of the path. |
| Lookahead.ConstraintsSafe | worker/src/boulder_frame_worker/planner.py:534-550 | In a safe seed run the constrained frames are exactly the sampled detections without a source limit, each already contained by its seed crop. |
| Lookahead.SeedAxisMeans | worker/src/boulder_frame_worker/planner.py:566-599 | The axes a shot is solved on: the source is the frame width or height, the seeds are the corners of the seed crops, the intervals the seconds between timestamps, and an origin is legal exactly when the crop stays in the source and around a sampled detection that fits it. |
| Lookahead.PlanAxis | worker/src/boulder_frame_worker/planner.py:555-559 | One axis of a safe shot either gets legal origins of bounded motion or fails with an error only an answer of the solver can cause; the empty-interval error cannot occur. The result is that of the solve on the axis of the seed, or the seed itself for a single frame. |
| Lookahead.Place | worker/src/boulder_frame_worker/planner.py:560-564 | At legal origins neither the geometry nor the final containment error can occur, and every frame keeps its seed size and its promise. |
| Lookahead.Traces | worker/src/boulder_frame_worker/planner.py:886-967 | The loop gives every frame its trace, with motion taken from the velocities of the planned crops. |
| Lookahead.TraceMeans | worker/src/boulder_frame_worker/planner.py:886-967 | When each action occurs: source limited exactly for boxes larger than the full frame, widening exactly on later misses, and pan or hold exactly as the center moved; a center counts as adjusted exactly when the crop left its seed, the limit flags are those of the frame magnitudes, the signed velocity and acceleration are the changes of center and of velocity over their times, and desired crop and errors are the seed's. |
| Lookahead.PlanShot | worker/src/boulder_frame_worker/planner.py:518-564 | Whatever the solver returns for either axis: planning in-source boxes fails only on timestamps or on an answer itself, and a returned plan keeps every seed size, lies in the source, contains every sampled detection without a source limit, has bounded speed and acceleration, and is traced as stated for traces. Its corners are those of the two solves on the axes of the seed run, or its error that of the first that fails. |
| JobRepository.InMemoryJobRepository.Claim | worker/src/boulder_frame_worker/state.py:128-144 | Claims exactly an open job whose lease is absent or over, keeping the first start time, and stores the claimed record; no lease was live, and afterwards exactly the caller's is, for the given seconds. |
| JobRepository.InMemoryJobRepository.Update | worker/src/boulder_frame_worker/state.py:146-170 | Stores the request, without lease when terminal, exactly when the caller owns a live lease and every guard holds; otherwise changes nothing; progress never falls and no terminal state is left. |
| JobRepository.InMemoryJobRepository.Renew | worker/src/boulder_frame_worker/state.py:172-186 | Extends exactly a live lease of the caller on an open job, to the given seconds from now. |
| JobRepository.InMemoryJobRepository.Release | worker/src/boulder_frame_worker/state.py:188-193 | Clears exactly a lease of the caller on an open job, live or not. |
| JobRepository.CallsForward | worker/src/boulder_frame_worker/state.py:128-193 | Over any calls by any workers the progress of the reference never decreases and a terminal record never changes. |
| JobRepository.CallsFenced | worker/src/boulder_frame_worker/state.py:128-193 | Fencing in the reference: a worker without a live lease that does not claim again has none after any calls by any workers, and none of its updates or renewals is accepted. |
| JobRepository.LeaseStatementsAgree | worker/src/boulder_frame_worker/repository.py:332-361 | The claim, renew and release statements change the row exactly as the reference changes its record. |
| JobRepository.UpdateRefinesReference | worker/src/boulder_frame_worker/repository.py:365-404 | The update statement accepts exactly what the reference accepts except a queued job kept queued or cancelled, and leaves the same state, stage, progress, owner, error and report, as requested; start, completion and expiry times differ as stated. |
| JobRepository.TransitionsListed | worker/src/boulder_frame_worker/repository.py:397-403 | The state pairs of the statement and the transition table agree on every move to another state except queued to cancelled. |
| JobSafety.NextKeeps | worker/src/boulder_frame_worker/worker.py:63-339 | Every step of every attempt, of the heartbeats and of the environment keeps the invariant of row, attempts, history and acknowledgement. |
| JobSafety.WriteKeeps | worker/src/boulder_frame_worker/repository.py:365-404 | Every update an attempt tries, whether it runs, is refused, or commits but reports an error, keeps the invariant. |
| JobSafety.RequestLegal | worker/src/boulder_frame_worker/worker.py:151-172 | Whatever an attempt asks the database to store is a legal record of its own whose stages have all returned before. |
| JobRuns.ReachableInv | worker/src/boulder_frame_worker/worker.py:48-339 | Every state a job reaches from its insertion, over any interleaving of events, satisfies the invariant. |
| JobRuns.ChangeNeedsLease | worker/src/boulder_frame_worker/repository.py:345-352 | Only an attempt with a live lease changes the row by an update, finalization or renewal. |
| JobRuns.LostForever | worker/src/boulder_frame_worker/repository.py:332-361 | Fencing: a started attempt whose lease is not live never has a live lease again, in any continuation of any run. |
| JobRuns.ClaimFences | worker/src/boulder_frame_worker/repository.py:332-343 | A claim ends the lease of every attempt that started before it, and is never by one of them. |
| JobRuns.DisjointSpans | worker/src/boulder_frame_worker/repository.py:390-403 | The successful writes of different attempts occupy disjoint spans of a run: between two changes by one attempt no other attempt changes or claims the job. |
| JobRuns.CompletionHistory | worker/src/boulder_frame_worker/worker.py:151-269 | In every run a completed job has progress 100, stage equal to state, no lease, a linked output and a report, and all four stage handlers have returned normally in order. |
| JobRuns.AfterForward | worker/src/boulder_frame_worker/repository.py:365-404 | No step of any run decreases progress, changes a terminal job or unlinks its output. |
| JobRuns.AcknowledgedClosed | worker/src/boulder_frame_worker/queue_adapter.py:286-301 | Nothing is acknowledged early: an acknowledged delivery's job is missing or terminal, and stays so in every continuation. |
| JobRuns.OwnChecksPass | worker/src/boulder_frame_worker/worker.py:157-172 | In every reachable state the resume lookup finds its stage and every transition is allowed; storing a failure raises exactly after the completing update did. |
| JobRuns.TerminalFailuresStored | worker/src/boulder_frame_worker/worker.py:278-339 | No terminal worker failure escapes an attempt: an escaped exception is always retried by the adapter. |
| JobRuns.AcceptedWhileLive | worker/src/boulder_frame_worker/repository.py:154-156 | A stage update is accepted if and only if the lease of the attempt is live, so a lost-lease error always means a lost lease. |
| JobRuns.NeverStuck | worker/src/boulder_frame_worker/worker.py:157-269 | From every reachable state with an open job a fresh attempt can, once the present lease is over, resume it and complete it. |
| JobOutcomes.HeartbeatMeans | worker/src/boulder_frame_worker/worker.py:127-140 | A heartbeat extends a live lease by the given seconds when its statement runs, and the attempt takes its lease for lost exactly when it does not hear so. |
| JobOutcomes.InterruptedYields | worker/src/boulder_frame_worker/worker.py:142-147 | A failed heartbeat interrupts an attempt without failing the job: once the lease check runs, and whatever happens after, the attempt asks for no update, only releases, crashes or settles, and settling it acknowledges nothing. |
| JobOutcomes.InterruptedReleases | worker/src/boulder_frame_worker/worker.py:278-304 | The release is then possible at once; when its statement runs the lease is no longer the attempt's, nothing else of the row changes, and the delivery is left pending. |
| JobOutcomes.LinkMeans | worker/src/boulder_frame_worker/repository.py:158-192 | Linking an output gives the row that output, and changes nothing else, exactly while the lease is live, an asset was stored and the statement runs; the handler goes on exactly when it hears so. |
| JobOutcomes.UnstoredReleases | worker/src/boulder_frame_worker/worker.py:313-326 | An exception that cannot be stored as a failure leaves an open job free for the next attempt and its delivery pending. |
| JobOutcomes.TransientYields | worker/src/boulder_frame_worker/worker.py:278-304 | The same of an attempt whose handler raises a transient failure. |
| JobOutcomes.LostEntersNothing | worker/src/boulder_frame_worker/worker.py:142-214 | An attempt that has lost its lease enters no further stage, in any continuation, and completes the job only if it already was to. |
| JobOutcomes.FailedForReason | worker/src/boulder_frame_worker/worker.py:102-336 | A failed job has a report and an error some event of its run decided on: the mismatch of its model, an exception a handler or the loop body raised, or a stage's own statement that raised; never a heartbeat, lease check, release or transient failure. The error is that of the terminal failure, or the literal one for a mismatch or any other exception. |
| JobOutcomes.SettledAsConcluded | worker/src/boulder_frame_worker/queue_adapter.py:286-301 | Settling a finished attempt acknowledges its delivery if and only if its own terminal update was accepted and heard, or it found the row missing or terminal. |
| JobOutcomes.AcknowledgedExactly | worker/src/boulder_frame_worker/queue_adapter.py:286-301 | In every run the deliveries are acknowledged if and only if some attempt so concluded and was settled after that. |
| WorkerProcess.JobStore.Elapse | worker/src/boulder_frame_worker/worker.py:127-140 | Whatever other attempts, time and the own heartbeat do between two statements keeps the invariant and leaves the attempt where it was, except that its heartbeat may have failed. |
| WorkerProcess.RunStage | worker/src/boulder_frame_worker/worker.py:160-214 | One iteration of the stage loop reaches the next stage, completion or an exception, and its handler runs only on a record of its own stage; with a lease known to be lost it ends in a transient failure before the handler. |
| WorkerProcess.Recover | worker/src/boulder_frame_worker/worker.py:278-336 | Every exception path ends the attempt, with a stored failure, a release or both tried. |
| WorkerProcess.Process | worker/src/boulder_frame_worker/worker.py:48-339 | The method, with arbitrary interference between any two statements, extends the run of its store and always comes to an outcome, one that acknowledges if and only if the attempt concluded in that run; then the job is missing or terminal, and no terminal failure escapes. |
| WorkerProcess.Deliver | worker/src/boulder_frame_worker/queue_adapter.py:273-301 | A well-formed delivery is acknowledged if and only if its attempt concluded in the run of the store, and then its job is missing or terminal, on every return and exception path; a malformed one is acknowledged without touching the job. |
| Queue.OneEntryPerJob | backend/queue/queue.go:72-103 | In any interleaving of publishers and consumers a job has at most one stream entry, its index key is set exactly when it has one, and a call that reports success left it with one. |
| Queue.NoLostEntry | worker/src/boulder_frame_worker/queue_adapter.py:139-216 | An entry is unacknowledged exactly while it is still to be read or still pending. |
| Queue.PublishIdempotent | backend/queue/queue.go:72-103 | An undisturbed call always succeeds, adding the entry only where the key is not set. |
| Queue.ExecMeans | backend/queue/queue.go:86-103 | An entry is added exactly when the key was not written since it was watched and the commands run, and the call is accepted exactly when it then hears so. |
| Queue.Handle | worker/src/boulder_frame_worker/queue_adapter.py:273-301 | Exactly one of acknowledge and retry is called on a delivery, acknowledge for every malformed one and otherwise exactly for a true or acknowledging return and a terminal worker failure. |
| JobDelivery.WorldKeeps | worker/src/boulder_frame_worker/queue_adapter.py:185-301 | Every step of publishers, consumers, attempts and settlements keeps the joint invariant of stream, jobs and acknowledgements. |
| JobDelivery.OpenJobDeliverable | worker/src/boulder_frame_worker/queue_adapter.py:185-301 | No open job is forgotten, in any joint run: a job whose index key is set and whose row is open has an entry unread or pending, and every acknowledged entry is of a missing or terminal job. |
| JobDelivery.AlwaysCompletable | worker/src/boulder_frame_worker/worker.py:63-269 | From every reachable joint state a published open job can still be completed, by delivering its entry and starting a fresh attempt for it. |
| JobAcknowledgement.ConcludedAcknowledges | worker/src/boulder_frame_worker/queue_adapter.py:286-301 | Finished work is acknowledged, in any joint run: once an attempt concluded, whatever happens in between, settling it acknowledges the entry it was started for. |
| JobAcknowledgement.AlwaysAcknowledgeable | worker/src/boulder_frame_worker/queue_adapter.py:185-301 | No entry is ever stuck: from every reachable joint state every published entry can still come to be acknowledged, by delivering it to a fresh attempt. |
| FrameClock.IncreasingExactly | worker/src/boulder_frame_worker/media.py:53-56 | Half-even timestamps are strictly increasing over all frames if and only if the rate is at most 1000 frames per second. |
| FrameClock.ClockMeans | worker/src/boulder_frame_worker/media.py:41-51 | Milliseconds and frames of a video are the nearest whole numbers, the even one of two; a time is valid exactly within the milliseconds, and its frame is the one it falls in. |
| FrameClock.TimestampNearest | worker/src/boulder_frame_worker/media.py:53-56 | The timestamp of a frame is the whole millisecond nearest to 1000 times its index over the rate, the even one of two. |
| FrameClock.TimestampRoundTrip | worker/src/boulder_frame_worker/media.py:41-56 | Up to 1000 frames per second a timestamp maps back to its own frame, or to the one before exactly when it was rounded down. |
| FrameClock.SelectionsInRange | worker/src/boulder_frame_worker/media.py:41-51 | Every valid selection indexes an existing frame if and only if (duration_ms - 1) * rate < 1000 * expected frames. |
| FrameClock.WholeFramesInRange | worker/src/boulder_frame_worker/media.py:41-51 | A duration of a whole number of frames is enough for that. |
| FrameClock.PartialFrameOutOfRange | worker/src/boulder_frame_worker/pipeline.py:549 | It can fail: 1013 ms at 30 frames per second has 30 frames, and the valid time 1012 ms selects frame 30. |
| FrameClock.TimestampsWithinDuration | worker/src/boulder_frame_worker/media.py:48-56 | The timestamp of every expected frame lies within the reported duration. |
| Association.GateMeans | worker/src/boulder_frame_worker/measurement.py:434-437 | The gate accepts a box exactly when its squared center distance is at most 2.25 times the squared diagonal of the reference. |
| Association.SelectMeans | worker/src/boulder_frame_worker/measurement.py:440-445 | The selection contains the reference whenever a detection does, is nearest among its kind, and earliest among the nearest. |
| Association.EvidenceSound | worker/src/boulder_frame_worker/measurement.py:100-118 | Building evidence never fails its own checks: at most 32 candidates in index order, exactly the selected one marked. |
| Association.EvidenceMeans | worker/src/boulder_frame_worker/measurement.py:355-431 | The evidence holds the candidates at exactly the kept indexes, the first 32 or the first 31 and a selected one beyond, each with its containment, distance and selection. |
| Association.RetainedListed | worker/src/boulder_frame_worker/measurement.py:473-484 | Retaining keeps order, bounds the list and always keeps the selected candidate. |
| Association.AssociateMeans | worker/src/boulder_frame_worker/measurement.py:257-319 | An association accepts a box if and only if one lies within the gate, and then the best there; its outcome says whether that contains the reference or why none was, and its checks never fail. |
| Tracking.SampleFrames | worker/src/boulder_frame_worker/pipeline.py:506-533 | The loop analyzes exactly the sampled frames, and fails exactly when the frames are not those of the clock, one by one and in number. |
| Tracking.EveryFrame | worker/src/boulder_frame_worker/pipeline.py:523-529 | The first and the selected frame are always samples, and every frame is one at no rate or at the rate of the video and above. |
| Tracking.GridCountExact | worker/src/boulder_frame_worker/pipeline.py:523-529 | For a step n/d below one the grid samples among frames 0 to k number exactly 1 + floor(k n / d). |
| Tracking.WindowSampled | worker/src/boulder_frame_worker/pipeline.py:523-529 | Every window of ceil(d/n) frames holds a grid sample; the selected frame is only ever an extra one. |
| Tracking.AssociateFromSelected | worker/src/boulder_frame_worker/pipeline.py:602-629 | One pass overwrites exactly the observations of the sampled frames on its side, each associated with the last accepted box before it. |
| Tracking.ReferenceMeans | worker/src/boulder_frame_worker/pipeline.py:626-629 | The reference of a pass is the box of the last accepted frame on its way, or the selected box. |
| Tracking.TappedMeans | worker/src/boulder_frame_worker/measurement.py:201-235 | The selected frame fails only without detections, and its box contains the tap whenever a detection does. |
| Tracking.TrackTarget | worker/src/boulder_frame_worker/pipeline.py:540-562 | After both passes exactly the sampled frames are not skipped, the selected frame is unchanged, and every other sampled frame was decided against the next accepted frame towards the selection: within its gate and the best there, or a miss because nothing was. |
| Tracking.HeldMeans | worker/src/boulder_frame_worker/pipeline.py:1046-1049 | The held box is that of the latest sampled frame at or before, absent after a sampled miss, and no later frame has a part in it. |
| Tracking.PlannerMeasurements | worker/src/boulder_frame_worker/pipeline.py:1044-1061 | The loop gives every frame the held box, its own timestamp and whether it was sampled. |
| Tracking.MeasurementsPlannable | worker/src/boulder_frame_worker/pipeline.py:561-566 | Measurements of clipped boxes at up to 1000 frames per second are what the planner demands. |
| WarningIntervals.CollectWarnings | worker/src/boulder_frame_worker/pipeline.py:1463-1480 | Before sorting the intervals are exactly the maximal runs of frames carrying a label, each once. |
| WarningIntervals.ReviewWarnings | worker/src/boulder_frame_worker/pipeline.py:1481-1483 | What is shown is the first hundred of the exact intervals, ordered by start and label. |
| WarningIntervals.SameLabelDisjoint | worker/src/boulder_frame_worker/pipeline.py:1463-1480 | Intervals of one label are disjoint: the earlier ends before the later starts. |
| WarningIntervals.ValidWarningIntervals | backend/domain/models.go:294-311 | Accepts exactly at most a hundred intervals within the reported duration, and returns them unchanged. |
| WarningIntervals.ShownAccepted | worker/src/boulder_frame_worker/media.py:48-56 | Every interval of a trace aligned with the frame clock lies within the half-even rounded duration. |
| WarningIntervals.PublishPhase | backend/domain/models.go:227-230 | The intervals of any phase the worker may publish are accepted by the consumer. |
| ReviewTrace.RankIsTextual | worker/src/boulder_frame_worker/pipeline.py:1482-1483 | Warnings that start together are shown in the order of their label texts. |
| ReviewTrace.AnalysisTrace | worker/src/boulder_frame_worker/pipeline.py:663-712 | The writing loop refuses differing counts and too many frames, and otherwise records the observation and the decision of each frame. |
| ReviewTrace.CarriesMeans | worker/src/boulder_frame_worker/pipeline.py:1428-1461 | A frame of a planned shot carries the speed label exactly when its speed exceeds the limit beyond tolerance, the acceleration label likewise, the source label for boxes beyond the full frame, the held labels without a box to hold or with a held one out of view, and the detection label for samples without a box. |
| ReviewTrace.ExactMeans | worker/src/boulder_frame_worker/pipeline.py:1463-1481 | Before truncation the warnings of a phase are exactly the maximal runs of frames that carry its labels so, from the first frame to the first without the label or the last frame. |
| CropPath.ObserveVideo | worker/src/boulder_frame_worker/pipeline.py:496-562 | Each error of selection, sampling and association occurs exactly where stated, the index error exactly when time * rate reaches 1000 * expected frames; otherwise the tap is resolved and the whole association chain holds. |
| CropPath.AnalyzeVideo | worker/src/boulder_frame_worker/pipeline.py:496-575 | End to end, whatever the solver answers: input errors occur exactly where stated and every other is an error of an answer; a returned crop path has valid crops, keeps every accepted box of the association chain in view unless no crop of the aspect ratio can, and respects the motion limits up to the claimed optima. The plan is the seed run of the observed measurements at the corners of the two solves. |
| ReviewTrace.ReviewVideo | worker/src/boulder_frame_worker/pipeline.py:496-575 | From a decoded video to what its review shows: for either phase the first hundred of the exact runs of its labels, in terms of observations, boxes, crops and motion. |

## Left out

- Floating point: rounding, `nextafter`, and the closeness tests that absorb its noise in the gates are not modelled; the tolerances of the solver checks and of the limit flags are. Frame rates and durations are reals, which includes the rational ones.
- The SciPy and HiGHS solver itself: only its answers, for which anything is allowed. Its status text is one error.
- Lookahead.PlanShot: requires boxes of positive area inside the source, which `worker/src/boulder_frame_worker/models.py:120-126` ensures by clipping, so the detector's geometry check is shown never to fail rather than exercised.
- SeedRun.Plan: confidence and the constant target-height field of measurements and traces are not modelled; nothing in the planner reads the confidence.
- Lookahead.Traces: the crops' velocities are shared by all frames as in the source; the containment-override field, always false there, has no counterpart.
- AxisLoop.CanonicalOrigins: the source passes a view of the solution; the model passes the whole array and a count.
- Kinematics.MotionReport: the detection counts, gap lengths, largest center step and largest height step of the report are direct counters and are left out.
- WorkerProcess.Process: scratch directories, debug capture, logging and the debug and review artifacts do not touch the job row and are left out; the local record and report of the attempt live in its entry of the store, and what a stage handler does beyond raising, returning and linking its output is arbitrary.
- JobOutcomes.FailedForReason: one direction; an attempt that is to fail the job may crash, lose its lease or have its update refused, and the job then stays open for the next one.
- JobProtocol: cancelling a queued job is the one transition of the state table no code performs; it is included as a step of the environment.
- JobRepository: `SetJobFailed` in `backend/repository/repository.go:159` writes without a guard and no handler calls it; it is not a step. The foreign key of the source asset is taken for granted in the claim, and the bound on progress of the table is part of the update guard.
- JobRuns.NeverStuck: recovery is possible from every state, not inevitable; nothing is assumed about scheduling. The same holds of JobDelivery.AlwaysCompletable and JobAcknowledgement.AlwaysAcknowledgeable.
- JobDelivery.OpenJobDeliverable: the clocks of different jobs advance independently, which allows more runs than one database clock, and a fresh entry of a malformed kind is never published.
- AxisGuarantees.LexicographicOptimum: that exact minima exist is shown for motionless shots; for other shots their existence is the theory of linear programming and not part of this model.
- Queue.NoLostEntry: which consumer holds a pending entry, idle times, the reclaim cursor and reconnects are not modelled; reclaiming never changes whether an entry is pending.
- WarningIntervals.ValidWarningIntervals: the text checks of labels and details are string matching and are left out; the labels are constants.
- WarningIntervals.CollectWarnings: requires records dated by an advancing clock, as their loader demands (`worker/src/boulder_frame_worker/pipeline.py:1125-1140`); the branch for records without a timestamp is not modelled.
- Association.EvidenceSound: the reference kind and strategy of evidence are constants and are left out, and detections are told apart by index, not identity.
- ReviewTrace.AnalysisTrace: the limit on bytes of a trace file, its encoding and the record fields no warning reads are left out; so are the details shown beside a label, which are constants.
- CropPath.AnalyzeVideo: a cached crop path, the report file and the decoding of frames are left out; decoded frames and what the detector finds in them are parameters.
- FFmpeg, ffprobe, OpenCV, model inference, object storage, HTTP handlers, configuration, the frontend, migrations and the evaluation aggregates.
