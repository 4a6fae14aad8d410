# Verification of the channel relay

A Dafny model of the parts of ocudu_gpu_channel where an error would be silent:
the concurrent relay and its rings, the pacer, the correlation and delay-line
arithmetic, the load-time passes over a topology, and two self-contained
algorithms beside them. `dafny verify dfyconfig.toml` checks the whole project.

## What is modelled

- **Rings** (`Ring`, `IqRing`, `RingRuns`): the circular buffer with absolute
  sequence numbers, as a value and as a class with the two block copies of the
  original, refined to an append-only stream over every run of operations.
- **Relay** (`Relay` to `RelayProgress`, `RelayCopies`, `RelayCounts`, `RelayWiring`): one puller
  per TX port, one producer per radio node, one REP worker per RX port, as a transition system
  with one step per critical section or atomic access (`Relay.PullerStep` for
  src/broker.cpp:1029-1122, `Relay.ProducerStep` for 1181-1489, `Relay.RepStep` for
  1521-1626). The loops over links, rows and lanes are program counters, so other
  workers may step between any two iterations. A radio is a free choice of message
  and of request time. One invariant over the whole state is kept by every step;
  the main theorems follow from it and from a second invariant about wake tickets.
  What a slot holds and how long it is (`RelayCounts`) is stated over what the radios
  sent and over the moments a node looked at its rings. A measure bounds what the workers do between two turns of the radios, and the
  zero-copy relay is shown to refine the copying one.
- **Pacer** (`Pacer`): integer nanoseconds with carried remainders, and a
  quantitative bound on what is released over any run, and exactly when a publication
  has to wait.
- **Correlation** (`Correlation` to `NearSemidefinite`, `LaneMixing` to
  `LinkCovariance`, `Nearness`): LDL^H with its tolerances, the Kronecker product, the in-place mixing of fading grids, over exact reals.
- **Delay line and executor** (`Tdl`, `TdlStream`, `TdlFading`, `FadingMeaning`,
  `Executor`).
- **Topology passes** (`Lanes`, `GroupOrder`, `FixedMimo`, `Folds`), and what the
  folds do to a link's slots (`LinkSlots`, `FoldMeaning`, `FoldLimits`, `FoldExact`):
  a chain is run slot by slot, every tdl step over its own history ring.
- **Convex hull** (`Hull`) and **frame reader** (`Frames`).

## Where the code and its documentation differ

- `src/config.cpp:807-809` asks for a queue of two batches and says that one
  dead-locks. In the model one batch is enough, and less than one starves:
  `RelayLive.QueueRule`, with `RelayLive.NoDeadlock` proved under one batch. That
  is the relay by itself: a chain of waits may end at a radio, and radios in lock
  step can close the loop, when samples that a slower node still holds in a
  one-batch ring keep its puller from asking for those another radio waits for.
- `include/ocudu_gpu_channel/correlation.h:46-52` says the factorisation decides
  positive semidefiniteness, singular matrices included. It does when each pivot
  and residual is clear of its tolerance or exactly zero
  (`Semidefinite.AcceptedIffSemidefinite`); between zero and the tolerance it can
  accept an indefinite matrix (`Semidefinite.PairAccepted`) and refuse a definite
  one (`Semidefinite.DefiniteYetRefused`).
- `include/ocudu_gpu_channel/delay.h:26-33` defines the filter over the stream.
  The slot-wise code reads zero past the slot's end, so a fractional path
  shallower than three samples depends on how the stream is cut
  (`TdlStream.CutInvisibleIffCausal`, `TdlStream.FractionalPathShowsTheCut`).
- `include/ocudu_gpu_channel/config.h:435-436` says link groups are in link order.
  They are in the order of their first sorted lanes, which is link order exactly
  when no link's first row sorts strictly before an earlier link's
  (`GroupOrder.InLinkOrderIff`; `GroupOrder.GroupsNotInLinkOrder` is a topology
  of two links where it does).
- `src/config.cpp:1606-1615` calls shifting a leading tdl the physically correct
  merge of a link's delay. Slot by slot two things stand in its way. A shifted path
  has samples that the declared one, fed the delayed stream, misses at the slot's
  end: a path of half a sample under a link delay of 3 (`FoldLimits.HalfSample`).
  And the clone's leading tap is also the runtime value of tap 0 of every other tdl
  step (src/mutable_params.cpp:63-73, src/cpu_backend.cpp:409-423), so a tdl behind
  the first step is delayed once more: path_loss then tdl(5), with a link delay of
  3, arrives 6 samples late (`FoldLimits.DelayedTwiceIff`). For all filters, gains,
  copied steps, streams and cuts the fold keeps what a chain does exactly when it
  adds no delay, or no tdl stands behind the first step and every leading path is
  three samples deep or a whole number of samples (`FoldExact.DelayKeptIff`); for
  given filters, exactly when no leading look-ahead coefficient is left
  (`FoldLimits.LeadKeptIff`).
- `include/ocudu_gpu_channel/delay.h:75-78` sizes a step's ring for its deepest tap.
  A tdl behind the first step runs tap 0 at another delay over that ring; past its
  length the tap reads zero (`FoldLimits.LaterTapIff`), so path_loss then tdl(5)
  with a link delay of 100 is silent in slots of up to 87 samples
  (`FoldLimits.DelayedAway`).
- `src/broker.cpp:1294-1295` calls a node without lanes paced and bounded. A node
  without an RX port has no row to bound it: only the pacer slows its loop
  (`RelayProgress.RadioFreeRunsEndIff`).
- The folds name a clone by a printed number. Default stream formatting keeps
  six significant digits, so 1000.001 and 1000.002 print alike and the second
  link is served with the first one's delay (`Folds.ServedRightIffPrintable`,
  `FoldMeaning.AlikePrintsMergeLinks`).

## Model

| member | source | states |
|---|---|---|
| RingModel.PushAppends | src/ring.cpp:19-38 | a push is accepted exactly when it fits, and then appends its samples to the stream |
| RingModel.ReadIsStream | src/ring.cpp:40-57 | a read returns the pushed samples of its range, or fails exactly when part of it is not buffered |
| RingModel.DiscardKeepsStream | src/ring.cpp:59-76 | a discard moves the first buffered sequence number and changes no sample |
| RingModel.ViewIsStream | src/ring.cpp:78-89 | a view in place exists exactly for a buffered range that does not wrap, and shows what a read of it copies |
| RingModel.WindowInPlace | src/ring.cpp:78-89 | where a buffered window stands in the storage |
| RingModel.ReserveIsTail | src/ring.cpp:91-101 | a reserved span is the free tail and touches no live sample |
| RingModel.FillIsInvisible | src/ring.cpp:91-101 | writing the reserved span changes nothing a reader can see |
| RingModel.CommitAppends | src/ring.cpp:103-107 | a commit appends what was filled, also after discards in between |
| IqRingClass.IqRing.constructor | src/ring.cpp:6-17 | an empty ring over an empty stream |
| IqRingClass.IqRing.Push | src/ring.cpp:19-38 | the two block copies leave the state of the sample-by-sample push |
| IqRingClass.IqRing.Read | src/ring.cpp:40-57 | the output holds the stream's samples, or is untouched on failure |
| IqRingClass.IqRing.DiscardBefore | src/ring.cpp:59-76 | the fields after a discard, the storage unchanged |
| IqRingClass.IqRing.View | src/ring.cpp:78-89 | the view's position, or none when it would wrap or is not buffered |
| IqRingClass.IqRing.Reserve | src/ring.cpp:91-101 | the reserved position, or none when it would wrap or not fit |
| IqRingClass.IqRing.FillSpan | src/ring.cpp:91-101 | writing the reserved span in place |
| IqRingClass.IqRing.Commit | src/ring.cpp:103-107 | the filled samples join the stream |
| RingRuns.RingRefinesStream | include/ocudu_gpu_channel/ring.h:10-39 | over every run of operations the ring is an append-only stream with a buffered suffix |
| RingRuns.HeldViewIsStable | src/ring.cpp:78-107 | a view stays valid over any later operations until its samples are discarded |
| RelayWiring.BuildWakeLists | src/broker.cpp:925-938 | each dependent worker is listed, and listed once |
| RelayWiring.ListsAreWiring | src/broker.cpp:923-938 | a port and a node wake each other exactly when a lane joins them |
| RelaySafety.InitInv | src/broker.cpp:1029-1640 | the global invariant holds before the first step |
| RelaySteps.PullerKeeps | src/broker.cpp:1047-1122 | every puller step keeps the invariant of the whole relay |
| RelaySteps.RepKeeps | src/broker.cpp:1521-1626 | every REP step keeps it |
| RelayProducer.ProducerKeeps | src/broker.cpp:1181-1489 | every producer step keeps it |
| RelayProducer.ReachableInv | src/broker.cpp:1029-1640 | it holds in every reachable state |
| RelayTheorems.NoFaults | src/broker.cpp:1308-1377 | no sequence gap, no vanished window, no rejected push, RX occupancy within the high-water mark |
| RelayTheorems.OnlyOversizeFails | src/broker.cpp:1033-1046 | over any run a puller has failed if and only if its radio sent a message larger than the queue |
| RelayTheorems.StreamIsWhatWasSent | src/broker.cpp:1076-1161 | over any run, what was pushed into a port's ring and what waits to be pushed is all that its radio sent, in order, but for oversize messages |
| RelayTheorems.LanesAligned | src/broker.cpp:1273-1316 | all lanes of a node stand at the same sample, still buffered at each source |
| RelayTheorems.SlotsShareOneWindow | src/broker.cpp:1361-1452 | slot k reads the same window of every lane, and slots tile the streams |
| RelayTheorems.SlotsHoldWhatWasSent | src/broker.cpp:1361-1452 | a slot holds, of every lane, that range of what the lane's radio sent |
| RelayCounts.SlotIsAsLongAsPossible | src/broker.cpp:1234-1333 | in every run a slot is as long as the smallest of the node's batch, the headroom of every row and the samples available on every lane, each when the node looked at it for that slot |
| RelayTheorems.QueuedWindowsFillTheRing | src/broker.cpp:1467-1488 | the queued windows add up to the RX ring and its cursor is its first sample |
| RelayTheorems.RepliesAreRows | src/broker.cpp:1566-1622 | the k-th reply of a port is its row of slot k, whole |
| RelayTheorems.RepliesAreTheChannels | src/broker.cpp:1361-1622 | end to end: each sample of a reply is the channel's of its row, of the node's earlier slots and of what the radio of every lane sent in the slot's range |
| RelayTheorems.RequestsAreAnsweredOnce | src/broker.cpp:1521-1626 | over any run a port has sent as many replies as its radio made requests, less the one in hand |
| RelayTheorems.SiblingsAgree | src/broker.cpp:1566-1622 | the k-th replies of sibling ports cover one window and have one size |
| RelayTheorems.CopySettingsAreInvisible | src/broker.cpp:1361-1398 | two runs cut alike put the same samples on the wire, whatever FEWER_COPIES and DIRECT_ROWS |
| RelayCopies.ZeroCopyRefinesCopying | src/broker.cpp:1361-1398 | every run of the relay has a copying run with the same radio traffic, the same slots and the same released replies |
| RelayCopies.StepMatches | src/broker.cpp:1361-1626 | one step of the relay is none, one or two steps of the copying relay, states corresponding throughout |
| RelayWake.ReachableWakes | src/broker.cpp:248-289 | a sleeper on a current ticket either has nothing to do or is owed a notify |
| RelayLive.RoomWakeNotLost | src/broker.cpp:1234-1251 | a node asleep for room that has room is about to be woken |
| RelayLive.DataWakeNotLost | src/broker.cpp:1301-1343 | a node asleep for data that has data is about to be woken |
| RelayLive.PullerWakeNotLost | src/broker.cpp:1047-1118 | a puller asleep for room that a scan would grant is about to be woken |
| RelayLive.RepWakeNotLost | src/broker.cpp:1566-1600 | a REP worker asleep although a row is queued is about to be woken |
| RelayLive.NoDeadlock | src/broker.cpp:1029-1640 | whatever blocks a worker leads, blocker by blocker, to a worker that can step or only waits for its radio |
| RelayLive.QuietAwaitsRadio | src/broker.cpp:1029-1640 | when no worker can step, every chain of blockers ends at a radio with room for its reply or a row for its request |
| RelayProgress.RadioFreeRunsEnd | src/broker.cpp:1029-1640 | in any schedule the workers take at most a stated number of steps between two turns of the radios |
| RelayProgress.RadioFreeRunsEndIff | src/broker.cpp:1294-1295 | such runs are bounded if and only if every node has an RX port |
| RelayProgress.WorkersComeToRest | src/broker.cpp:1029-1640 | from every reachable state the workers can be run until none has a step |
| RelayProgress.RestAwaitsRadio | src/broker.cpp:1029-1640 | where the workers stop, each of them waits, in the end, for a radio |
| RelayLive.ShortQueueStarves | src/config.cpp:807-817 | a queue shorter than one batch never pulls in any run |
| RelayLive.QueueRule | src/config.cpp:807-817 | a puller can ever pull if and only if its queue holds one batch |
| Pacing.RealTimePacer.constructor | include/ocudu_gpu_channel/pacing.h:32-42 | the burst credit in limiter time |
| Pacing.RealTimePacer.Charge | include/ocudu_gpu_channel/pacing.h:48-73 | the due instant and both deadlines with their carried remainders |
| Pacing.RealTimePacer.Published | include/ocudu_gpu_channel/pacing.h:75-84 | the limiter and the lag after a publication |
| Pacing.RealTimePacer.DurationFor | include/ocudu_gpu_channel/pacing.h:90-94 | the whole nanoseconds of a sample count |
| Pacing.NominalNeverDrifts | include/ocudu_gpu_channel/pacing.h:58-70 | after any charges the nominal deadline is anchor plus floor(10^9 S / rate), no due time is earlier, and the limiter total is its floor share |
| Pacing.LimiterRemembers | include/ocudu_gpu_channel/pacing.h:75-84 | the limiter accounts for every past publication |
| Pacing.LimitedRelease | include/ocudu_gpu_channel/pacing.h:48-84 | limiter time released between two publications is at most elapsed time plus burst |
| Pacing.ReleaseEnvelope | include/ocudu_gpu_channel/pacing.h:48-84 | signal released is less than burst + (elapsed + 1 ns)(1 + ppm/10^6), whatever stalls came before |
| Pacing.ReleaseEnvelopeInSamples | src/broker.cpp:1458-1489 | the same bound on sample counts, with one more nanosecond for the carried fraction |
| Pacing.NeverHeldLonger | include/ocudu_gpu_channel/pacing.h:55-56 | no publication is held beyond its nominal time, its credit or its recovery time |
| Pacing.DueExactly | include/ocudu_gpu_channel/pacing.h:48-84 | over any run the due instant is exactly the latest of the nominal time of the samples charged, the call less the burst, the anchor's recovery time and, for each earlier publication, its instant less the burst plus what was charged from it on |
| Pacing.NoWaitIff | include/ocudu_gpu_channel/pacing.h:44-58 | a call does not wait if and only if the nominal time is reached and everything charged from each earlier publication on is covered by the time since it plus the burst, and everything since the anchor without it |
| Pacing.CreditIsBurst | include/ocudu_gpu_channel/pacing.h:36-41 | the credit is the burst in limiter time, rounded down once although computed in two parts |
| Pacing.FirstIsNow | include/ocudu_gpu_channel/pacing.h:44-54 | the first call waits for nothing |
| Pacing.LagIsLateness | include/ocudu_gpu_channel/pacing.h:81-82 | the lag is how late the last publication came behind the nominal time of all samples charged with it, and the largest lag the largest of any slot so far |
| Correlation.MixingMatrix | src/correlation.cpp:32-87 | the factor entry by entry, or the first column that stops it and why |
| Correlation.FillColumn | src/correlation.cpp:55-74 | one column: passes exactly when no residual below a zero pivot exceeds the tolerance |
| Covariance.FactorReproduces | src/correlation.cpp:77-84 | every accepted Hermitian matrix is within 1e-9 of M M^H, entries equal if and only if nothing of them was rounded to zero |
| Covariance.ReproducesBelow | src/correlation.cpp:44-75 | the same below the diagonal, against L D L^H: the error is the residual the code bounds, or a tiny negative pivot |
| Semidefinite.GramIsSemidefinite | src/correlation.cpp:77-84 | what the factor generates is always a covariance |
| Semidefinite.NegativePivotWitness | src/correlation.cpp:49-54 | back substitution gives a vector whose energy is the negative pivot, zero columns before it included |
| Semidefinite.ZeroPivotWitness | src/correlation.cpp:61-69 | a zero pivot with a residual below it gives a vector of negative energy |
| Semidefinite.AcceptedIffSemidefinite | src/correlation.cpp:44-75 | where pivots and residuals are clear of their tolerances or exactly zero, accepted if and only if positive semidefinite |
| Semidefinite.SemidefiniteIffEliminates | include/ocudu_gpu_channel/correlation.h:46-52 | every Hermitian matrix: semidefinite if and only if elimination with tolerance zero meets no negative pivot and no zero pivot with a residual |
| NearSemidefinite.AcceptedIsNearlySemidefinite | src/correlation.cpp:44-75 | every accepted matrix, in the band or not, has energy at least -1e-9 n times the squared norm |
| Semidefinite.PairClear | include/ocudu_gpu_channel/correlation.h:46-52 | exactly which pairs are clear of the band, perfectly correlated ones included; none of their entries is rounded |
| Semidefinite.PairAccepted | src/correlation.cpp:49-54 | two ports: accepted up to squared correlation 1 + 1e-12, semidefinite up to 1 |
| Semidefinite.DefiniteYetRefused | src/correlation.cpp:61-69 | a family of three-port covariances the zero-pivot branch refuses, all but its boundary positive definite |
| Semidefinite.DefiniteYetRefusedExists | src/correlation.cpp:61-69 | the family has a positive definite member |
| LaneMixing.DenseCorrelation | src/correlation.cpp:14-30 | the dense matrix of the declared entries, out-of-range ones skipped |
| LaneMixing.DenseIsHermitian | src/correlation.cpp:14-30 | validated entries give a Hermitian matrix with unit diagonal |
| LaneMixing.DenseAsDeclared | src/correlation.cpp:14-30 | each entry is used as written and undeclared pairs are zero |
| LaneMixing.Kron | src/correlation.cpp:89-110 | the Kronecker product with zero entries of the left operand skipped |
| LaneMixing.LaneMixingMatrix | src/correlation.cpp:112-144 | identity for iid, else the product of the two side factors, or which side is refused |
| LaneMixing.ProductGram | src/correlation.cpp:139-141 | L L^H at lanes (r,t), (r',t') is the rx product times the tx product |
| LaneMixing.LaneCovariance | include/ocudu_gpu_channel/correlation.h:12-22 | that is the declared R_rx (x) R_tx in lane order r*Nt+t: exactly where no side's entry was rounded, else within 3e-9 |
| LinkFading.PhysicalLinkFading.BeginSlot | include/ocudu_gpu_channel/physical_link.h:74-77 | no grid of an earlier slot counts as built |
| LinkFading.PhysicalLinkFading.Reshape | include/ocudu_gpu_channel/physical_link.h:82-95 | the table grows and keeps what it holds |
| LinkFading.PhysicalLinkFading.ApplyMixing | include/ocudu_gpu_channel/physical_link.h:104-141 | the leading grids hold L w at every tap and point, all else unchanged; refused before any write when a lane is missing |
| LinkFading.PhysicalLinkFading.MixPoint | include/ocudu_gpu_channel/physical_link.h:128-138 | gathering first, then overwriting, mixes the old samples of one point only |
| LinkCovariance.MixedCovariance | include/ocudu_gpu_channel/correlation.h:5-10 | white lanes mixed by L have covariance L L^H |
| LinkCovariance.LinkHasDeclaredCovariance | include/ocudu_gpu_channel/correlation.h:12-22 | mixed lanes correlate as R_rx[r][r'] * R_tx[t][t'], exactly where no side's entry was rounded, else within 3e-9 |
| Tdl.PrepareTdlState | include/ocudu_gpu_channel/delay.h:79-97 | the ring holds ceil(tau)+8 samples for every path, and is replaced only when too short |
| Tdl.Calculate | include/ocudu_gpu_channel/delay.h:139-165 | one range of the convolution, other samples untouched |
| Tdl.RollRing | include/ocudu_gpu_channel/delay.h:168-180 | the ring keeps its own last samples and the slot's |
| Tdl.ApplyTdlStep | include/ocudu_gpu_channel/delay.h:110-181 | the slot's output and ring for any ranges in any order |
| TdlStream.RolledIsTail | include/ocudu_gpu_channel/delay.h:168-180 | the ring always holds the last samples of everything received |
| TdlStream.ReadInRing | include/ocudu_gpu_channel/delay.h:123-138 | with a ring prepared for the taps that are run no read falls before it |
| TdlStream.ReadsStayIff | include/ocudu_gpu_channel/delay.h:123-138 | for a path over any ring, reads stay in it if and only if it is four longer than the path's whole delay |
| TdlStream.ImpulseResponse | include/ocudu_gpu_channel/delay.h:139-165 | a unit impulse gives, at a lag, every path's gain times its coefficient at lag - floor(tau) + 3, where it has one |
| TdlStream.SlotAgainstWhole | include/ocudu_gpu_channel/delay.h:110-181 | a slot's output is the whole-stream convolution less the samples past the slot's end |
| TdlStream.CutInvisibleIffCausal | include/ocudu_gpu_channel/delay.h:99-181 | slot-wise equals whole-stream for every stream and cut if and only if the look-ahead coefficients vanish |
| TdlStream.CutInvisibleWhenDeepOrWhole | include/ocudu_gpu_channel/delay.h:26-33 | so it does when every path is three samples deep or a whole number of samples |
| TdlStream.FractionalPathShowsTheCut | include/ocudu_gpu_channel/delay.h:115-121 | a shallow fractional path makes the cut visible |
| TdlFading.Replay | include/ocudu_gpu_channel/delay.h:453-462 | the replayed prefix reaches the serial phase of the range's first sample |
| TdlFading.CalculateFading | include/ocudu_gpu_channel/delay.h:452-515 | a range gives the serial loop's samples, for any product |
| TdlFading.ApplyTdlStepFading | include/ocudu_gpu_channel/delay.h:373-531 | the faded slot for any ranges in any order, refused untouched on a grid mismatch |
| FadingMeaning.FadedIsModulated | include/ocudu_gpu_channel/delay.h:463-505 | a faded sample is the plain step's with each path's gain times its factor: the point on the straight line between its grid points, level behind the last, and on a line-of-sight path the steadily turning carrier beside it |
| FadingMeaning.InterpolatedOnLine | include/ocudu_gpu_channel/delay.h:465-474 | the interpolated value is the one point on that line, and no other |
| FadingMeaning.FlatGrid | include/ocudu_gpu_channel/delay.h:463-505 | with every grid value one and no line of sight, fading changes nothing |
| FadingMeaning.AtGridPoint | include/ocudu_gpu_channel/delay.h:465-474 | without line of sight the factors at a grid point are the grid's own values |
| FadingMeaning.LineOfSightOnly | include/ocudu_gpu_channel/delay.h:475-479 | with factors 1 and 0 a path is turned by coefficient * start * step^n |
| FadingMeaning.ScatteredOnly | include/ocudu_gpu_channel/delay.h:475-479 | with factors 0 and 1 a path fades as if it had no line of sight |
| Executor.SplitRanges | src/sample_executor.cpp:86-95 | min(count, threads) non-empty ranges tile [0, count), lengths differing by at most one |
| Executor.NextKeeps | src/sample_executor.cpp:38-56 | each critical section keeps: every index hit once or still to come once |
| Executor.ReturnedMeansDone | src/sample_executor.cpp:79-104 | a returned call has called its function once for the range of each index, the call returning or throwing, and does not use it again |
| Executor.RemainingIsPending | src/sample_executor.cpp:51-55 | remaining is the number of the job's ranges queued or in hand |
| Executor.FirstFailureIsThrown | src/sample_executor.cpp:53-103 | a returned call has settled every range, and throws if and only if one failed, the failure settled first |
| Executor.CallersAreServed | src/sample_executor.cpp:79-104 | a waiting caller can return or some worker can move |
| Executor.EveryCallReturns | src/sample_executor.cpp:79-104 | without further calls the steps left are counted exactly, and where they end every call has returned |
| Hull.Half | apps/sionna_bridge/build_osm_scene.py:234-243 | a chain from first to last point, strictly left-turning, every point on or left of every edge |
| Hull.ConvexHull | apps/sionna_bridge/build_osm_scene.py:227-245 | a strictly convex counter-clockwise ring enclosing the input; two extremes when collinear |
| Hull.RingEncloses | apps/sionna_bridge/build_osm_scene.py:245-245 | every input point is on or left of every ring edge |
| Hull.RingIsStrictlyConvex | apps/sionna_bridge/build_osm_scene.py:245-245 | the joined halves turn strictly left everywhere and repeat no corner |
| Hull.RingOfLine | apps/sionna_bridge/build_osm_scene.py:245-245 | collinear points leave the two extremes |
| Frames.WebSocketClient.ReadExactly | apps/dashboard/server.py:1553-1567 | the next bytes of the stream however it is cut, or closed when there are too few |
| Frames.WebSocketClient.ReadFrame | apps/dashboard/server.py:1605-1627 | one frame of the stream, or the first fault in it |
| Frames.WebSocketClient.RecvMessage | apps/dashboard/server.py:1595-1655 | the next text message, none at a close, or the fault, with the pongs sent and the bytes left unread |
| Frames.ParseEncoded | apps/dashboard/server.py:1605-1627 | parsing undoes framing, whatever follows |
| Frames.SessionOfFrames | apps/dashboard/server.py:1595-1655 | from any point inside a message, whatever follows: the calls return the remaining texts in order, and end at a close with what is behind it unread, or go on with the rest |
| Frames.ReaderInvertsFraming | apps/dashboard/server.py:1595-1655 | successive calls return exactly the text messages in order, answer every ping, and end cleanly if and only if the peer sent a close, else with a connection that ended without one |
| Frames.RawFaults | apps/dashboard/server.py:1605-1622 | which rule a frame breaks by itself: reserved bits or opcode, then mask, then a long or fragmented control frame or an oversize frame |
| Frames.BrokenFrame | apps/dashboard/server.py:1605-1622 | conforming frames and then one that breaks a rule by itself: the texts and pongs before it, then that fault |
| Frames.MisplacedFrame | apps/dashboard/server.py:1635-1655 | likewise for a continuation of nothing, a message inside another, a message grown too long and a text that does not decode |
| Frames.CutOffFrame | apps/dashboard/server.py:1553-1567 | likewise for a frame cut off anywhere by the end of the connection |
| Lanes.Expand | src/config.cpp:1917-1963 | exactly the live lanes in emission order, or the first link that cannot be expanded |
| Lanes.SortOrders | src/config.cpp:1965-1975 | the stable sort orders rows and keeps emission order inside each |
| Lanes.GroupLanes | src/config.cpp:1977-1999 | every position points back at itself through its link's group, groups in the order of their first lanes |
| Lanes.Resolve | src/config.cpp:1872-2001 | the complete sorted lanes, each joining the ports it names, their inverse index, and the order of the groups |
| Lanes.LaneJoinsPorts | src/config.cpp:1946-1962 | a lane's source device is TX port tx of the first node its link comes from, its destination device RX port rx of the first node it goes to; names, dimensions and key likewise |
| Lanes.DeviceIsAntenna | src/config.cpp:1949-1952 | with distinct ports, two lanes of a link share a source device if and only if they share tx, and a destination device if and only if they share rx |
| Lanes.LaneIffHeard | src/config.cpp:1467-1479 | an antenna pair of a link has a lane if and only if the model has no fixed matrix or a nonzero coefficient for it |
| Lanes.KeyNamesLink | src/config.cpp:2014-2020 | two links have one key if and only if they join the same nodes under the same declared model, whatever clones run |
| Lanes.StringLessIff | src/config.cpp:1965-1975 | the order of destination names is the lexicographic one |
| Lanes.LaneOnce | src/config.cpp:1917-1963 | a live lane stands at one position |
| Lanes.RowsAreContiguous | src/config.cpp:1965-1975 | the lanes of a row are adjacent |
| Lanes.RowKeepsOrder | src/config.cpp:1965-1975 | inside a row link order, inside a link TX order |
| Lanes.IndexIsInverse | src/config.cpp:1977-1999 | index entry r*nt+t is that lane's position, -1 exactly when its coefficients are all zero |
| Lanes.GroupsAreLinks | src/config.cpp:1982-1999 | one group for each link with a live lane and for no other |
| GroupOrder.InLinkOrderIff | include/ocudu_gpu_channel/config.h:435-436 | the groups are in link order if and only if no link's first live row sorts strictly before an earlier link's |
| GroupOrder.FirstLaneOrder | src/config.cpp:1965-1999 | of two links the later one's first lane stands first exactly when its first row sorts strictly before |
| GroupOrder.GroupsNotInLinkOrder | include/ocudu_gpu_channel/config.h:435-436 | two links whose groups are in the other order |
| FixedMimo.ExpandLane | src/config.cpp:1515-1541 | a lane's taps: those with a nonzero matrix entry, weighted by it |
| FixedMimo.EntryIsDeclared | src/config.cpp:1515-1541 | with one coefficient for each tap and lane, a matrix entry is the declared coefficient, and zero where none is declared |
| FixedMimo.LaneIsMatrixEntry | src/config.cpp:1515-1541 | shaping with those taps is applying the matrix entries; leaving zero taps out loses nothing |
| FixedMimo.LiveIffTapped | src/config.cpp:1467-1479 | a lane is kept exactly when it carries a tap |
| FixedMimo.DroppedLaneIsSilent | src/config.cpp:1939-1945 | a dropped lane would have contributed zero |
| Folds.FoldLinks | src/config.cpp:1547-1695 | both folds, link by link, with their cache and their first-kept models |
| Folds.AfterInv | src/config.cpp:1570-1630 | what links, cache and models hold after any prefix of the links |
| Folds.ServedRightIffPrintable | src/config.cpp:1587-1628 | every link gets its own clone if and only if no printed id stands for two clones |
| Folds.ApartIsPrintable | src/config.cpp:1597-1604 | numbers that print apart and model names without an underscore are enough for that, for both folds |
| Folds.NodeCarriesItsPorts | src/config.cpp:1560-1577 | a link from a node carries the offset and scale its ports agree on |
| Folds.DeviceCarriesItself | src/config.cpp:1568-1577 | a link from a device that is no node carries that device's |
| LinkSlots.RunsAreCausal | src/cpu_backend.cpp:260-440 | working step by step over all slots is working slot by slot through all steps |
| LinkSlots.RingIsTail | include/ocudu_gpu_channel/delay.h:168-180 | a step's ring holds the last samples of all its slots |
| FoldMeaning.ShiftedSample | src/config.cpp:1606-1615 | a sample of the shifted leading step is the declared step's on the delayed stream plus what the slot's end took from it |
| FoldMeaning.DelayCloneMeaning | src/config.cpp:1606-1627 | for whole samples the clone does to any slots what the chain does to those of the delayed stream, unless a leading tdl looks ahead or a tdl stands behind the first step |
| FoldLimits.LeadKeptIff | src/config.cpp:1606-1615 | for given filters and gains and no later tdl, that is kept for every stream and cut if and only if no delay is added or no leading look-ahead coefficient is left |
| FoldLimits.UnfadedLeadKeptIff | include/ocudu_gpu_channel/delay.h:99-181 | an unfaded leading tdl may be shifted if and only if its slots' ends cannot be heard at all |
| FoldLimits.HalfSample | src/config.cpp:1606-1615 | a leading path of half a sample under a link delay of 3 is not kept |
| FoldExact.DelayKeptIff | src/cpu_backend.cpp:409-423 | for all filters, gains, copied steps, streams and cuts: kept if and only if no delay is added, or no later tdl and every leading path deep or whole |
| FoldLimits.LaterTapIff | include/ocudu_gpu_channel/delay.h:91-96 | a whole-sample tap over a ring not made for it is that delay for every stream and cut if and only if the ring holds its delay |
| FoldLimits.DelayedTwiceIff | src/mutable_params.cpp:63-73 | a link delay of d before path_loss and tdl(t) arrives as 2d if and only if d is at most ceil(t) + 8; without one t is not run at all |
| FoldLimits.DelayedAway | include/ocudu_gpu_channel/delay.h:129-138 | and in slots no longer than what that ring lacks the link is silent |
| FoldMeaning.ScaleCloneMeaning | src/config.cpp:1677-1690 | the clone does to any slots what the chain does to the scaled ones |
| FoldMeaning.FoldsKeepMeaning | src/config.cpp:750-754 | after both folds a link does to its slots what its declared chain does to the scaled slots of the delayed stream, unless its delay meets a leading look-ahead or a later tdl |
| FoldExact.FoldsKeepMeaningIff | src/config.cpp:750-754 | on a whole topology that is so if and only if the link has no delay, or its chain no later tdl and only deep or whole leading paths |
| FoldMeaning.AlikePrintsMergeLinks | src/config.cpp:1597-1604 | two delays that print alike give the second link the first one's delay |

## Left out

- The relay's threads are steps of one transition system on values, not Dafny objects: a ring's mutex is modelled by making its critical section one step, and `IqRing` updates in place are covered by the class separately.
- ZMQ sockets, request retries and the flag for an outstanding request, environment knobs, signals, stop and shutdown paths, the wedge detector, hop traces, captures, statistics and stage timings.
- The spin and polling wait modes and the 5 ms timeout of the ticket wait: the wake theorems are proved without it.
- 64-bit wrap-around of sequence numbers and nanosecond counts: both are unbounded integers here.
- A broker with pacing switched off: it only skips the wait before a publication.
- Floating-point rounding (the single-precision copy of tap 0 included), trigonometry and decibel conversion: coefficients, gains, factors and a nonnegative square root are parameters; AWGN draws and the Jakes sub-ray sums are not modelled.
- Pacing.ReleaseEnvelopeInSamples: the bound on samples has one nanosecond more than the bound on signal time, because the nominal clock carries a fraction of a nanosecond between charges.
- Semidefinite.AcceptedIffSemidefinite: between zero and the tolerances there is no equivalence, only the lower bound of `NearSemidefinite`; each direction fails on one of `Semidefinite.Pair` and `Semidefinite.Chain`.
- LaneMixing.LaneCovariance: the bound for rounded entries is for declared entries of magnitude up to the validator's 1 + 1e-12.
- FoldMeaning.FoldsKeepMeaning: for delays of whole samples; a fractional delay changes the filter coefficients of every path. A step keeps its own draws: the code seeds a fading or noise step by its index, so behind an inserted step it draws other values of the same law.
- FoldExact.DelayKeptIff: link delays are not negative, as the validator requires; it refuses others only after the fold has run.
- RelayCopies.ZeroCopyRefinesCopying: between sending from the ring and releasing, the copying run is one reply behind, so a radio that answers in that window acts there before the reply is on the wire.
- Executor.EveryCallReturns: while new calls keep arriving, the order of the queue is not used to bound a call's wait.
- Folds.ServedRightIffPrintable: a generated id is supposed not to be an id the author wrote.
- Lanes.Resolve: lane state keys and model ids of fixed-matrix clones are strings derived from the modelled indices and are not built.
- FixedMimo.ExpandLane: a tap's gain is one complex number; decibels and radians are not added separately, and the clone's other fields and its id are not built.
- `los_matrix` coefficients and the row sums of `process_superposition`.
- Runtime control: `snap_physical_link`, shadows and sequence numbers, profile swaps and warm-up windows.
- CUDA kernels and device-side state.
- The YAML reader, validation messages, telemetry, HTTP handlers and command lines.
- Handshake, liveness pings, masking of sent frames and UTF-8 inside the frame reader: text decoding is a parameter.
- Destruction of the sample executor and exceptions while it starts its threads.
