# Verified models of signal and sequencing algorithms in a collection of Pd externals

Most externals in the collection are thin wrappers around a device or a formula. This project models the ones that hold
real algorithms, in the order of how much there is to get wrong, and proves what each of them is for.

- **Partitioned convolution** (`partconv~`): `PartConvModel` is one perform call as a function of the object's state,
  `PartConv` the same in place, on arrays, pointers into the ring and dealt work. `Convolution` and `Spectra` say what the
  output should be, independently of any ring; `PartConvProof` and `PartConvRun` carry an invariant through every call of
  every run. Main results: `PartConvRun.PartitionedConvolution` and, for a whole run of the object, `PartConv.ConvolveBlocks`.
- **Formant filters** (`autotune~`): `WarpedLattice` is the lattice and the solution of its delay-free loop,
  `FormantFilters` runs of the pre-filter and the post-filter, `FormantCorrector` the in-place code with its rings, `FormantRuns`
  runs of it with the coefficients it adapts by itself. Main results: `FormantFilters.PostUndoesPre`,
  `FormantFilters.DelayedRoundTrip` and `FormantRuns.Correct`.
- **Scale conversion and pitch correction** (`autotune~`): `ScaleConversion`. Main results: `RoundTrip`,
  `RoundTripFromScale`, `Retune`.
- **Lattice analysis and synthesis** (`lpc~`, `lpreson~`): `Lattice` the loops and their round trip, `LatticePredictor` which
  filter they are. Main results: `Lattice.RoundTrip`, `LatticePredictor.ResidualIsPredictionError`.
- **Worker-thread handshake** (`disis_wiimote`): `Handshake`, a state machine whose steps are single loads, stores, locks,
  signals and sends of one worker and any number of handlers. Main results: `NoLostUpdate`, `CatchesUp`, `Delivered`.
- **Granulator and envelope** (`disis_munger~`): `RecordRing`, `GrainClearance`, `Munger`, `Envelope`.
- **Number generators** (`random_icg`, `random_fl`): `InversiveGenerator` in wrapping 32-bit arithmetic, `DoubleGenerator`
  in rounded IEEE doubles; `Words` and `Division` are their arithmetic.
- **Flocking** (`boids2d`): `Neighbors` is the k-nearest search, `Flight` the step of the whole flock, `FlightRules` what that
  step does to a boid, without its formulas. Main results: `Flight.FlightStep`, `FlightRules.WallsNeverPushOut`,
  `FlightRules.TellsFrontExactly`.

Samples, times and pitches are mathematical reals. `Samples` and `RealSums` hold what all modules share: silence, truncation,
finite sums. A method that runs the code's loops is always proved equal to a function, and the properties are proved about that
function.

## Where the code falls short of its promise

Each of these is proved; where a promise holds in part, the condition given is exact.

- `lpc~` drops a block whose first coefficient is inside its gate of 1e-5, and sends zeros: the round trip holds if and only if
  the gate is open or the block is silent (`Lattice.RoundTrip`, `Lattice.GateDropsBlock`).
- The formant post-filter outputs zero where its lattice has gain zero: a run comes back if and only if every sample has gain
  or is zero (`FormantFilters.PostUndoesPre`; `FormantFilters.LostSample` for given coefficients). Coefficients between -1 and 1 are
  enough (`FormantFilters.StableRunRecovers`), but nothing in the code bounds them, and the pre-filter's own adaptation leaves that
  range: for every warp there is a run of two samples that adapts a gain of zero when the averages keep nothing
  (`FormantRuns.EveryWarpLoses`); with averages that keep a tenth the gain changes its sign between two samples
  (`FormantRuns.GainChangesSign`). `FormantRuns.TwoSamples` says exactly which runs of two samples are lost. Whether the two
  constants that belong to one sampling rate can meet a gain of exactly zero is not decided here. With a formant warp the filters
  differ (`FormantFilters.WarpZero`).
- `rand_random_icg` leaves the congruential sequence by 1190 whenever its sum does not fit in an int
  (`InversiveGenerator.StepIsCongruential`), as it does from the seed 22359 (`InversiveGenerator.StepRunsOver`). Its comparison
  `state >= state` always holds, so P is always taken from a result that is not negative.
- A grain can run into the record head (`GrainClearance.SmallestGrainCollides`). It keeps clear of it for every start if and only if
  it has room, case by case (`GrainClearance.ClearForEveryStart`), and a setting keeps every grain clear, whatever size and start are
  drawn, if and only if its longest grain has room (`GrainClearance.ClearForEveryDraw`). That the smallest grain fits, and three of
  the largest fill at most the buffer, is enough (`GrainClearance.FitHasRoom`) but not needed (`GrainClearance.ClearWithoutFitting`).
  A grain less than one sample behind the head hears the newest sample mixed with the oldest (`RecordRing.ReadAtSeam`).
- Grains come about twice as often as asked: with a distance of g samples set, the next begins g / 2 + 1 samples after the last,
  because the time counter is counted up twice in a sample (`Munger.GrainDistance`).
- The flock steers to a centre that is one step old (`Flight.CenterLags`), because the centre is taken before positions are saved.
- What counts as in front of a boid is decided by a line that its comment calls perpendicular to the direction, but that is the
  direction mirrored. A boid that does not fly along an axis tells front from back if and only if it flies along a diagonal
  (`FlightRules.TellsFrontExactly`); which side counts is said by `FlightRules.InFrontExactly`.
- The flag for snapping upwards in the pitch correction has no influence (`ScaleConversion.Correct`).
- An attachment numbered 5 also asks for the classic controller, because its case runs on into the next
  (`Handshake.PlanLeaves`).

## Model

| member | source | states |
|---|---|---|
| PartConvRun.PartitionedConvolution | externals/bsaylor/partconv~.c:135-240 | Sample i of call m of a freshly prepared object is the direct linear convolution of the whole input with the used impulse response, P - n samples late; every call is safe |
| PartConvRun.RunIsConvolution | externals/bsaylor/partconv~.c:135-240 | The same from any state of which the run invariant holds |
| PartConvRun.PlayInvariant | externals/bsaylor/partconv~.c:161-237 | Over every run the invariant holds after every call: which call of which cycle it is, what is gathered, which partial sum each ring slot holds, what the finished slots show |
| PartConvRun.Step | externals/bsaylor/partconv~.c:161-237 | One call keeps the invariant and outputs the overlap-add of its cycle, whether it completes a block, continues a cycle, or comes before the first |
| PartConvProof.ConvolveSlots | externals/bsaylor/partconv~.c:189-216 | A call's convolutions add each partition dealt to it to the slot at its distance from the current one, once, and leave every other slot alone |
| PartConvProof.BeginStep | externals/bsaylor/partconv~.c:163-187 | A new cycle advances the ring: the slot cleared is the one read out, the one before stays readable, and every slot holds the partial sum for its new distance |
| PartConvProof.BeginRing | externals/bsaylor/partconv~.c:180-186 | Where every slot of the ring goes when a cycle begins |
| PartConvProof.FirstCall | externals/bsaylor/partconv~.c:189-225 | In the first call the current slot receives its last partition before it is transformed back; it then shows exactly the sum over p of block t-p times partition p |
| PartConvProof.NoClamp | externals/bsaylor/partconv~.c:189-192 | With a constant block size the clamp of endpart never fires |
| PartConvProof.DealConserves | externals/bsaylor/partconv~.c:95-119 | The dealt shares sum to the number of partitions, differ by at most one, and the first call gets work when there is any |
| PartConvProof.MixedIsOverlapped | externals/bsaylor/partconv~.c:227-233 | The scaled sum of two inverse transforms in the output loop is the overlap-add of the partitioned convolution |
| PartConvProof.InvariantReady | externals/bsaylor/partconv~.c:161-237 | The invariant suffices for a call to stay inside every buffer |
| Convolution.PartitionedIsLinear | externals/bsaylor/partconv~.c:218-233 | Partitioned, zero-padded, circular and overlap-added convolution is plain convolution |
| Convolution.CircularIsLinear | externals/bsaylor/partconv~.c:175-176 | Because both halves are padded, circular convolution of a block with a partition does not wrap |
| Convolution.OverlapAdd | externals/bsaylor/partconv~.c:227-233 | First half of a block's result plus second half of the block before make the taps of one partition |
| Convolution.PartCountCovers | externals/bsaylor/partconv~.c:289-294 | The number of partitions covers the response, up to 256 partitions of it |
| Convolution.UsedPrefix | externals/bsaylor/partconv~.c:289-294 | A response of up to 256 partitions is used whole, a longer one exactly up to there |
| Spectra.FourPointIsTransform | externals/bsaylor/partconv~.c:300-318 | The assumptions made of the transforms (linear, convolution theorem with gain) can be met, with several calls in a cycle: the four-point discrete Fourier transform meets them |
| PartConv.DealWork | externals/bsaylor/partconv~.c:95-119 | The dealing loop gives every call its share, round robin |
| PartConv.ShareNext | externals/bsaylor/partconv~.c:109-113 | One more partition changes exactly one share, the next in turn |
| PartConv.MultiplyAdd | externals/bsaylor/partconv~.c:198-213 | The bin loop adds the complex products of two spectra to the accumulator |
| PartConv.PrepareResponse | externals/bsaylor/partconv~.c:296-310 | The partitions of the response, padded and transformed |
| PartConv.Convolver.Set | externals/bsaylor/partconv~.c:289-340 | After preparation the object is in the start state: silent ring, dealt work, transformed response, no shared buffers |
| PartConv.Convolver.Convolve | externals/bsaylor/partconv~.c:189-216 | The loop over the partitions of a call, on the ring of arrays |
| PartConv.Convolver.StartCycle | externals/bsaylor/partconv~.c:163-187 | Starting a cycle in place |
| PartConv.Convolver.Output | externals/bsaylor/partconv~.c:227-237 | The output loop, the read positions and the call count |
| PartConv.Convolver.Perform | externals/bsaylor/partconv~.c:135-240 | The in-place call is the model's call, in state and in output |
| PartConv.ConvolveBlocks | externals/bsaylor/partconv~.c:135-340 | Preparing an object and performing any list of blocks one after the other outputs the linear convolution of everything that came in, P - n samples late |
| WarpedLattice.StageAffine | externals/autotune/autotune~.c:1310-1323 | The lattice is affine in its input, with a slope that does not depend on the registers |
| WarpedLattice.SolvedIsInverse | externals/autotune/autotune~.c:1293-1333 | The solution from 0-response and 1-response is the only input that gives the residual; it is 0 where the gain is 0 |
| WarpedLattice.SolvedOutput | externals/autotune/autotune~.c:1325-1344 | The third pass ends exactly at the given residual, whenever the gain is not 0 |
| WarpedLattice.StableGain | externals/autotune/autotune~.c:1327-1333 | With coefficients and warp between -1 and 1 the denominator is never 0 |
| WarpedLattice.AllPassKeepsEnergy | externals/autotune/autotune~.c:754-756 | The warped section of every stage neither adds nor loses energy: what goes in comes out or is stored for the next sample |
| WarpedLattice.UnwarpedIsLattice | externals/autotune/autotune~.c:754-764 | Without warping the stages are those of the lattice of lpc~, with coefficients of the other sign |
| WarpedLattice.UnwarpedShifts | externals/autotune/autotune~.c:754-764 | And so are the registers it keeps |
| FormantFilters.PostUndoesPre | externals/autotune/autotune~.c:749-766 | From equal registers and with the same coefficients, the post-filter returns the pre-filter's input and ends in equal registers if and only if every sample has gain or is zero |
| FormantFilters.StableRunRecovers | externals/autotune/autotune~.c:1286-1345 | With stable coefficients every run comes back, and the registers stay equal |
| FormantFilters.LostSample | externals/autotune/autotune~.c:1328-1333 | A concrete sample that is lost, with given coefficients |
| FormantFilters.WarpZero | externals/autotune/autotune~.c:707-708 | The two filters are warped alike exactly when the warp setting is zero |
| FormantFilters.WarpStretches | externals/autotune/autotune~.c:707-708 | The warp setting multiplies the ratio of 1 + lam to 1 - lam by two to the power of half of it, and the result stays between -1 and 1 |
| FormantFilters.DelayedRoundTrip | externals/autotune/autotune~.c:1285-1345 | Delayed together with its coefficients, the residual comes back as the input, just as late, if and only if every sample is recoverable |
| FormantCorrector.WalkIsStage | externals/autotune/autotune~.c:752-765 | The adaptive pre-filter, which computes each coefficient on the way, is the lattice with the coefficients it ends up with |
| FormantCorrector.AdaptedAt | externals/autotune/autotune~.c:753-762 | What coefficient each stage gets from the averages it had, and that it is the one stored |
| FormantCorrector.AverageLaws | externals/autotune/autotune~.c:753-762 | Power, cross power and stored coefficient of every stage each move the share 1 - alph of the way: to the square of the upper signal, to its product with the section's output, and to the quotient of the two averages |
| FormantCorrector.CoefficientLaw | externals/autotune/autotune~.c:759-761 | The law of the stored coefficient, written out |
| FormantCorrector.PostFilter | externals/autotune/autotune~.c:1294-1345 | The three passes in place return the solution and shift the registers |
| FormantCorrector.WriteColumn | externals/autotune/autotune~.c:762-780 | Writing a column keeps the last columns in the ring |
| FormantCorrector.ReadColumn | externals/autotune/autotune~.c:1285-1285 | Two places past the write index lies the column of size - 3 samples before the last one |
| FormantCorrector.Corrector.PreFilter | externals/autotune/autotune~.c:751-780 | One sample of the pre-filter: residual, registers, averages and both rings |
| FormantCorrector.Corrector.DelayedResidual | externals/autotune/autotune~.c:1285-1285 | Where the coefficients of size - 3 samples back are read, the residual ring holds the residual of that sample |
| FormantCorrector.Corrector.PostSample | externals/autotune/autotune~.c:1285-1345 | One sample of the post-filter, with the delayed coefficients |
| FormantRuns.TrainedRegisters | externals/autotune/autotune~.c:752-765 | The coefficients that a run adapts are given coefficients for the pre-filter, with the same registers |
| FormantRuns.CoefficientSettles | externals/autotune/autotune~.c:759-761 | While its quotient stays at q, the coefficient stored after n samples from rest is q times 1 - alph^n |
| FormantRuns.PowerSettles | externals/autotune/autotune~.c:753-753 | Under samples of constant power, the power of the first stage after n of them is that power times 1 - alph^n |
| FormantRuns.Correct | externals/autotune/autotune~.c:1285-1345 | A run of the corrector with nothing between its filters gives the input back, size - 3 samples late, if and only if every sample that has come through is recoverable with the coefficients adapted to it |
| FormantRuns.TwoSamples | externals/autotune/autotune~.c:753-762 | From rest, with one stage, two samples are lost if and only if a sample that is not zero meets an adapted coefficient that is the warp's inverse |
| FormantRuns.EveryWarpLoses | externals/autotune/autotune~.c:753-762 | For every warp and every last sample there is a first sample from which adaptation loses the run, when the averages keep nothing of their old values |
| FormantRuns.GainChangesSign | externals/autotune/autotune~.c:753-762 | With averages that keep a tenth, the adapted gain is negative for one last sample and positive for another |
| ScaleConversion.BuildTables | externals/autotune/autotune~.c:674-699 | The tables list the selected notes in order and undo each other; with no note selected, all are |
| ScaleConversion.NoteOfDegree | externals/autotune/autotune~.c:676-685 | Over all octaves, the note at a selected semitone's degree is that semitone |
| ScaleConversion.DegreeOfNote | externals/autotune/autotune~.c:676-685 | Over all octaves, the note at every degree is selected and has that degree |
| ScaleConversion.SearchDown | externals/autotune/autotune~.c:1083-1086 | The search for the next lower note terminates at the nearest one, in the octave below if need be |
| ScaleConversion.SearchUp | externals/autotune/autotune~.c:1087-1090 | The search for the next higher note terminates at the nearest one |
| ScaleConversion.ToScale | externals/autotune/autotune~.c:1062-1096 | The conversion to scale notes gives the degree of the note below plus the fraction of the way to the next |
| ScaleConversion.PlacedBetween | externals/autotune/autotune~.c:1091-1095 | The two notes found are neighbours in the scale, enclose the pitch, and the whole part is the lower one's degree |
| ScaleConversion.FromScale | externals/autotune/autotune~.c:1167-1179 | The conversion back follows the straight line between neighbouring notes |
| ScaleConversion.RoundTrip | externals/autotune/autotune~.c:1062-1179 | Semitones to scale notes and back is the identity, for every selection and every pitch in range |
| ScaleConversion.RoundTripFromScale | externals/autotune/autotune~.c:1062-1179 | Scale notes to semitones and back is the identity, too: the conversions are inverse bijections |
| ScaleConversion.InterpolatedIncreases | externals/autotune/autotune~.c:1167-1179 | The conversion back is strictly increasing |
| ScaleConversion.PlacedFrom | externals/autotune/autotune~.c:1091-1096 | Exactly the pitches from a degree's note on are converted to that degree or above |
| ScaleConversion.SnapFlags | externals/autotune/autotune~.c:1067-1081 | When either flag is set: an unselected neighbour, or a note marked for snapping |
| ScaleConversion.Correct | externals/autotune/autotune~.c:1098-1120 | The correction blends towards the wave between the two notes exactly when the lower flag is set |
| ScaleConversion.Retune | externals/autotune/autotune~.c:1062-1179 | Correction of any strength moves a pitch by exactly that share of the way that full strength would, in scale notes, and so keeps it between the two selected notes around it; it leaves it alone with nothing to snap to |
| ScaleConversion.Corrected | externals/autotune/autotune~.c:1062-1120 | The corrected pitch in scale notes: the share `amount` between where the pitch is and where full strength moves it |
| ScaleConversion.BlendShare | externals/autotune/autotune~.c:1119-1119 | What that share is: amount times the way, with 1 - amount of it left to go |
| ScaleConversion.StrengthIncreases | externals/autotune/autotune~.c:1119-1179 | More strength moves the result further towards that of full strength, in semitones as well, and strictly so unless the pitch is there already |
| ScaleConversion.TargetSwing | externals/autotune/autotune~.c:1098-1117 | Within the transition the target follows the wave at the share of the transition come, which is narrower the further the notes are apart |
| ScaleConversion.SnapsToMarked | externals/autotune/autotune~.c:1067-1081 | With notes marked -1, 0 or 1 there is something to snap to exactly next to an unselected note or above one marked 1 |
| ScaleConversion.SnapsExactly | externals/autotune/autotune~.c:1098-1120 | At full strength a pitch outside the transition between two notes ends exactly on the nearer note, however far apart they are |
| ScaleConversion.ReachOfCorrection | externals/autotune/autotune~.c:1099-1099 | For every scale the correction reaches every pitch from 128 semitones below the reference on |
| Lattice.Analyze | externals/ekext/lpc~.c:141-157 | The analysis loop in place, residual and memory |
| Lattice.Synthesize | externals/ekext/lpreson~.c:69-82 | The synthesis loop in place, output and memory |
| Lattice.SynthesisUndoesAnalysis | externals/ekext/lpreson~.c:69-82 | For every order, list and block, synthesis of the residual gives the block, with equal memories |
| Lattice.AnalysisUndoesSynthesis | externals/ekext/lpc~.c:141-157 | Analysis of the synthesis gives the residual, with equal memories |
| LatticePredictor.ResidualIsPredictionError | externals/ekext/lpc~.c:141-157 | The residual is the error of the linear predictor that the step-up recursion makes of the reflection coefficients, at every sample of every block |
| LatticePredictor.StagesPredict | externals/ekext/lpc~.c:145-156 | After every stage the two signals are the errors of the predictor of that order, forwards and backwards |
| LatticePredictor.PredictorEnds | externals/ekext/lpc~.c:145-156 | A predictor of order i has i + 1 coefficients, the first of which is one |
| Lattice.PerformLpc | externals/ekext/lpc~.c:135-168 | What lpc~ sends on for a block: its coefficients and residual, or the last ones and silence |
| Lattice.PerformLpreson | externals/ekext/lpreson~.c:63-82 | What lpreson~ makes of what it receives, from silent memory |
| Lattice.RoundTrip | externals/ekext/lpc~.c:135-167 | lpc~ into lpreson~ gives back the block if and only if its first coefficient is beyond 0.00001 on either side, or the block silent |
| Lattice.GateDropsBlock | externals/ekext/lpc~.c:135-167 | A concrete block that is lost |
| Handshake.StepKeepsInvariant | externals/disis/disis_wiimote.c:687-696 | Every step of the worker or a handler keeps the invariant: mutex, what was sent, and that a compared field is current or a handler is about to signal |
| Handshake.NoLostUpdate | externals/disis/disis_wiimote.c:920-969 | In every reachable state where the worker is blocked and no handler is between its store and its signal, the device was told every requested value |
| Handshake.MutualExclusion | externals/disis/disis_wiimote.c:930-966 | No two parties hold the mutex in any reachable state |
| Handshake.NeverStuck | externals/disis/disis_wiimote.c:924-969 | While the device lags behind, the worker or a handler under way can take a step |
| Handshake.CatchesUp | externals/disis/disis_wiimote.c:929-967 | With no handler under way the worker blocks within 28 of its steps, and then the device has every requested value |
| Handshake.PlanLeaves | externals/disis/disis_wiimote.c:856-894 | The loads and stores of an undisturbed handler leave what was requested, bit by bit |
| Handshake.Delivered | externals/disis/disis_wiimote.c:971-980 | A message handled while no other handler stores has reached the device when the worker is blocked again |
| RecordRing.RingNext | externals/disis/disis_munger.c:1495-1502 | Writing at the head keeps the latest samples in the ring |
| RecordRing.GetSamp | externals/disis/disis_munger.c:1518-1541 | Reading at any real position, through both wrap loops, mixes the two neighbouring places on the circle |
| RecordRing.ReadAtLag | externals/disis/disis_munger.c:1518-1541 | At a lag of 1 to the buffer's length the history is heard, linearly interpolated, across every wrap |
| RecordRing.StraightLine | externals/disis/disis_munger.c:1530-1539 | Samples on a straight line are heard as that line, at every position between them |
| RecordRing.ReadAtSeam | externals/disis/disis_munger.c:1530-1539 | At a lag below 1 the newest sample is mixed with the oldest |
| GrainClearance.NewSize | externals/disis/disis_munger.c:952-961 | A grain has the drawn size if that is between the limits and stretched by its speed as well; the smallest if less was drawn; otherwise the largest that keeps to both upper limits, or the smallest where that does not |
| GrainClearance.SizeRuleDecides | externals/disis/disis_munger.c:952-961 | That rule leaves exactly one size for every draw |
| GrainClearance.SizeMonotone | externals/disis/disis_munger.c:952-961 | Who draws more gets no less |
| GrainClearance.StartsSpread | externals/disis/disis_munger.c:1036-1111 | Random and fixed starts spread over a third of the buffer, from the head, from a third behind it, or so that a fast grain ends its size behind it |
| GrainClearance.AlwaysFits | externals/disis/disis_munger.c:952-961 | Every draw fits exactly when the smallest grain does |
| GrainClearance.GrainsKeepClear | externals/disis/disis_munger.c:1033-1116 | Every sample of a fitting grain lags the head by 0 to the buffer's length, in all cases of direction, speed, position and recording |
| GrainClearance.ClearForEveryStart | externals/disis/disis_munger.c:1033-1116 | For every speed, size, direction and position, recording or not, a grain keeps clear for every random start if and only if it has the room that its case needs |
| GrainClearance.ClearForEveryDraw | externals/disis/disis_munger.c:952-1116 | A setting keeps every drawn size and start clear if and only if the longest grain that it can draw has room |
| GrainClearance.FitHasRoom | externals/disis/disis_munger.c:966-968 | When the smallest grain fits and three of the largest fill at most the buffer, there is room |
| GrainClearance.ClearWithoutFitting | externals/disis/disis_munger.c:952-961 | A setting that keeps every grain clear although its smallest grain does not fit |
| GrainClearance.FastForwardClear | externals/disis/disis_munger.c:1041-1045 | The condition in the tightest case, in terms of what the grain gains on the head |
| GrainClearance.SmallestGrainCollides | externals/disis/disis_munger.c:952-961 | A concrete grain that runs into the head when the smallest grain does not fit |
| Munger.FadeOut | externals/disis/disis_munger.c:1503-1514 | Recording turned off fades over a thousand samples and then stops |
| Munger.FadeIn | externals/disis/disis_munger.c:1503-1514 | Recording turned on fades in over a thousand samples and stays on |
| Munger.StartOffset | externals/disis/disis_munger.c:1036-1111 | The start position by position mode, recording, direction and speed |
| Munger.AdvancedInPlace | externals/disis/disis_munger.c:1693-1705 | After a sample a voice is where its grain should be relative to the head |
| Munger.GrainLife | externals/disis/disis_munger.c:1693-1703 | A grain sounds for exactly its size in samples, but at least one, each a step of its speed after the one before |
| Munger.NewGrainClear | externals/disis/disis_munger.c:969-1116 | A new grain keeps clear when its setting has room at its speed |
| Munger.GrainAsDrawn | externals/disis/disis_munger.c:951-974 | A new grain goes the way and at the speed drawn, and has the whole samples of the size by rule |
| Munger.LoudnessShape | externals/disis/disis_munger.c:896-907 | A grain starts silent, is never louder than full level, and fades out as it faded in; its ramps take the length set, or half the grain where that is less |
| Munger.ShapedLevel | externals/disis/disis_munger.c:896-907 | A sample sounds at the gain between the ramps, and by n / ramp of that n samples after the start or before the end |
| Munger.Envelope | externals/disis/disis_munger.c:896-907 | The ramps of a grain, applied to a sample |
| Munger.GrainDistance | externals/disis/disis_munger.c:1648-1663 | With a distance of g samples set, the next grain begins exactly g / 2 + 1 samples after the last |
| Munger.Granulator.RecordSamp | externals/disis/disis_munger.c:1495-1516 | Recording one sample extends the history by the sample at the level of the ramp |
| Munger.Granulator.FindVoice | externals/disis/disis_munger.c:910-919 | The first voice that is off, or none |
| Munger.Granulator.NewSetup | externals/disis/disis_munger.c:969-1116 | A grain starts at its offset behind the head, modulo the buffer |
| Munger.Granulator.Schedule | externals/disis/disis_munger.c:1646-1663 | When a grain is due, which voice it gets, and the time counter |
| Munger.Granulator.PlayVoice | externals/disis/disis_munger.c:1668-1703 | One sample of a voice with its ramps and gain, its advance and its end; a voice so played lives as GrainLife says |
| Munger.Granulator.Tick | externals/disis/disis_munger.c:1618-1719 | One sample of the object: while recording stays as it is, every tracked voice, and every new grain that stays clear, sounds the history at its lag and stays tracked; no voice that plays is started anew, and every one that plays ages by a sample |
| Munger.Granulator.Run | externals/disis/disis_munger.c:1618-1719 | Over a run, whatever else begins, a voice that has a grain to begin with is on after n samples if and only if n is less than its size, and is where its speed takes it; while recording is steady, each of its samples is the history at the lag of that sample, shaped |
| Munger.Granulator.constructor | externals/disis/disis_munger.c:461-469 | A new object has a silent ring |
| Envelope.RunInRange | externals/disis/ADSR.c:3-47 | Over every run of ticks, keys and allowed settings the value stays in 0 to 1 |
| Envelope.NoteLength | externals/disis/disis_munger.c:1706-1714 | A note keyed on from silence and released at sustain is in each stage for exactly its time rounded up to samples, then idle |
| Envelope.NoteLife | externals/disis/disis_munger.c:1706-1714 | A note's voice sounds for exactly its size in samples, but at least one and no longer than its envelope lasts |
| Envelope.AttackStage | externals/disis/ADSR.c:7-15 | The value at every sample of the attack, from any value below its target |
| Envelope.DecayStage | externals/disis/ADSR.c:17-36 | The value at every sample of the decay, from above or below |
| Envelope.ReleaseStage | externals/disis/ADSR.c:38-45 | The value at every sample of the release |
| Envelope.KeyedOnAgain | externals/disis/ADSR.c:80-84 | A note keyed on again goes on rising from where it is to the target set, or to full level; at the target or above, it falls to it within a sample |
| Envelope.TargetReached | externals/disis/ADSR.c:173-184 | A target set is reached in equal steps, up or down, within the way divided by the rate, and then held |
| Envelope.Adsr.Tick | externals/disis/ADSR.c:3-47 | The tick in place, and its output in range |
| Envelope.Adsr.PlayVoice | externals/disis/disis_munger.c:1706-1714 | One sample of a note's voice in place: tick, release at sustain, end |
| Envelope.Adsr.KeyOff | externals/disis/ADSR.c:86-97 | The release rate follows the value that is released |
| Envelope.Adsr.SetAllTimes | externals/disis/ADSR.c:164-171 | The rates from the times, in the code's order |
| InversiveGenerator.Inverse | externals/cxc/random_icg.c:62-87 | In mixed signed and unsigned 32-bit arithmetic, the result times the number is their greatest common divisor modulo p, and lies below p |
| InversiveGenerator.BalancedNext | externals/cxc/random_icg.c:71-79 | Every round keeps the coefficients, scaled by the remainders, adding up to p |
| InversiveGenerator.NextExact | externals/cxc/random_icg.c:76-76 | The wrapping expression gives the exact coefficient whenever that fits in an int |
| InversiveGenerator.GcdIsGreatest | externals/cxc/random_icg.c:71-79 | What the remainders end with is the greatest common divisor |
| InversiveGenerator.TermIsProduct | externals/cxc/random_icg.c:50-50 | Schrage's term is the product modulo P, and lies between -P and P |
| InversiveGenerator.Step | externals/cxc/random_icg.c:30-58 | The step in wrapping arithmetic |
| InversiveGenerator.StepIsCongruential | externals/cxc/random_icg.c:50-57 | The step continues the generator if and only if the sum fits in an int; otherwise it is off by 1190 |
| InversiveGenerator.StepFromCoprime | externals/cxc/random_icg.c:48-57 | From a coprime seed the step starts from its true inverse, and the same condition decides |
| InversiveGenerator.StepRunsOver | externals/cxc/random_icg.c:48-57 | The seed 22359 is coprime to P, has one inverse, and its step is off by 1190 |
| DoubleGenerator.Random | externals/cxc/random_fl.c:28-47 | In doubles rounded to nearest, the step is exactly (1389796 * seed) mod (2^31 - 1), for every 32-bit seed |
| DoubleGenerator.QuotientRounds | externals/cxc/random_fl.c:44-44 | The rounded quotient never reaches the next whole number |
| DoubleGenerator.LcgInjective | externals/cxc/random_fl.c:42-46 | Different seeds go to different states, and only multiples of M to zero |
| DoubleGenerator.OrbitAvoidsZero | externals/cxc/random_fl.c:42-46 | An orbit meets zero if and only if it starts at a multiple of M |
| Neighbors.InsertSlot | externals/boids/boids2d.c:698-709 | The insertion from the bottom, whatever the place below the first holds |
| Neighbors.FindNeighbors | externals/boids/boids2d.c:671-712 | The scan, and that its special case for one neighbour is the general one |
| Neighbors.ScannedNearest | externals/boids/boids2d.c:671-712 | The places hold true distances in order, nearest first and earlier boids first, without oneself; whoever is left out comes after a full row |
| Neighbors.NearestIsClosest | externals/boids/boids2d.c:671-712 | No boid left out is closer than one selected, and no boid is selected twice |
| Neighbors.DistSqrIsDistance | externals/boids/boids2d.c:955-962 | What is compared is the square of the distance: symmetric, the square of the way along an axis, added up over the legs |
| Neighbors.DistSqrSign | externals/boids/boids2d.c:955-962 | It is zero for the same place only, and positive otherwise |
| Flight.FindFlockCenter | externals/boids/boids2d.c:639-655 | The centre of the positions saved in the step before |
| Flight.MatchAndAvoid | externals/boids/boids2d.c:658-774 | Search and influence of the neighbours, place by place |
| Flight.InfluencesSum | externals/boids/boids2d.c:725-747 | Over the places for neighbours, directions are summed, near neighbours push away and are counted, and the others do not push |
| Flight.InfluencesSpeed | externals/boids/boids2d.c:748-760 | The speed is scaled up once for every place that multiplies it and down once for every one that divides it |
| FlightRules.WallsPush | externals/boids/boids2d.c:788-810 | The walls push a boid inwards, as hard as it flies along that axis, exactly when the point it looks ahead to is beyond them, and not at all between |
| FlightRules.WallsNeverPushOut | externals/boids/boids2d.c:599-613 | With a weight that is not negative the walls never turn a boid further out than the other forces do, and with a positive one they turn it inwards |
| FlightRules.WallsTurnBack | externals/boids/boids2d.c:599-620 | Where only the walls have weight, a boid that flies out is turned if and only if they weigh as much as the square of the inertia |
| FlightRules.SeeksCenter | externals/boids/boids2d.c:777-785 | A boid is drawn by a unit vector straight to the mean of the positions saved before, and by one straight to the point of attraction |
| FlightRules.NeighborForces | externals/boids/boids2d.c:725-773 | The neighbours' directions are summed, to length one if any is near, and the pushes of the near ones averaged |
| FlightRules.PushesAway | externals/boids/boids2d.c:735-744 | A near neighbour pushes straight away, by its distance and the preferred distance together |
| FlightRules.StepDirection | externals/boids/boids2d.c:601-620 | Inertia times the old direction, plus every force by its own weight and the inverse of inertia, brought to length one |
| FlightRules.StepSpeed | externals/boids/boids2d.c:622-629 | The new speed is the one within the limits that is nearest to what the neighbours give, or to zero without any |
| FlightRules.StepMoves | externals/boids/boids2d.c:631-633 | A boid moves along its new direction by its speed times the speedup in percent |
| FlightRules.InFrontExactly | externals/boids/boids2d.c:840-862 | Which points count as in front of a boid that does not fly along an axis |
| FlightRules.TellsFrontExactly | externals/boids/boids2d.c:828-862 | All that lies ahead counts as in front and nothing behind does, if and only if the boid flies along a diagonal |
| FlightRules.VerticalTellsFront | externals/boids/boids2d.c:863-878 | For a boid that flies straight up or down, what lies ahead is what counts as in front |
| Flight.Steer | externals/boids/boids2d.c:589-635 | One boid in place changes that boid only, to what the rules below say |
| Flight.FlightStep | externals/boids/boids2d.c:568-637 | The in-place step gives every boid what a simultaneous step from the saved flock would, which the rules below describe |
| Flight.InOrderIsSimultaneous | externals/boids/boids2d.c:589-637 | Steering in place in any order without repetition gives each boid its simultaneous result |
| Flight.OrderIrrelevant | externals/boids/boids2d.c:589-637 | Any order over all boids gives the simultaneous step |
| Flight.StepFindsNearest | externals/boids/boids2d.c:589-594 | In a step every boid finds its nearest neighbours by the saved positions |
| Flight.CenterLags | externals/boids/boids2d.c:579-588 | The centre is that of the positions before the last move |

## Left out

- Floating point: samples, positions and pitches are reals; only `random_fl` is modelled in rounded doubles, without overflow.
- FFT: the transforms are any linear maps for which the convolution theorem holds with a gain; planning and the SSE and AltiVec
  variants are left out.
- partconv~: at most 256 calls in a cycle and a block size that divides the partition size and stays the same from the first
  call on. A different block size at the time of preparation is covered, a change during a run is not. `next` and `prev` are
  indices into the ring.
- PartConv.Convolver.Set: takes the gathering and transform buffers as silent, where the code leaves them as they were allocated.
- PartConv.Convolver.constructor: models the sizes only; arrays are made when a response is set.
- Spectra.FourPointIsTransform: a witness for partitions of two samples; transforms of other sizes are assumed.
- autotune~: pitch detection, the fragment pitch shifter, LFO, shift, scale rotation, the clamp of the pitch after the conversion
  back (lines 1186-1187) and the fade-in of the formant corrector. The shifter copies its fragments from `cbi`, not from the
  pre-filtered `cbf` (line 1224), so the two filters are run with the delay of their rings between them and nothing else.
- FormantCorrector.Corrector.PreFilter: takes its input after the pre-emphasis of lines 749-750, which the post-emphasis does not undo.
- FormantCorrector.Corrector.PostSample: gives its output before the post-emphasis of lines 1346-1347.
- FormantRuns.EveryWarpLoses: warp and averages are chosen freely, where the code derives both from the sampling rate.
- ScaleConversion.ToScale: pitches from 32 octaves below the reference on, where the code's conversion to an integer still rounds down.
- ScaleConversion.FromScale: the same limit in scale notes; below it the code would index a table with a negative number.
- ScaleConversion.Retune: pitches that reach the correction at -128 scale notes or above, which every pitch from 128 semitones
  below the reference on does (ScaleConversion.ReachOfCorrection). The sine is any function with values from -1 to 1.
- lpc~: the Schur recursion that finds the coefficients; any list is taken as given.
- disis_wiimote: device calls, decoding, shutdown, C memory-model races, and `passthrough`, which the wait test at line 931 does
  not look at. A report mode is the set of its eight bits. Values are sent as they are, without the device call's narrowing to a byte.
- Handshake.Initial: counts the fields at the start as told to the device. A device that is connected again is so taken to have
  the old LED and rumble values, as the worker's own copies do (disis_wiimote.c:924-927).
- disis_munger~: external arrays, panning and one-shot mode, whose notes are modelled as envelopes of their own; random draws are
  parameters.
- Munger.Granulator.Tick: says nothing about voices that were started before recording was turned on or off, which the code does
  not protect either, and mixes one channel.
- Envelope.NoteLength: a note keyed on from silence; a voice that ended by its size starts its next note from where its envelope
  stopped.
- ADSR: the messages printed for negative arguments.
- random_icg: P is a constant here, where the code passes it through a `t_float` that cannot hold it; scaling to the output range.
- random_fl: scaling to the output range.
- boids2d: the float variables inside helpers are reals; what division by zero and the square root give is a parameter, and
  `FlightRules` takes both operations as exact. What counts as in front of a boid that flies exactly along x is decided by a
  division by zero and not modelled.
- beatpipe, sieve, counters, statistics, device, network and file externals: wrappers or easy claims.
