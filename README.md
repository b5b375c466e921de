# pyrex core in Dafny

This project models the computational core of pyrex, a Python package that simulates radio detection of neutrinos in ice. The model covers four parts:

- **Time-domain signals.** A signal is a times array, a values array of the same length and a value type. Signals can be added, shifted to a new times array, and evaluated from a function. The module also has the vector potential and the thermal (Rayleigh) noise signal.
- **The Askaryan pulse models** of the radio pulse emitted by a particle shower. The ZHS and AVZ models are covered by their guards, hadronic-width regimes and time shift. The ARVZ model is covered in full, together with the convolution engine `shower_signal` shared with `FastAskaryanSignal`. That engine samples a charge profile along the shower, convolves it with the vector potential at the Cherenkov angle (R*A_C), re-aligns the result, down-samples it, normalises it and differentiates it.
- **The shower physics**: the Greisen and Gaisser-Hillas charge profiles, R*A_C, and the distance to the shower maximum.
- **Event generation.** This covers the flavour ratio and the choice of particle type, and the base generator's attempt loop with Earth shadowing. It also covers the list generator's cyclic state machine, the file generator's count bookkeeping, the recognition of `.npz` arrays, and the entry and exit points of a rectangular ice volume.

Floats are modelled as reals. A numpy division by zero produces inf or NaN, and `int()` of such a value raises; the model reports both cases as the error `NonFinite`. The transcendental functions (`exp`, `log`, `log10`, `sqrt`, `sin`, `cos`, `pow`) are fields of a `Math` record passed as a parameter. The predicate `Sound()` states the sign facts the proofs use about them. Random draws, Earth-model weights, FFT results and file contents are also parameters.

Modules, one per file: `Common`, `Numerics`, `ArrayOps`, `ShowerProfiles`, `ShowerPulse` (the convolution engine), `Signals`, `Askaryan`, `FastAskaryan`, `ThermalNoise`, `Generation` and `NumpyFiles`.

A note on the code versus its description: the documentation says `shower_signal` returns one sample fewer than the times array. The code as written does not always do so (see Findings). The model follows the code. The flag `aligned = false` selects the code as written, and `aligned = true` selects the corrected re-alignment.

## Model

| member | source | states |
|---|---|---|
| Common.Trunc | pyrex/askaryan.py:506 | Python's `int()` truncates toward zero: it keeps the sign and stays within 1 of its argument, never further from zero |
| ArrayOps.Diff | pyrex/askaryan.py:591 | `np.diff` has one sample fewer than its input and holds the successive differences |
| ArrayOps.Convolve | pyrex/askaryan.py:547 | full convolution has `len(a) + len(b) - 1` samples |
| ArrayOps.ConvolveOfZero | pyrex/askaryan.py:547 | convolving an all-zero profile gives all zeros |
| ArrayOps.StrideOfMultiple | pyrex/askaryan.py:566 | `conv[::d]` of `n*d` samples has exactly `n` samples |
| ArrayOps.StrideScale | pyrex/askaryan.py:566 | down-sampling commutes with scaling |
| ArrayOps.TrapzNonNegative | pyrex/askaryan.py:569 | the trapezoid integral of non-negative samples with a non-negative step is non-negative |
| ArrayOps.TrapzNegate | pyrex/askaryan.py:569 | the trapezoid integral with the step negated is the negated integral |
| ArrayOps.CumSumAt | pyrex/signals.py:396 | sample i of `np.cumsum` is the sum of the first i+1 samples |
| ArrayOps.RollMoves | pyrex/askaryan.py:313 | `np.roll(a, k)` moves sample i to index `(i + k) mod n` |
| ArrayOps.RollInverse | pyrex/askaryan.py:313 | rolling by k and then by -k restores the array |
| ArrayOps.RollCompose | pyrex/askaryan.py:313 | rolling by j and then by k is rolling by j + k |
| ArrayOps.Linspace | pyrex/signals.py:80 | `np.linspace(a, b, n)` has n samples, starts at a and, for n >= 2, ends at b |
| ArrayOps.InterpAtSample | pyrex/signals.py:87-88 | `np.interp` on strictly increasing sample times at a sample time gives that sample's value |
| ArrayOps.InterpBetween | pyrex/signals.py:87-88 | between two neighbouring sample times `xp[k] <= x < xp[k+1]`, `np.interp` gives the straight line `fp[k] + (fp[k+1]-fp[k])/(xp[k+1]-xp[k]) * (x - xp[k])` |
| ArrayOps.InterpOfZero | pyrex/signals.py:128-131 | interpolating zeros gives zero everywhere |
| ArrayOps.Tabulate | pyrex/askaryan.py:517 | evaluating a profile on an array keeps the length and is finite exactly when every point is |
| ShowerProfiles.EmProfileAt | pyrex/askaryan.py:649-710 | the Greisen profile is zero at or below the critical energy and for z <= 0 |
| ShowerProfiles.EmProfilePositive | pyrex/askaryan.py:649-710 | above the critical energy and for z > 0 the Greisen charge is finite and positive; it is never negative |
| ShowerProfiles.EmShowerProfile | pyrex/askaryan.py:649-710 | one charge per depth |
| ShowerProfiles.HadProfileAt | pyrex/askaryan.py:713-776 | the Gaisser-Hillas profile is zero at or below its critical energy and for z <= 0 |
| ShowerProfiles.HadProfilePositive | pyrex/askaryan.py:713-776 | when the depth of the maximum exceeds the interaction length, the charge is finite and positive |
| ShowerProfiles.HadProfileNotFiniteAtLowEnergy | pyrex/askaryan.py:713-776 | between the critical energy and 3.857 times it, the Gaisser-Hillas power has a negative base and a non-integer exponent, so numpy gives NaN |
| ShowerProfiles.HadShowerProfile | pyrex/askaryan.py:713-776 | one charge per depth |
| ShowerProfiles.RacSign | pyrex/askaryan.py:606-646 | R*A_C is negative for a positive energy, zero for zero energy, and linear in the energy |
| ShowerProfiles.Rac | pyrex/signals.py:399-409 | R*A_C evaluated at every time |
| ShowerProfiles.MaxLength | pyrex/askaryan.py:779-808 | a non-positive energy has no finite maximum length (log of zero or of a negative) |
| ShowerProfiles.MaxLengthSign | pyrex/askaryan.py:779-808 | a positive energy has a finite maximum length with the sign of energy minus the critical energy |
| ShowerPulse.SamplingGrid | pyrex/askaryan.py:495-516 | fewer than two times raise IndexError. The grid exists exactly when the maximum length, z_to_t and dt are finite and non-zero. It then has dz*z_to_t*dt_divider = dt, a depth step below a tenth of the maximum length, at least 25 charge samples, and no more than 2.5 maximum lengths of them |
| ShowerPulse.GridFor | pyrex/askaryan.py:506-515 | the grid built from dt, the maximum length and z_to_t satisfies the step and count bounds above |
| ShowerPulse.StepBounds | pyrex/askaryan.py:506-507 | `dt_divider = int(abs(10 dt / L / z_to_t)) + 1` makes the depth step below a tenth of L |
| ShowerPulse.CountBounds | pyrex/askaryan.py:514-515 | a depth step below a tenth of L gives `n_Q >= 25` and `n_Q <= 2.5 L / abs(dz)` |
| ShowerPulse.RacWindow | pyrex/askaryan.py:532-538 | the window's sizes satisfy `n_Q + n_RAC - 1 == n_extra_beginning + len(times)*dt_divider + n_extra_end` |
| ShowerPulse.WindowNonEmpty | pyrex/askaryan.py:534-538 | with increasing times the R*A_C window holds at least two samples |
| ShowerPulse.WindowOverrun | pyrex/askaryan.py:533-538 | a times array starting more than the tolerance + 2.5 abs(L) abs(z_to_t) + 2 dt after t0 gets `n_extra_beginning` past the end of the convolution |
| ShowerPulse.RacTimes | pyrex/askaryan.py:539-540 | the window holds n_RAC times (none if n_RAC <= 0) spaced dz*z_to_t, starting n_extra_beginning steps before t_start |
| ShowerPulse.ChargeDepths | pyrex/askaryan.py:516 | n_Q depths, all non-negative, and positive after the first when dz != 0 |
| ShowerPulse.PadOrTrim | pyrex/askaryan.py:551-560 | the code as written: a window starting past the convolution gives only the `-n_extra_end` zeros |
| ShowerPulse.AlignWindow | pyrex/askaryan.py:551-560 | corrected re-alignment: exactly `len(times)*dt_divider` samples, sample k being convolution sample `begin + k` when it exists and 0 otherwise |
| ShowerPulse.PadOrTrimAligns | pyrex/askaryan.py:551-560 | when the window starts inside (or before) the convolution, the code as written equals the corrected re-alignment |
| ShowerPulse.PadOrTrimOverrun | pyrex/askaryan.py:551-560 | when the window starts past the convolution, the code as written returns more samples than intended, all zero |
| ShowerPulse.Shape | pyrex/askaryan.py:547 | the profile samples as an array of the same length |
| ShowerPulse.SinCherenkov | pyrex/askaryan.py:572 | sin(theta_c) is undefined at n = 0 |
| ShowerPulse.NormalisationFinite | pyrex/askaryan.py:572-579 | the normalisation factor is finite for n^2 > 1 and a non-zero total charge, and undefined (NaN) for n^2 < 1 |
| ShowerPulse.AlignedFieldLength | pyrex/askaryan.py:562-591 | with the corrected re-alignment the field has exactly `len(times) - 1` samples |
| ShowerPulse.AsWrittenFieldLength | pyrex/askaryan.py:551-591 | as written, the field equals the corrected one when the window starts inside the convolution. Otherwise it has at least `len(times)` samples |
| ShowerPulse.DivideBy | pyrex/askaryan.py:591 | division by the viewing distance keeps the length and divides every finite sample |
| ShowerPulse.DivideByScaled | pyrex/askaryan.py:591 | multiplying the distance by k divides every sample by k |
| Signals.FitValues | pyrex/signals.py:24-31 | the values are forced to `len(times)` samples: shorter ones are zero-padded on the right and longer ones truncated |
| Signals.NewSignal | pyrex/signals.py:24-31 | the constructed signal has one value per time; its value at i is the given value, or 0 past the end of the given values |
| Signals.NewSignalKeeps | pyrex/signals.py:24-31 | values of the right length are kept unchanged |
| Signals.Add | pyrex/signals.py:33-51 | adding a non-signal is a TypeError. Between two signals the only error is ValueError: it is raised exactly when the times differ or both value types are defined and differ. Otherwise the values add sample by sample on the shared times, and the value type is the defined one of the two |
| Signals.AddCommutes | pyrex/signals.py:33-51 | signal addition does not depend on operand order |
| Signals.RAdd | pyrex/signals.py:53-60 | only `0 + signal` is supported and returns the signal; anything else is a TypeError |
| Signals.SumSignals | pyrex/signals.py:53-60 | `sum([])` is the number 0 |
| Signals.AddAllSums | pyrex/signals.py:33-51 | adding a run of compatible signals on one times array sums each sample |
| Signals.SumOfSummable | pyrex/signals.py:33-60 | `sum(signals)` of compatible signals on one times array is a signal whose sample i is the sum of the signals' samples i |
| Signals.SumOfMismatchedTimes | pyrex/signals.py:42-43 | summing signals with different times raises ValueError |
| Signals.Dt | pyrex/signals.py:62-68 | dt exists exactly when there are two times and is their spacing |
| Signals.WithTimes | pyrex/signals.py:84-89 | the new signal is on the new times, keeps the value type, and is zero outside the old range. An empty old times array is a ValueError |
| Signals.WithTimesBetween | pyrex/signals.py:84-89 | a new time between two old (increasing) times gets the value on the straight line through their two samples |
| Signals.WithOwnTimes | pyrex/signals.py:84-89 | moving a signal on increasing times to its own times changes nothing |
| Signals.EmptySignal | pyrex/signals.py:123-127 | all values zero, on the given times |
| Signals.EmptyWithTimes | pyrex/signals.py:128-131 | the override gives an empty signal on the new times |
| Signals.EmptyWithTimesAgrees | pyrex/signals.py:128-131 | the override agrees with the general interpolation |
| Signals.EvaluateEach | pyrex/signals.py:139-146 | the per-time fallback loop computes the function at every time |
| Signals.FunctionSignal | pyrex/signals.py:136-148 | value i is the function at time i |
| Signals.FunctionWithTimes | pyrex/signals.py:150-155 | the override re-evaluates the function on the new times |
| Signals.FunctionWithTimesAgreesOnGrid | pyrex/signals.py:150-155 | at old sample times the override agrees with interpolation |
| Signals.VectorPotential | pyrex/signals.py:392-396 | defined exactly when dt is (otherwise `-None` is a TypeError); one sample per value |
| Signals.VectorPotentialAt | pyrex/signals.py:392-396 | sample i is -dt times the sum of the first i values |
| Signals.VectorPotentialInvertsDiff | pyrex/signals.py:392-396 | the vector potential of a field made as `diff(A)` recovers `A - A[0]`, scaled by -dt |
| Signals.SignalObject.Resample | pyrex/signals.py:76-82 | n equal to the length changes nothing. An empty times array raises IndexError and a negative n ValueError, both changing nothing. n = 0 on a non-empty signal empties the times and then raises ValueError from the resampling of the values, which keep their old length. Otherwise the times become n evenly spaced times from the first to the last old time, and the values become the resampled ones |
| Askaryan.ZhsAskaryanSignal | pyrex/askaryan.py:87-142 | angles beyond pi raise ValueError. Zero shower energy gives a zero field. Otherwise a field signal exists exactly when dt is defined and non-zero |
| Askaryan.Epsilon | pyrex/askaryan.py:250-253 | epsilon is undefined (-inf or NaN) exactly for a non-positive hadronic energy |
| Askaryan.HadWidthPositive | pyrex/askaryan.py:254-265 | the hadronic angular width is positive exactly when epsilon >= 0; otherwise it is zero |
| Askaryan.HadWidthContinuousAtSeven | pyrex/askaryan.py:260-265 | above epsilon = 7 the width continues the 5-7 regime's value at 7 |
| Askaryan.HadronicTermIncludedIff | pyrex/askaryan.py:240-290 | the hadronic spectrum is included exactly when there are at least two times with a non-zero step (a zero step makes every frequency infinite and every width zero), the hadronic energy is positive and epsilon >= 0 (a non-zero angular width) |
| Askaryan.AvzAskaryanSignal | pyrex/askaryan.py:220-315 | angles beyond pi raise ValueError; otherwise a field signal on the times exists exactly when dt is defined and non-zero |
| Askaryan.AvzShiftMoves | pyrex/askaryan.py:313 | trace sample i ends up at index `(i + int((t0 - times[0]) / dt)) mod n` |
| Askaryan.ProfileAt | pyrex/askaryan.py:649-776 | the chosen profile vanishes at or below its critical energy |
| Askaryan.ChargeSamples | pyrex/askaryan.py:516-517 | n_Q charge samples |
| Askaryan.ShowerSignal | pyrex/askaryan.py:445-591 | zero energy gives `len(times) - 1` zeros (or fails for an empty times array). Otherwise fewer than two times raise IndexError |
| Askaryan.ShowerSignalLength | pyrex/askaryan.py:445-591 | with the corrected re-alignment every result has exactly `len(times) - 1` samples |
| Askaryan.ShowerSignalAsWritten | pyrex/askaryan.py:551-566 | as written, the result equals the corrected one or has at least `len(times)` samples |
| Askaryan.ShowerSignalBelowCritical | pyrex/askaryan.py:519-522 | below the critical energy the result is `len(times) - 1` zeros |
| Askaryan.ShowerSignalDistance | pyrex/askaryan.py:591 | multiplying the viewing distance by k divides every sample by k, with the same errors |
| Askaryan.BroadcastAdd | pyrex/askaryan.py:440-442 | numpy addition fails (ValueError) exactly when the lengths differ and neither is 1; equal lengths add sample by sample |
| Askaryan.CombineShowers | pyrex/askaryan.py:429-442 | the first error of the two showers is raised; a result is a field signal on the times |
| Askaryan.CombineSums | pyrex/askaryan.py:440-442 | two finite showers of `len(times) - 1` samples add sample by sample, and the signal is padded with one 0 |
| Askaryan.ArvzAskaryanSignal | pyrex/askaryan.py:402-442 | angles beyond pi raise ValueError; a result is a field signal on the times |
| Askaryan.ArvzShowers | pyrex/askaryan.py:416-442 | the same, for given electromagnetic and hadronic energies |
| Askaryan.ArvzSumsShowers | pyrex/askaryan.py:402-442 | with the corrected re-alignment the ARVZ field is the sum of the two showers' fields, padded with one 0 |
| FastAskaryan.FastAskaryanSignal | pyrex/signals.py:268-389 | angles beyond pi raise ValueError and fewer than two times IndexError; a result is on the times and is a field, or else is all zeros of undefined type |
| FastAskaryan.Pulse | pyrex/signals.py:325-389 | the pulse for a non-zero profile is a field signal on the times |
| FastAskaryan.FillSamples | pyrex/signals.py:307-309 | the loop fills one charge per depth, which is the profile at that depth, and the result is finite exactly when every charge is |
| FastAskaryan.FillCharges | pyrex/signals.py:306-309 | the filled charge array is the Greisen profile on the depths |
| FastAskaryan.FillRac | pyrex/signals.py:334-336 | the filled array is R*A_C at every window time |
| FastAskaryan.BuildFastAskaryanSignal | pyrex/signals.py:268-389 | the constructor, step by step, produces exactly `FastAskaryanSignal` |
| FastAskaryan.BuildPulse | pyrex/signals.py:325-389 | the R*A_C loop and the convolution pipeline produce exactly `Pulse` |
| FastAskaryan.FastAskaryanBelowCritical | pyrex/signals.py:313-315 | below the critical energy the signal is `len(times)` zeros of undefined type |
| FastAskaryan.FastAskaryanPadded | pyrex/signals.py:385-389 | with the corrected re-alignment the last field sample is the padding 0 |
| FastAskaryan.FastAskaryanIsShowerSignal | pyrex/signals.py:268-389 | a field signal agrees sample by sample with `shower_signal` of an electromagnetic shower seen from 1 m |
| FastAskaryan.SameCharges | pyrex/signals.py:411-431 | the class's charge profile is the Greisen profile of `shower_signal` |
| ThermalNoise.NumFrequencies | pyrex/signals.py:477-489 | `n_freqs` is used when at least 1; otherwise band x duration, at least 1, truncated. An empty times array needing the duration raises IndexError |
| ThermalNoise.RmsVoltage | pyrex/signals.py:500-508 | a given RMS voltage is used. Without it, both temperature and resistance are needed, else ValueError. With both, a negative 4kTR x bandwidth (NaN under the root) is reported as NonFinite, and otherwise the voltage is non-negative |
| ThermalNoise.MakeNoise | pyrex/signals.py:477-508 | fails exactly when the frequency count or the RMS voltage does: too short a times array for the duration is an IndexError, and a missing RMS voltage without both temperature and resistance a ValueError. Otherwise the frequencies are `linspace(f_min, f_max, N, endpoint=False)` for the N the frequency count gives, the RMS voltage is the one computed above, there is one amplitude and phase per frequency, and the normalisation is sqrt(2/N). Phase k is 2 pi times the k-th uniform draw, so it lies in [0, 2 pi) when the draws lie in [0, 1) |
| ThermalNoise.PartialNoiseBounded | pyrex/signals.py:513-518 | the sum of components is bounded by the sum of absolute amplitudes |
| ThermalNoise.ComponentBounded | pyrex/signals.py:518 | each component is bounded by its amplitude |
| ThermalNoise.NormPositive | pyrex/signals.py:523 | the normalisation sqrt(2/N) is positive |
| ThermalNoise.NoiseValues | pyrex/signals.py:510-529 | the noise function's loop over components gives the noise voltage at every time |
| ThermalNoise.AddComponent | pyrex/signals.py:514-518 | adding component k at a non-zero frequency to the sums of the first k components at every time gives the sums of the first k + 1 |
| ThermalNoise.ThermalNoiseSignal | pyrex/signals.py:461-531 | exists exactly when the noise parameters do; a voltage signal on the times whose value i is the noise at time i |
| Generation.NormalizeRatio | pyrex/generation.py:79 | the ratio has one entry per flavour, each entry times the total is the given share, and a zero total is reported as not finite |
| Generation.RatioSumsToOne | pyrex/generation.py:79 | the normalised ratio sums to 1 |
| Generation.GetParticleType | pyrex/generation.py:156-174 | electron exactly when `r < ratio[0]`; muon exactly when `ratio[0] <= r < ratio[0] + ratio[1]`; tau exactly when `r >= ratio[0] + ratio[1]`. Antineutrino exactly when the second draw reaches 0.78 (electron) or 0.61 (muon, tau). Too short a ratio is an IndexError |
| Generation.FlavourIntervals | pyrex/generation.py:79-174 | for a non-negative three-flavour ratio every draw in [0, 1) gives a particle, and the tau interval has length `ratio[2]` |
| Generation.CreateOutcome | pyrex/generation.py:251-303 | every attempt before the last was shadowed. An event comes from the last attempt's draws, with survival weight 1 when shadowing is on and the drawn weight otherwise. Running out of draws means every attempt was shadowed |
| Generation.BaseGenerator.CreateEvent | pyrex/generation.py:277-303 | returns `CreateOutcome` and raises `count` by the number of attempts, shadowed retries included |
| Generation.NewBaseGenerator | pyrex/generation.py:67-79 | an energy that is neither callable nor a number is a ValueError; otherwise the count starts at 0 and the ratio is normalised |
| Generation.UnshadowedCopiesWeights | pyrex/generation.py:286-292 | without shadowing one attempt suffices and the particle carries both drawn weights |
| Generation.ShadowedRetries | pyrex/generation.py:293-303 | with shadowing, the first unshadowed attempt k is accepted after k+1 attempts, with survival weight 1 and the drawn interaction weight |
| Generation.EntriesOf | pyrex/generation.py:729-733 | a lone value becomes a one-element list |
| Generation.ListNext | pyrex/generation.py:756-782 | not looping and past the end: StopIteration with nothing changed. Otherwise the index advances, and the event is `events[index mod n]` (ZeroDivisionError for an empty list). A returned event raises the count by 1 |
| Generation.LoopingCycles | pyrex/generation.py:781-782 | a looping generator's j-th call returns `events[(index + j) mod n]` |
| Generation.ExhaustedStops | pyrex/generation.py:779-780 | once a non-looping generator is past the end, every call raises StopIteration and leaves the index unchanged |
| Generation.ListGenerator.constructor | pyrex/generation.py:728-740 | the events are the entries, with each particle wrapped in an event; index and additional counts start at 0 |
| Generation.ListGenerator.Count | pyrex/generation.py:742-750 | count is index plus additional counts |
| Generation.ListGenerator.SetCount | pyrex/generation.py:752-754 | after `count = c` the count reads c, and the index and events are unchanged |
| Generation.ListGenerator.CreateEvent | pyrex/generation.py:756-782 | one step of `ListNext` on the generator's state |
| Generation.SumIntsUpdate | pyrex/generation.py:1149 | replacing one file count changes the total by the difference |
| Generation.FileGenerator.constructor | pyrex/generation.py:1017-1027 | one count slot per file plus one, all zero, so the count is 0 |
| Generation.NewFileGenerator | pyrex/generation.py:1017-1027 | an empty file list raises StopIteration from `__init__`; otherwise the generator starts on file 0 with its first chunk and a count of 0 |
| Generation.FileGenerator.SetCount | pyrex/generation.py:1040-1042 | after `count = c` the sum of the file counts is c, and the counts of the files are unchanged |
| Generation.FileGenerator.CreateEvent | pyrex/generation.py:1062-1150 | with events in memory: returns the first, removes it and records its thrown count for the open file, so the count changes by the difference. With none: past the last file, the file index advances and StopIteration is raised with nothing else changed. Otherwise the file index advances when the file is exhausted and the loaded slice replaces the chunk; an empty slice is an IndexError with the counts unchanged, else its first event is returned and counted the same way |
| Generation.IntersectionOnFace | pyrex/generation.py:596-598 | the intersection with a face lies on the particle's line and on the face's plane |
| Generation.CheckBounds | pyrex/generation.py:599-604 | the inner loop finds a point valid exactly when it lies within the bounds of the other two coordinates |
| Generation.VisitFace | pyrex/generation.py:594-610 | a face parallel to the direction is skipped. Otherwise a valid intersection becomes the entry point when `sign*direction[coord] < 0` and the exit point otherwise |
| Generation.GetExitPoints | pyrex/generation.py:586-613 | the face loop computes exactly `ExitPoints` |
| Generation.ScanFaces | pyrex/generation.py:591-613 | the only error is ValueError |
| Generation.ExitPointsAreCrossings | pyrex/generation.py:586-613 | each returned point crosses a face not parallel to the direction. It lies on the line and on the face, within the bounds of the other coordinates. The first point enters and the second leaves |
| Generation.ExitPointsFound | pyrex/generation.py:586-613 | ValueError is raised exactly when the line does not cross both an entry face and an exit face |
| Generation.StillParticleHasNoExitPoints | pyrex/generation.py:594-613 | a zero direction skips every face and raises ValueError |
| NumpyFiles.Lower | pyrex/generation.py:890 | lower-casing keeps the length and maps each letter |
| NumpyFiles.LastMatch | pyrex/generation.py:889-914 | a column is found exactly when some lower-cased name matches it |
| NumpyFiles.ReadNamedTakesLast | pyrex/generation.py:889-914 | reading by names leaves in each column the last array whose name is taken for it |
| NumpyFiles.ReadPositional | pyrex/generation.py:879-887 | the positional layout fails with KeyError exactly when `arr_1`, `arr_2` or `arr_3` is missing |
| NumpyFiles.Check | pyrex/generation.py:915-926 | accepted exactly when the columns are consistent. A missing vertex, direction or energy column is a KeyError, missing ids a TypeError, and unequal lengths a ValueError |
| NumpyFiles.ReadColumns | pyrex/generation.py:878-926 | accepted columns are consistent; the only errors are KeyError, TypeError and ValueError |
| NumpyFiles.NextFile | pyrex/generation.py:868-878 | advances the file index, raising StopIteration exactly past the last file |
| NumpyFiles.PositionalColumns | pyrex/generation.py:879-887 | a file holding `arr_0` is read from `arr_0` to `arr_5` alone |
| NumpyFiles.NamedColumns | pyrex/generation.py:888-926 | a file read by names holds, in each column, the last matching array, and is then checked |
| NumpyFiles.NoEnergiesRefused | pyrex/generation.py:915-918 | a file read by names without an energy-like name is refused with KeyError |

## Left out

- FFT-based operations are not modelled: `spectrum`, `frequencies`, `envelope`, `filter_frequencies`, the values path of `resample`, and the ZHS/AVZ spectrum synthesis with its inverse transforms. They are scipy/numpy floating-point transforms; their results enter the model as parameters (`transform`, `trace`, `resampled`).
- Random numbers (`np.random.rand`) are parameters: the thermal-noise phases come from a `uniform` function, and each generator attempt is a `Draw`.
- The vertex and direction of a generated particle come from subclasses and are parameters. So are the Earth-model weights (`get_weights`), which depend on the ice and Earth models.
- `CylindricalGenerator`, `RectangularGenerator`'s vertex and direction sampling, `SlowAskaryanSignal` and `GaussianNoise` are not modelled: they are other generators and signal classes, not part of this core.
- File reading (`File`, `np.load`) and event construction from file records are not modelled. A file is modelled as its array names and lengths. `FileGenerator` receives each loaded chunk as a parameter. `NumpyFileGenerator.create_event` and `_load_events` are left out.
- Logging is left out.
- `Particle`, `Event`, the interaction models and the ice model are reduced to the fields the core reads.
- Floating-point rounding is not modelled: arithmetic is exact over the reals. inf and NaN are not values of the model. A computation that would produce them is reported as `NonFinite`, and sample arrays that would hold them (`Samples.NotFinite`) keep only their length.
- Generation.NormalizeRatio: a flavour ratio summing to zero gives inf/NaN shares in numpy, which `get_particle_type` would compare; the model reports the ratio as `NonFinite` and `create_event` as failing with it.
- NumpyFiles.Lower: lower-cases ASCII letters only; Python's `str.lower` also folds other Unicode letters.
- Signals.RAdd: the message of the TypeError that `__radd__` raises is not modelled, only its class.
- Signals.SignalObject.Resample: the in-place update of the two arrays is modelled; the identity of the numpy arrays (aliasing) is not.
- Signals.FunctionSignal: assumes the function acts element by element. The source first calls it once on the whole times array and falls back to one call per time only on ValueError or TypeError, so a function that treats an array differently from its elements is not modelled.
- Generation.FileGenerator.CreateEvent: requires that StopIteration has not been raised yet (file index below the number of files). A later call reads the closed `File` object, which is not part of this model. Closing the current file before the StopIteration is also not modelled.
- Generation.FileGenerator.constructor: requires at least one file; the empty list, which raises StopIteration from `__init__`, is modelled by `Generation.NewFileGenerator`.
- Generation.ListGenerator.constructor: the source rewrites the caller's list in place, so the caller sees particles replaced by events; the model builds its own sequence and does not capture that aliasing.
- The two spellings of the field value type (`ValueTypes.field` in the signal module and `Type.field` in the Askaryan module) are treated as the same unit.
- The thermal-noise normalisation sqrt(2/N) is computed once when the noise parameters are made and kept in the `Noise` record. The source recomputes it on each call; the value is the same.
- FastAskaryan.FastAskaryanSignal: for energy 0 the source's `max_length` takes the log of zero and `int()` of the resulting inf raises OverflowError; the model reports it as `NonFinite`.

## Findings

| source | as written | input that shows it | evidently intended | confidence | as-written member | corrected member |
|---|---|---|---|---|---|---|
| pyrex/askaryan.py:551-566 (also pyrex/signals.py:346-361) | When `n_extra_beginning` exceeds the length of the convolution, `convolution[n_extra_beginning:]` is empty and only the `-n_extra_end` padding zeros remain. The down-sampled field then has at least `len(times)` samples instead of `len(times) - 1`, so ARVZ cannot add it to a shower that took an early `np.zeros(len(times)-1)` return | a times array that starts later than t0 + 10 ns + 2.5 abs(max_length) abs(z_to_t) + 2 dt (`ShowerPulse.WindowOverrun`) | the window is read from the convolution with zeros beyond its end, giving `len(times) * dt_divider` samples and `len(times) - 1` field samples | not executed | ShowerPulse.PadOrTrimOverrun | ShowerPulse.AlignWindow |
