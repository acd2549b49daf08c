# Meta-Benjolin web — a Dafny model of its core

Meta-Benjolin is a browser instrument built on a latent space of Benjolin
synthesiser settings. Every point of a 3-D latent space is a dataset row
that carries an 8-value parameter vector. The user composes a sequence of
elements on a vertical composition bar:

- **Boxes** play one point.
- **Crossfades** linearly interpolate the parameters between the Boxes
  on either side.
- **Meanders** follow a greedy path through the latent space between
  the Boxes on either side.

The sound comes from audio-worklet processors, the central one being the
**rungler**: an eight-cell shift register.

This project models five pieces of that system and proves properties about them.

| file | module | models |
|---|---|---|
| `js_values.dfy` | `JsValues` | `undefined`, `Infinity` and `NaN`, and the comparisons and sums the code relies on |
| `points.dfy` | `Points` | the column-wise dataset, and the linear crossfade with its loop |
| `meanders.dfy` | `Meanders` | the meander search loop, shared by both `LatentSpace` versions, with its path-shape lemmas |
| `latent_space.dfy` | `LatentSpaceLive` | the `LatentSpace` class the app imports (`osc-communication.js`) and the `send*` adapters |
| `latent_draft.dfy` | `LatentSpaceDraft` | the earlier `LatentSpace` draft (`latentJS.js`) |
| `composition.dfy` | `Composition` | the composition list of `main.js`: append, remove, drag-and-drop, durations, the playback schedule, resize handlers, and the meander paths stored by `renderPath` |
| `benjolin.dfy` | `Benjolin` | the `Rungler` processor and the pitch clamps of `OscProcessor` and `ComputeFilterFreq` |
| `old_datastructures.dfy` | `OldDataStructures` | the earlier element records and time/pixel conversions |

Stateful code stays stateful, each piece proved against a specification function:

- Both `LatentSpace` classes are Dafny classes. The lookup table and the
  path cache are fields that their methods update.
- `compositionArray`, `raphaels`, `numBoxes`, the bar-full flag and the
  meander list are fields of the class `Composition.Composition`.
- The rungler's eight cells are fields of `Benjolin.Rungler`, and its
  output buffers are arrays.
- Every loop of the source is a `while` loop proved against a
  specification function:
  - the neighbour scan equals `NextPoint`;
  - the meander search equals `Meander`;
  - the crossfade loop equals `Crossfade`;
  - the duration sum equals `TotalDuration`;
  - the schedule equals `StartTimes`;
  - the sample loop equals `StateAfter`;
  - the Meander-counting loop of `storeMeander` equals `StoreAsWritten`.
- Lemmas then prove what the source promises about each specification function.

The JavaScript semantics that matter are written out:

- A column read past its end is `undefined` (`None`).
- `undefined > x` is false.
- `Infinity < Infinity` is false.
- Comparisons with `NaN` are false, so `Math.min(Math.max(NaN, lo), hi)` is `NaN`.
- A write past the end of a typed array is dropped.

In `osc-communication.js`, `findNextPoint` computes its reference distance as
`calculateDistance(a_latent, b_latent)`. That call passes coordinate arrays
where `calculateDistance` expects indices, so the reference is `NaN`. The
model makes this explicit: `LatentSpaceLive.LiveReferenceDistance` is `NaN`.
`LatentSpaceLive.Cost` then proves that the "moving away" penalty never
applies in the live version. The draft computes the reference properly, and
there the penalty does apply.

## Model

| member | source | states |
|---|---|---|
| `Points.Crossfade` | osc-communication.js:287-298 | The crossfade of `steps` steps has exactly `steps + 1` frames. |
| `Points.CrossfadeEndpoints` | osc-communication.js:287-298 | The first frame is the start point's parameters and the last is the end point's. |
| `Points.CrossfadeBetween` | osc-communication.js:288-295 | Every interpolated value lies between the two endpoint values of its dimension. |
| `Points.LerpBetween` | osc-communication.js:292-295 | `u*(1-t) + v*t` with `0 <= t <= 1` lies between `u` and `v`. |
| `Points.Interpolate` | osc-communication.js:287-298 | The push loop builds exactly the frames of the crossfade specification. |
| `Meanders.ExtendPath` | osc-communication.js:208-211 | One successful step keeps the path well formed: no repeated index, only dataset points, goal only at the end, each step what `findNextPoint` answered. |
| `Meanders.MeanderFromShape` | osc-communication.js:204-216 | From any well-formed state, the loop ends well formed, within 1001 points, at the goal, at the step cap, or where `findNextPoint` threw. |
| `Meanders.MeanderShape` | osc-communication.js:196-217 | Every meander starts at the start index, repeats no index, has at most 1001 points, reaches the goal only at its end, follows `findNextPoint` step by step, and stops at the goal, at the cap or at the first thrown error. |
| `Meanders.MeanderToSelf` | osc-communication.js:204 | A meander from a point to itself is exactly that one point. |
| `Meanders.LatentTerm` | osc-communication.js:165-168 | A candidate farther from the goal than the reference distance has a cost, whatever its parameter term, that is below no running minimum, so it is never chosen. |
| `LatentSpaceLive.GetParameters` | osc-communication.js:37-48 | A parameter vector exists exactly for an index of the dataset, and it has 8 values. |
| `LatentSpaceLive.WriteIndicesLastWins` | osc-communication.js:23-30 | A coordinate has a table entry exactly when some row has it, and the entry is the last such row. |
| `LatentSpaceLive.WriteIndicesOver` | osc-communication.js:25-28 | Writing the rows over an existing table overrides its entries, key by key. |
| `LatentSpaceLive.TransformDataIdempotent` | osc-communication.js:23-30 | Building the lookup table a second time leaves it unchanged. |
| `LatentSpaceLive.IndexOfTable` | osc-communication.js:95-102 | The lookup answers -1 exactly when no row has the coordinate; otherwise it answers a row that has it. |
| `LatentSpaceLive.LookUpRoundTrip` | osc-communication.js:23-30 | Looking up row `i`'s coordinate gives an index `>= i`, and exactly `i` when coordinates are pairwise distinct. |
| `LatentSpaceLive.LookUpSound` | osc-communication.js:95-102 | Every index in a consistent lookup table is a dataset row with that coordinate. |
| `LatentSpaceLive.Cost` | osc-communication.js:162-171 | The cost is the parameter distance divided by 400 plus the latent distance to the goal. The penalty never applies, because the reference distance is `NaN`. |
| `LatentSpaceLive.ScanOutcome` | osc-communication.js:136-179 | From any consistent scan state, the scan returns the goal when a later position resolves to it. Otherwise it returns the first least-cost candidate among positions 1..k-1, skips unresolved, current and visited points, and reports a missing neighbour. |
| `LatentSpaceLive.NextPointOutcome` | osc-communication.js:121-185 | `findNextPoint` throws on invalid indices or a missing tree. Otherwise the neighbour-scan outcome above holds from position 1 with no choice and `Infinity` as the minimum. |
| `LatentSpaceLive.GoalWhenMet` | osc-communication.js:146-149 | When any scanned position resolves to the goal, `findNextPoint` returns the goal. |
| `LatentSpaceLive.NextPointSound` | osc-communication.js:150-157 | Every returned index is a dataset row, and it is the goal or not yet visited. |
| `LatentSpaceLive.LiveMeanderShape` | osc-communication.js:196-217 | The live meander has the shape of `Meanders.MeanderShape`, over the dataset's rows. |
| `LatentSpaceLive.LatentSpace.constructor` | osc-communication.js:15-21 | Stores the dataset, dimensionality and k, with an empty lookup table, an empty path cache and no tree. |
| `LatentSpaceLive.LatentSpace.TransformData` | osc-communication.js:23-30 | Returns the coordinate of every row, in order, and leaves the lookup table equal to the last-wins table of the dataset. |
| `LatentSpaceLive.LatentSpace.MakeKDTree` | osc-communication.js:68-72 | Builds the lookup table and installs the neighbour oracle. |
| `LatentSpaceLive.LatentSpace.GetIndexGivenLatent` | osc-communication.js:95-102 | -1 exactly when the coordinate has no entry; otherwise a row with exactly that coordinate. |
| `LatentSpaceLive.LatentSpace.GetParamsGivenLatent` | osc-communication.js:104-108 | Parameters exist exactly for a resolved coordinate, and they are those of a row with that coordinate. |
| `LatentSpaceLive.LatentSpace.FindNextPoint` | osc-communication.js:121-186 | The scan loop over positions 1..k-1, with its running minimum, returns exactly the outcome of `NextPoint`. |
| `LatentSpaceLive.LatentSpace.CalculateMeander` | osc-communication.js:196-218 | The search loop returns exactly `Meander` for this space, and that path has the meander shape. |
| `LatentSpaceLive.LatentSpace.GetMeander` | osc-communication.js:227-244 | Returns `[]` for an unresolved coordinate. Otherwise it returns the path cached under the ordered index pair, computing and storing it on a miss. It never removes or changes an entry. |
| `LatentSpaceLive.LatentSpace.GetLatentCoordinatesForPath` | osc-communication.js:251-253 | Keeps the path's length; element k is the coordinate of `path[k]`. |
| `LatentSpaceLive.LatentSpace.GetParametersForPath` | osc-communication.js:260-262 | Keeps the path's length; element k is the parameter vector of `path[k]`. |
| `LatentSpaceLive.LatentSpace.CalculateCrossfade` | osc-communication.js:270-299 | Returns `[]` for an unresolved coordinate, and otherwise the crossfade between the two points' parameters. |
| `LatentSpaceLive.LatentSpace.PathCoordinatesRoundTrip` | osc-communication.js:251-253 | With distinct coordinates, looking up every coordinate of a path gives back the path's indices. |
| `LatentSpaceLive.LatentSpace.PointInfoRoundTrip` | osc-communication.js:79-108 | Looking up a known coordinate and reading that point back gives the coordinate itself, with the parameters `getParamsGivenLatent` answers. |
| `LatentSpaceLive.LatentSpace.MeanderPathsResolve` | osc-communication.js:251-262 | Every point of a meander has a coordinate and a parameter vector. |
| `LatentSpaceLive.SendBox` | osc-communication.js:314-318 | Parameters exist exactly for a coordinate in the table, and they have 8 values. |
| `LatentSpaceLive.SendMeander` | osc-communication.js:320-326 | Empty, with the cache untouched, exactly when a coordinate is unresolved. Otherwise it is the parameters along the path `getMeander` caches under the index pair, a fresh entry being the meander between the two points; every step has parameters, the first is the start point's, and no cache entry is removed or changed. |
| `LatentSpaceLive.SendDrawMeander` | osc-communication.js:328-336 | Empty, with the cache untouched, exactly when a coordinate is unresolved. Otherwise it is the coordinates along the path `getMeander` caches under the index pair, a fresh entry being the meander between the two points; the first is the start coordinate, and no cache entry is removed or changed. |
| `LatentSpaceLive.SendCrossfade` | osc-communication.js:338-343 | Empty exactly when a coordinate is unresolved. Otherwise it is the 100-step crossfade between the two points' parameters: 101 frames, from the start point's parameters to the end point's. |
| `LatentSpaceDraft.FirstMatchFrom` | latentJS.js:86-91 | The search from position `i` answers the first matching position at or after `i`, or -1 when there is none. |
| `LatentSpaceDraft.FirstMatch` | latentJS.js:83-92 | -1 exactly when no row matches; otherwise the smallest index whose coordinate equals the query. |
| `LatentSpaceDraft.FirstMatchRoundTrip` | latentJS.js:83-92 | Looking up row `i`'s coordinate gives an index `<= i`, and exactly `i` when no earlier row has it. |
| `LatentSpaceDraft.GettersAgreeWithLive` | latentJS.js:21-76 | The draft's `getCoordinate` and `getParameters` answer as the live ones inside the latent and parameter row counts and null beyond them; with both matrices and `this.latent` covering every point, the two `getPointInfo` agree on every index. |
| `LatentSpaceDraft.CostNotNaN` | latentJS.js:157-168 | With a finite reference distance, a candidate's cost is never `NaN`. |
| `LatentSpaceDraft.ScanSound` | latentJS.js:135-174 | The scan returns the goal, or an unvisited index of `this.latent`, or throws. |
| `LatentSpaceDraft.ScanOutcome` | latentJS.js:135-179 | From any consistent scan state, the scan returns the goal when a later neighbour resolves to it. Otherwise it returns the first least-cost unvisited candidate over all neighbours, or throws when none has a finite cost. |
| `LatentSpaceDraft.NextPointOutcome` | latentJS.js:118-181 | For valid indices, the outcome above holds from the first neighbour. A chosen point other than the goal is never farther from the goal than the current point. |
| `LatentSpaceDraft.NextPointSound` | latentJS.js:147-152 | Every returned index is a row of `this.latent`, and it is the goal or not yet visited. |
| `LatentSpaceDraft.DraftMeanderShape` | latentJS.js:192-212 | The draft's meander has the shape of `Meanders.MeanderShape`, over the rows of `this.latent`. |
| `LatentSpaceDraft.LatentSpace.constructor` | latentJS.js:14-19 | Stores the dataset, dimensionality and k, and the given inputs, with an empty path cache. |
| `LatentSpaceDraft.LatentSpace.GetIndexGivenLatent` | latentJS.js:83-92 | The linear search returns exactly `FirstMatch`. |
| `LatentSpaceDraft.LatentSpace.FindNextPoint` | latentJS.js:118-182 | The scan over every neighbour, with its nested linear search, returns exactly the outcome of `NextPoint`. |
| `LatentSpaceDraft.LatentSpace.CalculateMeander` | latentJS.js:192-212 | The search loop returns exactly `Meander` for this space, and that path has the meander shape. |
| `LatentSpaceDraft.LatentSpace.GetMeander` | latentJS.js:221-238 | Returns `[]` for an unresolved coordinate. Otherwise it returns the path memoised under the first-match index pair, computing and storing it on a miss. It never removes an entry. |
| `LatentSpaceDraft.LatentSpace.CalculateCrossfade` | latentJS.js:264-293 | Returns `[]` when a coordinate is unresolved or has no parameters, and otherwise the crossfade of the two parameter vectors. |
| `Composition.ConversionRoundTrip` | main.js:324-343 | `pxHeightToTimesMs` and `timesToPxHeight` undo each other, in both orders. |
| `Composition.ConversionsMonotone` | main.js:324-343 | Both conversions map 0 to 0 and are strictly increasing. |
| `Composition.TotalAppend` | main.js:370-376 | The total duration of a concatenation is the sum of the totals. |
| `Composition.PrefixMonotone` | main.js:1183-1197 | With non-negative durations, the prefix sums are non-negative and grow with the index. |
| `Composition.RemoveAt` | main.js:1144-1146 | `splice(i, 1)` shortens the list by one. |
| `Composition.InsertAt` | main.js:1610 | `splice(t, 0, x)` lengthens the list by one. |
| `Composition.RemoveAtTotal` | main.js:1144 | Removing element `i` lowers the total by its duration. |
| `Composition.RemoveAtMultiset` | main.js:1144 | Removing element `i` leaves every other element: the multiset loses exactly `s[i]`. |
| `Composition.DropOrder` | main.js:1606-1621 | The reordering keeps the list's length. |
| `Composition.DropIndex` | main.js:1606-1621 | Every position of the reordered list holds the element from one computed original position. |
| `Composition.DropMovesBefore` | main.js:1596-1621 | When the indices differ, the dragged element ends immediately before the original target element. Removing it gives the list without it, in the original order. The result is a permutation. |
| `Composition.DropNonNeg` | main.js:1606-1621 | Reordering keeps durations non-negative. |
| `Composition.DropTotal` | main.js:1606-1621 | Reordering keeps the total duration. |
| `Composition.PlayBox` | main.js:971-1040 | A Box always plays. A Crossfade or Meander plays exactly when it is not first and both neighbours are Boxes. In first position a transition does nothing. |
| `Composition.StartTimes` | main.js:1183-1197 | There is one start time per element. |
| `Composition.ScheduleTiles` | main.js:1178-1205 | The first element starts at 0, each element starts where the previous one ends, and the last one ends at the total. With non-negative durations the start times never decrease. |
| `Composition.CursorSweepsTile` | main.js:957-966 | The cursor's stop position for element `n` is the start position for element `n + 1`. |
| `Composition.BoxReleaseAsWrittenHalves` | main.js:510 | As written, releasing an unresized Box gives 2500 ms rather than 5000 ms, and an accepted radius gives a duration strictly between 500 and 5000 ms. |
| `Composition.BoxReleaseWithinBounds` | main.js:489-510 | Converting the diameter, an unresized Box keeps 5000 ms, and every accepted radius gives a duration strictly between `MIN_T` and `MAX_T`. |
| `Composition.HandleReleaseWithinBounds` | main.js:619-638 | An accepted crossfade or meander handle height gives a duration strictly between `MIN_T` and `MAX_T`. |
| `Composition.Rendered` | main.js:2062-2143 | Rendering keeps the length and the total. Each Meander between two Boxes gets the path drawn from the Box before it to the Box after it; every other element is unchanged. |
| `Composition.SameDurationsTotal` | main.js:370-376 | Lists with the same durations position by position have the same total. |
| `Composition.StoreAsWritten` | main.js:2176-2186 | Storing as written keeps the list's length. |
| `Composition.RenderAsWrittenFrom` | main.js:2072-2112 | Rendering as written keeps the list's length. |
| `Composition.StoreMeanderMisattaches` | main.js:2179-2186 | On `[Meander, Box, Meander, Box]`, the written `storeMeander` gives the path to element 0 and leaves element 2 without one. The corrected rendering gives it to element 2. |
| `Composition.Composition.constructor` | main.js:368-369 | The composition starts empty, with no papers, no stored meanders and the bar not full. |
| `Composition.Composition.CurrentCompositionTime` | main.js:370-376 | The summing loop returns the total duration. |
| `Composition.Composition.UpdateFullFlag` | main.js:1120-1121 | The bar-full flag becomes `total >= MAX_COMPOSITION_DURATION`. |
| `Composition.Composition.AppendElement` | main.js:382-469 | Below the cap, exactly one element and one paper are appended, and the flag becomes `total >= cap`. At or over the cap nothing is appended and the flag is set. |
| `Composition.Composition.RenderPath` | main.js:2062-2143 | The meander list is rebuilt from the start, with one path stored per Meander between two Boxes. The composition becomes `Rendered`, the intended attachment of the main.js:2179-2186 Findings row. |
| `Composition.Composition.StoreMeander` | main.js:2149-2189 | The path is appended to the meander list and attached to the Meander it was drawn for, as intended (Findings row main.js:2179-2186). |
| `Composition.Composition.StoreMeanderAsWritten` | main.js:2149-2189 | As written: the path is appended to the meander list, and the Meander-counting loop attaches it to the Meander whose rank among all Meanders is the number of paths stored before. |
| `Composition.Composition.DrawBox` | main.js:381-471 | Below the cap it appends a Box of exactly `BASIC_ELEMENT_T` ms, through `pxHeightToTimesMs(timesToPxHeight(...))`, and one paper. It then renders. |
| `Composition.Composition.DrawCrossfade` | main.js:518-610 | Below the cap it appends a Crossfade as long as its box is high, and one paper; at or over the cap it only sets the flag. It then renders. |
| `Composition.Composition.DrawMeander` | main.js:646-764 | Below the cap it appends a Meander with no path, and one paper; at or over the cap it only sets the flag. It then renders. |
| `Composition.Composition.RemoveElement` | main.js:1124-1151 | Removes index `i` from both lists, decrements the count and lowers the total by that element's duration, then renders. |
| `Composition.Composition.Drop` | main.js:1565-1650 | Applies the same move-before-target reordering to both lists, keeps the total, then renders. Equal indices move nothing. |
| `Composition.Composition.ReleaseBox` | main.js:504-515 | Sets the Box's duration from the circle's diameter, the intended conversion of the main.js:510 Findings row, and recomputes the flag. |
| `Composition.Composition.ReleaseHandle` | main.js:634-643 | Sets the duration to the handle height converted to ms and recomputes the flag. |
| `Composition.Composition.Play` | main.js:1178-1205 | Element `i` is scheduled at the sum of the durations before it, and the stop is at the total plus 100 ms. |
| `Composition.Composition.AnimateBoxVerticalCursor` | main.js:957-969 | The cursor runs from element `n`'s start time to its end time, scaled to the timeline, for `n`'s duration. |
| `Composition.Composition.PlayElement` | main.js:989-1018 | A transition element plays exactly when it is not first and sits between two Boxes. |
| `Benjolin.Clock` | benjolin-modules.js:36-53 | Without a clock pulse nothing changes. On a pulse the eight assignments run in the written order: `sh05` gets the old `sh02`, `sh03` keeps its value, `sh04` gets `sh03`, and the cells stay bits. |
| `Benjolin.StateAfter` | benjolin-modules.js:25-57 | After any number of samples the cells are still bits. |
| `Benjolin.RunValueRange` | benjolin-modules.js:56 | The `run` sample is one of the eighths 0 .. 7/8. |
| `Benjolin.DeadCells` | benjolin-modules.js:44-53 | `sh03` and `sh04` stay 0 forever, leaving six live cells. |
| `Benjolin.NoClockNoShift` | benjolin-modules.js:37-53 | With no clock pulse in the first `n` samples, the register does not move. |
| `Benjolin.Rungler.constructor` | benjolin-modules.js:8-18 | All eight cells start at 0. |
| `Benjolin.Rungler.Process` | benjolin-modules.js:19-59 | One `run` and one `xor` sample are written per index of `run`. Each is the value of the register after that sample. The cells end in the state after `run.length` samples. `process` returns true. |
| `Benjolin.Rungler.Tick` | benjolin-modules.js:27-53 | Computes the `xor` bit from the old first cell, then shifts on a clock pulse. |
| `Benjolin.Clamp` | benjolin-modules.js:79 | `Math.min(Math.max(v, lo), hi)` is `NaN` exactly for `NaN`, otherwise a value in `[lo, hi]`, and it leaves a value already in range unchanged. |
| `Benjolin.OscPitch` | benjolin-modules.js:73-79 | A present input gives a pitch in `[-60, 127]`; a missing one gives `NaN`. |
| `Benjolin.OscFrqRange` | benjolin-modules.js:73 | The FRQ parameter's range 0 .. 128 maps to base pitches -61 .. 80. |
| `Benjolin.OscProcess` | benjolin-modules.js:69-84 | One clamped pitch is written per output index, and `process` returns true. |
| `Benjolin.FilterPitch` | benjolin-modules.js:119-126 | Present inputs give a pitch in `[0, 127]`; a missing one gives `NaN`. |
| `Benjolin.FilterPitchUnscaled` | benjolin-modules.js:119-126 | The `/127` and `*127` cancel: an in-range pitch is `FIL_FRQ + FIL_RUN*run + FIL_SWP*tri`. |
| `Benjolin.FilterProcess` | benjolin-modules.js:114-131 | One clamped cutoff pitch is written per output index, and `process` returns true. |
| `OldDataStructures.ConversionRoundTrip` | 00_old/datastructures.js:49-68 | The two conversions undo each other, in both orders. |
| `OldDataStructures.MaxDurationFillsBar` | 00_old/datastructures.js:47-57 | The maximum duration converts to the full bar height, and back. |
| `OldDataStructures.ConversionsMonotone` | 00_old/datastructures.js:49-68 | Both conversions map 0 to 0 and are strictly increasing. |

The `Box`/`Meander`/`Crossfade` records of both `main.js` and
`00_old/datastructures.js` are the `Element` datatypes. Their constructors
store their arguments unchanged. Only the newer Meander carries
`meanderComponents`, and it starts as `None`.

## Left out

- The KD-tree libraries are not part of this model. `this.tree.find` and `this.kd_tree.nearest` are an abstract oracle that returns a list of neighbour coordinates.
- Distances (`calculateDistance`, `calculateParameterDistance`, `_calculateEuclideanDistance`) are abstract non-negative functions. Their square roots are not modelled, and neither is the `dimensionality` field they read.
- Lookup and cache keys are strings in the source. The model uses coordinate triples and index pairs. The string forms `-0` and `0` collide there, and this is not modelled.
- `LatentSpaceLive.LatentSpace.GetParamsGivenLatent`: for an unresolved coordinate the source returns an array of eight `undefined` values. The model returns `None`.
- `LatentSpaceLive.LatentSpace.CalculateCrossfade`, `LatentSpaceDraft.LatentSpace.CalculateCrossfade` and `Points.Interpolate` require `steps > 0`. With `steps = 0` the source divides 0 by 0 and produces a single `NaN` frame; only `sendCrossfade` calls it, always with 100.
- The draft reads `this.latent`, `this.parameter` and `this.kd_tree` without assigning them. They are constructor inputs here, together with the row counts of the two matrices.
- `LatentSpaceDraft.LatentSpace.constructor` assumes that neither matrix has more rows than the x..p8 columns (`DraftSpace.Valid`). With longer matrices the draft's getters pass their bounds checks and then read past the columns, returning arrays of `undefined`; that case is not modelled.
- The draft's `makeKDTree`, `getLatentCoordinatesForPath` and `getParametersForPath` are not modelled; the live versions are.
- Console logging is left out, and so is the ignored `meander_time` argument of the `send*` adapters.
- `Composition.Composition.RenderPath` models only the meander part of `renderPath`. Removing and drawing Three.js lines for crossfades, jumps and meander segments is scene output.
- `sendDrawMeander` appears in `Composition` as a function parameter (`MeanderDrawer`). The path cache it fills inside `LatentSpace` is modelled in `LatentSpaceLive`, not there.
- DOM, Raphael and Three.js work is left out: element ids, `prependElement`/`exchangeElements`, highlighting, scatterplot markers and the id renumbering loops.
- The `move*` handlers compute a new radius or height with `Math.sqrt` and pointer deltas. The model takes the new value as an input and states the acceptance tests as `BoxRadiusAccepted` and `HandleAccepted`.
- `setTimeout`, `playInBackground`, `loopBox`/`loopCrossfade`/`loopMeander`, the `ISPLAYBACKON` gating of handlers, and stopping or cancelling playback are asynchronous. `Play` returns the computed schedule instead.
- `Composition.Composition.ReleaseBox` converts the circle's diameter, the intended behaviour of the main.js:510 Findings row. The code as written converts the radius; that is `BoxReleaseDurationAsWritten`, with `BoxReleaseAsWrittenHalves` showing the difference.
- `Composition.Composition.RenderPath` attaches each path to the Meander it was drawn for, the intended behaviour of the main.js:2179-2186 Findings row. The code as written gives the list `RenderAsWritten`, whose difference `StoreMeanderMisattaches` shows.
- `Composition.Composition.StoreMeander` is the intended `storeMeander(path)` that `RenderPath` calls, attaching to the given position. The code as written, with its Meander-counting loop, is `StoreMeanderAsWritten`.
- `Composition.Composition.DrawBox` ends with the intended rendering of `RenderPath` (`Rendered`), not the as-written `RenderAsWritten`.
- `Composition.Composition.DrawCrossfade` ends with the intended rendering of `RenderPath` (`Rendered`), not the as-written `RenderAsWritten`.
- `Composition.Composition.DrawMeander` ends with the intended rendering of `RenderPath` (`Rendered`), not the as-written `RenderAsWritten`.
- `Composition.Composition.RemoveElement` ends with the intended rendering of `RenderPath` (`Rendered`), not the as-written `RenderAsWritten`.
- `Composition.Composition.Drop` ends with the intended rendering of `RenderPath` (`Rendered`), not the as-written `RenderAsWritten`.
- `removeElement` itself does not recompute the bar-full flag; the Bin handler does it afterwards (`UpdateFullFlag`).
- `storeMeander`'s `if (pathCoords)` test is always true for an array. `playBox` passes a duration to `sendCrossfade`, which ignores it.
- `mtof` (`2 ** ((v - 69) / 12) * 440`) is floating-point exponentiation. `OscProcess` and `FilterProcess` write the clamped MIDI pitch it receives.
- The `Comparator` processor compares whole input arrays with `>`, which depends on JavaScript object coercion. It is not modelled.
- `benjolin.js` and `index.js` are WebAudio and slider wiring, and are not part of this model.
- `Benjolin.Rungler.Process` requires distinct `run` and `xor` buffers, as two WebAudio output channels are. Input samples past the end of `pls01`/`pls02` are `undefined`, and they compare false.
- Floating-point rounding is not modelled: all arithmetic is on Dafny `real`.

## Findings

| source | as written | input that shows it | evidently intended | confidence | as-written member | corrected member |
|---|---|---|---|---|---|---|
| main.js:510 | Releasing a Box sets its duration to `pxHeightToTimesMs(r)`, converting the circle's radius. | A Box drawn at the basic size (`r = timesToPxHeight(5000)/2`) and released without resizing gets 2500 ms instead of 5000 ms. Accepted radii give 500 to 5000 ms, not `MIN_T` to `MAX_T`. | Convert the diameter `2r`, which is the box height `drawBox` uses, so the duration stays 5000 ms and the range is `MIN_T` to `MAX_T`. | not executed | `Composition.BoxReleaseAsWrittenHalves` | `Composition.BoxReleaseWithinBounds` |
| main.js:2179-2186 | `storeMeander` attaches the k-th drawn path to the k-th Meander of the whole list. Meanders that are not between two Boxes are counted too. | `[Meander, Box(0,0,0), Meander, Box(1,1,1)]`: the only path drawn, for element 2, is attached to element 0, and element 2 keeps no path. | Attach each path to the Meander it was drawn for. | not executed | `Composition.StoreMeanderMisattaches` | `Composition.Rendered` |
