# Custom resistive device: pulsed weight update

This project models the reference (CPU) update rule of the "Custom" pulsed
resistive device of the analog-hardware training simulator: `CustomRPUDevice<T>::doSparseUpdate`
and `doDenseUpdate`. Each device holds one weight per crossbar element and, per
element, a step down (`w_scale_down_`), a step up (`w_scale_up_`) and a pair of
bounds (`w_min_bound_`, `w_max_bound_`). An update call receives a sequence of
pulse coincidences ("events"). Each event names a column `j` and carries a sign:

- a positive sign steps `w[j]` down by `scale_down[j]`; any other sign steps it up by `scale_up[j]`;
- when `dw_min_std > 0` the step is multiplied by `1 + dw_min_std * g`, where `g` is one Gaussian sample;
- the result is clipped with `MIN` against `max_bound[j]`, then `MAX` against `min_bound[j]`.

The sparse call works on row `i` and chooses the noisy or the noise-free loop
body once, outside its loop. The dense call works on row 0 and computes the
noise term inside its loop with a conditional expression.

Modelling choices:

- The weight type `T` is `real`. `MIN(a, b)` is `a < b ? a : b` and `MAX(a, b)` is `a > b ? a : b` (`Bounds`).
- The random generator is a stream `gauss: nat -> real` with a start position `pos`. Every call returns `drawn`, the number of samples it consumed.
- The loop macros that turn the signed index list (sparse) or the coincidence vector (dense) into events are not part of this model. Each call takes its events as a `seq<Event>` and folds one loop body over it in order (`RowUpdate.Apply`). Like the macros, the fold takes the loop body as a parameter.
- The three loop bodies are written as the source writes them (`Pulse.PreClip`): the noise-free sparse body, the noisy sparse body, and the dense body with its conditional noise term. `Pulse.Gain` and `Pulse.Delta` form one reference definition of the step. Lemmas connect each body to it and connect the bodies to each other.
- `InPlace` holds the update loop as a method that overwrites one weight per event, plus the two entry points built on it. Each one is proved equal to the functional model.

Details of the code the model keeps:

- The noise-free branch is taken whenever `dw_min_std <= 0` (src/rpucuda/rpu_custom_device.cpp:62), not only when it is 0.
- Any sign that is not positive, zero included, steps up (src/rpucuda/rpu_custom_device.cpp:70, 85, 126).
- A positive sign steps down. `Scenarios.DenseWorkedExample` applies signs +1, -1 and +1 to columns 0, 1 and 2 of `[0, 0.95, -0.95, 0.5]`: column 0 goes down to -0.1, column 1 goes up and is clipped to 1.0, column 2 goes down and is clipped to -1.0.

## Model

| member | source | states |
|---|---|---|
| Bounds.Clip | src/rpucuda/rpu_custom_device.cpp:77-78 | the clipped value is never below `min_bound`; it is at most `max_bound` when the bounds are ordered; it is `min_bound` when they are crossed; a value inside the bounds is kept; a value above keeps `max_bound`, a value below keeps `min_bound` |
| Bounds.ClipIsNearest | src/rpucuda/rpu_custom_device.cpp:90-91 | for ordered bounds, no point of `[min_bound, max_bound]` is closer to the unclipped value than the clipped one |
| Bounds.ClipMonotone | src/rpucuda/rpu_custom_device.cpp:133-134 | clipping preserves the order of two values |
| Bounds.ClipIdempotent | src/rpucuda/rpu_custom_device.cpp:90-91 | clipping an already clipped value changes nothing, even for crossed bounds |
| Pulse.Step | src/rpucuda/rpu_custom_device.cpp:64-91 | after any event of any loop body, the weight satisfies its bounds (one-sided for crossed bounds, where it equals `min_bound`) |
| Pulse.PreClipIsDelta | src/rpucuda/rpu_custom_device.cpp:64-88 | each loop body subtracts `gain * scale_down` for a positive sign and adds `gain * scale_up` otherwise, where the gain is 1 without noise and `1 + dw_min_std * g` with noise |
| Pulse.StepIgnoresSample | src/rpucuda/rpu_custom_device.cpp:81-91 | a body that draws no sample gives the same value whatever sample is offered |
| Pulse.DenseStepIsSparseStep | src/rpucuda/rpu_custom_device.cpp:120-131 | the dense body equals the noisy sparse body when `dw_min_std > 0` and the noise-free sparse body otherwise, and it draws exactly when the sparse body would |
| Pulse.StepDirection | src/rpucuda/rpu_custom_device.cpp:82-88 | for a weight within its bounds (crossed bounds included) and a non-negative step, a positive sign never raises the weight and any other sign never lowers it; with a positive step, the pre-clip change is strict |
| Pulse.NoisyStepValue | src/rpucuda/rpu_custom_device.cpp:64-78 | the noisy body with sample `g` sets the weight to the clip of `w - (1 + dw_min_std*g)*scale_down` for a positive sign and of `w + (1 + dw_min_std*g)*scale_up` otherwise |
| Pulse.NoisyGainCanReverseStep | src/rpucuda/rpu_custom_device.cpp:65-69 | the noise gain is not clamped: with `dw_min_std = 0.5` and `g = -4`, a positive-sign event raises the weight |
| RowUpdate.Apply | src/rpucuda/rpu_custom_device.cpp:64-78 | the event loop keeps the row width; it consumes one sample per event when its body draws and none otherwise |
| RowUpdate.ApplyFrame | src/rpucuda/rpu_custom_device.cpp:64-91 | columns that no event names keep their value; with a clipping body, every named column ends within its bounds |
| RowUpdate.ApplyKeepsRowWithinBounds | src/rpucuda/rpu_custom_device.cpp:77-78 | with a clipping body, a row that is within its bounds stays within them |
| RowUpdate.ApplySplit | src/rpucuda/rpu_custom_device.cpp:64-78 | events are applied in order with a clip after each: a call with `a + b` equals a call with `a` followed by a call with `b` that continues the sample stream |
| RowUpdate.ApplyIgnoresStream | src/rpucuda/rpu_custom_device.cpp:81-91 | a loop that draws nothing gives the same row for every stream and start position |
| CustomDevice.SparseRule | src/rpucuda/rpu_custom_device.cpp:62 | the sparse call picks a drawing body exactly when `dw_min_std > 0` |
| CustomDevice.UpdateRow | src/rpucuda/rpu_custom_device.cpp:53-78 | a call that runs the event loop on row `i` changes no other row, keeps the row's width, and draws one sample per event exactly when its body draws |
| CustomDevice.UpdateRowSplit | src/rpucuda/rpu_custom_device.cpp:64-78 | a call on row `i` with events `a + b` equals a call with `a` followed by a call with `b` on the weights and stream position the first call left |
| CustomDevice.SparseUpdate | src/rpucuda/rpu_custom_device.cpp:49-92 | only row `i` changes and keeps its width; `dw_min_std > 0` draws one sample per event, anything else draws none |
| CustomDevice.SparseFrame | src/rpucuda/rpu_custom_device.cpp:64-91 | in row `i`, columns no event names keep their value and every named column ends within its bounds, for either body |
| CustomDevice.DenseUpdate | src/rpucuda/rpu_custom_device.cpp:106-137 | only row 0 changes and keeps its width; `dw_min_std > 0` draws one sample per event, anything else draws none |
| CustomDevice.DenseFrame | src/rpucuda/rpu_custom_device.cpp:118-136 | in row 0, columns no event names keep their value and every named column ends within its bounds |
| CustomDevice.SparseOneEvent | src/rpucuda/rpu_custom_device.cpp:62-92 | one event sets only `w[j]` of row `i`, to the chosen body's value with the next sample when the body draws, and draws one sample exactly when the body draws |
| CustomDevice.SparsePlainEvent | src/rpucuda/rpu_custom_device.cpp:81-91 | without noise, one event sets `w[j]` to `MAX(MIN(w[j] - scale_down[j], max_bound[j]), min_bound[j])` for a positive sign and to `MAX(MIN(w[j] + scale_up[j], max_bound[j]), min_bound[j])` otherwise; nothing else changes and no sample is drawn |
| CustomDevice.SparseNoisyDown | src/rpucuda/rpu_custom_device.cpp:64-69 | with noise, one positive-sign event draws exactly the next sample `g` and sets `w[j]` to the clip of `w[j] - (1 + dw_min_std*g)*scale_down[j]`; nothing else changes |
| CustomDevice.SparseNoisyUp | src/rpucuda/rpu_custom_device.cpp:70-78 | with noise, one event of any other sign draws exactly the next sample `g` and sets `w[j]` to the clip of `w[j] + (1 + dw_min_std*g)*scale_up[j]`; nothing else changes |
| CustomDevice.SparseNoiseFreeIsDeterministic | src/rpucuda/rpu_custom_device.cpp:79-91 | with `dw_min_std <= 0`, the sparse call draws nothing and gives the same weights whatever the generator's state |
| CustomDevice.SparseReadsOnlyRow | src/rpucuda/rpu_custom_device.cpp:53-57 | the new row `i` and the sample count depend only on `dw_min_std`, row `i` of the scale and bound arrays, and row `i` of the weights |
| CustomDevice.SparseSequential | src/rpucuda/rpu_custom_device.cpp:64-91 | a sparse call with events `a + b` equals two successive sparse calls, so a column addressed twice is stepped and clipped twice |
| CustomDevice.SparseKeepsRowWithinBounds | src/rpucuda/rpu_custom_device.cpp:77-91 | bounds invariant: a row `i` within its bounds before a sparse call is within them after it |
| CustomDevice.DenseIsSparseOnRowZero | src/rpucuda/rpu_custom_device.cpp:118-136 | the dense call equals the sparse call on row 0, in weights and in samples drawn, for every `dw_min_std`; with zero std it matches the noise-free sparse step and draws nothing |
| CustomDevice.DenseKeepsRowWithinBounds | src/rpucuda/rpu_custom_device.cpp:132-134 | bounds invariant: a row 0 within its bounds before a dense call is within them after it |
| CustomDevice.DenseNoiseFreeIsDeterministic | src/rpucuda/rpu_custom_device.cpp:120 | with `dw_min_std <= 0`, the dense call draws nothing and gives the same weights whatever the generator's state |
| CustomDevice.DenseReadsOnlyRowZero | src/rpucuda/rpu_custom_device.cpp:109-113 | the dense call's new row 0 and sample count depend only on `dw_min_std`, row 0 of the scale and bound arrays, and row 0 of the weights |
| InPlace.RunLoop | src/rpucuda/rpu_custom_device.cpp:64-78 | the in-place loop, which draws only when its body draws and overwrites one weight per event, computes the functional event fold and its sample count |
| InPlace.DoSparseUpdate | src/rpucuda/rpu_custom_device.cpp:49-92 | splitting on `dw_min_std > 0` once, outside the loop, gives exactly the modelled sparse update |
| InPlace.DoDenseUpdate | src/rpucuda/rpu_custom_device.cpp:106-137 | the dense loop on row 0 gives exactly the modelled dense update |
| Scenarios.DenseWorkedExample | src/rpucuda/rpu_custom_device.cpp:118-136 | a noise-free dense call on `[0, 0.95, -0.95, 0.5]` with signs +1, -1, +1 on columns 0-2 gives `[-0.1, 1.0, -1.0, 0.5]` and draws nothing |
| Scenarios.ClipFollowsEveryEvent | src/rpucuda/rpu_custom_device.cpp:81-91 | stepping 0.95 up and then down by 0.1 gives 0.9 because of the intermediate clip, while one clip of the summed change would give 0.95 |

## Left out

- How events are derived is not modelled. `PULSED_UPDATE_W_LOOP` and `PULSED_UPDATE_W_LOOP_DENSE` live in the base pulsed-device header, which is not part of this model. So the model does not cover how `sign` and `j` come from `x_signed_indices` and `d_sign`, the dense loop's extent, skipping of zero coincidences, or whether a coincidence's magnitude repeats the body. Events are an input.
- `getUpdateKernels` (src/rpucuda/cuda/rpucuda_custom_device.h:35-40) is left out: only its declaration exists, and the kernel catalog and GPU launch code are not part of this model.
- `populate` (src/rpucuda/rpu_custom_device.cpp:29-33) is left out: it only forwards to the base device, which is not part of this model.
- The constructor, copy, move, swap and meta-parameter macros (src/rpucuda/rpu_custom_device.h:23-35, 48-67; src/rpucuda/cuda/rpucuda_custom_device.h:19-33) are boilerplate and are left out.
- WeightGranularity: carries no contract. It models `calcWeightGranularity`, which returns `dw_min` unchanged, so there is nothing to state beyond its body.
- The generator's distribution is not modelled: the model never assumes the samples are Gaussian. It is an arbitrary stream of reals, and only which sample each event consumes is tracked.
- Floating-point rounding, and the `float`/`double`/`half_t` instantiations, are left out. Arithmetic is exact over `real`, so a property that relies on exact arithmetic (such as dense equals sparse) holds up to rounding in the source.
- Concurrency and the aliasing assumptions across rows are left out. Rows are values here, so no two rows can alias.
- Out-of-range row or column indices are not modelled. The source does not check them, so the model requires them to be in range (`CustomDevice.Addresses`). The row fold `RowUpdate.Apply` is total: it leaves the row unchanged for an event outside it, a case no entry point reaches.
