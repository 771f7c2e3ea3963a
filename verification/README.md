# skipwavenet core in Dafny

This project models the core of skipwavenet. skipwavenet trains `msNet`, a multiscale edge detector. It has three parts.

- An encoder of five stages. Each stage after the first max-pools by 2.
- One 1x1 side-output head per stage. When the loader supplies a wavelet input `w`, a cascade fuses each side output after the first with the detail bands of the previous one.
- A head that upsamples the side outputs by transposed convolution with bilinear kernels, crops them to the input size and fuses them.

The model covers four pieces of this system.

- **`Accumulation`** (`accumulation.dfy`): the gradient-accumulation state machine of `Trainer.train`.
  - An epoch-local counter counts batches.
  - Every batch back-propagates its loss divided by `itersize`.
  - The optimizer steps, clears the gradients and advances `global_step` when the counter reaches `itersize`.
  - After each batch, a visualisation trigger tests `global_step` against `n_dataset // (10 * batch_size)`.
  - Gradients are abstract. A batch contributes its loss together with the divisor it was scaled by, and an optimizer step is the list of contributions it consumes.
- **`LrGroups`** (`lr_groups.dfy`): `tune_lrs`, which splits the parameters into eight optimizer groups.
  - Parameters are split by whether their name contains `weight` or `bias`.
  - Each list is cut at positions 0:10, 10:13 and 13:18, plus its last element.
  - The module also contains `msNet`'s own parameter list, and the layer-based grouping the policy is meant to produce.
- **`MsNet`** (`msnet_shapes.dfy`): `msNet.__init__` and `msNet.forward` at the level of tensor shapes.
  - A tensor is its `(N, C, H, W)` shape plus a symbolic term that records which layers computed it.
  - Layers check their input width.
  - Pooling halves with floor division.
  - `conv_transpose2d` produces `(h - 1) * stride + kernel`.
  - Cropping fails when the map is smaller than the target.
  - `torch.cat` requires equal non-channel sizes.
- **`TrainStep`** (`train_step.dfy`): one batch from forward pass to loss. The loss is zero plus one term per output. The per-output loss function is a parameter.

`PySemantics` (`py_semantics.dfy`) holds the Python behaviour these parts rely on:
- floor division and modulo;
- clamping slices;
- negative indexing;
- `str.find`;
- the exceptions raised, as a `Result` type.

Things the model takes as parameters:
- The wavelet transform `waveT` is given by the output size it produces (`dwt`).
- The per-output loss `cross_entropy_loss(o, label)` is a function from output tensor to real.
- The wavelet input `w` matters only through whether it is `None`.
- The encoder's and the wavelet transform's parameter names are arbitrary sequences.

## Model

| member | source | states |
|---|---|---|
| PySemantics.FloorDiv | modules/trainer.py:153 | Python's `//` raises ZeroDivisionError exactly when the divisor is zero |
| PySemantics.FloorDivRoundsDown | modules/trainer.py:153 | `a // b` rounds the quotient towards negative infinity for either sign of `b` |
| PySemantics.Mod | modules/trainer.py:153 | Python's `%` raises exactly on a zero divisor; the remainder takes the divisor's sign and is zero exactly when `b` divides `a` |
| PySemantics.DivModIdentity | modules/trainer.py:153 | `a == b * (a // b) + a % b` for every non-zero `b` |
| PySemantics.Slice | modules/trainer.py:230-232 | `s[lo:hi]` never raises; it has length `max(0, hi' - lo')` for the clamped bounds and holds the elements from `lo'` on |
| PySemantics.At | modules/trainer.py:233 | `s[i]` raises IndexError exactly when `i` is outside `[-len, len)`; a negative index counts from the end |
| PySemantics.Find | modules/trainer.py:227-228 | `name.find(key)` is -1 exactly when `key` does not occur, and otherwise the first position where it occurs |
| Accumulation.Accumulate | modules/trainer.py:132-141 | one batch steps exactly when the incremented counter equals `itersize`; a step consumes everything pending plus this batch's scaled loss, clears the buffers, resets the counter and advances `global_step` by one; otherwise nothing is lost and `global_step` stays put |
| Accumulation.EpochCounter | modules/trainer.py:105-141 | within an epoch, after k batches the counter is `k mod itersize` and `global_step` has advanced by exactly `k div itersize` |
| Accumulation.EpochState | modules/trainer.py:105-141 | after k batches the buffers hold the previous epoch's leftover plus every scaled loss until the first step, and afterwards exactly the scaled losses since the last step |
| Accumulation.EpochSteps | modules/trainer.py:132-141 | the optimizer steps on batch j exactly when j + 1 is a multiple of `itersize`, and that step consumes the scaled losses of the last `itersize` batches, plus the carry-over on the first step |
| Accumulation.NoStepBelowOne | modules/trainer.py:132-141 | with `itersize < 1` the optimizer never steps, `global_step` never moves and every contribution stays pending |
| Accumulation.LeftoverCarriesIntoNextEpoch | modules/trainer.py:105-141 | the counter restarts each epoch but the gradient buffers do not; an epoch whose batch count is not a multiple of `itersize` has its last `k mod itersize` contributions consumed by the next epoch's first step |
| Accumulation.ScaledTotal | modules/trainer.py:133-134 | back-propagating each loss divided by `itersize` adds up to the sum of the losses divided by `itersize` |
| Accumulation.StepAppliesWindowMean | modules/trainer.py:132-141 | every optimizer step of an epoch that started with clear buffers applies the sum of the last `itersize` batch losses divided by `itersize` |
| Accumulation.VisualisationDue | modules/trainer.py:153 | the visualisation trigger raises ZeroDivisionError exactly when the batch size is zero or `n_dataset // (10 * batch_size)` is zero |
| Accumulation.VisualisationTrigger | modules/trainer.py:153 | for a positive batch size the trigger raises exactly when the loaders hold fewer than `10 * batch_size` entries, and otherwise fires exactly on multiples of the period |
| Accumulation.RunConserves | modules/trainer.py:132-141 | feeding batches through the loop loses and duplicates no scaled loss: what the optimizer steps consumed, followed by what is still pending, is the starting pending list followed by every batch's loss divided by `itersize`, in batch order |
| Accumulation.VisualisationSchedule | modules/trainer.py:105-153 | on batch j of an epoch, the trigger tests the step reached by then, the starting step plus `(j + 1) div itersize` |
| Accumulation.TrainEpoch | modules/trainer.py:105-153 | one epoch computes exactly the accumulation run over its batches and the visualisation decision after each batch; if the trigger raises, the epoch stops after the first batch's step logic |
| LrGroups.TuneLrs | modules/trainer.py:225-245 | `tune_lrs` raises IndexError exactly when no name contains `weight` or none contains `bias`; otherwise there are eight groups with multipliers 1, 2, 100, 200, 0.01, 0.02, 0.001 and 0.002, weight decay only on weight groups, and only names of the group's kind |
| LrGroups.Select | modules/trainer.py:227-228 | the names selected for a kind are exactly the names containing its key, no more of them than there are names, and without new duplicates |
| LrGroups.SelectOrder | modules/trainer.py:227-228 | selection keeps the original order: selecting from two runs of names is selecting from each, the first run's first, and a single name is kept exactly when it contains the key |
| LrGroups.Group | modules/trainer.py:230-244 | group g has multiplier `LrMultipliers[g]`, weight decay only for weights, and holds the list's elements from the block start up to the clamped block end, or just the list's last element for the final pair |
| LrGroups.NameRouting | modules/trainer.py:227-228 | a name is selected as a weight exactly when it contains `weight`, as a bias exactly when it contains `bias`, and a name with neither key is in no group |
| LrGroups.BlockPlacement | modules/trainer.py:230-233 | with unique names, the i-th weight (or bias) is in the group for block b exactly when i lies in [0,10), [10,13), [13,18) or is the last position |
| LrGroups.UnassignedMiddle | modules/trainer.py:230-233 | weights (or biases) at positions 18 to n-2 are in no group of their kind |
| LrGroups.Ungrouped | modules/trainer.py:227-244 | such a parameter, if its name lacks the other kind's key, is in no group at all, so the optimizer never updates it |
| LrGroups.LastInTwoGroups | modules/trainer.py:230-233 | with at most 18 weights (or biases), the last one is in the final group and also in one of the sliced groups |
| LrGroups.GroupSizes | modules/trainer.py:230-233 | with at least 18 weights (or biases) the four groups of that kind hold 10, 3, 5 and 1 parameters |
| LrGroups.ParamRouting | modules/trainer.py:227-228 | `layer.weight` is selected only as a weight and `layer.bias` only as a bias, for a layer name without `g`, `b` or `.` |
| LrGroups.LayerParams | msnet/msnet_model.py:26-39 | each 1x1 convolution registers its weight and then its bias, in declaration order |
| LrGroups.MsNetParamNames | msnet/msnet_model.py:19-39 | `msNet` registers the encoder's parameters, then weight and bias of `dsn1` to `dsn5` and `fuse`, then the wavelet transform's, then weight and bias of `fusew_2` to `fusew_5` |
| LrGroups.LastParamIsFusew5 | msnet/msnet_model.py:26-39 | the last weight and the last bias `msNet` registers belong to `fusew_5`, whatever the encoder and the wavelet transform register |
| LrGroups.LastGroupsTakeFusew5 | modules/trainer.py:233-244 | on `msNet`'s parameters the last two groups, meant for the fusion head, hold only `fusew_5.weight` and `fusew_5.bias` |
| LrGroups.FusionLayersUngrouped | modules/trainer.py:225-245 | with a thirteen-convolution encoder and a wavelet transform without weights, the parameters of `fuse`, `fusew_2`, `fusew_3` and `fusew_4` are in no group |
| LrGroups.LayerOf | modules/trainer.py:227-228 | a parameter's layer is its name up to the first dot: a dot-free prefix followed by a dot or the end of the name |
| LrGroups.LayerOfParam | msnet/msnet_model.py:26-39 | the layer of `layer.weight` and of `layer.bias` is `layer` |
| LrGroups.LayerBlock | msnet/msnet_model.py:19-39 | exactly the encoder stages, the heads and the fusion layers have a block: conv1-4 the first, conv5 the second, `fuse` the last, all others the third |
| LrGroups.LayerGroup | modules/trainer.py:235-244 | a layer-based group keeps the multiplier and decay of its position, and holds exactly the names of its kind whose layer is in its block, without duplicates |
| LrGroups.ByLayerExactlyOne | modules/trainer.py:225-245 | in the corrected grouping, a parameter with exactly one key whose layer has block b is in exactly the group of b and its kind |
| LrGroups.ByLayerPlacesMsNetHeads | modules/trainer.py:225-245 | in the corrected grouping, `fuse`'s weight and bias are in the last two groups, and every side-output head's and fusion layer's are in the third pair, each in no other group |
| MsNet.LayerListsMatch | msnet/msnet_model.py:26-39 | the layer names in registration order are those the heads, `fuse` and the fusion layers declare |
| MsNet.ApplyStage | msnet/msnet_model.py:19-23 | an encoder stage succeeds exactly when the input width is the declared one and, for a pooling stage, both sides are at least 2; the failure names the layer; it sets the width and keeps or floor-halves the size |
| MsNet.ApplyConv | msnet/msnet_model.py:26-39 | a 1x1 convolution succeeds exactly when the input width is the declared one; it keeps the spatial size and sets the output width |
| MsNet.CatTensors | msnet/msnet_model.py:124 | `torch.cat(dim=1)` succeeds exactly when batch and spatial sizes agree, otherwise it raises a size mismatch; the result has the summed width and the inputs' terms in order |
| MsNet.ConvTranspose | msnet/msnet_model.py:112-115 | `conv_transpose2d` needs one input channel and produces sides `(h - 1) * stride + kernel`, never below the kernel |
| MsNet.CropTo | msnet/msnet_model.py:117-121 | cropping succeeds exactly when the map is at least the target size, and then has exactly the target size |
| MsNet.Cropped | msnet/msnet_model.py:117-121 | cropping five maps succeeds exactly when each is large enough, and each result has the target size |
| MsNet.StageSizes | msnet/msnet_model.py:19-23 | the resolution of stage i + 1 is the input size floor-divided by the stride used to upsample it |
| MsNet.PoolThreshold | msnet/msnet_model.py:20-23 | every pooling stage has at least two rows exactly when the input has at least 16 |
| MsNet.UpsampleCovers | msnet/msnet_model.py:101-115 | each kernel is twice its stride, so each upsampled side output is larger than the input |
| MsNet.Features | msnet/msnet_model.py:53-57 | the encoder's k feature maps keep the batch size and have the declared widths; it fails only with a width mismatch or a map too small to pool |
| MsNet.FuseStep | msnet/msnet_model.py:64-67 | a fusion step succeeds only when the previous output's bands have the side output's size, and then applies the layer to the side output and the three detail bands, in that order |
| MsNet.Sides | msnet/msnet_model.py:61-93 | side outputs are single-channel at their stage's size; the plain branch succeeds exactly when each stage has its head's width |
| MsNet.Upsampled | msnet/msnet_model.py:112-115 | upsampling succeeds exactly when side outputs 2 to 5 have one channel; the first is passed on unchanged and the others grow to `(h - 1) * stride + kernel` |
| MsNet.Fuse | msnet/msnet_model.py:124-127 | fusion succeeds exactly when the five maps concatenate to the width `fuse` expects; it returns the five maps and `fuse` applied to their concatenation, all through the sigmoid |
| MsNet.Head | msnet/msnet_model.py:101-129 | every map the head returns has the requested size; it fails only by a size or width mismatch or a crop larger than the map |
| MsNet.Forward | msnet/msnet_model.py:49-129 | all six returned maps have the input's size; the only failures are a size or width mismatch, a crop larger than the map, or a map too small to pool |
| MsNet.FeaturesSpec | msnet/msnet_model.py:19-57 | the encoder succeeds exactly on 3-channel input large enough to pool; stage i + 1 then has its declared width and the i-times-halved size; a wrong width is reported by conv1 |
| MsNet.FuseStepSpec | msnet/msnet_model.py:64-67 | a fusion step succeeds exactly when the previous output's wavelet bands have the side output's size, and yields one channel at that size |
| MsNet.SidesSpec | msnet/msnet_model.py:61-93 | side outputs are single-channel at their stage's size; the plain branch always succeeds, and the wavelet branch succeeds exactly when each transform's bands line up with the next scale |
| MsNet.UpsampledSpec | msnet/msnet_model.py:101-115 | on an input of at least 16 x 16 every side output upsamples to a single-channel map at least as large as the input |
| MsNet.AlignedSpec | msnet/msnet_model.py:112-121 | upsampling and cropping then bring all five side outputs to exactly the input size |
| MsNet.FuseSpec | msnet/msnet_model.py:124-127 | five aligned maps concatenate to one map of the five channels `fuse` expects, and all six results are single-channel at the input size |
| MsNet.HeadSpec | msnet/msnet_model.py:101-129 | on side outputs at their stage sizes, the head always succeeds |
| MsNet.ForwardSpec | msnet/msnet_model.py:49-129 | `forward` succeeds exactly on 3-channel input of at least 16 x 16 whose wavelet bands line up when `w` is given; then it returns six single-channel maps at the input size: the five aligned side outputs and the fused map |
| MsNet.SideMentions | msnet/msnet_model.py:61-93 | side output i + 1 is computed by exactly its encoder stages and its head, plus every earlier head and the fusion layers up to its scale when fused |
| MsNet.SideBands | msnet/msnet_model.py:61-85 | a side output reads a wavelet band exactly when it is fused and after the first, and never reads the approximation band |
| MsNet.CascadeFeedsForward | msnet/msnet_model.py:64-85 | each fused side output contains the whole fused output of the previous scale |
| MsNet.OutputProvenance | msnet/msnet_model.py:49-129 | the layers and bands behind each of the six outputs of a successful forward pass |
| MsNet.DsnBehindSide | msnet/msnet_model.py:61-93 | a head is behind side output i + 1 exactly when it is that output's own head or, when fused, an earlier one |
| MsNet.FuseWBehindSide | msnet/msnet_model.py:61-93 | fusion layer j + 2 is behind side output i + 1 exactly when fused and j < i |
| MsNet.PlainBranchBypassesFusion | msnet/msnet_model.py:87-93 | without wavelet input no output involves any `fusew_*` layer |
| MsNet.WaveletBranchCascade | msnet/msnet_model.py:61-85 | with wavelet input so1 is unfused, so2 to so5 each go through their own fusion layer, and so_i involves exactly the heads up to scale i |
| MsNet.WaveletInputContentsIgnored | msnet/msnet_model.py:61-85 | the wavelet input's contents never matter: any two present values give the same result |
| MsNet.ApproximationBandUnused | msnet/msnet_model.py:61-85 | no output depends on an approximation band |
| TrainStep.StepLoss | modules/trainer.py:117-129 | a batch's loss exists exactly when the forward pass succeeds, and otherwise raises the forward pass's error |
| TrainStep.BatchLoss | modules/trainer.py:122-129 | the batch loss, built by adding one term per output to zero, is the plain sum of the outputs' loss terms |
| TrainStep.BatchLossAppend | modules/trainer.py:128-129 | the loss over two runs of outputs is the sum of their losses |
| TrainStep.ForwardOutputs | msnet/msnet_model.py:124-129 | a successful forward pass returns exactly the five aligned side outputs and the fused map through the sigmoid |
| TrainStep.StepLossSpec | modules/trainer.py:117-129 | a successful batch's loss is the loss of the five side outputs plus that of the fused map, the sum of all six terms |

## Left out

- Tensor numerics are not modelled: convolution values, the sigmoid, the bilinear kernels and the wavelet filters. Tensors are shapes plus provenance terms.
- The loss function `cross_entropy_loss` is a parameter. Its class balancing is not modelled.
- CUDA placement (`.cuda()`, `torch.cuda.is_available()`) does not change any shape or control flow, so it is dropped.
- The optimizer's update rule, momentum, `zero_grad` internals and the `StepLR` scheduler are not modelled. A step is an event consuming the pending contributions.
- Logging, the progress bar, `losses.update`, `dev_checkpoint`, `save_state`, validation (`dev`) and the histogram block are left out. All of them are I/O that does not touch the accumulation state.
- `waveT`, `DoubleConv`, `Down`, `Down3`, `crop` and `make_bilinear_weights` are not part of this model. The model assumes their size behaviour:
  - the encoder blocks keep the spatial size and then pool by floor halving;
  - `crop` takes a window of the target size and fails on a smaller map;
  - the transform's output size is the parameter `dwt`.
- The encoder's and the wavelet transform's parameter names are left abstract. The statements about `msNet`'s groups take their count (thirteen convolutions with a weight and a bias each, nothing in the wavelet transform) as a hypothesis.
- Learning rates are reals. Floating-point rounding of `lr * multiplier` is not modelled.
- Accumulation.Accumulate: with `itersize == 0` the source divides a tensor by zero, which gives non-finite gradients rather than an exception. The model keeps the contribution symbolic as a loss with its divisor.
- MsNet.ForwardSpec: models `msNet()` with its default arguments (msnet/msnet_model.py:12). The input width is fixed at 3 channels (`InputChannels`). `n_classes` is stored but no layer reads it, so it is dropped.
- MsNet.ForwardSpec: the wavelet transform `waveT` is assumed never to raise. Its only effect in the model is the output size `dwt` gives. A map below the filter's minimum extent, which the transform rejects, is not modelled, so "succeeds exactly when" holds under that assumption.
- MsNet.SidesSpec: the same assumption about `waveT` applies to the wavelet branch of the side outputs.
- Accumulation.TrainEpoch: it takes the per-batch losses as given, so an exception from the forward pass (modules/trainer.py:118) is outside it. In the source such an exception ends the epoch before that batch is counted. TrainStep.StepLoss models that per-batch failure on its own.
- MsNet.Forward: zero-height or zero-width images are excluded by its precondition, because `conv1` on an empty image is outside what the encoder blocks' sizes describe.
- Accumulation.Run: its contract only gives the trace's length. What it computes is stated by RunConserves, EpochCounter, EpochState and EpochSteps.
- LrGroups.TuneLrsByLayer: the corrected grouping never raises. It drops the IndexError the source raises when one kind has no parameters.
- The epoch loop's `max_epoch` iteration and checkpointing between epochs are left out. LeftoverCarriesIntoNextEpoch composes two epochs directly.

The names in the code and what the code computes disagree in two places. The model follows what the code computes.
- `n_train` and `n_val` are `len(train_loader)` and `len(val_loader)` (modules/trainer.py:58-64). These count batches, not images, so the visualisation period `n_dataset // (10 * batch_size)` divides a batch count by ten times the batch size.
- The slices at modules/trainer.py:230-233 are named after layers: `conv1_4_weights`, `conv5_weights`, `d1_5_weights` and `fuse_weights`. They are cut by position in the list of names, not by layer, so which layers land in them depends on how many parameters come first. The finding below shows where `msNet`'s own parameters land. With exactly 18 weights, the last one is in both `d1_5_weights` and `fuse_weights` (LastInTwoGroups).

## Findings

| source | as written | input that shows it | evidently intended | confidence | as-written member | corrected member |
|---|---|---|---|---|---|---|
| modules/trainer.py:230-244 | the groups are cut by position in the weight and bias lists, and the last two groups take `weight_params[-1]` and `bias_params[-1]` | `msNet`'s own parameters with a thirteen-convolution encoder and a parameter-free `wav1`: each list has 23 entries, the last is `fusew_5`, and `fuse` and `fusew_2` to `fusew_4` sit at positions 18 to 21 | the last two groups train the fusion head `fuse`, and every side-output head and wavelet-fusion layer is trained in the third pair of groups | not executed | LrGroups.LastGroupsTakeFusew5, LrGroups.FusionLayersUngrouped | LrGroups.TuneLrsByLayer, LrGroups.ByLayerPlacesMsNetHeads |
