# Flattened pair index and best-fit latent initialisation

This project models two deterministic pieces of a Deep Generative Decoder
pipeline for mutation-count data. The decoder network, its loss, and the
Gaussian mixture that proposes latent points are left opaque.

- **`FlattenedDataset`** (`flat_dataset.dfy`, module `FlatDataset`).
  - The constructor splits a samples x columns table into the label
    column and the mutation-context columns.
  - It reads one bracketed `[X>Y]` mutation label per context name, falling
    back to `[UNK]`.
  - It computes one scaling value per sample, as the mean, max or sum of
    the sample's row; any other mode is an error. The scaling values live
    in `scaling.dfy` (module `Scaling`).
  - It enumerates every (sample, context) pair with the context varying
    fastest.
  - It caches a nucleotide one-hot matrix per context name, built from every
    A/C/G/T letter of the upper-cased name.
  - `__len__` and `__getitem__` are lookups into these fields.
  - The constructor is the method `Load`. It is proved equal to the
    functional description `Build`. Errors are a `Result`.
- **The best-fit initialisation of `learn_new_representation`**, in three
  variants. All three share `best_fit.dfy` (module `BestFit`): candidate
  latent vectors are scored against a batch through an opaque loss, the
  first minimal score wins (`torch.argmin`), and the chosen candidate is
  scattered in place into a zero-initialised `array<Vec>` buffer. The buffer
  after the loop is characterised row by row: each row holds the value of
  the last write that touched it, or zero.
  - `predict.dfy` (module `Predict`): one decoder pass over the candidates.
    Every row the batch indexes receives the choice.
  - `no_onehot_mut_predict.dfy` (module `NoOnehotPredict`): each candidate
    is repeated once per row of the batch and decoded with the trained
    context vectors of those rows. Only row `sample_idx[0]` receives the
    choice.
  - `allpairs_mut_predict.dfy` (module `AllPairsPredict`): sample
    candidates and context candidates are combined into a row-major grid of
    concatenations and decoded once. The buffer is split at `rep_dim` into a
    sample layer and a context layer.
- **The refinement schedule** (`refine.dfy`, module `Refine`). Each epoch
  clears the gradients, accumulates one gradient per batch at fixed
  parameters, and then takes exactly one optimiser step. The gradient, the
  accumulation and the step are opaque.

Oracles are function-typed parameters:
- the decoder `Vec -> R`;
- the two-input forward pass `(seq<Vec>, seq<Vec>) -> R`;
- the loss `(R, O) -> real`, where `O` stands for the batch's observed
  counts and library sizes.

The mixture's sampled points are a parameter, and the loader is a sequence
of batches in iteration order. Counts, scaling values and losses are `real`.

Two behaviours of the code worth knowing:
- There is no reserved "unknown" one-hot. A context name without a
  bracketed token gets the `[UNK]` mutation label only; its one-hot is
  still built from all of its nucleotide letters.
- The write target differs between variants. `predict.py` writes every row
  indexed by the batch. `no_onehot_mut_predict.py` does not de-duplicate
  rows per sample: it writes one row per batch, `sample_idx[0]`, so when
  batches share a first sample, the last batch wins.

## Model

| member | source | states |
|---|---|---|
| `FlatDataset.ResolvePosition` | src/data/flat_dataset.py:12 | `iloc[:, label_position]` accepts exactly the positions `-width <= p < width`, and a negative position counts from the end; any other position is the IndexError |
| `FlatDataset.KeptPositions` | src/data/flat_dataset.py:15 | dropping the label column by name keeps exactly the columns whose name differs from the label column's name, in their original order |
| `FlatDataset.Upper` | src/data/flat_dataset.py:21 | upper-casing preserves length |
| `FlatDataset.FirstToken` | src/data/flat_dataset.py:21 | `re.search` for `\[([ACGT]>[ACGT])\]` returns the leftmost match at or after the start position, or reports that there is none |
| `FlatDataset.MutLabelSpec` | src/data/flat_dataset.py:18-23 | the label of every name (the function `MutLabel`) has five characters and is `[UNK]` exactly when the upper-cased name has no bracketed `[X>Y]` token; otherwise it is the first such token |
| `FlatDataset.MutLabelExample` | src/data/flat_dataset.py:18-23 | `a[c>g]t` gives `[C>G]` (the match is found after upper-casing), and `ACGT` gives `[UNK]` |
| `FlatDataset.Nucleotides` | src/data/flat_dataset.py:58 | `re.findall(r'[ACGT]')` returns only nucleotide letters, never more than the name has |
| `FlatDataset.NucleotidesAppend` | src/data/flat_dataset.py:58 | the letter scan distributes over concatenation, so the letters come out in name order |
| `FlatDataset.NucleotidesCount` | src/data/flat_dataset.py:58 | each A/C/G/T is kept as often as it occurs in the name, and every other character is dropped |
| `FlatDataset.OneHotRow` | src/data/flat_dataset.py:51-54 | `nuc_to_vec` maps each nucleotide to a length-4 row with 1 at column A=0, C=1, G=2, T=3 and 0 elsewhere |
| `FlatDataset.OneHotRowInjective` | src/data/flat_dataset.py:51-54 | two nucleotides share a one-hot row only when they are the same nucleotide |
| `FlatDataset.OneHotKmer` | src/data/flat_dataset.py:57-59 | `onehot_kmer` has one row of width 4 per nucleotide letter of the upper-cased name; a name without any has zero rows |
| `FlatDataset.KmerOnehots` | src/data/flat_dataset.py:62-64 | the one-hot cache has exactly one key per distinct context name, and each key maps to that name's one-hot matrix |
| `FlatDataset.OneHotFlatAt` | src/data/flat_dataset.py:78 | the flattened one-hot has 4 entries per nucleotide letter, and entry `k` is 1 exactly at the column of letter `k / 4` |
| `Scaling.ParseScaling` | src/data/flat_dataset.py:32-39 | the scaling modes are exactly `mean`, `max` and `sum`; any other string is the ValueError |
| `Scaling.RowSumNonnegative` | src/data/flat_dataset.py:36-37 | the sum scaling value of a row of non-negative counts is non-negative and at least every single count |
| `Scaling.RowSumAtMost` | src/data/flat_dataset.py:36-37 | a row whose counts are all at most `b` has a sum scaling value of at most as many copies of `b` as the row has entries |
| `Scaling.RowMeanTimesLength` | src/data/flat_dataset.py:32-33 | the mean scaling value of a non-empty row, times the row's length, is the row's sum |
| `Scaling.RowMeanBounds` | src/data/flat_dataset.py:32-33 | the mean scaling value of a non-empty row is at most the row's maximum, and non-negative when the counts are |
| `Scaling.LibValueBounds` | src/data/flat_dataset.py:32-39 | a sample's scaling value (the function `LibValue`) in max mode is one of its counts and bounds them all; in mean mode it is at most the max; in sum mode it bounds every non-negative count; for non-negative counts it is non-negative in every mode |
| `Scaling.RowMax` | src/data/flat_dataset.py:35 | the max scaling value of a non-empty row is one of its entries and bounds every entry |
| `Scaling.RowSumAppend` | src/data/flat_dataset.py:37 | the sum scaling value is additive over any split of the row |
| `Scaling.ScalingExample` | src/data/flat_dataset.py:32-37 | the row [1, 2, 3, 4] scales to 10 (sum), 2.5 (mean) and 4 (max) |
| `FlatDataset.MeanExample` | src/data/flat_dataset.py:33 | mean scaling of the rows [1, 2], [3, 4], [5, 6] gives 1.5, 3.5, 5.5 |
| `FlatDataset.PairRows` | src/data/flat_dataset.py:42-46 | before flattening, row `s` of the nested comprehension lists `(s, m)` for every context `m` |
| `FlatDataset.FlattenedIndices` | src/data/flat_dataset.py:42-46 | the flattened index has exactly `num_samples * num_muts` entries |
| `FlatDataset.FlattenedIndicesAt` | src/data/flat_dataset.py:42-46 | entry `k` of the flattened index is `(k div num_muts, k mod num_muts)`: the context varies fastest |
| `FlatDataset.FlattenedIndexBounds` | src/data/flat_dataset.py:42-46 | every entry names an existing sample and an existing context |
| `FlatDataset.FlattenedIndexRoundTrip` | src/data/flat_dataset.py:42-46 | every pair occurs, at position `s * num_muts + m`; re-encoding a decoded position gives the position back; no two positions hold the same pair |
| `FlatDataset.IndexExample` | src/data/flat_dataset.py:42-46 | with 3 samples and 2 contexts the index has 6 entries, position 0 is (0, 0) and position 5 is (2, 1) |
| `FlatDataset.BuildExample` | src/data/flat_dataset.py:7-67 | a frame of three samples with two count columns and a trailing label column, loaded with label position -1 and `'mean'`, succeeds with length 6 and library values 1.5, 3.5, 5.5 |
| `FlatDataset.Counts` | src/data/flat_dataset.py:26-30 | the count matrix has one row per sample and one column per kept context column, and entry `(s, i)` is the number in row `s` of the `i`-th kept column |
| `FlatDataset.CollectMutLabels` | src/data/flat_dataset.py:18-23 | the append loop yields exactly one mutation label per context name, in name order |
| `FlatDataset.Assemble` | src/data/flat_dataset.py:12-64 | once every check has passed, the fields satisfy the invariants tying them together: one label per row taken from the label column, a count row and a scaling value per sample, one mutation label per context name, the flattened index, and the one-hot cache. The context names are column names other than the label column's |
| `FlatDataset.AssembleContexts` | src/data/flat_dataset.py:14-30 | context `m` of an assembled dataset is the `m`-th column left after dropping the label column: it carries that column's name and, in every row, that column's number as its count |
| `FlatDataset.Build` | src/data/flat_dataset.py:7-64 | the IndexError is raised exactly when the label position is out of range; a constructed dataset satisfies the field invariants, has one sample per frame row, keeps the caller's label position, and uses the scaling mode the caller asked for (`scaling_type` parses, and the dataset's mode is the parsed one), so each `lib_values[s]` is that mode's mean, max or sum of row `s` |
| `FlatDataset.BuildSpec` | src/data/flat_dataset.py:7-64 | construction succeeds exactly when the label position is in range, every cell outside the dropped columns is a number, the scaling mode is known, and a mean or max has at least one context column. Each error is raised exactly when its own check fails after all earlier checks passed: out-of-range position, then a non-numeric cell, then an unknown scaling mode, then an empty reduction |
| `FlatDataset.AssembleCoversColumns` | src/data/flat_dataset.py:15 | every column whose name differs from the label column's name is among the context names |
| `FlatDataset.BuildFields` | src/data/flat_dataset.py:7-64 | a constructed dataset takes each label from the label column. Its context names are exactly the columns whose name differs from the label column's, in column order, each with its numbers as counts |
| `FlatDataset.Load` | src/data/flat_dataset.py:7-64 | the constructor, which sets the fields step by step and appends the mutation labels name by name, produces exactly the dataset, or the error, that `Build` describes |
| `FlatDataset.Len` | src/data/flat_dataset.py:66-68 | `__len__` is `num_samples * num_muts` |
| `FlatDataset.GetItem` | src/data/flat_dataset.py:70-80 | `__getitem__(idx)` succeeds exactly for `-len <= idx < len`, where a negative `idx` counts from the end. Position `k` yields the sample and context whose row-major position is `k`, its count, the sample's scaling value, and the flattened one-hot of the context name (4 entries per nucleotide letter, 1 at the letter's column) |
| `BestFit.PrepareIgnoresLaterLists` | src/test/predict.py:7-15 | `prepare_potential_reps` (the function `PreparePotentialReps`) returns the first list unchanged and ignores every later list |
| `BestFit.Overwrite` | src/test/predict.py:73 | `rep_init_values[i, :] = value` keeps the buffer's row count, sets every listed row to `value` and leaves every other row as it was |
| `BestFit.OverwriteTwice` | src/test/predict.py:73 | writing the same rows twice leaves only the second value, and repeating a write changes nothing |
| `BestFit.DecodeAll` | src/test/predict.py:48 | one decoder pass yields one reconstruction per candidate, in candidate order |
| `BestFit.ScoreAll` | src/test/predict.py:58-70 | the loss vector grown by `cat` has one entry per item, in item order, each being that item's loss |
| `BestFit.ArgMin` | src/test/predict.py:71 | `torch.argmin` returns an index of a minimal entry, and no earlier entry is as small |
| `BestFit.ArgMinUnique` | src/test/predict.py:71 | the selection is determined by the losses alone: any minimal index with no equally small predecessor is the one chosen |
| `BestFit.ArgMinOfTies` | src/test/predict.py:71 | when all losses are equal, the first candidate is chosen |
| `BestFit.Pick` | src/test/predict.py:73 | the chosen value is one of the candidates |
| `BestFit.Replay` | src/test/predict.py:52-73 | replaying the batch writes never changes the number of buffer rows |
| `BestFit.LastWrite` | src/test/predict.py:57-73 | the last write that touches a row does touch it, and no later write does; when there is none, no write touches the row |
| `BestFit.ReplayAt` | src/test/predict.py:52-73 | after all writes, a row holds the value of the last write that touched it, or its initial value if none did, so a later batch overwrites an earlier one |
| `BestFit.Scatter` | src/test/predict.py:73 | `rep_init_values[rows, :] = value` sets every listed row to `value` and leaves every other row unchanged |
| `Predict.Writes` | src/test/predict.py:57-73 | batch `t` writes exactly the rows `i` it indexes |
| `Predict.LearnInit` | src/test/predict.py:41-79 | the initial layer has `len(dataset)` rows of the candidates' width. Each row is the replay of the batch writes over the zero buffer: a row some batch indexes holds the first best candidate of the last such batch, and every other row is zero. Every row is zero or one of the candidates |
| `NoOnehotPredict.Gather` | src/test/no_onehot_mut_predict.py:55 | `mut_rep[mut_idx]` has one trained context vector per row of the batch, taken by index |
| `NoOnehotPredict.Expand` | src/test/no_onehot_mut_predict.py:54 | the expanded candidate has one copy of the candidate per row of the batch |
| `NoOnehotPredict.Writes` | src/test/no_onehot_mut_predict.py:51-66 | batch `t` writes exactly one row, `sample_idx[0]` |
| `NoOnehotPredict.InitRow` | src/test/no_onehot_mut_predict.py:44-66 | after the loop, a row holds the choice of the last batch whose first sample it is, and no later batch has it first. A row that is first in no batch stays zero. Either way it is zero or a candidate |
| `NoOnehotPredict.CandidateLossLocal` | src/test/no_onehot_mut_predict.py:53-64 | a candidate's loss (the function `CandidateLoss`) reads the trained context table only at the batch's own context indices: two tables that agree there give the same loss |
| `NoOnehotPredict.LearnInit` | src/test/no_onehot_mut_predict.py:37-66 | the buffer has `Nsample` rows. A sample that is first in some batch holds the choice of the last such batch, and no later batch has it first. A sample that is first in no batch keeps its zero row. Every row is zero or one of the candidates |
| `NoOnehotPredict.ContextTableReadOnlyByIndex` | src/test/no_onehot_mut_predict.py:48-55 | the trained context vectors enter only through the indices the batches use: two tables that agree there give the same writes |
| `AllPairsPredict.GridRows` | src/test/allpairs_mut_predict.py:51-55 | before flattening, cell `(s, j)` of the grid is sample candidate `s` followed by context candidate `j` |
| `AllPairsPredict.Grid` | src/test/allpairs_mut_predict.py:58 | the flattened grid has `n_samples * n_mut` rows |
| `AllPairsPredict.GridAt` | src/test/allpairs_mut_predict.py:51-58 | grid row `k` is sample candidate `k div n_mut` followed by context candidate `k mod n_mut`: the sample candidate varies slowest |
| `AllPairsPredict.GridRoundTrip` | src/test/allpairs_mut_predict.py:51-58 | every (sample, context) pair of candidates occurs at its row-major position, and that position decodes back to the same sample and context |
| `AllPairsPredict.GridWidth` | src/test/allpairs_mut_predict.py:55-58 | every grid row has width `sample_dim + mut_dim` |
| `AllPairsPredict.SplitRow` | src/test/allpairs_mut_predict.py:87-91 | `row[:d]` and `row[d:]` (with Python's clamping) concatenate back to the row, and the first part has `min(d, len(row))` entries |
| `AllPairsPredict.SplitLayers` | src/test/allpairs_mut_predict.py:84-91 | both new layers have one row per buffer row, each being the split of that row |
| `AllPairsPredict.SplitConcat` | src/test/allpairs_mut_predict.py:85-91 | splitting a concatenation at the length of its first part recovers both parts |
| `AllPairsPredict.SplitGridRow` | src/test/allpairs_mut_predict.py:85-91 | when `rep_dim` is the sample width, splitting grid row `k` recovers exactly its sample candidate and its context candidate |
| `AllPairsPredict.SplitZeros` | src/test/allpairs_mut_predict.py:64-91 | a zero buffer row splits into a zero sample row and a zero context row |
| `AllPairsPredict.ChoiceIndex` | src/test/allpairs_mut_predict.py:70-80 | the chosen grid index addresses a grid row |
| `AllPairsPredict.Writes` | src/test/allpairs_mut_predict.py:69-81 | batch `t` writes its chosen grid row into exactly the rows of its write target |
| `AllPairsPredict.Layers` | src/test/allpairs_mut_predict.py:64-91 | with the split at the sample width, every row's last write splits into the sample and the context candidate of the chosen grid row, and an unwritten row splits into two zero rows |
| `AllPairsPredict.LearnInit` | src/test/allpairs_mut_predict.py:40-91 | corrected loop with an explicit write target: both layers have `len(dataset)` rows and are the split of the replayed buffer. When `rep_dim` is the sample width, a targeted row holds, across the two layers, the sample and context candidate of the last targeting batch's choice, and an untargeted row is zero in both layers |
| `AllPairsPredict.LearnInitAsWritten` | src/test/allpairs_mut_predict.py:64-91 | as written, the loop fails with an undefined `i` exactly when the loader yields at least one batch; only an empty loader gets through, and then both layers are the split of the zero buffer |
| `Refine.Refine` | src/test/predict.py:83-95 | the refinement loop is proved equal to `Epochs` applied `test_epochs` times. `Epochs` is defined as one optimiser step per epoch, taken with `Accumulate`: the gradient summed over the whole loader at the parameters the epoch started from. `EpochsAdd` and `AccumulateConcat` state what these definitions give |
| `Refine.EpochsAdd` | src/test/predict.py:83-95 | `a` epochs followed by `b` epochs equal `a + b` epochs: in the modelled schedule an epoch depends only on the parameters and optimiser state it starts from |
| `Refine.AccumulateConcat` | src/test/predict.py:84-94 | for an associative accumulation with identity `zero`, the gradient of a loader is the sum of the gradients of its two consecutive parts |

## Left out

- The decoder, its loss, `dgd.forward`, `forward_and_loss`, `gmm.sample_new_points` and `RepresentationLayer` are opaque. They come from `src/dgd`, which is not part of this model, and enter as parameters.
- The refinement (`AdamW`, `zero_grad`, `backward`, `step`) is modelled only as a schedule: gradients, their sum and the optimiser step are opaque functions. The undefined `index` at src/test/allpairs_mut_predict.py:102 is never reached: a non-empty loader fails earlier at line 81, so that file's refinement loop never runs `backward()`.
- Refine.EpochsAdd: the model gives each batch's gradient as a function of the parameters and the batch alone. In all three files the loss call rebinds the GMM loss and passes it into the next call: `gmm_loss` at src/test/predict.py:86-90, and `gmm_loss` and `mut_gmm_loss` at src/test/no_onehot_mut_predict.py:82-88 and src/test/allpairs_mut_predict.py:101-107. That value carries from batch to batch and from epoch to epoch, and the model does not carry it. The equality of `a` then `b` epochs with `a + b` epochs holds for the modelled schedule, not with that carried state.
- Refine.AccumulateConcat: for the same reason, the gradient of one batch does not depend on the batches before it in the model, while the source's rebinding of `gmm_loss` (and of `mut_gmm_loss` in the two variants) makes each call see the previous call's value.
- Column labels are strings. `kmer.upper()` at src/data/flat_dataset.py:21 raises AttributeError on a non-string label, such as pandas' default integer labels from a frame read with `header=None`; that error path is not modelled.
- Float32 arithmetic, NaN losses (and `argmin` over them), devices, `tqdm` and debug prints are left out. Values are `real`.
- FlatDataset.Build: a mean over a sample row with no context columns yields NaN in torch; the model reports `EmptyReduction` instead, as it does for max.
- FlatDataset.Upper: only ASCII letters are upper-cased. Python's full Unicode case mapping is out of scope, including the characters that upper-case to an ASCII letter plus a mark or to several letters, such as U+1E9A, U+1E97 and U+FB06.
- Scaling.RowMeanBounds: the mean is bounded above by the row's maximum; no lemma bounds it below by the row's minimum.
- Batch index tensors are sequences of in-range non-negative integers; negative tensor indices are not modelled.
- The candidate lists are required to be non-empty (the mixture has at least one component), as `torch.argmin` of an empty loss vector raises.
- The data loader is a fixed sequence of batches: shuffling and batching are not modelled.
- The model assumes a loader that yields four fields, `(mut_data, lib, sample_idx, mut_idx)`, without the one-hot. `FlattenedDataset.__getitem__` (src/data/flat_dataset.py:80) returns five values, so with the repository's dataset the unpacks at src/test/no_onehot_mut_predict.py:51 and src/test/allpairs_mut_predict.py:69 raise ValueError, as does the three-name unpack at src/test/predict.py:57. `predict.py` is modelled reading `(mut_data, lib, i)`.
- BestFit.DecodeAll: a decoder pass is assumed to give one reconstruction per candidate row. The comment at src/test/no_onehot_mut_predict.py:58 says the decoder outputs a list of output modules; src/test/predict.py:48,59 and src/test/allpairs_mut_predict.py:62,71 iterate over the decoder's output as if it were one reconstruction per candidate.
- AllPairsPredict.LearnInit: the write target is the parameter `rowsOf`, since the source names an undefined `i` (see Findings).
- `src/test/first_onehot_mut_predict.py` (random initialisation) and `src/performance/ARI.py` (a clustering-score wrapper) are not part of this model.

## Findings

| source | as written | input that shows it | evidently intended | confidence | as-written member | corrected member |
|---|---|---|---|---|---|---|
| src/test/allpairs_mut_predict.py:81 | `rep_init_values[i, :] = ...` names `i`, which the loop `for mut_data, lib, sample_idx, mut_idx in data_loader` never binds | any loader with one batch: NameError before the first write | write the chosen grid row into the dataset rows the batch stands for | not executed | `AllPairsPredict.LearnInitAsWritten` | `AllPairsPredict.LearnInit` |
