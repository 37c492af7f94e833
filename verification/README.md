# Adversarial-attack result bookkeeping, in Dafny

This project models the result bookkeeping of an LSTM adversarial-attack
search over electronic-health-record time series, and proves properties of
the model. The attack runs batch by batch and epoch by epoch. Each epoch
reports which samples of the batch were turned into successful adversarial
examples, with their losses and perturbations. The bookkeeping keeps two
ledgers per batch:

- a **first-wins** ledger, which records a sample's first success;
- a **best-wins** ledger, which records the success with the smallest loss.

Both ledgers are appended, batch by batch, into a dataset-wide trainer
result. Read-only summaries then extract the successful positions, the
dataset indices and sequence lengths they select, and length-aware views of
the padded perturbations (a slice up to each sample's length, or a mask over
the padding).

Two small pure pieces are modelled as well: the append-only training and
evaluation log with its latest-entry accessor, and the file-extension checks
of the resource importer and exporter.

The model is functional. Every record of parallel tensors is an immutable
datatype of parallel sequences, and every mutating method is a pure function
that returns the new value. A loss is an extended real, `Fin(r)` or `PosInf`
(`Losses.Loss`). The sentinels of an empty slot are epoch `-1` and loss
`PosInf`. The torch `update` of a ledger is modelled in its own three steps:
gather the stored losses, compute the comparison mask, scatter the accepted
entries. The nondeterministic attack loop and the file system are
parameters: epochs are given as a sequence of `EpochSuccesses`, and file
existence as a set of paths.

Files, one module each:

| file | module | models |
|---|---|---|
| wrappers.dfy | `Wrappers` | `Option`, `Result`, `Outcome` |
| losses.dfy | `Losses` | extended-real losses, strict order, minimum |
| seqs.dfy | `Seqs` | index lookup, distinctness, ascending lists, selection |
| ledger.dfy | `Ledgers` | `has_no_entry`, `is_greater_than_new_val`, `RecordedBatchExamples` |
| ledger_runs.dfy | `LedgerRuns` | what a ledger holds after a sequence of epochs |
| batch_result.dfy | `BatchResults` | `BatchResult` |
| trainer_result.dfy | `TrainerResults` | `RecordedTrainerExamples`, `TrainerResult` |
| success_summary.dfy | `SuccessSummaries` | `TrainerSuccessSummary` index properties |
| perturbation_summary.dfy | `PerturbationSummaries` | `ExamplesSummary.mask/perts_actual`, `PerturbationSummaryOld` counts |
| scenarios.dfy | `Scenarios` | worked examples on concrete batches |
| train_eval_log.dfy | `TrainEvalLogs` | `TrainEvalLog` |
| resource_io.dfy | `ResourceIo` | `ResourceImporter._validate_path`, `ResourceExporter._validate_path` |

## Model

All paths below are under `src/`. The ledger file is
`lstm_adversarial_attack/attack/attack_result_data_structs.py`.

| member | source | states |
|---|---|---|
| Losses.Min | src/lstm_adversarial_attack/attack/attack_result_data_structs.py:22-25 | the smaller of two losses in the extended-real order; on a tie the stored value is kept, since the comparison is strict |
| Ledgers.HasNoEntry | src/lstm_adversarial_attack/attack/attack_result_data_structs.py:18-19 | true exactly for the `+inf` sentinel, the one loss no other loss lies above |
| Ledgers.IsGreaterThanNewVal | src/lstm_adversarial_attack/attack/attack_result_data_structs.py:22-25 | true exactly when the new loss lowers the minimum of the two; then it is finite and differs from the stored loss |
| Ledgers.Accepts | src/lstm_adversarial_attack/attack/attack_result_data_structs.py:50-52 | the policy's comparison on one slot: first-wins accepts iff the stored loss is `+inf`; best-wins accepts iff the new loss lowers the minimum, which it then is |
| Ledgers.AcceptanceRules | src/lstm_adversarial_attack/attack/attack_result_data_structs.py:18-25 | first-wins accepts exactly while the stored loss is `+inf`, whatever the new loss; best-wins accepts exactly a strictly smaller loss, so it rejects ties and `+inf`, and then keeps the minimum |
| Ledgers.Fresh | src/lstm_adversarial_attack/attack/attack_result_data_structs.py:29-43 | a fresh ledger of n slots has every epoch -1, every loss `+inf`, and all-zero perturbations of shape max_seq_length × input_size |
| Ledgers.Update | src/lstm_adversarial_attack/attack/attack_result_data_structs.py:45-65 | every accepted entry k writes epoch, loss and perturbation of its slot together, all from entry k; every slot not selected keeps all three fields; size, shape and policy are kept |
| LedgerRuns.UpdateSlot | src/lstm_adversarial_attack/attack/attack_result_data_structs.py:45-65 | seen from one slot, an update takes all three fields from the entry naming the slot if the comparison accepts it, and otherwise changes nothing |
| LedgerRuns.UpdateRecords | src/lstm_adversarial_attack/attack/attack_result_data_structs.py:45-65 | with a nonnegative epoch number and finite submitted losses, one update keeps "epoch -1 iff loss `+inf`", and a slot is recorded afterwards iff it was before or the epoch named it |
| LedgerRuns.RunRecords | src/lstm_adversarial_attack/attack/attack_result_data_structs.py:45-65 | after any sequence of epochs with nonnegative epoch numbers and finite losses, under either policy, a slot is recorded iff it was recorded at the start or some epoch named it |
| LedgerRuns.FirstHit | src/lstm_adversarial_attack/attack/attack_result_data_structs.py:45-65 | the first epoch in a sequence that names a slot, or the length if none does |
| LedgerRuns.MinSubmitted | src/lstm_adversarial_attack/attack/attack_result_data_structs.py:22-25 | the least loss submitted for a slot over a sequence of epochs: at most every submitted loss, and reached by some epoch when finite |
| LedgerRuns.FirstReaching | src/lstm_adversarial_attack/attack/attack_result_data_structs.py:22-25 | the first epoch whose submitted loss for a slot equals a given value |
| LedgerRuns.FirstWinsKeepsFirst | src/lstm_adversarial_attack/attack/attack_result_data_structs.py:45-65 | for an empty slot, nonnegative epoch numbers and finite losses, the first-wins ledger ends with the epoch, loss and perturbation of the first epoch naming the slot, or unchanged if none does; later epochs never overwrite it |
| LedgerRuns.BestWinsKeepsMinimum | src/lstm_adversarial_attack/attack/attack_result_data_structs.py:45-65 | the best-wins ledger's loss for a slot ends as the minimum of its starting loss and every loss submitted for it |
| LedgerRuns.EmptyLedgerRecords | src/lstm_adversarial_attack/attack/attack_result_data_structs.py:45-65 | on a ledger of empty slots, epochs with nonnegative epoch numbers and finite losses record exactly the slots some epoch named |
| LedgerRuns.BestWinsStep | src/lstm_adversarial_attack/attack/attack_result_data_structs.py:45-65 | one best-wins update never raises a slot's recorded loss |
| LedgerRuns.BestWinsMonotone | src/lstm_adversarial_attack/attack/attack_result_data_structs.py:45-65 | the best-wins loss of a slot never increases from an earlier prefix of the epochs to a later one |
| LedgerRuns.BestWinsKeepsEarliestMinimum | src/lstm_adversarial_attack/attack/attack_result_data_structs.py:45-65 | for an empty slot, best-wins ends with the epoch and perturbation of the earliest epoch reaching the minimum loss, so ties keep the earlier epoch |
| BatchResults.New | src/lstm_adversarial_attack/attack/attack_result_data_structs.py:69-90 | a new batch has run no epoch and pairs a fresh first-wins ledger with a fresh best-wins ledger, both sized to the batch |
| BatchResults.Update | src/lstm_adversarial_attack/attack/attack_result_data_structs.py:92-95 | one batch update counts exactly one more epoch and applies the same successes to both ledgers |
| BatchResults.RunBatchFeedsBothLedgers | src/lstm_adversarial_attack/attack/attack_result_data_structs.py:92-95 | over a sequence of epochs, the epoch count grows by its length and each ledger is exactly that ledger run over the same sequence |
| BatchResults.EmptyBatchRecords | src/lstm_adversarial_attack/attack/attack_result_data_structs.py:92-95 | on a batch of empty slots, epochs with nonnegative epoch numbers and finite losses record a slot in each ledger iff some epoch named it |
| BatchResults.SuccessSetsAgree | src/lstm_adversarial_attack/attack/attack_result_data_structs.py:79-95 | on a fresh batch, with nonnegative epoch numbers and finite losses, a slot is recorded in first-wins iff it is recorded in best-wins iff some epoch named it |
| TrainerResults.ExamplesPostInit | src/lstm_adversarial_attack/attack/attack_result_data_structs.py:105-111 | each column given as None becomes empty, each given column is kept |
| TrainerResults.AppendLedger | src/lstm_adversarial_attack/attack/attack_result_data_structs.py:113-118 | epochs, losses and perturbations each grow by the batch ledger's column, with the old column as prefix and the batch's as suffix |
| TrainerResults.PostInit | src/lstm_adversarial_attack/attack/attack_result_data_structs.py:148-158 | each field given as None becomes empty, each given field is kept; an all-default result has all columns aligned |
| TrainerResults.Update | src/lstm_adversarial_attack/attack/attack_result_data_structs.py:160-177 | appends both ledgers, dataset indices and lengths after unchanged prefixes; the appended epochs_run entries, one per length, all equal the batch's count; aligned stays aligned when the batch's indices and lengths have equal length |
| TrainerResults.AccumulateAligned | src/lstm_adversarial_attack/attack/attack_result_data_structs.py:160-177 | folding in aligned batches keeps all columns of equal length and grows them by the total batch size |
| TrainerResults.IndexCorrespondence | src/lstm_adversarial_attack/attack/attack_result_data_structs.py:160-177 | after folding batches in order, position start + size of earlier batches + j of every column holds slot j of batch i |
| TrainerResults.AccumulateKeepsAgreement | src/lstm_adversarial_attack/attack/attack_result_data_structs.py:160-177 | if every batch's two ledgers mark the same slots as recorded, so do the trainer's two columns |
| SuccessSummaries.SuccessPositions | src/lstm_adversarial_attack/attack/attack_result_data_structs.py:382-388 | the positions with epoch other than -1: ascending, each a success, and every success is listed |
| SuccessSummaries.SuccessPositionsUnique | src/lstm_adversarial_attack/attack/attack_result_data_structs.py:382-388 | any ascending list of exactly the successful positions equals the computed one |
| SuccessSummaries.SamePositionsIffSameSuccesses | src/lstm_adversarial_attack/attack/attack_result_data_structs.py:381-393 | two epoch columns give equal position lists iff they mark the same positions as recorded |
| SuccessSummaries.IndicesTrainerSuccess | src/lstm_adversarial_attack/attack/attack_result_data_structs.py:381-393 | succeeds iff first-wins and best-wins record the same positions, and then yields exactly those positions in ascending order |
| SuccessSummaries.SelectChecked | src/lstm_adversarial_attack/attack/attack_result_data_structs.py:397 | numpy fancy indexing: succeeds iff every position is in range, and then the k-th entry is the entry at the k-th position; otherwise an index error |
| SuccessSummaries.IndicesDatasetSuccess | src/lstm_adversarial_attack/attack/attack_result_data_structs.py:396-397 | the k-th entry is the dataset index at the k-th success position; for aligned results it fails only when the agreement check fails |
| SuccessSummaries.InputsSeqLengthsSuccess | src/lstm_adversarial_attack/attack/attack_result_data_structs.py:416-417 | the k-th entry is the sequence length at the k-th success position, selected by the same positions |
| SuccessSummaries.AgreeingResultSummarizes | src/lstm_adversarial_attack/attack/attack_result_data_structs.py:381-397 | an aligned result whose columns agree yields all three summaries, and the k-th dataset index and length belong to the same recorded sample |
| SuccessSummaries.AccumulatedBatchesSummarize | src/lstm_adversarial_attack/attack/attack_result_data_structs.py:381-393 | a trainer result built from batches whose ledgers agree always passes the agreement check |
| SuccessSummaries.AllEqualBroadcast | src/lstm_adversarial_attack/attack/attack_result_data_structs.py:390-392 | `np.all(a == b)` with broadcasting: equal lengths compare elementwise, a length-one array against every entry of the other, including none |
| SuccessSummaries.IndicesTrainerSuccessAsWritten | src/lstm_adversarial_attack/attack/attack_result_data_structs.py:381-393 | the check as written lets through everything the whole-list check lets through, with the same value |
| SuccessSummaries.IndicesDatasetSuccessAsWritten | src/lstm_adversarial_attack/attack/attack_result_data_structs.py:396-397 | the source's composition over the broadcasting check: the k-th entry is the dataset index at the k-th best-wins success position, and it equals the corrected selection whenever the whole-list check passes |
| SuccessSummaries.InputsSeqLengthsSuccessAsWritten | src/lstm_adversarial_attack/attack/attack_result_data_structs.py:416-417 | the source's composition over the broadcasting check: the k-th entry is the sequence length at the k-th best-wins success position, and it equals the corrected selection whenever the whole-list check passes |
| SuccessSummaries.DisagreementSlipsThrough | src/lstm_adversarial_attack/attack/attack_result_data_structs.py:390-397 | for columns first `[0]` and best `[-1]` the check and both selections as written give `[]`, while the corrected check and selections fail |
| SuccessSummaries.InfiniteLossSplitsLedgers | src/lstm_adversarial_attack/attack/attack_result_data_structs.py:18-25 | a `+inf` loss on a fresh slot is recorded by first-wins and not by best-wins |
| SuccessSummaries.AsWrittenMissesDisagreement | src/lstm_adversarial_attack/attack/attack_result_data_structs.py:381-393 | on a concrete batch the columns disagree, yet the check as written passes and reports no successes, while the whole-list check fails |
| PerturbationSummaries.SliceEnd | src/lstm_adversarial_attack/attack/attack_result_data_structs.py:188-192 | where `[:stop]` ends on an axis of length n: stops past the end clamp, negative stops count back from the end |
| PerturbationSummaries.ActualPerts | src/lstm_adversarial_attack/attack/attack_result_data_structs.py:188-192 | one entry per length; each keeps exactly the rows before its slice end, unchanged |
| PerturbationSummaries.Mask | src/lstm_adversarial_attack/attack/attack_result_data_structs.py:296-305 | shape examples × max_len × features, example i's rows built from its own length |
| PerturbationSummaries.MaskHidesPadding | src/lstm_adversarial_attack/attack/attack_result_data_structs.py:296-305 | cell (i, t, f) is masked iff t ≥ length of example i, for every feature |
| PerturbationSummaries.MaskMatchesSlice | src/lstm_adversarial_attack/attack/attack_result_data_structs.py:296-305 | for a length in [0, max_len], a cell is unmasked iff it is a cell of the sliced perturbation |
| PerturbationSummaries.CountNonzero | src/lstm_adversarial_attack/attack/attack_result_data_structs.py:228-229 | the nonzero count is at most the number of cells, and zero iff every cell is zero |
| PerturbationSummaries.MaskedCountIsSlicedCount | src/lstm_adversarial_attack/attack/attack_result_data_structs.py:226-230 | counting nonzero cells under a length mask equals counting them in the slice up to that length |
| PerturbationSummaries.NumNonzero | src/lstm_adversarial_attack/attack/attack_result_data_structs.py:226-230 | one count per example, never more than the cells of its sliced perturbation |
| PerturbationSummaries.NumNonzeroIgnoresPadding | src/lstm_adversarial_attack/attack/attack_result_data_structs.py:226-230 | the masked nonzero count of an example equals its `num_nonzero` entry |
| PerturbationSummaries.PaddingDoesNotCount | src/lstm_adversarial_attack/attack/attack_result_data_structs.py:226-230 | two tensors equal before each example's length have the same `num_nonzero`, whatever the padding holds |
| PerturbationSummaries.NumActualElements | src/lstm_adversarial_attack/attack/attack_result_data_structs.py:222-224 | one entry per example, zero iff its length or the feature count is zero, nonnegative for nonnegative lengths |
| PerturbationSummaries.ActualElementsCountCells | src/lstm_adversarial_attack/attack/attack_result_data_structs.py:222-224 | for a length in [0, max_len], `num_actual_elements` is the number of cells of the slice, hence at least `num_nonzero` |
| PerturbationSummaries.NumExamplesWithNumNonzeroLessThan | src/lstm_adversarial_attack/attack/attack_result_data_structs.py:232-233 | the number of examples whose count is below the cutoff: the size of that set, all of them iff every count is below |
| PerturbationSummaries.CountMonotoneInCutoff | src/lstm_adversarial_attack/attack/attack_result_data_structs.py:232-233 | raising the cutoff never lowers the count |
| PerturbationSummaries.NonzeroOnlyInPadding | src/lstm_adversarial_attack/attack/attack_result_data_structs.py:226-233 | a 5 × 2 perturbation of length 3 nonzero only at steps 3 and 4 has nonzero count 0, sliced and masked |
| Scenarios.BestWinsLossSequence | src/lstm_adversarial_attack/attack/attack_result_data_structs.py:45-65 | losses 5, 3, 4, 2 at epochs 0..3 leave best-wins at loss 2, epoch 3, with epoch 3's perturbation |
| Scenarios.BestWinsIgnoresWorseLoss | src/lstm_adversarial_attack/attack/attack_result_data_structs.py:45-65 | after losses 5, 3, 4 best-wins holds loss 3 from epoch 1 |
| Scenarios.FirstWinsKeepsEarlierEpoch | src/lstm_adversarial_attack/attack/attack_result_data_structs.py:45-65 | successes at epochs 2 and 5 leave first-wins at epoch 2 with epoch 2's loss and perturbation |
| Scenarios.TwoSampleBatch | src/lstm_adversarial_attack/attack/attack_result_data_structs.py:69-95 | on a two-sample batch first-wins keeps epoch 1, best-wins the better epoch 2, and the never-successful sample keeps both sentinels |
| TrainEvalLogs.PostInit | src/ehr_adversarial_attack/data_structures.py:99-104 | a log built without data starts empty; given data is kept |
| TrainEvalLogs.Update | src/ehr_adversarial_attack/data_structures.py:106-107 | one more entry, the new one last, every earlier entry unchanged and in order |
| TrainEvalLogs.LatestEntry | src/ehr_adversarial_attack/data_structures.py:109-114 | None iff the log is empty, otherwise the last entry |
| TrainEvalLogs.FreshLogHasNoLatestEntry | src/ehr_adversarial_attack/data_structures.py:102-112 | a log built without data has no latest entry |
| TrainEvalLogs.LatestEntryAfterUpdate | src/ehr_adversarial_attack/data_structures.py:106-114 | right after `update(e)` the latest entry is e |
| TrainEvalLogs.TrainLogExample | src/ehr_adversarial_attack/data_structures.py:102-114 | three training entries logged into a log built without data are held in order, and the latest entry is the third |
| TrainEvalLogs.ReplayAppends | src/ehr_adversarial_attack/data_structures.py:106-114 | a sequence of updates appends exactly its entries in order, and the latest entry is then the last appended |
| ResourceIo.Split | src/lstm_adversarial_attack/resource_io.py:31 | `str.split('.')`: at least one piece, no piece contains the separator |
| ResourceIo.JoinSplit | src/lstm_adversarial_attack/resource_io.py:31 | joining the pieces of a split with the separator gives back the string |
| ResourceIo.SplitJoin | src/lstm_adversarial_attack/resource_io.py:31 | splitting a join of separator-free pieces gives back the pieces |
| ResourceIo.LastPiece | src/lstm_adversarial_attack/resource_io.py:31 | the last piece is the longest separator-free suffix: it ends the string and is all of it or preceded by the separator |
| ResourceIo.FileExtension | src/lstm_adversarial_attack/resource_io.py:31 | "." then the longest dot-free suffix of the name; for a dotless name, "." then the whole name |
| ResourceIo.RequiredExtension | src/lstm_adversarial_attack/resource_io.py:34-51 | ".csv" for the CSV reader and ".pickle" for the three pickle readers |
| ResourceIo.ValidateImportPath | src/lstm_adversarial_attack/resource_io.py:28-32 | passes iff the path exists and its extension is the requested one; a missing path fails for its absence whatever its extension |
| ResourceIo.ValidateImport | src/lstm_adversarial_attack/resource_io.py:34-51 | each reading method passes iff the path exists and has that method's extension |
| ResourceIo.ValidateExportPath | src/lstm_adversarial_attack/resource_io.py:65-66 | passes iff the extension is ".pickle"; existence is not checked |
| ResourceIo.MissingFileRejectedFirst | src/lstm_adversarial_attack/resource_io.py:30 | a missing path is rejected as missing under every reading method |
| ResourceIo.ExtensionOfDottedName | src/lstm_adversarial_attack/resource_io.py:31 | "a.b.pickle" has extension ".pickle" |
| ResourceIo.ExportAcceptsPickle | src/lstm_adversarial_attack/resource_io.py:65-66 | "results.pickle" is accepted by the exporter |
| ResourceIo.ExportRejectsOthers | src/lstm_adversarial_attack/resource_io.py:65-66 | "results.pickle.gz" and "results.PICKLE" are rejected |
| ResourceIo.DotlessNameIsItsOwnExtension | src/lstm_adversarial_attack/resource_io.py:31-32 | a file named "pickle" passes the exporter, and an existing file named "csv" passes the CSV importer |

## Left out

- Device placement (`.to("cpu")`, the `device` field): it moves tensors between devices and changes no value.
- Floating point: losses and perturbation cells are mathematical reals, so float32 rounding and NaN are not modelled.
- The statistics of `ExamplesSummary` and `PerturbationSummaryOld` (means, standard deviations, sparsity, `sparse_small_scores`, masked-array averages, absolute values, nonzero index lists): these are floating-point aggregates over the views that are modelled.
- `TrainEpochResult.mean`, `EvalEpochResult.mean`, `from_loss_and_scores` and the `__str__` formatting: float means and text formatting.
- `TrainEvalLog.get_all_entries_of_attribute` and `data_attribute_mean`: float means reached through `getattr(entry, name=attr)`, which is not a valid call in Python.
- `orig_labels_attacked` and `orig_labels_success`: they read labels through the dataset object, an external collaborator; so does the `dataset` field of `TrainerResult`, which is not modelled.
- `recorded_examples_first/best` and `examples_summary_first/best`: they select ledger columns by `indices_trainer_success` as written, the best-wins positions behind the broadcasting check, which `SuccessSummaries.IndicesTrainerSuccessAsWritten` models; the selection itself is the one `SuccessSummaries.SelectChecked` models.
- `RecordedTrainerExamplesNP.from_recorded_trainer_examples_torch`: it copies fields.
- The attack driver, the gradient loop that produces `EpochSuccesses`, tuning drivers, configuration constants and schema records: orchestration and I/O. Epochs enter the model as a sequence of `EpochSuccesses` values.
- `dill.load`/`dill.dump`, `pd.read_csv` and `path.open`: file I/O. Existence of a path is a set of paths given as a parameter.
- The parsing of a path string into `Path.name`: a path is given as its directories and its final name.
- The importer's `_supported_file_types` table and the `ResourceType` enum: `_validate_path` does not consult them.
- The per-instance mutable default of `TrainEvalLog.data`: in a value model every log is its own value, so no two logs can share a list.
- Ledgers.Update: requires equal column lengths, distinct batch indices in `[0, n)` and perturbations of the ledger's shape. Torch raises an error on unequal column lengths, indices outside `[-n, n)` and incompatible perturbation shapes, and that error path is not modelled. Torch accepts duplicate indices, with an unspecified write surviving, and negative indices in `[-n, 0)`, counted from the end of the slot tensor; the model excludes both.
- TrainerResults.Update: does not model torch.cat's rejection of perturbations whose shapes differ between batches; every batch's columns are appended.
- PerturbationSummaries.ActualPerts: requires no more lengths than examples; the source raises an index error otherwise. PerturbationSummaries.NumNonzero inherits the same requirement.
- PerturbationSummaries.MaskMatchesSlice: requires a length in [0, max_len]. For a negative length the mask hides every row while the slice counts back from the end; lengths are never negative in practice.
- PerturbationSummaries.NumNonzeroIgnoresPadding: requires a nonnegative length, for the same reason.
- LedgerRuns.FirstWinsKeepsFirst: stated for nonnegative epoch numbers and finite submitted losses only. A `+inf` loss counts as "no entry" under first-wins, so a later epoch would overwrite it; an epoch numbered -1 writes the sentinel epoch, so the slot reads as never recorded.
- BatchResults.SuccessSetsAgree: stated for nonnegative epoch numbers and finite submitted losses only. With a `+inf` loss the two ledgers can disagree, as `SuccessSummaries.InfiniteLossSplitsLedgers` shows. With epoch number -1 a named slot keeps epoch -1 beside a finite loss, so it reads as never recorded although an epoch named it.
- SuccessSummaries.IndicesDatasetSuccess: built on the corrected agreement check, so it fails wherever the two ledgers disagree. The source's `indices_dataset_success` goes through the broadcasting check instead and can return `[]` there, for example for columns first `[0]` and best `[-1]`. `SuccessSummaries.IndicesDatasetSuccessAsWritten` models the source's composition, agrees with this member whenever the corrected check passes, and `SuccessSummaries.DisagreementSlipsThrough` shows the two diverging.
- SuccessSummaries.InputsSeqLengthsSuccess: built on the corrected agreement check in the same way; `SuccessSummaries.InputsSeqLengthsSuccessAsWritten` models the source's `inputs_seq_lengths_success` and diverges from it only where the two ledgers disagree.
- SuccessSummaries.AllEqualBroadcast: arrays of incompatible lengths give false. Depending on the numpy version the source either returns a scalar False or raises; both end the assertion in failure.

## Findings

| source | as written | input that shows it | evidently intended | confidence | as-written member | corrected member |
|---|---|---|---|---|---|---|
| src/lstm_adversarial_attack/attack/attack_result_data_structs.py:390-392 | `np.all(first == best)` compares the two position arrays under broadcasting, so a length-0 array against a length-1 array compares nothing and passes | one sample whose only epoch submits loss `+inf`: first-wins records it (positions `[0]`), best-wins does not (positions `[]`); the assertion passes and no success is reported | the assertion fails whenever the two position lists differ | medium: needs a `+inf` loss; not executed | SuccessSummaries.AsWrittenMissesDisagreement | SuccessSummaries.IndicesTrainerSuccess |

The dataset-index and length summaries use the corrected check.
