# WaveNet vocoder training: data windowing and loop cadence

This project models, in Dafny, the data-handling core of `train.py` of a WaveNet vocoder
trainer: the length aligner `validate_length`, the endless training-batch generator
`custom_generator`, the iteration / report / checkpoint cadence of the main training loop,
and the checkpoint file name built by `save_checkpoint`. Audio samples and feature frames
are abstract sequences, so everything is index arithmetic on finite sequences.

Modules:

- `Results` (results.dfy): `Option` and `Result`.
- `Seqs` (seqs.dfy): Python slicing (`s[:-1]`, `s[1:]`, `s[k:]`), `zip`, element-wise map, and
  permutations as `np.random.permutation` returns them, with the proof that reordering by
  a permutation keeps the multiset of elements.
- `Align` (align.dfy): `validate_length`.
- `Corpus` (corpus.dfy): the audio and feature path lists, `str.replace`, and shuffling both
  lists with one permutation.
- `Windowing` (windowing.dfy): speaker-code tiling, the windows the drain loop cuts from a
  buffer, their number, overlap and loss positions, and the (input, features, target) batch.
- `Generator` (generator.dfy): the generator as an explicit `State` record (path-list order,
  file cursor, buffer pair, number of permutations drawn) with a small-step `Step` function
  and `NextBatch`, which steps until a batch comes out. Liveness is proved separately:
  `Productive`, `Starves`, `FirstBatchIff`, `Endless`.
- `Checkpoint` (checkpoint.dfy): `"%d"` formatting, the checkpoint file name, and the
  checkpoint directory as a map from file names to stored iteration counts.
- `Resumption` (resumption.dfy): a generic step function `T -> (T, Option<B>)` run for a
  number of steps (`Steps`), resumed until it emits (`Resume`), and resumed repeatedly
  (`Repeat`), with the proofs that resuming is running some number of steps.
- `Training` (training.dfy): the main loop as a method `RunLoop` with loop invariants, and the
  resume rule.

Outside inputs are parameters of the generator's `Config`. These are the sorted file-name
list, the file readers, the speaker-code reader, the transforms, and `draw(d)`, the
permutation returned by the `d`-th call of `np.random.permutation`.

Two behaviours of the code fix the numbers the model works with:

- **Window count.** The drain loop's guard at train.py line 68 is strict
  (`len(x_buffer) > receptive_field + batch_size`). So a file of aligned length `L` yields as
  many windows as there are `k >= 0` with `L - k*B > R + B`. For `L > R + B` that is
  `(L - R - B - 1) / B + 1`, which is `ceil((L - R - B) / B)`. A length of exactly `R + B`
  yields no window. With `L = 50000`, `R = 2000` and `B = 20000` there are two windows,
  `[0, 22000)` and `[20000, 42000)` (`Windowing.WindowsExample`). The buffer left after them
  holds the 10000 samples `[40000, 50000)`, and they are dropped.
- **Resume.** The checkpoint labelled `i + 1` is written after iteration `i` (train.py
  line 243), and a resumed loop starts its range at the stored label (lines 208 and 216). So
  a resumed run repeats no iteration and skips none: `Training.ResumeContinues` shows that
  the iterations before the save and those after the resume add up to exactly the
  iterations of an uninterrupted run.

Two further consequences of the code are stated as lemmas:

- In fixed-batch mode, the loss of window `k` covers buffer positions `[k*B + R + 1, k*B + R + B)`
  (`Windowing.WindowLossPositions`). That is `B - 1` targets per window. The position
  `k*B + R` between two consecutive ranges is a loss target of no window
  (`Windowing.SeparatorsAreNeverTargets`).
- After resuming from a label `k` that `interval` does not divide, the first `Report` event,
  labelled `l`, has `batches == min(|interval|, l - k)`, fewer than `|interval|`
  (`Training.ReportedWhenDue`). The source still divides the sums by `interval` (line
  233).

## Model

| member | source | states |
|---|---|---|
| `Align.ValidateLength` | train.py:21-29 | both results have length `min(|x|, |y|)`; each is a prefix of its input; an input no longer than the other comes back unchanged; so the trailing length assert cannot fail |
| `Align.AlignIdempotent` | train.py:21-29 | aligning an aligned pair changes nothing |
| `Align.AlignSymmetric` | train.py:21-29 | swapping the arguments swaps the results |
| `Align.AlignKeepsLongestPrefixes` | train.py:21-29 | for any `m` up to both lengths, the aligned results have at least `m` entries and agree with the inputs on the first `m`: only the excess of the longer input is trimmed |
| `Corpus.ReplaceAll` | train.py:39 | `str.replace` returns a string in which the pattern does not occur unchanged |
| `Corpus.ReplaceAroundWav` | train.py:39 | every occurrence of `.wav` is replaced: for any texts `a` and `b`, replacing in `a + ".wav" + b` gives the replacement of `a`, then `.h5`, then the replacement of `b` |
| `Corpus.FeatPath` | train.py:39 | the feature path is the name under `feat_dir`, unchanged when the name does not contain `.wav` |
| `Corpus.FeatPathAroundWav` | train.py:39 | the feature path of `a + ".wav" + b` replaces that occurrence by `.h5` and every occurrence in `a` and in `b` as well |
| `Corpus.ReplaceWavSuffix` | train.py:39 | for any stem, replacing in `stem + ".wav"` equals replacing in the stem followed by `.h5`: no occurrence straddles the extension |
| `Corpus.PairSharesStem` | train.py:37-39 | for `stem.wav` with no `.wav` in the stem, the audio path is `wav_dir/stem.wav` and the feature path is `feat_dir/stem.h5` |
| `Corpus.FeatPathOfWavName` | train.py:39 | for any file name `stem.wav` whose stem does not contain `.wav`, the feature path is `feat_dir/stem.h5` |
| `Corpus.WavPathInjective` | train.py:38 | in one directory, two audio paths are equal iff the file names are |
| `Corpus.WavListInjective` | train.py:38 | two entries of `wav_list` are equal iff their file names are |
| `Corpus.EntryOfWavName` | train.py:37-39 | the entry for `stem.wav` pairs `wav_dir/stem.wav` with `feat_dir/stem.h5`: audio and features share the stem |
| `Corpus.EntriesPairFunctionally` | train.py:37-39 | two entries with the same audio path have the same feature path, so the pairing is a function of the audio file |
| `Corpus.Shuffle` | train.py:41-46 | both lists are reordered by the same permutation: position `k` of each comes from position `idx[k]`, so every pair stays matched, and the multiset of pairs is unchanged |
| `Seqs.PermutePreservesMultiset` | train.py:44-46 | reordering a list by a permutation of its indices keeps exactly its elements with their multiplicities |
| `Windowing.AppendSpeakerCode` | train.py:53-56 | the frame count is unchanged and every frame becomes the original frame followed by the speaker code |
| `Windowing.TilingCommutesWithAlignment` | train.py:53-59 | tiling before aligning, as the source does, gives the same samples and frames as aligning first and tiling the survivors |
| `Windowing.MakeBatch` | train.py:72-79 | input and target have one entry less than the window; `target[i] == input[i+1]`; input entry `i` is the transformed window entry `i` and target entry `i` is transformed window entry `i+1`; the features drop their last frame |
| `Windowing.BatchReassembles` | train.py:77-79 | the transformed window is recovered as input plus last target, and as first input plus target |
| `Windowing.WindowCount` | train.py:68 | the window count `n` satisfies `k < n` iff `L - k*B > R + B` for every `k >= 0`; it is positive iff `L > R + B`, so `L = R + B` gives none |
| `Windowing.Windows` | train.py:62-84 | the drain loop yields `WindowCount(L, R, B)` windows, and window `k` is exactly buffer positions `[k*B, k*B + R + B)` |
| `Windowing.WindowsOverlap` | train.py:68-84 | consecutive windows have length `R + B` and share exactly `R` positions: the last `R` of window `k` are the first `R` of window `k+1` |
| `Windowing.WindowsDropOnlyShortRemainder` | train.py:68-84 | after the last window the advanced buffer holds at most `R + B` entries, too few for the loop guard, and they are dropped |
| `Windowing.WindowsExample` | train.py:68-84 | 50000 samples, `R = 2000`, `B = 20000`: exactly two windows, `[0, 22000)` and `[20000, 42000)` |
| `Windowing.LossTargets` | train.py:221 | Python's `batch_target[receptive_field:]`: the targets after the first `R`, empty when there are no more than `R` |
| `Windowing.WindowLossTargets` | train.py:220-221 | for a window of `R + B` samples, input, target and features have `R + B - 1` entries, and the loss sees `B - 1` targets, the transformed window entries `[R + 1, R + B)` |
| `Windowing.WindowLossPositions` | train.py:220-221 | in buffer coordinates the loss targets of window `k` are positions `[k*B + R + 1, k*B + R + B)` |
| `Windowing.SeparatorsAreNeverTargets` | train.py:220-221 | for every `k`, buffer position `k*B + R` lies outside the loss range of every window, so one sample per window step is never trained on |
| `Generator.Start` | train.py:37-46 | the initial state has cursor 0 and empty buffers, keeps the pairing invariant, and holds the path lists in listing order or, when shuffling, both lists reordered by the first draw |
| `Generator.Load` | train.py:51-59 | the loaded pair has the aligned length `min(samples, frames)`; the samples are a prefix of the file's samples; frame `i` is the file's frame `i`, followed by the speaker code when enabled |
| `Generator.Reshuffle` | train.py:99-103 | the cursor returns to 0 and the buffers are untouched; when shuffling, position `k` of both lists comes from position `draw(d)[k]` and the draw count advances, otherwise the order is unchanged |
| `Generator.Step` | train.py:49-103 | a step yields a batch iff fixed-batch mode has a window ready or whole-utterance mode has a file left in the pass; every yielded batch is well formed; the pairing invariant is kept |
| `Generator.NextBatch` | train.py:49-103 | a yielded batch has equal-length input, features and target, satisfies `target[i] == input[i+1]`, has length `R + B - 1` in fixed-batch mode, and leaves a state satisfying the invariant |
| `Generator.Run` | train.py:49-103 | running `m` steps yields at most `m` batches, all well formed, and keeps the invariant |
| `Generator.RunIsSteps` | train.py:49-103 | running `m` steps is the generic step iteration `Steps` of the generator's step function |
| `Generator.NextBatchIsResume` | train.py:49-103 | one resumption is the generic `Resume` of the generator's step function with the same step budget |
| `Generator.NextBatchIsRun` | train.py:49-103 | a batch returned by `NextBatch` is the one batch that `m` steps yield, for some `1 <= m <= fuel`, and its state is where those steps end |
| `Generator.DrainEmitsWindows` | train.py:62-84 | starting from a buffer, the next `n` steps (`n` its window count) yield exactly the batches of its windows in order and leave the buffer advanced by `n*B` with the rest of the state unchanged |
| `Generator.LoadStep` | train.py:62-68 | with no window ready in fixed-batch mode, a step loads the next file into a fresh buffer and yields nothing; the buffer then has a window iff the file's aligned length exceeds `R + B` |
| `Generator.WholeUtteranceBatch` | train.py:86-97 | in whole-utterance mode a step yields one batch whose input and target span the whole aligned utterance of the next file, shifted by one, and advances the cursor by one |
| `Generator.EndOfPass` | train.py:99-103 | past the last file with no window left, a step yields nothing, resets the cursor, and reorders both lists by the next draw when shuffling |
| `Generator.Productive` | train.py:49-103 | if some file is long enough (fixed-batch mode) or the corpus is non-empty (whole-utterance mode), a batch comes out within `2n + 2` steps from any state |
| `Generator.Starves` | train.py:49-84 | otherwise, with no window ready, no number of steps yields a batch |
| `Generator.FirstBatchIff` | train.py:37-103 | a fresh generator yields a first batch iff the corpus can feed it |
| `Generator.Take` | train.py:216-218 | pulling `count` batches in a row gives `count` well-formed batches and a state satisfying the invariant |
| `Generator.TakeIsRepeat` | train.py:216-218 | pulling `count` batches is the generic `Repeat` of the generator's step function |
| `Generator.TakeIsRun` | train.py:216-218 | the batches of `count` pulls are exactly the batches of some run of `m <= count * Fuel` steps, in order, ending in the returned state |
| `Generator.Endless` | train.py:49-103 | on a corpus that can feed it, pulling any number of batches succeeds |
| `Resumption.ResumeIsSteps` | train.py:49-103 | resuming until a value comes out is running some `1 <= m <= fuel` steps that emit exactly that value |
| `Resumption.StepsAppend` | train.py:49-103 | running `a + b` steps is running `a` steps then `b` more, concatenating the emitted values |
| `Resumption.RepeatIsSteps` | train.py:216-218 | `count` resumptions in a row emit exactly what some run of `m <= count * fuel` steps emits, in order |
| `Checkpoint.NatDigits` | train.py:114 | `%d` of a non-negative number is a non-empty digit string without leading zeros |
| `Checkpoint.FormatRoundTrip` | train.py:114 | parsing the `%d` text of any integer gives the integer back |
| `Checkpoint.FormatInt` | train.py:114 | `%d` gives a leading `-` iff the value is negative, followed by a non-empty digit string without leading zeros |
| `Checkpoint.CheckpointName` | train.py:114 | the label can be read back from `dir + "/checkpoint-" + %d(label) + ".pkl"`, so labels and file names correspond one to one |
| `Checkpoint.Save` | train.py:106-115 | saving adds or replaces exactly the file of that label, which then holds the label, and keeps every other file |
| `Checkpoint.SaveAll` | train.py:241-246 | after a run's saves the directory holds exactly its earlier files plus one file per saved label |
| `Checkpoint.SaveAllKeepsEveryLabel` | train.py:241-246 | after a run's saves, every saved label has its own file holding that label, and every file that is not the checkpoint of a saved label keeps its contents |
| `Training.RunLoop` | train.py:213-246 | the run fails iff it has an iteration and the interval or checkpoint period is 0. Otherwise it runs iterations `start..n_iters-1` in order. It reports at exactly the labels `l` in `(start, n_iters]` with `interval` dividing `l`, in increasing order, each over `min(|interval|, l - start)` batches. It saves at exactly the labels in that range the period divides, in increasing order, then once more at `n_iters`. Reports and saves together come in label order, and a report comes before the save with the same label |
| `Training.TraceOfLoop` | train.py:213-246 | the reference events of iterations `start..n_iters-1` followed by the final save form a completed-run trace |
| `Training.ResumeContinues` | train.py:203-216 | resuming from label `k` runs `n_iters - k` iterations, all later than those already run, together exactly an uninterrupted run's; reports and saves are the uninterrupted run's after `k`, plus the final save |
| `Training.SavedAfter` | train.py:241-246 | every save of a completed run, the final one included, comes after exactly the iterations from the start up to its label |
| `Training.ReportedWhenDue` | train.py:231-239 | a completed run reports label `l` over `n` batches iff `interval` divides `l`, `l` is in `(start, n_iters]`, and `n` is `min(|interval|, l - start)` |
| `Training.SavedBefore` | train.py:241-243 | a completed run saves `l` before its final save iff the checkpoint period divides `l` and `l` is in `(start, n_iters]` |
| `Training.ResumeFromSavedFile` | train.py:204-211 | a run resumed from the file saved for label `l` starts at iteration `l` |

## Left out

- Audio and feature reading (`sf.read`, `read_hdf5`) and directory listing (`find_files`). These are I/O. The sorted file-name list and the readers are parameters, and whether a listed file exists is not modelled.
- `np.random.permutation`. Randomness is the `draw` parameter, required to give a permutation of the file indices.
- The transforms `encode_mu_law`, `StandardScaler.transform` and torch `Variable`/`.cuda()`. These are floating point and foreign calls. They are abstract element-wise functions on samples and on frames.
- The reshapes `unsqueeze(0)` and `transpose(0, 1)`. They add a batch axis and make the features channel-first without changing the contents, so batches keep the frame-sequence layout.
- The WaveNet model, Adam, `CrossEntropyLoss`, backpropagation, and the model and optimizer state in checkpoints. `torch.save`/`torch.load` and `os.makedirs` are left out too. These are numeric black boxes, serialisation and file-system effects. A checkpoint holds only its iteration count, and an unreadable resume file is not modelled.
- The GPU check and `sys.exit`, argparse, logging, wall-clock timing, the floating-point loss and time averages, and the remaining-time estimate.
- Negative `batch_size` or `receptive_field`: both are natural numbers here. Python slicing with negative bounds counts from the end, which the training script never intends.
- `Windowing.Windows`, `Windowing.WindowCount` and `Generator.DrainEmitsWindows` require `batch_size > 0`. With a batch size of 0 the source's drain loop never advances and yields the same window forever. `Generator.Step` models that case, but the window lemmas do not cover it.
- `Generator.NextBatch`: takes a step budget (fuel) instead of running unboundedly, because a corpus with no long-enough file makes the source loop forever without yielding. `Generator.Productive` shows that `2n + 2` steps always suffice when the corpus can feed the generator, and `Generator.Starves` shows that no budget suffices otherwise.
- `Training.RunLoop`: on a zero interval or checkpoint period it returns only the error. It does not record the iteration that trained before `ZeroDivisionError` was raised.
- The `custom_generator` defaults `receptive_field=None`, `wav_transform=None` and `feat_transform=None` (train.py lines 32-33). In fixed-batch mode a missing receptive field makes the guard at line 68 raise `TypeError`, and a missing transform leaves a NumPy array whose `.unsqueeze` (lines 77 and 93) raises `AttributeError`. The training script always supplies all three (lines 199-201), so the receptive field is a natural number and both transforms are always applied.
- `Corpus.ReplaceAll` requires a non-empty pattern. Python's `str.replace` with an empty pattern inserts the replacement between all characters, but the script only ever replaces `.wav`.
