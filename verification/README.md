# Valence/arousal batch renamer: a Dafny model

This project models the scoring and renaming core of
`ValenceArousal_analysis/emotion_analyzer.py`. That script gives every `.wav`
clip in a directory a valence score (pleasantness) and an arousal score
(activation) in [-1, 1]. It works in two stages:

- For each file it extracts a 43-value acoustic feature vector.
- Across the whole corpus it z-scores each feature column. It then averages
  fixed groups of columns and min–max rescales each axis.

Finally it renames each file to `Reference_v<valence>_a<arousal><ext>`. It
never overwrites an existing file.

The model is split into one module per part of the program:

| module (file) | what it models |
|---|---|
| `Stats` (stats.dfy) | the NumPy reductions the script uses: sum, mean, min, max, and centring and scaling |
| `Optional` (option.dfy) | `None` results |
| `Audio` (audio.dfy) | decoded audio; the decoder and the extractor as parameters; the mono mix-down (lines 76-77) |
| `FileNames` (filenames.dfy) | the case-insensitive `.wav` filter; `os.path.splitext`; the new-name scheme |
| `FeatureLayout` (features.dfy) | the 43-column layout; NumPy slicing; the batch and single-file column groups |
| `SingleFile` (analyzer.dfy) | `EmotionAnalyzer.analyze_emotion`, the single-file raw mapping |
| `CorpusCollection` (corpus.dfy) | the collection loop that builds the two parallel lists (lines 69-86) |
| `Scoring` (scoring.dfy) | the z-score, the group means and the rescale (lines 90-114) |
| `Renaming` (directory.dfy) | the directory as a set of names; the rename loop (lines 115-126) |
| `Batch` (batch.dfy) | `rename_files_with_nuanced_valence_arousal` end to end |

Code that changes state step by step is imperative Dafny:

- `CollectCorpus` is a loop that appends to the two lists.
- `Directory` is a class whose `names` field changes with each `Rename`.
- `RenameAll` runs the rename loop on that class.
- The top-level batch is a method that modifies the directory.

Each of these methods is proved against a function (`Collect`, `RenameStep`,
`RenameSeq`), and the lemmas about those functions state the properties. The
z-score, the grouping, the rescale and the single-file mapping are pure
expressions in the script, so they are functions here.

Arithmetic uses Dafny's exact `real`. The script relies on these outside
services, which are parameters of the model:

- the audio decoder (`soundfile.read`);
- the feature extractor (librosa);
- the square root inside `std`;
- the `.3f` number formatter.

A decoder or extractor that would raise returns `None`. Any function may be
passed in. The model does not assume that the extractor returns 43 values.

Some behaviour of the code is easy to misread; the model follows the code:

- The batch never calls `analyze_emotion`. The single-file scores (lines 37-63)
  and the corpus scores (lines 65-126) are two separate paths, and only the
  second one renames files.
- `analyze_emotion` hands the decoded array to the extractor as it is
  (line 43); only the batch path mixes multi-channel audio down to mono
  (lines 76-77).
- The new name keeps the extension `os.path.splitext` returns, and that is empty
  for a name such as `.wav` whose only dot comes first (`FileNames.WavExtension`).
- The single-file path rejects only vectors of 16 or fewer values (the
  `IndexError` on `features[16]`). A vector of 17 to 38 values still scores,
  with clamped MFCC slices: valence averages fewer values when the vector has
  17 to 25 values, and arousal when it has 17 to 38
  (`SingleFile.RawAffectOnShortVector`, `SingleFile.RawAffectOnFullVector`).

## Model

| member | source | states |
|---|---|---|
| `Audio.EnsureMono` | ValenceArousal_analysis/emotion_analyzer.py:76-77 | The batch path always hands mono audio to the extractor. Mono input is passed on unchanged. Multi-channel input becomes the mono mix of its frames (`MonoMix`), one sample per frame. |
| `Audio.MonoMix` | ValenceArousal_analysis/emotion_analyzer.py:77 | The mix-down keeps one sample per frame, and each sample is the mean of that frame's channels. |
| `Audio.MonoMixOfIdenticalChannels` | ValenceArousal_analysis/emotion_analyzer.py:76-77 | If every channel carries the same signal, mixing down gives that signal back exactly. |
| `Audio.MonoMixWithinChannels` | ValenceArousal_analysis/emotion_analyzer.py:77 | Each mixed sample lies between the smallest and the largest channel value of its frame. |
| `FileNames.IsWavCaseInsensitive` | ValenceArousal_analysis/emotion_analyzer.py:70 | `lower().endswith('.wav')` holds exactly when the name ends in a dot followed by w, a, v in either case (both directions). |
| `FileNames.WavFilterExamples` | ValenceArousal_analysis/emotion_analyzer.py:69-70 | `X.WAV`, `x.Wav` and `song.wav` enter the corpus. `x.mp3`, `wav` and `x.wav.bak` do not. |
| `FileNames.IsWav` | ValenceArousal_analysis/emotion_analyzer.py:70 | A name that passes the filter has at least four characters, and the fourth from the end is a dot. |
| `FileNames.LastIndexOf` | ValenceArousal_analysis/emotion_analyzer.py:116 | The `rfind` inside `splitext` returns the last position holding the character, or -1 when there is none. |
| `FileNames.Extension` | ValenceArousal_analysis/emotion_analyzer.py:116 | `splitext(fname)[1]` is either empty or a suffix of the name that starts with its only dot and is shorter than the name. |
| `FileNames.WavExtension` | ValenceArousal_analysis/emotion_analyzer.py:116 | A `.wav` name's extension is its last four characters, case kept, exactly when a non-dot character comes before them. Otherwise the extension is empty. |
| `FileNames.ExtensionExamples` | ValenceArousal_analysis/emotion_analyzer.py:116 | `take1.WAV` keeps `.WAV`, and `.wav` has no extension. |
| `FileNames.RenamedWavStaysWav` | ValenceArousal_analysis/emotion_analyzer.py:116-117 | A renamed `.wav` file with a non-empty extension still passes the `.wav` filter. |
| `FileNames.NewName` | ValenceArousal_analysis/emotion_analyzer.py:117 | The new name is `Reference_v`, the formatted valence, `_a`, the formatted arousal, then the given extension, each at the stated positions, with length 13 plus the parts. |
| `FeatureLayout.Slice` | ValenceArousal_analysis/emotion_analyzer.py:49-57 | A NumPy slice never raises. Its length is `min(hi, len) - lo` when `lo` is below both `hi` and the length, and 0 otherwise. Element k is element `lo + k` of the vector. |
| `FeatureLayout.BatchValenceGroup` | ValenceArousal_analysis/emotion_analyzer.py:95-100 | The concatenated valence slices are 27 values: exactly the row's values at columns 4-15, 1, 3 and 17-29, in that order. |
| `FeatureLayout.BatchArousalGroup` | ValenceArousal_analysis/emotion_analyzer.py:101-107 | The concatenated arousal slices are 17 values: exactly the row's values at columns 0, 2, 3, 16 and 30-42, in that order. |
| `FeatureLayout.ValenceMembership` | ValenceArousal_analysis/emotion_analyzer.py:95-100 | The 27 valence columns are centroid, roll-off, chroma 4-15 and MFCC means 17-29, each exactly once. |
| `FeatureLayout.ArousalMembership` | ValenceArousal_analysis/emotion_analyzer.py:101-107 | The 17 arousal columns are zero-crossing rate, bandwidth, roll-off, RMS and MFCC deviations 30-42, each exactly once. |
| `FeatureLayout.RollOffSharedByBothAxes` | ValenceArousal_analysis/emotion_analyzer.py:95-107 | Column 3 (roll-off) is the only column on both axes, and no chroma column is in the arousal group. |
| `FeatureLayout.SingleGroupsWithinBatchGroups` | ValenceArousal_analysis/emotion_analyzer.py:47-57 | The single-file groups have 18 and 8 distinct columns. Each is a proper subset of the batch group on the same axis, and neither contains roll-off. |
| `SingleFile.RawAffect` | ValenceArousal_analysis/emotion_analyzer.py:49-57 | The mapping fails (the `IndexError` case) exactly when the vector has 16 or fewer values. |
| `SingleFile.AnalyzeEmotion` | ValenceArousal_analysis/emotion_analyzer.py:37-63 | The result is `(None, None)` exactly when decoding fails, extraction fails or the vector is too short. Otherwise it is `RawAffect` of the vector extracted from the decoded samples as they are, at the decoded rate. |
| `SingleFile.RawAffectOnFullVector` | ValenceArousal_analysis/emotion_analyzer.py:49-57 | On any vector of at least 39 values (so on every 43-value vector), valence is the mean of the 18 values at 4-15, 1 and 21-25, and arousal the mean of the 8 values at 0, 2, 16 and 34-38. |
| `SingleFile.RawAffectOnShortVector` | ValenceArousal_analysis/emotion_analyzer.py:49-57 | A vector of 17 to 21 values still scores. Valence then averages only the 13 chroma and centroid values, and arousal only zero-crossing rate, bandwidth and RMS. |
| `CorpusCollection.Load` | ValenceArousal_analysis/emotion_analyzer.py:74-78 | A decoding failure is a failure. Mono audio reaches the extractor as decoded; multi-channel audio reaches it as the mean of its channels, at the decoded rate either way. |
| `CorpusCollection.Admitted` | ValenceArousal_analysis/emotion_analyzer.py:70-80 | An admitted name passes the `.wav` filter, so it has at least four characters with a dot fourth from the end. A file that does not decode is never admitted. |
| `CorpusCollection.Collect` | ValenceArousal_analysis/emotion_analyzer.py:69-86 | The two lists have equal length. Name i is a `.wav` file whose load gives exactly vector i, and that vector has 43 values. |
| `CorpusCollection.CollectCorpus` | ValenceArousal_analysis/emotion_analyzer.py:69-86 | The loop that appends to `features_list` and `filenames` together builds exactly `Collect` of the listing. |
| `CorpusCollection.CollectMembership` | ValenceArousal_analysis/emotion_analyzer.py:69-86 | A name is in the corpus exactly when it is listed, is a `.wav` file, decodes, extracts and has 43 features. |
| `CorpusCollection.CollectConcat` | ValenceArousal_analysis/emotion_analyzer.py:73-86 | Files are processed independently: the corpus of a concatenated listing is the concatenation of the two corpora. |
| `CorpusCollection.SkipIsolation` | ValenceArousal_analysis/emotion_analyzer.py:73-86 | A file that fails, or has the wrong length, changes nothing about the corpus built from the other files. |
| `CorpusCollection.CollectNoDuplicates` | ValenceArousal_analysis/emotion_analyzer.py:69-82 | A listing without repeated names gives a corpus without repeated names. |
| `Scoring.Spread` | ValenceArousal_analysis/emotion_analyzer.py:92 | The denominator `std + 1e-8` is at least `1e-8`, so the division is always defined. |
| `Scoring.ColumnMean` | ValenceArousal_analysis/emotion_analyzer.py:92 | Each column mean lies between that column's smallest and largest value. |
| `Scoring.ZScore` | ValenceArousal_analysis/emotion_analyzer.py:92 | Normalising keeps the matrix shape: the same number of rows, 43 columns each. |
| `Scoring.ZScoreColumn` | ValenceArousal_analysis/emotion_analyzer.py:92 | Every normalised column is the raw column minus its mean, divided by its standard deviation plus epsilon. |
| `Scoring.ZScoreColumnsCentred` | ValenceArousal_analysis/emotion_analyzer.py:90-92 | Every normalised column sums to zero, so its mean is zero, for any non-negative standard deviation. |
| `Scoring.ZScorePreservesColumnOrder` | ValenceArousal_analysis/emotion_analyzer.py:92 | Within a column, one file is below another after normalising exactly when it was below it before. |
| `Scoring.ConstantColumnNormalisesToZero` | ValenceArousal_analysis/emotion_analyzer.py:92 | A column with the same value in every file becomes all zeros; epsilon prevents the division by zero. |
| `Scoring.RawValence` | ValenceArousal_analysis/emotion_analyzer.py:108 | There is one raw valence per corpus row. |
| `Scoring.RawArousal` | ValenceArousal_analysis/emotion_analyzer.py:109 | There is one raw arousal per corpus row. |
| `Scoring.RawValenceCentred` | ValenceArousal_analysis/emotion_analyzer.py:92-108 | Because every z-scored column sums to zero, the raw valences of the corpus sum to zero. So the lowest is at most 0 and the highest at least 0. |
| `Scoring.RawArousalCentred` | ValenceArousal_analysis/emotion_analyzer.py:92-109 | Because every z-scored column sums to zero, the raw arousals of the corpus sum to zero. So the lowest is at most 0 and the highest at least 0. |
| `Scoring.Stretch` | ValenceArousal_analysis/emotion_analyzer.py:113-114 | One rescaled value `r` satisfies `(r + 1) * (hi - lo) == 2 * (x - lo)`, so the rescale can be undone: the raw value is `lo + (r + 1) * (hi - lo) / 2`. |
| `Scoring.StretchBounds` | ValenceArousal_analysis/emotion_analyzer.py:113-114 | A value between min and max maps into [-1, 1]. The min maps to -1 and the max to 1. |
| `Scoring.Rescale` | ValenceArousal_analysis/emotion_analyzer.py:111-114 | The rescaled axis has one value per file, and every value lies in [-1, 1]. |
| `Scoring.RescaleReachesEnds` | ValenceArousal_analysis/emotion_analyzer.py:111-114 | When max > min, every file at the minimum gets -1, every file at the maximum gets 1, and both values occur. |
| `Scoring.RescalePreservesOrder` | ValenceArousal_analysis/emotion_analyzer.py:113-114 | When max > min, rescaling keeps `<` and `==` between any two files, in both directions. |
| `Scoring.RescaleDegenerate` | ValenceArousal_analysis/emotion_analyzer.py:113-114 | Every rescaled value is 0 exactly when max == min. |
| `Scoring.RescaleTwoFiles` | ValenceArousal_analysis/emotion_analyzer.py:111-114 | Raw axes (0.2, -0.2) and (-0.5, 0.5) rescale to (1, -1) and (-1, 1). A single file gets 0. |
| `Scoring.Score` | ValenceArousal_analysis/emotion_analyzer.py:90-114 | There is one pair per corpus row, and both coordinates lie in [-1, 1]. |
| `Scoring.ScoreIgnoresListingOrder` | ValenceArousal_analysis/emotion_analyzer.py:90-114 | A file's score depends only on its own features and the multiset of rows in the corpus. If the listing order changes, a file at row a of the reordered corpus and row b of the original gets the same pair. |
| `Scoring.ScoreSpansAxes` | ValenceArousal_analysis/emotion_analyzer.py:111-114 | Unless all files have the same raw valence, some file scores -1 and some file scores 1 on valence. The same holds for arousal. |
| `Scoring.SingleFileCorpusScoresZero` | ValenceArousal_analysis/emotion_analyzer.py:111-114 | A corpus of one file scores (0, 0). |
| `Stats.MinOf` | ValenceArousal_analysis/emotion_analyzer.py:111-112 | `min()` is an element of the axis and no element is smaller. |
| `Stats.MaxOf` | ValenceArousal_analysis/emotion_analyzer.py:111-112 | `max()` is an element of the axis and no element is larger. |
| `Renaming.Directory.List` | ValenceArousal_analysis/emotion_analyzer.py:69 | `os.listdir` lists every name in the directory exactly once, in an order the file system chooses. |
| `Renaming.Directory.Exists` | ValenceArousal_analysis/emotion_analyzer.py:122 | `os.path.exists(dst)` is true exactly when the directory holds the name. |
| `Renaming.Directory.Rename` | ValenceArousal_analysis/emotion_analyzer.py:123 | `os.rename` needs the source to exist. Afterwards the directory holds the old names minus the source plus the destination: the destination is present, and the source is gone unless it is the destination. |
| `Renaming.RenameStep` | ValenceArousal_analysis/emotion_analyzer.py:120-126 | One iteration keeps the file count and leaves the destination present. No other name disappears and only the destination can appear. The source remains exactly when source equals destination or the destination already existed. |
| `Renaming.RenameAll` | ValenceArousal_analysis/emotion_analyzer.py:115-126 | The loop leaves the directory as `RenameSeq` says. Each existence check sees the names created earlier in the same loop, and every `os.rename` finds its source. |
| `Renaming.RenameSeq` | ValenceArousal_analysis/emotion_analyzer.py:115-126 | After the whole loop the directory holds exactly as many names as before: nothing is lost or overwritten. |
| `Renaming.RenameSeqKeepsOthers` | ValenceArousal_analysis/emotion_analyzer.py:115-126 | A file that is not being renamed is still present after the loop. |
| `Renaming.RenameSeqOnlyAddsTargets` | ValenceArousal_analysis/emotion_analyzer.py:115-126 | Every name present after the loop was there before or is one of the new names. |
| `Renaming.RenameCollisions` | ValenceArousal_analysis/emotion_analyzer.py:120-126 | An existing destination is a skip. A destination created earlier in the same loop is a skip too. Source equal to destination changes nothing. |
| `Batch.NewNames` | ValenceArousal_analysis/emotion_analyzer.py:115-117 | There is one new name per corpus file, in corpus order. Name i is built from pair i and the extension of corpus file i. |
| `Batch.NothingAdmitted` | ValenceArousal_analysis/emotion_analyzer.py:87-89 | The corpus is empty exactly when no listed file is admitted. |
| `Batch.RenameCorpusFacts` | ValenceArousal_analysis/emotion_analyzer.py:115-126 | Renaming the corpus of a listing keeps the file count. Every file outside the corpus stays, and the rename loop's preconditions hold. |
| `Batch.RenameFilesWithNuancedValenceArousal` | ValenceArousal_analysis/emotion_analyzer.py:65-126 | With no admitted file the directory is unchanged (the early return). Otherwise it is the rename loop applied to the corpus and its new names. The file count is kept, and files outside the corpus are untouched. |

## Left out

- Feature extraction (`extract_features`, lines 11-35) calls librosa DSP routines on floats. It is a parameter that may return any vector or fail. Its successive `extend` calls are not modelled.
- Decoding (`soundfile.read`) is a parameter that may fail. A 2-D result is modelled as frames with at least one channel each.
- `os.listdir` is `Directory.List`, a non-deterministic choice of order (`Scoring.ScoreIgnoresListingOrder` shows that reordering the corpus rows changes no file's score). `os.path.join` is left out: both paths share one directory, so comparing paths is comparing names.
- `print` diagnostics and the command-line and `input()` handling (lines 58-59, 62, 84, 86, 88, 124, 126, 128-136) are left out.
- Floating-point rounding, NaN and infinities are not modelled: arithmetic is exact over `real`.
- The square root inside `std` is a parameter that is only required to be non-negative. The variance it is applied to is computed (population variance, as NumPy's default).
- The `.3f` formatting is a parameter, so only the structure of the new name is checked, not its digits or sign.
- `str.lower` is modelled on ASCII letters only. No non-ASCII character lowercases to `.`, `w`, `a` or `v`, so the `.wav` test is unaffected.
- `os.rename` is modelled with POSIX semantics: it would replace an existing destination, but the loop never lets it. Windows, which refuses instead, and case-insensitive file systems are not modelled.
- `Scoring.ZScoreColumnsCentred`: proves that each normalised column has mean zero, but not that it has unit variance. That holds only approximately (because of epsilon) and needs a real square root.
- `Scoring.Score`: is proved for one run. Running it twice on the same corpus gives the same result because it is a function, so no separate idempotence lemma is stated.
