# Leaf-disease classifier: encoding and ranking core

The Android app takes a photo of a leaf, crops it to a centred square, scales it to 200 x 200,
turns its pixels into a float tensor, runs an on-device TensorFlow Lite model on it and shows
the class labels ranked by the model's confidences. This Dafny project models the parts of
`MainActivity.kt` that are plain computation:

- `pixels.dfy` (`Pixels`): a Kotlin `Int` as a 32-bit two's-complement value, and the channel
  extraction `val shr 16 and 0xFF`, `val shr 8 and 0xFF`, `val and 0xFF`. An arithmetic shift
  is floor division and `and 0xFF` keeps the non-negative low byte, which Dafny's `/` and `%`
  by a positive constant compute exactly, negative pixels included. `Argb` packs four bytes
  the way Android's colour integers are laid out and is the inverse of the extraction.
- `encoding.dfy` (`Encoding`): the nested pixel loop. The source has two separate copies of
  it, one in `classifyImage` (MainActivity.kt:165-178) and one in `classifyPart3`
  (MainActivity.kt:250-263). The copies are identical except for the tensor shape declared
  before them, so the model writes the loop once.
  `EncodePixels` is an imperative method over an `array<Int32>` (the `IntArray`) that fills an
  `array<real>` (the float buffer, one cell per `putFloat`). A running `pixel` counter and a
  buffer position advance as in the source. It is proved against the specification function
  `Encode`. Both tensor variants use this one method: the plants model declares
  (1, 200, 200, 3), the Finale model (1, 3, 200, 200), and both get the interleaved buffer.
- `ranking.dfy` (`Ranking`): `mapScoresToLabels` as pure functions. It pairs each score with
  `labels[index]` and sorts by descending score with a stable sort, written as an insertion
  sort over a key function.
- `pairing.dfy` (`Pairing`): `convertToLabelScorePairs` as written. It is a loop method
  proved against a function that folds the per-index `try` block; exceptions become explicit
  bounds checks.
- `labels.dfy` (`Labels`): the 38-entry Finale label table.
- `preprocess.dfy` (`Preprocess`): the crop side `min(width, height)` and the size of the
  square thumbnail it leads to.
- `classify.dfy` (`Classify`): `classifyPart3` end to end, with the model as the function
  parameter `infer`.
- `outcomes.dfy` (`Outcomes`): `Option` and `Result` for caught and thrown exceptions.

Behaviour the model keeps exactly as the code has it:

- `mapScoresToLabels` fails at index `|labels|` when there are fewer labels than scores;
  labels beyond the last score index are ignored.
- `convertToLabelScorePairs` keeps its index shift. At MainActivity.kt:344 the loop builds the
  aligned `Pair(labels[i], outputArray[i])`, but at MainActivity.kt:346 it appends
  `labels[i - 1]` with `outputArray[i]` (see "## Findings").
- The Finale buffer keeps the interleaved order. MainActivity.kt:250 declares the shape
  (1, 3, 200, 200), channel first, while MainActivity.kt:256-262 write red, green and blue
  pixel by pixel (see "## Findings").

## Model

| member | source | states |
|---|---|---|
| Pixels.Red | app/src/main/java/com/example/multimodule/MainActivity.kt:174 | `val shr 16 and 0xFF`, a byte; see ArgbChannels, ArgbOfChannels, ChannelsIgnoreAlpha |
| Pixels.Green | app/src/main/java/com/example/multimodule/MainActivity.kt:175 | `val shr 8 and 0xFF`, a byte; see ArgbChannels, ArgbOfChannels, ChannelsIgnoreAlpha |
| Pixels.Blue | app/src/main/java/com/example/multimodule/MainActivity.kt:176 | `val and 0xFF`, a byte; see ArgbChannels, ArgbOfChannels, ChannelsIgnoreAlpha |
| Pixels.Channel | app/src/main/java/com/example/multimodule/MainActivity.kt:174-176 | channel 0, 1, 2 is red, green, blue, the order of the three `putFloat`s; see EncodeAt |
| Pixels.ArgbChannels | app/src/main/java/com/example/multimodule/MainActivity.kt:173-176 | shifting by 16, 8, 0 and masking with 0xFF gives back exactly the red, green and blue bytes a pixel was packed from, whatever its alpha byte |
| Pixels.ArgbOfChannels | app/src/main/java/com/example/multimodule/MainActivity.kt:173-176 | every 32-bit pixel, negative ones included, is the packing of its alpha, red, green and blue bytes, so extraction loses nothing but alpha |
| Pixels.ChannelsIgnoreAlpha | app/src/main/java/com/example/multimodule/MainActivity.kt:173-176 | replacing a pixel's alpha byte leaves every extracted colour channel unchanged |
| Pixels.Scale | app/src/main/java/com/example/multimodule/MainActivity.kt:174-176 | a channel divided by 255 lies in [0, 1], and multiplying by 255 gives the channel back |
| Encoding.Encode | app/src/main/java/com/example/multimodule/MainActivity.kt:171-178 | the buffer holds exactly three values per pixel read |
| Encoding.EncodeAt | app/src/main/java/com/example/multimodule/MainActivity.kt:171-178 | position 3p + c holds channel c (0 red, 1 green, 2 blue) of pixel p, scaled by 1/255 |
| Encoding.EncodeAppend | app/src/main/java/com/example/multimodule/MainActivity.kt:170-178 | the pixels are consumed in order, each once, and the encoding of a concatenation is the concatenation of the encodings |
| Encoding.EncodeInUnitInterval | app/src/main/java/com/example/multimodule/MainActivity.kt:174-176 | every value in the buffer lies in [0, 1] |
| Encoding.EncodeIgnoresAlpha | app/src/main/java/com/example/multimodule/MainActivity.kt:173-176 | pixel arrays that agree on red, green and blue give the same buffer, whatever their alpha bytes |
| Encoding.EncodeKeepsColours | app/src/main/java/com/example/multimodule/MainActivity.kt:173-176 | equal buffers come only from pixel arrays that agree on red, green and blue everywhere (with EncodeIgnoresAlpha: an if-and-only-if) |
| Encoding.ShapesMatchBuffer | app/src/main/java/com/example/multimodule/MainActivity.kt:165-166 | both declared shapes, (1, 200, 200, 3) here and (1, 3, 200, 200) at MainActivity.kt:250-251, have 120000 elements, the number of floats in the 4 * 200 * 200 * 3-byte buffer |
| Encoding.EncodePixels | app/src/main/java/com/example/multimodule/MainActivity.kt:166-178 | the loop over 200 rows and 200 columns fills a 120000-float buffer equal to `Encode` of the 40000 pixels, and writes channel c of pixel (i, j) at 3 * (200 i + j) + c |
| Encoding.PreparePlantsInput | app/src/main/java/com/example/multimodule/MainActivity.kt:165-179 | the plants-model input has shape (1, 200, 200, 3) and the interleaved buffer of the pixels |
| Encoding.PrepareFinaleInput | app/src/main/java/com/example/multimodule/MainActivity.kt:250-264 | the Finale-model input declares shape (1, 3, 200, 200) but carries the same interleaved buffer as the plants-model input for the same pixels |
| Encoding.FinaleBufferNotChannelFirst | app/src/main/java/com/example/multimodule/MainActivity.kt:250-263 | when the green of pixel 0 differs from the red of pixel 1, the Finale buffer does not hold the red of pixel 1 where the channel-first shape places it |
| Encoding.FinaleGreenPixelScenario | app/src/main/java/com/example/multimodule/MainActivity.kt:250-263 | a pure-green first pixel followed by black pixels puts 1.0 where the channel-first shape expects the red of pixel 1, which is 0 |
| Encoding.EncodeChannelFirst | app/src/main/java/com/example/multimodule/MainActivity.kt:250-263 | corrected encoder: channel c of pixel p lands at c * 40000 + p, the flat position of element (0, c, i, j) of a (1, 3, 200, 200) tensor |
| Labels.FinaleLabels | app/src/main/java/com/example/multimodule/MainActivity.kt:275-314 | the 38 class names in score order; see FinaleLabelsDistinct |
| Labels.FinaleLabelsDistinct | app/src/main/java/com/example/multimodule/MainActivity.kt:275-314 | the Finale label table has 38 entries and no class name twice |
| Preprocess.CropSide | app/src/main/java/com/example/multimodule/MainActivity.kt:139 | the crop side is no larger than either side of the picture and equals one of them |
| Preprocess.CropSideIsLargest | app/src/main/java/com/example/multimodule/MainActivity.kt:139 | every square that fits in the picture is at most the crop side |
| Preprocess.SquareImageUncropped | app/src/main/java/com/example/multimodule/MainActivity.kt:139 | a square picture keeps its full side |
| Preprocess.Thumbnail | app/src/main/java/com/example/multimodule/MainActivity.kt:139-141 | the thumbnail is a square whose side is the crop side `min(width, height)`, so it fits inside the picture |
| Ranking.IndexedPairs | app/src/main/java/com/example/multimodule/MainActivity.kt:327-329 | `mapIndexed`: score i with `labels[i]`, in index order; see MapScoresToLabels, RankIsStable, RankIgnoresExtraLabels |
| Ranking.Insert | app/src/main/java/com/example/multimodule/MainActivity.kt:331 | one step of the stable sort, placing an element before the first element whose score is not larger; on a list already ordered by descending score, which is the only way SortByDescending uses it, that is ahead of every element whose score is not larger; see InsertPermutation, InsertNonIncreasing, InsertStable |
| Ranking.SortByDescending | app/src/main/java/com/example/multimodule/MainActivity.kt:331 | `sortedByDescending`; see SortPermutation, SortNonIncreasing, SortStable, SortKeepsOrderedInput |
| Ranking.MapScoresToLabels | app/src/main/java/com/example/multimodule/MainActivity.kt:326-334 | fails, at index `|labels|`, exactly when there are fewer labels than scores; otherwise returns as many entries as scores, a permutation of the pairs (labels[i], scores[i]), ordered by score with the largest first |
| Ranking.InsertPermutation | app/src/main/java/com/example/multimodule/MainActivity.kt:331 | inserting adds exactly one element to the multiset |
| Ranking.InsertNonIncreasing | app/src/main/java/com/example/multimodule/MainActivity.kt:331 | inserting into a list ordered by descending key keeps it ordered |
| Ranking.InsertStable | app/src/main/java/com/example/multimodule/MainActivity.kt:331 | inserting an element whose tag precedes every other tag keeps equal keys in increasing tag order |
| Ranking.SortPermutation | app/src/main/java/com/example/multimodule/MainActivity.kt:331 | sorting by descending key only reorders: same multiset, same length |
| Ranking.SortNonIncreasing | app/src/main/java/com/example/multimodule/MainActivity.kt:331 | the sorted list is non-increasing in the key |
| Ranking.SortStable | app/src/main/java/com/example/multimodule/MainActivity.kt:331 | elements with equal keys keep their original relative order |
| Ranking.SortKeepsOrderedInput | app/src/main/java/com/example/multimodule/MainActivity.kt:331 | a list already non-increasing in the key is returned unchanged |
| Ranking.SortIdempotent | app/src/main/java/com/example/multimodule/MainActivity.kt:331 | sorting a sorted result changes nothing |
| Ranking.UntagSort | app/src/main/java/com/example/multimodule/MainActivity.kt:327-331 | sorting index-tagged pairs and dropping the indices gives the same list as sorting the pairs |
| Ranking.RankIsStable | app/src/main/java/com/example/multimodule/MainActivity.kt:327-331 | the ranking is the index-tagged pairs sorted by score; each (index, label, score) appears once, and among equal scores the original indices increase |
| Ranking.RankKeepsOrderedScores | app/src/main/java/com/example/multimodule/MainActivity.kt:326-334 | scores already in non-increasing order come back as the plain pairs, in their original order |
| Ranking.RankIgnoresExtraLabels | app/src/main/java/com/example/multimodule/MainActivity.kt:327-329 | labels beyond the last score index do not affect the result |
| Ranking.RankScenarioDistinct | app/src/main/java/com/example/multimodule/MainActivity.kt:326-334 | scores [0.1, 0.9, 0.3] with labels A, B, C rank as B 0.9, C 0.3, A 0.1 |
| Ranking.RankScenarioTie | app/src/main/java/com/example/multimodule/MainActivity.kt:326-334 | equal scores 0.5, 0.5 with labels X, Y keep the order X, Y |
| Pairing.TryPair | app/src/main/java/com/example/multimodule/MainActivity.kt:343-349 | one pass of the `try` block: nothing when `labels[i]` or `labels[i - 1]` is out of range, else `(labels[i - 1], output[i])`; see CollectedClosedForm |
| Pairing.Collected | app/src/main/java/com/example/multimodule/MainActivity.kt:340-350 | the list after the loop has run for the first n indices; see CollectedClosedForm, ConvertToLabelScorePairs |
| Pairing.CollectedClosedForm | app/src/main/java/com/example/multimodule/MainActivity.kt:342-350 | after the loop over indices below n, the list has max(0, min(n, |labels|) - 1) entries and entry k is (labels[k], output[k + 1]) |
| Pairing.ConvertToLabelScorePairs | app/src/main/java/com/example/multimodule/MainActivity.kt:336-353 | never fails; returns exactly the pairs (labels[i - 1], output[i]) for i = 1 .. min(|output|, |labels|) - 1, in increasing i, so the score at index 0 is always dropped |
| Pairing.ShiftedPairsMisalign | app/src/main/java/com/example/multimodule/MainActivity.kt:344-346 | when the first two scores differ, the first label is paired with the second score instead of its own |
| Pairing.ShiftedPairsScenario | app/src/main/java/com/example/multimodule/MainActivity.kt:342-352 | scores [0.1, 0.9] with labels A, B give the single pair (A, 0.9) |
| Pairing.ConvertToAlignedPairs | app/src/main/java/com/example/multimodule/MainActivity.kt:342-350 | corrected loop: min(|output|, |labels|) pairs, entry k being (labels[k], output[k]) |
| Classify.RankedEntriesComeFromTable | app/src/main/java/com/example/multimodule/MainActivity.kt:316 | every ranked entry is (labels[i], scores[i]) for some score index i |
| Classify.ClassifyFinale | app/src/main/java/com/example/multimodule/MainActivity.kt:246-323 | the result is the ranking of the model's confidences on the interleaved buffer against the 38 Finale labels; it fails exactly when the model returns more than 38 confidences; otherwise it is ordered by score, has one entry per confidence and names only Finale classes |

## Findings

| source | as written | input that shows it | evidently intended | confidence | as-written member | corrected member |
|---|---|---|---|---|---|---|
| app/src/main/java/com/example/multimodule/MainActivity.kt:346 | appends `(labels[i - 1], outputArray[i])` | output [0.1, 0.9], labels ["A", "B"] gives [("A", 0.9)]: A gets B's score and B is dropped | `(labels[i], outputArray[i])`, so every score keeps its own label | high; not executed | Pairing.ShiftedPairsMisalign | Pairing.ConvertToAlignedPairs |
| app/src/main/java/com/example/multimodule/MainActivity.kt:250-263 | declares shape (1, 3, 200, 200) and writes R, G, B interleaved per pixel | a pure-green pixel 0 followed by black pixels: the flat position of element (0, 0, 0, 1), the red of pixel 1, holds 1.0 | channel c of pixel p at c * 40000 + p, matching the declared channel-first shape | medium (the model file is not available to show which layout it expects); not executed | Encoding.FinaleBufferNotChannelFirst | Encoding.EncodeChannelFirst |

The main model keeps both behaviours as written (`Pairing.ConvertToLabelScorePairs`,
`Encoding.PrepareFinaleInput`, `Classify.ClassifyFinale`). Nothing in the app calls
`convertToLabelScorePairs`.

## Left out

- The Compose UI: `MainActivity`, `CaptureImage`, its buttons, activity-result launchers and `remember` state cells. This is event plumbing with no computation of its own beyond the crop side, which is modelled.
- `uriToBitmap`: content-resolver and file-descriptor I/O.
- The TensorFlow Lite models (`PlantsModel`, `Model`, `Finale`: `newInstance`, `process`, `close`) and `TensorBuffer.loadBuffer`. These are foreign calls. `ClassifyFinale` takes inference as the parameter `infer`, and the acquire/release of the model is not modelled.
- `classifyPart2`: it only feeds the constant 0.5 to an opaque model and logs the output.
- The rest of `classifyImage` after the encoding: it only logs the output and decodes a zero-filled byte array of `remaining()` bytes that is never filled from the output buffer.
- `extractPredictions`: `org.json` parsing of `buffer.toString()`.
- `Bitmap.getPixels`: the pixel array is the input of the encoder, taken as already filled in row-major order.
- `ThumbnailUtils.extractThumbnail` and `Bitmap.createScaledBitmap`: this is library code. Only the thumbnail's size is modelled, not the crop offset or the sampled pixels. The scaled 200 x 200 size appears only as the constants `Encoding.ImageSize` and `Encoding.PixelCount`, which the encoder requires.
- Float32 arithmetic: `c / 255f` is the exact ratio c/255 as a `real`. Rounding and the buffer's native byte order are not modelled. The buffer has one cell per `putFloat`, not four bytes.
- Score ordering of special floats: scores are `real`, so NaN and the ordering of -0.0 before 0.0 in `Float.compareTo` are not modelled.
- `Log.i` and `println` calls, including the log line inside the `convertToLabelScorePairs` loop. Their only effect on the model is the `labels[i]` lookup, which is kept as a bounds check.
