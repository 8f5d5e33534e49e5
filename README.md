# Aves: a verified model of the bird detector and the capture service

Aves is a web application for photographing birds and identifying them. This project models
its computational core in Dafny and proves properties of that model:

- **Image analysis on the server** (`processImage`, `backend/src/services/birdDetection.ts`).
  It loads the detector session once and caches it. The resized RGB image is rearranged from
  its interleaved (height, width, channel) layout into the planar (channel, height, width)
  tensor, and each byte is divided by 255. The detector output is read as rows of 85 values:
  box, objectness and 80 class scores. Each row's class scores go through a softmax. A row
  becomes a candidate when its first most probable class is COCO class 14 (`bird`), its
  clamped confidence is above 0.3, its area is above 0.01, and its box lies inside the unit
  square. The candidates are sorted by descending confidence with a stable sort. Greedy
  non-maximum suppression then drops every box whose IoU with an already kept box is above
  0.45. An empty result is replaced by a single "unknown" detection.
- **IoU** (`computeIoU`, `backend/src/utils/box.ts`): the overlap area over the union area,
  zero when the boxes do not overlap.
- **The species table** (`backend/src/data/birdLabels.ts`) with 15 Brazilian species, and the
  two resolvers `isBirdClass` and `mapToKnownSpecies`. The resolvers match a lower-cased label
  against the table by substring search. The score is 5 for the scientific name, 3 per common
  name and 1 per keyword. The resolved species is the head of the stably sorted scores, so a
  tie goes to the species listed first.
- **The live detector hook** (`frontend/src/hooks/use-bird-detection.ts`).
  - `processFrame` first checks its guards and a 500 ms rate limit. It then copies the RGBA
    canvas into the input tensor, keeps the rows whose objectness is above 0.5, and is meant
    to return the first kept row with its box scaled to the video. As written, it reads the
    row count from `.dims` on the output's typed array, which has no such property, so every
    frame that reaches the decode returns null (see Findings). The model follows the intended
    decode.
  - `startDetection` repeats this on every animation frame until its cleanup runs.
  - `stopDetection` cancels the pending frame.
  - `FrameProcessor` is a class over the hook's refs. Its invariant: the processed frames
    are at least 500 ms apart, and the last one is at `lastProcessTime`.
- **The capture service** (`frontend/src/services/capture.service.ts`), in the computations
  around its storage and database calls:
  - the upload path `${userId}/${Date.now()}.${ext}`;
  - the inclusive page range of a listing;
  - the species and confidence shown for a capture (an `||` chain of fallbacks);
  - the storage path cut from an image URL;
  - the per-day capture counts;
  - the species tally with its top entries.

Pure code (the decode tests, the softmax, IoU, the resolvers, the path and paging computations)
becomes functions and lemmas. Code with loops becomes methods with loop invariants, proved equal
to those functions:

- the backend decode loop, the suppression loops and the pre-processing triple loop;
- the RGBA copy and the row loop of the hook;
- the `reduce`/`forEach` tallies.

State the source keeps between calls becomes classes:

- the cached session (`ModelLoader`);
- the hook's refs (`FrameProcessor`);
- the `isRunning` flag of one `startDetection` call (`Stream`).

Where the code does something other than what its comments say, the model follows the code:

- The hook declares its input tensor with shape `[1, 3, height, width]` but fills it interleaved
  (`3i + c`). `RgbOfChannels` states the layout the code writes.
- The hook reads the row count as `(predictions as any).dims[0]` on `outputs['output0'].data`. That is a typed array, and `dims` belongs to the tensor, so the read throws and the `catch` returns null. The model decodes with the intended row count and logs the discrepancy under Findings.
- The hook's "best detection" is `detections[0]`, which is the first row (in row order) whose
  objectness is above 0.5. It is not the most confident row: the comment beside it assumes the
  rows are sorted by confidence, and nothing sorts them. `FrameResultIsFirstKept` states it.
- `mapToKnownSpecies` sorts the matches in place and takes the head. Because the sort is stable,
  two species with the same score resolve to the one listed first in the table.
  `SabiaResolvesToFirstListed` shows this for the label `sabia`, whose keyword is listed by two
  entries.

Modules:

- `Wrappers`: `Option` and `Result`.
- `Strings`: `toLowerCase`, `includes`, `split` and `join` on one character, and decimal
  rendering.
- `Sorting`: `Math.max`, `indexOf(Math.max(...))` and the stable descending sort.
- `Selection`: the shape of the two decode loops.
- `Greedy`: greedy suppression over any conflict relation.
- `Box`, `Pixels`, `Detections`: boxes, byte normalisation, and the detection record.
- `Decode`, `Preprocess`, `Nms`, `BirdDetection`: the server path.
- `BirdLabels`, `SpeciesResolver`, `ThrushTerms`, `SpeciesScenario`: the table, the resolvers,
  and three concrete labels.
- `LiveDetection`: the hook.
- `CaptureService`: the service.

The environment enters as parameters:

- Clock readings (`now`, `detectionTime`, `endDay`) are parameters.
- `Math.exp` is a parameter `exp` with positive values; nothing else is assumed of it.
- The outcome of creating the detector session is a `Result` parameter.
- The detector output is a parameter. In the hook it is `None` when inference threw; on the
  server it is a `Result` whose error is what the download, the image library or the session
  threw.
- The image decoded and resized by the image library is a byte-sequence parameter.
- Whether the cleanup ran during an awaited frame is a boolean, and so is the presence of the
  session, video, canvas and 2D context.
- The animation-frame id is a parameter.

## Model

| member | source | states |
|---|---|---|
| Strings.LowerChar | backend/src/services/birdDetection.ts:248 | a Latin capital becomes the letter 32 code points higher, every other character is unchanged, and the result is never a capital |
| Strings.ToLower | backend/src/services/birdDetection.ts:276 | lower-casing keeps the length of the string |
| Strings.ToLowerIsLower | backend/src/services/birdDetection.ts:248 | a lower-cased label holds no capitals, and a label without capitals is its own lower-case form |
| Strings.ToLowerIdempotent | backend/src/services/birdDetection.ts:276 | lower-casing an already lower-cased label changes nothing |
| Strings.ToLowerAppend | backend/src/services/birdDetection.ts:269 | lower-casing works character by character, so it distributes over concatenation |
| Strings.ContainsEmpty | backend/src/services/birdDetection.ts:271 | every string includes the empty string |
| Strings.ContainsMiddle | backend/src/services/birdDetection.ts:271 | a string includes every term placed inside it |
| Strings.ContainsChars | backend/src/services/birdDetection.ts:271 | every character of an included term occurs in the string |
| Strings.NotContainsMissingChar | backend/src/services/birdDetection.ts:271 | a term with a character the string lacks is not included |
| Strings.NotContainsLoweredMissing | backend/src/services/birdDetection.ts:283 | a lower-cased term is not included when the lower-case form of one of its characters is missing from the string |
| Strings.NotContainsShort | backend/src/services/birdDetection.ts:271 | a term longer than the string is not included |
| Strings.NotContainsSplit | backend/src/services/birdDetection.ts:296 | an occurrence cannot straddle a character the term does not contain |
| Strings.Split | frontend/src/services/capture.service.ts:35 | splitting always gives at least one part |
| Strings.SplitPartsHaveNoSeparator | frontend/src/services/capture.service.ts:187 | no part of a split holds the separator |
| Strings.SplitPartsWithout | frontend/src/services/capture.service.ts:187 | a character absent from the string is absent from every part |
| Strings.JoinSplit | frontend/src/services/capture.service.ts:187-190 | joining the parts of a split with the same separator gives back the string |
| Strings.SplitJoin | frontend/src/services/capture.service.ts:190 | splitting a join of separator-free parts gives back the parts |
| Strings.SplitNoSeparator | frontend/src/services/capture.service.ts:35 | a string without the separator splits into itself alone |
| Strings.SplitPrefix | frontend/src/services/capture.service.ts:187 | a separator-free prefix followed by the separator is the first part |
| Strings.JoinAppend | frontend/src/services/capture.service.ts:190 | joining a concatenation puts exactly one separator between the two joins |
| Strings.DigitChar | frontend/src/services/capture.service.ts:36 | a digit below 10 renders as a character from '0' to '9' |
| Strings.NatToString | frontend/src/services/capture.service.ts:36 | the decimal rendering of `Date.now()` is non-empty and made of digits only |
| Strings.NatToStringRoundTrip | frontend/src/services/capture.service.ts:36 | reading the rendered digits back gives the number |
| Sorting.MaxOfIsMax | backend/src/services/birdDetection.ts:125 | `Math.max` of a non-empty list is one of its values and no value is larger |
| Sorting.FirstArgMax | backend/src/services/birdDetection.ts:130 | `indexOf(Math.max(...))` is -1 exactly for the empty list and otherwise a valid index |
| Sorting.FirstArgMaxIsFirstMax | backend/src/services/birdDetection.ts:130 | that index holds a largest value and every earlier index a strictly smaller one |
| Sorting.FirstArgMaxUnique | backend/src/services/birdDetection.ts:130 | any index with those two properties is the one `indexOf` returns |
| Sorting.InsertDesc | backend/src/services/birdDetection.ts:212 | one insertion step of the stable sort adds exactly one element |
| Sorting.SortDesc | backend/src/services/birdDetection.ts:212 | the sort keeps the number of elements |
| Sorting.InsertDescPermutes | backend/src/services/birdDetection.ts:212 | an insertion step adds the inserted element to the multiset and nothing else |
| Sorting.SortDescPermutes | backend/src/services/birdDetection.ts:212 | the sorted list is a permutation of the input |
| Sorting.InsertDescSorted | backend/src/services/birdDetection.ts:212 | inserting into a list sorted by descending key keeps it sorted |
| Sorting.SortDescSorted | backend/src/services/birdDetection.ts:212 | the result is sorted by descending key |
| Sorting.SortDescOfSorted | backend/src/services/birdDetection.ts:212 | sorting an already sorted list changes nothing |
| Sorting.SortDescStable | backend/src/services/birdDetection.ts:212 | the sort is stable: for each key value, the elements with that key come out in their input order |
| Sorting.PrefixDominates | frontend/src/services/capture.service.ts:376-377 | on a sorted list, an element outside a prefix has a key no larger than any element of the prefix |
| Sorting.SortDescHead | backend/src/services/birdDetection.ts:308-311 | the head of the sorted list is the first input element of largest key |
| Sorting.InsertDescHead | backend/src/services/birdDetection.ts:308 | inserting into a sorted list puts the new element at the head exactly when its key is strictly larger than the old head's |
| Selection.Select | backend/src/services/birdDetection.ts:120 | at most `n` indices are selected from `n` |
| Selection.Collect | backend/src/services/birdDetection.ts:184 | a loop over `n` indices pushes at most `n` values |
| Selection.SelectIncreasing | backend/src/services/birdDetection.ts:120-202 | the selected indices are below `n` and strictly increasing |
| Selection.SelectExactly | backend/src/services/birdDetection.ts:166-181 | an index is selected exactly when it passes the test |
| Selection.SelectFirst | frontend/src/hooks/use-bird-detection.ts:162 | the first selected index is the first index passing the test; when none is selected, none passes |
| Selection.CollectSelect | backend/src/services/birdDetection.ts:184-199 | the pushed values are the records of the selected indices, one for one and in order |
| Greedy.Keep | backend/src/services/birdDetection.ts:215-228 | the greedy pass keeps no more items than it visits |
| Greedy.Positions | backend/src/services/birdDetection.ts:216 | there are no more positions of kept items than items |
| Greedy.KeepSubsequence | backend/src/services/birdDetection.ts:215-228 | the kept items are the input items at strictly increasing positions |
| Greedy.DroppedConflicts | backend/src/services/birdDetection.ts:218-223 | an item left out conflicts with an item kept from an earlier position |
| Greedy.KeepSeparated | backend/src/services/birdDetection.ts:218-227 | a later kept item never conflicts with an earlier kept one |
| Greedy.KeepsFirst | backend/src/services/birdDetection.ts:225-226 | the first item is always kept |
| Greedy.KeepOfSeparated | backend/src/services/birdDetection.ts:215-228 | items already free of conflicts are all kept |
| Nms.Suppress | backend/src/services/birdDetection.ts:215-228 | the two loops, with the `shouldKeep` flag and the `break`, compute the greedy suppression |
| Nms.SuppressedSubsequence | backend/src/services/birdDetection.ts:215-228 | the kept detections are input detections in input order; each one left out has an IoU above 0.45 with a kept detection that came before it |
| Nms.SuppressedSeparated | backend/src/services/birdDetection.ts:219-223 | no two kept boxes have an IoU above 0.45 |
| Nms.SuppressedKeepsFirst | backend/src/services/birdDetection.ts:225-226 | the first detection is always kept |
| Nms.SuppressedCovers | backend/src/services/birdDetection.ts:211-228 | on a confidence-sorted list, every detection is kept or is suppressed by a kept detection at least as confident |
| Nms.SuppressedSorted | backend/src/services/birdDetection.ts:211-228 | suppression keeps the order by descending confidence |
| Nms.SuppressedIdempotent | backend/src/services/birdDetection.ts:215-228 | running the suppression again changes nothing |
| Box.OverlapBounds | backend/src/utils/box.ts:9-12 | overlapping boxes have positive sides, and their intersection is positive and at most either area, so the union is positive |
| Box.ComputeIoU | backend/src/utils/box.ts:1-15 | the IoU lies in [0, 1] and is positive exactly when the boxes overlap |
| Box.IoUZeroWhenDisjoint | backend/src/utils/box.ts:7 | no overlap along either axis gives zero |
| Box.IoUSymmetric | backend/src/utils/box.ts:1-15 | the IoU does not depend on the order of the boxes |
| Box.IoUSelf | backend/src/utils/box.ts:1-15 | a box of positive size has IoU 1 with itself |
| Pixels.Normalize | backend/src/services/birdDetection.ts:82 | `byte / 255` lies in [0, 1], is 0 exactly for 0 and 1 exactly for 255 |
| Pixels.NormalizeStrictlyMonotone | frontend/src/hooks/use-bird-detection.ts:118-120 | normalisation keeps the order of byte values, so it loses nothing |
| Decode.Clamp01 | backend/src/services/birdDetection.ts:134-135 | `max(0, min(1, v))` lies in [0, 1], is `v` inside it, and 0 or 1 below or above |
| Decode.SumOfPositives | backend/src/services/birdDetection.ts:127 | a sum of positive values is positive and at least each of them |
| Decode.Scale | backend/src/services/birdDetection.ts:128 | dividing every value keeps the length |
| Decode.SumScale | backend/src/services/birdDetection.ts:127-128 | the sum of the divided values is the sum divided |
| Decode.Exponentials | backend/src/services/birdDetection.ts:126 | one positive value per class score |
| Decode.Softmax | backend/src/services/birdDetection.ts:124-128 | one probability per class score |
| Decode.SoftmaxBounds | backend/src/services/birdDetection.ts:124-128 | every probability lies in (0, 1] |
| Decode.SoftmaxSumsToOne | backend/src/services/birdDetection.ts:124-128 | the probabilities add up to 1 |
| Decode.MaxOfShift | backend/src/services/birdDetection.ts:125 | moving every score by a constant moves their maximum by that constant |
| Decode.SoftmaxShiftInvariant | backend/src/services/birdDetection.ts:124-128 | subtracting the maximum changes no probability: the softmax of scores moved by any constant is the softmax of the scores |
| Decode.ClassScores | backend/src/services/birdDetection.ts:124 | a row has 80 class scores |
| Decode.Probabilities | backend/src/services/birdDetection.ts:128 | a row has 80 probabilities |
| Decode.DecodeRow | backend/src/services/birdDetection.ts:121-201 | one iteration pushes a record exactly when the row passes the class, confidence, size and bounds tests, and the record is built from that row |
| Decode.DecodePredictions | backend/src/services/birdDetection.ts:113-202 | the loop fills `rawDetections` with the candidates of all `length / 85` rows |
| Decode.KeptRowsIncreasing | backend/src/services/birdDetection.ts:120 | the kept row numbers are rows of the array, in increasing order |
| Decode.KeptRowsExactly | backend/src/services/birdDetection.ts:166-181 | a row is kept exactly when it passes the tests |
| Decode.CandidatesOfKeptRows | backend/src/services/birdDetection.ts:184-199 | the candidates are the kept rows' records, one for one and in row order |
| Decode.KeptRowIsCandidate | backend/src/services/birdDetection.ts:166-199 | a kept row's record is a bird with confidence in (0.3, 1], area above 0.01, a box inside the image and matching metadata |
| Decode.CandidatesAreBirds | backend/src/services/birdDetection.ts:120-202 | every candidate has that form |
| Preprocess.IndicesInRange | backend/src/services/birdDetection.ts:80-81 | both the source and the destination index of a pixel channel lie inside the 3·640·640 buffers |
| Preprocess.ChwIndexInjective | backend/src/services/birdDetection.ts:81 | no two pixel channels share a tensor slot |
| Preprocess.ChwIndexOnto | backend/src/services/birdDetection.ts:81 | every tensor slot belongs to a pixel channel, so every slot is written |
| Preprocess.HwcIndexInjective | backend/src/services/birdDetection.ts:80 | every byte of the interleaved buffer is read for at most one slot |
| Preprocess.PreprocessImage | backend/src/services/birdDetection.ts:70-87 | a fresh tensor of 3·640·640 values whose planar slot (c, h, w) holds the normalised interleaved byte (h, w, c), every value in [0, 1] |
| BirdLabels.BirdLabelList | backend/src/data/birdLabels.ts:102 | `birdLabels` lists the species names in table order |
| BirdLabels.TableShape | backend/src/data/birdLabels.ts:8-99 | 15 entries, each with 3 keywords and at least 2 common names |
| BirdLabels.NamesDistinct | backend/src/data/birdLabels.ts:8-99 | no two entries share a name |
| BirdLabels.NameIsCommonName | backend/src/data/birdLabels.ts:8-99 | every entry lists its own name among its common names |
| BirdLabels.EntriesWithKeyword | backend/src/data/birdLabels.ts:8-99 | an index is listed exactly when its entry has that keyword |
| BirdLabels.SharedKeywords | backend/src/data/birdLabels.ts:8-99 | `sabia`, `finch`, `sparrow` and `dove` are each the keyword of exactly two entries, so score ties occur |
| SpeciesResolver.CountContained | backend/src/services/birdDetection.ts:288-299 | at most one hit per term |
| SpeciesResolver.MatchScores | backend/src/services/birdDetection.ts:279-305 | one score per table entry |
| SpeciesResolver.ScoreSpecies | backend/src/services/birdDetection.ts:279-305 | the accumulating callback computes 5 for the scientific name, plus 3 per common name and 1 per keyword found in the label |
| SpeciesResolver.MapToKnownSpecies | backend/src/services/birdDetection.ts:275-311 | the score, sort and head computation returns the first best-scoring entry, or the unknown marker |
| SpeciesResolver.HeadIsFirstBest | backend/src/services/birdDetection.ts:308-311 | the head of the sorted matches is the first entry of highest score |
| SpeciesResolver.KnownSpeciesMeaning | backend/src/services/birdDetection.ts:275-311 | the result is the unknown marker exactly when no entry scores; otherwise it is the name of a scoring entry that no entry outscores and no earlier entry equals |
| SpeciesResolver.NamesAreKnown | backend/src/data/birdLabels.ts:8-99 | no table name is the unknown marker, so the two outcomes cannot be confused |
| SpeciesResolver.CountContainedPositive | backend/src/services/birdDetection.ts:271 | some term is found exactly when the count is positive |
| SpeciesResolver.ScorePositiveIffMatches | backend/src/services/birdDetection.ts:279-305 | a species scores exactly when one of its terms occurs in the label |
| SpeciesResolver.BirdClassIffGeneralOrKnown | backend/src/services/birdDetection.ts:247-273 | `isBirdClass` holds exactly when a general bird word occurs or `mapToKnownSpecies` names a species |
| SpeciesScenario.ThrushOthersScoreZero | backend/src/services/birdDetection.ts:279-305 | for "Rufous-bellied Thrush" every entry but the first scores 0 |
| SpeciesScenario.ThrushResolvesToSabiaLaranjeira | backend/src/services/birdDetection.ts:275-311 | "Rufous-bellied Thrush" resolves to Sabiá-laranjeira and is a bird class |
| SpeciesScenario.SabiaMiddleScoreZero | backend/src/services/birdDetection.ts:279-305 | for "sabia" every entry between the first and the last scores 0 |
| SpeciesScenario.SabiaResolvesToFirstListed | backend/src/services/birdDetection.ts:308-311 | "sabia" scores the same positive amount for the first and the last entry and resolves to the first |
| SpeciesScenario.EmptyScores | backend/src/services/birdDetection.ts:279-305 | the empty label scores 0 for every entry |
| SpeciesScenario.EmptyHasNoGeneralKeyword | backend/src/services/birdDetection.ts:257-259 | the empty label holds no general bird word |
| SpeciesScenario.EmptyLabelMatchesNothing | backend/src/services/birdDetection.ts:247-311 | the empty label resolves to the unknown marker and is not a bird class |
| BirdDetection.ModelLoader.constructor | backend/src/services/birdDetection.ts:30 | no session is cached at first |
| BirdDetection.ModelLoader.LoadModel | backend/src/services/birdDetection.ts:32-44 | a cached session is returned unchanged; otherwise a created session is cached and returned, and a failed creation caches nothing and raises the load error |
| BirdDetection.Finalize | backend/src/services/birdDetection.ts:230-240 | the result is never empty: the kept detections when there are any, else the single unknown detection |
| BirdDetection.ProcessImage | backend/src/services/birdDetection.ts:94-245 | fails exactly when no session was cached and creation fails (with the load error) or when the download, the image library or the session throws (with that error, rethrown); otherwise returns decode, sort, suppression and fallback applied to the detector output; a created session stays cached |
| BirdDetection.PostProcessFallback | backend/src/services/birdDetection.ts:204-240 | the unknown detection is returned exactly when there was no candidate; otherwise every result is a candidate |
| BirdDetection.PostProcessHead | backend/src/services/birdDetection.ts:211-228 | the first result is the first candidate of highest confidence |
| BirdDetection.PostProcessSorted | backend/src/services/birdDetection.ts:211-228 | the results come by descending confidence |
| BirdDetection.PostProcessSeparated | backend/src/services/birdDetection.ts:214-228 | no two results have an IoU above 0.45 |
| BirdDetection.PostProcessCovers | backend/src/services/birdDetection.ts:211-228 | every candidate is returned or is suppressed by a returned detection at least as confident |
| BirdDetection.DetectMeaning | backend/src/services/birdDetection.ts:94-240 | for a detector output, the unknown detection is returned exactly when no row passes; otherwise every result is a bird candidate |
| LiveDetection.RgbOf | frontend/src/hooks/use-bird-detection.ts:116-121 | the tensor holds three values per pixel |
| LiveDetection.RgbOfChannels | frontend/src/hooks/use-bird-detection.ts:118-120 | slot `3i + c` holds channel `c` of pixel `i`, normalised |
| LiveDetection.RgbOfIgnoresAlpha | frontend/src/hooks/use-bird-detection.ts:117-121 | the alpha bytes are never read |
| LiveDetection.RgbaToRgb | frontend/src/hooks/use-bird-detection.ts:116-121 | the copy loop fills a fresh array of `width·height·3` values with the RGB channels of the canvas |
| LiveDetection.ObjectnessKeptMeans | frontend/src/hooks/use-bird-detection.ts:139-141 | a row is kept exactly when its objectness is above 0.5 |
| LiveDetection.DecodeRows | frontend/src/hooks/use-bird-detection.ts:137-159 | the row loop pushes the entries of the rows whose objectness is above 0.5 |
| LiveDetection.KeptPredictionsMeaning | frontend/src/hooks/use-bird-detection.ts:137-159 | the pushed entries are, in increasing row order, the records of exactly the rows with objectness above 0.5 |
| LiveDetection.RowLabelIsFirstBest | frontend/src/hooks/use-bird-detection.ts:150-151 | a row's label is the position of its first largest class score |
| LiveDetection.FrameResultIsFirstKept | frontend/src/hooks/use-bird-detection.ts:161-178 | a frame yields a detection exactly when some row has objectness above 0.5; it is the first such row, with species `Ave`, its objectness and its box scaled to the video |
| LiveDetection.DimsReadLosesDetection | frontend/src/hooks/use-bird-detection.ts:131-133 | on a one-row output with objectness 0.9, the intended outcome is a detection and the outcome as written, where the `.dims[0]` read throws, is none |
| LiveDetection.Stream.constructor | frontend/src/hooks/use-bird-detection.ts:191 | a new stream is running |
| LiveDetection.FrameProcessor.constructor | frontend/src/hooks/use-bird-detection.ts:25-27 | the refs start cleared: not processing, last time 0, no pending frame |
| LiveDetection.FrameProcessor.BeginFrame | frontend/src/hooks/use-bird-detection.ts:90-101 | a frame starts exactly when the guards pass and 500 ms have elapsed; it then records the time and sets the processing flag; otherwise nothing changes |
| LiveDetection.FrameProcessor.EndFrame | frontend/src/hooks/use-bird-detection.ts:182-184 | the `finally` clears the processing flag and nothing else |
| LiveDetection.FrameProcessor.ProcessFrame | frontend/src/hooks/use-bird-detection.ts:89-185 | returns the intended outcome, the first kept row of the detector output, when the frame starts and inference succeeds, and nothing otherwise; a started frame records its time and always clears the flag; the rate-limit invariant is kept |
| LiveDetection.FrameProcessor.Detect | frontend/src/hooks/use-bird-detection.ts:193-205 | a stopped stream does nothing; a running one delivers the frame's detection unless cleanup ran meanwhile, and schedules the next frame only while still running |
| LiveDetection.FrameProcessor.StartDetection | frontend/src/hooks/use-bird-detection.ts:187-207 | a fresh running stream whose first `detect` runs at once |
| LiveDetection.FrameProcessor.Cleanup | frontend/src/hooks/use-bird-detection.ts:210-216 | the stream stops and the pending frame is cancelled |
| LiveDetection.FrameProcessor.StopDetection | frontend/src/hooks/use-bird-detection.ts:219-224 | the pending frame is cancelled and nothing else changes |
| CaptureService.FileExtensionMeaning | frontend/src/services/capture.service.ts:35 | the extension holds no dot; a name without a dot is its own extension, and a name with one is the rest, a dot and the extension |
| CaptureService.UploadPathRoundTrip | frontend/src/services/capture.service.ts:35-37 | the path splits at its one slash into the user and the file name, and the file name at its one dot into the clock reading and the extension |
| CaptureService.PageRange | frontend/src/services/capture.service.ts:95-96 | the inclusive range spans `limit` rows |
| CaptureService.PagesAdjacent | frontend/src/services/capture.service.ts:95-96 | the next page starts right after this one ends |
| CaptureService.PageOfIndex | frontend/src/services/capture.service.ts:95-96 | with a positive limit, every row index lies on exactly one page from 1 on |
| CaptureService.PagesBefore | frontend/src/services/capture.service.ts:95-96 | an earlier page ends before a later one begins |
| CaptureService.FirstTruthyMeaning | frontend/src/services/capture.service.ts:140-141 | a chain of logical-or fallbacks yields the first present, non-falsy value, or the fallback when there is none |
| CaptureService.DisplayMeaning | frontend/src/services/capture.service.ts:134-143 | the shown species is the first detection's non-empty name, else the non-empty metadata species, else the "unidentified" text, and is never empty; the confidence falls through zero values down to 0 |
| CaptureService.DisplayAll | frontend/src/services/capture.service.ts:284-290 | every listed capture is shown by that rule, in order |
| CaptureService.FindIndex | frontend/src/services/capture.service.ts:188 | `findIndex` is -1 exactly when the segment is absent, and otherwise the first position holding it |
| CaptureService.StoragePathMeaning | frontend/src/services/capture.service.ts:186-190 | a path is found exactly when a URL segment is the bucket name; it joins the segments after the first such one, and the URL is its prefix, a slash and the path |
| CaptureService.CountByDay | frontend/src/services/capture.service.ts:319-323 | a day has an entry exactly when it has a capture, and the entry is its number of captures |
| CaptureService.DailyStats | frontend/src/services/capture.service.ts:319-337 | `days` entries, oldest first, ending at `endDay`, each with that day's number of captures (0 for none) |
| CaptureService.FirstOccurrencesMeaning | frontend/src/services/capture.service.ts:374 | the tally's keys are distinct and are exactly the names seen |
| CaptureService.Entries | frontend/src/services/capture.service.ts:374-375 | one entry per distinct name |
| CaptureService.TallyCapture | frontend/src/services/capture.service.ts:365-370 | the `forEach` over one capture's detections extends the keys and counts by its non-empty names |
| CaptureService.TallyStep | frontend/src/services/capture.service.ts:367 | adding one to a name's count, starting from 0 for a new name, keeps the keys and counts of the names seen so far |
| CaptureService.TallyName | frontend/src/services/capture.service.ts:367 | one update of the tally: the keys and counts afterwards are those of the names seen so far plus this one |
| CaptureService.TallySpecies | frontend/src/services/capture.service.ts:364-375 | the `reduce` and `Object.entries(...).map(...)` give the entries of all named detections |
| CaptureService.TallyMeaning | frontend/src/services/capture.service.ts:364-375 | each species appears once with its number of named detections (at least 1), every named species appears, and the counts add up to the number of named detections |
| CaptureService.EntriesMeaning | frontend/src/services/capture.service.ts:374-375 | the same for any list of non-empty names |
| CaptureService.NamesNonEmpty | frontend/src/services/capture.service.ts:366 | detections without a species name are not counted |
| CaptureService.SliceEnd | frontend/src/services/capture.service.ts:377 | the end of `slice(0, limit)`: a non-negative limit capped at the length, a negative one counted from the back and floored at 0 |
| CaptureService.TopSpeciesMeaning | frontend/src/services/capture.service.ts:374-377 | `min(limit, n)` tally entries for a non-negative limit and all but the last `-limit` for a negative one, by non-increasing count; no entry left out has a larger count than one kept |
| CaptureService.TopSpeciesSubTally | frontend/src/services/capture.service.ts:374-377 | the result is a prefix of the sorted tally, and no entry occurs in it more often than in the tally |

## Left out

- The detector itself, the image library's contrast, resize and alpha removal, and the HTTP download of the image: the resized interleaved buffer and the detector output, or the error one of them threw, are parameters of `ProcessImage`.
- `BirdDetection.ProcessImage` takes one clock reading `detectionTime` for the whole call. The source calls `new Date().toISOString()` once per pushed record (line 196) and again for the fallback (line 237), so its records can carry different times; in the model they all carry the same one.
- `BirdDetection.ModelLoader.LoadModel` is one atomic step. In the source, two `processImage` calls that overlap while the session is being created both find `session` null (lines 33-37) and both create a session; the later assignment wins. Concurrent requests are not modelled.
- `Math.exp` is a parameter that is only known to be positive; floating-point rounding, `NaN` and `Infinity` are not modelled, and `Float32Array` values are `real`.
- `Decode.DecodePredictions` and `BirdDetection.ProcessImage` require the output length to be a multiple of 85, which excludes a trailing partial row. For other lengths the source's loop bound `length / 85` is fractional, and the loop runs once more over a trailing partial row. That row still has its box, objectness and a truncated class slice read. With 20 to 84 values, the bird class (index 14) is among its scores, so the row can be pushed as a detection.
- `COCO_LABELS` is not part of this model; its length is taken as 80, which matches the row length of 85.
- The diagnostic logging of the backend decode loop (`birdDetection.ts` lines 137-163) and every `console` call: they print and change no value.
- `Sorting.SortDesc` models `Array.prototype.sort` as a function on sequences. It models neither the in-place update nor the library's algorithm, only its stable result.
- `Strings.LowerChar` folds only Basic Latin and Latin-1 capitals; the case mapping of other scripts is not modelled.
- The frontend row count and row width are read from `.dims` on the output's typed array in the source, a read that throws (see Findings). The intended values are the parameters `numDetections` and `rowLength`, with `rowLength >= 5` demanded.
- `CaptureService.TopSpecies` takes an integer limit; a fractional `limit`, which `slice` truncates, is not modelled.
- The frontend model-loading effect (lines 41-87) and the canvas effect (lines 31-39) only call the runtime and set React state; the presence of the session, canvas and 2D context is a boolean parameter.
- `requestAnimationFrame` and `cancelAnimationFrame` are modelled by the frame id in `frameRef`; the browser's scheduling and the interleaving of concurrent `detect` runs are not modelled beyond the `cleanupMeanwhile` flag.
- The Supabase storage and database calls of the capture service (upload, insert, select, delete, `getDetections`, `getUserStats`) and the removal of an orphaned upload (lines 74-82) are I/O and left out; the computations around them are modelled.
- `CaptureService.DailyStats` counts days as consecutive integers. The `Date` arithmetic, the ISO date strings and the query window of lines 302-311 are not modelled.
- `CaptureService.TallySpecies` lists keys in order of first occurrence. `Object.entries` lists integer-like keys first, which the model does not capture.
- `LiveDetection.FrameProcessor.Detect` models one `detect` run; the unbounded chain of animation frames is the repetition of that call.

## Findings

| source | as written | input that shows it | evidently intended | confidence | as-written member | corrected member |
|---|---|---|---|---|---|---|
| frontend/src/hooks/use-bird-detection.ts:132-133 | the row count is `(predictions as any).dims[0]` on the output's `Float32Array` data, which has no `dims`; the read throws a TypeError, and the `catch` (lines 179-181) returns null for every frame that reaches the decode | a one-row output `[0.1, 0.1, 0.2, 0.2, 0.9, 1.0]` of width 6, whose objectness 0.9 is above 0.5 | the row count and width of the output tensor (`outputs['output0'].dims`), so that the first row with objectness above 0.5 is returned | high, not executed | `LiveDetection.FrameOutcomeAsWritten`, `LiveDetection.DimsReadLosesDetection` | `LiveDetection.FrameOutcome`, `LiveDetection.FrameResultIsFirstKept`, used by `LiveDetection.FrameProcessor.ProcessFrame` |
