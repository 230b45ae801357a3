# rknn-model-zoo post-processing, modelled in Dafny

This project models the parts of the rknn-model-zoo C++ sources that are ordinary code rather than calls into the RKNN runtime:

- the quantization pair and `Size` of `types.hpp`;
- the `NC1HWC2ToNCHW` layout gather;
- the box utilities of `ops.cpp`: IoU with the inclusive "+1" pixel convention, the DFL (distribution focal loss) edge decoder, `Transform`, and greedy class-agnostic NMS;
- the YOLOv8 post-processor: per-scale grid decoding, aggregation over all scales, NMS and packaging into detections;
- the classifier's top-k;
- the engine's input copy and input-size query;
- the label table.

One Dafny module follows each source file:

| module | file | models |
|---|---|---|
| `Types` | `types.dfy` | `types.hpp`, plus the fields of the runtime's tensor attribute record that the code reads |
| `Layout` | `layout.dfy` | `ops.hpp` |
| `Sorting` | `sorting.dfy` | the `std::sort` calls with a "greater score first" comparator |
| `Ops` | `ops.dfy` | `ops.cpp` |
| `Yolo` | `yolo.dfy` | `yolo.cpp` |
| `Classify` | `classify.dfy` | `classify.cpp` |
| `Engine` | `engine.dfy` | `engine.cpp` |
| `Label` | `label.dfy` | `label.cpp` |

Code that loops and mutates is written as Dafny methods with loops, each proved against a specification function. These are:

- the gather, over an `array`;
- the DFL passes, over a scratch `array` and the output `box` array;
- the NMS marking loops, over a local sequence;
- the cell, row, grid and scale loops of the decoder;
- the classifier's collection loop;
- the engine's copy loops, over the input `array`;
- the label reader loop.

The classifier's `_topk`, the engine's input buffer and the label vector are fields of classes that the methods update. Everything else is functions and lemmas.

Samples are `real` values. An `int8`/`uint8` sample is an integral real in that type's range. `std::exp` is a parameter `exp: real -> real` that is assumed positive everywhere.

`std::sort` is not stable, and neither comparator orders ties. So `SortDesc` (an insertion sort) is only the sort the method bodies call: no contract depends on the order it leaves ties in. `Nms` returns, as a ghost value, the ranking it used, and its result is stated for any ranking `Ranked` admits. `Classify.Postprocess` likewise returns the order its pairs were sorted into, and its result is stated for any `Ranking`, a permutation of the pairs by non-increasing score. Everything proved about NMS and top-k holds for any order `std::sort` may produce.

The Yolo specification function can be read as follows:

- `Proposed` gives the proposals of groups 0 .. n-1, group after group.
- Within a group, `GridCandidates` lists them in row-major cell order.
- A cell has at most one proposal: its lowest class of maximal raw score. The cell proposes only when that score is strictly above the quantized threshold.

`Postprocess` is proved to return the greedy survivors of NMS over all proposals, packaged in NMS order, for a ranking the sort may produce (the ranking is returned as a ghost value, the kept indices as a value). The detections have these properties:

- they package the proposals at distinct indices, ordered by non-increasing score;
- any two of them have IoU at most the NMS threshold;
- there are none when there is no proposal; otherwise the best proposal comes first;
- every proposal whose index is not kept has IoU above the threshold with a detection scored at least as high.

`Utils::NMS` takes no class vector (src/utils/ops.hpp:16; called at src/task/yolo.cpp:42), so suppression is class-agnostic: two boxes of different classes can suppress each other.

## Model

| member | source | states |
|---|---|---|
| Types.AsInt32 | src/task/engine.cpp:201-210 | `static_cast<int>` of a `uint32_t`: a 32-bit signed value congruent to the input modulo 2^32, and equal to it below 2^31 |
| Types.DefaultSize | src/types.hpp:10-13 | `Size()` is 0 x 0 with area 0 |
| Types.SquareSize | src/types.hpp:16-21 | `Size(n)` has width and height `n`, and `size()` is `n * n` |
| Types.Trunc | src/types.hpp:57-61 | the cast to an integer type truncates toward zero: floor for non-negative values, ceiling for negative ones |
| Types.Quantization.Quantize | src/types.hpp:57-61 | `static_cast<T>(val / scale + zp)`: truncated to an in-range integer sample for `int8`/`uint8`, unchanged for `float` |
| Types.DefaultQuantization | src/types.hpp:45-48 | the default pair is scale 1, zero point 0, and its `Dequantize` is the identity |
| Types.DequantizeWith | src/types.hpp:63-67 | the static form equals the member form for the same pair; with a positive scale the result is positive exactly when the sample is above the zero point |
| Types.QuantizeWith | src/types.hpp:69-73 | the static form equals the member form for the same pair |
| Types.DequantizeStrictlyIncreasing | src/types.hpp:51-55 | with a positive scale, `Types.Quantization.Dequantize`, the definition `(v - zp) * scale`, is strictly increasing |
| Types.QuantizeDequantize | src/types.hpp:51-61 | `Quantize` undoes `Dequantize` for every sample value of the type (and its cast is defined there) |
| Types.QuantizedThresholdAgrees | src/task/yolo.cpp:79-113 | `raw > Quantize<T>(thr)` iff `Dequantize(raw) > thr`, for float samples always and for integer samples when `thr / scale + zp >= 0` |
| Types.QuantizedThresholdDisagreesWhenNegative | src/types.hpp:69-73 | the proviso matters: for zero point -128, scale 1/255 and threshold 0.25 the raw sample -64 fails the quantized test, yet dequantizes to 64/255 > 0.25 |
| Types.SampleTypeOf | src/task/yolo.cpp:32-38 | the decoder has a path exactly for `int8`, `uint8` and `float32` tensors |
| Layout.DstIndexRange | src/utils/ops.hpp:29-36 | the destination cell of (c, h, w) lies in row h of channel c's slab |
| Layout.DstIndexBound | src/utils/ops.hpp:29-36 | every destination cell of a (C, H, W) shape lies below C*H*W |
| Layout.DstIndexInjective | src/utils/ops.hpp:29-36 | distinct logical elements are written to distinct destination cells |
| Layout.DstIndexCovers | src/utils/ops.hpp:29-36 | every destination position below C*H*W is the cell of some (c, h, w) |
| Layout.SrcIndexBound | src/utils/ops.hpp:22-36 | with equal spatial sizes and C <= C1*C2, every source index read is below C1*H*W*C2 |
| Layout.SrcIndexSplit | src/utils/ops.hpp:30-36 | the source index is (block offset + spatial offset) * C2 + lane |
| Layout.SrcIndexInjective | src/utils/ops.hpp:30-36 | distinct logical elements read distinct source elements |
| Layout.SingleLaneIsCopy | src/utils/ops.hpp:30-36 | with C2 = 1 the source index equals the destination index: a plain copy |
| Layout.SrcOfCell | src/utils/ops.hpp:30-36 | the source position assigned to a destination position, found by splitting it back into (c, h, w), is the one the loops read |
| Layout.SrcOfBound | src/utils/ops.hpp:22-36 | for an accepted shape, every destination position below C*H*W reads inside the source |
| Layout.GatherOrder | src/utils/ops.hpp:29-39 | the expected first C*H*W destination values exist, both per position and per (c, h, w) cell |
| Layout.CellIndices | src/utils/ops.hpp:35-36 | one iteration writes position `row + w`, the cell of (c, h, w), and reads the source index of (c, h, w) |
| Layout.NC1HWC2ToNCHW | src/utils/ops.hpp:20-40 | each cell (c, h, w) receives source element (block c / C2, lane c % C2); position k < C*H*W holds `src[SrcOf(k)]`; later positions are unchanged; `src` is a read-only value |
| Sorting.Range | src/utils/ops.cpp:59-62 | definition, spelled out element-wise: the index vector holds 0 .. n-1 in order |
| Sorting.RangeDistinct | src/utils/ops.cpp:59-62 | the index vector is duplicate-free and holds exactly 0 .. n-1 |
| Sorting.Insert | src/utils/ops.cpp:65-67 | one insertion step adds exactly its element |
| Sorting.InsertSorted | src/utils/ops.cpp:65-67 | inserting into a sorted sequence keeps it sorted |
| Sorting.SortDesc | src/task/classify.cpp:58-62 | the sort returns a permutation of its input, ordered by non-increasing key |
| Sorting.DistinctMultiset | src/utils/ops.cpp:65-67 | a sequence is duplicate-free iff every element occurs at most once in its multiset |
| Sorting.DistinctPermutation | src/utils/ops.cpp:65-67 | a permutation of a duplicate-free sequence is duplicate-free |
| Sorting.PermutationOfRange | src/utils/ops.cpp:59-67 | the sorted index vector has length n and holds each of 0 .. n-1 exactly once |
| Ops.Overlap | src/utils/ops.cpp:41-42 | the inclusive overlap length is never negative |
| Ops.OverlapSymmetric | src/utils/ops.cpp:41-42 | the overlap does not depend on the order of the ranges |
| Ops.IoU | src/utils/ops.cpp:29-47 | IoU is never negative; it is 0 when the union term is not positive |
| Ops.IoUSymmetric | src/utils/ops.cpp:41-44 | `IoU(b1, b2) == IoU(b2, b1)` |
| Ops.OverlapBound | src/utils/ops.cpp:41-42 | an overlap is at most the inclusive length of either range |
| Ops.IntersectionIsProduct | src/utils/ops.cpp:41-43 | the intersection term is the product of the two overlaps |
| Ops.IntersectionBound | src/utils/ops.cpp:41-43 | for boxes of non-negative extent the intersection is at most either box's inclusive area, which is at least 1 |
| Ops.InclusiveAreaIs | src/utils/ops.cpp:44 | a box's area term is (width + 1) * (height + 1) |
| Ops.RatioUnit | src/utils/ops.cpp:44-46 | the ratio `i / (a1 + a2 - i)` has a positive denominator and lies in [0, 1] when i is bounded by both areas |
| Ops.IoUUnit | src/utils/ops.cpp:41-46 | for boxes of non-negative extent the union is positive and IoU lies in [0, 1] |
| Ops.IoUSelf | src/utils/ops.cpp:41-46 | a box of non-negative extent has IoU exactly 1 with itself |
| Ops.Transform | src/utils/ops.cpp:49-55 | applying the resize's forward map to the result gives the box back; with a positive scale, extents keep their sign |
| Ops.Exps | src/utils/ops.cpp:17-20 | definition, spelled out element-wise: the scratch values are the exponentials of the bins, position by position |
| Ops.SumPositive | src/utils/ops.cpp:17-20 | a non-empty sum of positive values is positive |
| Ops.ExpectationIsMean | src/utils/ops.cpp:22-24 | the accumulated `sum exp_t[i] / exp_sum * i` is the weighted sum divided by the total |
| Ops.WeightedSumBounds | src/utils/ops.cpp:22-24 | for non-negative weights, the weighted sum lies between 0 and (n - 1) times the sum |
| Ops.SumNonNegative | src/utils/ops.cpp:17-20 | a sum of non-negative values is non-negative |
| Ops.DflEdgeBounds | src/utils/ops.cpp:11-27 | `Ops.DflEdge`, the softmax-weighted mean bin index, of `len >= 1` bins lies in [0, len - 1]; with no bins it is 0 |
| Ops.ExpsSumPositive | src/utils/ops.cpp:17-20 | the softmax denominator of a non-empty bin range is positive |
| Ops.SumStep | src/utils/ops.cpp:19 | one iteration adds one exponential to the running sum |
| Ops.ExpectationStep | src/utils/ops.cpp:23 | one iteration adds one weighted term to the running mean |
| Ops.DflPass | src/utils/ops.cpp:14-25 | one pass over `b` computes the decoded edge of the bins `tensor[start .. start + len)` |
| Ops.ExpsInto | src/utils/ops.cpp:17-20 | the first loop stores the exponentials in `exp_t` and returns their sum |
| Ops.MeanIndex | src/utils/ops.cpp:22-24 | the second loop returns the expected bin index, or 0 without bins |
| Ops.Dfl | src/utils/ops.cpp:11-27 | `box[b]` is the decoded edge of the contiguous bins `tensor[b*len .. b*len + len)`, for each of the four edges |
| Ops.EdgeOffset | src/utils/ops.cpp:18 | the start `b * len` of each of the four edges |
| Ops.Greedy.KeptPositions | src/utils/ops.cpp:70-85 | the positions that survive the marking loops, increasing, all of them |
| Ops.SuppressedStable | src/utils/ops.cpp:70-85 | a position's mark is final once the outer loop reaches it |
| Ops.SuppressedBy | src/utils/ops.cpp:70-85 | a position is marked -1 iff an earlier surviving position has IoU above the threshold with it |
| Ops.SurvivorsStep | src/utils/ops.cpp:70-85 | the survivors grow by one ranked entry per kept position |
| Ops.RemoveSentinel | src/utils/ops.cpp:88-89 | `remove` + `resize` keeps exactly the entries other than -1 |
| Ops.RemoveMarks | src/utils/ops.cpp:88-89 | removing the marks of a prefix leaves that prefix's survivors |
| Ops.RankedFacts | src/utils/ops.cpp:59-67 | the sorted indices are a duplicate-free permutation of the box indices, by non-increasing score |
| Ops.RankingInRange | src/utils/ops.cpp:59-67 | the sorted indices are box indices |
| Ops.SurvivorsDistinctSorted | src/utils/ops.cpp:57-91 | NMS returns distinct box indices by non-increasing score |
| Ops.SurvivorsSeparated | src/utils/ops.cpp:70-85 | any two survivors have IoU at most the threshold |
| Ops.SurvivorsFirst | src/utils/ops.cpp:65-75 | a non-empty input keeps its best-scored box, first |
| Ops.SurvivorsHoldKept | src/utils/ops.cpp:70-89 | the box at a surviving position is in the result |
| Ops.SurvivorsCover | src/utils/ops.cpp:70-84 | every dropped box has IoU above the threshold with a survivor scored at least as high |
| Ops.Nms | src/utils/ops.cpp:57-92 | the result is the survivors of the greedy pass over the sorted ranking, with every property of `NmsResult` |
| Ops.Suppress | src/utils/ops.cpp:70-85 | after the nested loops, each entry is -1 exactly when its position is suppressed |
| Ops.FinalMarks | src/utils/ops.cpp:70-89 | removing the final marks leaves the survivors |
| Ops.SurvivorsProperties | src/utils/ops.cpp:57-92 | `Ops.Greedy.Survivors`, the ranked indices at the positions left unmarked, over any ranking the sort may produce, satisfy every promise of NMS |
| Ops.SurvivorsOfNone | src/utils/ops.cpp:57-92 | without boxes nothing survives |
| Ops.NoOverlapKeepsAll | src/utils/ops.cpp:70-89 | when no two boxes overlap above the threshold, the result is the whole ranking |
| Ops.NmsIdempotent | src/utils/ops.cpp:57-92 | NMS is idempotent: a second pass over the kept boxes with their scores and the same threshold keeps all of them, for any ranking |
| Ops.NoOverlapKept | src/utils/ops.cpp:70-85 | then no position is marked |
| Ops.IdenticalBoxesKeepOne | src/utils/ops.cpp:70-89 | when all boxes are one box of non-negative extent and the threshold is below 1, only the first-ranked box survives |
| Yolo.DefaultParams | src/task/yolo.hpp:22 | default arguments: input 640 x 640, score threshold 0.25, NMS threshold 0.7 |
| Yolo.StrideIs | src/task/yolo.cpp:105 | after k steps of `off += total`, the offset is `base + k * total` |
| Yolo.StrideBelow | src/task/yolo.cpp:105-117 | channel k < n of a cell lies inside an n-channel tensor |
| Yolo.BestIsFirstMaximum | src/task/yolo.cpp:103-110 | the class loop returns the maximum raw score of the cell and the lowest class holding it |
| Yolo.CellBoxGeometry | src/task/yolo.cpp:122-130 | x = (j + 0.5 - l) * scale, y = (i + 0.5 - t) * scale, width = (l + r) * scale, height = (t + b) * scale, one scale on both axes; with non-negative distances the box contains the cell centre |
| Yolo.Bins | src/task/yolo.cpp:116-119 | one dequantized bin per box channel |
| Yolo.Edges | src/task/yolo.cpp:120 | DFL gives four edges |
| Yolo.CellCandidateSpec | src/task/yolo.cpp:100-133 | `Yolo.CellCandidate`: a cell proposes iff its best raw score exceeds the quantized threshold; the proposal carries the lowest maximal class (below the class count) and that score dequantized; with a positive scale this is the largest dequantized class score |
| Yolo.CellClassInRange | src/task/yolo.cpp:74-132 | a proposal's class index is below `attr[1].dims[1]` |
| Yolo.CellThreshold | src/task/yolo.cpp:79-113 | on samples of the type, the raw test equals `Dequantize(maxScore) > scoreThres` when the pre-cast threshold is not negative |
| Yolo.RowStep | src/task/yolo.cpp:101-136 | one more cell appends its proposal to the row |
| Yolo.RowsStep | src/task/yolo.cpp:100-137 | one more row appends its proposals |
| Yolo.RowBound | src/task/yolo.cpp:101-136 | a row proposes at most once per cell, always an allowed class |
| Yolo.RowsBound | src/task/yolo.cpp:100-137 | rows propose at most once per cell, always an allowed class |
| Yolo.GridCandidatesBound | src/task/yolo.cpp:100-137 | `Yolo.GridCandidates`, the cells' proposals in row-major order: a grid gives at most H*W proposals, each of one of its classes |
| Yolo.View | src/task/yolo.cpp:86-97 | a blocked tensor is read through its converted copy of C*H*W samples |
| Yolo.GridOf | src/task/yolo.cpp:68-83 | the class count comes from the score shape |
| Yolo.AppendProjections | src/task/yolo.cpp:130-132 | pushing proposals extends the three parallel vectors together |
| Yolo.AppendCell | src/task/yolo.cpp:130-132 | pushing one cell's proposal keeps the vectors the projections of the proposals so far |
| Yolo.AppendAll | src/task/yolo.cpp:100-137 | appending a row's projections keeps the vectors the projections of all proposals |
| Yolo.BestClass | src/task/yolo.cpp:103-110 | the class loop computes `Best` |
| Yolo.CellBins | src/task/yolo.cpp:116-119 | the bin loop fills a fresh `dfl` with the dequantized box channels of the cell |
| Yolo.CellCandidateFrom | src/task/yolo.cpp:113-133 | the pieces the loop body computes make up the cell's proposal |
| Yolo.DecodeCell | src/task/yolo.cpp:102-133 | the body of the cell loop computes the proposal of cell (i, j) |
| Yolo.DecodeRow | src/task/yolo.cpp:101-136 | the inner loop appends row i's proposals, left to right, to the three vectors |
| Yolo.DecodeGrid | src/task/yolo.cpp:100-137 | the cell loops append the grid's proposals, row-major, to the three vectors |
| Yolo.Normalize | src/task/yolo.cpp:86-97 | the decoder reads the buffer itself, or what `NC1HWC2ToNCHW` writes into a fresh copy; the device buffer is only read |
| Yolo.DecodeBunch | src/task/yolo.cpp:59-148 | `_DecodeBunch<T>` appends the proposals of group g's grid to the three vectors, which stay parallel |
| Yolo.Package | src/task/yolo.cpp:46-54 | one detection per kept index |
| Yolo.PackageDetections | src/task/yolo.cpp:42-54 | packaging NMS's result gives detections with every property of `Yolo.Detections` (distinct proposals, by non-increasing score, pairwise separated, best first, every other proposal covered) |
| Yolo.PackageProjected | src/task/yolo.cpp:42-54 | the same, for vectors holding the projections of the proposals |
| Yolo.PackageEntries | src/task/yolo.cpp:46-54 | each detection is `Detection(classes[i], boxes[i], scores[i])` of a distinct kept proposal |
| Yolo.PackageOrdered | src/task/yolo.cpp:42-54 | detections come by non-increasing score and are pairwise separated; none without proposals, else the best first |
| Yolo.PackageCovers | src/task/yolo.cpp:42-54 | every proposal index NMS does not keep overlaps, above the threshold, a detection scored at least as high |
| Yolo.NoProposals | src/task/yolo.cpp:27-39 | an unsupported element type, or no group, proposes nothing |
| Yolo.ProposedStep | src/task/yolo.cpp:31-39 | `Yolo.Proposed`, the proposals of groups 0 .. n-1: one more group appends its grid's proposals |
| Yolo.Extend | src/task/yolo.cpp:31-39 | extending the proposals extends their projections |
| Yolo.DecodeNext | src/task/yolo.cpp:31-39 | one pass of the scale loop, with the type of tensor 0, appends group i's proposals |
| Yolo.ShapedUpTo | src/task/yolo.cpp:31 | groups 0 .. i all have a readable shape |
| Yolo.DecodeAll | src/task/yolo.cpp:24-39 | the scale loop fills the three vectors with the proposals of groups 0 .. num/2 - 1 in group order |
| Yolo.PackageStep | src/task/yolo.cpp:46-54 | one more kept index appends its detection |
| Yolo.Collect | src/task/yolo.cpp:45-54 | the result loop builds `Package` of the kept indices, in NMS order |
| Yolo.Report | src/task/yolo.cpp:41-54 | NMS returns the greedy survivors `keep` for a ranking the sort may produce (returned as a ghost value), which keep every promise of NMS; the result is `Package` of them |
| Yolo.Postprocess | src/task/yolo.cpp:14-57 | the detections package, in NMS order, the greedy survivors of all groups' proposals for a ranking the sort may produce, and have every `Detections` property; an unsupported type or fewer than two tensors gives none |
| Classify.ClampTopK | src/task/classify.cpp:65 | a count in 0 .. nc is kept, any other becomes nc (as `int`); below 2^31 the result is a valid count |
| Classify.ClampPersists | src/task/classify.cpp:65 | the clamp is idempotent, so the value stored in `_topk` persists; it is a fixed point exactly for valid counts |
| Classify.Resize | src/task/classify.cpp:66 | `resize(k)` keeps the first k entries and pads with default entries |
| Classify.SortDescRanks | src/task/classify.cpp:58-62 | the model's insertion sort gives a `Ranking` of the collected pairs, so the lemmas below apply to `Postprocess` |
| Classify.RankingLength | src/task/classify.cpp:58-62 | a ranking holds one entry per collected pair |
| Classify.TopKLength | src/task/classify.cpp:65-66 | `Classify.TopK`, a ranking resized to the clamped count, has the clamped count of entries |
| Classify.CollectedMembers | src/task/classify.cpp:49-57 | every collected pair is its class's own pair |
| Classify.TopKSorted | src/task/classify.cpp:58-66 | for any ranking of the pairs, the result is sorted by non-increasing score |
| Classify.TopKEntries | src/task/classify.cpp:49-66 | for any ranking and float32/int8/float16, entries are distinct classes below nc with their own score, dequantized for int8 |
| Classify.TopKBest | src/task/classify.cpp:58-66 | for any ranking, a class missing from the result scores at most as much as every entry |
| Classify.TopKUnread | src/task/classify.cpp:49-66 | for any other element type the only ranking is empty, and the result is k default entries |
| Classify.Classify.constructor | src/task/classify.cpp:8-11 | the classifier stores its top-k argument |
| Classify.Classify.Default | src/task/classify.hpp:26 | without a top-k argument the classifier stores 5 |
| Classify.Classify.Postprocess | src/task/classify.cpp:36-69 | the pairs are sorted into some `Ranking`, returned as a ghost value, and the result is that ranking resized to the clamped old field; the field is overwritten with the clamped count |
| Classify.CollectClasses | src/task/classify.cpp:49-57 | the collection loop builds one pair per class, in class order, for the types it reads |
| Engine.ShiftBijection | src/task/engine.cpp:182 | `Engine.Shift`, `b - 128` as `int8_t`, is strictly increasing, a bijection from 0..255 to -128..127 with inverse `Unshift` |
| Engine.LaneSubSameBits | src/task/engine.cpp:177 | the vector lane `(b - 128) mod 256`, read as `int8_t`, equals the scalar result |
| Engine.InputSizeOfShape | src/task/engine.cpp:199-214 | `Engine.InputSize`: NCHW `(n, c, h, w)` and NHWC `(n, h, w, c)` give w x h; other layouts give 0 x 0 |
| Engine.Engine.constructor | src/task/engine.hpp:54-57 | the input memory that `Input<T>(index)` addresses is the given buffer |
| Engine.Engine.AssignInput | src/task/engine.cpp:181-183 | `input[i] = data[i] - 128` for i < len; the rest of the buffer is unchanged |
| Engine.Engine.AssignInputNeon | src/task/engine.cpp:171-179 | the first 16 * (len / 16) elements get the lane result, the same as the scalar path; the rest is unchanged |
| Engine.ShiftedCopy | src/task/engine.cpp:181-183 | the element-wise facts give the whole-buffer form |
| Engine.ValidRestores | src/task/engine.cpp:181-183 | the copied bytes can be recovered from the buffer |
| Label.LineEnd | src/utils/label.cpp:27 | the end of a line is the next newline, or the end of the text |
| Label.JoinLines | src/utils/label.cpp:25-31 | joining the lines with newlines gives the text back |
| Label.LinesHaveNoNewline | src/utils/label.cpp:27 | no line contains a newline |
| Label.NonEmpty | src/utils/label.cpp:28-30 | the filter keeps exactly the non-empty strings |
| Label.NonEmptyAppend | src/utils/label.cpp:25-31 | filtering distributes over concatenation |
| Label.LabelsAreLines | src/utils/label.cpp:25-31 | `Label.Labels`, the non-empty lines of the text in order: each label is a non-empty line of at most 127 characters without newline |
| Label.Decimal | src/utils/label.cpp:39 | `to_string(idx)` is a non-empty string of digits without a leading zero |
| Label.DigitValue | src/utils/label.cpp:39 | each digit denotes its value |
| Label.ValueSnoc | src/utils/label.cpp:39 | appending a digit to decimal text multiplies its value by ten and adds the digit |
| Label.DecimalValue | src/utils/label.cpp:39 | the decimal text denotes idx |
| Label.Label.constructor | src/utils/label.hpp:10 | `Label()` is empty |
| Label.Label.FromFile | src/utils/label.cpp:8-11 | `Label(path)` holds the file's labels, or none when the file cannot be opened |
| Label.Label.Get | src/utils/label.cpp:36-42 | `operator[]` gives the stored label below the size, otherwise the decimal text of idx |
| Label.Label.Load | src/utils/label.cpp:13-34 | an unopened file changes nothing; otherwise the old labels are dropped and the file's non-empty lines stored, in order |
| Label.ReadStep | src/utils/label.cpp:25-31 | reading one line moves it, if non-empty, from the unread labels to the table |
| Label.AppendAssoc | src/utils/label.cpp:29 | appending to the table is associative |
| Label.GetLine | src/utils/label.cpp:27 | `getline` returns the current line and moves past its newline, or sets end-of-file at the last line |

## Left out

- `Engine::Init`, `Deinit`, `Inference` and `_DumpTensorInfo` are not modelled: they are RKNN runtime calls, device allocation, `printf` and timing. Tensor attributes and buffers are inputs.
- `Classify::Predict` and all `_timeCost` bookkeeping are not modelled: they only sequence calls and read clocks.
- The `YoloDetect` task is not part of this model: only its declaration exists.
- Drawing and the example programs are not modelled: they are OpenCV rendering, image I/O and command-line parsing.
- `Task`'s `SetParam`/`GetParam` store is not modelled. The constructor's parameters are the `Params` value passed to `Postprocess`.
- Floating point is modelled as exact `real` arithmetic: IoU, DFL, box geometry, dequantization and `Transform`. Rounding, NaN and infinities are not modelled.
- `std::exp` is a parameter `exp` assumed positive everywhere.
- A `float16` sample is a value that the cast to `float` keeps exactly, so its half-precision encoding is not modelled.
- Ops.Nms, Yolo.Postprocess: suppression is class-agnostic, as in the code; there is no per-class variant.
- Ops.Nms: the `std::sort` ranking is shown as a ghost output `order`. The contract holds for any permutation sorted by non-increasing score, and names no particular one.
- Types.Size.Area: `size()` multiplies in `int`; the area is an unbounded integer, so the signed overflow of a product above 2^31 - 1 is not modelled.
- Types.Quantization.Quantize: it requires the truncated value to fit the sample type, because the C++ cast is undefined otherwise.
- Types.QuantizedThresholdAgrees, Yolo.CellThreshold: the raw-domain threshold test is modelled as written. It agrees with the dequantized test only when `thr / scale + zp >= 0`, and the counterexample lemma shows a case where it does not.
- Layout.NC1HWC2ToNCHW: the `uint32_t` index arithmetic (`plane * srcTotal * C2`, `c * dstTotal + off2`, `C2 * off2 + off1`) is unbounded here, so wrap-around of a product above 2^32 - 1 is not modelled; `Convertible`'s buffer-size requires keep every index the model forms inside the buffers.
- Yolo.Postprocess: unsigned 32-bit wrap-around of `gridH * gridW`, `i * gridW + j` and the channel offsets is not modelled. Indices are unbounded, and the shape preconditions keep every sample read in range.
- Yolo.Shaped: it requires at least one class, four-dimensional attributes (five for a blocked native layout), a non-zero score scale and a defined threshold cast. The code reads `scoreTensor[i * gridW + j]` and the dimensions unconditionally.
- Yolo.Normalize: the converted copy is modelled as its first C*H*W elements. The buffer is `output[i]->size` elements, and `size`, which the runtime gives in bytes, is treated as an element count.
- Yolo.Scale: a grid of width 0 gets scale 0. It is never used, since no cell is visited.
- Yolo.DecodeAll: the decode loop bodies are split into helper methods (`DecodeCell`, `DecodeRow`, `DecodeGrid`, `DecodeNext`), and NMS plus packaging into `Report`. The behaviour is unchanged.
- Yolo.DecodeCell: the box is computed through the function `CellBox`.
- Yolo.Postprocess: the `size_t num` argument is a `nat`, with `uint32_t bunch = num / 2` taken as exact.
- Classify.Classify.Postprocess: it requires `nc < 2^31`. For a larger class count, `static_cast<int>(nc)` is negative and `resize` would receive a huge count or throw.
- Classify.Classify.Postprocess: `nc` is a number. The code reads `attr[0].dims[1]`, and the model requires at least two dimensions.
- Engine.Engine.AssignInputNeon: the NEON path is its own method, stating the byte effect of the vector subtraction. Which path runs is a build-time choice.
- Engine.Engine.AssignInput: it requires the buffer to hold `len` elements, which the code does not check.
- Engine.InputSize: it requires a four-dimensional input attribute.
- Label.Label.Load: the file stream is modelled as an "opened" flag plus the file's contents.
  - It requires that no line exceeds 127 characters, where `getline` would set the fail bit and the `eof` loop would never end.
  - It requires that there is no NUL character, where `strlen` would cut the line short.
  - The "open label file failed" message is not modelled.
- Label.Label.Get: the index is a `nat`. `size_type` wrap-around is not modelled.
