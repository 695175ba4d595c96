# PythonToronto marker rectifier, abstract-method check and tap detector in Dafny

This project models the computational core of three scripts from the
PythonToronto meetup archive and proves properties of the model.

- **Registration-marker rectification** (`2016/04/P3-optimiseSquare.py`, with
  the same selection loop in `2016/04/P2-filterRegMarks.py`). Among the circles
  found in a camera frame, the program picks the four most alike in area. Every
  4-combination is scored by the skew `|median(areas) - mean(areas)|`; the best
  score wins, and on a tie the later combination wins. The four markers are then
  ordered top left, top right, bottom right, bottom left. Each marker gets an
  angle measured at the right datum `(w/2, h/2)` from the left datum
  `(0, h/2)`, and the markers are sorted by that angle. Four integer corrections
  are taken from the ordered markers, and from them the eight points of the
  `corners` list handed to `img.warp`.
- **Missing abstract methods** (`2017/03/wolever/ezabc.py`). The `ABCMeta`
  metaclass walks the MRO of a new class. It records the names each class
  implements and the abstract methods (source contains
  `raise NotImplementedError`) that no earlier class in the MRO implements. It
  refuses the class with a `TypeError` that lists them as `Owner.name`.
- **Tap detector** (`2016/04/P0-audio_test.py`). Every audio block is loud or
  quiet against an adaptive threshold. A quiet block that ends a loud run of 1
  to 15 blocks is a tap. Loud runs longer than 1500 blocks raise the threshold
  by a tenth; quiet runs longer than 12000 blocks lower it by a tenth.

Modules, in dependency order:

| file | module | contents |
|---|---|---|
| `wrappers.dfy` | `Wrappers` | the `Option` datatype shared by the other modules |
| `stable_sort.dfy` | `StableSort` | Python's stable sort by key (`list.sort(key=…)`, and the sort inside `statistics.median`); proved sorted, a permutation, stable, and the only such order |
| `stats.dfy` | `Stats` | `statistics.mean`, `statistics.median`, the skew score |
| `combinations.dfy` | `Combinations` | `itertools.combinations` over indices: what it yields, in which order, how many |
| `marker_selection.dfy` | `MarkerSelection` | the best-four selection loop and P2's highlighting |
| `corner_ordering.dfy` | `CornerOrdering` | `pdist`, `compute_angle`, datums, the angle sort, corrections, `corners`, one frame of P3 |
| `ezabc.dfy` | `EzAbc` | `is_abstract_method`, `cls_get_missing_abstract_methods`, `ABCMeta.__new__`, the docstring's examples |
| `tap_detector.dfy` | `TapDetector` | the detector's variables as a class, one pass of its loop, the loop |

How the model represents the source:

- The imperative parts are methods proved against functions that specify them:
  - the selection loop, with a ghost index of the current best;
  - the angle loop and the appends to `corners`;
  - the nested MRO loops, which mutate the `implemented_methods` set and the `missing_abstract_methods` dict;
  - the detector's state updates.

  Each method's `ensures` ties its result, or its new state, to the specifying
  function. The lemmas state the properties of those functions.
- `math.acos` is not modelled. The cosine-rule angle is a function parameter
  `RawAngle`, constrained only by facts true of `degrees(acos(·))`:
  - it lies in [0, 180];
  - it is below 90 exactly when the cosine-rule numerator is positive;
  - it is 90 exactly when that numerator is 0;
  - it is 0 or 180 only for collinear points.

  `pdist` appears squared.
- P3 has no error handling around `compute_angle`. A chosen marker at the right
  datum, or an image less than 2 pixels wide, makes it divide by zero, and the
  `ZeroDivisionError` ends the program. The model reports this as the
  `FrameResult.ZeroDivision` outcome instead of rejecting such frames.
- The P0 detector uses floating-point constants that are whole numbers in double
  precision:
  - `15.0/0.01` is 1500.0;
  - `120.0/0.01` is 12000.0;
  - `0.15/0.01` is 15.0;
  - the initial `noisycount` is 16.0.

  The model uses the integers.
- A failed `stream.read` in P0 is not skipped. The program counts the error,
  sets `noisycount = 1`, and then measures the previous `block` again. When the
  block before was quiet, that reports a tap whatever came before
  (`ReadErrorAfterQuietTaps`), so a failed read right after a tap reports a
  second one (`ReadErrorAfterTapTaps`). During a loud run longer than 15
  blocks, a failed read resets the run to 1; the quiet block that follows then
  reports a tap it would not report without the failed read
  (`ReadErrorShortensLongLoudRun`). When the very first read fails, `block` is unbound and the program stops with
  `NameError` (`FirstReadErrorStops`).
- In `ezabc.py`:
  - the class being created is `mro[0]` of a `seq<ClassDef>`;
  - an attribute carries whether it is a function and, if its source is
    available, that source;
  - `missing_abstract_methods` is a `map` with the order in which its keys were
    first inserted. The report lists names in that order, and Python 2
    `dict.items()` order itself is unspecified.

The model follows the code:

- **A marker level with the datums** (`c.y == RightDatum.y`) takes the
  `+ 90 + 180` branch of `compute_angle`, because line 51 tests `c[1] > b[1]`
  strictly. Its angle is then at least 270, so it sorts after the lower-right
  quadrant (`QuadrantAngles`). This is not the top-left, top-right,
  bottom-right, bottom-left order that the comment at line 107 describes.
- **Coincident points** make `compute_angle` divide by zero, and the program
  stops.

## Model

| member | source | states |
|---|---|---|
| StableSort.SortBy | 2016/04/P3-optimiseSquare.py:124 | `list.sort(key=…)`, as an insertion sort that puts each element before the first one whose key is not smaller; the result has the input's length |
| StableSort.SortByCorrect | 2016/04/P3-optimiseSquare.py:124 | `markerOrder.sort(key=…)` yields a sequence sorted by the key, a permutation of the input, and one that keeps equal-key elements in their original order |
| StableSort.SortByIsTheStableSort | 2016/04/P3-optimiseSquare.py:124 | any key-sorted, order-preserving permutation of the input is exactly the sort's result |
| StableSort.SortedStableUnique | 2016/04/P3-optimiseSquare.py:124 | two key-sorted sequences that are stable permutations of each other are equal |
| StableSort.StrictlySortedUnique | 2016/04/P3-optimiseSquare.py:124 | a permutation sorted by key equals a given sequence whose keys strictly increase, so distinct angles fix the order |
| Stats.Mean | 2016/04/P3-optimiseSquare.py:91 | `statistics.mean`: the sum of the areas divided by their count |
| Stats.Median | 2016/04/P3-optimiseSquare.py:91 | `statistics.median`: the middle of the sorted areas, or the average of the two middle ones for an even count |
| Stats.Skew | 2016/04/P3-optimiseSquare.py:88-91 | the score `abs(median - mean)` is never negative, and is 0 exactly when median and mean agree |
| Stats.MinMaxBound | 2016/04/P3-optimiseSquare.py:91 | the smallest and largest area are areas of the group and bound every other |
| Stats.SumPermutation | 2016/04/P3-optimiseSquare.py:91 | `mean` does not depend on the order of the areas: sums of permutations are equal |
| Stats.SortedValues | 2016/04/P3-optimiseSquare.py:91 | the sort inside `median` yields a permutation of the areas in non-decreasing order |
| Stats.SortedExtremes | 2016/04/P3-optimiseSquare.py:91 | the sorted areas begin with the minimum and end with the maximum |
| Stats.SkewOfUniformIsZero | 2016/04/P3-optimiseSquare.py:88-91 | when all areas are equal, median and mean are that area and the score is exactly 0 |
| Stats.SkewOfFour | 2016/04/P3-optimiseSquare.py:88-91 | for four areas the score is `abs(sum - 2 (min + max)) / 4` |
| Combinations.Choose | 2016/04/P3-optimiseSquare.py:87 | `combinations(range(lo, n), k)`: first the tuples that take `lo`, then those that skip it |
| Combinations.ChooseSound | 2016/04/P3-optimiseSquare.py:87 | every tuple `combinations(circles, 4)` yields consists of 4 distinct indices in increasing order |
| Combinations.ChooseComplete | 2016/04/P3-optimiseSquare.py:87 | every increasing 4-index selection is yielded |
| Combinations.ChooseOrdered | 2016/04/P3-optimiseSquare.py:87 | tuples are yielded in strictly increasing lexicographic order |
| Combinations.ChooseDistinct | 2016/04/P3-optimiseSquare.py:87 | no tuple is yielded twice |
| Combinations.ChooseCount | 2016/04/P3-optimiseSquare.py:87 | there are n-choose-k tuples |
| Combinations.LastCombo | 2016/04/P3-optimiseSquare.py:87 | the last tuple yielded is the last k indices |
| MarkerSelection.Score | 2016/04/P3-optimiseSquare.py:88-91 | a combination's score is never negative, and is 0 exactly when the median and mean of its areas agree |
| MarkerSelection.Areas | 2016/04/P3-optimiseSquare.py:88 | `circleAreas`: one area per circle of the combination, in the same order |
| MarkerSelection.Combos | 2016/04/P3-optimiseSquare.py:87 | `combinations(circles, 4)`: (n choose 4) entries, each 4 increasing indices of circles |
| MarkerSelection.ComboAt | 2016/04/P3-optimiseSquare.py:87 | `thisCombo`: 4 markers, each one of the frame's circles |
| MarkerSelection.Scores | 2016/04/P3-optimiseSquare.py:87-91 | the score of every combination in enumeration order: never negative, 0 exactly when that combination's median and mean area agree |
| MarkerSelection.SelectBestMarkers | 2016/04/P3-optimiseSquare.py:84-95 | `bestScore`/`bestMarkers` stay None exactly when there are fewer than 4 circles; otherwise they are the score and circles of the combination with the least score, the last one among equals |
| MarkerSelection.LastMinimumUnique | 2016/04/P3-optimiseSquare.py:93-95 | the `<=` tie-break determines one combination: there is only one last minimum |
| MarkerSelection.CombosNonEmpty | 2016/04/P3-optimiseSquare.py:86-87 | with at least 4 circles there is a combination to choose |
| MarkerSelection.ComboAtIsCombination | 2016/04/P3-optimiseSquare.py:87-88 | the chosen markers are 4 different circles of the frame, in detection order |
| MarkerSelection.UniformAreasPickLastFour | 2016/04/P3-optimiseSquare.py:87-95 | when all areas are equal every combination scores 0 and the last four circles are chosen |
| MarkerSelection.HighlightRegistrationMarks | 2016/04/P2-filterRegMarks.py:60-77 | nothing is circled with fewer than 4 circles; otherwise exactly the best markers are |
| CornerOrdering.ComputeAngle | 2016/04/P3-optimiseSquare.py:45-54 | `compute_angle`: the cosine-rule angle at `b`, plus 0 when `c` is above `b`, 90 when below and to the right, and 270 otherwise; `ComputeAngleRange` states its bounds |
| CornerOrdering.LeftDatum | 2016/04/P3-optimiseSquare.py:108 | `LeftDatum = (0, int(h/2))` |
| CornerOrdering.RightDatum | 2016/04/P3-optimiseSquare.py:108 | `RightDatum = (int(w/2), int(h/2))` |
| CornerOrdering.Clear | 2016/04/P3-optimiseSquare.py:47 | `compute_angle` divides by neither `pdist` being 0 exactly when the image is at least 2 pixels wide and no marker sits on the right datum |
| CornerOrdering.MarkerAngle | 2016/04/P3-optimiseSquare.py:115 | a marker's angle: in [0, 450], at most 180 above the right datum, in [90, 270] below and to its right, at least 270 otherwise |
| CornerOrdering.CorrectionsOf | 2016/04/P3-optimiseSquare.py:130-134 | the four corrections, from the markers in the order TL, TR, BR, BL |
| CornerOrdering.SquaredDistance | 2016/04/P3-optimiseSquare.py:42-43 | the squared `pdist` is non-negative and 0 exactly for equal points |
| CornerOrdering.ComputeAngleRange | 2016/04/P3-optimiseSquare.py:45-54 | with non-zero sides at `b`, the corrected angle lies in [0, 450]: at most 180 when `c` is above `b`, in [90, 270] when below and to the right, and at least 270 otherwise |
| CornerOrdering.DatumGeometry | 2016/04/P3-optimiseSquare.py:47 | against the datum line, the cosine numerator is `2 Rx (Rx - c.x)` and the cross product `-Rx (c.y - Ry)` |
| CornerOrdering.QuadrantAngles | 2016/04/P3-optimiseSquare.py:45-54 | the angle gives the quadrant around the right datum: under 90 top left, (90, 180] top right, (180, 270) bottom right, (270, 360) bottom left; at least 270 on the datum line |
| CornerOrdering.Tagged | 2016/04/P3-optimiseSquare.py:113-118 | one `[angle, marker]` entry per marker |
| CornerOrdering.TaggedPermutation | 2016/04/P3-optimiseSquare.py:113-118 | markers taken in another order give the same entries, permuted |
| CornerOrdering.OrderMarkers | 2016/04/P3-optimiseSquare.py:112-124 | `markerOrder` is sorted by angle, is a stable permutation of the markers tagged with their angles, and is the stable sort of them |
| CornerOrdering.QuadrantOrder | 2016/04/P3-optimiseSquare.py:107-124 | one marker in each quadrant around the right datum are ordered top left, top right, bottom right, bottom left, whatever order they were chosen in |
| CornerOrdering.CornerList | 2016/04/P3-optimiseSquare.py:130-147 | eight corners; in the bottom right target corner the start corrections cancel, leaving `(w + TR.x - BR.x, h + BL.y - BR.y)` |
| CornerOrdering.BuildCorners | 2016/04/P3-optimiseSquare.py:130-147 | the corrections and the eight appends build exactly `CornerList` |
| CornerOrdering.RectangleCorners | 2016/04/P3-optimiseSquare.py:130-147 | markers at the corners of an upright rectangle give zero corrections, the image's corners as targets and the markers' centres as sources |
| CornerOrdering.RectangleFrame | 2016/04/P3-optimiseSquare.py:108-147 | four markers forming an upright rectangle around the image centre are warped from exactly their corners onto the image's corners, whatever order they were chosen in |
| CornerOrdering.PlanFor | 2016/04/P3-optimiseSquare.py:108-147 | four chosen markers end in ZeroDivision exactly when an angle would divide by zero; otherwise they are sorted by angle, stably, and give eight corners |
| CornerOrdering.OptimiseSquareFrame | 2016/04/P3-optimiseSquare.py:84-158 | a frame ends without markers exactly when it has fewer than 4 circles; otherwise the last best combination is ordered and cornered, or the program dies dividing by zero |
| EzAbc.IsAbstractMethod | 2017/03/wolever/ezabc.py:58-63 | `is_abstract_method`: the source is available and contains `raise NotImplementedError`; `IsAbstractMethodIff` states it by offsets |
| EzAbc.ContainsIff | 2017/03/wolever/ezabc.py:63 | `in` on strings holds exactly when the pattern occurs at some offset |
| EzAbc.IsAbstractMethodIff | 2017/03/wolever/ezabc.py:58-63 | a value is abstract exactly when its source is available and contains `raise NotImplementedError`; unavailable source counts as not abstract |
| EzAbc.Step | 2017/03/wolever/ezabc.py:69-76 | one attribute keeps the key order matching the missing dict, and implemented and missing names only grow |
| EzAbc.AttrsStep | 2017/03/wolever/ezabc.py:69-76 | the same for one class's `__dict__` |
| EzAbc.Walk | 2017/03/wolever/ezabc.py:66-76 | the MRO walk keeps the key order a duplicate-free list of the missing names |
| EzAbc.WalkGrows | 2017/03/wolever/ezabc.py:66-76 | the sets grow along the MRO |
| EzAbc.Report | 2017/03/wolever/ezabc.py:78-82 | one report line per missing method |
| EzAbc.Qualified | 2017/03/wolever/ezabc.py:79 | `"%s.%s"`: the owner, a dot, then the name |
| EzAbc.QualifiedInjective | 2017/03/wolever/ezabc.py:78-82 | for dot-free class names, a report line determines its owner and its method name |
| EzAbc.ReportCovers | 2017/03/wolever/ezabc.py:78-82 | every missing name `n` owned by class `C` has the line `C.n` in the report |
| EzAbc.ReportOnlyMissing | 2017/03/wolever/ezabc.py:78-82 | every line of the report is `C.n` for a missing name `n` owned by `C` |
| EzAbc.ReportOfOne | 2017/03/wolever/ezabc.py:78-82 | a single missing method gives a single line |
| EzAbc.MissingAbstractMethods | 2017/03/wolever/ezabc.py:65-82 | the nested loops and the comprehension compute the report of the MRO walk |
| EzAbc.RefusalMessage | 2017/03/wolever/ezabc.py:48-53 | the TypeError text: the class name, its bases joined with `, ` in parentheses, then the missing methods joined with `, ` |
| EzAbc.Join | 2017/03/wolever/ezabc.py:51-52 | `", ".join`: empty for no parts; otherwise the parts' lengths plus one separator between each two, starting with the first part and a separator when there are more |
| EzAbc.NewClass | 2017/03/wolever/ezabc.py:44-55 | the class is refused with TypeError exactly when some abstract method is missing, with the message naming the class, its bases and the report; otherwise the class itself is returned |
| EzAbc.FunctionsOnlyStep | 2017/03/wolever/ezabc.py:70-71 | non-function attributes do not change a class's step |
| EzAbc.NonFunctionsIgnored | 2017/03/wolever/ezabc.py:70-71 | the walk is the same with every non-function attribute removed |
| EzAbc.WalkImplemented | 2017/03/wolever/ezabc.py:66-76 | a name is recorded implemented exactly when an earlier-visited class defines it as a function that is concrete or is the new class's own |
| EzAbc.WalkStep | 2017/03/wolever/ezabc.py:66-76 | one more class makes a name missing exactly when it declares the name abstract before any implementation, and then becomes its owner; otherwise the entry is unchanged |
| EzAbc.WalkMissing | 2017/03/wolever/ezabc.py:66-76 | after k classes a name is missing exactly when one of them declares it abstract before any class implements it |
| EzAbc.WalkOwnerIsLast | 2017/03/wolever/ezabc.py:74 | the owner recorded for a missing name is the last class so far declaring it abstract before any implementation |
| EzAbc.LastDeclaredIsLast | 2017/03/wolever/ezabc.py:72-74 | that class does declare the name abstract, and no later class so far does |
| EzAbc.WalkOwner | 2017/03/wolever/ezabc.py:74 | after k classes, the owner of a missing name is a class declaring it abstract before any implementation, and no later class does so |
| EzAbc.MissingIff | 2017/03/wolever/ezabc.py:65-76 | over the whole MRO: missing exactly when declared abstract by a base before being implemented |
| EzAbc.MissingOwner | 2017/03/wolever/ezabc.py:74 | a missing method's owner is the last class in the MRO that declares it abstract while no earlier class implements it, since each such class overwrites the entry |
| EzAbc.OwnMethodsNeverMissing | 2017/03/wolever/ezabc.py:72 | a method the new class defines itself is never missing, even if its body raises NotImplementedError |
| EzAbc.LoneClassAccepted | 2017/03/wolever/ezabc.py:72 | a class whose MRO is itself alone is always accepted |
| EzAbc.ExampleMethodKinds | 2017/03/wolever/ezabc.py:16-35 | in the docstring example, `abstract_method` of BaseClass is abstract and the other methods are not |
| EzAbc.BaseClassDeclares | 2017/03/wolever/ezabc.py:13-20 | BaseClass declares exactly `abstract_method` abstract |
| EzAbc.ExampleWellFormed | 2017/03/wolever/ezabc.py:13-40 | the example classes have unique attribute names |
| EzAbc.ExampleBaseAccepted | 2017/03/wolever/ezabc.py:13-20 | BaseClass itself is accepted |
| EzAbc.ExampleConcreteAccepted | 2017/03/wolever/ezabc.py:22-26 | ConcreteClass is accepted |
| EzAbc.ExampleInvalidRefused | 2017/03/wolever/ezabc.py:28-31 | InvalidConcreteClass is refused, missing only `abstract_method` owned by BaseClass, reported as `BaseClass.abstract_method` |
| EzAbc.ExampleMixinAccepted | 2017/03/wolever/ezabc.py:33-40 | ValidCocreteClassWithMixin(Mixin, BaseClass) is accepted |
| EzAbc.ExampleLateMixinRefused | 2017/03/wolever/ezabc.py:33-40 | with the bases swapped, BaseClass comes first in the MRO and `abstract_method` is missing |
| EzAbc.BaseSecondDeclared | 2017/03/wolever/ezabc.py:13-40 | in an example MRO with BaseClass second, only `abstract_method` is declared abstract, and only by BaseClass |
| EzAbc.OnlyBaseDeclares | 2017/03/wolever/ezabc.py:13-40 | such an MRO misses exactly `abstract_method`, owned by BaseClass |
| EzAbc.OnlyBaseReported | 2017/03/wolever/ezabc.py:78-82 | and its report is the single line `BaseClass.abstract_method` |
| TapDetector.Classify | 2016/04/P0-audio_test.py:126-140 | one block against the threshold, as `LoudBlockNeverTaps`, `QuietBlockTapsIff` and `ThresholdChanges` state |
| TapDetector.Initial | 2016/04/P0-audio_test.py:111-114 | the starting variables: no block read, no error, no quiet run, and a loud run too long to end in a tap |
| TapDetector.Process | 2016/04/P0-audio_test.py:117-140 | one pass: a block is classified; a failed read counts the error, sets the loud run to 1 and re-measures the last block, or stops with NameError when there is none |
| TapDetector.Run | 2016/04/P0-audio_test.py:116-140 | the loop over the reads, stopping at NameError |
| TapDetector.Detector.constructor | 2016/04/P0-audio_test.py:111-114 | threshold 0.1, loud run 16, no quiet run, no errors, no block yet |
| TapDetector.Detector.ClassifyBlock | 2016/04/P0-audio_test.py:126-140 | the variables change as `Classify` says, and the threshold stays positive |
| TapDetector.Detector.ProcessRead | 2016/04/P0-audio_test.py:117-140 | one pass of the loop changes the variables as `Process` says |
| TapDetector.Detector.Listen | 2016/04/P0-audio_test.py:116-140 | the loop's outcomes and final variables are those of `Run`, stopping at NameError |
| TapDetector.ProcessKeepsSane | 2016/04/P0-audio_test.py:117-140 | the threshold stays positive and the counters non-negative |
| TapDetector.LoudBlockNeverTaps | 2016/04/P0-audio_test.py:126-128 | a loud block reports no tap, clears the quiet run and lengthens the loud one |
| TapDetector.QuietBlockTapsIff | 2016/04/P0-audio_test.py:132-138 | a quiet block taps exactly when it ends a loud run of 1 to 15 blocks; it clears the loud run and lengthens the quiet one |
| TapDetector.ThresholdChanges | 2016/04/P0-audio_test.py:129-130 | the threshold rises by a tenth exactly after more than 1500 loud blocks, falls by a tenth exactly after more than 12000 quiet ones, and otherwise stays |
| TapDetector.NoTapAfterTap | 2016/04/P0-audio_test.py:134-137 | the block read right after a tap never taps |
| TapDetector.ReadErrorAfterTapTaps | 2016/04/P0-audio_test.py:117-124 | a failed read right after a tap re-measures the quiet block and reports a second tap |
| TapDetector.ReadErrorAfterQuietTaps | 2016/04/P0-audio_test.py:117-140 | a failed read after any quiet block re-measures it with `noisycount = 1` and reports a tap |
| TapDetector.ReadErrorShortensLongLoudRun | 2016/04/P0-audio_test.py:117-140 | during a loud run longer than 15 blocks, a failed read then a quiet block report a tap, where the quiet block alone reports none |
| TapDetector.FirstReadErrorStops | 2016/04/P0-audio_test.py:116-124 | a failed first read ends the program with NameError |
| TapDetector.FirstBlockNeverTaps | 2016/04/P0-audio_test.py:112 | the initial loud run of 16 keeps the first block from tapping |
| TapDetector.ShortBurstTaps | 2016/04/P0-audio_test.py:126-139 | a quiet block, then 1 to 15 loud blocks, then a quiet block report no tap on the loud blocks and a tap on the final quiet one |
| TapDetector.LoudRun | 2016/04/P0-audio_test.py:126-130 | while the loud run stays within 1500, k loud blocks report k non-taps and the loop then carries on from the state after them |
| TapDetector.PassNeverLowers | 2016/04/P0-audio_test.py:126-140 | a pass lengthens the quiet run by at most one and, within 12000 quiet blocks, never lowers the threshold |
| TapDetector.RunNeverLowers | 2016/04/P0-audio_test.py:116-140 | reads that cannot stretch the quiet run past 12000 end with a threshold no lower than at the start |
| TapDetector.ProgramNeverLowers | 2016/04/P0-audio_test.py:116 | the program's `range(10000)` passes from start-up never lower the threshold below 0.1 |
| TapDetector.LoudStateCounts | 2016/04/P0-audio_test.py:126-130 | k loud blocks lengthen the loud run by k, clear the quiet run and, within 1500, leave the threshold alone |
| TapDetector.RunCons | 2016/04/P0-audio_test.py:116-140 | a pass that does not stop the program reports its outcome ahead of those of the remaining reads |

## Left out

- Camera, display, drawing, `img.warp` and blob detection (`findBlobs`, `isCircle`) are I/O or library calls. A circle is its integer centre and its area, and the model stops at the `corners` list handed to the warp.
- `math.sqrt`, `math.acos` and `math.degrees` are not modelled. Distances appear squared, and the cosine-rule angle is an abstract function constrained by the properties of `acos` listed above.
- Floating-point rounding is not modelled: areas, scores, angles and the tap threshold are exact reals. An acos argument pushed just outside [-1, 1] by rounding would raise ValueError in the program; the model does not have this case.
- `get_rms` and `pyaudio` are not modelled. A block is given as its RMS amplitude, and a failed read as `ReadError`.
- `time.time()` and every `print` are left out. A tap is an outcome of the pass, without its timestamp.
- TapDetector.Detector.Listen: runs over the reads it is given, not over exactly `range(10000)` passes; `ProgramNeverLowers` covers inputs of at most 10000 reads.
- MarkerSelection.SelectBestMarkers: sets `bestScore` to None whenever the frame is processed. At P3-optimiseSquare.py line 84 and P2-filterRegMarks.py line 60, `bestScore = None` is tab-indented, which under Python 2 puts it inside the preceding `for` loop over the circles. With no circles at all, `bestScore` therefore keeps the previous frame's value, which nothing then reads.
- `inspect.getsource`, `inspect.isfunction` and the MRO computation are not modelled. An attribute says whether it is a function and carries its source or `None` (IOError); the MRO is given.
- The sources of the docstring's example methods are cut down to their bodies, for example `return 42` and `raise NotImplementedError()`.
- EzAbc.MissingAbstractMethods: reports names in first-insertion order of the dict, one ordering Python 2 allows, since Python 2 dict order is unspecified.
- The other scripts of the archive are not part of this model, including P1, P4, the metaclass demonstrations beside `ezabc.py`, and the rest of the meetup material.
