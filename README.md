# musicScanner `analyze_music.py` — a Dafny model of the post-detection bookkeeping

`analyze_music.py` annotates a scanned sheet-music page. Its entry point takes
an image path from the command line, loads the image, runs an external
object detector once, prints a per-category summary of all detections,
narrows the detections to a fixed taxonomy of 14 notehead, key-signature and
accidental categories, prints the same summary for the narrowed list, and
writes three rendered views under fixed file names.

The model covers all of that except the external collaborators themselves.

- `Detections` (`detections.dfy`): a detection (category name, score,
  box) and `Count`, the number of detections that carry a given category name.
- `StringOrder` (`string_order.dfy`): Python's `<` on strings. This is
  lexicographic comparison by code point, with a proper prefix first. It also
  holds the facts that make `sorted` well defined: the order is strict and
  total, a finite set has a least element, and a strictly increasing listing
  of a set is unique.
- `Taxonomy` (`taxonomy.dfy`): the 14-name set and the filter
  comprehension as the recursive function `Filter`, with its properties.
  These are subsequence at exactly the in-taxonomy positions, multiplicities,
  idempotence, distribution over concatenation and per-category counts.
- `Summary` (`summary.dfy`): `Counter` as the function `Summarize`, and the
  loop `for cat, count in sorted(counter.items())` as the method `Report`.
  `Report` appends the least category not yet emitted on each iteration. The
  lemmas prove three things: the report is the unique sorted item list of its
  counter, its counts add up to the length of the list, and the
  filtered report is the full report with the non-taxonomy lines removed.
- `Pipeline` (`pipeline.dfy`): `main` as the method `AnalyzeMusic`. It takes
  `sys.argv` and three functions: image loading, detection and rendering.
  It returns an outcome (`UsageError`, `LoadError`, or `Done` with both
  reports and the three outputs) and the trace of external calls it made
  (load, detect, write).

## Model

| member | source | states |
|---|---|---|
| `Detections.Count` | analyze_music.py:37 | the count of a category never exceeds the list length, and it is positive exactly when the category occurs in the list |
| `Detections.CountAppend` | analyze_music.py:37 | counting a concatenation adds the counts of the parts |
| `StringOrder.LessIrreflexive` | analyze_music.py:39 | no name sorts before itself |
| `StringOrder.LessTransitive` | analyze_music.py:39 | the name order used by `sorted` is transitive |
| `StringOrder.LessAsymmetric` | analyze_music.py:39 | two names are never each below the other |
| `StringOrder.LessTotal` | analyze_music.py:39 | any two distinct names are ordered one way or the other |
| `StringOrder.LeastExists` | analyze_music.py:39 | every non-empty finite set of category names has a least element |
| `StringOrder.StrictlyIncreasingUnique` | analyze_music.py:39 | two strictly ascending lists of the same names are equal |
| `Taxonomy.Filter` | analyze_music.py:50-53 | the kept list is no longer than the input, draws every element from the input, and every kept category is in the taxonomy |
| `Taxonomy.FilterIsSubsequence` | analyze_music.py:50-53 | the kept list is the input taken at strictly increasing positions, and a position is taken if and only if its category is in the taxonomy |
| `Taxonomy.FilterMultiset` | analyze_music.py:50-53 | every detection with a taxonomy category survives as many times as it occurs; every other detection does not survive |
| `Taxonomy.FilterKeepsRelevant` | analyze_music.py:50-53 | a list whose categories are all in the taxonomy passes unchanged |
| `Taxonomy.FilterDropsIrrelevant` | analyze_music.py:50-53 | a list with no taxonomy category filters to the empty list |
| `Taxonomy.FilterIdempotent` | analyze_music.py:50-53 | filtering twice equals filtering once |
| `Taxonomy.FilterAppend` | analyze_music.py:50-53 | filtering a concatenation concatenates the filtered parts (order is kept across the whole list) |
| `Taxonomy.FilterCount` | analyze_music.py:37-55 | per category, the filtered count is the full count for a taxonomy member and 0 otherwise |
| `Taxonomy.FilterCategories` | analyze_music.py:43-55 | the categories present after filtering are the input's categories that are in the taxonomy |
| `Taxonomy.TaxonomySize` | analyze_music.py:43-48 | the taxonomy holds exactly 14 distinct names |
| `Taxonomy.CaseVariantExcluded` | analyze_music.py:52 | membership is exact: `noteheadblackinspace` is not a member and is filtered out |
| `Taxonomy.SingleNoteheadKept` | analyze_music.py:50-53 | a single `noteheadBlackInSpace` detection is kept unchanged |
| `Summary.Summarize` | analyze_music.py:37 | the counter has one key per distinct category present, and each key maps to that category's count in the list |
| `Summary.Report` | analyze_music.py:39-40 | the emitted lines list every key of the counter exactly once, with its count, in strictly ascending name order |
| `Summary.ReportStep` | analyze_music.py:39-40 | emitting the least remaining category keeps the lines sorted, complete for the categories emitted so far, and below all categories still to go |
| `Summary.SortedItemsUnique` | analyze_music.py:39 | a counter has only one sorted item list, so the report is determined by the counts |
| `Summary.ReportTotal` | analyze_music.py:34-40 | the counts of a report sum to the length of the list summarised (the "Detected N" and "Filtered to M" figures) |
| `Summary.EmptyReport` | analyze_music.py:39-40 | an empty detection list produces no report lines |
| `Summary.KeepLines` | analyze_music.py:57-58 | every kept line comes from the full report and has a taxonomy category, and every taxonomy line of the full report is kept |
| `Summary.KeepLinesSorted` | analyze_music.py:57-58 | removing lines from an ascending report leaves it ascending |
| `Summary.KeepLinesIsFilteredItems` | analyze_music.py:55-58 | the taxonomy lines of the full report are the sorted item list of the filtered counter |
| `Summary.FilteredReport` | analyze_music.py:55-58 | the filtered report equals the full report with the lines of non-taxonomy categories removed |
| `Pipeline.AnalyzeMusic` | analyze_music.py:13-96 | the exit status is 1 exactly when argv has fewer than two entries or the image does not load, and 0 otherwise. With fewer than two argv entries: usage error, no call made. If the image does not load: load error, only the load call made, no detection, nothing written. Otherwise: one load, one detection, both reports sorted and consistent (totals N and M with M ≤ N, filtered report = full report restricted to the taxonomy), then exactly three writes in order: full list with labels and scores to `output_1_everything.png`, filtered list with labels and scores to `output_2_filtered_with_labels.png`, filtered list with labels and scores hidden to `output_3_filtered_boxes_only.png` |
| `Pipeline.WritesDetectNothing` | analyze_music.py:63-94 | the write phase makes no detector call, so a run detects exactly once |

## Left out

- `detect_everything` and `visualize_predictions` live in `scanner.detection`, and `scanner.detection` is not part of this model. They are parameters of `AnalyzeMusic`, treated as uninterpreted total functions. No rule for rendering, clipping or label placement is assumed.
- The detector raising an exception is not modelled. The code does not catch one, and the model takes `detect` as total.
- OpenCV: `cv2.imread` and the BGR-to-RGB conversion form the `load` parameter. The RGB-to-BGR conversion before each `cv2.imwrite` is folded into the `WriteImage` call. These are foreign pixel-buffer operations.
- `cv2.imwrite`'s result is ignored, so a failed write changes neither the outcome nor the earlier writes. The model records each write as a call with no result.
- Detections are not validated when built. There is no score-range or box-order check, and the model has none.
- Confidence scores and the `:.2f` formatting: the score is an uninterpreted `real` that no modelled step reads.
- Console text and emoji: each report is a sequence of `(category, count)` pairs plus the totals. The usage, loading and image-size messages are not modelled.
- Only `argv[1]` is used, as in the code. Extra arguments are ignored.
- Sorting: the model does not give Python's sorting algorithm. It captures the list `sorted(counter.items())` produces, since the category keys are distinct and so decide the order on their own. It builds that list by repeated least-element selection.
- String order: `StringOrder.Less` compares Dafny `char` values. These are Unicode scalar values, so a Python string holding a lone surrogate code point is outside the model.
- `test_detection.py` and `test_roboflow.py` are left out. They are scripts around the unseen detector and a remote inference service, with no logic of their own.
