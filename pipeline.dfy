/**
 * The command-line entry point `main`: check the arguments, load the image,
 * detect once, report and filter, then render and write three views.
 * Image loading, detection and rendering are external collaborators and are
 * passed in as functions; writing an image is recorded as a call.
 */
module Pipeline {
  import opened Detections
  import opened Taxonomy
  import opened Summary

  datatype Option<T> = None | Some(value: T)

  const EverythingPath: string := "output_1_everything.png"
  const FilteredWithLabelsPath: string := "output_2_filtered_with_labels.png"
  const FilteredBoxesOnlyPath: string := "output_3_filtered_boxes_only.png"

  /** A call into an external collaborator, in the order `main` makes it. */
  datatype Call<Image> =
    | LoadImage(path: string)
    | DetectObjects(image: Image)
    | WriteImage(path: string, image: Image)

  /** One rendered view: where it is written, the rendered buffer, and the
      detections and options it was rendered with. */
  datatype Output<Image> =
    Output(path: string, image: Image, predictions: seq<Detection>, hideLabels: bool, hideConf: bool)

  /** How a run ends. `Done` carries the two console reports besides the
      outputs: the total and per-category lines for the full list, then for
      the filtered list. */
  datatype Outcome<Image> =
    | UsageError
    | LoadError(path: string)
    | Done(total: nat, allCategories: seq<Line>,
           filteredTotal: nat, filteredCategories: seq<Line>,
           outputs: seq<Output<Image>>)

  /** The process exit status: `sys.exit(1)` on both error paths, 0 when
      `main` returns normally. */
  function ExitStatus<Image>(outcome: Outcome<Image>): int
  {
    match outcome
    case Done(_, _, _, _, _) => 0
    case _ => 1
  }

  /** The write calls for a list of outputs, in order. */
  function Writes<Image>(outputs: seq<Output<Image>>): (calls: seq<Call<Image>>)
    ensures |calls| == |outputs|
    ensures forall i :: 0 <= i < |outputs| ==>
              calls[i] == WriteImage(outputs[i].path, outputs[i].image)
  {
    if outputs == [] then []
    else [WriteImage(outputs[0].path, outputs[0].image)] + Writes(outputs[1..])
  }

  /** Number of detector invocations in a call trace. */
  function DetectCalls<Image>(calls: seq<Call<Image>>): nat
  {
    if calls == [] then 0
    else (if calls[0].DetectObjects? then 1 else 0) + DetectCalls(calls[1..])
  }

  /** `main`. `argv` is `sys.argv` (program name first); `load` stands for
      `cv2.imread` followed by the colour conversion, `None` when the file
      cannot be read; `detect` for `detect_everything`; `visualize` for
      `visualize_predictions(image, predictions, hide_labels, hide_conf)`. */
  method AnalyzeMusic<Image>(
    argv: seq<string>,
    load: string -> Option<Image>,
    detect: Image -> seq<Detection>,
    visualize: (Image, seq<Detection>, bool, bool) -> Image)
    returns (outcome: Outcome<Image>, calls: seq<Call<Image>>)
    // fewer than two arguments: usage error, nothing loaded
    ensures outcome.UsageError? <==> |argv| < 2
    ensures outcome.UsageError? ==> calls == []
    // unreadable image: load error, the detector never runs, nothing written
    ensures outcome.LoadError? <==> |argv| >= 2 && load(argv[1]).None?
    ensures outcome.LoadError? ==> outcome.path == argv[1] && calls == [LoadImage(argv[1])]
    ensures !outcome.Done? ==> DetectCalls(calls) == 0
    // exit status 1 on both error paths, 0 when main returns normally
    ensures ExitStatus(outcome) == 1 <==> |argv| < 2 || load(argv[1]).None?
    ensures ExitStatus(outcome) == 0 <==> |argv| >= 2 && load(argv[1]).Some?
    // success: one load, one detection, then exactly three writes
    ensures outcome.Done? ==>
      var image := load(argv[1]).value;
      var predictions := detect(image);
      var kept := Filter(predictions, NoteheadsAndAccidentals);
      && outcome.total == |predictions|
      && IsSortedItems(outcome.allCategories, Summarize(predictions))
      && outcome.filteredTotal == |kept|
      && IsSortedItems(outcome.filteredCategories, Summarize(kept))
      && outcome.outputs == [
           Output(EverythingPath, visualize(image, predictions, false, false), predictions, false, false),
           Output(FilteredWithLabelsPath, visualize(image, kept, false, false), kept, false, false),
           Output(FilteredBoxesOnlyPath, visualize(image, kept, true, true), kept, true, true)]
      && calls == [LoadImage(argv[1]), DetectObjects(image)] + Writes(outcome.outputs)
    // the reported figures agree with each other and with the lists
    ensures outcome.Done? ==>
      && Total(outcome.allCategories) == outcome.total
      && Total(outcome.filteredCategories) == outcome.filteredTotal
      && outcome.filteredTotal <= outcome.total
      && outcome.filteredCategories == KeepLines(outcome.allCategories, NoteheadsAndAccidentals)
      && DetectCalls(calls) == 1
  {
    if |argv| < 2 {
      return UsageError, [];
    }
    var inputPath := argv[1];
    calls := [LoadImage(inputPath)];
    var loaded := load(inputPath);
    if loaded.None? {
      return LoadError(inputPath), calls;
    }
    var image := loaded.value;

    var predictions := detect(image);
    calls := calls + [DetectObjects(image)];

    var allCategories := Report(Summarize(predictions));
    var kept := Filter(predictions, NoteheadsAndAccidentals);
    var filteredCategories := Report(Summarize(kept));
    ReportTotal(predictions, allCategories);
    ReportTotal(kept, filteredCategories);
    FilteredReport(predictions, NoteheadsAndAccidentals, allCategories, filteredCategories);

    var outputs: seq<Output<Image>> := [];
    var output1 := visualize(image, predictions, false, false);
    outputs := outputs + [Output(EverythingPath, output1, predictions, false, false)];
    calls := calls + [WriteImage(EverythingPath, output1)];

    var output2 := visualize(image, kept, false, false);
    outputs := outputs + [Output(FilteredWithLabelsPath, output2, kept, false, false)];
    calls := calls + [WriteImage(FilteredWithLabelsPath, output2)];

    var output3 := visualize(image, kept, true, true);
    outputs := outputs + [Output(FilteredBoxesOnlyPath, output3, kept, true, true)];
    calls := calls + [WriteImage(FilteredBoxesOnlyPath, output3)];

    assert calls == [LoadImage(inputPath), DetectObjects(image)] + Writes(outputs);
    assert DetectCalls(calls) == 1 by {
      assert calls[1..][1..] == Writes(outputs);
      WritesDetectNothing(outputs);
    }
    outcome := Done(|predictions|, allCategories, |kept|, filteredCategories, outputs);
  }

  /** Writing outputs never invokes the detector. */
  lemma {:induction false} WritesDetectNothing<Image>(outputs: seq<Output<Image>>)
    ensures DetectCalls(Writes(outputs)) == 0
  {
    if outputs != [] {
      WritesDetectNothing(outputs[1..]);
    }
  }
}
