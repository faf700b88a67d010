# VISIA image analysis core, in Dafny

VISIA reads text in an image with an OCR engine, crops every detected text
region, classifies each crop with a user-chosen Keras model and shows the
results. Almost everything it does is delegated to Qt, OpenCV, easyocr and
TensorFlow; this project models the bookkeeping and integer logic around
those engines and proves what it guarantees:

- **Model registry** (`model_manager.dfy`, over the insertion-ordered
  dictionary of `ordered_maps.dfy`): the protected "Default" entry, adding
  and removing models, the getters, the custom models file written on
  every change and read back at start-up.
- **Result store** (`result_manager.dfy`): the latest analysis record per
  image path, with overwrite, lookup, listing and clear.
- **Analysis** (`image_analyzer.dfy`): choosing the model, and for one
  image the 1-based loop over the OCR boxes that skips empty crops and
  labels each other crop with the class at the first maximal probability.
  The OCR result, the image (its size) and the network's output for each
  box are inputs.
- **Resize and pad geometry** (`preprocessing.dfy`): the aspect-preserving
  size a crop is resized to, the zero padding that brings it to 64 by 64,
  and the scaling of pixels to [0, 1], with exact rational arithmetic in
  place of Python floats.
- **OCR projection and drawing** (`bounding_boxes_drawer.dfy`): detector
  quadrilaterals to integer boxes, the text joined with spaces, and the
  "Box i" annotations as a list of draw commands.
- **Display pairing** (`display.dfy`): how the user interface pairs
  predictions with boxes, as written and as intended (see Findings).

`common.dfy` holds `Option`/`Result`/`Outcome`; `py_semantics.dfy` states
the Python and numpy behaviour the code relies on: `int()` of a float,
slice clamping and negative indices, `np.argmax` (first maximum),
`' '.join` with its inverse `split(' ')`, and the decimal rendering of
`f"Box {i}"` with its inverse.

Behaviour of the code that the model keeps, although one might expect
otherwise:

- "Default" is not guaranteed to exist: it is absent when the bundled
  model or its classes file cannot be read. A custom models file that
  holds a "Default" key overwrites it on load, because `loadCustomModels`
  does not check names.
- The registry and the saved file keep insertion order (Python dicts do),
  so the save/load round trip also restores the order.
- A crop one of whose sides is more than 64 times the other is resized to
  zero rows or columns, and `cv2.resize` raises; the analysis then fails
  with `ResizeFailed`.

Three defects of the code are recorded under Findings, each modelled as
written and as evidently intended. The rest of the model uses the
intended behaviour:

- `analyze` calls `box_drawer.findBoundingBoxes`, which
  `BoundingBoxesDrawer` does not define, so as written every analysis with
  a model set raises `AttributeError`. The model's `Analyze` calls
  `analyzeImage`, the drawer's one method with that signature and result.
- `preprocess` returns the crop as `float32` values in [0, 1], and
  `segment` thresholds that array with Otsu's method, which OpenCV
  accepts only for integer single-channel images; so as written every
  crop that is neither skipped nor collapsed raises there and no analysis
  yields a prediction. The model's `BoxPrediction`, `Predictions`,
  `ClassifyBoxes` and `Analyze` take segmentation to succeed, as it does
  on an 8-bit crop; `BoxPredictionAsWritten` and `PredictionsAsWritten`
  model the loop as written.
- The user interface pairs predictions with boxes by position.

## Model

| member | source | states |
|---|---|---|
| OrderedMaps.OrderedMap.Put | ModelManager.py:78-82 | `d[k] = v`: k maps to v, every other key keeps its value, a present key keeps its position and a new key goes last |
| OrderedMaps.OrderedMap.Remove | ModelManager.py:107-108 | `del d[k]`: k is gone, the other keys keep their values and order (k cut out at its one position), absent k changes nothing |
| OrderedMaps.Without | ModelManager.py:61-62 | the keys minus one name, order kept, no repetition introduced |
| OrderedMaps.WithoutAt | ModelManager.py:107-108 | removing a key from a repetition-free order is cutting it out at its position |
| ModelManager.Saved | ModelManager.py:56-63 | the persisted record holds exactly the non-"Default" names, in registry order, each with only its path and classes |
| ModelManager.LoadEntries | ModelManager.py:44-52 | the loading loop adds at most one name per stored entry and never shrinks the registry |
| ModelManager.LoadEntriesKeeps | ModelManager.py:44-52 | loading keeps the registry well formed and every entry named by its key, and never reorders or drops an existing name |
| ModelManager.LoadAllKeys | ModelManager.py:44-49 | loading a complete file appends its names, in file order, to the names not yet registered |
| ModelManager.LoadAllGet | ModelManager.py:44-49 | loading a complete file gives each of its names its stored path and classes and leaves every other name as it was |
| ModelManager.SaveLoadRoundTrip | ModelManager.py:44-63 | save then load into a registry holding at most "Default" restores every custom entry with its path and classes, in the same order after "Default", and leaves "Default" untouched |
| ModelManager.LoadedNameAt | ModelManager.py:44-63 | after save and load, "Default" keeps the loading registry's entry and every other name gets exactly the saved registry's entry, or none |
| ModelManager.ModelManager.constructor | ModelManager.py:6-11 | start-up is the default model then the custom file loaded on top; "Default" comes first when it loaded |
| ModelManager.ModelManager.LoadDefaultModel | ModelManager.py:22-37 | "Default" is registered with the bundled path and the "default" classes, or nothing changes when the file is missing or the classes unreadable |
| ModelManager.ModelManager.LoadCustomModels | ModelManager.py:39-52 | the loop inserts the stored entries in file order and stops at the first incomplete one, which is `LoadEntries` |
| ModelManager.ModelManager.SaveCustomModels | ModelManager.py:54-65 | the file afterwards holds the `Saved` projection of the registry |
| ModelManager.ModelManager.AddModel | ModelManager.py:69-87 | "Default" is refused and a missing model file raises, both with nothing changed; otherwise the getters return the new path and classes, other entries are unchanged, a re-added name keeps its position, a new one goes last, and the file is rewritten |
| ModelManager.ModelManager.RemoveModel | ModelManager.py:103-112 | "Default" and unknown names change nothing; otherwise the name is gone, the others keep their entries and order, "Default" stays first and the file is rewritten |
| ModelManager.ModelManager.GetModel | ModelManager.py:89-90 | a descriptor exactly for registered names, carrying its own name |
| ModelManager.ModelManager.GetModelPath | ModelManager.py:92-94 | the registered descriptor's path, `None` for an unknown name |
| ModelManager.ModelManager.GetModelClasses | ModelManager.py:96-98 | the registered descriptor's classes, `None` for an unknown name |
| ModelManager.ModelManager.GetModelNames | ModelManager.py:100-101 | every registered name exactly once |
| ResultManager.ResultManager.constructor | ResultManager.py:2-3 | the store starts empty |
| ResultManager.ResultManager.GetResult | ResultManager.py:13-14 | the path's record, and `None` exactly for a path with none |
| ResultManager.ResultManager.GetAllResult | ResultManager.py:16-17 | every record under its path, each path once, in first-added order, and nothing else |
| ResultManager.ResultManager.AddResult | ResultManager.py:5-11 | afterwards the path's record is the one given, replacing any earlier one; other paths keep their records |
| ResultManager.ResultManager.ClearResult | ResultManager.py:19-20 | afterwards there are no records and every lookup gives `None` |
| ResultManager.LatestRecordWins | ResultManager.py:6-11 | two additions for one path leave only the second, as if the first had not happened |
| ImageAnalyzer.CropSize | ImageAnalyzer.py:49-50 | the crop is empty exactly when its row slice or its column slice is empty |
| ImageAnalyzer.CropEmptyNonNegative | ImageAnalyzer.py:49-51 | with non-negative corners a box is skipped exactly when it is flat or starts at or past the image's bottom or right edge |
| ImageAnalyzer.CropCollapsesOnResize | ImageAnalyzer.py:49-58 | a non-empty crop is resized to a zero side, which `cv2.resize` rejects, exactly when one of its sides is more than 64 times the other |
| ImageAnalyzer.NonEmptyCropPreprocesses | ImageAnalyzer.py:50-58 | a crop that is not skipped has a resize layout (no division by zero) that pads to exactly 64 by 64 |
| ImageAnalyzer.BoxPrediction | ImageAnalyzer.py:49-68 | one iteration of the loop; a prediction it yields carries the iteration's own 1-based box number |
| ImageAnalyzer.BoxPredictionCases | ImageAnalyzer.py:46-68 | nothing exactly for an empty crop; the resize error exactly when one side of the crop is more than 64 times the other; an error exactly when that, or empty probabilities, or an arg-max past the labels; otherwise the box's own number with the label and probability at the first maximum, which no probability exceeds |
| ImageAnalyzer.RunBoxes | ImageAnalyzer.py:45-68 | the loop over `bounding_boxes` with a given body: the predictions collected in box order, never more than the boxes, or the first error the body raises |
| ImageAnalyzer.Predictions | ImageAnalyzer.py:45-68 | the whole loop: the predictions of the boxes in order, or the first error; never more predictions than boxes |
| ImageAnalyzer.PredictionsPrefixFailure | ImageAnalyzer.py:46-68 | the first error raised in the loop ends the analysis with that error |
| ImageAnalyzer.PredictionsNumbered | ImageAnalyzer.py:46-68 | box numbers strictly increase and lie in 1..len(boxes), so there are no more predictions than boxes |
| ImageAnalyzer.PredictionsFromTheirBoxes | ImageAnalyzer.py:46-68 | the prediction numbered i comes from `bounding_boxes[i-1]`, whose crop is not empty |
| ImageAnalyzer.PredictionsCoverNonEmptyCrops | ImageAnalyzer.py:49-68 | every box with a non-empty crop has a prediction |
| ImageAnalyzer.PredictionsFailWhen | ImageAnalyzer.py:58-66 | the analysis fails exactly when some box's iteration fails: a non-skipped crop that collapses on resizing, has no probabilities or has an arg-max past the labels |
| ImageAnalyzer.BoxPredictionAsWritten | ImageAnalyzer.py:49-58 | as written, one iteration never yields a prediction: nothing for an empty crop, otherwise the resize or the segmentation error |
| ImageAnalyzer.PredictionsAsWritten | ImageAnalyzer.py:45-68 | the loop as written, each box through `BoxPredictionAsWritten`; `AsWrittenNeverPredicts` states its outcomes |
| ImageAnalyzer.AsWrittenNeverPredicts | ImageAnalyzer.py:45-68 | as written, the analysis succeeds (with no predictions) exactly when every crop is empty, and otherwise fails with the resize or the segmentation error |
| ImageAnalyzer.SegmentationRejectsRegion | DefaultSegmentation.py:13 | a 10 by 10 region of a 100 by 100 image fails in the segmentation as written and is labelled as intended |
| ImageAnalyzer.FindBoxesCall | ImageAnalyzer.py:40-43 | the call of a drawer method goes ahead exactly when a model is set and the drawer defines the method; without a model it fails with "model not set" |
| ImageAnalyzer.FindBoundingBoxesMissing | ImageAnalyzer.py:43 | as written, the call of `findBoundingBoxes` fails on every analysis with a model set, because the drawer does not define it; calling `analyzeImage` goes ahead |
| ImageAnalyzer.ImageAnalyzer.ClassifyBoxes | ImageAnalyzer.py:45-68 | the 1-based loop over the boxes computes exactly the predictions (or the first error) that `Predictions` defines |
| ImageAnalyzer.ImageAnalyzer.constructor | ImageAnalyzer.py:10-13 | no model set and no class labels |
| ImageAnalyzer.ImageAnalyzer.SetModel | ImageAnalyzer.py:18-24 | an unregistered name or a failing load raises and keeps the model and labels; otherwise the model is the registered path's and the labels are the registry's classes |
| ImageAnalyzer.ImageAnalyzer.Analyze | ImageAnalyzer.py:39-72 | corrected to find the boxes with `analyzeImage`: no model raises before anything else; otherwise the result is the predictions the loop defines (a collapsing resize among its errors), the OCR text and boxes unmodified, and the input image with the boxes drawn on it, or the loop's first error with the image untouched |
| Preprocessing.ResizeLayout | Preprocessing.py:38-52 | `None` exactly for zero height; landscape takes the target width, otherwise the target height; paddings sum to the deltas and the odd pixel goes bottom or right |
| Preprocessing.LandscapeHeight | Preprocessing.py:40-42 | landscape height is target width times h over w, rounded down |
| Preprocessing.PortraitWidth | Preprocessing.py:43-45 | portrait width is target height times w over h, rounded down |
| Preprocessing.SquareTargetFits | Preprocessing.py:40-52 | with a square target the free dimension never exceeds it, all paddings are non-negative and the padded size is the target |
| Preprocessing.LandscapeCollapse | Preprocessing.py:40-46 | a landscape crop gets zero rows exactly when it is more than target-width times wider than tall |
| Preprocessing.PortraitCollapse | Preprocessing.py:43-46 | a portrait or square crop gets zero columns exactly when it is more than target-height times taller than wide |
| Preprocessing.CollapseCondition | Preprocessing.py:38-46 | with a square target the resize destination has a zero side exactly when one side of the crop is more than target times the other |
| Preprocessing.NonSquareTargetOverflows | Preprocessing.py:40-51 | a non-square target can give a negative padding |
| Preprocessing.Normalize | Preprocessing.py:56 | a pixel maps into [0, 1], 0 and 255 to the ends, and back by multiplying with 255 |
| Preprocessing.NormalizeMonotonic | Preprocessing.py:56 | normalising keeps the order of pixel values, strictly, in both directions |
| Preprocessing.NormalizeImage | Preprocessing.py:56 | the whole image normalised elementwise, shape kept |
| BoundingBoxesDrawer.ToPixel | BoundingBoxesDrawer.py:19-20 | `int()` on each coordinate: truncation toward zero, the largest integer not above a non-negative coordinate and the smallest not below a negative one |
| BoundingBoxesDrawer.ToBox | BoundingBoxesDrawer.py:18-20 | the box is made of corners 0 and 2 only |
| BoundingBoxesDrawer.BoxesOf | BoundingBoxesDrawer.py:16-23 | one box per detection, in detection order |
| BoundingBoxesDrawer.TextsOf | BoundingBoxesDrawer.py:16-17 | one text piece per detection, in detection order |
| BoundingBoxesDrawer.AnalyzeImage | BoundingBoxesDrawer.py:8-25 | the image as read, the texts joined with single spaces ("" for no detections) and one box per detection |
| BoundingBoxesDrawer.LabelTextReadsBack | BoundingBoxesDrawer.py:30 | the label is "Box " followed by digits that read back as the box number |
| BoundingBoxesDrawer.LabelTextInjective | BoundingBoxesDrawer.py:30 | distinct boxes get distinct "Box i" labels |
| BoundingBoxesDrawer.BoxCommands | BoundingBoxesDrawer.py:28-30 | two draw commands per box |
| BoundingBoxesDrawer.BoxCommandsAt | BoundingBoxesDrawer.py:28-30 | the j-th box gets its rectangle and then "Box j+1" ten pixels above its top-left corner, in list order |
| BoundingBoxesDrawer.DrawBoxes | BoundingBoxesDrawer.py:27-31 | the image itself is returned, with exactly those commands added |
| PySemantics.Trunc | BoundingBoxesDrawer.py:19-20 | `int()` of a float truncates toward zero |
| PySemantics.SliceLength | ImageAnalyzer.py:49 | a clamped slice is never longer than the axis, and is empty exactly when its clamped end is not past its clamped start |
| PySemantics.ArgMax | ImageAnalyzer.py:65 | the first index of a maximal element |
| PySemantics.JoinWithSpaces | BoundingBoxesDrawer.py:25 | `' '.join`: no pieces give the empty text and one piece gives itself; `JoinSplitRoundTrip` gives its inverse |
| PySemantics.JoinSplitRoundTrip | BoundingBoxesDrawer.py:25 | the joined text splits back into the pieces when no piece contains a space |
| PySemantics.DecimalRoundTrip | BoundingBoxesDrawer.py:30 | the decimal rendering of the box number reads back as the number |
| Display.PositionalRows | UserInterface.py:294-296 | as written: the j-th prediction beside the j-th box under number j+1, as long as both lists last |
| Display.RowsByBoxIndex | UserInterface.py:294-296 | corrected: each prediction beside `bounding_boxes[box-1]` under its own number |
| Display.RowsByBoxIndexFaithful | UserInterface.py:294-296 | pairing by number shows every prediction beside the box it was computed from |
| Display.PredictionsAllKept | ImageAnalyzer.py:46-68 | when no crop is skipped, prediction j carries number j+1 and there is one per box |
| Display.PositionalAgreesWhenNothingSkipped | UserInterface.py:294-296 | the two pairings agree when nothing was skipped |
| Display.PositionalMisattributes | UserInterface.py:294-296 | a skipped first box makes the positional pairing show box 2's prediction on box 1 |

## Left out

- OpenCV, easyocr and TensorFlow: reading and writing images, the
  contrast, denoising, edge and contour steps of `preprocess`, the
  threshold Otsu's method computes (only whether it accepts the crop is
  modelled), the interpolation of `cv2.resize`, `readtext`, and
  `load_model`/`predict`. The detections, the image size, whether a model
  loads and the network's output per box are inputs.
- File I/O: the JSON files are given as parsed values (`None` when
  unreadable), file existence as booleans. The temporary crop file and
  the home-directory lookup are not modelled, and neither is a save that
  fails (it is only logged).
- ImageAnalyzer.BoxPrediction: states the intended iteration, in which
  segmenting a crop that did not collapse succeeds; as written it always
  raises (`BoxPredictionAsWritten`, Findings).
- ImageAnalyzer.BoxPredictionCases: its error cases are those of the
  intended iteration and leave out the segmentation error that, as
  written, every crop that is neither skipped nor collapsed raises
  (`BoxPredictionAsWritten`).
- ImageAnalyzer.Predictions: the intended loop; as written it fails at
  the first crop that is neither skipped nor collapsed
  (`AsWrittenNeverPredicts`).
- ImageAnalyzer.PredictionsFailWhen: characterises the failures of the
  intended loop; as written the loop fails exactly when some crop is not
  empty (`AsWrittenNeverPredicts`).
- ImageAnalyzer.ImageAnalyzer.ClassifyBoxes: computes the intended loop,
  `Predictions`, not the as-written one.
- ImageAnalyzer.ImageAnalyzer.Analyze: corrected in two ways, finding
  the boxes with `analyzeImage` and segmenting successfully; as written
  it fails whenever a model is set (`FindBoundingBoxesMissing`).
- Preprocessing.ResizeLayout: `aspect` is an exact rational, not a float,
  so a size can differ from the program's by one pixel where `w / h` is
  not representable.
- Pixel values and drawing: an image is its size and a list of draw
  commands; colours, fonts and line widths are dropped.
- PySemantics.ArgMax: NaN probabilities are not modelled.
- A custom models file whose top level is not a JSON object, and JSON
  values of the wrong type: the file is an ordered map of optional
  fields.
- ResultManager.ResultManager.GetAllResult: returns the records as a
  list of pairs, so the aliasing of the returned dictionary with the
  store is not modelled.
- The user interface (Qt widgets, dialogs, folder saving and loading,
  `:.2f` formatting) and the application wiring. Only how it pairs
  predictions with boxes is modelled.
- `IModel` and `ISegmentation` are interfaces with no behaviour.

## Findings

| source | as written | input that shows it | evidently intended | confidence | as-written member | corrected member |
|---|---|---|---|---|---|---|
| UserInterface.py:294-296, UserInterface.py:437-439, UserInterface.py:498-502 | predictions and boxes are paired by position (`enumerate(zip(predictions, bounding_boxes), 1)`), although `analyze` skips boxes with an empty crop and records each prediction's own box number | two boxes, the first a single point (empty crop) and the second a 10 by 10 region: the only prediction (box 2) is listed and drawn as "Box 1" with the first box's coordinates, and box 2 is not listed | pair each prediction with `bounding_boxes[pred['box'] - 1]` under its own number | high; not executed | Display.PositionalMisattributes | Display.RowsByBoxIndex |
| ImageAnalyzer.py:43 | `analyze` finds the boxes with `self.box_drawer.findBoundingBoxes(image_path)`, but `BoundingBoxesDrawer` defines only `__init__`, `analyzeImage` and `drawBoxes` | any image, once a model is set: the lookup raises `AttributeError` before the box loop, and the user interface reports that the analysis failed | call `analyzeImage(image_path)`, which returns the image, the text and the boxes that `analyze` unpacks | high; not executed | ImageAnalyzer.FindBoundingBoxesMissing | ImageAnalyzer.ImageAnalyzer.Analyze |
| DefaultSegmentation.py:13 | `preprocessImage` (ImageAnalyzer.py:27-37) passes the `float32` array `preprocess` returns (Preprocessing.py:56) to `segment`, which calls `cv2.threshold(gray, 0, 255, THRESH_BINARY_INV + THRESH_OTSU)`; Otsu's method accepts only integer single-channel images, so the call raises for every crop that is neither skipped nor collapsed | a 100 by 100 image with the one box (0, 0)-(10, 10): the loop raises at ImageAnalyzer.py:58 instead of labelling the box | threshold an 8-bit image, e.g. convert the normalised crop back with `(x * 255).astype(np.uint8)` before `segment` | high (OpenCV's documented input types); not executed | ImageAnalyzer.AsWrittenNeverPredicts | ImageAnalyzer.BoxPrediction |
