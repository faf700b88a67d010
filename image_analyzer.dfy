/**
  The analysis orchestrator: holds the currently loaded classification
  model and its class labels, and for one image crops every OCR box,
  classifies the non-empty crops and collects one prediction per
  classified box, numbered by the box's 1-based position.

  The image's pixels, the preprocessing and segmentation of a crop and the
  network's forward pass are outside the model: a call receives a
  `predict` function giving, for the loaded model and a box of this image,
  the class-probability vector the network outputs for that crop.
 */
module ImageAnalyzer {
  import opened Common
  import opened PySemantics
  import opened BoundingBoxesDrawer
  import MM = ModelManager
  import Preprocessing

  /** A network loaded with `tf.keras.models.load_model`, known by its file. */
  datatype LoadedModel = LoadedModel(path: string)

  /** `{"box": i, "label": classLabel, "confidence": confidence}`. */
  datatype Prediction = Prediction(box: nat, classLabel: string, confidence: real)

  datatype AnalyzerError =
    | ModelNotFound(name: string)       // `setModel` with an unregistered name
    | ModelLoadFailed(path: string)     // `load_model` raised
    | ModelNotSet                       // `analyze` before any `setModel`
    | ResizeFailed                      // `cv2.resize` to a zero-sized destination raised
    | SegmentationFailed                // `cv2.threshold` with Otsu's method rejected the crop
    | EmptyPrediction                   // `np.argmax` of an empty vector
    | LabelIndexOutOfRange(index: nat)  // `class_names[label_index]` raised
    | AttributeMissing(name: string)    // a method the object does not define was called

  /** What `analyze` returns: the annotated image (the image it read, drawn
      on), the joined text, the predictions and the boxes. */
  datatype Analysis = Analysis(annotated: Canvas, text: string,
                               predictions: seq<Prediction>, boundingBoxes: seq<Box>)

  /** What one `analyze` call classifies with: the image size, the labels
      and the loaded network, and the network's output for each box. */
  datatype Context = Context(height: nat, width: nat, classNames: seq<string>,
                             model: LoadedModel, predict: (LoadedModel, Box) -> seq<real>)
  {
    function Probabilities(b: Box): seq<real>
    {
      predict(model, b)
    }
  }

  /** Rows of `image[y_min:y_max, x_min:x_max]`. */
  function CropRows(height: nat, b: Box): nat
  {
    SliceLength(height, b.tl.y, b.br.y)
  }

  /** Columns of `image[y_min:y_max, x_min:x_max]`. */
  function CropCols(width: nat, b: Box): nat
  {
    SliceLength(width, b.tl.x, b.br.x)
  }

  /** `image[y_min:y_max, x_min:x_max].size` for a colour image. */
  function CropSize(height: nat, width: nat, b: Box): (size: nat)
    ensures size == 0 <==> CropRows(height, b) == 0 || CropCols(width, b) == 0
  {
    CropRows(height, b) * CropCols(width, b) * Channels
  }

  /** For a box with non-negative corners the crop is empty exactly when
      the box is flat or starts at or beyond the image's right or bottom
      edge; in particular a box whose corners coincide is always skipped. */
  lemma CropEmptyNonNegative(height: nat, width: nat, b: Box)
    requires 0 <= b.tl.x && 0 <= b.tl.y && 0 <= b.br.x && 0 <= b.br.y
    ensures CropSize(height, width, b) == 0 <==>
              (b.br.y <= b.tl.y || height <= b.tl.y || b.br.x <= b.tl.x || width <= b.tl.x)
  {
    SliceEmptyNonNegative(height, b.tl.y, b.br.y);
    SliceEmptyNonNegative(width, b.tl.x, b.br.x);
  }

  /** A crop that is not skipped has a layout (`aspect = w / h` does not
      divide by zero) whose sizes add up to 64 by 64. */
  lemma NonEmptyCropPreprocesses(height: nat, width: nat, b: Box)
    requires CropSize(height, width, b) != 0
    ensures var l := Preprocessing.ResizeLayout(Preprocessing.DefaultTarget, CropRows(height, b), CropCols(width, b));
            && l.Some?
            && l.value.newW + l.value.left + l.value.right == 64
            && l.value.newH + l.value.top + l.value.bottom == 64
            && 0 <= l.value.top && 0 <= l.value.left
  {
    Preprocessing.SquareTargetFits(64, CropRows(height, b), CropCols(width, b));
  }

  /** Whether one side of the crop of `b` is more than 64 times the other. */
  predicate CropCollapses(height: nat, width: nat, b: Box)
  {
    var rows, cols := CropRows(height, b), CropCols(width, b);
    64 * rows < cols || 64 * cols < rows
  }

  /** ... which is exactly when preprocessing the non-empty crop resizes it
      to a zero side, which `cv2.resize` rejects. */
  lemma CropCollapsesOnResize(height: nat, width: nat, b: Box)
    requires CropSize(height, width, b) != 0
    ensures CropCollapses(height, width, b) <==>
              Preprocessing.Collapses(Preprocessing.DefaultTarget, CropRows(height, b), CropCols(width, b))
  {
    Preprocessing.CollapseCondition(64, CropRows(height, b), CropCols(width, b));
  }

  /** The body of `analyze`'s loop for the `i`-th box (from 1), as
      intended: nothing for an empty crop, the resize error for a crop that
      collapses, else the label at the first maximal probability and that
      probability, or the error the indexing raises. Segmentation is taken
      to succeed, as it does once the crop is an 8-bit image; as written it
      never does (`BoxPredictionAsWritten`). */
  function BoxPrediction(i: nat, b: Box, ctx: Context): (r: Result<Option<Prediction>, AnalyzerError>)
    ensures r.Success? && r.value.Some? ==> r.value.value.box == i
  {
    if CropSize(ctx.height, ctx.width, b) == 0 then Success(None)
    else if CropCollapses(ctx.height, ctx.width, b) then Failure(ResizeFailed)
    else
      var probs := ctx.Probabilities(b);
      if |probs| == 0 then Failure(EmptyPrediction)
      else
        var k := ArgMax(probs);
        if k >= |ctx.classNames| then Failure(LabelIndexOutOfRange(k))
        else Success(Some(Prediction(i, ctx.classNames[k], probs[k])))
  }

  /** A box yields nothing exactly when its crop is empty, fails exactly
      when one side of its crop is more than 64 times the other (the resize
      collapses), the network's output is empty or its arg-max is past the
      labels, and otherwise yields its own number with the label and the
      probability at the first maximum, which no probability exceeds. */
  lemma BoxPredictionCases(i: nat, b: Box, ctx: Context)
    ensures BoxPrediction(i, b, ctx) == Success(None) <==> CropSize(ctx.height, ctx.width, b) == 0
    ensures BoxPrediction(i, b, ctx) == Failure(ResizeFailed) <==>
              var rows, cols := CropRows(ctx.height, b), CropCols(ctx.width, b);
              CropSize(ctx.height, ctx.width, b) != 0 && (64 * rows < cols || 64 * cols < rows)
    ensures BoxPrediction(i, b, ctx).Failure? <==>
              var rows, cols := CropRows(ctx.height, b), CropCols(ctx.width, b);
              CropSize(ctx.height, ctx.width, b) != 0
              && (|| 64 * rows < cols || 64 * cols < rows
                  || |ctx.Probabilities(b)| == 0 || ArgMax(ctx.Probabilities(b)) >= |ctx.classNames|)
    ensures BoxPrediction(i, b, ctx).Success? && BoxPrediction(i, b, ctx).value.Some? ==>
              var p := BoxPrediction(i, b, ctx).value.value;
              var probs := ctx.Probabilities(b);
              && p.box == i
              && |probs| > 0 && ArgMax(probs) < |ctx.classNames|
              && p.classLabel == ctx.classNames[ArgMax(probs)]
              && p.confidence == probs[ArgMax(probs)]
              && (forall j :: 0 <= j < |probs| ==> probs[j] <= p.confidence)
  {
  }

  /** The body of `analyze`'s loop: the outcome for the `i`-th box. */
  type BoxStep = (nat, Box, Context) -> Result<Option<Prediction>, AnalyzerError>

  /** `analyze`'s loop over `boxes` with the body `step`: the predictions
      the boxes yield, in box order, or the first error. */
  function RunBoxes(boxes: seq<Box>, ctx: Context, step: BoxStep): (r: Result<seq<Prediction>, AnalyzerError>)
    ensures r.Success? ==> |r.value| <= |boxes|
    decreases |boxes|
  {
    if boxes == [] then Success([])
    else
      match RunBoxes(boxes[..|boxes| - 1], ctx, step)
      case Failure(e) => Failure(e)
      case Success(ps) =>
        match step(|boxes|, boxes[|boxes| - 1], ctx)
        case Failure(e) => Failure(e)
        case Success(None) => Success(ps)
        case Success(Some(p)) => Success(ps + [p])
  }

  /** The predictions of `analyze` for `boxes`, or the first error. */
  function Predictions(boxes: seq<Box>, ctx: Context): (r: Result<seq<Prediction>, AnalyzerError>)
    ensures r.Success? ==> |r.value| <= |boxes|
  {
    RunBoxes(boxes, ctx, BoxPrediction)
  }

  /** `Predictions` over the first `i` boxes, from those over the first
      `i - 1` and the `i`-th box's own outcome. */
  lemma PredictionsStep(boxes: seq<Box>, i: nat, ctx: Context)
    requires 1 <= i <= |boxes| && Predictions(boxes[..i - 1], ctx).Success?
    ensures var ps := Predictions(boxes[..i - 1], ctx).value;
            match BoxPrediction(i, boxes[i - 1], ctx)
            case Failure(e) => Predictions(boxes[..i], ctx) == Failure(e)
            case Success(None) => Predictions(boxes[..i], ctx) == Success(ps)
            case Success(Some(p)) => Predictions(boxes[..i], ctx) == Success(ps + [p])
  {
    var prefix := boxes[..i];
    assert prefix[..|prefix| - 1] == boxes[..i - 1] && prefix[|prefix| - 1] == boxes[i - 1];
  }

  /** Once a prefix of the boxes fails, so do all the boxes, with the same
      error. */
  lemma {:induction false} PredictionsPrefixFailure(boxes: seq<Box>, n: nat, ctx: Context)
    requires n <= |boxes| && Predictions(boxes[..n], ctx).Failure?
    ensures Predictions(boxes, ctx) == Predictions(boxes[..n], ctx)
    decreases |boxes| - n
  {
    if n < |boxes| {
      var longer := boxes[..n + 1];
      assert longer[..n] == boxes[..n];
      assert Predictions(longer, ctx) == Predictions(boxes[..n], ctx);
      PredictionsPrefixFailure(boxes, n + 1, ctx);
    } else {
      assert boxes[..n] == boxes;
    }
  }

  /** Predictions carry strictly increasing box numbers between 1 and the
      number of boxes, so there are never more predictions than boxes. */
  lemma {:induction false} PredictionsNumbered(boxes: seq<Box>, ctx: Context)
    requires Predictions(boxes, ctx).Success?
    ensures var ps := Predictions(boxes, ctx).value;
            && |ps| <= |boxes|
            && (forall j :: 0 <= j < |ps| ==> 1 <= ps[j].box <= |boxes|)
            && (forall j, k :: 0 <= j < k < |ps| ==> ps[j].box < ps[k].box)
    decreases |boxes|
  {
    if boxes != [] {
      PredictionsNumbered(boxes[..|boxes| - 1], ctx);
    }
  }

  /** Every prediction in `ps` is the one its box yields: the box numbered
      `p.box` is `boxes[p.box - 1]`, its crop is not empty, and the label
      and confidence are read at the arg-max of that box's probabilities. */
  predicate DrawnFromBoxes(boxes: seq<Box>, ps: seq<Prediction>, ctx: Context)
  {
    forall j :: 0 <= j < |ps| ==>
      && 1 <= ps[j].box <= |boxes|
      && CropSize(ctx.height, ctx.width, boxes[ps[j].box - 1]) != 0
      && BoxPrediction(ps[j].box, boxes[ps[j].box - 1], ctx) == Success(Some(ps[j]))
  }

  /** The predictions of `analyze` are all drawn from their boxes. */
  lemma {:induction false} PredictionsFromTheirBoxes(boxes: seq<Box>, ctx: Context)
    requires Predictions(boxes, ctx).Success?
    ensures DrawnFromBoxes(boxes, Predictions(boxes, ctx).value, ctx)
    decreases |boxes|
  {
    if boxes != [] {
      var init := boxes[..|boxes| - 1];
      PredictionsLast(boxes, ctx);
      PredictionsFromTheirBoxes(init, ctx);
      ExtendFromTheirBoxes(boxes, Predictions(init, ctx).value, Predictions(boxes, ctx).value, ctx);
    }
  }

  /** The step of `PredictionsFromTheirBoxes`: predictions `ps` drawn from
      all but the last box, extended by at most the last box's prediction,
      are drawn from all the boxes. */
  lemma ExtendFromTheirBoxes(boxes: seq<Box>, ps: seq<Prediction>, all: seq<Prediction>, ctx: Context)
    requires boxes != [] && DrawnFromBoxes(boxes[..|boxes| - 1], ps, ctx)
    requires (|all| == |ps| || |all| == |ps| + 1) && all[..|ps|] == ps
    requires |all| == |ps| + 1 ==>
               && all[|ps|].box == |boxes|
               && CropSize(ctx.height, ctx.width, boxes[|boxes| - 1]) != 0
               && BoxPrediction(|boxes|, boxes[|boxes| - 1], ctx) == Success(Some(all[|ps|]))
    ensures DrawnFromBoxes(boxes, all, ctx)
  {
    forall j | 0 <= j < |all|
      ensures && 1 <= all[j].box <= |boxes|
              && CropSize(ctx.height, ctx.width, boxes[all[j].box - 1]) != 0
              && BoxPrediction(all[j].box, boxes[all[j].box - 1], ctx) == Success(Some(all[j]))
    {
      if j < |ps| {
        assert all[j] == all[..|ps|][j] == ps[j];
        assert boxes[ps[j].box - 1] == boxes[..|boxes| - 1][ps[j].box - 1];
      }
    }
  }

  /** The predictions for all the boxes are those for all but the last,
      followed by the last box's prediction when it yields one. */
  lemma PredictionsLast(boxes: seq<Box>, ctx: Context)
    requires boxes != [] && Predictions(boxes, ctx).Success?
    ensures var init := boxes[..|boxes| - 1];
            && Predictions(init, ctx).Success?
            && var ps := Predictions(init, ctx).value;
            && var all := Predictions(boxes, ctx).value;
            && (|all| == |ps| || |all| == |ps| + 1)
            && all[..|ps|] == ps
            && (|all| == |ps| + 1 ==>
                  && all[|ps|].box == |boxes|
                  && CropSize(ctx.height, ctx.width, boxes[|boxes| - 1]) != 0
                  && BoxPrediction(|boxes|, boxes[|boxes| - 1], ctx) == Success(Some(all[|ps|])))
  {
    BoxPredictionCases(|boxes|, boxes[|boxes| - 1], ctx);
  }

  /** ... and every box whose crop is not empty has its prediction. */
  lemma {:induction false} PredictionsCoverNonEmptyCrops(boxes: seq<Box>, ctx: Context)
    requires Predictions(boxes, ctx).Success?
    ensures var ps := Predictions(boxes, ctx).value;
            forall k :: 0 <= k < |boxes| && CropSize(ctx.height, ctx.width, boxes[k]) != 0 ==>
              exists j :: 0 <= j < |ps| && ps[j].box == k + 1
    decreases |boxes|
  {
    if boxes != [] {
      var init := boxes[..|boxes| - 1];
      PredictionsCoverNonEmptyCrops(init, ctx);
      var ps := Predictions(init, ctx).value;
      var all := Predictions(boxes, ctx).value;
      forall k | 0 <= k < |boxes| && CropSize(ctx.height, ctx.width, boxes[k]) != 0
        ensures exists j :: 0 <= j < |all| && all[j].box == k + 1
      {
        if k < |boxes| - 1 {
          assert init[k] == boxes[k];
          var j :| 0 <= j < |ps| && ps[j].box == k + 1;
          assert all[j] == ps[j];
        } else {
          assert all[|all| - 1].box == k + 1;
        }
      }
    }
  }

  /** `analyze` fails exactly when some box's iteration fails: a non-empty
      crop that collapses on resizing, or an empty probability vector or an
      arg-max beyond the class labels. */
  lemma {:induction false} PredictionsFailWhen(boxes: seq<Box>, ctx: Context)
    ensures Predictions(boxes, ctx).Failure? <==>
              exists k :: 0 <= k < |boxes| && BoxPrediction(k + 1, boxes[k], ctx).Failure?
    decreases |boxes|
  {
    if boxes != [] {
      var init := boxes[..|boxes| - 1];
      PredictionsFailWhen(init, ctx);
      if Predictions(init, ctx).Failure? {
        var k :| 0 <= k < |init| && BoxPrediction(k + 1, init[k], ctx).Failure?;
        assert boxes[k] == init[k];
      } else if Predictions(boxes, ctx).Success? {
        forall k | 0 <= k < |boxes|
          ensures BoxPrediction(k + 1, boxes[k], ctx).Success?
        {
          if k < |boxes| - 1 {
            assert boxes[k] == init[k];
          }
        }
      }
    }
  }

  /** The methods `BoundingBoxesDrawer` defines. */
  datatype DrawerMethod = DrawerInit | AnalyzeImageMethod | DrawBoxesMethod

  /** Attribute lookup on a `BoundingBoxesDrawer` instance; `None` is the
      `AttributeError` for a name the class does not define. */
  function DrawerAttribute(name: string): (r: Option<DrawerMethod>)
    ensures r == Some(AnalyzeImageMethod) <==> name == "analyzeImage"
    ensures r == Some(DrawBoxesMethod) <==> name == "drawBoxes"
  {
    if name == "__init__" then Some(DrawerInit)
    else if name == "analyzeImage" then Some(AnalyzeImageMethod)
    else if name == "drawBoxes" then Some(DrawBoxesMethod)
    else None
  }

  /** The start of `analyze` when it calls the drawer method `name` to
      find the boxes: the guard on the model, then the lookup of `name`.
      `Pass` means the lookup succeeds and the call goes ahead. */
  function FindBoxesCall(model: Option<LoadedModel>, name: string): (r: Outcome<AnalyzerError>)
    ensures r == Pass <==> model.Some? && DrawerAttribute(name).Some?
    ensures r == Fail(ModelNotSet) <==> model.None?
  {
    if model.None? then Fail(ModelNotSet)
    else if DrawerAttribute(name).None? then Fail(AttributeMissing(name))
    else Pass
  }

  /** As written, `analyze` calls `findBoundingBoxes`, which the drawer does
      not define: every call fails, with `AttributeMissing` once a model is
      set. Calling `analyzeImage` instead reaches the box loop, which is
      what `ImageAnalyzer.Analyze` models. */
  lemma FindBoundingBoxesMissing(model: Option<LoadedModel>)
    ensures FindBoxesCall(model, "findBoundingBoxes").Fail?
    ensures model.Some? ==> FindBoxesCall(model, "findBoundingBoxes") == Fail(AttributeMissing("findBoundingBoxes"))
    ensures FindBoxesCall(model, "analyzeImage") == Pass <==> model.Some?
  {
  }

  /** The loop body as written. `preprocess` returns the padded crop as
      `float32` values in [0, 1], and `segment` hands that array to
      `cv2.threshold` with `THRESH_OTSU`, which OpenCV accepts only for
      integer single-channel images: every crop that is neither skipped nor
      collapsed raises there, before the network is asked. */
  function BoxPredictionAsWritten(i: nat, b: Box, ctx: Context): (r: Result<Option<Prediction>, AnalyzerError>)
    ensures r.Success? ==> r.value.None?
  {
    if CropSize(ctx.height, ctx.width, b) == 0 then Success(None)
    else if CropCollapses(ctx.height, ctx.width, b) then Failure(ResizeFailed)
    else Failure(SegmentationFailed)
  }

  /** `analyze`'s loop as written: the loop of `Predictions` with the
      as-written body. */
  function PredictionsAsWritten(boxes: seq<Box>, ctx: Context): (r: Result<seq<Prediction>, AnalyzerError>)
    ensures r.Success? ==> |r.value| <= |boxes|
  {
    RunBoxes(boxes, ctx, BoxPredictionAsWritten)
  }

  /** As written, an analysis never yields a prediction: it succeeds, with
      no predictions, exactly when every crop is empty, and otherwise fails
      with the resize or the segmentation error. */
  lemma {:induction false} AsWrittenNeverPredicts(boxes: seq<Box>, ctx: Context)
    ensures PredictionsAsWritten(boxes, ctx).Success? ==> PredictionsAsWritten(boxes, ctx).value == []
    ensures PredictionsAsWritten(boxes, ctx).Failure? <==>
              exists k :: 0 <= k < |boxes| && CropSize(ctx.height, ctx.width, boxes[k]) != 0
    ensures PredictionsAsWritten(boxes, ctx).Failure? ==>
              PredictionsAsWritten(boxes, ctx).error in {ResizeFailed, SegmentationFailed}
    decreases |boxes|
  {
    if boxes != [] {
      var init := boxes[..|boxes| - 1];
      AsWrittenNeverPredicts(init, ctx);
      if PredictionsAsWritten(init, ctx).Failure? {
        var k :| 0 <= k < |init| && CropSize(ctx.height, ctx.width, init[k]) != 0;
        assert boxes[k] == init[k];
      } else if PredictionsAsWritten(boxes, ctx).Success? {
        forall k | 0 <= k < |boxes|
          ensures CropSize(ctx.height, ctx.width, boxes[k]) == 0
        {
          if k < |boxes| - 1 {
            assert boxes[k] == init[k];
          }
        }
      }
    }
  }

  // ---------------------------------------------------------------------
  // Examples. The constants below are not part of the model: they are the
  // concrete inputs of the witness lemmas (`SegmentationRejectsRegion`
  // here, `Display.PositionalMisattributes`).
  // ---------------------------------------------------------------------

  /** An image of 100 by 100 pixels whose first box is a single point and
      whose second box is a real region, classified with one label. */
  const Point5: Point := Point(5, 5)
  const FlatBox: Box := Box(Point5, Point5)
  const RegionBox: Box := Box(Point(0, 0), Point(10, 10))

  function Certain(m: LoadedModel, b: Box): seq<real>
  {
    [1.0]
  }

  const Example: Context := Context(100, 100, ["A"], LoadedModel("model.h5"), Certain)

  /** One 10 by 10 region of a 100 by 100 image: as written the analysis
      fails in the segmentation, as intended it labels the region. */
  lemma SegmentationRejectsRegion()
    ensures PredictionsAsWritten([RegionBox], Example) == Failure(SegmentationFailed)
    ensures Predictions([RegionBox], Example) == Success([Prediction(1, "A", 1.0)])
  {
    var boxes := [RegionBox];
    assert boxes[..0] == [];
    assert CropRows(100, RegionBox) == 10 && CropCols(100, RegionBox) == 10;
    assert !CropCollapses(100, 100, RegionBox);
    assert ArgMax([1.0]) == 0;
    assert Example.Probabilities(RegionBox) == [1.0];
    assert BoxPrediction(1, RegionBox, Example) == Success(Some(Prediction(1, "A", 1.0)));
    assert BoxPredictionAsWritten(1, RegionBox, Example) == Failure(SegmentationFailed);
    assert RunBoxes(boxes[..0], Example, BoxPredictionAsWritten) == Success([]);
    assert RunBoxes(boxes[..0], Example, BoxPrediction) == Success([]);
    var found: seq<Prediction> := [];
    assert found + [Prediction(1, "A", 1.0)] == [Prediction(1, "A", 1.0)];
  }

  class ImageAnalyzer {
    /** `self.model_manager`. */
    const modelManager: MM.ModelManager
    /** `self.model`; `None` until a model is set. */
    var model: Option<LoadedModel>
    /** `self.class_names`. */
    var classNames: seq<string>

    constructor (modelManager: MM.ModelManager)
      ensures this.modelManager == modelManager && model == None && classNames == []
    {
      this.modelManager := modelManager;
      model := None;
      classNames := [];
    }

    /** `setModel(model_name)`; `loads` says whether `load_model` succeeds
        on the registered path. */
    method SetModel(name: string, loads: bool) returns (r: Outcome<AnalyzerError>)
      requires modelManager.Valid()
      modifies this
      ensures modelManager.GetModel(name).None? ==>
                r == Fail(ModelNotFound(name)) && model == old(model) && classNames == old(classNames)
      ensures modelManager.GetModel(name).Some? && !loads ==>
                r == Fail(ModelLoadFailed(modelManager.GetModel(name).value.path))
                && model == old(model) && classNames == old(classNames)
      ensures modelManager.GetModel(name).Some? && loads ==>
                && r == Pass
                && model == Some(LoadedModel(modelManager.GetModelPath(name).value))
                && classNames == modelManager.GetModelClasses(name).value
    {
      var info := modelManager.GetModel(name);
      if info.None? {
        return Fail(ModelNotFound(name));
      }
      if !loads {
        return Fail(ModelLoadFailed(info.value.path));
      }
      model := Some(LoadedModel(info.value.path));
      classNames := info.value.classes;
      return Pass;
    }

    /** `analyze(image_path)`: `image` is the image as `cv2.imread` reads
        it and `ocr` what the text detector finds in it. */
    method Analyze(image: Canvas, ocr: seq<Detection>, predict: (LoadedModel, Box) -> seq<real>)
      returns (r: Result<Analysis, AnalyzerError>)
      modifies image
      ensures model.None? ==> r == Failure(ModelNotSet) && image.commands == old(image.commands)
      ensures model.Some? ==>
                var ctx := Context(image.height, image.width, classNames, model.value, predict);
                match Predictions(BoxesOf(ocr), ctx)
                case Failure(e) =>
                  r == Failure(e) && image.commands == old(image.commands)
                case Success(ps) =>
                  && r == Success(Analysis(image, JoinWithSpaces(TextsOf(ocr)), ps, BoxesOf(ocr)))
                  && image.commands == old(image.commands) + BoxCommands(BoxesOf(ocr))
    {
      if model.None? {
        return Failure(ModelNotSet);
      }
      var originalImage, text, boxes := AnalyzeImage(image, ocr);
      assert boxes == BoxesOf(ocr);
      var outcome := ClassifyBoxes(originalImage.height, originalImage.width, boxes, predict);
      match outcome
      case Failure(e) =>
        return Failure(e);
      case Success(predictions) =>
        var annotatedImage := DrawBoxes(originalImage, boxes);
        return Success(Analysis(annotatedImage, text, predictions, boxes));
    }

    /** The loop of `analyze` over the boxes of an image of `height` rows
        and `width` columns: the predictions, or the first error raised. */
    method ClassifyBoxes(height: nat, width: nat, boxes: seq<Box>, predict: (LoadedModel, Box) -> seq<real>)
      returns (r: Result<seq<Prediction>, AnalyzerError>)
      requires model.Some?
      ensures r == Predictions(boxes, Context(height, width, classNames, model.value, predict))
    {
      ghost var ctx := Context(height, width, classNames, model.value, predict);
      var predictions: seq<Prediction> := [];
      var i := 1;
      while i <= |boxes|
        invariant 1 <= i <= |boxes| + 1
        invariant Predictions(boxes[..i - 1], ctx) == Success(predictions)
      {
        var b := boxes[i - 1];
        PredictionsStep(boxes, i, ctx);
        if CropSize(height, width, b) == 0 {
          assert BoxPrediction(i, b, ctx) == Success(None);
          i := i + 1;
          continue;
        }
        var layout := Preprocessing.ResizeLayout(Preprocessing.DefaultTarget, CropRows(height, b), CropCols(width, b)).value;
        CropCollapsesOnResize(height, width, b);
        if layout.newW == 0 || layout.newH == 0 {
          assert BoxPrediction(i, b, ctx) == Failure(ResizeFailed);
          PredictionsPrefixFailure(boxes, i, ctx);
          return Failure(ResizeFailed);
        }
        var probs := predict(model.value, b);
        if |probs| == 0 {
          assert BoxPrediction(i, b, ctx) == Failure(EmptyPrediction);
          PredictionsPrefixFailure(boxes, i, ctx);
          return Failure(EmptyPrediction);
        }
        var labelIndex := ArgMax(probs);
        if labelIndex >= |classNames| {
          assert BoxPrediction(i, b, ctx) == Failure(LabelIndexOutOfRange(labelIndex));
          PredictionsPrefixFailure(boxes, i, ctx);
          return Failure(LabelIndexOutOfRange(labelIndex));
        }
        var p := Prediction(i, classNames[labelIndex], probs[labelIndex]);
        assert BoxPrediction(i, b, ctx) == Success(Some(p));
        predictions := predictions + [p];
        i := i + 1;
      }
      assert boxes[..|boxes|] == boxes;
      return Success(predictions);
    }
  }
}
