/**
  How the user interface pairs an analysis's predictions with its boxes,
  when it lists them as text, writes them to a result file and draws them
  on the image: as written, by position in the two lists; as intended, by
  the box number each prediction carries.

  Only the pairing is modelled; widgets, files and the formatting of the
  confidence are not.
 */
module Display {
  import opened Common
  import opened PySemantics
  import opened BoundingBoxesDrawer
  import opened ImageAnalyzer

  /** One listed result: `Box {index}: {label} (Confidence ...)` and the
      coordinates of `box`. */
  datatype Row = Row(index: nat, classLabel: string, confidence: real, box: Box)

  /** `enumerate(zip(predictions, bounding_boxes), 1)`: the `j`-th
      prediction beside the `j`-th box, numbered `j + 1`, as long as both
      lists last. */
  function PositionalRows(predictions: seq<Prediction>, boxes: seq<Box>): (rows: seq<Row>)
    ensures |rows| == if |predictions| <= |boxes| then |predictions| else |boxes|
    ensures forall j :: 0 <= j < |rows| ==>
              rows[j] == Row(j + 1, predictions[j].classLabel, predictions[j].confidence, boxes[j])
  {
    var n := if |predictions| <= |boxes| then |predictions| else |boxes|;
    seq(n, j requires 0 <= j < n =>
      Row(j + 1, predictions[j].classLabel, predictions[j].confidence, boxes[j]))
  }

  /** Every prediction beside the box it was computed from,
      `bounding_boxes[pred['box'] - 1]`, under that box's number. */
  function RowsByBoxIndex(predictions: seq<Prediction>, boxes: seq<Box>): (rows: seq<Row>)
    requires forall j :: 0 <= j < |predictions| ==> 1 <= predictions[j].box <= |boxes|
    ensures |rows| == |predictions|
    ensures forall j :: 0 <= j < |rows| ==>
              && rows[j].index == predictions[j].box
              && rows[j].box == boxes[predictions[j].box - 1]
              && rows[j].classLabel == predictions[j].classLabel
              && rows[j].confidence == predictions[j].confidence
  {
    seq(|predictions|, j requires 0 <= j < |predictions| =>
      var p := predictions[j];
      Row(p.box, p.classLabel, p.confidence, boxes[p.box - 1]))
  }

  /** A row is faithful when the prediction it shows is the one its box
      yields under the row's number. */
  ghost predicate Faithful(row: Row, ctx: Context)
  {
    BoxPrediction(row.index, row.box, ctx) ==
      Success(Some(Prediction(row.index, row.classLabel, row.confidence)))
  }

  /** Pairing by box number shows every prediction of an analysis beside
      the box it came from. */
  lemma RowsByBoxIndexFaithful(boxes: seq<Box>, ctx: Context)
    requires Predictions(boxes, ctx).Success?
    ensures var ps := Predictions(boxes, ctx).value;
            (forall j :: 0 <= j < |ps| ==> 1 <= ps[j].box <= |boxes|)
            && var rows := RowsByBoxIndex(ps, boxes);
            && |rows| == |ps|
            && forall j :: 0 <= j < |rows| ==> Faithful(rows[j], ctx)
  {
    PredictionsFromTheirBoxes(boxes, ctx);
  }

  /** When no crop is skipped, the predictions are numbered 1, 2, ... with
      one per box. */
  lemma {:induction false} PredictionsAllKept(boxes: seq<Box>, ctx: Context)
    requires Predictions(boxes, ctx).Success?
    requires forall k :: 0 <= k < |boxes| ==> CropSize(ctx.height, ctx.width, boxes[k]) != 0
    ensures var ps := Predictions(boxes, ctx).value;
            |ps| == |boxes| && forall j :: 0 <= j < |ps| ==> ps[j].box == j + 1
    decreases |boxes|
  {
    if boxes != [] {
      var init := boxes[..|boxes| - 1];
      assert forall k :: 0 <= k < |init| ==> init[k] == boxes[k];
      PredictionsAllKept(init, ctx);
    }
  }

  /** So the positional pairing is right whenever nothing was skipped. */
  lemma PositionalAgreesWhenNothingSkipped(boxes: seq<Box>, ctx: Context)
    requires Predictions(boxes, ctx).Success?
    requires forall k :: 0 <= k < |boxes| ==> CropSize(ctx.height, ctx.width, boxes[k]) != 0
    ensures var ps := Predictions(boxes, ctx).value;
            (forall j :: 0 <= j < |ps| ==> 1 <= ps[j].box <= |boxes|)
            && PositionalRows(ps, boxes) == RowsByBoxIndex(ps, boxes)
  {
    PredictionsAllKept(boxes, ctx);
    PositionalAgreesWhenNumbered(Predictions(boxes, ctx).value, boxes);
  }

  /** The two pairings agree on predictions numbered 1, 2, ... one per box. */
  lemma PositionalAgreesWhenNumbered(ps: seq<Prediction>, boxes: seq<Box>)
    requires |ps| == |boxes| && forall j :: 0 <= j < |ps| ==> ps[j].box == j + 1
    ensures PositionalRows(ps, boxes) == RowsByBoxIndex(ps, boxes)
  {
  }

  /** The first box's crop is empty, so its prediction is skipped, and the
      second box's prediction is listed as "Box 1" beside the first box's
      coordinates (and drawn on the first box), while the second box is
      not listed at all. */
  lemma PositionalMisattributes()
    ensures Predictions([FlatBox, RegionBox], Example) == Success([Prediction(2, "A", 1.0)])
    ensures PositionalRows([Prediction(2, "A", 1.0)], [FlatBox, RegionBox]) ==
              [Row(1, "A", 1.0, FlatBox)]
    ensures !Faithful(Row(1, "A", 1.0, FlatBox), Example)
    ensures RowsByBoxIndex([Prediction(2, "A", 1.0)], [FlatBox, RegionBox]) ==
              [Row(2, "A", 1.0, RegionBox)]
    ensures Faithful(Row(2, "A", 1.0, RegionBox), Example)
  {
    var boxes := [FlatBox, RegionBox];
    assert boxes[..1] == [FlatBox] && [FlatBox][..0] == [];
    assert CropSize(100, 100, FlatBox) == 0;
    assert CropRows(100, RegionBox) == 10 && CropCols(100, RegionBox) == 10;
    assert ArgMax([1.0]) == 0;
    assert Example.Probabilities(RegionBox) == [1.0];
    assert BoxPrediction(1, FlatBox, Example) == Success(None);
    assert BoxPrediction(2, RegionBox, Example) == Success(Some(Prediction(2, "A", 1.0)));
    assert RunBoxes([FlatBox][..0], Example, BoxPrediction) == Success([]);
    assert Predictions([FlatBox], Example) == Success([]);
    assert boxes[|boxes| - 1] == RegionBox && boxes[..|boxes| - 1] == [FlatBox];
    var found: seq<Prediction> := [];
    assert found + [Prediction(2, "A", 1.0)] == [Prediction(2, "A", 1.0)];
    assert Predictions(boxes, Example) == Success(found + [Prediction(2, "A", 1.0)]);
  }
}
