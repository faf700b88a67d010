/**
  The OCR front end: turns the text detector's quadrilaterals into
  axis-aligned boxes and joins the recognised strings, and annotates an
  image with one labelled rectangle per box.

  The detector (`easyocr.Reader(['it']).readtext`) and the image file are
  outside the model: a call receives the detections and the decoded image.
  An image is a `Canvas`: its size and the list of drawing commands issued
  on it, in order; pixels are not modelled.
 */
module BoundingBoxesDrawer {
  import opened PySemantics

  /** An integer pixel position `(x, y)`. */
  datatype Point = Point(x: int, y: int)

  /** `(tl, br)`: top-left and bottom-right corners. */
  datatype Box = Box(tl: Point, br: Point)

  /** A corner as the detector reports it, in floating point. */
  datatype RealPoint = RealPoint(x: real, y: real)

  /** The detector's quadrilateral, corners in the order top-left,
      top-right, bottom-right, bottom-left. */
  datatype Quad = Quad(tl: RealPoint, tr: RealPoint, br: RealPoint, bl: RealPoint)

  /** One `(bbox, text, prob)` result of `readtext`. */
  datatype Detection = Detection(quad: Quad, text: string, prob: real)

  /** One call of `cv2.rectangle` or `cv2.putText` on an image. */
  datatype DrawCommand =
    | Rectangle(tl: Point, br: Point)
    | PutText(text: string, origin: Point)

  /** An image decoded with `cv2.imread`: always three colour channels. */
  const Channels: nat := 3

  /** How far above a box's top-left corner its label is written. */
  const LabelOffset: int := 10

  class Canvas {
    const height: nat
    const width: nat
    /** Everything drawn on the image so far. */
    var commands: seq<DrawCommand>

    constructor (height: nat, width: nat)
      ensures this.height == height && this.width == width && commands == []
    {
      this.height := height;
      this.width := width;
      commands := [];
    }
  }

  /** `(int(p[0]), int(p[1]))`: each coordinate truncated toward zero. */
  function ToPixel(p: RealPoint): (q: Point)
    ensures 0.0 <= p.x ==> q.x as real <= p.x < q.x as real + 1.0
    ensures p.x < 0.0 ==> q.x as real - 1.0 < p.x <= q.x as real
    ensures 0.0 <= p.y ==> q.y as real <= p.y < q.y as real + 1.0
    ensures p.y < 0.0 ==> q.y as real - 1.0 < p.y <= q.y as real
  {
    Point(Trunc(p.x), Trunc(p.y))
  }

  /** The box of a quadrilateral: its first and third corners, truncated
      toward zero; the other two corners play no part. */
  function ToBox(q: Quad): (b: Box)
    ensures b.tl == ToPixel(q.tl) && b.br == ToPixel(q.br)
  {
    Box(ToPixel(q.tl), ToPixel(q.br))
  }

  /** The boxes of `analyzeImage`, one per detection, in detection order. */
  function BoxesOf(ocr: seq<Detection>): (boxes: seq<Box>)
    ensures |boxes| == |ocr|
    ensures forall i :: 0 <= i < |ocr| ==> boxes[i] == ToBox(ocr[i].quad)
  {
    seq(|ocr|, i requires 0 <= i < |ocr| => ToBox(ocr[i].quad))
  }

  /** The recognised strings, one per detection, in detection order. */
  function TextsOf(ocr: seq<Detection>): (texts: seq<string>)
    ensures |texts| == |ocr|
    ensures forall i :: 0 <= i < |ocr| ==> texts[i] == ocr[i].text
  {
    seq(|ocr|, i requires 0 <= i < |ocr| => ocr[i].text)
  }

  /** `analyzeImage`: the image as read, the strings joined with single
      spaces, and one box per detection. */
  method AnalyzeImage(image: Canvas, ocr: seq<Detection>) returns (img: Canvas, text: string, boxes: seq<Box>)
    ensures img == image
    ensures |boxes| == |ocr| && forall i :: 0 <= i < |ocr| ==> boxes[i] == ToBox(ocr[i].quad)
    ensures text == JoinWithSpaces(TextsOf(ocr))
    ensures ocr == [] ==> text == "" && boxes == []
  {
    var totalText: seq<string> := [];
    boxes := [];
    var i := 0;
    while i < |ocr|
      invariant 0 <= i <= |ocr|
      invariant |totalText| == i && forall k :: 0 <= k < i ==> totalText[k] == ocr[k].text
      invariant |boxes| == i && forall k :: 0 <= k < i ==> boxes[k] == ToBox(ocr[k].quad)
    {
      var det := ocr[i];
      totalText := totalText + [det.text];
      var tl := ToPixel(det.quad.tl);
      var br := ToPixel(det.quad.br);
      boxes := boxes + [Box(tl, br)];
      i := i + 1;
    }
    assert totalText == TextsOf(ocr);
    return image, JoinWithSpaces(totalText), boxes;
  }

  /** The text written next to the `i`-th box: `f"Box {i}"`. */
  function LabelText(i: nat): string
  {
    "Box " + Decimal(i)
  }

  /** A label is "Box " followed by digits that read back as the box's
      number. */
  lemma LabelTextReadsBack(i: nat)
    ensures var s := LabelText(i);
            |s| > 4 && s[..4] == "Box " && IsDigits(s[4..]) && DecimalValue(s[4..]) == i
  {
    assert LabelText(i)[4..] == Decimal(i);
    DecimalRoundTrip(i);
  }

  /** No two boxes carry the same label. */
  lemma LabelTextInjective(i: nat, j: nat)
    requires LabelText(i) == LabelText(j)
    ensures i == j
  {
    assert Decimal(i) == LabelText(i)[4..];
    assert Decimal(j) == LabelText(j)[4..];
    DecimalInjective(i, j);
  }

  /** What `drawBoxes` draws for the `i`-th box (counting from 1). */
  function BoxDrawing(i: nat, b: Box): seq<DrawCommand>
  {
    [Rectangle(b.tl, b.br), PutText(LabelText(i), Point(b.tl.x, b.tl.y - LabelOffset))]
  }

  /** Everything `drawBoxes` draws for `boxes`, in order. */
  function BoxCommands(boxes: seq<Box>): (cmds: seq<DrawCommand>)
    ensures |cmds| == 2 * |boxes|
  {
    if boxes == [] then []
    else BoxCommands(boxes[..|boxes| - 1]) + BoxDrawing(|boxes|, boxes[|boxes| - 1])
  }

  /** The drawing is a rectangle and then a label per box, in list order,
      the `j`-th box (from 0) labelled "Box j+1" ten pixels above its
      top-left corner. */
  lemma {:induction false} BoxCommandsAt(boxes: seq<Box>, j: nat)
    requires j < |boxes|
    ensures BoxCommands(boxes)[2 * j] == Rectangle(boxes[j].tl, boxes[j].br)
    ensures BoxCommands(boxes)[2 * j + 1] ==
              PutText(LabelText(j + 1), Point(boxes[j].tl.x, boxes[j].tl.y - LabelOffset))
    decreases |boxes|
  {
    var init := boxes[..|boxes| - 1];
    if j < |boxes| - 1 {
      BoxCommandsAt(init, j);
      assert init[j] == boxes[j];
    }
  }

  /** `drawBoxes(image, bounding_boxes)`: draws on the image itself and
      returns it. */
  method DrawBoxes(image: Canvas, boxes: seq<Box>) returns (r: Canvas)
    modifies image
    ensures r == image
    ensures image.commands == old(image.commands) + BoxCommands(boxes)
  {
    var i := 1;
    while i <= |boxes|
      invariant 1 <= i <= |boxes| + 1
      invariant image.commands == old(image.commands) + BoxCommands(boxes[..i - 1])
    {
      var b := boxes[i - 1];
      assert boxes[..i][..i - 1] == boxes[..i - 1];
      image.commands := image.commands + [Rectangle(b.tl, b.br)];
      image.commands := image.commands + [PutText(LabelText(i), Point(b.tl.x, b.tl.y - LabelOffset))];
      i := i + 1;
    }
    assert boxes[..|boxes|] == boxes;
    return image;
  }
}
