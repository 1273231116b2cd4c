/** Preview and native geometry of the meme editor (src/components/MemeCreator.tsx):
    fitting a loaded image into the on-screen preview (:97-115), and scaling every
    text box from preview space to the image's own pixels when the final image is
    composed (:364-391).  The drawing calls themselves are not modelled; a `Draw`
    is what one text box contributes to them. */
module Display {
  import opened Textboxes

  const MAX_DISPLAY_WIDTH: real := 700.0
  const MAX_DISPLAY_HEIGHT: real := 500.0
  const MIN_LINE_WIDTH: real := 2.0
  const LINE_WIDTH_DIVISOR: real := 15.0

  /** The preview size of an `imageWidth` x `imageHeight` image: first narrowed to the
      maximum width, then lowered to the maximum height, each step keeping the
      aspect ratio. */
  method FitDisplay(imageWidth: nat, imageHeight: nat) returns (displayWidth: real, displayHeight: real)
    ensures displayWidth <= MAX_DISPLAY_WIDTH && displayHeight <= MAX_DISPLAY_HEIGHT
    ensures displayWidth * (imageHeight as real) == displayHeight * (imageWidth as real)
    ensures 0.0 <= displayWidth <= imageWidth as real && 0.0 <= displayHeight <= imageHeight as real
    ensures imageWidth > 0 && imageHeight > 0 ==> displayWidth > 0.0 && displayHeight > 0.0
    ensures imageWidth as real <= MAX_DISPLAY_WIDTH && imageHeight as real <= MAX_DISPLAY_HEIGHT ==>
      displayWidth == imageWidth as real && displayHeight == imageHeight as real
    ensures imageWidth as real > MAX_DISPLAY_WIDTH || imageHeight as real > MAX_DISPLAY_HEIGHT ==>
      displayWidth == MAX_DISPLAY_WIDTH || displayHeight == MAX_DISPLAY_HEIGHT
  {
    ghost var w, h := imageWidth as real, imageHeight as real;
    displayWidth := imageWidth as real;
    displayHeight := imageHeight as real;

    if displayWidth > MAX_DISPLAY_WIDTH {
      var ratio := MAX_DISPLAY_WIDTH / displayWidth;
      displayWidth := MAX_DISPLAY_WIDTH;
      displayHeight := displayHeight * ratio;
      assert displayHeight * w == h * MAX_DISPLAY_WIDTH;
    }
    assert displayWidth * h == displayHeight * w;

    if displayHeight > MAX_DISPLAY_HEIGHT {
      var ratio := MAX_DISPLAY_HEIGHT / displayHeight;
      ghost var oldWidth, oldHeight := displayWidth, displayHeight;
      displayHeight := MAX_DISPLAY_HEIGHT;
      displayWidth := displayWidth * ratio;
      assert displayWidth * oldHeight == oldWidth * MAX_DISPLAY_HEIGHT;
      assert displayWidth * h * oldHeight == oldWidth * h * MAX_DISPLAY_HEIGHT;
      assert oldWidth * h == oldHeight * w;
    }
  }

  /** What one text box contributes to the composed image, in the image's pixels. */
  datatype Draw = Draw(
    x: real,
    y: real,
    width: real,
    height: real,
    fontSize: real,
    lineWidth: real,
    rotation: real,
    text: string,
    color: string,
    fontFamily: string)
  {
    function CenterX(): real { x + width / 2.0 }
    function CenterY(): real { y + height / 2.0 }
  }

  /** `Math.max(2, scaledFontSize / 15)`: the outline width. */
  function LineWidth(fontSize: real): (r: real)
    ensures r >= MIN_LINE_WIDTH && r >= fontSize / LINE_WIDTH_DIVISOR
    ensures r == MIN_LINE_WIDTH || r == fontSize / LINE_WIDTH_DIVISOR
  {
    Max(MIN_LINE_WIDTH, fontSize / LINE_WIDTH_DIVISOR)
  }

  /** One text box scaled from preview space: geometry by the per-axis factors, the
      font by the smaller factor so that the text is not distorted. */
  function ScaleTextbox(tb: Textbox, scaleX: real, scaleY: real): (d: Draw)
    ensures d.fontSize == tb.fontSize * Min(scaleX, scaleY)
    ensures d.lineWidth == LineWidth(d.fontSize)
    ensures d.rotation == tb.rotation && d.text == tb.text && d.color == tb.color && d.fontFamily == tb.fontFamily
    ensures d.CenterX() == (tb.x + tb.width / 2.0) * scaleX && d.CenterY() == (tb.y + tb.height / 2.0) * scaleY
    ensures scaleX > 0.0 ==> d.x / scaleX == tb.x && d.width / scaleX == tb.width
    ensures scaleY > 0.0 ==> d.y / scaleY == tb.y && d.height / scaleY == tb.height
  {
    var fontSize := tb.fontSize * Min(scaleX, scaleY);
    Draw(tb.x * scaleX, tb.y * scaleY, tb.width * scaleX, tb.height * scaleY,
         fontSize, LineWidth(fontSize), tb.rotation, tb.text, tb.color, tb.fontFamily)
  }

  /** The `forEach` over the boxes: one draw per box, in list order, so later boxes
      are drawn over earlier ones. */
  function RenderPlan(boxes: seq<Textbox>, scaleX: real, scaleY: real): (r: seq<Draw>)
    ensures |r| == |boxes|
    ensures forall i :: 0 <= i < |boxes| ==> r[i] == ScaleTextbox(boxes[i], scaleX, scaleY)
  {
    if boxes == [] then [] else [ScaleTextbox(boxes[0], scaleX, scaleY)] + RenderPlan(boxes[1..], scaleX, scaleY)
  }

  /** One axis of `ScaledBoxInsideImage`: a span inside `[0, limit]` scaled by
      `image / limit` lies inside `[0, image]`. */
  lemma ScaledSpanInside(start: real, length: real, limit: real, image: real)
    requires limit > 0.0 && image >= 0.0
    requires 0.0 <= start && 0.0 <= length && start + length <= limit
    ensures 0.0 <= start * (image / limit)
    ensures start * (image / limit) + length * (image / limit) <= image
  {
    var f := image / limit;
    assert f >= 0.0;
    assert limit * f == image;
    assert (start + length) * f <= limit * f;
  }

  /** A box inside the preview is drawn inside the image. */
  lemma ScaledBoxInsideImage(tb: Textbox, imageWidth: nat, imageHeight: nat, displayWidth: real, displayHeight: real)
    requires displayWidth > 0.0 && displayHeight > 0.0
    requires 0.0 <= tb.x && 0.0 <= tb.width && tb.x + tb.width <= displayWidth
    requires 0.0 <= tb.y && 0.0 <= tb.height && tb.y + tb.height <= displayHeight
    ensures var d := ScaleTextbox(tb, imageWidth as real / displayWidth, imageHeight as real / displayHeight);
      0.0 <= d.x && d.x + d.width <= imageWidth as real && 0.0 <= d.y && d.y + d.height <= imageHeight as real
  {
    ScaledSpanInside(tb.x, tb.width, displayWidth, imageWidth as real);
    ScaledSpanInside(tb.y, tb.height, displayHeight, imageHeight as real);
  }

  /** A preview no larger than the image gives a scale factor of at least one, so
      the exported image is never smaller than the preview. */
  lemma ScaleAtLeastOne(image: nat, display: real)
    requires 0.0 < display <= image as real
    ensures image as real / display >= 1.0
  {
    var q := image as real / display;
    assert q * display == image as real;
    assert (q - 1.0) * display >= 0.0;
  }

  /** When the preview keeps the image's aspect ratio, as `FitDisplay` guarantees, the
      two scale factors agree, so the font scales exactly like the geometry. */
  lemma UniformScale(imageWidth: nat, imageHeight: nat, displayWidth: real, displayHeight: real)
    requires displayWidth > 0.0 && displayHeight > 0.0
    requires displayWidth * (imageHeight as real) == displayHeight * (imageWidth as real)
    ensures imageWidth as real / displayWidth == imageHeight as real / displayHeight
  {
    var w, h := imageWidth as real, imageHeight as real;
    calc {
      w / displayWidth;
      (w * displayHeight) / (displayWidth * displayHeight);
      (displayWidth * h) / (displayWidth * displayHeight);
      h / displayHeight;
    }
  }
}
