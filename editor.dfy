/** The meme editor component (src/components/MemeCreator.tsx) as an object whose
    fields are the component's state.  Every state setter of a handler is applied
    at once, in order, and an effect that depends on changed state runs right
    after the handler that changed it.  Pointer angles (`Math.atan2` of the
    pointer around a box's centre, in degrees), the rendered image's encoding and
    the backend's answer are parameters. */
module Editor {
  import opened Wrappers
  import opened Records
  import opened Textboxes
  import Rotation
  import Display

  const MAX_ENCODED_LENGTH: nat := 400000
  const TOO_LARGE_MESSAGE: string := "Image is too large. Please use a smaller image or fewer text boxes."
  const DEFAULT_COLOR: string := "#ffffff"
  const DEFAULT_FONT_SIZE: real := 32.0
  const DEFAULT_FONT_FAMILY: string := "Impact, Arial Black, sans-serif"

  /** The publish-time checks of `handlePost` on the encoded image: an image longer
      than the limit is refused with a message, otherwise the record to write takes
      the first box's text as top caption and the second's as bottom caption. */
  function Publish(boxes: seq<Textbox>, dataUrl: string, userId: string, userEmail: string, now: int)
    : (r: Result<MemeDraft, string>)
    ensures r.Err? <==> |dataUrl| > MAX_ENCODED_LENGTH
    ensures r.Err? ==> r.error == TOO_LARGE_MESSAGE
    ensures r.Ok? ==> r.value.imageBase64 == dataUrl && r.value.createdAt == now
    ensures r.Ok? ==> r.value.authorId == userId && r.value.authorEmail == userEmail
    ensures r.Ok? ==> r.value.topText == (if boxes == [] then "" else boxes[0].text)
    ensures r.Ok? ==> r.value.bottomText == (if |boxes| < 2 then "" else boxes[1].text)
  {
    if |dataUrl| > MAX_ENCODED_LENGTH then Err(TOO_LARGE_MESSAGE)
    else
      var topText := if |boxes| > 0 then boxes[0].text else "";
      var bottomText := if |boxes| > 1 then boxes[1].text else "";
      Ok(MemeDraft(dataUrl, topText, bottomText, userId, userEmail, now))
  }

  /** The update the style controls send to the selected box. */
  function StylePatch(color: string, fontSize: real, fontFamily: string): (p: Patch)
    ensures KeepsMinSize(p)
    ensures forall tb :: Merge(tb, p) == tb.(color := color, fontSize := fontSize, fontFamily := fontFamily)
  {
    EMPTY_PATCH.(color := Some(color), fontSize := Some(fontSize), fontFamily := Some(fontFamily))
  }

  class MemeEditor {
    // currentImage: whether one is loaded, and its pixel size (the canvas size)
    var hasImage: bool
    var imageWidth: nat
    var imageHeight: nat
    var displayWidth: real
    var displayHeight: real

    var textboxes: seq<Textbox>
    var textboxIdCounter: int
    var selectedTextbox: Option<Textbox>

    // pointer interaction slots
    var draggedTextbox: Option<Textbox>
    var dragStart: Point
    var resizingTextbox: Option<Textbox>
    var resizeHandle: Option<Handle>
    var rotatingTextbox: Option<Textbox>
    var rotationStart: real

    // text formatting controls
    var fontColor: string
    var fontSize: real
    var fontFamily: string

    var isPosting: bool
    var postError: string

    /** Ids are handed out in increasing order and never reused, and a loaded image
        has a non-empty preview. */
    ghost predicate Valid()
      reads this
    {
      textboxIdCounter >= 0 &&
      IdsIncreasing(textboxes) && IdsBelow(textboxes, textboxIdCounter) &&
      (hasImage ==> imageWidth > 0 && imageHeight > 0 && displayWidth > 0.0 && displayHeight > 0.0 &&
                    displayWidth <= imageWidth as real && displayHeight <= imageHeight as real)
    }

    constructor ()
      ensures Valid()
      ensures !hasImage && textboxes == [] && textboxIdCounter == 0 && selectedTextbox == None
      ensures draggedTextbox == None && resizingTextbox == None && resizeHandle == None && rotatingTextbox == None
      ensures dragStart == Point(0.0, 0.0) && rotationStart == 0.0
      ensures fontColor == DEFAULT_COLOR && fontSize == DEFAULT_FONT_SIZE && fontFamily == DEFAULT_FONT_FAMILY
      ensures displayWidth == 0.0 && displayHeight == 0.0 && !isPosting && postError == ""
    {
      hasImage := false;
      imageWidth, imageHeight := 0, 0;
      displayWidth, displayHeight := 0.0, 0.0;
      textboxes := [];
      textboxIdCounter := 0;
      selectedTextbox := None;
      draggedTextbox := None;
      dragStart := Point(0.0, 0.0);
      resizingTextbox := None;
      resizeHandle := None;
      rotatingTextbox := None;
      rotationStart := 0.0;
      fontColor := DEFAULT_COLOR;
      fontSize := DEFAULT_FONT_SIZE;
      fontFamily := DEFAULT_FONT_FAMILY;
      isPosting := false;
      postError := "";
    }

    /** The image's `onload`: the image replaces the old one, every box is dropped,
        and the preview is fitted.  The id counter and the selected copy stay. */
    method LoadImage(width: nat, height: nat)
      requires Valid()
      requires width > 0 && height > 0
      modifies this
      ensures Valid()
      ensures hasImage && imageWidth == width && imageHeight == height && textboxes == []
      ensures displayWidth <= Display.MAX_DISPLAY_WIDTH && displayHeight <= Display.MAX_DISPLAY_HEIGHT
      ensures displayWidth * (height as real) == displayHeight * (width as real)
      ensures width as real <= Display.MAX_DISPLAY_WIDTH && height as real <= Display.MAX_DISPLAY_HEIGHT ==>
        displayWidth == width as real && displayHeight == height as real
      ensures width as real > Display.MAX_DISPLAY_WIDTH || height as real > Display.MAX_DISPLAY_HEIGHT ==>
        displayWidth == Display.MAX_DISPLAY_WIDTH || displayHeight == Display.MAX_DISPLAY_HEIGHT
      ensures displayWidth <= width as real && displayHeight <= height as real
      ensures textboxIdCounter == old(textboxIdCounter) && selectedTextbox == old(selectedTextbox)
      ensures draggedTextbox == old(draggedTextbox) && resizingTextbox == old(resizingTextbox)
      ensures resizeHandle == old(resizeHandle) && rotatingTextbox == old(rotatingTextbox)
      ensures dragStart == old(dragStart) && rotationStart == old(rotationStart)
      ensures fontColor == old(fontColor) && fontSize == old(fontSize) && fontFamily == old(fontFamily)
      ensures isPosting == old(isPosting) && postError == old(postError)
    {
      var w, h := Display.FitDisplay(width, height);
      hasImage := true;
      textboxes := [];
      imageWidth, imageHeight := width, height;
      displayWidth, displayHeight := w, h;
    }

    /** `createTextbox`: a default box with the next id and the current style is
        appended and selected, and the counter moves on. */
    method CreateTextbox(x: real, y: real)
      requires Valid()
      modifies this`textboxes, this`textboxIdCounter, this`selectedTextbox
      ensures Valid()
      ensures textboxes == old(textboxes) + [NewTextbox(old(textboxIdCounter), x, y, fontColor, fontSize, fontFamily)]
      ensures textboxIdCounter == old(textboxIdCounter) + 1
      ensures selectedTextbox == Some(NewTextbox(old(textboxIdCounter), x, y, fontColor, fontSize, fontFamily))
      ensures old(textboxIdCounter) !in Ids(old(textboxes))
      ensures old(AllMinSized(textboxes)) ==> AllMinSized(textboxes)
    {
      var box := NewTextbox(textboxIdCounter, x, y, fontColor, fontSize, fontFamily);
      textboxIdCounter := textboxIdCounter + 1;
      textboxes := textboxes + [box];
      selectedTextbox := Some(box);
    }

    /** `handleCanvasClick`: a click on the preview adds a box there, once an image
        is loaded. */
    method CanvasClick(x: real, y: real)
      requires Valid()
      modifies this`textboxes, this`textboxIdCounter, this`selectedTextbox
      ensures Valid()
      ensures !hasImage ==> textboxes == old(textboxes) && textboxIdCounter == old(textboxIdCounter)
      ensures !hasImage ==> selectedTextbox == old(selectedTextbox)
      ensures hasImage ==> textboxIdCounter == old(textboxIdCounter) + 1
      ensures hasImage ==>
        textboxes == old(textboxes) + [NewTextbox(old(textboxIdCounter), x, y, fontColor, fontSize, fontFamily)]
      ensures hasImage ==>
        selectedTextbox == Some(NewTextbox(old(textboxIdCounter), x, y, fontColor, fontSize, fontFamily))
    {
      if hasImage {
        CreateTextbox(x, y);
      }
    }

    /** `deleteTextbox`: every box with the id goes, the rest keep their order, and the
        selection is cleared only if it is that box. */
    method DeleteTextbox(id: int)
      requires Valid()
      modifies this`textboxes, this`selectedTextbox
      ensures Valid()
      ensures textboxes == RemoveById(old(textboxes), id)
      ensures Ids(textboxes) == Ids(old(textboxes)) - {id}
      ensures old(selectedTextbox).Some? && old(selectedTextbox).value.id == id ==> selectedTextbox == None
      ensures !(old(selectedTextbox).Some? && old(selectedTextbox).value.id == id) ==>
        selectedTextbox == old(selectedTextbox)
      ensures old(AllMinSized(textboxes)) ==> AllMinSized(textboxes)
    {
      RemoveKeepsOrder(textboxes, id, textboxIdCounter);
      RemoveIds(textboxes, id);
      textboxes := RemoveById(textboxes, id);
      if selectedTextbox.Some? && selectedTextbox.value.id == id {
        selectedTextbox := None;
      }
    }

    /** `updateTextbox`: the fields of `p` go into the box with the id, and into the
        selected copy when that is the box. */
    method UpdateTextbox(id: int, p: Patch)
      requires Valid()
      modifies this`textboxes, this`selectedTextbox
      ensures Valid()
      ensures textboxes == UpdateById(old(textboxes), id, p)
      ensures selectedTextbox == SelectionAfter(old(selectedTextbox), id, p)
      ensures old(AllMinSized(textboxes)) && KeepsMinSize(p) ==> AllMinSized(textboxes)
    {
      UpdateAllInvariants(textboxes, [Update(id, p)], textboxIdCounter);
      assert UpdateAll(textboxes, [Update(id, p)]) == UpdateById(textboxes, id, p);
      textboxes := UpdateById(textboxes, id, p);
      if selectedTextbox.Some? && selectedTextbox.value.id == id {
        selectedTextbox := Some(Merge(selectedTextbox.value, p));
      }
    }

    /** The formatting effect: the controls' style goes into the selected box. */
    method ApplyStyle()
      requires Valid()
      modifies this`textboxes, this`selectedTextbox
      ensures Valid()
      ensures old(selectedTextbox).None? ==> textboxes == old(textboxes) && selectedTextbox == None
      ensures old(selectedTextbox).Some? ==>
        var p := StylePatch(fontColor, fontSize, fontFamily);
        textboxes == UpdateById(old(textboxes), old(selectedTextbox).value.id, p) &&
        selectedTextbox == Some(Merge(old(selectedTextbox).value, p))
      ensures old(AllMinSized(textboxes)) ==> AllMinSized(textboxes)
    {
      if selectedTextbox.Some? {
        UpdateTextbox(selectedTextbox.value.id, StylePatch(fontColor, fontSize, fontFamily));
      }
    }

    /** A change of one of the style controls, followed by the formatting effect. */
    method SetStyle(color: string, size: real, family: string)
      requires Valid()
      modifies this`fontColor, this`fontSize, this`fontFamily, this`textboxes, this`selectedTextbox
      ensures Valid()
      ensures fontColor == color && fontSize == size && fontFamily == family
      ensures (color, size, family) == old((fontColor, fontSize, fontFamily)) ==>
        textboxes == old(textboxes) && selectedTextbox == old(selectedTextbox)
      ensures (color, size, family) != old((fontColor, fontSize, fontFamily)) && old(selectedTextbox).Some? ==>
        textboxes == UpdateById(old(textboxes), old(selectedTextbox).value.id, StylePatch(color, size, family))
      ensures old(selectedTextbox).None? ==> textboxes == old(textboxes) && selectedTextbox == None
      ensures (color, size, family) != old((fontColor, fontSize, fontFamily)) && old(selectedTextbox).Some? ==>
        selectedTextbox == Some(Merge(old(selectedTextbox).value, StylePatch(color, size, family)))
      ensures old(AllMinSized(textboxes)) ==> AllMinSized(textboxes)
    {
      var changed := (color, size, family) != (fontColor, fontSize, fontFamily);
      fontColor, fontSize, fontFamily := color, size, family;
      if changed {
        ApplyStyle();
      }
    }

    /** Clicking a box's text (and the start of a drag): the box becomes the selection
        and the controls take its style. */
    method Select(tb: Textbox)
      requires Valid()
      modifies this`fontColor, this`fontSize, this`fontFamily, this`textboxes, this`selectedTextbox
      ensures Valid()
      ensures fontColor == tb.color && fontSize == tb.fontSize && fontFamily == tb.fontFamily
      ensures (tb.color, tb.fontSize, tb.fontFamily) == old((fontColor, fontSize, fontFamily)) ==>
        textboxes == old(textboxes) && selectedTextbox == Some(tb)
      ensures (tb.color, tb.fontSize, tb.fontFamily) != old((fontColor, fontSize, fontFamily)) ==>
        textboxes == UpdateById(old(textboxes), tb.id, StylePatch(tb.color, tb.fontSize, tb.fontFamily)) &&
        selectedTextbox == Some(Merge(tb, StylePatch(tb.color, tb.fontSize, tb.fontFamily)))
      ensures old(AllMinSized(textboxes)) ==> AllMinSized(textboxes)
    {
      selectedTextbox := Some(tb);
      SetStyle(tb.color, tb.fontSize, tb.fontFamily);
    }

    /** `startDrag`: remembers the box and the pointer's offset inside it, and selects it. */
    method StartDrag(tb: Textbox, clientX: real, clientY: real)
      requires Valid()
      modifies this
      ensures Valid()
      ensures draggedTextbox == Some(tb) && dragStart == Point(clientX - tb.x, clientY - tb.y)
      ensures fontColor == tb.color && fontSize == tb.fontSize && fontFamily == tb.fontFamily
      ensures selectedTextbox.Some? && selectedTextbox.value.id == tb.id
      ensures (tb.color, tb.fontSize, tb.fontFamily) == old((fontColor, fontSize, fontFamily)) ==>
        textboxes == old(textboxes) && selectedTextbox == Some(tb)
      ensures (tb.color, tb.fontSize, tb.fontFamily) != old((fontColor, fontSize, fontFamily)) ==>
        textboxes == UpdateById(old(textboxes), tb.id, StylePatch(tb.color, tb.fontSize, tb.fontFamily)) &&
        selectedTextbox == Some(Merge(tb, StylePatch(tb.color, tb.fontSize, tb.fontFamily)))
      ensures resizingTextbox == old(resizingTextbox) && resizeHandle == old(resizeHandle)
      ensures rotatingTextbox == old(rotatingTextbox) && rotationStart == old(rotationStart)
      ensures hasImage == old(hasImage) && imageWidth == old(imageWidth) && imageHeight == old(imageHeight)
      ensures displayWidth == old(displayWidth) && displayHeight == old(displayHeight)
      ensures textboxIdCounter == old(textboxIdCounter)
      ensures isPosting == old(isPosting) && postError == old(postError)
      ensures old(AllMinSized(textboxes)) ==> AllMinSized(textboxes)
    {
      draggedTextbox := Some(tb);
      dragStart := Point(clientX - tb.x, clientY - tb.y);
      Select(tb);
    }

    /** `startResize`: remembers the box, the corner and the pointer. */
    method StartResize(tb: Textbox, handle: Handle, clientX: real, clientY: real)
      modifies this`resizingTextbox, this`resizeHandle, this`dragStart
      ensures resizingTextbox == Some(tb) && resizeHandle == Some(handle) && dragStart == Point(clientX, clientY)
    {
      resizingTextbox := Some(tb);
      resizeHandle := Some(handle);
      dragStart := Point(clientX, clientY);
    }

    /** `startRotation`: remembers the box and how far the pointer's angle is ahead of
        the box's rotation. */
    method StartRotation(tb: Textbox, pointerAngle: real)
      modifies this`rotatingTextbox, this`rotationStart
      ensures rotatingTextbox == Some(tb) && rotationStart == pointerAngle - tb.rotation
    {
      rotatingTextbox := Some(tb);
      rotationStart := pointerAngle - tb.rotation;
    }

    /** The update the drag slot sends on a move, if a drag is active. */
    ghost function DragUpdate(clientX: real, clientY: real): seq<Update>
      reads this`draggedTextbox, this`dragStart, this`displayWidth, this`displayHeight
    {
      if draggedTextbox.None? then []
      else
        var d := draggedTextbox.value;
        [Update(d.id, DragPatch(d, Point(clientX, clientY), dragStart, displayWidth, displayHeight))]
    }

    ghost predicate Resizing()
      reads this`resizingTextbox, this`resizeHandle
    {
      resizingTextbox.Some? && resizeHandle.Some?
    }

    /** The update the resize slot sends on a move, if a resize is active. */
    ghost function ResizeUpdate(clientX: real, clientY: real): seq<Update>
      reads this`resizingTextbox, this`resizeHandle, this`dragStart
    {
      if !Resizing() then []
      else
        var r := resizingTextbox.value;
        [Update(r.id, ResizePatch(r, resizeHandle.value, clientX - dragStart.x, clientY - dragStart.y))]
    }

    /** The update the rotation slot sends on a move, if a rotation is active. */
    ghost function RotateUpdate(pointerAngle: real): seq<Update>
      reads this`rotatingTextbox, this`rotationStart
    {
      if rotatingTextbox.None? then []
      else [Update(rotatingTextbox.value.id, EMPTY_PATCH.(rotation := Some(Rotation.Snap(pointerAngle - rotationStart))))]
    }

    /** All updates of one mouse move, in the handler's order. */
    ghost function MoveUpdates(clientX: real, clientY: real, pointerAngle: real): seq<Update>
      reads this
    {
      DragUpdate(clientX, clientY) + ResizeUpdate(clientX, clientY) + RotateUpdate(pointerAngle)
    }

    /** The drag branch of `handleMouseMove`. */
    method DragFrame(clientX: real, clientY: real)
      requires Valid()
      modifies this`textboxes, this`selectedTextbox
      ensures Valid()
      ensures textboxes == UpdateAll(old(textboxes), old(DragUpdate(clientX, clientY)))
      ensures selectedTextbox == SelectionAfterAll(old(selectedTextbox), old(DragUpdate(clientX, clientY)))
      ensures old(AllMinSized(textboxes)) ==> AllMinSized(textboxes)
    {
      if draggedTextbox.Some? {
        var d := draggedTextbox.value;
        var p := DragPatch(d, Point(clientX, clientY), dragStart, displayWidth, displayHeight);
        SingleUpdate(textboxes, selectedTextbox, Update(d.id, p));
        UpdateTextbox(d.id, p);
      }
    }

    /** The resize branch of `handleMouseMove`: the delta is taken from the previous
        frame's pointer, which is then replaced by this one. */
    method ResizeFrame(clientX: real, clientY: real)
      requires Valid()
      modifies this`textboxes, this`selectedTextbox, this`dragStart, this`resizingTextbox
      ensures Valid()
      ensures textboxes == UpdateAll(old(textboxes), old(ResizeUpdate(clientX, clientY)))
      ensures selectedTextbox == SelectionAfterAll(old(selectedTextbox), old(ResizeUpdate(clientX, clientY)))
      ensures dragStart == if old(Resizing()) then Point(clientX, clientY) else old(dragStart)
      ensures resizingTextbox == if old(Resizing())
        then Some(Merge(old(resizingTextbox).value, old(ResizeUpdate(clientX, clientY))[0].patch))
        else old(resizingTextbox)
      ensures old(AllMinSized(textboxes)) ==> AllMinSized(textboxes)
    {
      if resizingTextbox.Some? && resizeHandle.Some? {
        var r := resizingTextbox.value;
        var updates := ResizePatch(r, resizeHandle.value, clientX - dragStart.x, clientY - dragStart.y);
        SingleUpdate(textboxes, selectedTextbox, Update(r.id, updates));
        dragStart := Point(clientX, clientY);
        UpdateTextbox(r.id, updates);
        resizingTextbox := Some(Merge(r, updates));
      }
    }

    /** The rotation branch of `handleMouseMove`: the pointer's angle minus the
        remembered offset, snapped. */
    method RotateFrame(pointerAngle: real)
      requires Valid()
      modifies this`textboxes, this`selectedTextbox, this`rotatingTextbox
      ensures Valid()
      ensures textboxes == UpdateAll(old(textboxes), old(RotateUpdate(pointerAngle)))
      ensures selectedTextbox == SelectionAfterAll(old(selectedTextbox), old(RotateUpdate(pointerAngle)))
      ensures rotatingTextbox == if old(rotatingTextbox).Some?
        then Some(old(rotatingTextbox).value.(rotation := Rotation.Snap(pointerAngle - old(rotationStart))))
        else None
      ensures old(AllMinSized(textboxes)) ==> AllMinSized(textboxes)
    {
      if rotatingTextbox.Some? {
        var rot := rotatingTextbox.value;
        var newRotation := Rotation.SnapRotation(pointerAngle - rotationStart);
        var p := EMPTY_PATCH.(rotation := Some(newRotation));
        SingleUpdate(textboxes, selectedTextbox, Update(rot.id, p));
        UpdateTextbox(rot.id, p);
        rotatingTextbox := Some(rot.(rotation := newRotation));
      }
    }

    /** `handleMouseMove`: each active slot sends its update, in the order drag,
        resize, rotate. */
    method MouseMove(clientX: real, clientY: real, pointerAngle: real)
      requires Valid()
      modifies this`textboxes, this`selectedTextbox, this`dragStart, this`resizingTextbox, this`rotatingTextbox
      ensures Valid()
      ensures textboxes == UpdateAll(old(textboxes), old(MoveUpdates(clientX, clientY, pointerAngle)))
      ensures selectedTextbox == SelectionAfterAll(old(selectedTextbox), old(MoveUpdates(clientX, clientY, pointerAngle)))
      ensures dragStart == if old(Resizing()) then Point(clientX, clientY) else old(dragStart)
      ensures resizingTextbox == if old(Resizing())
        then Some(Merge(old(resizingTextbox).value, old(ResizeUpdate(clientX, clientY))[0].patch))
        else old(resizingTextbox)
      ensures rotatingTextbox == if old(rotatingTextbox).Some?
        then Some(old(rotatingTextbox).value.(rotation := Rotation.Snap(pointerAngle - old(rotationStart))))
        else None
      ensures old(AllMinSized(textboxes)) ==> AllMinSized(textboxes)
    {
      ghost var boxes0, sel0 := textboxes, selectedTextbox;
      ghost var drag, resize, rotate := DragUpdate(clientX, clientY), ResizeUpdate(clientX, clientY),
        RotateUpdate(pointerAngle);
      assert MoveUpdates(clientX, clientY, pointerAngle) == drag + resize + rotate;
      UpdateAllSplit(boxes0, drag, resize, rotate);
      SelectionAfterAllSplit(sel0, drag, resize, rotate);
      DragFrame(clientX, clientY);
      assert ResizeUpdate(clientX, clientY) == resize && RotateUpdate(pointerAngle) == rotate;
      ghost var boxes1, sel1 := textboxes, selectedTextbox;
      assert boxes1 == UpdateAll(boxes0, drag) && sel1 == SelectionAfterAll(sel0, drag);
      ResizeFrame(clientX, clientY);
      assert RotateUpdate(pointerAngle) == rotate;
      assert textboxes == UpdateAll(boxes1, resize) && selectedTextbox == SelectionAfterAll(sel1, resize);
      RotateFrame(pointerAngle);
    }

    /** `handleMouseUp`: every interaction slot is emptied; nothing else changes, so a
        release with no interaction in progress changes nothing at all. */
    method MouseUp()
      modifies this`draggedTextbox, this`resizingTextbox, this`resizeHandle, this`rotatingTextbox
      ensures draggedTextbox == None && resizingTextbox == None && resizeHandle == None && rotatingTextbox == None
    {
      draggedTextbox := None;
      resizingTextbox := None;
      resizeHandle := None;
      rotatingTextbox := None;
    }

    /** The scale factors of `generateMemeImage`, from preview to image pixels. */
    function ScaleX(): (r: real)
      reads this
      requires Valid() && hasImage
      ensures r > 0.0 && r * displayWidth == imageWidth as real
      ensures r >= 1.0
    {
      Display.ScaleAtLeastOne(imageWidth, displayWidth);
      imageWidth as real / displayWidth
    }

    function ScaleY(): (r: real)
      reads this
      requires Valid() && hasImage
      ensures r > 0.0 && r * displayHeight == imageHeight as real
      ensures r >= 1.0
    {
      Display.ScaleAtLeastOne(imageHeight, displayHeight);
      imageHeight as real / displayHeight
    }

    /** `generateMemeImage` up to the drawing calls: no image, no result; otherwise
        one draw per box, in list order, scaled from preview to image pixels. */
    method GenerateMemeImage() returns (plan: Option<seq<Display.Draw>>)
      requires Valid()
      ensures plan.None? <==> !hasImage
      ensures plan.Some? ==> |plan.value| == |textboxes|
      ensures plan.Some? ==> forall i :: 0 <= i < |textboxes| ==>
        plan.value[i] == Display.ScaleTextbox(textboxes[i], ScaleX(), ScaleY())
    {
      if !hasImage {
        return None;
      }
      var scaleX := imageWidth as real / displayWidth;
      var scaleY := imageHeight as real / displayHeight;
      plan := Some(Display.RenderPlan(textboxes, scaleX, scaleY));
    }

    /** `handlePost` up to its `await`: with no image nothing happens; an encoding over
        the size limit is refused with its message before anything is written;
        otherwise the meme record to write is returned and posting is under way. */
    method BeginPost(dataUrl: string, userId: string, userEmail: string, now: int) returns (write: Option<MemeDraft>)
      modifies this`isPosting, this`postError
      ensures !old(hasImage) ==> write == None && isPosting == old(isPosting) && postError == old(postError)
      ensures old(hasImage) && |dataUrl| > MAX_ENCODED_LENGTH ==>
        write == None && !isPosting && postError == TOO_LARGE_MESSAGE
      ensures old(hasImage) && |dataUrl| <= MAX_ENCODED_LENGTH ==>
        isPosting && postError == "" && write == Some(Publish(textboxes, dataUrl, userId, userEmail, now).value)
    {
      write := None;
      if !hasImage {
        return;
      }
      isPosting := true;
      postError := "";
      var decision := Publish(textboxes, dataUrl, userId, userEmail, now);
      match decision
      case Err(message) =>
        postError := message;
        isPosting := false;
      case Ok(draft) =>
        write := Some(draft);
    }

    /** The rest of `handlePost`: the backend's error message, if any, is shown, and
        posting is over either way. */
    method FinishPost(writeError: Option<string>)
      modifies this`isPosting, this`postError
      ensures !isPosting
      ensures postError == if writeError.Some? then writeError.value else old(postError)
    {
      if writeError.Some? {
        postError := writeError.value;
      }
      isPosting := false;
    }
  }

  /** A single update through the folds is the update itself. */
  lemma SingleUpdate(boxes: seq<Textbox>, sel: Option<Textbox>, u: Update)
    ensures UpdateAll(boxes, [u]) == UpdateById(boxes, u.id, u.patch)
    ensures SelectionAfterAll(sel, [u]) == SelectionAfter(sel, u.id, u.patch)
  {
    assert [u][1..] == [];
  }

  lemma {:induction false} UpdateAllAppend(boxes: seq<Textbox>, a: seq<Update>, b: seq<Update>)
    ensures UpdateAll(boxes, a + b) == UpdateAll(UpdateAll(boxes, a), b)
    decreases |a|
  {
    if a != [] {
      assert (a + b)[1..] == a[1..] + b;
      UpdateAllAppend(UpdateById(boxes, a[0].id, a[0].patch), a[1..], b);
    } else {
      assert a + b == b;
    }
  }

  lemma UpdateAllSplit(boxes: seq<Textbox>, a: seq<Update>, b: seq<Update>, c: seq<Update>)
    ensures UpdateAll(boxes, a + b + c) == UpdateAll(UpdateAll(UpdateAll(boxes, a), b), c)
  {
    UpdateAllAppend(boxes, a + b, c);
    UpdateAllAppend(boxes, a, b);
  }

  lemma {:induction false} SelectionAfterAllAppend(sel: Option<Textbox>, a: seq<Update>, b: seq<Update>)
    ensures SelectionAfterAll(sel, a + b) == SelectionAfterAll(SelectionAfterAll(sel, a), b)
    decreases |a|
  {
    if a != [] {
      assert (a + b)[1..] == a[1..] + b;
      SelectionAfterAllAppend(SelectionAfter(sel, a[0].id, a[0].patch), a[1..], b);
    } else {
      assert a + b == b;
    }
  }

  lemma SelectionAfterAllSplit(sel: Option<Textbox>, a: seq<Update>, b: seq<Update>, c: seq<Update>)
    ensures SelectionAfterAll(sel, a + b + c) == SelectionAfterAll(SelectionAfterAll(SelectionAfterAll(sel, a), b), c)
  {
    SelectionAfterAllAppend(sel, a + b, c);
    SelectionAfterAllAppend(sel, a, b);
  }
}
