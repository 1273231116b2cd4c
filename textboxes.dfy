/** Text boxes of the meme editor (src/components/MemeCreator.tsx): the record,
    partial updates, the list operations behind `createTextbox`, `deleteTextbox`
    and `updateTextbox`, and the per-frame geometry of drag and corner resize.
    Geometry is in preview-space pixels, modelled as `real`. */
module Textboxes {
  import opened Wrappers

  const DEFAULT_WIDTH: real := 200.0
  const DEFAULT_HEIGHT: real := 60.0
  const DEFAULT_TEXT: string := "Text"
  const MIN_WIDTH: real := 100.0
  const MIN_HEIGHT: real := 40.0

  datatype Textbox = Textbox(
    id: int,
    x: real,
    y: real,
    width: real,
    height: real,
    text: string,
    color: string,
    fontSize: real,
    fontFamily: string,
    rotation: real)

  /** `Partial<Textbox>`: the fields an update supplies.  No caller supplies `id`,
      so a patch has no id field. */
  datatype Patch = Patch(
    x: Option<real>,
    y: Option<real>,
    width: Option<real>,
    height: Option<real>,
    text: Option<string>,
    color: Option<string>,
    fontSize: Option<real>,
    fontFamily: Option<string>,
    rotation: Option<real>)

  const EMPTY_PATCH: Patch := Patch(None, None, None, None, None, None, None, None, None)

  datatype Point = Point(x: real, y: real)

  /** The four corner handles a resize can start from. */
  datatype Handle = NW | NE | SE | SW

  function Or<T>(o: Option<T>, otherwise: T): T {
    match o
    case Some(v) => v
    case None => otherwise
  }

  /** `{ ...tb, ...p }`: every supplied field replaces the box's, every other field stays. */
  function Merge(tb: Textbox, p: Patch): (r: Textbox)
    ensures r.id == tb.id
    ensures (p.x.Some? ==> r.x == p.x.value) && (p.x.None? ==> r.x == tb.x)
    ensures (p.y.Some? ==> r.y == p.y.value) && (p.y.None? ==> r.y == tb.y)
    ensures (p.width.Some? ==> r.width == p.width.value) && (p.width.None? ==> r.width == tb.width)
    ensures (p.height.Some? ==> r.height == p.height.value) && (p.height.None? ==> r.height == tb.height)
    ensures (p.text.Some? ==> r.text == p.text.value) && (p.text.None? ==> r.text == tb.text)
    ensures (p.color.Some? ==> r.color == p.color.value) && (p.color.None? ==> r.color == tb.color)
    ensures (p.fontSize.Some? ==> r.fontSize == p.fontSize.value) && (p.fontSize.None? ==> r.fontSize == tb.fontSize)
    ensures (p.fontFamily.Some? ==> r.fontFamily == p.fontFamily.value)
    ensures p.fontFamily.None? ==> r.fontFamily == tb.fontFamily
    ensures (p.rotation.Some? ==> r.rotation == p.rotation.value) && (p.rotation.None? ==> r.rotation == tb.rotation)
  {
    Textbox(tb.id, Or(p.x, tb.x), Or(p.y, tb.y), Or(p.width, tb.width), Or(p.height, tb.height),
            Or(p.text, tb.text), Or(p.color, tb.color), Or(p.fontSize, tb.fontSize),
            Or(p.fontFamily, tb.fontFamily), Or(p.rotation, tb.rotation))
  }

  /** Merging the same patch twice is merging it once; the empty patch changes nothing. */
  lemma MergeIdempotent(tb: Textbox, p: Patch)
    ensures Merge(Merge(tb, p), p) == Merge(tb, p)
    ensures Merge(tb, EMPTY_PATCH) == tb
  {
  }

  /** The box `createTextbox` builds: default size and text, no rotation, the
      current style controls. */
  function NewTextbox(id: int, x: real, y: real, color: string, fontSize: real, fontFamily: string): (r: Textbox)
    ensures r.id == id && r.x == x && r.y == y
    ensures r.width == DEFAULT_WIDTH && r.height == DEFAULT_HEIGHT
    ensures r.text == DEFAULT_TEXT && r.rotation == 0.0
    ensures r.color == color && r.fontSize == fontSize && r.fontFamily == fontFamily
  {
    Textbox(id, x, y, DEFAULT_WIDTH, DEFAULT_HEIGHT, DEFAULT_TEXT, color, fontSize, fontFamily, 0.0)
  }

  // ---------------------------------------------------------------------------
  // The list of boxes

  /** Ids strictly increase along the list; in particular no id occurs twice. */
  predicate IdsIncreasing(boxes: seq<Textbox>) {
    forall i, j :: 0 <= i < j < |boxes| ==> boxes[i].id < boxes[j].id
  }

  /** Every id in the list is below `bound` (the next id to be handed out). */
  predicate IdsBelow(boxes: seq<Textbox>, bound: int) {
    forall i :: 0 <= i < |boxes| ==> boxes[i].id < bound
  }

  /** The ids in use. */
  function Ids(boxes: seq<Textbox>): (r: set<int>)
    ensures forall id :: id in r <==> exists i :: 0 <= i < |boxes| && boxes[i].id == id
  {
    set i | 0 <= i < |boxes| :: boxes[i].id
  }

  /** `prev.filter((tb) => tb.id !== textboxId)`. */
  function RemoveById(boxes: seq<Textbox>, id: int): (r: seq<Textbox>)
    ensures forall tb :: tb in r <==> tb in boxes && tb.id != id
    ensures |r| <= |boxes|
    ensures (forall i :: 0 <= i < |boxes| ==> boxes[i].id != id) ==> r == boxes
  {
    if boxes == [] then []
    else if boxes[0].id == id then RemoveById(boxes[1..], id)
    else [boxes[0]] + RemoveById(boxes[1..], id)
  }

  /** Removing keeps the remaining boxes in their order, so ids still increase and
      stay below the bound. */
  lemma {:induction false} RemoveKeepsOrder(boxes: seq<Textbox>, id: int, bound: int)
    requires IdsIncreasing(boxes) && IdsBelow(boxes, bound)
    ensures IdsIncreasing(RemoveById(boxes, id)) && IdsBelow(RemoveById(boxes, id), bound)
    decreases |boxes|
  {
    if boxes != [] {
      var tail := boxes[1..];
      RemoveKeepsOrder(tail, id, bound);
      var rest := RemoveById(tail, id);
      if boxes[0].id != id {
        assert RemoveById(boxes, id) == [boxes[0]] + rest;
        forall j | 0 <= j < |rest| ensures boxes[0].id < rest[j].id {
          assert rest[j] in tail;
        }
      }
    }
  }

  /** The ids left after a delete are the old ids without the deleted one. */
  lemma RemoveIds(boxes: seq<Textbox>, id: int)
    ensures Ids(RemoveById(boxes, id)) == Ids(boxes) - {id}
  {
    var r := RemoveById(boxes, id);
    forall n | n in Ids(boxes) - {id} ensures n in Ids(r) {
      var i :| 0 <= i < |boxes| && boxes[i].id == n;
      assert boxes[i] in r;
      var j :| 0 <= j < |r| && r[j] == boxes[i];
    }
    forall n | n in Ids(r) ensures n in Ids(boxes) - {id} {
      var j :| 0 <= j < |r| && r[j].id == n;
      assert r[j] in boxes;
      var i :| 0 <= i < |boxes| && boxes[i] == r[j];
    }
  }

  /** `prev.map((tb) => (tb.id === textboxId ? { ...tb, ...updates } : tb))`. */
  function UpdateById(boxes: seq<Textbox>, id: int, p: Patch): (r: seq<Textbox>)
    ensures |r| == |boxes|
    ensures forall i :: 0 <= i < |boxes| && boxes[i].id == id ==> r[i] == Merge(boxes[i], p)
    ensures forall i :: 0 <= i < |boxes| && boxes[i].id != id ==> r[i] == boxes[i]
    ensures forall i :: 0 <= i < |boxes| ==> r[i].id == boxes[i].id
  {
    seq(|boxes|, i requires 0 <= i < |boxes| => if boxes[i].id == id then Merge(boxes[i], p) else boxes[i])
  }

  /** A box has at least the minimum size. */
  predicate MinSized(tb: Textbox) {
    tb.width >= MIN_WIDTH && tb.height >= MIN_HEIGHT
  }

  predicate AllMinSized(boxes: seq<Textbox>) {
    forall i :: 0 <= i < |boxes| ==> MinSized(boxes[i])
  }

  /** A patch that sets no width or height below the minimum. */
  predicate KeepsMinSize(p: Patch) {
    (p.width.Some? ==> p.width.value >= MIN_WIDTH) && (p.height.Some? ==> p.height.value >= MIN_HEIGHT)
  }

  /** One `updateTextbox(id, patch)` call. */
  datatype Update = Update(id: int, patch: Patch)

  /** Several `updateTextbox` calls in a row, as one event handler makes them. */
  function UpdateAll(boxes: seq<Textbox>, ups: seq<Update>): (r: seq<Textbox>)
    decreases |ups|
  {
    if ups == [] then boxes else UpdateAll(UpdateById(boxes, ups[0].id, ups[0].patch), ups[1..])
  }

  /** The selected copy after `updateTextbox(id, p)`: it takes the same fields when its
      id matches, and is otherwise left alone. */
  function SelectionAfter(sel: Option<Textbox>, id: int, p: Patch): (r: Option<Textbox>)
    ensures r.None? <==> sel.None?
    ensures sel.Some? && sel.value.id == id ==> r == Some(Merge(sel.value, p))
    ensures sel.Some? && sel.value.id != id ==> r == sel
  {
    if sel.Some? && sel.value.id == id then Some(Merge(sel.value, p)) else sel
  }

  function SelectionAfterAll(sel: Option<Textbox>, ups: seq<Update>): (r: Option<Textbox>)
    decreases |ups|
  {
    if ups == [] then sel else SelectionAfterAll(SelectionAfter(sel, ups[0].id, ups[0].patch), ups[1..])
  }

  /** Updates never change which ids are in the list or where they are, so the id
      order and the bound on ids survive any number of them; and updates that keep
      the minimum size keep every box at least that large. */
  lemma {:induction false} UpdateAllInvariants(boxes: seq<Textbox>, ups: seq<Update>, bound: int)
    ensures |UpdateAll(boxes, ups)| == |boxes|
    ensures forall i :: 0 <= i < |boxes| ==> UpdateAll(boxes, ups)[i].id == boxes[i].id
    ensures IdsIncreasing(boxes) ==> IdsIncreasing(UpdateAll(boxes, ups))
    ensures IdsBelow(boxes, bound) ==> IdsBelow(UpdateAll(boxes, ups), bound)
    ensures AllMinSized(boxes) && (forall k :: 0 <= k < |ups| ==> KeepsMinSize(ups[k].patch)) ==>
      AllMinSized(UpdateAll(boxes, ups))
    decreases |ups|
  {
    if ups != [] {
      var next := UpdateById(boxes, ups[0].id, ups[0].patch);
      UpdateAllInvariants(next, ups[1..], bound);
      if AllMinSized(boxes) && (forall k :: 0 <= k < |ups| ==> KeepsMinSize(ups[k].patch)) {
        assert KeepsMinSize(ups[0].patch);
        assert forall k :: 0 <= k < |ups[1..]| ==> ups[1..][k] == ups[k + 1];
      }
    }
  }

  // ---------------------------------------------------------------------------
  // Drag

  function Max(a: real, b: real): real { if a >= b then a else b }
  function Min(a: real, b: real): real { if a <= b then a else b }

  /** One coordinate of a dragged box: `Math.max(0, Math.min(pointer - grab, limit - size))`,
      where `grab` is the offset captured when the drag began. */
  function DragCoordinate(pointer: real, grab: real, limit: real, size: real): (r: real)
    ensures r >= 0.0
    ensures size <= limit ==> r + size <= limit
    ensures 0.0 <= pointer - grab <= limit - size ==> r == pointer - grab
    ensures pointer - grab < 0.0 ==> r == 0.0
    ensures 0.0 <= limit - size < pointer - grab ==> r == limit - size
    ensures limit - size < 0.0 ==> r == 0.0
  {
    Max(0.0, Min(pointer - grab, limit - size))
  }

  /** The update a drag frame sends for box `dragged`, with pointer `p`, grab offset
      `grab` and preview size `displayWidth` x `displayHeight`. */
  function DragPatch(dragged: Textbox, p: Point, grab: Point, displayWidth: real, displayHeight: real): (r: Patch)
    ensures r.x.Some? && r.y.Some?
    ensures r.width.None? && r.height.None? && r.text.None? && r.color.None?
    ensures r.fontSize.None? && r.fontFamily.None? && r.rotation.None?
    ensures r.x.value >= 0.0 && r.y.value >= 0.0
    ensures dragged.width <= displayWidth ==> r.x.value + dragged.width <= displayWidth
    ensures dragged.height <= displayHeight ==> r.y.value + dragged.height <= displayHeight
    ensures r.x.value == DragCoordinate(p.x, grab.x, displayWidth, dragged.width)
    ensures r.y.value == DragCoordinate(p.y, grab.y, displayHeight, dragged.height)
  {
    EMPTY_PATCH.(x := Some(DragCoordinate(p.x, grab.x, displayWidth, dragged.width)),
                 y := Some(DragCoordinate(p.y, grab.y, displayHeight, dragged.height)))
  }

  // ---------------------------------------------------------------------------
  // Resize

  /** The update one resize frame sends: `dx`, `dy` is the pointer movement since the
      previous frame.  The dragged corner moves, the opposite corner stays, and
      width and height never drop below their minimums. */
  function ResizePatch(tb: Textbox, handle: Handle, dx: real, dy: real): (r: Patch)
    ensures r.text.None? && r.color.None? && r.fontSize.None? && r.fontFamily.None? && r.rotation.None?
    ensures r.width.Some? && r.height.Some? && KeepsMinSize(r)
    ensures Merge(tb, r).width >= MIN_WIDTH && Merge(tb, r).height >= MIN_HEIGHT
    ensures handle == SE ==> Merge(tb, r).x == tb.x && Merge(tb, r).y == tb.y
    ensures handle == SW ==> Merge(tb, r).x + Merge(tb, r).width == tb.x + tb.width && Merge(tb, r).y == tb.y
    ensures handle == NE ==> Merge(tb, r).x == tb.x && Merge(tb, r).y + Merge(tb, r).height == tb.y + tb.height
    ensures handle == NW ==> Merge(tb, r).x + Merge(tb, r).width == tb.x + tb.width
    ensures handle == NW ==> Merge(tb, r).y + Merge(tb, r).height == tb.y + tb.height
    // where the minimum is not reached, the dragged edges follow the pointer exactly
    ensures handle in {SE, NE} && tb.width + dx >= MIN_WIDTH ==> Merge(tb, r).width == tb.width + dx
    ensures handle in {SW, NW} && tb.width - dx >= MIN_WIDTH ==> Merge(tb, r).width == tb.width - dx
    ensures handle in {SE, SW} && tb.height + dy >= MIN_HEIGHT ==> Merge(tb, r).height == tb.height + dy
    ensures handle in {NE, NW} && tb.height - dy >= MIN_HEIGHT ==> Merge(tb, r).height == tb.height - dy
    // where the pointer would pass the minimum, the side stops exactly at it
    ensures handle in {SE, NE} && tb.width + dx < MIN_WIDTH ==> Merge(tb, r).width == MIN_WIDTH
    ensures handle in {SW, NW} && tb.width - dx < MIN_WIDTH ==> Merge(tb, r).width == MIN_WIDTH
    ensures handle in {SE, SW} && tb.height + dy < MIN_HEIGHT ==> Merge(tb, r).height == MIN_HEIGHT
    ensures handle in {NE, NW} && tb.height - dy < MIN_HEIGHT ==> Merge(tb, r).height == MIN_HEIGHT
  {
    match handle
    case SE =>
      EMPTY_PATCH.(width := Some(Max(MIN_WIDTH, tb.width + dx)),
                   height := Some(Max(MIN_HEIGHT, tb.height + dy)))
    case SW =>
      var newWidth := Max(MIN_WIDTH, tb.width - dx);
      EMPTY_PATCH.(x := Some(tb.x + (tb.width - newWidth)), width := Some(newWidth),
                   height := Some(Max(MIN_HEIGHT, tb.height + dy)))
    case NE =>
      var newHeight := Max(MIN_HEIGHT, tb.height - dy);
      EMPTY_PATCH.(width := Some(Max(MIN_WIDTH, tb.width + dx)),
                   y := Some(tb.y + (tb.height - newHeight)), height := Some(newHeight))
    case NW =>
      var newWidth := Max(MIN_WIDTH, tb.width - dx);
      var newHeight := Max(MIN_HEIGHT, tb.height - dy);
      EMPTY_PATCH.(x := Some(tb.x + (tb.width - newWidth)), y := Some(tb.y + (tb.height - newHeight)),
                   width := Some(newWidth), height := Some(newHeight))
  }

  /** A whole resize gesture: the box after the frames at pointer positions `moves`,
      starting from pointer `start`.  Each frame's delta is measured from the previous
      frame's pointer, because the start point is rewritten on every frame. */
  function ResizeGesture(tb: Textbox, handle: Handle, start: Point, moves: seq<Point>): (r: Textbox)
    decreases |moves|
  {
    if moves == [] then tb
    else
      var next := Merge(tb, ResizePatch(tb, handle, moves[0].x - start.x, moves[0].y - start.y));
      ResizeGesture(next, handle, moves[0], moves[1..])
  }

  /** The corner that stays still during a resize from `handle`. */
  function AnchorX(tb: Textbox, handle: Handle): real {
    if handle in {SE, NE} then tb.x else tb.x + tb.width
  }

  function AnchorY(tb: Textbox, handle: Handle): real {
    if handle in {SE, SW} then tb.y else tb.y + tb.height
  }

  /** Over a whole gesture the anchor corner stays where it was, and after at least one
      frame the minimum size holds; nothing but geometry changes. */
  lemma {:induction false} ResizeGestureKeepsAnchor(tb: Textbox, handle: Handle, start: Point, moves: seq<Point>)
    decreases |moves|
    ensures var r := ResizeGesture(tb, handle, start, moves);
      AnchorX(r, handle) == AnchorX(tb, handle) && AnchorY(r, handle) == AnchorY(tb, handle)
    ensures var r := ResizeGesture(tb, handle, start, moves);
      r.id == tb.id && r.text == tb.text && r.rotation == tb.rotation && r.color == tb.color
    ensures moves != [] ==> ResizeGesture(tb, handle, start, moves).width >= MIN_WIDTH
    ensures moves != [] ==> ResizeGesture(tb, handle, start, moves).height >= MIN_HEIGHT
  {
    if moves != [] {
      var next := Merge(tb, ResizePatch(tb, handle, moves[0].x - start.x, moves[0].y - start.y));
      ResizeGestureKeepsAnchor(next, handle, moves[0], moves[1..]);
    }
  }

  /** While no frame of an "se" gesture reaches a minimum, the box follows the pointer:
      the per-frame deltas add up to the pointer's whole displacement. */
  lemma {:induction false} SeGestureFollowsPointer(tb: Textbox, start: Point, moves: seq<Point>)
    decreases |moves|
    requires forall k :: 0 <= k < |moves| ==> tb.width + (moves[k].x - start.x) >= MIN_WIDTH
    requires forall k :: 0 <= k < |moves| ==> tb.height + (moves[k].y - start.y) >= MIN_HEIGHT
    ensures moves != [] ==> ResizeGesture(tb, SE, start, moves).width == tb.width + (moves[|moves| - 1].x - start.x)
    ensures moves != [] ==> ResizeGesture(tb, SE, start, moves).height == tb.height + (moves[|moves| - 1].y - start.y)
  {
    if moves != [] {
      var next := Merge(tb, ResizePatch(tb, SE, moves[0].x - start.x, moves[0].y - start.y));
      assert next.width == tb.width + (moves[0].x - start.x);
      assert next.height == tb.height + (moves[0].y - start.y);
      forall k | 0 <= k < |moves[1..]|
        ensures next.width + (moves[1..][k].x - moves[0].x) >= MIN_WIDTH
        ensures next.height + (moves[1..][k].y - moves[0].y) >= MIN_HEIGHT
      {
        assert moves[1..][k] == moves[k + 1];
      }
      SeGestureFollowsPointer(next, moves[0], moves[1..]);
      if |moves| > 1 {
        assert moves[1..][|moves[1..]| - 1] == moves[|moves| - 1];
      }
    }
  }

  /** Because deltas are per frame, a gesture that hits the minimum does not return
      to its old size when the pointer returns: shrinking a 200-wide box by 150 and
      pulling back by 150 leaves it 250 wide. */
  lemma ResizeOvershootExample(tb: Textbox)
    requires tb.width == DEFAULT_WIDTH && tb.height == DEFAULT_HEIGHT
    ensures ResizeGesture(tb, SE, Point(0.0, 0.0), [Point(-150.0, 0.0), Point(0.0, 0.0)]).width == 250.0
  {
    var moves := [Point(-150.0, 0.0), Point(0.0, 0.0)];
    var first := Merge(tb, ResizePatch(tb, SE, -150.0, 0.0));
    assert first.width == MIN_WIDTH;
    assert ResizeGesture(tb, SE, Point(0.0, 0.0), moves) == ResizeGesture(first, SE, moves[0], moves[1..]);
    var second := Merge(first, ResizePatch(first, SE, 150.0, 0.0));
    assert moves[1..] == [Point(0.0, 0.0)];
    assert ResizeGesture(first, SE, moves[0], moves[1..]) == ResizeGesture(second, SE, Point(0.0, 0.0), []);
  }
}
