# Meme generator: editor, feed and card logic in Dafny

This project models the logic of the meme generator web app's three React
components and proves properties of that model.

- **The meme editor** (`src/components/MemeCreator.tsx`) is the class
  `Editor.MemeEditor`. Its fields are the component's state: the loaded image and
  its preview size, the list of text boxes, the id counter, the selected copy, the
  drag, resize and rotate slots with `dragStart` and `rotationStart`, the style
  controls, and the posting flags. Its methods are the handlers.
- **The editor's geometry** is pure functions over `real`:
  - `Textboxes`: partial updates, the list operations, the drag clamp and the
    per-corner resize;
  - `Rotation`: the snap rule;
  - `Display`: fitting the preview into 700 x 500 and scaling boxes back to
    image pixels.
- **The feed** (`src/components/MemeFeed.tsx`) is module `Feed`. It pairs every
  meme with its upvote count and the current user's upvote, then sorts the pairs
  "newest" or "popular".
- **A meme card** (`src/components/MemeCard.tsx`) is module `Card`. It covers
  the relative date label, the ownership check, the upvote toggle, the delete
  transaction, and the delete dialog's state as class `Card.MemeCardState`.
- **The hosted backend** is module `Records`: an in-memory `Store` holding the
  two record lists (`memes`, `upvotes`), and writes (`Tx`) applied in order. The
  voter field of an upvote really is called `oderId`.

The model follows the code's exact behaviour, including these details:

- Loading an image clears the text boxes. It does not reset the id counter or
  the selected copy (MemeCreator.tsx:89). So ids are never reused, and a stale
  selected copy can survive a reload.
- A resize measures each frame's delta from the previous frame's pointer,
  because `dragStart` is rewritten on every move (MemeCreator.tsx:286).
  `Textboxes.ResizeOvershootExample` shows the effect. A gesture that hits the
  minimum width does not return to the old width when the pointer comes back.
- The drag, resize and rotate slots are three independent fields, as in the
  source, not one tagged union. A mouse move serves every active slot in the
  order drag, resize, rotate.
- `handlePost` writes the image under the field `imageBase64`
  (MemeCreator.tsx:445). The `Meme` type the feed and cards read has `imageUrl`
  instead (src/lib/instant.ts:9). `Records.MemeDraft` and `Records.Meme` keep
  the two shapes apart.
- `handleUpvote` tests `hasUpvoted && userUpvoteId` by JavaScript truthiness.
  An empty-string id therefore counts as absent, and the card then creates a new
  upvote.
- The delete dialog's backdrop closes the dialog even while a delete is running
  (MemeCard.tsx:231). Only the two buttons are disabled.

React's state updates are modelled as immediate assignments, applied in the order
a handler makes them. An effect runs right after the handler that changed its
dependencies. The style-sync effect is folded into `SetStyle`, `Select` and
`StartDrag`.

## Model

| member | source | states |
|---|---|---|
| Records.UpvotesFor | src/components/MemeFeed.tsx:43 | the filter keeps exactly the upvotes whose meme id matches, never grows, and is a sub-multiset of the input |
| Records.UpvotesForCount | src/components/MemeFeed.tsx:43 | the number of upvotes kept for a meme is the number of occurrences of its id among all upvotes' meme ids |
| Records.RemoveUpvote | src/components/MemeCard.tsx:32 | the backend's delete by id keeps exactly the records with another id; deleting an absent id changes nothing |
| Records.RemoveMeme | src/components/MemeCard.tsx:57 | the backend's delete of a meme keeps exactly the memes with another id |
| Textboxes.Merge | src/components/MemeCreator.tsx:188 | `{ ...tb, ...updates }`: each supplied field replaces the box's field, every other field and the id stay |
| Textboxes.MergeIdempotent | src/components/MemeCreator.tsx:188 | merging the same fields twice equals merging them once, and an empty update changes nothing |
| Textboxes.NewTextbox | src/components/MemeCreator.tsx:160-171 | a new box has the given id and position, size 200 x 60, text "Text", rotation 0 and the given style |
| Textboxes.RemoveById | src/components/MemeCreator.tsx:179 | the filter keeps exactly the boxes with another id, never grows, and returns the list unchanged when no box has the id |
| Textboxes.RemoveKeepsOrder | src/components/MemeCreator.tsx:179 | removal keeps the survivors in order, so strictly increasing ids and the bound on ids are preserved |
| Textboxes.RemoveIds | src/components/MemeCreator.tsx:179 | the ids after a delete are the old ids minus the deleted id |
| Textboxes.UpdateById | src/components/MemeCreator.tsx:187-189 | the map keeps length and ids, merges the update into every box with the id, and leaves every other box as it was |
| Textboxes.SelectionAfter | src/components/MemeCreator.tsx:190-192 | the selected copy receives the same fields exactly when its id matches; no selection stays no selection |
| Textboxes.UpdateAllInvariants | src/components/MemeCreator.tsx:186-193 | any sequence of updates keeps length, ids and their order, the bound on ids, and, if no update goes below the minimum size, the minimum size of every box |
| Textboxes.DragCoordinate | src/components/MemeCreator.tsx:251-252 | the clamped coordinate is never negative, keeps the box inside the preview when the box fits, equals the pointer minus the grab offset when that is in range, sticks to the edge that was crossed otherwise, and is 0 when the box is wider than the preview |
| Textboxes.DragPatch | src/components/MemeCreator.tsx:251-253 | a drag frame updates only x and y, each the clamped coordinate of `DragCoordinate` on its own axis, both non-negative, and keeps a box that fits inside the preview |
| Textboxes.ResizePatch | src/components/MemeCreator.tsx:257-284 | a resize frame leaves the style alone, gives width >= 100 and height >= 40, keeps the corner opposite the handle fixed for each of the four handles, makes the dragged edges follow the pointer exactly until a minimum is reached, and sets a side that would pass its minimum to exactly 100 or 40 |
| Textboxes.ResizeGestureKeepsAnchor | src/components/MemeCreator.tsx:256-289 | over a whole gesture of per-frame deltas the anchor corner stays put, id, text, colour and rotation are unchanged, and after one frame the minimum size holds |
| Textboxes.SeGestureFollowsPointer | src/components/MemeCreator.tsx:256-289 | while no frame of an "se" gesture reaches a minimum, the per-frame deltas add up: the size grows by the pointer's whole displacement |
| Textboxes.ResizeOvershootExample | src/components/MemeCreator.tsx:286-288 | shrinking a 200-wide box by 150 and moving back by 150 leaves it 250 wide, because deltas are taken per frame from the clamped box |
| Rotation.SnapFrom | src/components/MemeCreator.tsx:310-316 | the rule returns the first angle in list order within the window, and the raw rotation when none is |
| Rotation.Snap | src/components/MemeCreator.tsx:307-316 | the stored rotation is the raw rotation or a listed angle within 5 degrees of it, and the raw rotation whenever no listed angle is that close |
| Rotation.SnapRotation | src/components/MemeCreator.tsx:307-316 | the `for ... break` loop computes the snap rule, and its result is the raw rotation or a listed angle within 5 degrees of it |
| Rotation.WindowsDisjoint | src/components/MemeCreator.tsx:310-312 | no rotation is within 5 degrees of two listed angles, so the first hit is the only hit |
| Rotation.SnapExact | src/components/MemeCreator.tsx:309-316 | a rotation within 5 degrees of a listed angle is stored as exactly that angle, and a rotation near none is stored unchanged |
| Rotation.SnapIdempotent | src/components/MemeCreator.tsx:311-316 | snapping a snapped rotation changes nothing |
| Rotation.SnapNinetyTwo | src/components/MemeCreator.tsx:312-313 | 92 degrees is stored as 90 |
| Display.FitDisplay | src/components/MemeCreator.tsx:98-113 | the preview is at most 700 x 500, keeps the aspect ratio, never enlarges, is positive for a non-empty image, is the image's own size when that fits, and otherwise reaches one of the two limits |
| Display.LineWidth | src/components/MemeCreator.tsx:391 | the outline width is at least 2 and at least a fifteenth of the font size, and equals one of the two |
| Display.ScaleTextbox | src/components/MemeCreator.tsx:370-379 | the font scales by the smaller factor, the rotation, text and style are kept, the centre scales per axis, dividing the scaled geometry by a positive factor gives back the preview geometry, and the stroke width is `LineWidth` of the scaled font size |
| Display.RenderPlan | src/components/MemeCreator.tsx:369-402 | one draw per box, in list order, each the scaled box |
| Display.ScaledSpanInside | src/components/MemeCreator.tsx:365-373 | a span inside the preview's extent on one axis, scaled by image size over preview size, lies inside the image on that axis |
| Display.ScaledBoxInsideImage | src/components/MemeCreator.tsx:364-373 | a box inside the preview is drawn inside the image |
| Display.ScaleAtLeastOne | src/components/MemeCreator.tsx:365-366 | a preview no larger than the image gives a scale factor of at least 1 |
| Display.UniformScale | src/components/MemeCreator.tsx:364-374 | when the preview keeps the aspect ratio, the two scale factors are equal, so the font scales like the geometry |
| Editor.Publish | src/components/MemeCreator.tsx:433-451 | an encoding longer than 400000 characters is refused with its message, exactly then; otherwise the record carries the encoding, the author, the time, the first box's text as top caption and the second box's as bottom caption, or "" |
| Editor.StylePatch | src/components/MemeCreator.tsx:342-346 | the style update changes a box's colour, font size and font family and nothing else |
| Editor.MemeEditor.constructor | src/components/MemeCreator.tsx:52-80 | the initial state: no image, no boxes, counter 0, no selection, empty slots, white 32-pixel Impact style, not posting |
| Editor.MemeEditor.LoadImage | src/components/MemeCreator.tsx:87-115 | the image replaces the old one, the boxes are cleared, the preview is fitted as `FitDisplay` states (within 700 x 500, same aspect ratio, never enlarged, unchanged when it fits, touching a limit when it does not), and the counter, selection, slots and style are kept |
| Editor.MemeEditor.CreateTextbox | src/components/MemeCreator.tsx:159-175 | exactly one default box with the current counter as id and the current style is appended and selected, the counter goes up by one, the new id was not in use, and ids stay increasing and below the counter |
| Editor.MemeEditor.CanvasClick | src/components/MemeCreator.tsx:196-203 | a click creates a box at the click point when an image is loaded, and changes nothing otherwise |
| Editor.MemeEditor.DeleteTextbox | src/components/MemeCreator.tsx:178-183 | the list becomes the filter by id, the ids in use lose exactly that id, and the selection is cleared exactly when its id matches |
| Editor.MemeEditor.UpdateTextbox | src/components/MemeCreator.tsx:186-193 | the list becomes the map-and-merge by id and the selected copy takes the same fields when its id matches; the id invariants are kept |
| Editor.MemeEditor.ApplyStyle | src/components/MemeCreator.tsx:340-348 | with a selection, the controls' style goes into the selected box and its copy; without one nothing changes |
| Editor.MemeEditor.SetStyle | src/components/MemeCreator.tsx:340-348 | the controls take the new style; the style effect runs only when the style actually changed; with no selection the boxes and selection are kept, and with one the selected box and its copy take the new colour, size and family |
| Editor.MemeEditor.Select | src/components/MemeCreator.tsx:552-557 | the clicked box becomes the selection and the controls take its style, followed by the style effect |
| Editor.MemeEditor.StartDrag | src/components/MemeCreator.tsx:206-216 | the drag slot holds the box and the pointer's offset inside it, the box is selected and its style loaded, and the other slots, the image and the counter are unchanged |
| Editor.MemeEditor.StartResize | src/components/MemeCreator.tsx:219-224 | the resize slot holds the box, the handle and the pointer |
| Editor.MemeEditor.StartRotation | src/components/MemeCreator.tsx:227-245 | the rotate slot holds the box, and the offset is the pointer's angle minus the box's rotation |
| Editor.MemeEditor.DragFrame | src/components/MemeCreator.tsx:250-254 | an active drag sends its clamped update through `updateTextbox`; without a drag nothing changes |
| Editor.MemeEditor.ResizeFrame | src/components/MemeCreator.tsx:256-289 | an active resize sends the corner update for the delta since the last frame, then makes this pointer the new start and the updated box the new resizing copy |
| Editor.MemeEditor.RotateFrame | src/components/MemeCreator.tsx:292-320 | an active rotation stores `Snap(pointer angle - offset)` in the box and in the rotating copy: the offset is subtracted before snapping |
| Editor.MemeEditor.MouseMove | src/components/MemeCreator.tsx:249-321 | a move applies the drag, resize and rotate updates of the active slots in that order, keeps the id invariants, and keeps every box at least minimum size if it was |
| Editor.MemeEditor.MouseUp | src/components/MemeCreator.tsx:323-328 | a release empties all four interaction fields and touches nothing else |
| Editor.MemeEditor.ScaleX | src/components/MemeCreator.tsx:365 | the horizontal factor is positive, maps the preview width onto the image width, and is at least 1 |
| Editor.MemeEditor.ScaleY | src/components/MemeCreator.tsx:366 | the vertical factor is positive, maps the preview height onto the image height, and is at least 1 |
| Editor.MemeEditor.GenerateMemeImage | src/components/MemeCreator.tsx:351-405 | without an image there is no result; otherwise one draw per box, in list order, scaled by image size over preview size |
| Editor.MemeEditor.BeginPost | src/components/MemeCreator.tsx:421-452 | without an image nothing happens; an oversized encoding ends posting with the size message before any write; otherwise posting starts, the error is cleared, and the record `Publish` builds is the write |
| Editor.MemeEditor.FinishPost | src/components/MemeCreator.tsx:454-459 | posting ends whatever happened, and a failed write's message is shown |
| Feed.FindByVoter | src/components/MemeFeed.tsx:44 | the search finds an upvote by the user when one exists, and finds nothing exactly when none does |
| Feed.FindAfterFilter | src/components/MemeFeed.tsx:43-44 | filtering by meme and then searching by voter finds nothing exactly when the user has no upvote of the meme, and otherwise finds the first one in query order |
| Feed.Entry | src/components/MemeFeed.tsx:42-51 | an entry keeps its meme, counts no more upvotes than exist, is "upvoted" exactly when some upvote of the meme is the user's, then counts at least one and carries the id of such an upvote, and carries an id exactly when upvoted |
| Feed.EntryMeaning | src/components/MemeFeed.tsx:42-52 | an entry's count is the number of upvotes of its meme; it says "upvoted" exactly when the user has one; its upvote id is absent exactly when not upvoted and is otherwise the id of the user's first upvote |
| Feed.Aggregate | src/components/MemeFeed.tsx:42-52 | one entry per meme, in the query's order, each the meme's own aggregate |
| Feed.Cmp | src/components/MemeFeed.tsx:55-65 | "newest" puts `a` first exactly when it is newer and ties exactly on equal times; "popular" puts `a` first exactly when it has more upvotes, or as many and is newer, and ties exactly on equal counts and times |
| Feed.CmpTotalPreorder | src/components/MemeFeed.tsx:55-65 | the comparator is total, transitive and antisymmetric in sign, for both orders |
| Feed.Insert | src/components/MemeFeed.tsx:55-65 | inserting into a sorted list gives a sorted list with exactly one more element, the inserted one |
| Feed.SortFeed | src/components/MemeFeed.tsx:55-65 | the sorted feed is ordered by the comparator and is a permutation of its input; as a value, the input is untouched |
| Feed.TiesInsert | src/components/MemeFeed.tsx:55-65 | an inserted entry lands in front of every entry the comparator ties it with, and leaves the order of the others' ties alone |
| Feed.SortFeedStable | src/components/MemeFeed.tsx:55-65 | the sort is stable: for every entry, the entries the comparator ties with it appear in the same order before and after sorting |
| Feed.ShownFeed | src/components/MemeFeed.tsx:42-65 | the feed shown is a permutation of the aggregate |
| Feed.OpeningFeedNewestFirst | src/components/MemeFeed.tsx:14 | the feed opens on the default order, "newest", so its creation times never increase along the feed |
| Feed.NewestOrder | src/components/MemeFeed.tsx:56-57 | under "newest" the creation times never increase along the feed |
| Feed.PopularOrder | src/components/MemeFeed.tsx:59-64 | under "popular" the counts never increase along the feed, and among equal counts the creation times never increase |
| Feed.ShownFeedHasEveryMeme | src/components/MemeFeed.tsx:42-65 | every meme of the query appears in the shown feed with its own aggregate |
| Card.FormatDate | src/components/MemeCard.tsx:70-83 | the first matching bucket by floor division: "just now" exactly below one minute (future times included), minutes from 1 to 59, hours from 1 to 23, days from 1 to 6, each number the whole units elapsed, and the locale date from seven days on |
| Card.Decimal | src/components/MemeCard.tsx:79-81 | the number in a label prints as a non-empty string of decimal digits with no leading zero unless it is 0 |
| Card.DecimalRoundTrip | src/components/MemeCard.tsx:79-81 | reading the printed digits back gives the number printed |
| Card.Caption | src/components/MemeCard.tsx:78-82 | a label gets a text exactly when it is not the locale date: "just now", or for a count n the digits of n (read back as n, no leading zero) followed by "m ago", "h ago" or "d ago" |
| Card.CountText | src/components/MemeCard.tsx:79-81 | printing a count and appending a unit suffix gives a text that shows that count |
| Card.FormatDateMonotone | src/components/MemeCard.tsx:74-82 | as time passes a label only moves to a coarser bucket |
| Card.IsOwner | src/components/MemeCard.tsx:26 | the viewer owns the meme exactly when they are its author |
| Card.UpvoteTx | src/components/MemeCard.tsx:30-40 | the toggle deletes exactly the user's upvote id when the card says upvoted and the id is a non-empty string, and otherwise creates one upvote of this meme by this user |
| Card.RemoveUniqueUpvote | src/components/MemeCard.tsx:32 | deleting an upvote whose id no other record shares removes exactly one occurrence of its meme id |
| Card.ToggleRemovesOne | src/components/MemeCard.tsx:30-32 | with unique ids, the toggle's delete removes exactly one upvote of the meme |
| Card.ToggleAddsOne | src/components/MemeCard.tsx:35-40 | the toggle's create adds exactly one upvote of the meme and leaves the user upvoted |
| Card.ToggleUpvote | src/components/MemeCard.tsx:28-45 | on a card fed by the aggregate, with unique ids, pressing upvote lowers the count by one when the user had upvoted and the stored upvote id is a non-empty string, and otherwise raises it by one and marks it upvoted; no other meme's count changes |
| Card.DeleteTransaction | src/components/MemeCard.tsx:51-58 | one upvote delete per upvote of the meme, in the order of the meme's upvotes, then the meme's delete; no creates |
| Card.DeleteTransactionCovers | src/components/MemeCard.tsx:52-58 | every upvote of the meme is deleted, and every upvote delete names an upvote of the meme |
| Card.DeleteTransactionSparesOthers | src/components/MemeCard.tsx:52-58 | with unique ids, no upvote of another meme is deleted |
| Card.ApplyDeletesMembership | src/components/MemeCard.tsx:60 | a transaction of deletes removes exactly the records it names |
| Card.DeleteTransactionEffect | src/components/MemeCard.tsx:47-60 | afterwards the meme and all its upvotes are gone, and with unique ids every other meme and upvote remains |
| Card.MemeCardState.constructor | src/components/MemeCard.tsx:22-24 | a card starts with the dialog closed and no delete running |
| Card.MemeCardState.RequestDelete | src/components/MemeCard.tsx:172-174 | the delete button exists only for the owner, and opens the dialog |
| Card.MemeCardState.CancelDelete | src/components/MemeCard.tsx:252-256 | cancel closes the dialog unless a delete is running |
| Card.MemeCardState.DismissDialog | src/components/MemeCard.tsx:228-231 | a click on the backdrop closes the dialog, even during a delete |
| Card.MemeCardState.BeginDelete | src/components/MemeCard.tsx:47-48 | the delete button starts a delete only when none is running, and a delete is then running |
| Card.MemeCardState.FinishDelete | src/components/MemeCard.tsx:49-66 | the transaction sent is `DeleteTransaction` of the queried upvotes, nothing is sent when the query fails, the dialog closes only when the transaction succeeds, and no delete is running afterwards |

## Left out

- Canvas drawing is not modelled: `drawImage`, `translate`/`rotate`, `strokeText`/`fillText`, `toDataURL` and the preview's own render effect. A `Display.Draw` records what one box contributes; the encoded image is a parameter of `BeginPost`.
- The `Math.atan2` angle of the pointer around a box's centre is a parameter (`pointerAngle`), because it is transcendental floating point.
- IEEE floating point is not modelled: geometry is `real` and times are `int` milliseconds. Rounding, `NaN` from `parseInt` in the font-size field, and `Infinity` from a zero preview size do not arise.
- Image loading through `Image` and `FileReader` callbacks is asynchronous. Only the completed load is modelled (`LoadImage`), so a race between two loads is not. The error `alert` is left out.
- `Editor.MemeEditor.LoadImage`: requires a non-empty image, which the browser's successful decode provides. It also omits the early return when the canvas element is missing.
- The early returns on a missing canvas, container or drawing context are left out, because the mounted component always has them. This covers `handleCanvasClick`, `startRotation`, the rotate branch of `handleMouseMove` and `generateMemeImage`. It also drops the unreachable "Failed to generate meme image" error of `handlePost`.
- InstantDB is left out: `db.transact`, `db.queryOnce`, `db.useQuery` and `db.useAuth`. It is a hosted service. The store is two record lists and a transaction is a list of `Tx` values. Query results, write outcomes and fresh ids are parameters.
- `handleUpvote`'s failure path is left out. It only logs, and the card state does not change.
- `date.toLocaleDateString()` is locale formatting. It stays an opaque `LocaleDate(timestamp)`.
- React's batching and stale closures are not modelled. The mouse-move effect reads `selectedTextbox` from an older render. Within a gesture that copy always carries the same id, so the model uses the current one.
- The template gallery (`selectedTemplate`), the lightbox (`showLightbox`), the download button, `onMemePosted`, the loading/error screens of the feed, and JSX and CSS are presentation only.
- `Textboxes.Patch` has no `id` field. `Partial<Textbox>` would allow one, but no caller supplies it.
- The resize handle is one of the four corners, the only strings the component passes. Another string would make the resize frame send an empty update.
- Files not part of this model: `src/components/AuthForm.tsx` (two foreign auth calls), the pages under `src/app`, `src/lib/imgbb.ts` (a network client), `src/lib/instant.ts` and `instant.schema.ts` (configuration and types, used only for the record shapes), and `server.py` (a static file server).
