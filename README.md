# Enable traits tool walk and Kiva PDF graphics context, modelled in Dafny

This project models two pieces of sequential logic from the Enable/Kiva
drawing toolkit.

- **The traits tool** (`enthought/enable2/tools/traits_tool.py`).
  - `Fifo` is a first-in first-out queue kept in a dictionary of integer
    slots, with the counters `nextin` and `nextout`.
  - `get_nested_components` walks a container's containment tree breadth
    first with that queue. Each container adds its own `(x, y)` position to
    the frame offset of its children.
  - The double-click handler takes, as the component to edit, the first
    candidate whose `is_in` test accepts the click point moved into that
    candidate's frame.
- **The PDF `GraphicsContext`** (`enthought/kiva/backend_pdf.py`).
  - The local state is the current path, which is `None`, begun, or consumed
    by a paint, and the stored text position.
  - The cap, join and path-mode tables map Kiva's styles to the PDF canvas's
    codes.
  - The calls the context makes on its ReportLab canvas are modelled as an
    append-only log (`PdfContext.PdfCanvas.log`): setLineCap, setLineJoin,
    setLineWidth, setMiterLimit, the fill-mode assignment, drawPath, setFont,
    drawString and showPage. The canvas's `beginPath()` is not logged; it
    shows only as the new current path.

Files:

- `wrappers.dfy` holds the shared `Option`, `Result`, `Outcome` and the
  Python exceptions (`PyError`).
- `fifo.dfy` holds the `Fifo` class. Its invariant `Valid()` says that the
  occupied slots are exactly `[nextout, nextin)`. `Contents()` is the queue
  as a sequence, oldest first.
- `nested_components.dfy` holds the tree, the walk and its specification.
  - `Bfs` is the order in which the worklist hands out entries.
  - `Placed` is a pre-order reference that gives every node the sum of its
    container ancestors' positions.
  - `Level` is a reference for the nodes at one depth, in pre-order.
  - The lemmas show that the walk hands out every node exactly once, with
    that offset, and that it hands out the tree level by level.
- `traits_tool.dfy` holds the hit-test loop and the double-click selection.
- `pdf_styles.dfy` holds the three lookup tables and their agreement with
  the PDF operand codes.
- `pdf_context.dfy` holds the canvas log, the `Font` object and the
  `GraphicsContext` class.

Error behaviour and edge cases follow the code:

- `line_to`, `lines`, `line_set`, `rects`, `close_path`, `curve_to`, `arc`
  and `arc_to` raise Python's `AttributeError` when there is no current
  path, because the call lands on `None`. `move_to` and `rect` begin a path
  instead. `line_set` and `rects` raise nothing
  when they have no pairs or no rectangles, because their loop body never
  runs.
- Unknown cap and join styles raise `ValueError`, with the source's messages.
  `draw_path` with a mode outside the table raises `KeyError`, but only when
  there is a current path.
- `show_text` falls back to the stored position when a coordinate is zero,
  not only when it is omitted.
- The double-click handler gets its candidates from `get_nested_components`,
  so the walk is modelled.

## Model

| member | source | states |
|---|---|---|
| FifoQueue.Fifo.constructor | enthought/enable2/tools/traits_tool.py:15-18 | a new queue has both counters at 0, no slots, and is empty and valid |
| FifoQueue.Fifo.Append | enthought/enable2/tools/traits_tool.py:19-21 | stores the value at the old `nextin`, advances `nextin` by one, keeps `nextout` and the other slots; the queue becomes its old contents followed by the value |
| FifoQueue.Fifo.Extend | enthought/enable2/tools/traits_tool.py:22-26 | stores `values[i]` at slot `nextin + i`, advances `nextin` by the length, keeps the old slots; the queue becomes its old contents followed by `values`, the same as appending each in order, and an empty list changes nothing |
| FifoQueue.Fifo.IsEmpty | enthought/enable2/tools/traits_tool.py:27-28 | holds exactly when the queue holds no values |
| FifoQueue.Fifo.Pop | enthought/enable2/tools/traits_tool.py:29-33 | on a non-empty queue returns the oldest value, deletes its slot and advances `nextout`; on an empty queue the lookup raises KeyError and nothing changes; the slot invariant is preserved |
| FifoQueue.DrainAfterExtend | enthought/enable2/tools/traits_tool.py:11-33 | values come out in insertion order: extending an empty queue with `xs` and popping until empty yields exactly `xs` |
| FifoQueue.WindowPush | enthought/enable2/tools/traits_tool.py:19-21 | filling the slot just past the occupied range appends that value to the queue's contents |
| FifoQueue.WindowPop | enthought/enable2/tools/traits_tool.py:29-33 | the first occupied slot holds the oldest value, and deleting it leaves the rest of the contents in order |
| NestedComponents.ExpandSize | enthought/enable2/tools/traits_tool.py:49-52 | a popped container queues exactly its children (`Expand`: each child with the offset shifted by the container's position, nothing for a widget), whose subtrees are one node smaller in all than its own |
| NestedComponents.StepShrinks | enthought/enable2/tools/traits_tool.py:47-54 | each pass of the loop strictly shrinks the number of tree nodes still reachable from the worklist, so the walk terminates on a finite tree |
| NestedComponents.BfsVisitsEveryNodeOnce | enthought/enable2/tools/traits_tool.py:45-54 | the entries the worklist hands out are, as a multiset, every node of every queued subtree exactly once, each with the sum of its container ancestors' positions added to its offset |
| NestedComponents.BfsEmitsQueueFirst | enthought/enable2/tools/traits_tool.py:45-54 | the walk is breadth first: the entries already queued come out, in queue order, before anything they expand to |
| NestedComponents.BfsByGeneration | enthought/enable2/tools/traits_tool.py:45-54 | popping the queued entries hands them all out, in queue order, before the entries they expand to, which join the back of the queue in the same order |
| NestedComponents.ExpandLevel | enthought/enable2/tools/traits_tool.py:49-52 | expanding the nodes at one depth of a subtree, in order, gives exactly the nodes one level deeper, in pre-order, with their offsets |
| NestedComponents.LevelBeyondSize | enthought/enable2/tools/traits_tool.py:45-54 | a tree of n nodes has no nodes at depth n or below, so the walk runs out of levels |
| NestedComponents.WalkIsLevelOrder | enthought/enable2/tools/traits_tool.py:45-54 | breadth first: the walk from a root equals the tree's levels concatenated from depth 0 down, each in pre-order, so every node at depth d comes out before any node at depth d + 1 |
| NestedComponents.WalkStartsAtRoot | enthought/enable2/tools/traits_tool.py:46-52 | the walk from a root pops the root first with offset (0, 0), then its children in order, each with offset equal to the root's position |
| NestedComponents.WalkCoversTree | enthought/enable2/tools/traits_tool.py:45-54 | the walk from a root pops every node of the tree exactly once, as many entries as the tree has nodes, with the offsets of the pre-order reference |
| NestedComponents.QueueChildren | enthought/enable2/tools/traits_tool.py:49-52 | a container's children are appended one by one in order, each with offset `(offset.x + container.x, offset.y + container.y)`; anything else appends nothing |
| NestedComponents.GetNestedComponents | enthought/enable2/tools/traits_tool.py:36-55 | as written: the pops follow the order `Bfs` from the root at offset (0, 0), which is the tree level by level (`Levels`), and the returned list is always empty |
| NestedComponents.GetNestedComponentsIntended | enthought/enable2/tools/traits_tool.py:37-52 | the list the docstring describes: the non-container components in walk order with their frame offsets, which are the tree's widgets, each exactly once |
| NestedComponents.WidgetsCovered | enthought/enable2/tools/traits_tool.py:37-43 | the non-container entries of the walk are those of the pre-order reference, each exactly once |
| NestedComponents.LeavesOfPermutation | enthought/enable2/tools/traits_tool.py:49-52 | keeping only non-container entries commutes with reordering the walk |
| NestedComponents.WalkPopsNestedWidget | enthought/enable2/tools/traits_tool.py:45-52 | for a container at the origin holding one widget, the non-container entries of the walk are exactly that widget at offset (0, 0) |
| TraitsTool.FirstHit | enthought/enable2/tools/traits_tool.py:93-98 | returns the component of the first candidate in list order whose `is_in` accepts `(x - offset.x, y - offset.y)` (`Hits`), and returns none exactly when no candidate accepts it |
| TraitsTool.NormalLeftDclick | enthought/enable2/tools/traits_tool.py:79-98 | as written: a component that is not a container selects nothing, and a container selects nothing either, because its candidate list is empty |
| TraitsTool.NormalLeftDclickIntended | enthought/enable2/tools/traits_tool.py:82-98 | with the intended candidates, a container selects the first widget in walk order that accepts the click point in its own frame, or nothing when none does |
| TraitsTool.MissedClick | enthought/enable2/tools/traits_tool.py:85-98 | a click that a nested widget accepts selects nothing as written, and selects that widget with the intended candidate list |
| PdfStyles.CapStyleCode | enthought/kiva/backend_pdf.py:38-41 | the cap table has an entry for exactly the three Kiva caps, each a PDF code 0 to 2 |
| PdfStyles.JoinStyleCode | enthought/kiva/backend_pdf.py:43-46 | the join table has an entry for exactly the three Kiva joins, each a PDF code 0 to 2 |
| PdfStyles.CapTableAgreesWithPdf | enthought/kiva/backend_pdf.py:38-41 | ROUND→1, SQUARE→2, BUTT→0 are the PDF codes of the same caps, and the table is one-to-one onto the codes 0 to 2 |
| PdfStyles.JoinTableAgreesWithPdf | enthought/kiva/backend_pdf.py:43-46 | ROUND→1, BEVEL→2, MITER→0 are the PDF codes of the same joins, and the table is one-to-one onto the codes 0 to 2 |
| PdfStyles.PathMode | enthought/kiva/backend_pdf.py:48-54 | the path-mode table has an entry for exactly the five Kiva drawing modes |
| PdfStyles.PathModeMatchesNames | enthought/kiva/backend_pdf.py:48-54 | each mode's stroke and fill flags are 1 exactly when its name strokes or fills, and its rule is even-odd exactly for the two EOF modes |
| PdfContext.ZeroCoordinateFallsBack | enthought/kiva/backend_pdf.py:670-673 | a zero or missing coordinate makes `show_text` use the stored text position (`TextOrigin`, the position `show_text` draws at) |
| PdfContext.PaintDrawsOnce | enthought/kiva/backend_pdf.py:766-776 | painting (`Paint`, the effect of `draw_path` on the path and the canvas log) a current path with a known mode sends exactly one draw of that path with the mode's flags, keeps the earlier log, and leaves no current path; with no path it draws nothing |
| PdfContext.PdfCanvas.Emit | enthought/kiva/backend_pdf.py:65 | the canvas only ever appends to its log |
| PdfContext.GraphicsContext.constructor | enthought/kiva/backend_pdf.py:64-68 | a new context wraps the given canvas, has no current path and the text position (None, None) |
| PdfContext.GraphicsContext.SetLineWidth | enthought/kiva/backend_pdf.py:141-149 | forwards the width to the canvas |
| PdfContext.GraphicsContext.SetMiterLimit | enthought/kiva/backend_pdf.py:165-179 | forwards the limit to the canvas |
| PdfContext.GraphicsContext.SetLineJoin | enthought/kiva/backend_pdf.py:151-163 | a known join sends its table code to the canvas; any other value raises ValueError with the source's message and sends nothing |
| PdfContext.GraphicsContext.SetLineCap | enthought/kiva/backend_pdf.py:181-195 | a known cap sends its table code to the canvas; any other value raises ValueError with the source's message and sends nothing |
| PdfContext.GraphicsContext.BeginPage | enthought/kiva/backend_pdf.py:249-255 | sends one showPage to the canvas |
| PdfContext.GraphicsContext.EndPage | enthought/kiva/backend_pdf.py:257-263 | sends one showPage to the canvas |
| PdfContext.GraphicsContext.BeginPath | enthought/kiva/backend_pdf.py:280-283 | the current path becomes a fresh empty path, discarding any unpainted segments |
| PdfContext.GraphicsContext.MoveTo | enthought/kiva/backend_pdf.py:285-290 | begins a path when there is none, then adds a move to (x, y) |
| PdfContext.GraphicsContext.LineTo | enthought/kiva/backend_pdf.py:292-297 | adds a line to (x, y) to an existing path; with no path, raises AttributeError and changes nothing |
| PdfContext.GraphicsContext.Lines | enthought/kiva/backend_pdf.py:299-310 | adds a move to the first point, then a line to each later point in order, keeping the earlier segments; no path raises AttributeError, an empty list raises IndexError, and either leaves everything unchanged |
| PdfContext.GraphicsContext.LineSet | enthought/kiva/backend_pdf.py:312-315 | adds a move to `starts[i]` and a line to `ends[i]` for each zipped pair, stopping at the shorter list; with no path it raises AttributeError only when there is at least one pair |
| PdfContext.GraphicsContext.AddRect | enthought/kiva/backend_pdf.py:317-327 | begins a path when there is none, then adds one rectangle; the four-argument and the one-tuple calls add the same rectangle |
| PdfContext.GraphicsContext.Rects | enthought/kiva/backend_pdf.py:334-341 | adds one rectangle per entry, in order, to an existing path; with no path it raises AttributeError only when the list is not empty |
| PdfContext.GraphicsContext.ClosePath | enthought/kiva/backend_pdf.py:343-346 | adds a close to an existing path; with no path, raises AttributeError and changes nothing |
| PdfContext.GraphicsContext.CurveTo | enthought/kiva/backend_pdf.py:348-351 | adds a cubic curve to an existing path; with no path, raises AttributeError and changes nothing |
| PdfContext.GraphicsContext.AddArc | enthought/kiva/backend_pdf.py:359-363 | adds an arc with the arguments as passed to an existing path; with no path, raises AttributeError and changes nothing |
| PdfContext.GraphicsContext.AddArcTo | enthought/kiva/backend_pdf.py:365-368 | adds a tangent arc to an existing path; with no path, raises AttributeError and changes nothing |
| PdfContext.GraphicsContext.DrawPath | enthought/kiva/backend_pdf.py:766-776 | with a current path and a known mode: sets the canvas fill rule, draws the path once with the looked-up flags, and drops the path; an unknown mode raises KeyError and changes nothing; with no path nothing happens |
| PdfContext.GraphicsContext.StrokePath | enthought/kiva/backend_pdf.py:719-722 | has exactly the effect of `draw_path(STROKE)` |
| PdfContext.GraphicsContext.FillPath | enthought/kiva/backend_pdf.py:724-727 | has exactly the effect of `draw_path(FILL)` |
| PdfContext.GraphicsContext.EofFillPath | enthought/kiva/backend_pdf.py:729-732 | has exactly the effect of `draw_path(EOF_FILL)` |
| PdfContext.GraphicsContext.StrokeRect | enthought/kiva/backend_pdf.py:734-739 | whatever path existed, sends one nonzero-rule stroke of a path holding just that rectangle, and leaves no current path |
| PdfContext.GraphicsContext.FillRect | enthought/kiva/backend_pdf.py:747-752 | whatever path existed, sends one nonzero-rule fill of a path holding just that rectangle, and leaves no current path |
| PdfContext.GraphicsContext.SelectFont | enthought/kiva/backend_pdf.py:605-608 | forwards name and size to the canvas and ignores the encoding |
| PdfContext.GraphicsContext.SetFont | enthought/kiva/backend_pdf.py:610-616 | replaces an empty face name with "Helvetica" in the font object itself, then selects that face and size on the canvas |
| PdfContext.GraphicsContext.SetTextPosition | enthought/kiva/backend_pdf.py:634-637 | stores (x, y) as the text position and leaves the path alone |
| PdfContext.GraphicsContext.ShowText | enthought/kiva/backend_pdf.py:662-674 | draws the text at (x, y) when both are truthy, and at the stored text position otherwise |
| PdfContext.GraphicsContext.ShowTextAtPoint | enthought/kiva/backend_pdf.py:676-677 | draws at the given point unless a coordinate is zero, in which case the stored position is used |
| PdfContext.FilledTriangle | enthought/kiva/backend_pdf.py:280-351 | begin, move, two lines, close, then fill: the canvas receives exactly one draw of the closed triangle with fill 1 and stroke 0, and a later `line_to` raises AttributeError because the fill consumed the path |

## Left out

- The canvas's `beginPath()` call, made by `begin_path`, by `move_to` and
  `rect` when they start a path, and by `stroke_rect` and `fill_rect`, is not
  logged. It only creates the path object, which the model shows as the
  current path becoming `Some([])`. The logs that `StrokeRect`, `FillRect`
  and `FilledTriangle` promise therefore hold no entry for it.
- The base-class constructor call in `GraphicsContext.__init__` is not
  modelled. The base class is not part of this model, and no modelled method
  reads its state.
- Coordinate transforms (`scale_ctm`, `translate_ctm`, `rotate_ctm`,
  `concat_ctm`, `get_ctm`) and `save_state`/`restore_state` are left out.
  They only delegate to the canvas's matrix and state stack, and
  `rotate_ctm` converts the angle with an approximate pi.
- `get_text_extent` and `get_full_text_extent` are left out. They compute
  with floats over the canvas's font tables and string widths.
- `get_text_position` is left out. It reads a text matrix of the base class,
  and the base class is not part of this model.
- `set_text_matrix` and `get_text_matrix` are left out. They write and read a
  private attribute of the canvas.
- `draw_image` is left out because it converts images with external imaging
  libraries.
- `clip` and `even_odd_clip` are left out. They call the canvas's clipping
  on the path object.
- `clip_to_rect` and `clear_clip_path` are left out. They return at once,
  and the code after the return never runs.
- `draw_rect` is left out. It passes a canvas fill-rule constant where a
  Kiva mode is expected, so its effect depends on canvas constants that are
  not part of this model.
- `set_line_dash` is left out. It depends on `basecore2d.is_dashed`, which is
  not part of this model.
- The methods that only raise NotImplementedError are left out, as are the
  no-op methods (`flush`, `synchronize`, `set_character_spacing`,
  `set_text_drawing_mode`).
- `set_font_size`, `set_fill_color`, `set_stroke_color` and `save` are left
  out. They read private canvas state or only forward a call.
- The `Canvas` wrapper class, `simple_test`, `show_all_samplers` and the main
  block are left out. They write files, set environment variables and reload
  modules.
- The user-interface side of the double-click handler is left out: setting
  the active tool, the modal traits editor, `event.handled` and the redraw
  request. The handler's `if item:` test on the chosen component is
  modelled as "some component was chosen".
- `is_in` and the click coordinates come from the event and the components.
  They are parameters here: a function of the component and a point.
- Kiva's constants module is not part of this model.
  - Cap styles, join styles and drawing modes are symbolic values. Every
    other value is one `...Other(code)` case.
  - The model therefore does not capture constants of different tables that
    share a number. For example, passing a join constant to `set_line_cap`
    would look up whatever cap has the same number.
- The canvas's fill rules are the symbols `NonZero` and `EvenOdd`, not the
  canvas's numeric constants.
- The path object is the list of calls made on it, with their arguments as
  passed. How the canvas expands a rectangle or an arc into PDF operators is
  not modelled.
- `rect` called with an argument count other than one or four is not
  modelled. That case fails inside the canvas.
- Coordinates, sizes and offsets are exact reals. Floating-point rounding of
  the offset sums is not modelled.
- Python object identity is modelled by a component `id`. Two components
  with equal fields and ids are the same value here.
- The `TypeError` that the canvas may raise when `show_text` falls back to
  the initial text position `(None, None)` is not modelled. The log records
  the call with its `None` coordinates.

## Findings

| source | as written | input that shows it | evidently intended | confidence | as-written member | corrected member |
|---|---|---|---|---|---|---|
| enthought/enable2/tools/traits_tool.py:44-55 | `components` is created empty and nothing is ever added to it, so `get_nested_components` always returns `[]` and the double-click handler never selects a component | a container at (0, 0) holding one widget whose `is_in` accepts every point: the walk pops the widget with offset (0, 0), but the result is `[]` and the click selects nothing (`WalkPopsNestedWidget`, `MissedClick`) | each popped component that is not a container is added with its frame offset, as the docstring and the handler's comment describe, so that every widget of the tree appears exactly once | high; not executed | NestedComponents.GetNestedComponents | NestedComponents.GetNestedComponentsIntended |
