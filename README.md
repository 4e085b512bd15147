# KiddoCanvas drawing view: stroke history

This project models the stroke history of `DrawingView`, the custom view in
which a child draws with a finger. The view keeps:

- the stroke being drawn, `mDrawPath`, a path that carries its own colour and
  thickness;
- the current brush: colour and size;
- the committed strokes, `mPaths`, drawn in order on every redraw;
- the undone strokes, `mUndoPaths`, which redo brings back.

Touch-down restyles the current path with the brush and restarts it at the
finger. Touch-move extends it. Touch-up commits the path object itself and
starts a new empty one with the current brush. Undo moves the last committed
stroke onto the undone stack; redo moves the top undone stroke back. A redraw
draws the committed strokes in order, each in its own style, then the current
stroke if it has any points.

Two modules:

- `Strokes` (strokes.dfy) is the state as a value, `View`, with one function
  per operation. `Render` is the ordered list of draw calls. `Run` replays a
  sequence of calls. The lemmas state what the operations promise, alone and in
  sequence.
- `Canvas` (canvas.dfy) is the view as objects. `CustomPath` is a mutable path
  with its own colour and thickness. `DrawingView` holds the current path and
  two lists of path objects. Each method is proved to move `Model()` exactly as
  the matching `Strokes` function does. Each method also keeps `Valid()`: the
  current path belongs to neither list, and no path object appears twice across
  the two lists. That invariant is why a later touch-down, which mutates the
  current path in place, can never restyle a committed stroke.

Three behaviours of the code that a user of an editor might not expect are
modelled as written:

- A stroke committed after an undo does not clear the undone stack, so redo
  then puts the undone stroke after the new one (`RedoAfterNewStroke`).
- A move with no preceding down still extends the current path. An up with no
  preceding down commits the current path even when it is empty.
- A cancelled gesture (any action other than down, move or up) is refused and
  leaves the current path as it was.

## Model

| member | source | states |
|---|---|---|
| `Strokes.Initial` | app/src/main/java/com/example/kidsdrawingapp/DrawingView.kt:27-38 | Nothing is committed or undone; the current path is empty; brush and path are black with size 0 |
| `Strokes.TouchDown` | app/src/main/java/com/example/kidsdrawingapp/DrawingView.kt:98-109 | The current path takes the brush colour and size and holds only the touch point; brush and both lists are unchanged |
| `Strokes.TouchMove` | app/src/main/java/com/example/kidsdrawingapp/DrawingView.kt:110-117 | The current path gains exactly one point, at its end, and keeps its earlier points and style; nothing else changes |
| `Strokes.TouchUp` | app/src/main/java/com/example/kidsdrawingapp/DrawingView.kt:118-123 | The committed list grows by one, keeps its prefix and ends with the old current path; the new current path is empty with the current brush; the undone list is unchanged |
| `Strokes.HandleTouch` | app/src/main/java/com/example/kidsdrawingapp/DrawingView.kt:92-136 | The event is consumed exactly when it is present and is a down, move or up; a refused event changes nothing; no event changes the undone list or the brush |
| `Strokes.Undo` | app/src/main/java/com/example/kidsdrawingapp/DrawingView.kt:158-163 | With strokes committed, the last one leaves the committed list and lands on top of the undone list; with none, nothing changes |
| `Strokes.Redo` | app/src/main/java/com/example/kidsdrawingapp/DrawingView.kt:164-169 | With strokes undone, the top one leaves the undone list and is appended to the committed list; with none, nothing changes |
| `Strokes.ChangeColor` | app/src/main/java/com/example/kidsdrawingapp/DrawingView.kt:153-156 | Only the brush colour changes; the current path and both lists keep their strokes and styles |
| `Strokes.ChangeBrushSize` | app/src/main/java/com/example/kidsdrawingapp/DrawingView.kt:147-152 | Only the brush size changes; the current path and both lists keep their strokes and styles |
| `Strokes.RenderPaths` | app/src/main/java/com/example/kidsdrawingapp/DrawingView.kt:72-76 | One draw call per committed stroke, in insertion order, each with that stroke's own points, colour and thickness |
| `Strokes.Render` | app/src/main/java/com/example/kidsdrawingapp/DrawingView.kt:63-85 | The committed strokes are drawn first, in order and in their own styles; the current stroke is drawn last, and only when it has points |
| `Strokes.UndoRedoKeepStrokes` | app/src/main/java/com/example/kidsdrawingapp/DrawingView.kt:158-169 | Undo and redo keep the combined multiset of committed and undone strokes |
| `Strokes.UndoThenRedo` | app/src/main/java/com/example/kidsdrawingapp/DrawingView.kt:158-169 | Redo right after a real undo restores the whole state, both lists in content and order |
| `Strokes.RedoThenUndo` | app/src/main/java/com/example/kidsdrawingapp/DrawingView.kt:158-169 | Undo right after a real redo restores the whole state |
| `Strokes.TouchesCommitOnePerUp` | app/src/main/java/com/example/kidsdrawingapp/DrawingView.kt:92-136 | Over any sequence of touch events, the committed list grows only at its end, by exactly one stroke per up, and the undone list never changes |
| `Strokes.StrokesNeverLost` | app/src/main/java/com/example/kidsdrawingapp/DrawingView.kt:92-169 | Over any sequence of calls, every committed or undone stroke is still committed or undone, unaltered |
| `Strokes.MidStrokeKeepsStyle` | app/src/main/java/com/example/kidsdrawingapp/DrawingView.kt:110-117 | Calls other than down and up never restyle the current path or drop its points |
| `Strokes.StyleStampedAtDown` | app/src/main/java/com/example/kidsdrawingapp/DrawingView.kt:98-123 | A committed stroke carries the brush that was current at its down and starts at the down position, whatever brush changes came between down and up |
| `Strokes.RedoAfterNewStroke` | app/src/main/java/com/example/kidsdrawingapp/DrawingView.kt:118-123 | After an undo, a new up keeps the undone list, and redo then appends the undone stroke after the new one |
| `Strokes.BrushChangesKeepRender` | app/src/main/java/com/example/kidsdrawingapp/DrawingView.kt:147-156 | Changing colour or size alters no draw call, not even the current stroke's |
| `Strokes.UndoHidesLastStroke` | app/src/main/java/com/example/kidsdrawingapp/DrawingView.kt:158-163 | With no stroke in progress, undo removes exactly the topmost draw call |
| `Strokes.Scenario` | app/src/main/java/com/example/kidsdrawingapp/DrawingView.kt:92-169 | Down at (10,10), move to (20,20), up gives one black stroke; undo moves it to the undone list; redo moves it back |
| `Canvas.CustomPath.constructor` | app/src/main/java/com/example/kidsdrawingapp/DrawingView.kt:174-175 | A new path is empty and carries the given colour and thickness |
| `Canvas.AppendKeepsUnique` | app/src/main/java/com/example/kidsdrawingapp/DrawingView.kt:119-122 | Committing a path object that is in neither list keeps every path object in at most one place |
| `Canvas.ValuesAt` | app/src/main/java/com/example/kidsdrawingapp/DrawingView.kt:72-76 | The i-th stroke read back from the list of path objects is the current stroke of the i-th object, so the committed strokes are drawn in list order |
| `Canvas.MoveLast` | app/src/main/java/com/example/kidsdrawingapp/DrawingView.kt:158-169 | Moving the last path object of one list to the end of the other keeps every object in one place, keeps the current path out of both lists, and moves that object's stroke with it |
| `Canvas.DrawingView.constructor` | app/src/main/java/com/example/kidsdrawingapp/DrawingView.kt:27-38 | The new view is valid, its current path is a newly allocated object, and its state is `Strokes.Initial` |
| `Canvas.DrawingView.OnTouchEvent` | app/src/main/java/com/example/kidsdrawingapp/DrawingView.kt:92-136 | The new state and the returned flag are those of `Strokes.HandleTouch`; the invariant holds |
| `Canvas.DrawingView.Down` | app/src/main/java/com/example/kidsdrawingapp/DrawingView.kt:98-109 | Mutating the current path in place moves the state as `Strokes.TouchDown` does and leaves committed strokes alone |
| `Canvas.DrawingView.Move` | app/src/main/java/com/example/kidsdrawingapp/DrawingView.kt:110-117 | Extending the current path in place moves the state as `Strokes.TouchMove` does |
| `Canvas.DrawingView.Up` | app/src/main/java/com/example/kidsdrawingapp/DrawingView.kt:118-123 | Committing the path object and allocating a fresh one moves the state as `Strokes.TouchUp` does; the invariant holds |
| `Canvas.DrawingView.SetSizeForBrush` | app/src/main/java/com/example/kidsdrawingapp/DrawingView.kt:147-152 | The state moves as `Strokes.ChangeBrushSize` does; the invariant holds |
| `Canvas.DrawingView.SetColor` | app/src/main/java/com/example/kidsdrawingapp/DrawingView.kt:153-156 | The state moves as `Strokes.ChangeColor` does; the invariant holds |
| `Canvas.DrawingView.OnClickUndo` | app/src/main/java/com/example/kidsdrawingapp/DrawingView.kt:158-163 | The state moves as `Strokes.Undo` does; the invariant holds |
| `Canvas.DrawingView.OnClickRedo` | app/src/main/java/com/example/kidsdrawingapp/DrawingView.kt:164-169 | The state moves as `Strokes.Redo` does; the invariant holds |

## Left out

- Pixels: the bitmap made in `onSizeChanged`, `drawBitmap`, and the rasterising done by `drawPath`. These are platform graphics calls. `Render` stops at the ordered list of draw calls, each with the paint colour and stroke width set just before it.
- The `Paint` object's own state. The brush setters and `onDraw` write its colour and width, but every draw call sets both just before drawing. Only those values matter, and `DrawOp` records them.
- `ChangeBrushSize` and `SetSizeForBrush` take the size already in pixels. The dp-to-pixel conversion through the display metrics is floating-point platform code.
- `ChangeColor` and `SetColor` take the colour already parsed to an int. `Color.parseColor`, and the exception it throws on a malformed string, are platform code.
- Touch coordinates are integers rather than floats.
- Path internals: the platform path implicitly starts at the origin when a line is added to an empty path, so a move with no preceding down would also draw from (0,0). The model records only the touch positions.
- `invalidate()` is only a redraw request. It changes no state of the view.
- The screen controller (MainActivity.kt) is not part of this model. It holds permissions, the gallery picker, the brush and colour dialogs, palette highlighting, image export on a background thread, and sharing.
