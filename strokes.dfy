// The stroke history of the drawing canvas, as values.
//
// A View is everything the canvas remembers between events: the stroke being
// drawn, the current brush, the committed strokes (drawn on screen) and the
// undone strokes (available for redo). Every public operation of the canvas is
// a function from one View to the next; Render is the ordered list of strokes
// that a redraw hands to the graphics layer.

module Strokes {

  /** A touch position (the platform reports floats; integers are enough here). */
  datatype Point = Point(x: int, y: int)

  /** android.graphics.Color.BLACK, the packed ARGB value 0xFF000000 read as a signed 32-bit int. */
  const BLACK: int := -16777216

  /** MotionEvent action codes. */
  const ACTION_DOWN: int := 0
  const ACTION_UP: int := 1
  const ACTION_MOVE: int := 2

  datatype Option<T> = None | Some(value: T)

  /** The part of a touch event the canvas reads: its action and position. */
  datatype MotionEvent = MotionEvent(action: int, x: int, y: int)

  /** A path with the colour and thickness it is drawn with. */
  datatype Stroke = Stroke(points: seq<Point>, color: int, brushThickness: real)

  /**
   * The canvas state: the in-progress stroke, the brush (colour and size in
   * pixels), the committed strokes in drawing order and the undone strokes,
   * the most recently undone last.
   */
  datatype View = View(drawPath: Stroke, color: int, brushSize: real,
                       paths: seq<Stroke>, undoPaths: seq<Stroke>)

  /** One drawPath call: the path and the paint's stroke width and colour at that moment. */
  datatype DrawOp = DrawOp(points: seq<Point>, color: int, strokeWidth: real)

  function Last<T>(s: seq<T>): T
    requires s != []
  {
    s[|s| - 1]
  }

  /** A fresh, empty path carrying the given brush. */
  function EmptyStroke(color: int, brushThickness: real): Stroke
  {
    Stroke([], color, brushThickness)
  }

  /** The state right after construction: black brush of size 0, nothing drawn. */
  function Initial(): (v: View)
    ensures v.paths == [] && v.undoPaths == []
    ensures v.drawPath.points == []
    ensures v.drawPath.color == v.color == BLACK
    ensures v.drawPath.brushThickness == v.brushSize == 0.0
  {
    View(EmptyStroke(BLACK, 0.0), BLACK, 0.0, [], [])
  }

  // ---------------------------------------------------------------------------
  // Touch handling

  /** Finger down: restyle the in-progress path with the brush and restart it at p. */
  function TouchDown(v: View, p: Point): (r: View)
    ensures r.drawPath.points == [p]
    ensures r.drawPath.color == v.color && r.drawPath.brushThickness == v.brushSize
    ensures r.paths == v.paths && r.undoPaths == v.undoPaths
    ensures r.color == v.color && r.brushSize == v.brushSize
  {
    v.(drawPath := Stroke([p], v.color, v.brushSize))
  }

  /** Finger move: extend the in-progress path to p, whether or not a down preceded it. */
  function TouchMove(v: View, p: Point): (r: View)
    ensures |r.drawPath.points| == |v.drawPath.points| + 1
    ensures r.drawPath.points[..|v.drawPath.points|] == v.drawPath.points
    ensures Last(r.drawPath.points) == p
    ensures r.drawPath.color == v.drawPath.color
    ensures r.drawPath.brushThickness == v.drawPath.brushThickness
    ensures r.paths == v.paths && r.undoPaths == v.undoPaths
    ensures r.color == v.color && r.brushSize == v.brushSize
  {
    v.(drawPath := v.drawPath.(points := v.drawPath.points + [p]))
  }

  /**
   * Finger up: commit the in-progress path, whatever it holds, and start an
   * empty one with the current brush. The undone strokes stay available.
   */
  function TouchUp(v: View): (r: View)
    ensures |r.paths| == |v.paths| + 1
    ensures r.paths[..|v.paths|] == v.paths && Last(r.paths) == v.drawPath
    ensures r.drawPath == EmptyStroke(v.color, v.brushSize)
    ensures r.undoPaths == v.undoPaths
    ensures r.color == v.color && r.brushSize == v.brushSize
  {
    v.(paths := v.paths + [v.drawPath], drawPath := EmptyStroke(v.color, v.brushSize))
  }

  /** The action codes the canvas reacts to. */
  predicate Handles(e: Option<MotionEvent>)
  {
    e.Some? && (e.value.action == ACTION_DOWN || e.value.action == ACTION_MOVE || e.value.action == ACTION_UP)
  }

  /**
   * onTouchEvent: the new state and whether the event was consumed. A missing
   * event or any other action is refused and changes nothing.
   */
  function HandleTouch(v: View, e: Option<MotionEvent>): (r: (View, bool))
    ensures r.1 <==> Handles(e)
    ensures !r.1 ==> r.0 == v
    ensures r.0.undoPaths == v.undoPaths
    ensures r.0.color == v.color && r.0.brushSize == v.brushSize
  {
    match e
    case None => (v, false)
    case Some(ev) =>
      if ev.action == ACTION_DOWN then (TouchDown(v, Point(ev.x, ev.y)), true)
      else if ev.action == ACTION_MOVE then (TouchMove(v, Point(ev.x, ev.y)), true)
      else if ev.action == ACTION_UP then (TouchUp(v), true)
      else (v, false)
  }

  // ---------------------------------------------------------------------------
  // Undo, redo and the brush

  /** Move the last committed stroke onto the undone stack; nothing to do when none is committed. */
  function Undo(v: View): (r: View)
    ensures v.paths == [] ==> r == v
    ensures v.paths != [] ==> r.paths + [Last(v.paths)] == v.paths
    ensures v.paths != [] ==> r.undoPaths == v.undoPaths + [Last(v.paths)]
    ensures r.drawPath == v.drawPath && r.color == v.color && r.brushSize == v.brushSize
  {
    if |v.paths| > 0 then
      var n := |v.paths| - 1;
      v.(paths := v.paths[..n], undoPaths := v.undoPaths + [v.paths[n]])
    else
      v
  }

  /** Move the most recently undone stroke back to the end of the committed strokes. */
  function Redo(v: View): (r: View)
    ensures v.undoPaths == [] ==> r == v
    ensures v.undoPaths != [] ==> r.undoPaths + [Last(v.undoPaths)] == v.undoPaths
    ensures v.undoPaths != [] ==> r.paths == v.paths + [Last(v.undoPaths)]
    ensures r.drawPath == v.drawPath && r.color == v.color && r.brushSize == v.brushSize
  {
    if |v.undoPaths| > 0 then
      var n := |v.undoPaths| - 1;
      v.(paths := v.paths + [v.undoPaths[n]], undoPaths := v.undoPaths[..n])
    else
      v
  }

  /** setColor: only the brush colour changes; strokes already started keep theirs. */
  function ChangeColor(v: View, newColor: int): (r: View)
    ensures r.color == newColor
    ensures r.drawPath == v.drawPath && r.paths == v.paths && r.undoPaths == v.undoPaths
    ensures r.brushSize == v.brushSize
  {
    v.(color := newColor)
  }

  /** setSizeForBrush, given the size already converted to pixels. */
  function ChangeBrushSize(v: View, px: real): (r: View)
    ensures r.brushSize == px
    ensures r.drawPath == v.drawPath && r.paths == v.paths && r.undoPaths == v.undoPaths
    ensures r.color == v.color
  {
    v.(brushSize := px)
  }

  // ---------------------------------------------------------------------------
  // Rendering

  function DrawOf(s: Stroke): DrawOp
  {
    DrawOp(s.points, s.color, s.brushThickness)
  }

  /** The committed strokes' draw calls, one per stroke, in insertion order, each in its own style. */
  function RenderPaths(ps: seq<Stroke>): (r: seq<DrawOp>)
    ensures |r| == |ps|
    ensures forall i :: 0 <= i < |ps| ==> r[i] == DrawOf(ps[i])
  {
    if ps == [] then [] else RenderPaths(ps[..|ps| - 1]) + [DrawOf(Last(ps))]
  }

  /**
   * onDraw: the committed strokes in order, then the in-progress stroke on top
   * when it has any points.
   */
  function Render(v: View): (r: seq<DrawOp>)
    ensures |r| == |v.paths| + (if v.drawPath.points == [] then 0 else 1)
    ensures forall i :: 0 <= i < |v.paths| ==> r[i] == DrawOf(v.paths[i])
    ensures v.drawPath.points != [] ==> Last(r) == DrawOf(v.drawPath)
  {
    RenderPaths(v.paths) + (if v.drawPath.points == [] then [] else [DrawOf(v.drawPath)])
  }

  // ---------------------------------------------------------------------------
  // Sequences of calls

  /** A call into the canvas from the screen controller or the touch system. */
  datatype Command =
    | Touch(event: Option<MotionEvent>)
    | UndoClick
    | RedoClick
    | ColorPick(newColor: int)
    | BrushPick(px: real)

  function Apply(v: View, c: Command): View
  {
    match c
    case Touch(e) => HandleTouch(v, e).0
    case UndoClick => Undo(v)
    case RedoClick => Redo(v)
    case ColorPick(k) => ChangeColor(v, k)
    case BrushPick(px) => ChangeBrushSize(v, px)
  }

  function Run(v: View, cs: seq<Command>): View
    decreases |cs|
  {
    if cs == [] then v else Run(Apply(v, cs[0]), cs[1..])
  }

  predicate IsTouchUp(c: Command)
  {
    c.Touch? && c.event.Some? && c.event.value.action == ACTION_UP
  }

  predicate IsTouchDown(c: Command)
  {
    c.Touch? && c.event.Some? && c.event.value.action == ACTION_DOWN
  }

  function CountUps(cs: seq<Command>): nat
  {
    if cs == [] then 0 else (if IsTouchUp(cs[0]) then 1 else 0) + CountUps(cs[1..])
  }

  // ---------------------------------------------------------------------------
  // Properties

  /** Undo and redo move a stroke between the lists: none is lost, duplicated or altered. */
  lemma UndoRedoKeepStrokes(v: View)
    ensures multiset(Undo(v).paths) + multiset(Undo(v).undoPaths) == multiset(v.paths) + multiset(v.undoPaths)
    ensures multiset(Redo(v).paths) + multiset(Redo(v).undoPaths) == multiset(v.paths) + multiset(v.undoPaths)
  {
  }

  /** Undo then redo puts back both lists exactly. */
  lemma UndoThenRedo(v: View)
    requires v.paths != []
    ensures Redo(Undo(v)) == v
  {
  }

  /** Redo then undo puts back both lists exactly. */
  lemma RedoThenUndo(v: View)
    requires v.undoPaths != []
    ensures Undo(Redo(v)) == v
  {
  }

  /**
   * Touch events alone never touch the undone strokes, and the committed list
   * only grows at its end, by one stroke per finger-up.
   */
  lemma {:induction false} TouchesCommitOnePerUp(v: View, cs: seq<Command>)
    requires forall i :: 0 <= i < |cs| ==> cs[i].Touch?
    ensures |Run(v, cs).paths| == |v.paths| + CountUps(cs)
    ensures v.paths <= Run(v, cs).paths
    ensures Run(v, cs).undoPaths == v.undoPaths
    decreases |cs|
  {
    if cs != [] {
      var w := Apply(v, cs[0]);
      assert v.paths <= w.paths;
      TouchesCommitOnePerUp(w, cs[1..]);
    }
  }

  /** No call ever loses or alters a committed or undone stroke. */
  lemma {:induction false} StrokesNeverLost(v: View, cs: seq<Command>)
    ensures multiset(v.paths) + multiset(v.undoPaths)
         <= multiset(Run(v, cs).paths) + multiset(Run(v, cs).undoPaths)
    decreases |cs|
  {
    if cs != [] {
      var w := Apply(v, cs[0]);
      var before := multiset(v.paths) + multiset(v.undoPaths);
      var after := multiset(w.paths) + multiset(w.undoPaths);
      match cs[0] {
        case Touch(e) =>
          if IsTouchUp(cs[0]) {
            assert w.paths == v.paths + [v.drawPath];
            assert after == before + multiset{v.drawPath};
          } else {
            assert w.paths == v.paths && w.undoPaths == v.undoPaths;
          }
        case UndoClick => UndoRedoKeepStrokes(v);
        case RedoClick => UndoRedoKeepStrokes(v);
        case ColorPick(_) =>
        case BrushPick(_) =>
      }
      assert before <= after;
      StrokesNeverLost(w, cs[1..]);
    }
  }

  /**
   * Between a finger-down and the next finger-up, nothing restyles the
   * in-progress stroke or drops its points: not a brush change, not undo, not
   * redo, not a move.
   */
  lemma {:induction false} MidStrokeKeepsStyle(v: View, cs: seq<Command>)
    requires forall i :: 0 <= i < |cs| ==> !IsTouchDown(cs[i]) && !IsTouchUp(cs[i])
    ensures Run(v, cs).drawPath.color == v.drawPath.color
    ensures Run(v, cs).drawPath.brushThickness == v.drawPath.brushThickness
    ensures v.drawPath.points <= Run(v, cs).drawPath.points
    decreases |cs|
  {
    if cs != [] {
      var w := Apply(v, cs[0]);
      assert v.drawPath.points <= w.drawPath.points;
      MidStrokeKeepsStyle(w, cs[1..]);
    }
  }

  /**
   * A committed stroke carries the brush that was current at its finger-down
   * and starts at the finger-down position, whatever brush changes happened
   * while it was drawn.
   */
  lemma StyleStampedAtDown(v: View, down: Point, cs: seq<Command>, up: Point)
    requires forall i :: 0 <= i < |cs| ==> !IsTouchDown(cs[i]) && !IsTouchUp(cs[i])
    ensures var d := Apply(v, Touch(Some(MotionEvent(ACTION_DOWN, down.x, down.y))));
            var w := Apply(Run(d, cs), Touch(Some(MotionEvent(ACTION_UP, up.x, up.y))));
            w.paths != [] && Last(w.paths).color == v.color
            && Last(w.paths).brushThickness == v.brushSize
            && Last(w.paths).points != [] && Last(w.paths).points[0] == down
  {
    var d := Apply(v, Touch(Some(MotionEvent(ACTION_DOWN, down.x, down.y))));
    MidStrokeKeepsStyle(d, cs);
  }

  /**
   * The redo stack survives a new stroke: after undo and a new finger-up, redo
   * puts the undone stroke back after the new one.
   */
  lemma RedoAfterNewStroke(v: View)
    requires v.paths != []
    ensures var u := Undo(v);
            var w := TouchUp(u);
            w.undoPaths == u.undoPaths != []
            && Redo(w).paths == v.paths[..|v.paths| - 1] + [v.drawPath, Last(v.paths)]
  {
  }

  /** Brush changes do not alter anything drawn, not even the in-progress stroke. */
  lemma BrushChangesKeepRender(v: View, k: int, px: real)
    ensures Render(ChangeColor(v, k)) == Render(v)
    ensures Render(ChangeBrushSize(v, px)) == Render(v)
  {
  }

  /** With no stroke in progress, undo removes exactly the topmost draw call. */
  lemma UndoHidesLastStroke(v: View)
    requires v.paths != [] && v.drawPath.points == []
    ensures Render(Undo(v)) == Render(v)[..|Render(v)| - 1]
  {
  }

  /** Down at (10,10), move to (20,20), up; then undo; then redo. */
  lemma Scenario()
    ensures var s1 := Stroke([Point(10, 10), Point(20, 20)], BLACK, 0.0);
            var v1 := Run(Initial(), [Touch(Some(MotionEvent(ACTION_DOWN, 10, 10))),
                                      Touch(Some(MotionEvent(ACTION_MOVE, 20, 20))),
                                      Touch(Some(MotionEvent(ACTION_UP, 20, 20)))]);
            var v2 := Undo(v1);
            var v3 := Redo(v2);
            v1.paths == [s1] && v1.undoPaths == []
            && v2.paths == [] && v2.undoPaths == [s1]
            && v3.paths == [s1] && v3.undoPaths == []
  {
    var cs := [Touch(Some(MotionEvent(ACTION_DOWN, 10, 10))),
               Touch(Some(MotionEvent(ACTION_MOVE, 20, 20))),
               Touch(Some(MotionEvent(ACTION_UP, 20, 20)))];
    var a := Apply(Initial(), cs[0]);
    var b := Apply(a, cs[1]);
    assert a.drawPath == Stroke([Point(10, 10)], BLACK, 0.0);
    assert b.drawPath.points == [Point(10, 10)] + [Point(20, 20)] == [Point(10, 10), Point(20, 20)];
    assert b.paths == [];
    var c := Apply(b, cs[2]);
    assert c.paths == [] + [b.drawPath];
    assert Run(c, cs[3..]) == c;
    assert Run(b, cs[2..]) == c;
    assert Run(a, cs[1..]) == c;
    assert c.paths == [Stroke([Point(10, 10), Point(20, 20)], BLACK, 0.0)];
  }
}
