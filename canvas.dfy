// The drawing view as the objects it is made of.
//
// CustomPath is a mutable path that remembers its own colour and thickness.
// DrawingView holds the path being drawn, the brush, and two lists of path
// objects: the committed ones and the undone ones. Touch-up hands the very
// object it was drawing to the committed list and starts a new one, so no
// later event can restyle a committed stroke; Valid() states that invariant
// and Model() reads the objects back as a Strokes.View.

module Canvas {
  import opened Strokes

  class CustomPath {
    var color: int
    var brushThickness: real
    var points: seq<Point>

    constructor (color: int, brushThickness: real)
      ensures Value() == EmptyStroke(color, brushThickness)
    {
      this.color := color;
      this.brushThickness := brushThickness;
      points := [];
    }

    /** The stroke this path currently describes. */
    ghost function Value(): Stroke
      reads this
    {
      Stroke(points, color, brushThickness)
    }
  }

  /** The strokes a list of path objects describes, in the same order. */
  ghost function Values(ps: seq<CustomPath>): (r: seq<Stroke>)
    reads ps
    ensures |r| == |ps|
  {
    if ps == [] then [] else Values(ps[..|ps| - 1]) + [Last(ps).Value()]
  }

  /** Each stroke of Values(ps) is the stroke of the path object at the same index. */
  lemma {:induction false} ValuesAt(ps: seq<CustomPath>, i: int)
    requires 0 <= i < |ps|
    ensures Values(ps)[i] == ps[i].Value()
  {
    if i < |ps| - 1 {
      ValuesAt(ps[..|ps| - 1], i);
    }
  }

  lemma ValuesAppend(ps: seq<CustomPath>, p: CustomPath)
    ensures Values(ps + [p]) == Values(ps) + [p.Value()]
  {
  }

  /** No path object occurs more than once. */
  ghost predicate Unique(m: multiset<CustomPath>)
  {
    forall p | p in m :: m[p] == 1
  }

  /** Appending an object found in neither list keeps every object unique. */
  lemma AppendKeepsUnique(a: seq<CustomPath>, b: seq<CustomPath>, d: CustomPath)
    requires Unique(multiset(a) + multiset(b)) && d !in a && d !in b
    ensures Unique(multiset(a + [d]) + multiset(b))
  {
    var m := multiset(a) + multiset(b);
    assert multiset(a + [d]) + multiset(b) == m + multiset{d};
    forall p | p in m + multiset{d} ensures (m + multiset{d})[p] == 1 {
      if p == d {
        assert d !in m;
      }
    }
  }

  /**
   * Moving the last object of a to the end of b keeps every object unique,
   * keeps d out of both lists, and moves the last stroke with it. Undo passes
   * (committed, undone) and redo passes them swapped, so uniqueness is accepted
   * in either order of the two lists.
   */
  lemma MoveLast(a: seq<CustomPath>, b: seq<CustomPath>, d: CustomPath)
    requires a != [] && d !in a && d !in b
    requires Unique(multiset(a) + multiset(b)) || Unique(multiset(b) + multiset(a))
    ensures d !in a[..|a| - 1] && d !in b + [Last(a)]
    ensures Unique(multiset(a[..|a| - 1]) + multiset(b + [Last(a)]))
    ensures Unique(multiset(b + [Last(a)]) + multiset(a[..|a| - 1]))
    ensures Values(a[..|a| - 1]) == Values(a)[..|a| - 1]
    ensures Values(b + [Last(a)]) == Values(b) + [Last(a).Value()]
    ensures Values(a)[|a| - 1] == Last(a).Value()
  {
    var n := |a| - 1;
    assert multiset(a) + multiset(b) == multiset(b) + multiset(a);
    assert a == a[..n] + [a[n]];
    assert multiset(a[..n]) + multiset(b + [a[n]]) == multiset(a) + multiset(b);
    assert multiset(b + [a[n]]) + multiset(a[..n]) == multiset(a) + multiset(b);
    ValuesAppend(b, a[n]);
  }

  class DrawingView {
    var drawPath: CustomPath
    var brushSize: real
    var color: int
    var paths: seq<CustomPath>
    var undoPaths: seq<CustomPath>

    /**
     * The path being drawn belongs to neither list, and every committed or
     * undone path object sits in exactly one place.
     */
    ghost predicate Valid()
      reads this
    {
      drawPath !in paths && drawPath !in undoPaths && Unique(multiset(paths) + multiset(undoPaths))
    }

    ghost function Model(): View
      reads this, drawPath, paths, undoPaths
    {
      View(drawPath.Value(), color, brushSize, Values(paths), Values(undoPaths))
    }

    constructor ()
      ensures Valid() && fresh(drawPath) && Model() == Initial()
    {
      brushSize := 0.0;
      color := BLACK;
      paths := [];
      undoPaths := [];
      drawPath := new CustomPath(BLACK, 0.0);
    }

    /** onTouchEvent: down restarts the path with the brush, move extends it, up commits it. */
    method OnTouchEvent(event: Option<MotionEvent>) returns (handled: bool)
      requires Valid()
      modifies this, drawPath
      ensures Valid()
      ensures drawPath == old(drawPath) || fresh(drawPath)
      ensures (Model(), handled) == HandleTouch(old(Model()), event)
    {
      if event.None? {
        return false;
      }
      var e := event.value;
      if e.action == ACTION_DOWN {
        Down(Point(e.x, e.y));
      } else if e.action == ACTION_MOVE {
        Move(Point(e.x, e.y));
      } else if e.action == ACTION_UP {
        Up();
      } else {
        return false;
      }
      return true;
    }

    /** ACTION_DOWN: stamp the brush on the current path, clear it and move to p. */
    method Down(p: Point)
      requires Valid()
      modifies drawPath
      ensures Valid()
      ensures Model() == TouchDown(old(Model()), p)
    {
      drawPath.color := color;
      drawPath.brushThickness := brushSize;
      drawPath.points := [];
      drawPath.points := drawPath.points + [p];
      assert Values(paths) == old(Values(paths));
      assert Values(undoPaths) == old(Values(undoPaths));
    }

    /** ACTION_MOVE: a line from the last point to p. */
    method Move(p: Point)
      requires Valid()
      modifies drawPath
      ensures Valid()
      ensures Model() == TouchMove(old(Model()), p)
    {
      drawPath.points := drawPath.points + [p];
      assert Values(paths) == old(Values(paths));
      assert Values(undoPaths) == old(Values(undoPaths));
    }

    /** ACTION_UP: the current path object joins the committed list; a new one takes its place. */
    method Up()
      requires Valid()
      modifies this
      ensures Valid() && fresh(drawPath)
      ensures Model() == TouchUp(old(Model()))
    {
      ValuesAppend(paths, drawPath);
      AppendKeepsUnique(paths, undoPaths, drawPath);
      paths := paths + [drawPath];
      drawPath := new CustomPath(color, brushSize);
    }

    method SetSizeForBrush(px: real)
      requires Valid()
      modifies this`brushSize
      ensures Valid()
      ensures Model() == ChangeBrushSize(old(Model()), px)
    {
      brushSize := px;
    }

    method SetColor(newColor: int)
      requires Valid()
      modifies this`color
      ensures Valid()
      ensures Model() == ChangeColor(old(Model()), newColor)
    {
      color := newColor;
    }

    method OnClickUndo()
      requires Valid()
      modifies this`paths, this`undoPaths
      ensures Valid()
      ensures Model() == Undo(old(Model()))
    {
      if |paths| > 0 {
        ghost var before := Model();
        var n := |paths| - 1;
        var top := paths[n];
        MoveLast(paths, undoPaths, drawPath);
        assert Undo(before) == before.(paths := Values(paths[..n]), undoPaths := Values(undoPaths + [top]));
        paths, undoPaths := paths[..n], undoPaths + [top];
      }
    }

    method OnClickRedo()
      requires Valid()
      modifies this`paths, this`undoPaths
      ensures Valid()
      ensures Model() == Redo(old(Model()))
    {
      if |undoPaths| > 0 {
        ghost var before := Model();
        var n := |undoPaths| - 1;
        var top := undoPaths[n];
        MoveLast(undoPaths, paths, drawPath);
        assert Redo(before) == before.(paths := Values(paths + [top]), undoPaths := Values(undoPaths[..n]));
        paths, undoPaths := paths + [top], undoPaths[..n];
      }
    }
  }
}
