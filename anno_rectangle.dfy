/**
 * A rectangle annotation on a spectrum: its corners in world coordinates,
 * its corners on the canvas as last drawn, the snapshot a hit takes before a
 * drag, the handle grabbed, and the moves that drag the whole rectangle or
 * one corner.
 */
module Annotations {

  /** The four coordinates of a rectangle: corner (x1, y1) and corner (x2, y2). */
  datatype Corners = Corners(x1: real, y1: real, x2: real, y2: real)

  /** Rectangle2D.contains: the point lies in the box, edges included. */
  predicate InBox(minX: real, minY: real, maxX: real, maxY: real, x: real, y: real)
  {
    minX <= x <= maxX && minY <= y <= maxY
  }

  /**
   * The corners after a drag by (dx, dy) from the snapshot s: with no handle
   * all four coordinates move; handle 0, 1, 2 or 3 moves only corner
   * (x1, y1), (x1, y2), (x2, y2) or (x2, y1). moveX and moveY are the
   * position types' moves.
   */
  function Moved(handle: int, c: Corners, s: Corners, dx: real, dy: real,
                 moveX: (real, real) -> real, moveY: (real, real) -> real): Corners
  {
    if handle < 0 then Corners(moveX(s.x1, dx), moveY(s.y1, dy), moveX(s.x2, dx), moveY(s.y2, dy))
    else if handle == 0 then c.(x1 := moveX(s.x1, dx), y1 := moveY(s.y1, dy))
    else if handle == 1 then c.(x1 := moveX(s.x1, dx), y2 := moveY(s.y2, dy))
    else if handle == 2 then c.(x2 := moveX(s.x2, dx), y2 := moveY(s.y2, dy))
    else if handle == 3 then c.(x2 := moveX(s.x2, dx), y1 := moveY(s.y1, dy))
    else c
  }

  function Min(a: real, b: real): real { if a <= b then a else b }

  function Max(a: real, b: real): real { if a <= b then b else a }

  class AnnoRectangle {
    var x1: real
    var y1: real
    var x2: real
    var y2: real
    var xp1: real
    var yp1: real
    var xp2: real
    var yp2: real
    var width: real
    var height: real
    var activeHandle: int
    var startX1: real
    var startY1: real
    var startX2: real
    var startY2: real
    var selectable: bool
    var selected: bool

    /** The canvas corners are ordered and the handle is one of the four corners or none. */
    predicate Valid()
      reads this
    {
      xp1 <= xp2 && yp1 <= yp2 && -1 <= activeHandle <= 3
    }

    function Coords(): Corners
      reads this
    {
      Corners(x1, y1, x2, y2)
    }

    function Start(): Corners
      reads this
    {
      Corners(startX1, startY1, startX2, startY2)
    }

    constructor(x1: real, y1: real, x2: real, y2: real, selectable: bool)
      ensures Valid()
      ensures Coords() == Corners(x1, y1, x2, y2) && activeHandle == -1
      ensures this.selectable == selectable && !selected
    {
      this.x1 := x1;
      this.y1 := y1;
      this.x2 := x2;
      this.y2 := y2;
      xp1, yp1, xp2, yp2 := 0.0, 0.0, 0.0, 0.0;
      width, height := 0.0, 0.0;
      activeHandle := -1;
      startX1, startY1, startX2, startY2 := 0.0, 0.0, 0.0, 0.0;
      this.selectable := selectable;
      selected := false;
    }

    function GetX1(): real reads this { x1 }
    function GetY1(): real reads this { y1 }
    function GetX2(): real reads this { x2 }
    function GetY2(): real reads this { y2 }

    /** setX1: the getter returns the value set; nothing else changes. */
    method SetX1(v: real)
      modifies this`x1
      ensures GetX1() == v
    {
      x1 := v;
    }

    method SetY1(v: real)
      modifies this`y1
      ensures GetY1() == v
    {
      y1 := v;
    }

    method SetX2(v: real)
      modifies this`x2
      ensures GetX2() == v
    {
      x2 := v;
    }

    method SetY2(v: real)
      modifies this`y2
      ensures GetY2() == v
    {
      y2 := v;
    }

    /**
     * hit: whether (x, y) lies in the rectangle as last drawn. A hit
     * snapshots the corners for a later move; in select mode a selectable
     * rectangle becomes selected exactly when hit.
     */
    method Hit(x: real, y: real, selectMode: bool) returns (hit: bool)
      requires Valid()
      modifies this`startX1, this`startY1, this`startX2, this`startY2, this`selected
      ensures Valid()
      ensures hit <==> InBox(xp1, yp1, xp2, yp2, x, y)
      ensures Start() == if hit then Coords() else old(Start())
      ensures selected == if selectMode && selectable then hit else old(selected)
    {
      var w := xp2 - xp1;
      var h := yp2 - yp1;
      hit := false;
      if InBox(xp1, yp1, xp1 + w, yp1 + h, x, y) {
        hit := true;
      }
      if hit {
        startX1 := x1;
        startX2 := x2;
        startY1 := y1;
        startY2 := y2;
      }
      if selectMode && selectable {
        selected := hit;
      }
    }

    /**
     * The canvas part of draw: the corners through the position types'
     * transforms, ordered so that (xp1, yp1) is the smaller corner, with the
     * width and height the absolute differences.
     */
    method Draw(transformX: real -> real, transformY: real -> real)
      requires -1 <= activeHandle <= 3
      modifies this`xp1, this`yp1, this`xp2, this`yp2, this`width, this`height
      ensures Valid()
      ensures xp1 == Min(transformX(x1), transformX(x2)) && xp2 == Max(transformX(x1), transformX(x2))
      ensures yp1 == Min(transformY(y1), transformY(y2)) && yp2 == Max(transformY(y1), transformY(y2))
      ensures width == xp2 - xp1 && height == yp2 - yp1
    {
      var px1, py1, px2, py2 := transformX(x1), transformY(y1), transformX(x2), transformY(y2);
      width := if px2 - px1 < 0.0 then px1 - px2 else px2 - px1;
      height := if py2 - py1 < 0.0 then py1 - py2 else py2 - py1;
      if px1 > px2 {
        px1, px2 := px2, px1;
      }
      if py1 > py2 {
        py1, py2 := py2, py1;
      }
      xp1, yp1, xp2, yp2 := px1, py1, px2, py2;
    }

    /**
     * hitHandle: the first corner handle near (x, y), in the order (xp1, yp1),
     * (xp1, yp2), (xp2, yp2), (xp2, yp1), or -1; the result becomes the
     * active handle. near is the shape's handle hit test.
     */
    method HitHandle(x: real, y: real, near: (real, real, real, real) -> bool) returns (handle: int)
      requires Valid()
      modifies this`activeHandle
      ensures Valid() && handle == activeHandle
      ensures handle == 0 <==> near(x, y, xp1, yp1)
      ensures handle == 1 <==> !near(x, y, xp1, yp1) && near(x, y, xp1, yp2)
      ensures handle == 2 <==> !near(x, y, xp1, yp1) && !near(x, y, xp1, yp2) && near(x, y, xp2, yp2)
      ensures handle == 3 <==> !near(x, y, xp1, yp1) && !near(x, y, xp1, yp2) && !near(x, y, xp2, yp2)
                                && near(x, y, xp2, yp1)
      ensures handle == -1 <==> !near(x, y, xp1, yp1) && !near(x, y, xp1, yp2) && !near(x, y, xp2, yp2)
                                 && !near(x, y, xp2, yp1)
    {
      if near(x, y, xp1, yp1) {
        activeHandle := 0;
      } else if near(x, y, xp1, yp2) {
        activeHandle := 1;
      } else if near(x, y, xp2, yp2) {
        activeHandle := 2;
      } else if near(x, y, xp2, yp1) {
        activeHandle := 3;
      } else {
        activeHandle := -1;
      }
      handle := activeHandle;
    }

    /** move: drags the rectangle (no active handle) or the active corner by pos - start from the snapshot. */
    method Move(start: (real, real), pos: (real, real), moveX: (real, real) -> real, moveY: (real, real) -> real)
      modifies this`x1, this`y1, this`x2, this`y2
      ensures Coords() == Moved(activeHandle, old(Coords()), Start(), pos.0 - start.0, pos.1 - start.1, moveX, moveY)
    {
      var dx := pos.0 - start.0;
      var dy := pos.1 - start.1;
      if activeHandle < 0 {
        x1 := moveX(startX1, dx);
        x2 := moveX(startX2, dx);
        y1 := moveY(startY1, dy);
        y2 := moveY(startY2, dy);
      } else if activeHandle == 0 {
        x1 := moveX(startX1, dx);
        y1 := moveY(startY1, dy);
      } else if activeHandle == 1 {
        x1 := moveX(startX1, dx);
        y2 := moveY(startY2, dy);
      } else if activeHandle == 2 {
        x2 := moveX(startX2, dx);
        y2 := moveY(startY2, dy);
      } else if activeHandle == 3 {
        x2 := moveX(startX2, dx);
        y1 := moveY(startY1, dy);
      }
    }
  }

  /** Whether a move function shifts every coordinate by the delta (a world-coordinate move). */
  ghost predicate Translates(move: (real, real) -> real)
  {
    forall v: real, d: real {:trigger move(v, d)} :: move(v, d) == v + d
  }

  /**
   * Dragging with no handle translates the snapshot: the size is kept. A
   * handle moves its own corner with the drag and leaves the opposite corner
   * where it was.
   */
  lemma {:induction false} MoveKeepsShape(handle: int, c: Corners, s: Corners, dx: real, dy: real,
                                          moveX: (real, real) -> real, moveY: (real, real) -> real)
    requires Translates(moveX) && Translates(moveY) && -1 <= handle <= 3
    ensures var m := Moved(handle, c, s, dx, dy, moveX, moveY);
      (handle < 0 ==> m.x2 - m.x1 == s.x2 - s.x1 && m.y2 - m.y1 == s.y2 - s.y1 && m.x1 == s.x1 + dx && m.y1 == s.y1 + dy)
      && (handle == 0 ==> m == Corners(s.x1 + dx, s.y1 + dy, c.x2, c.y2))
      && (handle == 1 ==> m == Corners(s.x1 + dx, c.y1, c.x2, s.y2 + dy))
      && (handle == 2 ==> m == Corners(c.x1, c.y1, s.x2 + dx, s.y2 + dy))
      && (handle == 3 ==> m == Corners(c.x1, s.y1 + dy, s.x2 + dx, c.y2))
  {
    assert moveX(s.x1, dx) == s.x1 + dx && moveX(s.x2, dx) == s.x2 + dx;
    assert moveY(s.y1, dy) == s.y1 + dy && moveY(s.y2, dy) == s.y2 + dy;
  }
}
