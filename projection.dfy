/**
  The isometric projection of a grid point onto the 1200x800 window. The
  cosine and sine of the turn angle are supplied from outside, so everything
  else is exact real arithmetic; the final conversion to pixels truncates
  toward zero as Python's int() does.
*/
module Projection {
  import opened Numbers
  import opened CameraState

  const WindowWidth: int := 1200
  const WindowHeight: int := 800

  datatype ScreenPoint = ScreenPoint(x: int, y: int)

  /** The trigonometric functions the projection evaluates at the camera's turn angle. */
  datatype Trig = Trig(cos: real -> real, sin: real -> real)

  /** The window centre before panning: the integer halves of the window size. */
  function CentreX(): (cx: int)
    ensures 2 * cx == WindowWidth
  {
    WindowWidth / 2
  }

  function CentreY(): (cy: int)
    ensures 2 * cy == WindowHeight
  {
    WindowHeight / 2
  }

  /** The pre-truncation horizontal screen coordinate of grid point (x, y). */
  function IsoX(x: int, y: int, cam: Camera, trig: Trig): real {
    var c, s := trig.cos(cam.angleY), trig.sin(cam.angleY);
    var rx := x as real * c - y as real * s;
    var ry := x as real * s + y as real * c;
    (rx - ry) * cam.scale + CentreX() as real + cam.offsetX as real
  }

  /** The pre-truncation vertical screen coordinate of grid point (x, y) at height z. */
  function IsoY(x: int, y: int, z: int, cam: Camera, trig: Trig): real {
    var c, s := trig.cos(cam.angleY), trig.sin(cam.angleY);
    var rx := x as real * c - y as real * s;
    var ry := x as real * s + y as real * c;
    (rx + ry) * cam.scale * 0.5 - z as real * cam.scale + CentreY() as real + cam.offsetY as real
  }

  /**
    Grid point (x, y) at height z as a pixel: each coordinate is the exact
    projected coordinate truncated toward zero, so within one unit of it.
   */
  function Project(x: int, y: int, z: int, cam: Camera, trig: Trig): (p: ScreenPoint)
    ensures IsoX(x, y, cam, trig) - 1.0 < p.x as real < IsoX(x, y, cam, trig) + 1.0
    ensures IsoY(x, y, z, cam, trig) - 1.0 < p.y as real < IsoY(x, y, z, cam, trig) + 1.0
  {
    ScreenPoint(Trunc(IsoX(x, y, cam, trig)), Trunc(IsoY(x, y, z, cam, trig)))
  }

  /** The window rectangle in which the viewer draws a dot. */
  predicate OnScreen(p: ScreenPoint) {
    0 <= p.x < WindowWidth && 0 <= p.y < WindowHeight
  }

  /** The tilt angle is accepted but never read: only the turn angle rotates the grid. */
  lemma ProjectIgnoresAngleX(x: int, y: int, z: int, cam: Camera, trig: Trig, tilt: real)
    ensures Project(x, y, z, cam.(angleX := tilt), trig) == Project(x, y, z, cam, trig)
  {
    var tilted := cam.(angleX := tilt);
    assert IsoX(x, y, tilted, trig) == IsoX(x, y, cam, trig);
    assert IsoY(x, y, z, tilted, trig) == IsoY(x, y, z, cam, trig);
  }

  /** Heights move a point only vertically. */
  lemma ScreenXIgnoresHeight(x: int, y: int, z1: int, z2: int, cam: Camera, trig: Trig)
    ensures Project(x, y, z1, cam, trig).x == Project(x, y, z2, cam, trig).x
  {
  }

  /** The grid origin at height zero lands on the panned window centre for every scale and angle. */
  lemma ProjectOrigin(cam: Camera, trig: Trig)
    ensures Project(0, 0, 0, cam, trig) == ScreenPoint(600 + cam.offsetX, 400 + cam.offsetY)
  {
    TruncOfInt(600 + cam.offsetX);
    TruncOfInt(400 + cam.offsetY);
  }

  /** With a positive scale, a higher cell is drawn no lower on the screen (pixel rows grow downward). */
  lemma HigherIsUp(x: int, y: int, z1: int, z2: int, cam: Camera, trig: Trig)
    requires cam.scale > 0.0 && z1 <= z2
    ensures Project(x, y, z2, cam, trig).y <= Project(x, y, z1, cam, trig).y
  {
    assert z1 as real * cam.scale <= z2 as real * cam.scale;
    TruncMonotone(IsoY(x, y, z2, cam, trig), IsoY(x, y, z1, cam, trig));
  }

  /**
    Panning by d moves every point by d pixels, up to one pixel: truncation
    toward zero rounds the two sides of column 0 in opposite directions.
  */
  lemma PanShiftsPoint(x: int, y: int, z: int, cam: Camera, trig: Trig, d: int)
    ensures var p, q := Project(x, y, z, cam, trig), Project(x, y, z, cam.(offsetX := cam.offsetX + d), trig);
      q.y == p.y && p.x + d - 1 <= q.x <= p.x + d + 1
  {
    var panned := cam.(offsetX := cam.offsetX + d);
    var v := IsoX(x, y, cam, trig);
    assert IsoX(x, y, panned, trig) == v + d as real;
    assert IsoY(x, y, z, panned, trig) == IsoY(x, y, z, cam, trig);
    TruncShift(v, d);
  }

  /**
    The one-pixel slack is reachable: with the offset moved to -600, a point
    whose exact column lies strictly between 0 and 1 is drawn in column 0,
    and one press of A moves it only to column -1. Cell (1, 0) is such a
    point at the starting turn of 0.785, where cos exceeds sin by about
    0.0006, for every reachable scale: its column is (cos - sin) * scale.
  */
  lemma PanSlackExample(cam: Camera, trig: Trig)
    requires InRange(cam) && cam.offsetX == -600
    requires 0.0 < IsoX(1, 0, cam, trig) < 1.0
    ensures InRange(cam.(offsetX := -602))
    ensures Project(1, 0, 0, cam, trig).x == 0
    ensures Project(1, 0, 0, cam.(offsetX := -602), trig).x == -1
  {
    var v := IsoX(1, 0, cam, trig);
    TruncInUnit(v);
    var panned := cam.(offsetX := -602);
    assert panned.scale == cam.scale && panned.angleY == cam.angleY;
    assert IsoX(1, 0, panned, trig) == v - 2.0;
  }

  lemma TruncInUnit(v: real)
    requires 0.0 < v < 1.0
    ensures Trunc(v) == 0 && Trunc(v - 2.0) == -1
  {
    var n, m := Trunc(v), Trunc(v - 2.0);
    assert n as real <= v < n as real + 1.0;
    assert m as real - 1.0 < v - 2.0 <= m as real;
  }
}
