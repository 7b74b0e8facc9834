/**
  The view parameters of the main loop in fdf_viewer.py and their per-frame
  update from the held keys: W/S pan vertically, A/D horizontally, Q/E zoom,
  R/F tilt the X angle and T/G turn the Y angle, each clamped where the source
  clamps it. Floats are idealised as exact reals.
 */
module CameraState {
  import opened Numbers

  /** scale, offset_x, offset_y, angle_x, angle_y. */
  datatype Camera = Camera(scale: real, offsetX: int, offsetY: int, angleX: real, angleY: real)

  /** The ten keys the loop reads from pygame.key.get_pressed(), true when held. */
  datatype Keys = Keys(w: bool, s: bool, a: bool, d: bool, q: bool, e: bool, r: bool, f: bool, t: bool, g: bool)

  /** The starting scale: 600 // max(rows, cols) capped at 25 and raised to 10, or 15 for an empty grid. */
  function InitialScale(rows: nat, cols: nat): (scale: int)
    ensures 10 <= scale <= 25
    ensures rows == 0 || cols == 0 ==> scale == 15
    ensures rows > 0 && cols > 0 && Max(rows, cols) <= 60 ==> scale * Max(rows, cols) <= 600
    ensures rows > 0 && cols > 0 && 24 <= Max(rows, cols) <= 60 ==> scale == 600 / Max(rows, cols)
  {
    if rows > 0 && cols > 0 then
      var scale := Min(600 / Max(rows, cols), 25);
      if scale < 10 then 10 else scale
    else 15
  }

  /**
    The state before the first frame, for a grid of the given size: inside
    the ranges the loop keeps, at a whole scale from 10 to 25, not panned.
   */
  function Initial(rows: nat, cols: nat): (cam: Camera)
    ensures InRange(cam)
    ensures 10.0 <= cam.scale <= 25.0 && cam.scale == InitialScale(rows, cols) as real
    ensures cam.offsetX == 0 && cam.offsetY == 0
  {
    WholeIsHalfStep(InitialScale(rows, cols));
    Camera(InitialScale(rows, cols) as real, 0, 0, 0.5, 0.785)
  }

  /** An offset moved by 2 for each held key of a pair. */
  function Pan(v: int, minus: bool, plus: bool): int {
    v - (if minus then 2 else 0) + (if plus then 2 else 0)
  }

  /** max(lo, v - step) when the key is held. */
  function Lower(v: real, held: bool, step: real, lo: real): real {
    if held then MaxReal(lo, v - step) else v
  }

  /** min(hi, v + step) when the key is held. */
  function Raise(v: real, held: bool, step: real, hi: real): real {
    if held then MinReal(hi, v + step) else v
  }

  /**
    The state after one frame with `keys` held. Each pair is applied in the
    source's order: Q lowers the scale before E raises it, while R and T raise
    their angle before F and G lower it.
   */
  function Step(keys: Keys, c: Camera): (next: Camera)
    ensures Abs(next.offsetX - c.offsetX) <= 2 && Abs(next.offsetY - c.offsetY) <= 2
    ensures 5.0 <= c.scale <= 100.0 ==> -0.5 <= next.scale - c.scale <= 0.5
    ensures 0.1 <= c.angleX <= 1.5 ==> -0.02 <= next.angleX - c.angleX <= 0.02
    ensures 0.1 <= c.angleY <= 1.5 ==> -0.02 <= next.angleY - c.angleY <= 0.02
    ensures keys == Keys(false, false, false, false, false, false, false, false, false, false) ==> next == c
  {
    Camera(
      Raise(Lower(c.scale, keys.q, 0.5, 5.0), keys.e, 0.5, 100.0),
      Pan(c.offsetX, keys.a, keys.d),
      Pan(c.offsetY, keys.w, keys.s),
      Lower(Raise(c.angleX, keys.r, 0.02, 1.5), keys.f, 0.02, 0.1),
      Lower(Raise(c.angleY, keys.t, 0.02, 1.5), keys.g, 0.02, 0.1))
  }

  /** The key-handling block of the main loop, one `if` per key in source order. */
  method HandleKeys(keys: Keys, cam: Camera) returns (next: Camera)
    ensures next == Step(keys, cam)
  {
    var scale, offsetX, offsetY, angleX, angleY := cam.scale, cam.offsetX, cam.offsetY, cam.angleX, cam.angleY;
    if keys.w {
      offsetY := offsetY - 2;
    }
    if keys.s {
      offsetY := offsetY + 2;
    }
    assert offsetY == Pan(cam.offsetY, keys.w, keys.s);
    if keys.a {
      offsetX := offsetX - 2;
    }
    if keys.d {
      offsetX := offsetX + 2;
    }
    assert offsetX == Pan(cam.offsetX, keys.a, keys.d);
    if keys.q {
      scale := MaxReal(5.0, scale - 0.5);
    }
    if keys.e {
      scale := MinReal(100.0, scale + 0.5);
    }
    assert scale == Raise(Lower(cam.scale, keys.q, 0.5, 5.0), keys.e, 0.5, 100.0);
    if keys.r {
      angleX := MinReal(1.5, angleX + 0.02);
    }
    if keys.f {
      angleX := MaxReal(0.1, angleX - 0.02);
    }
    assert angleX == Lower(Raise(cam.angleX, keys.r, 0.02, 1.5), keys.f, 0.02, 0.1);
    if keys.t {
      angleY := MinReal(1.5, angleY + 0.02);
    }
    if keys.g {
      angleY := MaxReal(0.1, angleY - 0.02);
    }
    assert angleY == Lower(Raise(cam.angleY, keys.t, 0.02, 1.5), keys.g, 0.02, 0.1);
    next := Camera(scale, offsetX, offsetY, angleX, angleY);
  }

  /** The state after the frames, in order, starting from `c`. */
  function Run(c: Camera, frames: seq<Keys>): Camera {
    if frames == [] then c else Step(frames[|frames| - 1], Run(c, frames[..|frames| - 1]))
  }

  /** A whole number of halves: every scale the loop reaches, so its float arithmetic is exact. */
  predicate IsHalfStep(x: real) {
    (x * 2.0).Floor as real == x * 2.0
  }

  /**
    The ranges the loop keeps: the scale in [5, 100] and a multiple of 0.5,
    both angles in [0.1, 1.5], both offsets even.
   */
  predicate InRange(c: Camera) {
    && 5.0 <= c.scale <= 100.0 && IsHalfStep(c.scale)
    && 0.1 <= c.angleX <= 1.5 && 0.1 <= c.angleY <= 1.5
    && c.offsetX % 2 == 0 && c.offsetY % 2 == 0
  }

  /** Every whole number is on the half-step lattice. */
  lemma WholeIsHalfStep(n: int)
    ensures IsHalfStep(n as real)
  {
    assert n as real * 2.0 == (2 * n) as real;
  }

  /** Moving by half a unit keeps a value on the half-step lattice. */
  lemma HalfStepMove(x: real, d: real)
    requires IsHalfStep(x) && (d == 0.5 || d == -0.5)
    ensures IsHalfStep(x + d)
  {
    var n := (x * 2.0).Floor;
    var k: int := if d == 0.5 then 1 else -1;
    assert (x + d) * 2.0 == (n + k) as real;
  }

  lemma ZoomInRange(v: real, q: bool, e: bool)
    requires 5.0 <= v <= 100.0 && IsHalfStep(v)
    ensures var v' := Raise(Lower(v, q, 0.5, 5.0), e, 0.5, 100.0);
      5.0 <= v' <= 100.0 && IsHalfStep(v')
  {
    if q && v - 0.5 >= 5.0 {
      HalfStepMove(v, -0.5);
    }
    var lowered := Lower(v, q, 0.5, 5.0);
    if e && lowered + 0.5 <= 100.0 {
      HalfStepMove(lowered, 0.5);
    }
  }

  lemma AngleInRange(v: real, up: bool, down: bool)
    requires 0.1 <= v <= 1.5
    ensures 0.1 <= Lower(Raise(v, up, 0.02, 1.5), down, 0.02, 0.1) <= 1.5
  {
  }

  lemma StepInRange(keys: Keys, c: Camera)
    requires InRange(c)
    ensures InRange(Step(keys, c))
  {
    ZoomInRange(c.scale, keys.q, keys.e);
    AngleInRange(c.angleX, keys.r, keys.f);
    AngleInRange(c.angleY, keys.t, keys.g);
  }

  /** No sequence of frames takes the state out of range. */
  lemma {:induction false} RunInRange(c: Camera, frames: seq<Keys>)
    requires InRange(c)
    ensures InRange(Run(c, frames))
  {
    if frames != [] {
      RunInRange(c, frames[..|frames| - 1]);
      StepInRange(frames[|frames| - 1], Run(c, frames[..|frames| - 1]));
    }
  }

  /** From the start of a session, every reachable state is in range. */
  lemma SessionInRange(rows: nat, cols: nat, frames: seq<Keys>)
    ensures InRange(Run(Initial(rows, cols), frames))
  {
    RunInRange(Initial(rows, cols), frames);
  }

  /** An offset stays put exactly when both or neither key of its pair is held. */
  lemma OpposedPansCancel(keys: Keys, c: Camera)
    ensures Step(keys, c).offsetY == c.offsetY <==> keys.w == keys.s
    ensures Step(keys, c).offsetX == c.offsetX <==> keys.a == keys.d
  {
  }

  /** Holding Q and E together keeps the scale exactly when it is at least 5.5; below that the floor at 5 wins. */
  lemma ZoomPairNeutral(keys: Keys, c: Camera)
    requires InRange(c) && keys.q && keys.e
    ensures Step(keys, c).scale == c.scale <==> c.scale >= 5.5
  {
  }

  /** Holding R and F (or T and G) together keeps the angle exactly when it is at most 1.48; above that the cap at 1.5 wins. */
  lemma TiltPairNeutral(keys: Keys, c: Camera)
    requires InRange(c)
    ensures keys.r && keys.f ==> (Step(keys, c).angleX == c.angleX <==> c.angleX <= 1.48)
    ensures keys.t && keys.g ==> (Step(keys, c).angleY == c.angleY <==> c.angleY <= 1.48)
  {
  }

  /** Frames with only D held. */
  function HoldD(n: nat): (frames: seq<Keys>)
    ensures |frames| == n
  {
    if n == 0 then [] else HoldD(n - 1) + [Keys(false, false, false, true, false, false, false, false, false, false)]
  }

  /** Panning is not clamped: holding D for n frames moves the view right by exactly 2n. */
  lemma {:induction false} PanUnbounded(c: Camera, n: nat)
    ensures Run(c, HoldD(n)).offsetX == c.offsetX + 2 * n
    ensures Run(c, HoldD(n)).scale == c.scale
  {
    if n > 0 {
      PanUnbounded(c, n - 1);
      assert HoldD(n)[..n - 1] == HoldD(n - 1);
    }
  }
}
