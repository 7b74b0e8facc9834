/**
  The viewer's session from main in fdf_viewer.py, after the file has been
  read: the starting camera is chosen from the grid's size, then every frame
  applies the held keys and redraws the surface. Event polling is replaced by
  the list of the keys held in each frame; the session ends after the last.
*/
module Viewer {
  import opened Numbers
  import opened HeightGrid
  import opened CameraState
  import opened Projection
  import opened Mesh

  /** What frame k shows: the surface seen from the camera reached after the keys of frames 0 .. k. */
  function FrameView(heights: Grid, frames: seq<Keys>, trig: Trig, k: nat): seq<Primitive>
    requires Drawable(heights) && k < |frames|
  {
    Surface(heights, Run(Initial(|heights|, Cols(heights)), frames[..k + 1]), trig)
  }

  /** The first n frames drawn when the frames' keys are applied in turn from the start of the session. */
  function Frames(heights: Grid, frames: seq<Keys>, trig: Trig, n: nat): (drawn: seq<seq<Primitive>>)
    requires Drawable(heights) && n <= |frames|
    ensures |drawn| == n
    ensures forall k :: 0 <= k < n ==> drawn[k] == FrameView(heights, frames, trig, k)
  {
    if n == 0 then []
    else
      var earlier, last := Frames(heights, frames, trig, n - 1), FrameView(heights, frames, trig, n - 1);
      assert forall k :: 0 <= k < n - 1 ==> (earlier + [last])[k] == earlier[k];
      earlier + [last]
  }

  /**
    The session: the camera it ends with and, for each frame, the primitives
    drawn after that frame's keys were applied.
  */
  method RunViewer(heights: Grid, frames: seq<Keys>, trig: Trig) returns (cam: Camera, drawn: seq<seq<Primitive>>)
    requires Drawable(heights)
    ensures cam == Run(Initial(|heights|, Cols(heights)), frames)
    ensures drawn == Frames(heights, frames, trig, |frames|)
  {
    var rows := |heights|;
    var cols := if |heights| > 0 then |heights[0]| else 0;
    var scale: int;
    if rows > 0 && cols > 0 {
      scale := Min(600 / Max(rows, cols), 25);
      if scale < 10 {
        scale := 10;
      }
    } else {
      scale := 15;
    }
    cam := Camera(scale as real, 0, 0, 0.5, 0.785);
    ghost var start := cam;
    assert start == Initial(rows, cols);
    drawn := [];
    for i := 0 to |frames|
      invariant cam == Run(start, frames[..i])
      invariant drawn == Frames(heights, frames, trig, i)
    {
      assert frames[..i + 1][..i] == frames[..i];
      cam := HandleKeys(frames[i], cam);
      var prims := DrawSurface(heights, cam, trig);
      drawn := drawn + [prims];
    }
    assert frames[..|frames|] == frames;
  }

  /** Every frame of a session is drawn with the camera in range: scale in [5, 100], angles in [0.1, 1.5]. */
  lemma FramesInRange(heights: Grid, frames: seq<Keys>, i: nat)
    requires i <= |frames|
    ensures InRange(Run(Initial(|heights|, Cols(heights)), frames[..i]))
    ensures 5.0 <= Run(Initial(|heights|, Cols(heights)), frames[..i]).scale <= 100.0
  {
    SessionInRange(|heights|, Cols(heights), frames[..i]);
  }

  /** Before any key is pressed, the grid origin at height 0 is drawn at the window centre (600, 400). */
  lemma FirstFrameCentred(heights: Grid, trig: Trig)
    ensures Project(0, 0, 0, Initial(|heights|, Cols(heights)), trig) == ScreenPoint(600, 400)
  {
    ProjectOrigin(Initial(|heights|, Cols(heights)), trig);
  }
}
