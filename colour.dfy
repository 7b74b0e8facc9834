/**
  The height colouring of draw_3d_surface (fdf_viewer.py): a height is
  normalised against the grid's minimum and maximum, falls in one of three
  bands split at 0.33 and 0.66, and each channel is truncated with int() and
  clamped to [50, 255]. Floats are idealised as exact reals.
 */
module HeightColour {
  import opened Numbers

  datatype Rgb = Rgb(r: int, g: int, b: int)

  /** Every channel lies in [50, 255]. */
  predicate InGamut(c: Rgb) {
    50 <= c.r <= 255 && 50 <= c.g <= 255 && 50 <= c.b <= 255
  }

  /** The divisor: the spread of heights, forced to 1 when all heights are equal. */
  function HeightRange(minH: int, maxH: int): (range: int)
    ensures minH <= maxH ==> range > 0
    ensures minH == maxH ==> range == 1
  {
    if maxH != minH then maxH - minH else 1
  }

  /**
    The normalised height, with the source's 0.5 fallback for a non-positive
    range; a height inside the grid's span normalises into [0, 1], its
    minimum to 0 and, when the grid is not flat, its maximum to 1.
   */
  function Normalized(z: int, minH: int, maxH: int): (n: real)
    ensures minH <= z <= maxH ==> 0.0 <= n <= 1.0
    ensures z == minH && minH <= maxH ==> n == 0.0
    ensures z == maxH && minH < maxH ==> n == 1.0
  {
    var range := HeightRange(minH, maxH);
    if range > 0 then (z - minH) as real / range as real else 0.5
  }

  /**
    The 0.5 fallback is never taken: whenever minH <= maxH the height is
    normalised by the (possibly forced) range.
  */
  lemma FallbackNeverTaken(z: int, minH: int, maxH: int)
    requires minH <= maxH
    ensures Normalized(z, minH, maxH) == (z - minH) as real / HeightRange(minH, maxH) as real
    ensures Normalized(z, minH, maxH) != 0.5 || 2 * (z - minH) == HeightRange(minH, maxH)
  {
  }

  /**
    The channels of the three bands before clamping. On [0, 1]: the blue band
    has red in [50, 83] and green in [100, 133] at full blue; the green band
    has red in [100, 166] and blue in [189, 255] at full green; the red band
    has green in [187, 255] and blue in [33, 50] at full red.
   */
  function BandChannels(n: real): (raw: Rgb)
    ensures 0.0 <= n < 0.33 ==> 50 <= raw.r <= 83 && 100 <= raw.g <= 133 && raw.b == 255
    ensures 0.33 <= n < 0.66 ==> 100 <= raw.r <= 166 && raw.g == 255 && 189 <= raw.b <= 255
    ensures 0.66 <= n <= 1.0 ==> raw.r == 255 && 187 <= raw.g <= 255 && 33 <= raw.b <= 50
  {
    if n < 0.33 then Rgb(Trunc(50.0 + n * 100.0), Trunc(100.0 + n * 100.0), 255)
    else if n < 0.66 then Rgb(Trunc(100.0 + (n - 0.33) * 200.0), 255, Trunc(255.0 - (n - 0.33) * 200.0))
    else Rgb(255, Trunc(255.0 - (n - 0.66) * 200.0), Trunc(50.0 - (n - 0.66) * 50.0))
  }

  /** max(50, min(255, v)). */
  function ClampChannel(v: int): (c: int)
    ensures 50 <= c <= 255
    ensures 50 <= v <= 255 ==> c == v
    ensures v < 50 ==> c == 50
    ensures v > 255 ==> c == 255
  {
    Max(50, Min(255, v))
  }

  /** The colour of a normalised height: blue below 0.33, green below 0.66, red above. */
  function BandColour(n: real): (c: Rgb)
    ensures InGamut(c)
    ensures n < 0.33 ==> c.b == 255
    ensures 0.33 <= n < 0.66 ==> c.g == 255
    ensures n >= 0.66 ==> c.r == 255 && c.b == 50
  {
    var raw := BandChannels(n);
    assert n >= 0.66 ==> raw.b <= 50 by {
      if n >= 0.66 {
        TruncMonotone(50.0 - (n - 0.66) * 50.0, 50.0);
        TruncOfInt(50);
      }
    }
    Rgb(ClampChannel(raw.r), ClampChannel(raw.g), ClampChannel(raw.b))
  }

  /**
    The colour of height z in a grid whose heights span [minH, maxH]: always
    in gamut; the lowest height is (50, 100, 255), and on a grid that is not
    flat the highest is full red with blue at 50.
   */
  function CellColour(z: int, minH: int, maxH: int): (c: Rgb)
    ensures InGamut(c)
    ensures z == minH && minH <= maxH ==> c == Rgb(50, 100, 255)
    ensures z == maxH && minH < maxH ==> c.r == 255 && c.b == 50
  {
    TruncOfInt(50);
    TruncOfInt(100);
    BandColour(Normalized(z, minH, maxH))
  }

  /**
    For heights inside the grid's span the clamp only ever changes the blue
    channel of the red band, whose unclamped value lies in [33, 50]; every
    other channel is its band's value as computed.
   */
  lemma ClampOnlyRaisesHighBlue(n: real)
    requires 0.0 <= n <= 1.0
    ensures var raw, c := BandChannels(n), BandColour(n);
      && c.r == raw.r && c.g == raw.g
      && (n < 0.66 ==> c.b == raw.b)
      && (n >= 0.66 ==> 33 <= raw.b <= 50)
  {
  }

  /** Higher heights are never less red: the red channel grows with the normalised height on [0, 1]. */
  lemma RedNeverDecreases(n1: real, n2: real)
    requires 0.0 <= n1 <= n2 <= 1.0
    ensures BandColour(n1).r <= BandColour(n2).r
  {
    ClampOnlyRaisesHighBlue(n1);
    ClampOnlyRaisesHighBlue(n2);
    if n1 < 0.33 {
      TruncBetween(50.0 + n1 * 100.0, 50, 83);
      if n2 < 0.33 {
        TruncMonotone(50.0 + n1 * 100.0, 50.0 + n2 * 100.0);
      } else if n2 < 0.66 {
        TruncBetween(100.0 + (n2 - 0.33) * 200.0, 100, 166);
      }
    } else if n1 < 0.66 && n2 < 0.66 {
      TruncMonotone(100.0 + (n1 - 0.33) * 200.0, 100.0 + (n2 - 0.33) * 200.0);
    } else if n1 < 0.66 {
      TruncBetween(100.0 + (n1 - 0.33) * 200.0, 100, 166);
    }
  }

  /**
    The bands meet with jumps that are kept as the source has them: below 0.33
    red is at most 83 and at 0.33 it is 100; below 0.66 blue is at least 189
    and at 0.66 it is 50.
   */
  lemma BandJumps(low: real, mid: real)
    requires 0.0 <= low < 0.33 <= mid < 0.66
    ensures BandColour(low).r <= 83 && BandColour(0.33).r == 100
    ensures BandColour(mid).b >= 189 && BandColour(0.66).b == 50
  {
    TruncBetween(50.0 + low * 100.0, 50, 83);
    TruncBetween(255.0 - (mid - 0.33) * 200.0, 189, 255);
    TruncOfInt(100);
  }
}
