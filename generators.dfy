/**
  The deterministic example producers of generate_example.py: the 15x15
  stepped pyramid, and the 30x30 smoothed random terrain with its random
  draws supplied as an input matrix.
*/
module Generators {
  import opened Numbers
  import opened HeightGrid
  import opened FdfReader
  import opened FdfWriter
  import opened RoundTrip
  import opened Mesh

  const PyramidSize: nat := 15
  const PyramidTop: int := 25
  const TerrainSize: nat := 30

  /** Every row of `g` has exactly n entries. */
  predicate Square(g: Grid, n: nat) {
    |g| == n && forall r :: 0 <= r < |g| ==> |g[r]| == n
  }

  /**
    The pyramid height at (r, c): the peak minus twice the Chebyshev distance
    from the centre, floored at 0. Heights lie in [0, 25], every positive one
    is odd, and only the centre reaches the peak.
   */
  function PyramidCell(r: int, c: int): (v: int)
    ensures 0 <= v <= PyramidTop
    ensures v > 0 ==> v % 2 == 1
    ensures v == PyramidTop <==> r == 7 && c == 7
  {
    var centre := PyramidSize / 2;
    Max(0, PyramidTop - 2 * Max(Abs(c - centre), Abs(r - centre)))
  }

  /** Builds the pyramid row by row, cell by cell. */
  method GeneratePyramid() returns (heights: Grid)
    ensures Square(heights, PyramidSize)
    ensures forall r, c :: 0 <= r < PyramidSize && 0 <= c < PyramidSize ==> heights[r][c] == PyramidCell(r, c)
  {
    var size := PyramidSize;
    var centre := size / 2;
    var maxHeight := PyramidTop;
    heights := [];
    for row := 0 to size
      invariant |heights| == row
      invariant forall r :: 0 <= r < row ==> |heights[r]| == size
      invariant forall r, c :: 0 <= r < row && 0 <= c < size ==> heights[r][c] == PyramidCell(r, c)
    {
      var heightsRow := [];
      for col := 0 to size
        invariant |heightsRow| == col
        invariant forall c :: 0 <= c < col ==> heightsRow[c] == PyramidCell(row, c)
      {
        var dx := Abs(col - centre);
        var dy := Abs(row - centre);
        var distance := Max(dx, dy);
        var height := Max(0, maxHeight - distance * 2);
        heightsRow := heightsRow + [height];
      }
      heights := heights + [heightsRow];
    }
  }

  /**
    On the 15x15 grid the floor at 0 never applies: the farthest cell is 7
    steps out, so every height is 25 - 2d for d in [0, 7], that is in [11, 25].
  */
  lemma PyramidGuardIdle(r: int, c: int)
    requires 0 <= r < PyramidSize && 0 <= c < PyramidSize
    ensures PyramidCell(r, c) == PyramidTop - 2 * Max(Abs(c - 7), Abs(r - 7))
    ensures 11 <= PyramidCell(r, c) <= 25
  {
  }

  /** The pyramid is symmetric about its diagonal and about its middle row. */
  lemma PyramidSymmetric(r: int, c: int)
    ensures PyramidCell(r, c) == PyramidCell(c, r)
    ensures PyramidCell(r, c) == PyramidCell(14 - r, c)
  {
  }

  /**
    The terrain height at (r, c): the draw itself on the first row and the
    first column, elsewhere the floor of the mean of the draw, the cell above
    and the cell to the left.
  */
  function TerrainCell(draws: Grid, r: nat, c: nat): int
    requires Square(draws, TerrainSize) && r < TerrainSize && c < TerrainSize
    decreases r + c
  {
    if r > 0 && c > 0 then
      (draws[r][c] + TerrainCell(draws, r - 1, c) + TerrainCell(draws, r, c - 1)) / 3
    else
      draws[r][c]
  }

  /**
    A smoothed cell is a floor mean: three times it is at most the sum of its
    draw and its two neighbours and within 2 of it, so it lies between the
    least and the greatest of the three.
  */
  lemma TerrainMean(draws: Grid, r: nat, c: nat)
    requires Square(draws, TerrainSize) && 0 < r < TerrainSize && 0 < c < TerrainSize
    ensures var v, up, left := TerrainCell(draws, r, c), TerrainCell(draws, r - 1, c), TerrainCell(draws, r, c - 1);
      && 3 * v <= draws[r][c] + up + left < 3 * v + 3
      && Min(draws[r][c], Min(up, left)) <= v <= Max(draws[r][c], Max(up, left))
  {
  }

  /**
    Builds the terrain row by row. draws[r][c] stands for the value the
    generator draws at that cell; smoothing reads the row above from the
    finished rows and the left neighbour from the row being built.
  */
  method GenerateRandomTerrain(draws: Grid) returns (heights: Grid)
    requires Square(draws, TerrainSize)
    ensures Square(heights, TerrainSize)
    ensures forall r, c :: 0 <= r < TerrainSize && 0 <= c < TerrainSize ==> heights[r][c] == TerrainCell(draws, r, c)
  {
    var size := TerrainSize;
    heights := [];
    for row := 0 to size
      invariant |heights| == row
      invariant forall r :: 0 <= r < row ==> |heights[r]| == size
      invariant forall r, c :: 0 <= r < row && 0 <= c < size ==> heights[r][c] == TerrainCell(draws, r, c)
    {
      var heightsRow := [];
      for col := 0 to size
        invariant |heightsRow| == col
        invariant forall c :: 0 <= c < col ==> heightsRow[c] == TerrainCell(draws, row, c)
      {
        var baseHeight := draws[row][col];
        if row > 0 && col > 0 {
          baseHeight := (baseHeight + heights[row - 1][col] + heightsRow[col - 1]) / 3;
        }
        heightsRow := heightsRow + [baseHeight];
      }
      heights := heights + [heightsRow];
    }
  }

  /** Every draw lies in [lo, hi]. */
  predicate DrawsWithin(draws: Grid, lo: int, hi: int) {
    forall r, c :: 0 <= r < |draws| && 0 <= c < |draws[r]| ==> lo <= draws[r][c] <= hi
  }

  /** Smoothing keeps heights inside the range of the draws (for the generator's draws, [0, 20]). */
  lemma {:induction false} TerrainWithin(draws: Grid, lo: int, hi: int, r: nat, c: nat)
    requires Square(draws, TerrainSize) && r < TerrainSize && c < TerrainSize
    requires DrawsWithin(draws, lo, hi)
    ensures lo <= TerrainCell(draws, r, c) <= hi
    decreases r + c
  {
    if r > 0 && c > 0 {
      TerrainWithin(draws, lo, hi, r - 1, c);
      TerrainWithin(draws, lo, hi, r, c - 1);
      var sum := draws[r][c] + TerrainCell(draws, r - 1, c) + TerrainCell(draws, r, c - 1);
      assert 3 * lo <= sum <= 3 * hi;
    }
  }

  /**
    A square grid with at least one column, as both generators produce, is
    read back exactly from the file save_fdf writes, and the viewer can draw it.
  */
  lemma GeneratedGridReadsBack(g: Grid, n: nat)
    requires n > 0 && Square(g, n)
    ensures ParseFdf(Serialise(g)) == g
    ensures Drawable(g)
  {
    assert NoEmptyRow(g) by {
      forall r | 0 <= r < |g|
        ensures g[r] != []
      {
        assert |g[r]| == n;
      }
    }
    RoundTrip.RoundTrip(g);
  }
}
