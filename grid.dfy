/** The height matrix shared by the reader, the writer, the generators and the renderer. */
module HeightGrid {

  /** Rows of integer heights; the rows may differ in length. */
  type Grid = seq<seq<int>>

  /** No row is empty. */
  predicate NoEmptyRow(g: Grid) {
    forall i :: 0 <= i < |g| ==> g[i] != []
  }

  /** The rows of `g` that are not empty, in order. */
  function NonEmptyRows(g: Grid): (r: Grid)
    ensures NoEmptyRow(r)
    ensures |r| <= |g|
    ensures NoEmptyRow(g) ==> r == g
  {
    if g == [] then []
    else (if g[0] == [] then [] else [g[0]]) + NonEmptyRows(g[1..])
  }
}
