/** Reading back what save_fdf writes: read_fdf recovers every non-empty row. */
module RoundTrip {
  import opened Wrappers
  import opened PyText
  import opened HeightGrid
  import opened FdfReader
  import opened FdfWriter

  /** Every token written for a height reads back as that height. */
  lemma TokensReadBack(row: seq<int>)
    ensures RowValues(RowTokens(row)) == row
  {
    var toks := RowTokens(row);
    assert forall i :: 0 <= i < |toks| ==> TokenValue(toks[i]) == Some(row[i]);
    AllTokensKept(toks, row);
  }

  /** A written line reads back as its row, or as no row when the row was empty. */
  lemma LineReadBack(row: seq<int>)
    ensures LineRows(FormatRow(row)) == if row == [] then [] else [row]
  {
    var line := FormatRow(row);
    if row != [] {
      var toks := RowTokens(row);
      assert line == JoinSpaced(toks);
      assert Strip(line) == line;
      WordsOfJoinSpaced(toks);
      TokensReadBack(row);
      LineOfTokens(line, toks, row);
    }
  }

  /** Reading the written text gives back the grid without its empty rows. */
  lemma {:induction false} ReadWritten(g: Grid)
    ensures ParseFdf(Serialise(g)) == NonEmptyRows(g)
  {
    if g == [] {
      ParseLinesSingle("");
    } else {
      SplitLinesCons(FormatRow(g[0]), Serialise(g[1..]));
      ParseLinesCons(FormatRow(g[0]), SplitLines(Serialise(g[1..])));
      LineReadBack(g[0]);
      ReadWritten(g[1..]);
    }
  }

  /** A grid without empty rows survives writing and reading unchanged. */
  lemma RoundTrip(g: Grid)
    requires NoEmptyRow(g)
    ensures ParseFdf(Serialise(g)) == g
  {
    ReadWritten(g);
  }
}
