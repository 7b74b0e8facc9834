/**
  The text save_fdf in generate_example.py writes: one line per row, the
  row's heights as decimal integers separated by single spaces, each line
  ended by '\n'.
 */
module FdfWriter {
  import opened PyText
  import opened HeightGrid

  /** str(int(h)) for every height of the row, in order. */
  function RowTokens(row: seq<int>): (toks: seq<string>)
    ensures |toks| == |row|
    ensures forall i :: 0 <= i < |row| ==> toks[i] == IntToDecimal(row[i])
  {
    if row == [] then [] else [IntToDecimal(row[0])] + RowTokens(row[1..])
  }

  lemma {:induction false} JoinSpacedShape(ws: seq<string>)
    requires forall i :: 0 <= i < |ws| ==> ws[i] != [] && NoSpace(ws[i]) && '\n' !in ws[i]
    ensures var s := JoinSpaced(ws);
      && '\n' !in s
      && (s == [] <==> ws == [])
      && (s != [] ==> s[0] == ws[0][0] && s[|s| - 1] == ws[|ws| - 1][|ws[|ws| - 1]| - 1])
  {
    if |ws| > 1 {
      var rest := ws[1..];
      JoinSpacedShape(rest);
      var tail := JoinSpaced(rest);
      assert tail != [] && tail[|tail| - 1] == ws[|ws| - 1][|ws[|ws| - 1]| - 1];
      var s := ws[0] + " " + tail;
      assert JoinSpaced(ws) == s;
      assert '\n' !in ws[0] && '\n' !in tail;
      assert s[0] == ws[0][0] && s[|s| - 1] == tail[|tail| - 1];
    }
  }

  /** The line written for one row: ' '.join(str(int(h)) for h in row). */
  function FormatRow(row: seq<int>): (line: string)
    ensures '\n' !in line
    ensures line == [] <==> row == []
    ensures line != [] ==> !IsSpace(line[0]) && !IsSpace(line[|line| - 1])
  {
    var toks := RowTokens(row);
    JoinSpacedShape(toks);
    JoinSpaced(toks)
  }

  /** The whole file: every row's line followed by a newline, so it ends with one unless empty. */
  function Serialise(g: Grid): (text: string)
    ensures text == [] <==> g == []
    ensures g != [] ==> text[|text| - 1] == '\n'
  {
    if g == [] then "" else FormatRow(g[0]) + "\n" + Serialise(g[1..])
  }

  /** The file holds exactly one newline per row. */
  lemma {:induction false} SerialisedNewlines(g: Grid)
    ensures multiset(Serialise(g))['\n'] == |g|
  {
    if g != [] {
      var line, rest := FormatRow(g[0]), Serialise(g[1..]);
      SerialisedNewlines(g[1..]);
      assert multiset(line)['\n'] == 0;
      assert multiset(line + "\n" + rest) == multiset(line) + multiset("\n") + multiset(rest);
    }
  }

  /** The lines of the file, one per row. */
  function RowLines(g: Grid): (lines: seq<string>)
    ensures |lines| == |g|
    ensures forall i :: 0 <= i < |g| ==> lines[i] == FormatRow(g[i])
  {
    if g == [] then [] else [FormatRow(g[0])] + RowLines(g[1..])
  }

  lemma {:induction false} SerialiseSnoc(g: Grid, row: seq<int>)
    ensures Serialise(g + [row]) == Serialise(g) + FormatRow(row) + "\n"
  {
    if g == [] {
      assert [row][1..] == [];
    } else {
      assert (g + [row])[1..] == g[1..] + [row];
      SerialiseSnoc(g[1..], row);
      LineBeforeSnoc(FormatRow(g[0]), Serialise(g[1..]), FormatRow(row));
    }
  }

  lemma LineBeforeSnoc(first: string, rest: string, last: string)
    ensures first + "\n" + (rest + last + "\n") == (first + "\n" + rest) + last + "\n"
  {
  }

  /** Splitting the file at newlines gives one line per row, then the empty piece after the last newline. */
  lemma {:induction false} SerialisedLines(g: Grid)
    ensures SplitLines(Serialise(g)) == RowLines(g) + [""]
  {
    if g != [] {
      SplitLinesCons(FormatRow(g[0]), Serialise(g[1..]));
      SerialisedLines(g[1..]);
    }
  }

  /** The writing loop of save_fdf, with the file's text as the result. */
  method SaveFdf(heights: Grid) returns (text: string)
    ensures text == Serialise(heights)
  {
    text := "";
    for i := 0 to |heights|
      invariant text == Serialise(heights[..i])
    {
      var line := FormatRow(heights[i]);
      SerialiseSnoc(heights[..i], heights[i]);
      assert heights[..i + 1] == heights[..i] + [heights[i]];
      text := text + line + "\n";
    }
    assert heights[..|heights|] == heights;
  }
}
