/**
  read_fdf from fdf_viewer.py: the file's text becomes a list of integer rows.
  Each line is stripped and skipped when blank; otherwise it is split on
  whitespace, every token loses its commas and goes through int(), tokens that
  raise ValueError are dropped, and a line that keeps no integer adds no row.
 */
module FdfReader {
  import opened Wrappers
  import opened PyText
  import opened HeightGrid

  /** One token: commas removed, then int(); a token without commas is read as it stands. */
  function TokenValue(tok: string): (v: Option<int>)
    ensures ',' !in tok ==> v == ParseInt(tok)
  {
    ParseInt(RemoveCommas(tok))
  }

  /** A token gives a value exactly when, once its commas are gone, it is an optionally signed run of digits. */
  lemma TokenAccepted(tok: string)
    ensures TokenValue(tok).Some? <==> IsIntLiteral(RemoveCommas(tok))
  {
    ParseIntAccepts(RemoveCommas(tok));
  }

  /** The values of the tokens that parse, in token order. */
  function RowValues(toks: seq<string>): (row: seq<int>)
    ensures |row| <= |toks|
  {
    if toks == [] then []
    else
      var init := RowValues(toks[..|toks| - 1]);
      match TokenValue(toks[|toks| - 1])
      case Some(v) => init + [v]
      case None => init
  }

  /** The rows one line adds: none when it is blank or keeps no integer. */
  function LineRows(line: string): (rows: Grid)
    ensures |rows| <= 1 && NoEmptyRow(rows)
    ensures IsBlank(line) ==> rows == []
  {
    var stripped := Strip(line);
    if stripped == [] then [] else TokensRow(Words(stripped))
  }

  /** The row a line's tokens make: their integers, or no row when none is an integer. */
  function TokensRow(toks: seq<string>): (rows: Grid)
    ensures |rows| <= 1 && NoEmptyRow(rows)
    ensures rows == [] <==> RowValues(toks) == []
  {
    var row := RowValues(toks);
    if row == [] then [] else [row]
  }

  /**
    The rows `rowsOf` gives for each line, joined in line order. Keeping the
    per-line parse a parameter lets the lemmas about the walk over the lines
    stay independent of how one line is parsed.
   */
  function ConcatRows(lines: seq<string>, rowsOf: string -> Grid): Grid {
    if lines == [] then []
    else ConcatRows(lines[..|lines| - 1], rowsOf) + rowsOf(lines[|lines| - 1])
  }

  /** Joining row lists none of which holds an empty row gives none either. */
  lemma {:induction false} ConcatRowsNoEmpty(lines: seq<string>, rowsOf: string -> Grid)
    requires forall i :: 0 <= i < |lines| ==> NoEmptyRow(rowsOf(lines[i]))
    ensures NoEmptyRow(ConcatRows(lines, rowsOf))
  {
    if lines != [] {
      var init := lines[..|lines| - 1];
      ConcatRowsNoEmpty(init, rowsOf);
      var a, b := ConcatRows(init, rowsOf), rowsOf(lines[|lines| - 1]);
      assert NoEmptyRow(b);
      assert forall k :: 0 <= k < |a + b| ==> (a + b)[k] == if k < |a| then a[k] else b[k - |a|];
    }
  }

  /** The rows of a sequence of lines, in line order; none of them is empty. */
  function ParseLines(lines: seq<string>): (g: Grid)
    ensures NoEmptyRow(g)
  {
    ConcatRowsNoEmpty(lines, LineRows);
    ConcatRows(lines, LineRows)
  }

  /**
    The grid read_fdf returns for a file whose text is `text`: no row is
    empty, and a text of one line gives that line's rows.
   */
  function ParseFdf(text: string): (g: Grid)
    ensures NoEmptyRow(g)
    ensures '\n' !in text ==> g == LineRows(text)
  {
    SingleLineRows(text);
    ParseLines(SplitLines(text))
  }

  lemma SingleLineRows(text: string)
    ensures '\n' !in text ==> ParseLines(SplitLines(text)) == LineRows(text)
  {
    if '\n' !in text {
      SplitLinesNoNewline(text);
      ConcatRowsSingle(text, LineRows);
    }
  }

  /** The parse loop of read_fdf, over the lines of the file. */
  method ReadFdf(text: string) returns (heights: Grid)
    ensures heights == ParseFdf(text)
    ensures NoEmptyRow(heights)
  {
    var lines := SplitLines(text);
    heights := [];
    for i := 0 to |lines|
      invariant heights == ParseLines(lines[..i])
    {
      heights := AddLine(heights, lines[i]);
      ParseLinesSnoc(lines, i);
    }
    assert lines[..|lines|] == lines;
  }

  /** The body of the parse loop: appends the row of one line, if it has one. */
  method AddLine(before: Grid, text: string) returns (heights: Grid)
    ensures heights == before + LineRows(text)
  {
    heights := before;
    var line := Strip(text);
    if line != [] {
      var row := ReadRow(Words(line));
      assert LineRows(text) == if row == [] then [] else [row];
      if row != [] {
        heights := heights + [row];
      }
    } else {
      assert LineRows(text) == [];
    }
  }

  /** The inner loop of read_fdf: the values of the tokens of one line, skipping those int() rejects. */
  method ReadRow(tokens: seq<string>) returns (row: seq<int>)
    ensures row == RowValues(tokens)
  {
    row := [];
    for j := 0 to |tokens|
      invariant row == RowValues(tokens[..j])
    {
      assert tokens[..j + 1][..j] == tokens[..j];
      var height := TokenValue(tokens[j]);
      if height.Some? {
        row := row + [height.value];
      }
    }
    assert tokens[..|tokens|] == tokens;
  }

  lemma {:induction false} RowValuesAppend(a: seq<string>, b: seq<string>)
    ensures RowValues(a + b) == RowValues(a) + RowValues(b)
    decreases |b|
  {
    if b == [] {
      assert a + b == a;
    } else {
      var b' := b[..|b| - 1];
      assert (a + b)[..|a + b| - 1] == a + b';
      RowValuesAppend(a, b');
    }
  }

  /** A token that is not an integer is dropped; the others keep their order. */
  lemma TokenDropped(a: seq<string>, tok: string, b: seq<string>)
    requires TokenValue(tok) == None
    ensures RowValues(a + [tok] + b) == RowValues(a) + RowValues(b)
  {
    RowValuesAppend(a + [tok], b);
    RowValuesAppend(a, [tok]);
    assert [tok][..0] == [];
  }

  /** When every token is an integer, the row holds exactly those integers in order. */
  lemma {:induction false} AllTokensKept(toks: seq<string>, values: seq<int>)
    requires |toks| == |values|
    requires forall i :: 0 <= i < |toks| ==> TokenValue(toks[i]) == Some(values[i])
    ensures RowValues(toks) == values
  {
    if toks != [] {
      var n := |toks| - 1;
      AllTokensKept(toks[..n], values[..n]);
      assert values[..n] + [values[n]] == values;
    }
  }

  lemma {:induction false} ConcatRowsAppend(a: seq<string>, b: seq<string>, rowsOf: string -> Grid)
    ensures ConcatRows(a + b, rowsOf) == ConcatRows(a, rowsOf) + ConcatRows(b, rowsOf)
    decreases |b|
  {
    if b == [] {
      assert a + b == a;
    } else {
      var b' := b[..|b| - 1];
      assert (a + b)[..|a + b| - 1] == a + b';
      ConcatRowsAppend(a, b', rowsOf);
    }
  }

  lemma ConcatRowsSingle(line: string, rowsOf: string -> Grid)
    ensures ConcatRows([line], rowsOf) == rowsOf(line)
  {
    assert [line][..0] == [];
  }

  lemma ParseLinesAppend(a: seq<string>, b: seq<string>)
    ensures ParseLines(a + b) == ParseLines(a) + ParseLines(b)
  {
    ConcatRowsAppend(a, b, LineRows);
  }

  lemma ParseLinesSingle(line: string)
    ensures ParseLines([line]) == LineRows(line)
  {
    ConcatRowsSingle(line, LineRows);
  }

  /** The first line's rows come first, followed by the rows of the rest. */
  lemma ParseLinesCons(line: string, rest: seq<string>)
    ensures ParseLines([line] + rest) == LineRows(line) + ParseLines(rest)
  {
    ParseLinesAppend([line], rest);
    ParseLinesSingle(line);
  }

  /** The rows of one more line are appended after the rows already read. */
  lemma ParseLinesSnoc(lines: seq<string>, i: nat)
    requires i < |lines|
    ensures ParseLines(lines[..i + 1]) == ParseLines(lines[..i]) + LineRows(lines[i])
  {
    assert lines[..i + 1] == lines[..i] + [lines[i]];
    ParseLinesAppend(lines[..i], [lines[i]]);
    ParseLinesSingle(lines[i]);
  }

  /** A blank line between two parts of a file adds nothing. */
  lemma BlankLineSkipped(a: seq<string>, line: string, b: seq<string>)
    requires IsBlank(line)
    ensures ParseLines(a + [line] + b) == ParseLines(a) + ParseLines(b)
  {
    ParseLinesAppend(a + [line], b);
    ParseLinesAppend(a, [line]);
    ParseLinesSingle(line);
  }

  // The example lemmas take the text as a parameter equal to a literal, so
  // that the verifier reasons about the functions' contracts instead of
  // evaluating them on literal arguments.

  lemma ExampleLines(text: string)
    requires text == "1 2,3 x 4\n\n5 6\n"
    ensures SplitLines(text) == ["1 2,3 x 4", "", "5 6", ""]
  {
    ExampleTailLines("\n5 6\n");
    SplitLinesCons("1 2,3 x 4", "\n5 6\n");
    assert "1 2,3 x 4" + "\n" + "\n5 6\n" == text;
  }

  lemma ExampleTailLines(tail: string)
    requires tail == "\n5 6\n"
    ensures SplitLines(tail) == ["", "5 6", ""]
  {
    SplitLinesCons("5 6", "");
    assert "5 6" + "\n" + "" == "5 6\n";
    SplitLinesCons("", "5 6\n");
    assert "" + "\n" + "5 6\n" == tail;
  }

  lemma ExampleTokenValues(t0: string, t1: string, t2: string, t3: string)
    requires t0 == "1" && t1 == "2,3" && t2 == "x" && t3 == "4"
    ensures TokenValue(t0) == Some(1) && TokenValue(t1) == Some(23)
    ensures TokenValue(t2) == None && TokenValue(t3) == Some(4)
  {
    DigitToken(t0);
    CommaToken(t1);
    assert !IsDigit(t2[0]);
    DigitToken(t3);
  }

  /** A one-digit token reads as its digit. */
  lemma DigitToken(t: string)
    requires |t| == 1 && IsDigit(t[0])
    ensures TokenValue(t) == Some(DigitValue(t[0]))
  {
    assert ',' !in t;
    assert AllDigits(t) && t[..0] == [];
    assert DigitsValue(t) == DigitValue(t[0]);
  }

  lemma CommaToken(t: string)
    requires t == "2,3"
    ensures TokenValue(t) == Some(23)
  {
    assert t[1..] == ",3" && t[1..][1..] == "3";
    assert RemoveCommas("3") == "3";
    assert RemoveCommas(t) == "23";
    assert DigitsValue("23") == 23;
  }

  /** Of four tokens, the third is not an integer and is dropped. */
  lemma ThirdTokenDropped(toks: seq<string>, v0: int, v1: int, v3: int)
    requires |toks| == 4 && TokenValue(toks[2]) == None
    requires TokenValue(toks[0]) == Some(v0) && TokenValue(toks[1]) == Some(v1)
    requires TokenValue(toks[3]) == Some(v3)
    ensures RowValues(toks) == [v0, v1, v3]
  {
    var a, b := [toks[0], toks[1]], [toks[3]];
    FourParts(toks, a, b);
    TokenDropped(a, toks[2], b);
    TwoTokensKept(toks[0], toks[1], v0, v1);
    OneTokenKept(toks[3], v3);
  }

  /** Four tokens are the first two, the third, and the fourth. */
  lemma FourParts(toks: seq<string>, a: seq<string>, b: seq<string>)
    requires |toks| == 4 && a == [toks[0], toks[1]] && b == [toks[3]]
    ensures toks == a + [toks[2]] + b
  {
  }

  /** A single integer token gives a one-value row. */
  lemma OneTokenKept(tok: string, v: int)
    requires TokenValue(tok) == Some(v)
    ensures RowValues([tok]) == [v]
  {
    assert [tok][..0] == [];
  }

  /** Two integer tokens give their two values in order. */
  lemma TwoTokensKept(t0: string, t1: string, v0: int, v1: int)
    requires TokenValue(t0) == Some(v0) && TokenValue(t1) == Some(v1)
    ensures RowValues([t0, t1]) == [v0, v1]
  {
    assert [t0, t1][..1] == [t0];
    OneTokenKept(t0, v0);
  }

  lemma ExampleTokens(toks: seq<string>)
    requires toks == ["1", "2,3", "x", "4"]
    ensures RowValues(toks) == [1, 23, 4]
  {
    ExampleTokenValues(toks[0], toks[1], toks[2], toks[3]);
    ThirdTokenDropped(toks, 1, 23, 4);
  }

  /** A line that is already stripped adds the row of its tokens' values. */
  lemma LineOfTokens(line: string, toks: seq<string>, values: seq<int>)
    requires Strip(line) == line && Words(line) == toks
    requires RowValues(toks) == values && values != []
    ensures LineRows(line) == [values]
  {
  }

  lemma ExampleFirstWords(line: string)
    requires line == "1 2,3 x 4"
    ensures Strip(line) == line && Words(line) == ["1", "2,3", "x", "4"]
  {
    var ws := ["1", "2,3", "x", "4"];
    assert JoinSpaced(ws[2..]) == "x 4";
    assert JoinSpaced(ws[1..]) == "2,3 x 4";
    assert JoinSpaced(ws) == line;
    WordsOfJoinSpaced(ws);
    assert !IsSpace(line[0]) && !IsSpace(line[|line| - 1]);
  }

  lemma ExampleLastWords(line: string)
    requires line == "5 6"
    ensures Strip(line) == line && Words(line) == ["5", "6"]
  {
    assert JoinSpaced(["5", "6"]) == line;
    WordsOfJoinSpaced(["5", "6"]);
  }

  lemma ExampleLastTokens(toks: seq<string>)
    requires toks == ["5", "6"]
    ensures RowValues(toks) == [5, 6]
  {
    assert DigitsValue("5") == 5;
    assert DigitsValue("6") == 6;
    AllTokensKept(toks, [5, 6]);
  }

  /**
    The worked example: the comma inside "2,3" is removed, so the token reads
    as 23; "x" is dropped; the blank line and the empty piece after the final
    newline add no row.
   */
  lemma ParseExample(text: string)
    requires text == "1 2,3 x 4\n\n5 6\n"
    ensures ParseFdf(text) == [[1, 23, 4], [5, 6]]
  {
    ExampleLines(text);
    var lines := SplitLines(text);
    ExampleFirstWords(lines[0]);
    ExampleTokens(Words(lines[0]));
    LineOfTokens(lines[0], Words(lines[0]), [1, 23, 4]);
    ExampleLastWords(lines[2]);
    ExampleLastTokens(Words(lines[2]));
    LineOfTokens(lines[2], Words(lines[2]), [5, 6]);
    assert IsBlank(lines[1]) && IsBlank(lines[3]);
    TwoRowsFourLines(lines, LineRows, [1, 23, 4], [5, 6]);
  }

  /** Four lines of which the second and the last add no row give the rows of the other two. */
  lemma TwoRowsFourLines(lines: seq<string>, rowsOf: string -> Grid, first: seq<int>, second: seq<int>)
    requires |lines| == 4 && rowsOf(lines[1]) == [] && rowsOf(lines[3]) == []
    requires rowsOf(lines[0]) == [first] && rowsOf(lines[2]) == [second]
    ensures ConcatRows(lines, rowsOf) == [first, second]
  {
    assert lines == [lines[0], lines[1], lines[2], lines[3]];
    ConcatRowsFour(lines[0], lines[1], lines[2], lines[3], rowsOf);
  }

  lemma ConcatRowsFour(l0: string, l1: string, l2: string, l3: string, rowsOf: string -> Grid)
    ensures ConcatRows([l0, l1, l2, l3], rowsOf) == rowsOf(l0) + rowsOf(l1) + rowsOf(l2) + rowsOf(l3)
  {
    assert [l0, l1, l2, l3][..3] == [l0, l1, l2];
    assert [l0, l1, l2][..2] == [l0, l1];
    assert [l0, l1][..1] == [l0];
    ConcatRowsSingle(l0, rowsOf);
    assert ConcatRows([l0, l1], rowsOf) == rowsOf(l0) + rowsOf(l1);
    assert ConcatRows([l0, l1, l2], rowsOf) == rowsOf(l0) + rowsOf(l1) + rowsOf(l2);
  }
}
