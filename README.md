# FDF height-map viewer, modelled in Dafny

This project models the height-grid pipeline of a small FDF wireframe viewer
(`fdf_viewer.py`) and of its example-file generator (`generate_example.py`):

- **Reading** (`FdfReader`, `PyText`): the text of an `.fdf` file becomes a
  grid of integer heights. Lines are stripped and blank lines skipped. Each
  line is split on whitespace. Commas are removed from every token, and the
  token is read as a signed decimal integer. Tokens that do not parse are
  dropped, and a line with no integer gives no row. `ReadFdf` is the loop as
  written, proved equal to the specification function `ParseFdf`.
- **Writing** (`FdfWriter`, `RoundTrip`): `save_fdf` writes each row as its
  decimal heights joined by single spaces, followed by a newline. Reading
  written text gives back every non-empty row, so a grid with no empty row
  survives the round trip exactly.
- **Colour** (`HeightColour`): a height is normalised against the grid's
  minimum and maximum, coloured in three bands split at 0.33 and 0.66, and
  each channel is clamped to [50, 255].
- **Projection** (`Projection`): the isometric projection onto the 1200x800
  window. It rotates by the turn angle, centres on (600, 400), applies the
  pan offsets and truncates toward zero.
- **Mesh walk** (`Mesh`): `draw_3d_surface` as a method that appends
  primitives to a sequence. Each cell gives a line to its right neighbour,
  then a line to the neighbour below, then a dot when its pixel is inside
  the window.
- **Camera** (`CameraState`, `Viewer`): the starting scale chosen from the
  grid size, and the per-frame key handling (W/S/A/D pan, Q/E zoom, R/F tilt,
  T/G turn). `Viewer.RunViewer` is the main loop over a list of held-key
  frames.
- **Generators** (`Generators`): the 15x15 stepped pyramid, and the 30x30
  smoothed terrain with its random draws passed in as a matrix.

Some behaviours of the code are easy to misread; the model follows the code:

- A flat grid (minimum equals maximum) is coloured (50, 100, 255), the low
  band. This is because `height_range` is forced to 1, so the normalised
  height is 0, and the 0.5 fallback at `fdf_viewer.py:103` can never run
  (`HeightColour.FallbackNeverTaken`, `HeightColour.CellColour`,
  `Mesh.FlatGridOneColour`).
- Comma removal joins the digits on both sides of a comma. A reader might
  expect `"2,3"` to give two values; it gives the one value 23, so
  `"1 2,3 x 4"` reads as `[1, 23, 4]` (`FdfReader.ParseExample`).
- Truncation toward zero means a pan of d pixels moves a projected point by
  d - 1 to d + 1 pixels, not always by exactly d (`Projection.PanShiftsPoint`,
  `Projection.PanSlackExample`).
- The number of columns is taken from the first row only. So the walk is
  defined only for grids whose every row is at least as long as the first
  (`Mesh.Drawable`); entries beyond that length are never visited.

## Model

| member | source | states |
|---|---|---|
| PyText.Strip | fdf_viewer.py:30 | the stripped line is empty exactly when the line is all whitespace; otherwise it neither starts nor ends with whitespace; a line with no surrounding whitespace is unchanged |
| PyText.TrimStartDropsBlank | fdf_viewer.py:30 | the part lstrip removes is all whitespace |
| PyText.TrimEndDropsBlank | fdf_viewer.py:30 | the part rstrip removes is all whitespace |
| PyText.StripIsInfix | fdf_viewer.py:30 | strip removes only a whitespace prefix and a whitespace suffix: the result is the contiguous slice of the line between them |
| PyText.Words | fdf_viewer.py:34 | every word is non-empty and contains no whitespace; a blank line has no words |
| PyText.WordsOfJoinSpaced | fdf_viewer.py:34 | splitting on whitespace undoes joining by single spaces, for non-empty whitespace-free words |
| PyText.WordsBeforeSpace | fdf_viewer.py:34 | a whitespace character ends the word before it: the words of a + t, for t starting with whitespace, are the words of a followed by the words of t |
| PyText.WordsSeparated | fdf_viewer.py:34 | any non-empty run of whitespace (spaces, tabs, several of them) separates the words on its two sides: the words of a, then those of b, in order |
| PyText.SplitLines | fdf_viewer.py:26 | the text splits into at least one piece, and no piece contains a newline |
| PyText.JoinSplitLines | fdf_viewer.py:26 | joining the pieces with newlines rebuilds the text, so no character is lost |
| PyText.SplitLinesCons | fdf_viewer.py:26 | a newline-free line followed by a newline is the first piece, and the rest of the text gives the rest |
| PyText.RemoveCommas | fdf_viewer.py:37 | no comma is left, a text without commas is unchanged, and every other character keeps its number of occurrences |
| PyText.RemoveCommasAppend | fdf_viewer.py:37 | removing the commas of a + b gives those of a followed by those of b, so the kept characters stay in their order |
| PyText.NatToDecimal | generate_example.py:89 | non-empty ASCII digits whose decimal value is n, with no leading zero unless n is 0 |
| PyText.ParseInt | fdf_viewer.py:37 | int() accepts only text that ends in a digit, and an unsigned numeral is never negative; exactly which texts it accepts, and their values, is stated by ParseIntAccepts |
| PyText.ParseIntAccepts | fdf_viewer.py:37 | int() succeeds if and only if the text is an optional sign followed by one or more ASCII digits; the value is the digits' decimal value, negated after a minus |
| PyText.LeadingZeroIgnored | fdf_viewer.py:37 | a leading zero does not change the value read |
| PyText.LeadingPlusIgnored | fdf_viewer.py:37 | a leading plus sign does not change the value read |
| PyText.LeadingMinusNegates | fdf_viewer.py:37 | a leading minus sign reads the negated value |
| PyText.IntToDecimal | generate_example.py:89 | int() reads the decimal text back as the same integer; the text is non-empty and has no whitespace, comma or newline |
| FdfReader.TokenValue | fdf_viewer.py:37 | a token with no comma is read by int() exactly as it stands |
| FdfReader.TokenAccepted | fdf_viewer.py:35-40 | a token gives a value if and only if, once its commas are removed, it is an optional sign followed by one or more digits; every other token is skipped |
| FdfReader.RowValues | fdf_viewer.py:33-40 | a line gives at most one value per token |
| FdfReader.LineRows | fdf_viewer.py:30-42 | a line gives at most one row, never an empty one, and a blank line gives none |
| FdfReader.TokensRow | fdf_viewer.py:33-42 | the tokens of a line give at most one row, never an empty one, and none exactly when no token is an integer |
| FdfReader.ParseLines | fdf_viewer.py:28-42 | the parsed grid has no empty row |
| FdfReader.ParseFdf | fdf_viewer.py:26-44 | the grid of a file's text has no empty row, and a text of a single line gives exactly that line's rows |
| FdfReader.AddLine | fdf_viewer.py:30-42 | one iteration of the line loop appends exactly the line's rows (none for a blank line or one with no integer) to the grid so far |
| FdfReader.ReadFdf | fdf_viewer.py:28-44 | the loop's grid equals ParseFdf of the text and has no empty row |
| FdfReader.ReadRow | fdf_viewer.py:33-40 | the inner token loop builds exactly RowValues of the tokens |
| FdfReader.RowValuesAppend | fdf_viewer.py:34-40 | the values of two token runs are the values of each, in token order |
| FdfReader.TokenDropped | fdf_viewer.py:36-40 | a token int() rejects is skipped, and the tokens around it keep their order |
| FdfReader.AllTokensKept | fdf_viewer.py:36-38 | when every token parses, the row is exactly their values in order |
| FdfReader.ParseLinesAppend | fdf_viewer.py:29-42 | the rows of two runs of lines are the rows of each, in line order |
| FdfReader.ParseLinesCons | fdf_viewer.py:29-42 | the rows of a text are the first line's row followed by the rows of the rest |
| FdfReader.ParseLinesSnoc | fdf_viewer.py:29-42 | each loop iteration appends exactly the rows of the current line |
| FdfReader.BlankLineSkipped | fdf_viewer.py:31 | a blank line anywhere in the text adds no row |
| FdfReader.ParseExample | fdf_viewer.py:28-44 | "1 2,3 x 4", a blank line and "5 6" read as [[1, 23, 4], [5, 6]] |
| FdfWriter.RowTokens | generate_example.py:89 | one token per height, and token i is the decimal text of height i |
| FdfWriter.FormatRow | generate_example.py:89 | the line has no newline, is empty exactly for an empty row, and neither starts nor ends with whitespace |
| FdfWriter.Serialise | generate_example.py:86-90 | the written text is empty exactly for an empty grid, and otherwise ends with a newline |
| FdfWriter.SerialisedNewlines | generate_example.py:86-90 | the written text holds exactly one newline per row |
| FdfWriter.RowLines | generate_example.py:87-90 | one line per row, and line i is row i formatted |
| FdfWriter.SerialisedLines | generate_example.py:87-90 | splitting the written text at newlines gives the row lines in order, then the empty piece after the final newline |
| FdfWriter.SaveFdf | generate_example.py:86-90 | the loop writes exactly Serialise of the grid |
| RoundTrip.TokensReadBack | generate_example.py:89 | the tokens written for a row read back as that row |
| RoundTrip.LineReadBack | generate_example.py:89 | a written line reads back as its row, or as no row when the row is empty |
| RoundTrip.ReadWritten | generate_example.py:87-90 | reading the written file gives the grid with its empty rows removed |
| RoundTrip.RoundTrip | generate_example.py:87-90 | a grid with no empty row is read back exactly from the file written for it |
| HeightGrid.NonEmptyRows | fdf_viewer.py:41-42 | keeping only the non-empty rows leaves no empty row and is the identity on grids without one |
| Numbers.Trunc | fdf_viewer.py:74 | int() of a real truncates toward zero: the result is within one unit of x, on the side of x closer to 0 |
| Numbers.TruncOdd | fdf_viewer.py:74 | truncation is symmetric about zero |
| Numbers.TruncMonotone | fdf_viewer.py:74 | truncation never reverses order |
| Numbers.TruncShift | fdf_viewer.py:71-74 | adding an integer d before truncating moves the result by d - 1 to d + 1 |
| HeightColour.HeightRange | fdf_viewer.py:90 | the range is positive for any min <= max, and exactly 1 for a flat grid |
| HeightColour.Normalized | fdf_viewer.py:100-103 | a height between the minimum and the maximum normalises into [0, 1]; the minimum gives 0, and on a grid that is not flat the maximum gives 1 |
| HeightColour.FallbackNeverTaken | fdf_viewer.py:100-103 | the normalised height is always (z - min) / range, and is 0.5 only at the exact midpoint |
| HeightColour.BandChannels | fdf_viewer.py:107-121 | before clamping, on [0, 1]: below 0.33 red is in [50, 83], green in [100, 133] and blue 255; in [0.33, 0.66) red is in [100, 166], green 255 and blue in [189, 255]; from 0.66 red is 255, green in [187, 255] and blue in [33, 50] |
| HeightColour.ClampChannel | fdf_viewer.py:123 | the channel is in [50, 255], equal to its input inside that range, 50 below it and 255 above it |
| HeightColour.BandColour | fdf_viewer.py:107-123 | every channel is in [50, 255]; below 0.33 blue is 255; in [0.33, 0.66) green is 255; from 0.66 red is 255 and blue is exactly 50 |
| HeightColour.CellColour | fdf_viewer.py:100-123 | a cell's colour is always in [50, 255] per channel; the lowest height is (50, 100, 255), so a flat grid is all that colour; on a grid that is not flat the highest height is red 255 with blue 50 |
| HeightColour.ClampOnlyRaisesHighBlue | fdf_viewer.py:107-123 | for normalised heights in [0, 1] the clamp changes nothing except blue in the top band, whose raw value lies in [33, 50] |
| HeightColour.RedNeverDecreases | fdf_viewer.py:107-123 | a higher normalised height never has less red |
| HeightColour.BandJumps | fdf_viewer.py:107-121 | red jumps up to 100 at 0.33 from at most 83 below it, and blue drops to 50 at 0.66 from at least 189 below it |
| CameraState.InitialScale | fdf_viewer.py:195-201 | the starting scale is in [10, 25]; it is 15 for an empty grid; for a size max(rows, cols) of at most 60, scale × size ≤ 600, and from 24 to 60 the scale is 600 // size |
| CameraState.Initial | fdf_viewer.py:195-208 | the starting camera is in range (InRange), has the starting scale as a whole number in [10, 25], and is not panned |
| CameraState.Step | fdf_viewer.py:227-252 | one frame moves each offset by at most 2; from an in-range scale it changes the scale by at most 0.5, and from an in-range angle each angle by at most 0.02; with no key held nothing changes |
| CameraState.HandleKeys | fdf_viewer.py:227-252 | the ten key tests in source order give exactly Step of the held keys |
| CameraState.ZoomInRange | fdf_viewer.py:237-240 | Q then E keep the scale a multiple of 0.5 in [5, 100] |
| CameraState.AngleInRange | fdf_viewer.py:243-252 | raising then lowering an angle keeps it in [0.1, 1.5] |
| CameraState.StepInRange | fdf_viewer.py:227-252 | one frame keeps the scale, both angles and even offsets in range |
| CameraState.RunInRange | fdf_viewer.py:215-252 | any sequence of frames from an in-range camera stays in range |
| CameraState.SessionInRange | fdf_viewer.py:195-252 | every state a session reaches from the starting camera is in range |
| CameraState.OpposedPansCancel | fdf_viewer.py:227-234 | an offset is unchanged by a frame exactly when both or neither of its two keys are held |
| CameraState.ZoomPairNeutral | fdf_viewer.py:237-240 | Q and E held together leave the scale unchanged exactly when it is at least 5.5 (at 5 they zoom in) |
| CameraState.TiltPairNeutral | fdf_viewer.py:243-252 | R with F, or T with G, leave the angle unchanged exactly when it is at most 1.48 (at the top they lower it) |
| CameraState.PanUnbounded | fdf_viewer.py:233-234 | holding D for n frames moves the offset by 2n and leaves the scale alone, so panning has no bound |
| Projection.CentreX | fdf_viewer.py:71 | the horizontal centre is half the window width |
| Projection.CentreY | fdf_viewer.py:72 | the vertical centre is half the window height |
| Projection.Project | fdf_viewer.py:52-74 | each pixel coordinate is within one unit of the exact coordinate it truncates: IsoX = (rx − ry)·scale + 600 + offset_x and IsoY = (rx + ry)·scale·0.5 − z·scale + 400 + offset_y, where rx = x·cos(angle_y) − y·sin(angle_y) and ry = x·sin(angle_y) + y·cos(angle_y) |
| Projection.ProjectIgnoresAngleX | fdf_viewer.py:52-74 | the tilt angle never changes the projected pixel |
| Projection.ScreenXIgnoresHeight | fdf_viewer.py:67-74 | a point's height never changes its horizontal pixel |
| Projection.ProjectOrigin | fdf_viewer.py:52-74 | the grid origin at height 0 lands on (600 + offset_x, 400 + offset_y) for every scale and turn angle |
| Projection.HigherIsUp | fdf_viewer.py:68-74 | with a positive scale, a higher point is drawn at the same or a smaller pixel row |
| Projection.PanShiftsPoint | fdf_viewer.py:71-74 | a horizontal pan of d leaves the pixel row alone and moves the pixel column by d - 1 to d + 1 |
| Projection.PanSlackExample | fdf_viewer.py:71-74 | for any in-range camera with offset_x = -600 under which point (1, 0) has exact column strictly between 0 and 1 (as at the starting turn 0.785, where the column is (cos - sin) × scale ≈ 0.0006 × scale), the point is drawn in column 0, and after one press of A (offset -602) in column -1, so a pan of 2 moves it by 1 |
| Mesh.RowMax | fdf_viewer.py:88 | the row maximum bounds every entry and is one of them |
| Mesh.RowMin | fdf_viewer.py:89 | the row minimum is at most every entry and is one of them |
| Mesh.GridMax | fdf_viewer.py:88 | max of the row maxima bounds every height and is some row's maximum |
| Mesh.GridMin | fdf_viewer.py:89 | min of the row minima is at most every height and is some row's minimum |
| Mesh.CellRgb | fdf_viewer.py:100-123 | every cell's colour has all channels in [50, 255] |
| Mesh.CellPoint | fdf_viewer.py:95-126 | a cell is projected relative to the grid's middle cell (cols // 2, rows // 2): that cell at height 0 lands on the window centre (600, 400) shifted by the pan offsets |
| Mesh.CellPrims | fdf_viewer.py:123-147 | a cell draws at most three primitives, all in the cell's colour, and every cell of the walk except the last one starts with a line |
| Mesh.Surface | fdf_viewer.py:76-147 | nothing is drawn for an empty grid or an empty first row, and something is always drawn for a grid of two or more cells |
| Mesh.DrawCell | fdf_viewer.py:126-147 | one cell draws exactly its right line, its down line and its dot, in that order, each under its guard |
| Mesh.DrawRow | fdf_viewer.py:94-147 | the inner loop draws the row's cells in column order |
| Mesh.DrawWalk | fdf_viewer.py:93-147 | the outer loop draws the rows in row order |
| Mesh.DrawSurface | fdf_viewer.py:76-147 | the method's primitives are exactly Surface: nothing for an empty grid or empty first row, otherwise the row-major walk |
| Mesh.PaintCell | fdf_viewer.py:95-126 | inside the walk, a cell is painted at its projected pixel and in its height colour |
| Mesh.CellLineCount | fdf_viewer.py:129-143 | a cell draws one line per neighbour it has to the right and below |
| Mesh.SurfaceLineCount | fdf_viewer.py:78-143 | an empty grid draws nothing; an R x C grid draws exactly R(C-1) + (R-1)C lines |
| Mesh.SurfaceMember | fdf_viewer.py:93-147 | every primitive drawn belongs to some visited cell |
| Mesh.SurfaceHasCell | fdf_viewer.py:93-147 | every primitive of every visited cell is drawn |
| Mesh.CellHasLines | fdf_viewer.py:129-143 | a cell with a right or lower neighbour draws the line to it in its own colour |
| Mesh.CellLinesFromCell | fdf_viewer.py:129-143 | every line of a cell starts at the cell, has its colour and ends at its right or lower neighbour |
| Mesh.CellDot | fdf_viewer.py:146-147 | a cell's dot sits at its own pixel, in its colour, and only inside the window |
| Mesh.CellDotDrawn | fdf_viewer.py:146-147 | a cell whose pixel is inside the window draws its dot |
| Mesh.LinesNeverCulled | fdf_viewer.py:129-143 | the lines to the right and lower neighbours are drawn even when off screen |
| Mesh.LineFromCell | fdf_viewer.py:129-143 | every line drawn joins a cell to its right or lower neighbour, in that cell's colour |
| Mesh.DotIffOnScreen | fdf_viewer.py:146-147 | a cell's dot is drawn if and only if its pixel is inside the 1200x800 window |
| Mesh.FlatGridRange | fdf_viewer.py:88-89 | on a flat grid the minimum and maximum are both the common height |
| Mesh.FlatGridOneColour | fdf_viewer.py:88-147 | on a flat grid everything drawn is (50, 100, 255) |
| Generators.GeneratePyramid | generate_example.py:62-82 | 15 rows of 15, and cell (r, c) is max(0, 25 - 2 * max(abs(c - 7), abs(r - 7))) |
| Generators.PyramidGuardIdle | generate_example.py:73-78 | on the 15x15 grid the floor at 0 never applies, and every height is in [11, 25] |
| Generators.PyramidCell | generate_example.py:66-78 | every pyramid height is in [0, 25], every positive height is odd (25 minus an even number), and the height is 25 if and only if the cell is the centre (7, 7) |
| Generators.PyramidSymmetric | generate_example.py:73-78 | the pyramid is symmetric about its diagonal and about its middle row |
| Generators.TerrainMean | generate_example.py:53-56 | a smoothed cell is the floor of the mean of its draw and its upper and left neighbours: three times it is at most their sum and more than their sum minus 3, so it lies between the least and the greatest of the three |
| Generators.GenerateRandomTerrain | generate_example.py:44-60 | 30 rows of 30; each cell is its draw on the first row and column, elsewhere the floor of the mean of its draw and its upper and left neighbours |
| Generators.TerrainWithin | generate_example.py:53-57 | smoothing keeps every height inside the range of the draws, so [0, 20] for the generator's draws |
| Generators.GeneratedGridReadsBack | generate_example.py:84-90 | a generated square grid reads back exactly from its file and can be drawn |
| Viewer.Frames | fdf_viewer.py:215-256 | the first n frames are n drawings, and frame k is the surface drawn from the camera reached by applying the keys of frames 0 .. k to the starting camera |
| Viewer.RunViewer | fdf_viewer.py:184-256 | the session ends with the camera reached by applying every frame to the starting camera, and frame k draws the surface seen from the camera after k + 1 frames |
| Viewer.FramesInRange | fdf_viewer.py:195-252 | every frame is drawn with the scale in [5, 100] and both angles in [0.1, 1.5] |
| Viewer.FirstFrameCentred | fdf_viewer.py:205-212 | before any key is held, the grid origin at height 0 is drawn at (600, 400) |

## Left out

- pygame: window, font, clock, event polling, `draw_ui`, `display.flip` and `clock.tick` are presentation and I/O. Drawing is modelled as a list of `Line` and `Dot` primitives; line width and dot radius are not kept.
- Quitting (window close or Escape) is not modelled: a session is a finite list of held-key frames.
- File and command-line I/O: `open`, `readlines`, the `FileNotFoundError` and other `Exception` branches that return `None`, `argv` checks, `sys.exit`, file writing in `save_fdf`, and all diagnostic `print`s. The reader takes the file's text and the writer returns it.
- `readlines` is modelled as splitting the text on `'\n'`; a line's trailing newline is removed by the strip anyway. Other line terminators are not modelled.
- `math.cos` and `math.sin` are supplied by the caller through `Projection.Trig`. Floating point is idealised as exact reals, so behaviour exactly at band edges and clamp limits may differ from IEEE doubles.
- `PyText.ParseInt`: `int()` is modelled as an optional sign followed by ASCII digits. Surrounding whitespace inside a token cannot occur after the split. Underscores between digits and non-ASCII Unicode digits, which `int()` also accepts, are not modelled.
- `generate_simple_mountain` and `generate_wave_pattern` use `sqrt`, `exp`, `sin` and `cos` on floats and are not modelled. `random.randint` is replaced by the `draws` matrix, whose entries stand for the values drawn.
- `Mesh.DrawSurface`: ragged grids whose rows are shorter than the first row would raise `IndexError` in the viewer. The model requires `Mesh.Drawable` instead of modelling the exception.
- `save_fdf` applies `int()` to each height. The model's grids already hold integers, so this conversion is the identity.
