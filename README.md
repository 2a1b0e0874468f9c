# ray_tracer core in Dafny

A model of the first building blocks of the `ray_tracer` crate: the float comparison
helpers, tuples that are points or vectors, RGB colours and their arithmetic, zero
matrices and their tolerance-based equality, and the `Canvas` that stores a grid of
colours and writes it out as a plain-text PPM ("P3") image.

The files:

- `number_utils.dfy` (`NumberUtils`): `compare_floats` and `compare_floats_32`.
- `tuples.dfy` (`Tuples`): `Tuple`, `TupleType`, `new_vector`, `new_point`, `get_type`.
- `color.dfy` (`Colors`): `Color`, the named colours, `+`, `-`, `*` by a scalar, `/` by a
  scalar, the Hadamard product, `is_equal_to`, `to_ppm_value` and `to_string`.
- `matrix.dfy` (`Matrices`): the 4x4, 3x3 and 2x2 zero matrices and `are_equal`.
- `text.dfy` (`Text`): the parts of Rust's string library the serialiser relies on:
  `join`, `split` at one separator, `trim`, and `{}` formatting of a whole number.
- `ppm.dfy` (`Ppm`): the PPM body as functions. `PackStep` is one turn of the wrapping
  loop of `format_vector`. `FormatRow` is what `format_vector` returns. `PpmData` is what
  `format_ppm_data` returns.
- `canvas.dfy` (`Canvases`): the `Canvas` class. Its `pixels` field is reassigned by
  `WritePixelAt`. `FormatPpmData` and `FormatVector` keep the source's loops and are
  proved equal to `PpmData` and `FormatRow`.
- `canvas_layout.dfy` (`CanvasLayout`): what the serialiser promises about its text:
  - every line is at most 70 characters;
  - every row ends with a newline;
  - cutting the text at newlines, then at spaces, gives back every pixel's three display
    values, row by row.
- `examples_canvas.dfy` (`CanvasExamples`): the canvas unit tests, each as a method that
  builds a canvas and returns what the test inspects, with its expected value proved.

Float types (`f32`, `f64`) are modelled as `real`. A channel's display value is the whole
number `to_ppm_value` produces, written with `Dec`. `Dec` is proved to read back through
`DecValue`.

### Behaviour of the code the model keeps

Some details of `format_vector` (`src/canvas/mod.rs:54-78`) are easy to miss; the model
keeps each of them:

- **The wrap test counts the newline.** `color_row` is the joined row followed by a
  newline, and the row is wrapped when that text is longer than 70
  (`src/canvas/mod.rs:55-58`). A row of exactly 70 visible characters is therefore
  wrapped.
- **The first packed line has a leading space.** Each line is built as
  `format!("{} {}", prev, v)`, starting from an empty `prev` (`src/canvas/mod.rs:60-64`).
  The 70-character test applies to that spaced text, so the first line of a wrapped row
  holds at most 69 visible characters. `trim` removes the space when the line is
  finished (`src/canvas/mod.rs:67`).
- **The newline is part of the last token.** The row is split at spaces after the
  newline was appended (`src/canvas/mod.rs:61`). So the last token is the last value
  followed by the newline, and its length counts in the test.
- **Line lengths in the 10 by 2 example.** The joined row of `Color(1, 0.8, 0.6)` pixels
  is 119 characters, or 120 with the newline (`CanvasExamples.LongRowLength`). The
  first line breaks after 17 values (`CanvasExamples.LongRowPack`).

## Model

| member | source | states |
|---|---|---|
| NumberUtils.CompareFloats | src/utils/mod.rs:4-6 | true exactly when `b` lies strictly inside the band of width 0.00001 around `a` |
| NumberUtils.CompareFloats32 | src/utils/mod.rs:8-10 | the f32 comparison gives the same verdict as the f64 one (same tolerance) |
| NumberUtils.CompareSymmetric | src/utils/mod.rs:4-6 | the comparison is symmetric |
| NumberUtils.CompareReflexive | src/utils/mod.rs:4-6 | every value compares equal to itself |
| NumberUtils.CompareStrict | src/utils/mod.rs:5 | values exactly one tolerance apart are not equal (the bound is strict) |
| NumberUtils.CompareTestValues | src/utils/mod.rs:17-30 | the verdicts the source's tests expect, including 1e-12 against 1e-5 being equal |
| Tuples.GetType | src/tuples/mod.rs:38-43 | a tuple is a vector exactly when `w` is within tolerance of 0 |
| Tuples.NewVector | src/tuples/mod.rs:20-27 | keeps x, y, z, sets w = 0, and the result is classified as a vector |
| Tuples.NewPoint | src/tuples/mod.rs:29-36 | keeps x, y, z, sets w = 1, and the result is classified as a point |
| Tuples.GetTypeTwoKinds | src/tuples/mod.rs:39-42 | a tuple is a point exactly when `w` is at least one tolerance away from 0 (w = 2 is a point) |
| Tuples.GetTypeTestValues | src/tuples/mod.rs:53-75 | the hand-built tuples of the tests classify as the tests expect |
| Colors.New | src/color/mod.rs:20-26 | the channels are the arguments, red, green, blue |
| Colors.Add | src/color/mod.rs:92-103 | each channel of the sum is the sum of the channels |
| Colors.Sub | src/color/mod.rs:105-115 | each channel of the difference is the difference of the channels |
| Colors.Scale | src/color/mod.rs:130-140 | each channel is multiplied by the scalar |
| Colors.Div | src/color/mod.rs:117-128 | each channel is divided by the (non-zero) scalar |
| Colors.Hadamard | src/color/mod.rs:142-153 | each channel is the product of the two channels |
| Colors.AddSubInverse | src/color/mod.rs:92-115 | subtracting undoes adding and adding undoes subtracting |
| Colors.ScaleDivInverse | src/color/mod.rs:117-140 | dividing by a non-zero scalar undoes multiplying by it, and back |
| Colors.ArithmeticLaws | src/color/mod.rs:50-153 | addition and the Hadamard product commute, addition associates, black and white are the identities, red + green + blue is white |
| Colors.IsEqualTo | src/color/mod.rs:37-41 | true exactly when all three channels are equal within tolerance |
| Colors.IsEqualToReflexiveSymmetric | src/color/mod.rs:37-41 | colour equality is reflexive and symmetric |
| Colors.ArithmeticTestValues | src/color/mod.rs:159-201 | the sums, differences and products of the tests equal the expected colours within tolerance |
| Colors.RoundNearest | src/color/mod.rs:29 | `round` gives a whole number within a half of its argument, with halves going away from zero |
| Colors.ToPpmValue | src/color/mod.rs:28-35 | the display value is always in 0..255 |
| Colors.ToPpmValueClamps | src/color/mod.rs:28-35 | 0 for channels at or below 0, 255 at or above 1, and in between within a half of 255 times the channel |
| Colors.ToPpmValueMonotonic | src/color/mod.rs:28-35 | a brighter channel never gets a smaller display value |
| Colors.ToPpmValueTestValues | src/color/mod.rs:28-35 | 1.5 gives 255, -0.5 gives 0, 0.5 gives 128, 0.8 gives 204, 0.6 gives 153 |
| Colors.PixelWords | src/color/mod.rs:43-47 | the three words are the decimal texts (`Dec`) of the red, green and blue display values: words of at most three digits that read back as those values |
| Colors.PixelText | src/color/mod.rs:43-48 | `to_string`; it has no contract of its own, and `Colors.PixelTextWords` states what its text is and reads back as |
| Colors.PixelTextWords | src/color/mod.rs:43-48 | the three words joined by single spaces; cutting it at the spaces reads the three display values back |
| Colors.NamedColorTexts | src/color/mod.rs:50-88 | black, white, red, green and blue print as "0 0 0", "255 255 255", "255 0 0", "0 255 0", "0 0 255" |
| Matrices.ConstructEmpty4x4 | src/matrix/mod.rs:8-11 | a 4 by 4 matrix of zeros |
| Matrices.ConstructEmpty3x3 | src/matrix/mod.rs:13-16 | a 3 by 3 matrix of zeros |
| Matrices.ConstructEmpty2x2 | src/matrix/mod.rs:18-21 | a 2 by 2 matrix of zeros |
| Matrices.AreEqual | src/matrix/mod.rs:23-41 | true exactly when the row counts and the first rows' widths agree and the first `len(m1)` entries of every row are equal within tolerance; the requires exclude the inputs on which the source panics, and also some ragged ones on which it does not |
| Matrices.RowCountsDiffer | src/matrix/mod.rs:24-26 | different row counts are never equal |
| Matrices.FirstRowWidthsDiffer | src/matrix/mod.rs:28-30 | different first-row widths are never equal |
| Matrices.SquareEquality | src/matrix/mod.rs:32-38 | for two n by n matrices the verdict is entry-wise equality within tolerance |
| Matrices.ColumnBoundQuirk | src/matrix/mod.rs:33 | two 2 by 3 matrices that differ only in the last column are reported equal |
| Matrices.EqualityTestValues | src/matrix/mod.rs:57-69 | zero 4x4 equals zero 4x4, not zero 3x3, and a 15.34 at [2][3] makes them differ |
| Matrices.AreEqualEntrywise | src/matrix/mod.rs:23-41 | with every column compared: true exactly when the shapes agree row by row and every entry is equal within tolerance |
| Matrices.SquareVerdictsAgree | src/matrix/mod.rs:32-38 | on square matrices the source's verdict and the entry-wise verdict coincide |
| Matrices.EntrywiseSeesLastColumn | src/matrix/mod.rs:33 | the entry-wise verdict tells the matrices of the quirk apart |
| Matrices.EntrywiseReflexiveSymmetric | src/matrix/mod.rs:23-41 | entry-wise equality is reflexive and symmetric |
| Text.Split | src/canvas/mod.rs:61 | at least one piece, and no piece holds the separator |
| Text.JoinSplit | src/canvas/mod.rs:55-61 | joining the pieces of a split with the separator gives the text back |
| Text.SplitJoin | src/canvas/mod.rs:55-61 | joining separator-free pieces and splitting again gives the pieces back |
| Text.Dec | src/color/mod.rs:47 | decimal digits only, at least one, no leading zero unless the number is 0, reading back as the number |
| Text.DecLength | src/color/mod.rs:28-35 | numbers below 1000, such as display values, have at most three digits |
| Text.TrimLeadingSpace | src/canvas/mod.rs:67 | trimming a line of words drops its leading space and nothing else |
| Canvases.Filled | src/canvas/mod.rs:19 | a grid of `height` rows of `width` cells, every cell the given colour |
| Canvases.HeaderLines | src/canvas/mod.rs:39-41 | the header is the lines "P3", the dimensions and "255"; the dimensions line is the two numbers |
| Canvases.Canvas.constructor | src/canvas/mod.rs:15-21 | a `width` by `height` canvas whose every pixel is black |
| Canvases.Canvas.WithColor | src/canvas/mod.rs:23-29 | a `width` by `height` canvas whose every pixel is the colour |
| Canvases.Canvas.PixelAt | src/canvas/mod.rs:31-33 | `get_pixel_at`: the cell `pixels[y][x]`; it has no contract of its own, and `WritePixelAt` states what it reads after a write, at the written cell and at every other cell |
| Canvases.Canvas.WritePixelAt | src/canvas/mod.rs:35-37 | the pixel at (x, y) becomes the colour; every other pixel and the dimensions stay |
| Canvases.Canvas.FormatPpmHeader | src/canvas/mod.rs:39-41 | four lines "P3", dimensions, "255", empty; the dimensions line is the width, a space and the height in decimal, and the two numbers read back as width and height |
| Canvases.Canvas.FormatPpmData | src/canvas/mod.rs:43-52 | the rows formatted and concatenated in order. If the canvas is at least one pixel wide: no line exceeds 70, the text ends with a newline when there is at least one row, and its words are every pixel's display values row by row. With no columns: one newline per row |
| Canvases.Canvas.FormatVector | src/canvas/mod.rs:54-78 | the loop computes `FormatRow`; for short words the text ends with a newline, no line exceeds 70, and its words are the row's words in order |
| CanvasLayout.PackFirst | src/canvas/mod.rs:63-71 | the first token starts the first line, behind a space |
| CanvasLayout.PackFlush | src/canvas/mod.rs:66-68 | a token that does not fit finishes the current line, trimmed, and starts the next |
| CanvasLayout.PackExtend | src/canvas/mod.rs:69-71 | a token that fits joins the current line after a space |
| CanvasLayout.PackGroups | src/canvas/mod.rs:63-72 | the loop state after any run of short words lays them out as lines that fit, in order |
| CanvasLayout.TrimCurrentLine | src/canvas/mod.rs:67 | finishing a line writes it without its leading space |
| CanvasLayout.FinishFlush | src/canvas/mod.rs:63-74 | a last token that does not fit goes on a line of its own, with the row's newline |
| CanvasLayout.FinishExtend | src/canvas/mod.rs:63-74 | a last token that fits ends the current line, with the row's newline |
| CanvasLayout.WrappedRowGroups | src/canvas/mod.rs:58-74 | a row too long for one line is packed into lines that fit, holding its words in order, the last with the row's newline |
| CanvasLayout.RowGroups | src/canvas/mod.rs:54-78 | `format_vector` of short words is a sequence of lines that fit, holding the words in order |
| CanvasLayout.RowLayout | src/canvas/mod.rs:54-78 | `format_vector` text ends with a newline, no line exceeds 70, the first is shorter than 70, and its words are the row's words |
| CanvasLayout.ShortRowUnchanged | src/canvas/mod.rs:55-57 | a row whose text with newline fits is returned as is; an empty row is a lone newline |
| CanvasLayout.RowWordsAt | src/canvas/mod.rs:47 | word 3x + i of a row is channel i of pixel x |
| CanvasLayout.RowTextJoin | src/canvas/mod.rs:47-55 | a row's pixel strings joined by spaces are its display values joined by spaces |
| CanvasLayout.RowFormat | src/canvas/mod.rs:46-49 | a non-empty pixel row comes out newline-terminated, in lines of at most 70, holding its display values in order |
| CanvasLayout.EmptyRowFormat | src/canvas/mod.rs:55 | a row with no pixels comes out as a lone newline |
| CanvasLayout.BodyLayout | src/canvas/mod.rs:43-52 | for a canvas at least one pixel wide: the body is empty exactly when there are no rows, ends with a newline otherwise, has no line over 70, and its words are every pixel's display values, row by row |
| CanvasLayout.EmptyRowsLayout | src/canvas/mod.rs:43-52 | a canvas with no columns gives one newline per row |
| CanvasExamples.NewCanvasExample | src/canvas/mod.rs:97-104 | a new 10 by 20 canvas has 20 rows and black corners |
| CanvasExamples.WritePixelExample | src/canvas/mod.rs:106-115 | (2, 3) is black before and red after writing red there |
| CanvasExamples.HeaderExample | src/canvas/mod.rs:117-123 | the header of a 10 by 20 canvas is "P3\n10 20\n255\n" |
| CanvasExamples.FormatDataExample | src/canvas/mod.rs:125-140 | the 5 by 3 body of the test, channels clamped, one line per row |
| CanvasExamples.SmallBody | src/canvas/mod.rs:125-140 | the body of that grid as a function of the pixels |
| CanvasExamples.LongDataExample | src/canvas/mod.rs:142-150 | the 10 by 2 body of the test: each row wrapped into a line of 17 values and one of 13 |
| CanvasExamples.LongBody | src/canvas/mod.rs:142-150 | the body of that grid as a function of the pixels |
| CanvasExamples.LongRowPack | src/canvas/mod.rs:58-74 | the loop on that row's 30 tokens breaks before token 17 and keeps the newline on the last line |
| CanvasExamples.LongRowLength | src/canvas/mod.rs:55-58 | that row's joined text is 119 characters, so it is wrapped |

## Left out

- `save_to_disk` (`src/canvas/mod.rs:80-90`) writes a file. It is I/O and is not modelled.
- `src/main.rs` only drives the library and is not part of this model.
- Floating point:
  - `f32` and `f64` are modelled as exact reals, so the model has no rounding error, no
    NaN, no infinities and no negative zero.
  - In particular, a channel of -0.0, or one in the open interval (-0.5/255, 0), rounds in
    Rust to -0.0. That passes the clamp and prints as "-0"; here it prints as "0". A
    channel of exactly +0.0 prints as "0" in both.
  - The f32 and f64 comparisons (`compare_floats_32`, `compare_floats`) are the same
    function of reals.
- Colors.Div: requires a non-zero scalar. Rust's division by zero yields infinities or NaN, which reals cannot represent.
- Canvases.Canvas.WritePixelAt: requires the coordinates to be on the canvas. Rust panics on an out-of-range index; the panic is not modelled.
- Canvases.Canvas.PixelAt: requires the coordinates to be on the canvas, for the same reason: `get_pixel_at` panics on an out-of-range index.
- Matrices.AreEqual: requires `m1[0]` to exist when the row counts agree, and every row of both matrices to be at least `len(m1)` wide when the first rows agree. This excludes every input on which the source panics, which is not modelled. It also excludes some ragged inputs on which the source does not panic: with `m1 = [[0, 0], [0]]` and `m2 = [[0, 5], [0]]` the source returns false at `[0][1]` before it reaches the short row.
- `usize` dimensions are `nat`; allocation failure and overflow are not modelled.
- Rust's `{}` formatting of an `f32` is modelled only for the whole numbers 0..255 that
  `to_ppm_value` produces.
- `len()` counts bytes in Rust and characters here. Every character the serialiser writes
  is ASCII, so the two agree.
- CanvasLayout.RowLayout: stated for rows whose words are each shorter than 70 characters. That holds for every canvas row, whose words have at most three digits (`RowFormat`).

## Findings

| source | as written | input that shows it | evidently intended | confidence | as-written member | corrected member |
|---|---|---|---|---|---|---|
| src/matrix/mod.rs:33 | the inner loop over columns runs to `m1.len()`, the row count | `[[0,0,0],[0,0,0]]` and `[[0,0,5],[0,0,5]]` compare equal; a 3 by 2 matrix against itself indexes past the row end | compare every entry of every row, bounded by the row's own width | medium, not executed; the crate only builds square matrices, where both agree | Matrices.ColumnBoundQuirk | Matrices.AreEqualEntrywise |
