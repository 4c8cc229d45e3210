# image-to-ascii in Dafny

A verified model of the conversion core of `image-to-ascii.py`. The program turns a raster
image into ASCII art in these steps:

1. Load the image as RGB and, when a maximum size is given, thumbnail it to that size.
2. Map every pixel to a brightness under one of three modes: `average`, `lightness` or `luminosity`.
3. Reshape the flat brightness list into rows.
4. Map each brightness to a character of a gradient key by rounding it to an index.
5. Repeat each character `repeat` times and join the rows with newlines.
6. Optionally save the text as `ascii_{mode}_{width}x{height}_{stem}.txt`.

One module models each step:

- `BrightnessMap` (`brightness.dfy`): pixels, modes and `calculate_brightness`. Python floats are exact reals here.
- `Grid` (`reshape.dfy`): the row reshape with Python's clamping slices, and its inverse `Flatten`.
- `Quantise` (`quantise.dfy`): Python's `round` (half to even) and the key index.
- `Renderer` (`render.dfy`): `char * repeat`, `''.join` and `'\n'.join`, with `split('\n')` as the inverse that reads the lines back.
- `Args` (`args.dfy`): how the variadic `max_size` argument resolves to a bound.
- `SaveName` (`savename.dfy`): the save file name. This covers `str(int)`, POSIX `basename` and `split('.')[0]`.
- `Pipeline` (`pipeline.dfy`): `image_to_ascii`.
  - The brightness loop is a method proved against a specification function.
  - The opening, converting and thumbnailing done by the imaging library are function parameters.

Three points where the model follows the code closely:

- The comment at line 51 promises a 100x100 default. The code sets no bound, and so does the model.
- The code does not clamp the key index. The model proves it is always in range, because every brightness lies in [0,255] (`Quantise.KeyIndexInRange`, `BrightnessMap.Brightness`).
- The width and height in the save file name are the requested bound when one is given, not the size of the thumbnail. This is because lines 71-74 overwrite `width, height` only in the unbounded case.

## Model

| member | source | states |
|---|---|---|
| BrightnessMap.Brightness | image-to-ascii.py:96-103 | every mode's brightness lies between the darkest and brightest channel, hence in [0,255]; a grey pixel keeps its value |
| BrightnessMap.CalculateBrightness | image-to-ascii.py:96-103 | a mode name yields the brightness of that mode; any other string yields None, exactly when it names no mode; a value is in [0,255] |
| BrightnessMap.ModeName | image-to-ascii.py:98-102 | the command-line spelling of each mode is a non-empty literal; `ParseMode` and `CalculateBrightness` prove that exactly these strings select a mode |
| BrightnessMap.ParseMode | image-to-ascii.py:98-102 | a string maps to a mode exactly when it is that mode's command-line name |
| BrightnessMap.Max3 | image-to-ascii.py:101 | `max(R, G, B)` is one of the three and bounds all of them |
| BrightnessMap.Min3 | image-to-ascii.py:101 | `min(R, G, B)` is one of the three and is below all of them |
| BrightnessMap.LuminosityWeightsSumToOne | image-to-ascii.py:103 | the luminosity weights 0.21, 0.72, 0.07 are non-negative and sum to 1 |
| BrightnessMap.BrightnessSamples | image-to-ascii.py:96-103 | lightness of (10,200,10) is 105, black averages to 0, white to 255, luminosity of pure red is 53.55 |
| Pipeline.BrightnessOf | image-to-ascii.py:77-80 | one brightness per pixel, each in [0,255] |
| Pipeline.BrightnessList | image-to-ascii.py:77-80 | the append loop produces exactly the brightness of each pixel, in pixel order |
| Grid.Slice | image-to-ascii.py:83 | a Python slice is never longer than the list and is the ordinary sub-sequence when both ends are in range |
| Grid.Row | image-to-ascii.py:83 | a row of the reshape never exceeds the width |
| Grid.Reshape | image-to-ascii.py:83 | the reshape has `height` rows |
| Grid.ReshapeRow | image-to-ascii.py:83 | when the list holds width*height items, row i is the slice `[i*width : (i+1)*width]` |
| Grid.ReshapeCell | image-to-ascii.py:83 | cell (i, j) is item `i*width + j` of the flat list |
| Grid.ReshapeRows | image-to-ascii.py:83 | every row has exactly `width` items |
| Grid.ReshapeElements | image-to-ascii.py:83 | every cell of the reshape is an item of the flat list, whatever its length |
| Grid.ReshapeTail | image-to-ascii.py:83 | the first row is the first `width` items and the other rows are the reshape of the rest |
| Grid.FlattenReshape | image-to-ascii.py:83 | concatenating the rows gives back the flat list |
| Grid.FlattenLength | image-to-ascii.py:83 | rows of a common width concatenate to width times their number of items |
| Grid.ReshapeFlatten | image-to-ascii.py:83 | reshaping the concatenation of rectangular rows gives back the rows |
| Quantise.RoundHalfEven | image-to-ascii.py:86 | `round` is within 0.5 of its argument and picks the even integer on a tie |
| Quantise.RoundHalfEvenUnique | image-to-ascii.py:86 | those two properties determine the rounded value |
| Quantise.RoundHalfEvenOfInt | image-to-ascii.py:86 | an integer rounds to itself |
| Quantise.RoundHalfEvenMonotone | image-to-ascii.py:86 | rounding preserves order |
| Quantise.Scaled | image-to-ascii.py:86 | `(b / 255) * (len(key) - 1)` lies in [0, len(key)-1] for a brightness in [0,255] |
| Quantise.KeyIndexInRange | image-to-ascii.py:86 | the key index is in bounds for a non-empty key and brightness in [0,255] |
| Quantise.KeyIndexEndpoints | image-to-ascii.py:86 | brightness 0 selects index 0, brightness 255 the last index |
| Quantise.KeyIndexMonotone | image-to-ascii.py:86 | a brighter pixel never selects an earlier key character |
| Quantise.KeyIndex | image-to-ascii.py:86 | `round((b / 255) * (len(key) - 1))`; no contract of its own: `KeyIndexInRange`, `KeyIndexEndpoints` and `KeyIndexMonotone` state that it is in bounds, hits both ends and is monotone |
| Quantise.QuantiseCell | image-to-ascii.py:86 | the selected character is a character of the key |
| Quantise.QuantiseGrid | image-to-ascii.py:86 | the character matrix has the brightness matrix's shape, row by row |
| Quantise.SingleCharKey | image-to-ascii.py:86 | a one-character key gives that character for every brightness |
| Quantise.QuantiseEndpoints | image-to-ascii.py:86 | black maps to the key's first character, full white to its last |
| Renderer.Repeat | image-to-ascii.py:89 | `c * n` has n copies of c, and is empty when n <= 0 |
| Renderer.RenderRow | image-to-ascii.py:89 | a rendered row is empty for repeat <= 0 and otherwise `len(row) * repeat` long |
| Renderer.RenderRowBlock | image-to-ascii.py:89 | position `i*repeat + t` of a rendered row holds `row[i]` |
| Renderer.RenderRowAt | image-to-ascii.py:89 | position j of a rendered row holds `row[j / repeat]` |
| Renderer.RenderRowChars | image-to-ascii.py:89 | a rendered row contains only characters of the row |
| Renderer.SplitLines | image-to-ascii.py:89 | splitting on newlines yields at least one line |
| Renderer.SplitSingle | image-to-ascii.py:89 | a newline-free string splits into itself |
| Renderer.SplitAfterLine | image-to-ascii.py:89 | splitting `a + "\n" + s` yields `a` followed by the lines of s |
| Renderer.SplitJoin | image-to-ascii.py:89 | splitting the newline join of non-empty newline-free lines gives back the lines |
| Renderer.CountAppend | image-to-ascii.py:89 | character counts add over concatenation |
| Renderer.CountAbsent | image-to-ascii.py:89 | an absent character counts zero |
| Renderer.JoinNewlines | image-to-ascii.py:89 | joining n newline-free lines inserts n-1 newlines |
| Renderer.Join | image-to-ascii.py:89 | `'\n'.join`; no contract of its own: `SplitJoin` proves that `split('\n')` inverts it on newline-free lines and `JoinNewlines` that it inserts one newline between lines |
| Renderer.Render | image-to-ascii.py:89 | the whole text of line 89; no contract of its own: `RenderLines`, `RenderCell` and `RenderNonPositiveRepeat` state its lines, their characters and the repeat <= 0 case |
| Renderer.RenderedRows | image-to-ascii.py:89 | one rendered line per matrix row, newline-free when the rows are |
| Renderer.RenderLines | image-to-ascii.py:89 | the rendered text splits back into the rendered rows: one line per row, rows-1 newlines |
| Renderer.RenderCell | image-to-ascii.py:89 | line i of the text is `len(row i) * repeat` long and its character j is `row_i[j / repeat]` |
| Renderer.JoinEmptyLines | image-to-ascii.py:89 | joining n empty lines gives n-1 newlines |
| Renderer.RenderNonPositiveRepeat | image-to-ascii.py:89 | with repeat <= 0 the text is only the row separators |
| Renderer.RenderSamples | image-to-ascii.py:89 | `["AB"]` renders as "AB" and with repeat 2 as "AABB", `["A","B"]` as "A\nB", no rows as "" |
| Args.ResolveMaxSize | image-to-ascii.py:52-57 | no values give no bound; otherwise the width is the first value and the height the second if present, else the first |
| Args.ExtraValuesIgnored | image-to-ascii.py:56-57 | values after the second do not change the bound |
| Args.SingleValueIsSquare | image-to-ascii.py:54-55 | one value n means the same as n n |
| SaveName.DigitValue | image-to-ascii.py:106 | a digit character's value is below 10 and maps back to it |
| SaveName.NatToDecimal | image-to-ascii.py:106 | `str(n)` is non-empty, all digits, with no leading zero |
| SaveName.DecimalRoundTrip | image-to-ascii.py:106 | reading the digits of `str(n)` back gives n |
| SaveName.IntToDecimal | image-to-ascii.py:106 | `str(n)` is non-empty and has no slash or dot |
| SaveName.Basename | image-to-ascii.py:106 | the base name is the slash-free suffix after the last slash |
| SaveName.BasenameAfterSlash | image-to-ascii.py:106 | the base name of `dir/name` is `name` |
| SaveName.Stem | image-to-ascii.py:106 | the stem is the dot-free prefix before the first dot |
| SaveName.StemBeforeDot | image-to-ascii.py:106 | the stem of `a.rest` is `a` when `a` has no dot |
| SaveName.SaveFileName | image-to-ascii.py:106 | the f-string `ascii_{mode}_{width}x{height}_{stem}.txt`; no contract of its own: `SaveFileNameHasNoSlash` states the name has no slash, and `IntToDecimal`, `Basename`, `Stem`, `BasenameAfterSlash` and `StemBeforeDot` characterise its parts |
| SaveName.SaveFileNameHasNoSlash | image-to-ascii.py:105-106 | the file name has no slash, so the file is written in the current directory |
| Pipeline.BrightnessMatrix | image-to-ascii.py:77-83 | the brightness matrix has `height` rows, every cell in [0,255] |
| Pipeline.BrightnessMatrixCell | image-to-ascii.py:77-83 | cell (i, j) is the brightness of pixel `i*width + j` |
| Pipeline.AsciiMatrix | image-to-ascii.py:86 | the character matrix has `height` rows |
| Pipeline.AsciiMatrixCell | image-to-ascii.py:77-86 | cell (i, j) is the key character for pixel `i*width + j` |
| Pipeline.AsciiMatrixRectangular | image-to-ascii.py:83-86 | every row of the character matrix is `width` long |
| Pipeline.AsciiMatrixNewlineFree | image-to-ascii.py:86 | a newline-free key gives newline-free rows |
| Pipeline.AsciiArt | image-to-ascii.py:89 | `ascii_output` for an image; no contract of its own: `AsciiArtLines`, `AsciiArtSamples` and `Renderer.RenderCell` with `AsciiMatrixCell` state its lines and characters |
| Pipeline.AsciiArtLines | image-to-ascii.py:77-89 | the text has `height` lines, `height-1` newlines, each line `width*repeat` long |
| Pipeline.AsciiArtSamples | image-to-ascii.py:77-89 | a black and a white pixel with key "AB" render as "AB", "AABB" with repeat 2, and "A\nB" stacked |
| Pipeline.LoadedImage | image-to-ascii.py:67-74 | the decoded image, thumbnailed only when a bound is given; no contract of its own: `ImageToAscii` states the text is rendered from it |
| Pipeline.ImageToAscii | image-to-ascii.py:61-94 | without a source the result is -1 and nothing else; otherwise the output is the rendered text of the loaded (thumbnailed) image, saved under the bound's name exactly when asked |

## Left out

- Opening, RGB conversion and thumbnailing (`Image.open`, `convert`, `thumbnail`, lines 67 and 71-72) belong to the imaging library. They are the function parameters `load` and `thumbnail` of `Pipeline.ImageToAscii`. These are total functions, so the exception `Image.open` raises for a missing or undecodable file (line 67) is not modelled. The aspect-preserving resize itself is not part of this model.
- `getdata()` is taken to yield the pixels in row-major order. The lemmas about cells require `width * height` pixels, which the library guarantees. Without that, the model still follows Python's clamping slices.
- Argument parsing with argparse (lines 5-49, 110-120) is left out. This includes the defaults, the `choices` check on `--mode` and integer conversion. The model starts from the parsed values: `Args.ResolveMaxSize` takes the list of integers and `Mode` takes the mode.
- Printing (lines 63, 68, 90 and the banner at 114-118) is left out because it is console output. The file write (lines 107-108) is modelled as the `SavedFile` value returned in the outcome.
- Python floats are modelled as exact reals. Rounding errors of IEEE arithmetic are not captured. Near a half-way point they could make `round` pick a different key character than the exact value does.
- Quantise.QuantiseCell: requires a non-empty key. With an empty key the source computes index `round(-b/255)` which is 0 or -1 (a tie at -0.5 goes to 0), and `key[0]` and `key[-1]` both raise IndexError on an empty key. This is not modelled.
- Pipeline.ImageToAscii: the `-1` return for a missing source is modelled. The source's implicit `None` return on success is not.
- Renderer.RenderCell: stated for `repeat >= 1` and newline-free rows. With a newline inside the key, the line structure of the text is not described.
- A cell-level statement that goes straight from the final text to a pixel is not a single lemma. It follows from `Renderer.RenderCell` together with `Pipeline.AsciiMatrixCell`, because `Pipeline.AsciiArt` is `Render` of `AsciiMatrix`.
