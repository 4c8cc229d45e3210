/**
  * The body of `image_to_ascii` (image-to-ascii.py:61-94): the missing-source
  * guard, the per-pixel brightness loop, reshape, quantisation, rendering and
  * the optional save. Opening, converting and thumbnailing the image are done
  * by the imaging library; here they are the `load` parameter.
  */
module Pipeline {
  import opened Wrappers
  import opened BrightnessMap
  import opened Grid
  import opened Quantise
  import opened Renderer
  import opened Args
  import opened SaveName

  /** A decoded RGB image: its size and its pixels in row-major order, as `getdata()` yields them. */
  datatype Image = Image(width: nat, height: nat, pixels: seq<Pixel>)
  {
    predicate WellFormed()
    {
      |pixels| == width * height
    }
  }

  /** A file written by `save_ascii`. */
  datatype SavedFile = SavedFile(name: string, contents: string)

  /** What one run of `image_to_ascii` does: give up with -1, or print (and perhaps save) the text. */
  datatype Outcome = MissingSource(code: int) | Converted(output: string, saved: Option<SavedFile>)

  /** The brightness of every pixel, in order. */
  function BrightnessOf(pixels: seq<Pixel>, mode: Mode): (flat: seq<real>)
    ensures |flat| == |pixels|
    ensures forall k :: 0 <= k < |flat| ==> 0.0 <= flat[k] <= 255.0
  {
    seq(|pixels|, k requires 0 <= k < |pixels| => Brightness(pixels[k], mode))
  }

  /** The loop at image-to-ascii.py:77-80, appending one brightness per pixel. */
  method BrightnessList(pixels: seq<Pixel>, mode: Mode) returns (flat: seq<real>)
    ensures flat == BrightnessOf(pixels, mode)
  {
    flat := [];
    for i := 0 to |pixels|
      invariant |flat| == i
      invariant forall k :: 0 <= k < i ==> flat[k] == Brightness(pixels[k], mode)
    {
      var brightness := Brightness(pixels[i], mode);
      flat := flat + [brightness];
    }
  }

  /** The brightness matrix reshaped to the image's rows. */
  function BrightnessMatrix(image: Image, mode: Mode): (grid: seq<seq<real>>)
    ensures |grid| == image.height
    ensures InRange(grid)
  {
    ReshapeElements(BrightnessOf(image.pixels, mode), image.width, image.height);
    Reshape(BrightnessOf(image.pixels, mode), image.width, image.height)
  }

  /** The character matrix `ascii_matrix`. */
  function AsciiMatrix(image: Image, mode: Mode, key: string): (chars: seq<string>)
    requires |key| >= 1
    ensures |chars| == image.height
  {
    QuantiseGrid(BrightnessMatrix(image, mode), key)
  }

  /** The text `ascii_output`. */
  function AsciiArt(image: Image, mode: Mode, key: string, repeat: int): string
    requires |key| >= 1
  {
    Render(AsciiMatrix(image, mode, key), repeat)
  }

  /**
    * The image `image_to_ascii` works on: the decoded RGB image, thumbnailed
    * to the bound when one is given.
    */
  function LoadedImage(path: string, bound: Bound, load: string -> Image, thumbnail: (Image, int, int) -> Image): Image
  {
    match bound
    case Unbounded => load(path)
    case Box(w, h) => thumbnail(load(path), w, h)
  }

  /**
    * `image_to_ascii`. Without a source it returns -1 before loading
    * anything; otherwise it loads the image (thumbnailed to the bound if one
    * is given), renders it, and saves the text when asked.
    */
  method ImageToAscii(source: Option<string>, bound: Bound, mode: Mode, repeat: int, key: string, save: bool,
                      load: string -> Image, thumbnail: (Image, int, int) -> Image)
    returns (outcome: Outcome)
    requires |key| >= 1
    ensures source == None <==> outcome == MissingSource(-1)
    ensures source.Some? ==>
      var image := LoadedImage(source.value, bound, load, thumbnail);
      var size := if bound.Box? then (bound.width, bound.height) else (image.width, image.height);
      && outcome.Converted?
      && outcome.output == AsciiArt(image, mode, key, repeat)
      && outcome.saved == if save then Some(SavedFile(SaveFileName(mode, size.0, size.1, source.value), outcome.output))
                          else None
  {
    if source == None {
      return MissingSource(-1);
    }
    var path := source.value;
    var image := load(path);
    var width, height;
    match bound {
      case Box(w, h) =>
        image := thumbnail(image, w, h);
        width, height := w, h;
      case Unbounded =>
        width, height := image.width, image.height;
    }
    assert image == LoadedImage(path, bound, load, thumbnail);
    var flat := BrightnessList(image.pixels, mode);
    var brightnessMatrix := Reshape(flat, image.width, image.height);
    assert brightnessMatrix == BrightnessMatrix(image, mode);
    var asciiMatrix := QuantiseGrid(brightnessMatrix, key);
    var output := Render(asciiMatrix, repeat);
    var saved := None;
    if save {
      saved := Some(SavedFile(SaveFileName(mode, width, height, path), output));
    }
    outcome := Converted(output, saved);
  }

  /** Cell (i, j) of the brightness matrix is the brightness of pixel `i * width + j`. */
  lemma BrightnessMatrixCell(image: Image, mode: Mode, i: nat, j: nat)
    requires image.WellFormed() && i < image.height && j < image.width
    ensures |BrightnessMatrix(image, mode)[i]| == image.width
    ensures i * image.width + j < |image.pixels|
    ensures BrightnessMatrix(image, mode)[i][j] == Brightness(image.pixels[i * image.width + j], mode)
  {
    var flat := BrightnessOf(image.pixels, mode);
    assert BrightnessMatrix(image, mode) == Reshape(flat, image.width, image.height);
    ReshapeRow(flat, image.width, image.height, i);
    ReshapeCell(flat, image.width, image.height, i, j);
    var n := i * image.width + j;
    assert flat[n] == Brightness(image.pixels[n], mode);
  }

  /**
    * The character matrix has the image's shape, and cell (i, j) is the key
    * character for the brightness of pixel `i * width + j`.
    */
  lemma AsciiMatrixCell(image: Image, mode: Mode, key: string, i: nat, j: nat)
    requires |key| >= 1 && image.WellFormed() && i < image.height && j < image.width
    ensures |AsciiMatrix(image, mode, key)[i]| == image.width
    ensures i * image.width + j < |image.pixels|
    ensures AsciiMatrix(image, mode, key)[i][j] == QuantiseCell(Brightness(image.pixels[i * image.width + j], mode), key)
  {
    var grid := BrightnessMatrix(image, mode);
    BrightnessMatrixCell(image, mode, i, j);
    assert QuantiseGrid(grid, key)[i][j] == QuantiseCell(grid[i][j], key);
  }

  /** Every row of the character matrix has the image's width. */
  lemma AsciiMatrixRectangular(image: Image, mode: Mode, key: string)
    requires |key| >= 1 && image.WellFormed()
    ensures Rectangular(AsciiMatrix(image, mode, key), image.width)
  {
    ReshapeRows(BrightnessOf(image.pixels, mode), image.width, image.height);
  }

  /** A newline-free key gives newline-free rows. */
  lemma AsciiMatrixNewlineFree(image: Image, mode: Mode, key: string)
    requires |key| >= 1 && '\n' !in key
    ensures NewlineFree(AsciiMatrix(image, mode, key))
  {
    var chars := AsciiMatrix(image, mode, key);
    forall i | 0 <= i < |chars|
      ensures '\n' !in chars[i]
    {
      forall k | 0 <= k < |chars[i]|
        ensures chars[i][k] != '\n'
      {
        assert chars[i][k] in key;
      }
    }
  }

  /**
    * End to end: for a non-empty image, a newline-free key and `repeat >= 1`,
    * the text has `height` lines separated by `height - 1` newlines, each line
    * `width * repeat` characters long.
    */
  lemma AsciiArtLines(image: Image, mode: Mode, key: string, repeat: int)
    requires |key| >= 1 && '\n' !in key && image.WellFormed() && image.height >= 1 && repeat >= 1
    ensures |SplitLines(AsciiArt(image, mode, key, repeat))| == image.height
    ensures Count(AsciiArt(image, mode, key, repeat), '\n') == image.height - 1
    ensures forall i :: 0 <= i < image.height ==>
              |SplitLines(AsciiArt(image, mode, key, repeat))[i]| == image.width * repeat
  {
    var chars := AsciiMatrix(image, mode, key);
    AsciiMatrixNewlineFree(image, mode, key);
    AsciiMatrixRectangular(image, mode, key);
    RenderLines(chars, repeat);
    forall i | 0 <= i < image.height
      ensures |SplitLines(AsciiArt(image, mode, key, repeat))[i]| == image.width * repeat
    {
      assert |RenderRow(chars[i], repeat)| == |chars[i]| * repeat;
    }
  }

  /** The end-to-end samples: black then white, average mode, key "AB". */
  lemma AsciiArtSamples()
    ensures AsciiArt(Image(2, 1, [Pixel(0, 0, 0), Pixel(255, 255, 255)]), Average, "AB", 1) == "AB"
    ensures AsciiArt(Image(2, 1, [Pixel(0, 0, 0), Pixel(255, 255, 255)]), Average, "AB", 2) == "AABB"
    ensures AsciiArt(Image(1, 2, [Pixel(0, 0, 0), Pixel(255, 255, 255)]), Average, "AB", 1) == "A\nB"
  {
    var wide := Image(2, 1, [Pixel(0, 0, 0), Pixel(255, 255, 255)]);
    var tall := Image(1, 2, [Pixel(0, 0, 0), Pixel(255, 255, 255)]);
    BrightnessSamples();
    QuantiseEndpoints("AB");
    AsciiMatrixCell(wide, Average, "AB", 0, 0);
    AsciiMatrixCell(wide, Average, "AB", 0, 1);
    var m := AsciiMatrix(wide, Average, "AB");
    assert m[0][0] == 'A' && m[0][1] == 'B';
    assert m[0] == "AB";
    assert m == ["AB"];
    AsciiMatrixCell(tall, Average, "AB", 0, 0);
    AsciiMatrixCell(tall, Average, "AB", 1, 0);
    var n := AsciiMatrix(tall, Average, "AB");
    assert n[0][0] == 'A' && n[1][0] == 'B';
    assert n[0] == "A" && n[1] == "B";
    assert n == ["A", "B"];
    RenderSamples();
  }
}
