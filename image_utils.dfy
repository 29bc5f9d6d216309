/**
 * The image helpers: the gradient background drawn when no diffusion model
 * is available, and the layout of a photo quote (where the text, its
 * backing rectangle and the watermark go). Drawing glyphs, measuring text
 * with a font and encoding the picture as JPEG are not modelled; the
 * measured text size is an input.
 */
module Image {
  import opened Builtins

  type Channel = c: int | 0 <= c < 256

  /** One pixel of the `uint8` array, three channels. */
  datatype Rgb = Rgb(red: Channel, green: Channel, blue: Channel)

  const Black := Rgb(0, 0, 0)

  /** Default width and height of a generated background. */
  const DefaultSize := 1080

  // ----- create_gradient_background -----

  /** `int(c1 + (c2 - c1) * y / height)` for one channel. The value is never
      negative, so truncation is the floor, and the floor of `c1` plus a
      fraction is `c1` plus the floor of the fraction. */
  function GradientChannel(c1: Channel, c2: Channel, y: nat, height: nat): (v: int)
    requires y < height
    ensures Min(c1, c2) <= v && v <= if c1 <= c2 then c2 else c1
    ensures y == 0 ==> v == c1
  {
    GradientBetween(c1, c2, y, height);
    c1 + (c2 - c1) * y / height
  }

  lemma GradientBetween(c1: int, c2: int, y: nat, height: nat)
    requires y < height
    ensures c1 <= c2 ==> c1 <= c1 + (c2 - c1) * y / height <= c2
    ensures c2 < c1 ==> c2 <= c1 + (c2 - c1) * y / height <= c1
  {
    var d := c2 - c1;
    DivModUnique(d * height, height, d, 0);
    DivModUnique(0, height, 0, 0);
    if 0 <= d {
      MulMonotone(0, y, d);
      MulMonotone(y, height, d);
      DivMonotone(0, d * y, height);
      DivMonotone(d * y, d * height, height);
    } else {
      MulMonotone(y, height, -d);
      MulMonotone(0, y, -d);
      DivMonotone(d * y, 0, height);
      DivMonotone(d * height, d * y, height);
    }
  }

  /** The integer channel is the floor of the exact quotient the Python
      expression denotes. */
  lemma GradientIsFloor(c1: Channel, c2: Channel, y: nat, height: nat)
    requires y < height
    ensures var v := GradientChannel(c1, c2, y, height);
      var exact := c1 as real + (c2 - c1) as real * y as real / height as real;
      v as real <= exact < v as real + 1.0
  {
    var n := (c2 - c1) * y;
    var q, r := n / height, n % height;
    assert n == q * height + r;
    assert n as real == q as real * height as real + r as real;
    assert (c2 - c1) as real * y as real == n as real;
    assert n as real / height as real == q as real + r as real / height as real;
  }

  function GradientPixel(c1: Rgb, c2: Rgb, y: nat, height: nat): (p: Rgb)
    requires y < height
  {
    Rgb(GradientChannel(c1.red, c2.red, y, height),
        GradientChannel(c1.green, c2.green, y, height),
        GradientChannel(c1.blue, c2.blue, y, height))
  }

  /** Going down the picture every channel moves from `c1` toward `c2`
      without turning back. */
  lemma GradientMonotone(c1: Channel, c2: Channel, y1: nat, y2: nat, height: nat)
    requires y1 <= y2 < height
    ensures c1 <= c2 ==> GradientChannel(c1, c2, y1, height) <= GradientChannel(c1, c2, y2, height)
    ensures c2 < c1 ==> GradientChannel(c1, c2, y1, height) >= GradientChannel(c1, c2, y2, height)
  {
    var d := c2 - c1;
    if 0 <= d {
      MulMonotone(y1, y2, d);
      DivMonotone(d * y1, d * y2, height);
    } else {
      MulMonotone(y1, y2, -d);
      DivMonotone(d * y2, d * y1, height);
    }
  }

  /** `create_gradient_background`: a zeroed `height` x `width` array whose
      every pixel is then set, row by row, to the gradient colour of its row.
      The two colours drawn by `random.randint(0, 255)` are parameters. */
  method CreateGradientBackground(width: nat, height: nat, c1: Rgb, c2: Rgb) returns (g: array2<Rgb>)
    ensures fresh(g) && g.Length0 == height && g.Length1 == width
    ensures forall y, x :: 0 <= y < height && 0 <= x < width ==> g[y, x] == GradientPixel(c1, c2, y, height)
  {
    g := new Rgb[height, width]((y, x) => Black);
    var y := 0;
    while y < height
      invariant 0 <= y <= height
      invariant forall i, j :: 0 <= i < y && 0 <= j < width ==> g[i, j] == GradientPixel(c1, c2, i, height)
    {
      var x := 0;
      while x < width
        invariant 0 <= x <= width
        invariant forall i, j :: 0 <= i < y && 0 <= j < width ==> g[i, j] == GradientPixel(c1, c2, i, height)
        invariant forall j :: 0 <= j < x ==> g[y, j] == GradientPixel(c1, c2, y, height)
      {
        g[y, x] := GradientPixel(c1, c2, y, height);
        x := x + 1;
      }
      y := y + 1;
    }
  }

  /** `generate_background`: the diffusion picture when the model runs, the
      default-size gradient otherwise; the result says which. */
  method GenerateBackground(prompt: string, diffusionOk: bool, c1: Rgb, c2: Rgb)
    returns (usedDiffusion: bool, gradient: Option<array2<Rgb>>)
    ensures usedDiffusion == diffusionOk
    ensures diffusionOk ==> gradient.None?
    ensures !diffusionOk ==>
      gradient.Some? && fresh(gradient.value) &&
      gradient.value.Length0 == DefaultSize && gradient.value.Length1 == DefaultSize &&
      forall y, x :: 0 <= y < DefaultSize && 0 <= x < DefaultSize ==>
        gradient.value[y, x] == GradientPixel(c1, c2, y, DefaultSize)
  {
    if diffusionOk {
      return true, None;
    }
    var g := CreateGradientBackground(DefaultSize, DefaultSize, c1, c2);
    return false, Some(g);
  }

  // ----- generate_photo_quote -----

  const Padding := 20
  const Watermark := "Created with AI Content Platform"

  datatype Point = Point(x: real, y: real)

  /** What `generate_photo_quote` draws, in drawing order. */
  datatype QuoteLayout = QuoteLayout(
    resized: bool,           // the background was resized to the target size
    textAt: Point,           // top-left corner of the quote text
    backing: (Point, Point), // corners of the translucent rectangle
    watermarkAt: Point,
    watermark: string)

  /** The layout for a `width` x `height` picture over a background of size
      `background`, for a quote measuring `textSize`. Centring uses true
      division, so a corner may lie on a half pixel. */
  function LayoutQuote(width: int, height: int, background: (nat, nat), textSize: (nat, nat)): (l: QuoteLayout)
    ensures l.resized <==> background != (width, height)
    ensures var (tw, th) := textSize;
      l.textAt.x - 0.0 == width as real - (l.textAt.x + tw as real) &&
      l.textAt.y - 0.0 == height as real - (l.textAt.y + th as real)
    ensures var (tw, th) := textSize; var (lo, hi) := l.backing;
      l.textAt.x - lo.x == Padding as real && l.textAt.y - lo.y == Padding as real &&
      hi.x - (l.textAt.x + tw as real) == Padding as real && hi.y - (l.textAt.y + th as real) == Padding as real
    ensures l.watermarkAt == Point(10.0, (height - 20) as real) && l.watermark == Watermark
  {
    var (tw, th) := textSize;
    var at := Point((width - tw) as real / 2.0, (height - th) as real / 2.0);
    QuoteLayout(
      background.0 != width || background.1 != height,
      at,
      (Point(at.x - Padding as real, at.y - Padding as real),
       Point(at.x + tw as real + Padding as real, at.y + th as real + Padding as real)),
      Point(10.0, (height - 20) as real),
      Watermark)
  }

  /** The prompt sent to the diffusion model: the first 50 characters of
      the quote. */
  function BackgroundPrompt(text: string): (p: string)
    ensures var head := "Abstract background for quote: ";
      |p| == |head| + Min(50, |text|) && p[..|head|] == head && p[|head|..] == text[..|p| - |head|]
  {
    "Abstract background for quote: " + text[..Min(50, |text|)]
  }

  /** `<folder>/quote_<id>.jpg`, where `generate_photo_quote` saves its picture. */
  function QuotePath(folder: string, contentId: nat): string {
    PathJoin(folder, "quote_" + DecimalDigits(contentId) + ".jpg")
  }

  datatype PhotoQuote = PhotoQuote(backgroundPath: string, prompt: string, outputPath: string, layout: QuoteLayout)

  /** `generate_photo_quote`. `diffusionSize` is the size of the diffusion
      picture when the model runs; `opens` says whether that file can be
      opened again. Whenever the gradient is used instead (either failure)
      the background has the default size. */
  function GeneratePhotoQuote(text: string, contentId: nat, folder: string, width: int, height: int,
                              diffusionSize: Option<(nat, nat)>, opens: bool, textSize: (nat, nat)): (q: PhotoQuote)
    ensures q.outputPath == QuotePath(folder, contentId)
    ensures q.backgroundPath == PathJoin(folder, "background_" + DecimalDigits(contentId) + ".jpg")
    ensures q.layout.resized <==>
      if diffusionSize.Some? && opens then diffusionSize.value != (width, height)
      else width != DefaultSize || height != DefaultSize
  {
    var background := if diffusionSize.Some? && opens then diffusionSize.value else (DefaultSize, DefaultSize);
    PhotoQuote(
      PathJoin(folder, "background_" + DecimalDigits(contentId) + ".jpg"),
      BackgroundPrompt(text),
      QuotePath(folder, contentId),
      LayoutQuote(width, height, background, textSize))
  }
}
