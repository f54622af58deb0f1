/**
  The companion normal map: a coarse "cardboard" height field of the scaled
  frame size, a fine "photo grain" field pasted into the scaled photo
  rectangle, and a Sobel-style gradient turned into an R/G offset around
  neutral grey with blue pinned at 255.

  `Image.effect_noise`, `GaussianBlur`, the 3x3 `Kernel` filter and
  `ImageEnhance.Contrast` are parameters: their arithmetic is PIL's.
 */
module Texture {
  import opened Arith
  import opened Raster

  /** The horizontal gradient kernel, row by row. */
  const KernelX: seq<int> := [-1, 0, 1, -2, 0, 2, -1, 0, 1]

  /** The vertical gradient kernel, row by row. */
  const KernelY: seq<int> := [-1, -2, -1, 0, 0, 0, 1, 2, 1]

  /** The total weight of a 3x3 kernel. */
  function Weight(k: seq<int>): int
    requires |k| == 9
  {
    k[0] + k[1] + k[2] + k[3] + k[4] + k[5] + k[6] + k[7] + k[8]
  }

  /** Both kernels weigh to zero (a flat field has no gradient) and the vertical one is the horizontal one transposed. */
  lemma KernelsBalanced()
    ensures |KernelX| == 9 && |KernelY| == 9
    ensures Weight(KernelX) == 0 && Weight(KernelY) == 0
    ensures forall r, c :: 0 <= r < 3 && 0 <= c < 3 ==> KernelY[3 * r + c] == KernelX[3 * c + r]
  {
  }

  datatype TextureOps = TextureOps(
    /** `GaussianBlur(radius=1.0)` at one pixel. */
    smooth: (Image<Byte>, int, int) -> Byte,
    /** `ImageFilter.Kernel((3, 3), kernel, scale=1)` at one pixel. */
    convolve: (Image<Byte>, seq<int>, int, int) -> Byte,
    /** `ImageEnhance.Contrast(img).enhance(factor)` at one pixel. */
    contrast: (Image<Byte>, real, int, int) -> Byte)

  /**
    `generate_noise_layer(width, height, roughness)`: the noise PIL draws for
    this call (`field`, whose spread the roughness sets) smoothed by a blur.
   */
  function GenerateNoiseLayer(w: nat, h: nat, field: (int, int) -> Byte, ops: TextureOps): (layer: Image<Byte>)
    ensures layer.HasSize(w, h)
  {
    var noise: Image<Byte> := Image(w, h, seq(h, (y: int) => seq(w, (x: int) => field(x, y))));
    Filter(noise, ops.smooth)
  }

  // ---------------------------------------------------------------- channel mapping

  /** `ImageChops.add(a, b, scale)` at one pixel: `(a + b) / scale`, truncated and clipped. */
  function ChopAdd(a: Byte, b: Byte, scale: real): Byte
    requires scale > 0.0
  {
    Clamp8(Trunc((a + b) as real / scale))
  }

  /** `ImageChops.subtract(a, b, scale)` at one pixel: `(a - b) / scale`, truncated and clipped. */
  function ChopSubtract(a: Byte, b: Byte, scale: real): Byte
    requires scale > 0.0
  {
    Clamp8(Trunc((a - b) as real / scale))
  }

  /** The red channel as the source computes it: `ImageChops.add(gray, dx, scale=0.5)`. */
  function NormalRedAsWritten(dx: Byte): (r: Byte)
    ensures r == 255
  {
    assert (128 + dx) as real / 0.5 == (2 * (128 + dx)) as real;
    TruncIs((2 * (128 + dx)) as real, 2 * (128 + dx));
    ChopAdd(128, dx, 0.5)
  }

  /** The green channel as the source computes it: `ImageChops.subtract(gray, dy, scale=0.5)`. */
  function NormalGreenAsWritten(dy: Byte): (g: Byte)
    ensures g == Clamp8(256 - 2 * dy)
  {
    assert (128 - dy) as real / 0.5 == (256 - 2 * dy) as real;
    ChopSubtract(128, dy, 0.5)
  }

  /**
    Dividing by a scale of 0.5 doubles instead of damping: the red channel is
    255 whatever the slope, and a flat green slope reads 255 instead of 128.
   */
  lemma {:induction false} AsWrittenChannelsSaturate(dx: Byte, dy: Byte)
    ensures NormalRedAsWritten(dx) == 255
    ensures NormalGreenAsWritten(0) == 255
    ensures dy >= 128 ==> NormalGreenAsWritten(dy) == 0
  {
  }

  /** The red channel as intended: neutral grey 128 plus half the slope. */
  function NormalRed(dx: Byte): (r: Byte)
    ensures r == 128 + dx / 2
  {
    assert 128.0 + dx as real * 0.5 == ((256 + dx) * 1) as real / 2 as real;
    TruncRatio(256 + dx, 1, 2);
    Trunc(128.0 + dx as real * 0.5)
  }

  /** The green channel as intended: neutral grey 128 minus half the slope. */
  function NormalGreen(dy: Byte): (g: Byte)
    ensures g == (256 - dy) / 2
  {
    assert 128.0 - dy as real * 0.5 == ((256 - dy) * 1) as real / 2 as real;
    TruncRatio(256 - dy, 1, 2);
    Trunc(128.0 - dy as real * 0.5)
  }

  /**
    The intended mapping keeps a flat surface at neutral grey and tells
    slopes apart: red rises and green falls as the gradient grows, each
    staying on its half of the range.
   */
  lemma {:induction false} IntendedChannelsEncodeSlope(a: Byte, b: Byte)
    ensures NormalRed(0) == 128 && NormalGreen(0) == 128
    ensures 128 <= NormalRed(a) <= 255 && 0 <= NormalGreen(a) <= 128
    ensures a + 2 <= b ==> NormalRed(a) < NormalRed(b) && NormalGreen(b) < NormalGreen(a)
  {
  }

  // ---------------------------------------------------------------- normal map

  /** `height_map.filter(kernel)`: every pixel is the kernel applied around it in the height field. */
  function Convolved(heights: Image<Byte>, kernel: seq<int>, ops: TextureOps): (c: Image<Byte>)
    requires heights.Valid()
    ensures c.HasSize(heights.width, heights.height)
    ensures forall x, y :: 0 <= x < heights.width && 0 <= y < heights.height ==>
      c.At(x, y) == ops.convolve(heights, kernel, x, y)
  {
    Filter(heights, (im: Image<Byte>, x: int, y: int) => ops.convolve(im, kernel, x, y))
  }

  /**
    One gradient image: the height field through a 3x3 kernel, then
    contrast-enhanced. The enhancement sees the whole convolved image, as
    `ImageEnhance.Contrast` grades against the image's mean.
   */
  function Gradient(heights: Image<Byte>, kernel: seq<int>, intensity: real, ops: TextureOps): (d: Image<Byte>)
    requires heights.Valid()
    ensures d.HasSize(heights.width, heights.height)
    ensures forall x, y :: 0 <= x < heights.width && 0 <= y < heights.height ==>
      d.At(x, y) == ops.contrast(Convolved(heights, kernel, ops), intensity, x, y)
  {
    var raw := Convolved(heights, kernel, ops);
    Filter(raw, (im: Image<Byte>, x: int, y: int) => ops.contrast(im, intensity, x, y))
  }

  /**
    `height_to_normal(height_map, intensity)` as written: gradients by the
    two kernels, contrast-enhanced, put through `ImageChops.add` and
    `ImageChops.subtract` against grey 128 with scale 0.5, blue fixed at 255.
    Red comes out saturated at every pixel.
   */
  function HeightToNormal(heights: Image<Byte>, intensity: real, ops: TextureOps): (normal: Image<Rgb>)
    requires heights.Valid()
    ensures normal.HasSize(heights.width, heights.height)
    ensures forall x, y :: 0 <= x < heights.width && 0 <= y < heights.height ==>
      && normal.At(x, y).b == 255
      && normal.At(x, y).r == 255
      && normal.At(x, y).g == Clamp8(256 - 2 * Gradient(heights, KernelY, intensity, ops).At(x, y))
  {
    var ex := Gradient(heights, KernelX, intensity, ops);
    var ey := Gradient(heights, KernelY, intensity, ops);
    Image(heights.width, heights.height,
      seq(heights.height, y requires 0 <= y < heights.height =>
        seq(heights.width, x requires 0 <= x < heights.width =>
          Rgb(NormalRedAsWritten(ex.rows[y][x]), NormalGreenAsWritten(ey.rows[y][x]), 255))))
  }

  /**
    The normal map as intended: red and green are grey 128 plus and minus
    half of the two gradients, so every pixel records both slopes.
   */
  function HeightToNormalCorrected(heights: Image<Byte>, intensity: real, ops: TextureOps): (normal: Image<Rgb>)
    requires heights.Valid()
    ensures normal.HasSize(heights.width, heights.height)
    ensures forall x, y :: 0 <= x < heights.width && 0 <= y < heights.height ==>
      && normal.At(x, y).b == 255
      && normal.At(x, y).r == 128 + Gradient(heights, KernelX, intensity, ops).At(x, y) / 2
      && normal.At(x, y).g == (256 - Gradient(heights, KernelY, intensity, ops).At(x, y)) / 2
  {
    var ex := Gradient(heights, KernelX, intensity, ops);
    var ey := Gradient(heights, KernelY, intensity, ops);
    Image(heights.width, heights.height,
      seq(heights.height, y requires 0 <= y < heights.height =>
        seq(heights.width, x requires 0 <= x < heights.width =>
          Rgb(NormalRed(ex.rows[y][x]), NormalGreen(ey.rows[y][x]), 255))))
  }

  // ---------------------------------------------------------------- geometry

  /** The map size and the photo rectangle, both scaled down by the factor. */
  datatype NormalGeometry = NormalGeometry(targetWidth: nat, targetHeight: nat, px: nat, py: nat, pw: nat, ph: nat)

  /** `int(v * scale_factor)` for a non-negative size or coordinate. */
  function Scale(v: nat, s: real): (r: nat)
    requires s >= 0.0
    ensures r as real <= v as real * s < r as real + 1.0
  {
    ScaleNonNeg(v, s);
    Trunc(v as real * s)
  }

  function ScaleGeometry(totalWidth: nat, totalHeight: nat, x: nat, y: nat, w: nat, h: nat, s: real): NormalGeometry
    requires s >= 0.0
  {
    NormalGeometry(Scale(totalWidth, s), Scale(totalHeight, s), Scale(x, s), Scale(y, s), Scale(w, s), Scale(h, s))
  }

  /** Scaling a sum down never yields less than scaling the parts separately. */
  lemma ScaleSuperadditive(a: nat, b: nat, c: nat, s: real)
    requires s >= 0.0 && a + b <= c
    ensures Scale(a, s) + Scale(b, s) <= Scale(c, s)
  {
    ScaleNonNeg(a, s);
    ScaleNonNeg(b, s);
    TruncAddLe(a as real * s, b as real * s);
    assert a as real * s + b as real * s == (a + b) as real * s;
    MulLeft(s, (a + b) as real, c as real);
    TruncMonotone((a + b) as real * s, c as real * s);
  }

  /** A photo rectangle inside the frame stays inside the scaled map, so the fine-noise paste is never clipped. */
  lemma {:induction false} ScaledPhotoFits(totalWidth: nat, totalHeight: nat, x: nat, y: nat, w: nat, h: nat, s: real)
    requires s >= 0.0 && x + w <= totalWidth && y + h <= totalHeight
    ensures var g := ScaleGeometry(totalWidth, totalHeight, x, y, w, h, s);
      g.px + g.pw <= g.targetWidth && g.py + g.ph <= g.targetHeight
  {
    ScaleSuperadditive(x, w, totalWidth, s);
    ScaleSuperadditive(y, h, totalHeight, s);
  }

  /** The combined height field: the coarse field with the fine one pasted at the scaled photo position. */
  function CombinedHeight(g: NormalGeometry, coarse: (int, int) -> Byte, fine: (int, int) -> Byte, ops: TextureOps)
    : (heights: Image<Byte>)
    ensures heights.HasSize(g.targetWidth, g.targetHeight)
  {
    var base := GenerateNoiseLayer(g.targetWidth, g.targetHeight, coarse, ops);
    var photo := GenerateNoiseLayer(g.pw, g.ph, fine, ops);
    Paste(base, photo, g.px, g.py)
  }

  /**
    Only the scaled photo rectangle of the coarse field is replaced: there
    the fine grain shows, everywhere else the cardboard noise is unchanged.
   */
  lemma {:induction false} FinePasteFrame(
    g: NormalGeometry, coarse: (int, int) -> Byte, fine: (int, int) -> Byte, ops: TextureOps, i: int, j: int)
    requires 0 <= i < g.targetWidth && 0 <= j < g.targetHeight
    ensures var v := CombinedHeight(g, coarse, fine, ops).At(i, j);
      && (InRect(i, j, g.px, g.py, g.pw, g.ph) ==> v == GenerateNoiseLayer(g.pw, g.ph, fine, ops).At(i - g.px, j - g.py))
      && (!InRect(i, j, g.px, g.py, g.pw, g.ph) ==> v == GenerateNoiseLayer(g.targetWidth, g.targetHeight, coarse, ops).At(i, j))
  {
  }

  /**
    When the photo rectangle lies inside the frame, no fine-noise pixel is
    clipped: each one lands in the combined field at its offset position.
   */
  lemma {:induction false} FineLayerWhole(
    totalWidth: nat, totalHeight: nat, x: nat, y: nat, w: nat, h: nat, s: real,
    coarse: (int, int) -> Byte, fine: (int, int) -> Byte, ops: TextureOps, a: int, b: int)
    requires s >= 0.0 && x + w <= totalWidth && y + h <= totalHeight
    requires 0 <= a < Scale(w, s) && 0 <= b < Scale(h, s)
    ensures var g := ScaleGeometry(totalWidth, totalHeight, x, y, w, h, s);
      && g.px + a < g.targetWidth && g.py + b < g.targetHeight
      && CombinedHeight(g, coarse, fine, ops).At(g.px + a, g.py + b) == GenerateNoiseLayer(g.pw, g.ph, fine, ops).At(a, b)
  {
    ScaledPhotoFits(totalWidth, totalHeight, x, y, w, h, s);
    var g := ScaleGeometry(totalWidth, totalHeight, x, y, w, h, s);
    FinePasteFrame(g, coarse, fine, ops, g.px + a, g.py + b);
  }

  /**
    `create_combined_normal(total_size, photo_rect, scale_factor)`: a normal
    map of exactly the scaled size, blue 255 everywhere.
   */
  function CreateCombinedNormal(
    totalWidth: nat, totalHeight: nat, x: nat, y: nat, w: nat, h: nat, s: real,
    coarse: (int, int) -> Byte, fine: (int, int) -> Byte, ops: TextureOps): (normal: Image<Rgb>)
    requires s >= 0.0
    ensures normal.Valid()
    ensures normal.width as real <= totalWidth as real * s < normal.width as real + 1.0
    ensures normal.height as real <= totalHeight as real * s < normal.height as real + 1.0
    ensures forall i, j :: 0 <= i < normal.width && 0 <= j < normal.height ==>
      normal.At(i, j).r == 255 && normal.At(i, j).b == 255
  {
    var g := ScaleGeometry(totalWidth, totalHeight, x, y, w, h, s);
    HeightToNormal(CombinedHeight(g, coarse, fine, ops), 2.0, ops)
  }

  /** The combined normal map with the intended channel mapping: the same size, red at least and green at most grey 128. */
  function CreateCombinedNormalCorrected(
    totalWidth: nat, totalHeight: nat, x: nat, y: nat, w: nat, h: nat, s: real,
    coarse: (int, int) -> Byte, fine: (int, int) -> Byte, ops: TextureOps): (normal: Image<Rgb>)
    requires s >= 0.0
    ensures normal.Valid()
    ensures normal.width as real <= totalWidth as real * s < normal.width as real + 1.0
    ensures normal.height as real <= totalHeight as real * s < normal.height as real + 1.0
    ensures forall i, j :: 0 <= i < normal.width && 0 <= j < normal.height ==>
      128 <= normal.At(i, j).r && normal.At(i, j).g <= 128 && normal.At(i, j).b == 255
  {
    var g := ScaleGeometry(totalWidth, totalHeight, x, y, w, h, s);
    HeightToNormalCorrected(CombinedHeight(g, coarse, fine, ops), 2.0, ops)
  }
}
