/**
  Lens simulation, in the order the source applies it: chromatic aberration
  (the red channel alone magnified and centre-cropped), soft focus (a blurred
  copy mixed in through a radial mask) and a vignette (a radial mask mixing
  towards black). Both masks are computed on a quarter-resolution grid.

  The style constants the effects read are parameters, and so are the PIL
  routines whose arithmetic is not visible (resampling, Gaussian blur,
  `Image.composite`) and `math.sqrt`.
 */
module Optics {
  import opened Arith
  import opened Raster

  datatype OpticsStyle = OpticsStyle(
    aberrationOffset: real,
    blurStrength: real,
    sharpArea: real,
    vignetteRadius: real,
    vignetteStrength: real)

  datatype OpticsOps = OpticsOps(
    /** Bicubic `resize` of a single-channel image: (source, new width, new height, x, y) to a sample. */
    resample: (Image<Byte>, nat, nat, int, int) -> Byte,
    /** `GaussianBlur(radius)` at one pixel. */
    blur: (Image<Rgb>, real, int, int) -> Rgb,
    /** `Image.composite(a, b, mask)` at one pixel. */
    composite: (Rgb, Rgb, Byte) -> Rgb,
    /** `math.sqrt`. */
    root: real -> real)

  /** `root` is the non-negative square root on the non-negative reals. */
  ghost predicate IsSqrt(root: real -> real) {
    forall s :: 0.0 <= s ==> 0.0 <= root(s) && root(s) * root(s) == s
  }

  // ---------------------------------------------------------------- aberration

  /** The magnified size of the red channel and the centred crop window inside it. */
  datatype CropBox = CropBox(newWidth: int, newHeight: int, left: int, top: int, right: int, bottom: int)

  /** `new_w = int(w * (1 + offset))`, `left = (new_w - w) // 2`, and likewise vertically. */
  function AberrationBox(w: nat, h: nat, offset: real): (b: CropBox)
    requires offset >= 0.0
    ensures w <= b.newWidth && b.newWidth as real <= w as real * (1.0 + offset) < b.newWidth as real + 1.0
    ensures h <= b.newHeight && b.newHeight as real <= h as real * (1.0 + offset) < b.newHeight as real + 1.0
    ensures 0 <= b.left && b.right <= b.newWidth && 0 <= b.top && b.bottom <= b.newHeight
    ensures b.right - b.left == w && b.bottom - b.top == h
    ensures 0 <= (b.newWidth - b.right) - b.left <= 1
    ensures 0 <= (b.newHeight - b.bottom) - b.top <= 1
  {
    MulLeft(w as real, 1.0, 1.0 + offset);
    MulLeft(h as real, 1.0, 1.0 + offset);
    TruncMonotone(w as real, w as real * (1.0 + offset));
    TruncMonotone(h as real, h as real * (1.0 + offset));
    var newW := Trunc(w as real * (1.0 + offset));
    var newH := Trunc(h as real * (1.0 + offset));
    var left := (newW - w) / 2;
    var top := (newH - h) / 2;
    CropBox(newW, newH, left, top, left + w, top + h)
  }

  function RedChannel(img: Image<Rgb>): (red: Image<Byte>)
    requires img.Valid()
    ensures red.HasSize(img.width, img.height)
  {
    MapPixels(img, (p: Rgb) => p.r)
  }

  /** `Image.merge("RGB", (red, g, b))` with the green and blue of `img`. */
  function MergeRed(red: Image<Byte>, img: Image<Rgb>): (out: Image<Rgb>)
    requires img.Valid() && red.HasSize(img.width, img.height)
    ensures out.HasSize(img.width, img.height)
    ensures forall x, y :: 0 <= x < img.width && 0 <= y < img.height ==>
      out.At(x, y) == Rgb(red.At(x, y), img.At(x, y).g, img.At(x, y).b)
  {
    Image(img.width, img.height,
      seq(img.height, y requires 0 <= y < img.height =>
        seq(img.width, x requires 0 <= x < img.width => Rgb(red.rows[y][x], img.rows[y][x].g, img.rows[y][x].b))))
  }

  /** A crop window lying inside the image reads the image itself, never the zero fill. */
  lemma CropInside<P>(img: Image<P>, left: int, top: int, right: int, bottom: int, blank: P)
    requires img.Valid() && 0 <= left <= right <= img.width && 0 <= top <= bottom <= img.height
    ensures forall x, y :: 0 <= x < right - left && 0 <= y < bottom - top ==>
      Crop(img, left, top, right, bottom, blank).At(x, y) == img.At(left + x, top + y)
  {
  }

  /**
    Chromatic aberration: the red channel is resized to the magnified size,
    the centred window is cut back out and merged with the untouched green
    and blue channels.
   */
  function ApplyAberration(img: Image<Rgb>, offset: real, ops: OpticsOps): (out: Image<Rgb>)
    requires img.Valid() && offset >= 0.0
    ensures out.HasSize(img.width, img.height)
    ensures forall x, y :: 0 <= x < img.width && 0 <= y < img.height ==>
      && out.At(x, y).g == img.At(x, y).g
      && out.At(x, y).b == img.At(x, y).b
      && var box := AberrationBox(img.width, img.height, offset);
         out.At(x, y).r == ops.resample(RedChannel(img), box.newWidth, box.newHeight, box.left + x, box.top + y)
  {
    var box := AberrationBox(img.width, img.height, offset);
    var magnified := Resize(RedChannel(img), box.newWidth, box.newHeight, ops.resample);
    CropInside(magnified, box.left, box.top, box.right, box.bottom, 0);
    var cropped := Crop(magnified, box.left, box.top, box.right, box.bottom, 0);
    MergeRed(cropped, img)
  }

  // ---------------------------------------------------------------- radial masks

  /** `int(w / 4)`: one side of the quarter-resolution mask grid. */
  function GridSide(side: nat): (g: nat)
    ensures g == side / 4
  {
    TruncIs(side as real / 4.0, side / 4);
    Trunc(side as real / 4.0)
  }

  function Sq(a: real): real { a * a }

  /** The squared distance of grid sample (x, y) from the grid centre `(mw / 2, mh / 2)`. */
  function CentreDistSq(mw: nat, mh: nat, x: int, y: int): real
  {
    Sq(x as real - mw as real / 2.0) + Sq(y as real - mh as real / 2.0)
  }

  /** Every grid sample is no farther from the centre than the corner at distance `sqrt(cx^2 + cy^2)`. */
  lemma {:induction false} SampleWithinCorner(mw: nat, mh: nat, x: int, y: int)
    requires 0 <= x < mw && 0 <= y < mh
    ensures 0.0 <= CentreDistSq(mw, mh, x, y) <= CentreDistSq(mw, mh, 0, 0)
    ensures CentreDistSq(mw, mh, 0, 0) > 0.0
  {
    SqAroundCentre(mw, x);
    SqAroundCentre(mh, y);
  }

  lemma SqAroundCentre(m: nat, x: int)
    requires 0 <= x < m
    ensures 0.0 <= Sq(x as real - m as real / 2.0) <= Sq(m as real / 2.0)
    ensures Sq(m as real / 2.0) > 0.0
  {
    var c := m as real / 2.0;
    var d := x as real - c;
    assert Sq(c) - Sq(d) == x as real * (m as real - x as real);
    MulNonNeg(x as real, m as real - x as real);
    SquareNonNeg(d);
  }

  /** A square root of the larger number is the larger square root. */
  lemma SqrtMonotone(root: real -> real, a: real, b: real)
    requires IsSqrt(root) && 0.0 <= a <= b
    ensures root(a) <= root(b)
  {
    var ra := root(a);
    var rb := root(b);
    assert 0.0 <= ra && ra * ra == a;
    assert 0.0 <= rb && rb * rb == b;
    var sum := ra + rb;
    if sum > 0.0 {
      var gap := ra - rb;
      assert gap * sum == a - b;
      Cancel(gap, sum);
      assert gap == (a - b) / sum;
      DivLe(a - b, 0.0, sum);
      assert 0.0 / sum == 0.0;
    }
  }

  /** The square root of a positive number is positive. */
  lemma SqrtPositive(root: real -> real, s: real)
    requires IsSqrt(root) && s > 0.0
    ensures root(s) > 0.0
  {
    assert root(s) * root(s) == s;
  }

  /**
    `norm_dist = sqrt((x - cx)^2 + (y - cy)^2) / sqrt(cx^2 + cy^2)` for a
    sample of the `mw` by `mh` grid: always in [0, 1], so the division is safe.
   */
  function NormDist(root: real -> real, mw: nat, mh: nat, x: int, y: int): (nd: real)
    requires IsSqrt(root) && 0 <= x < mw && 0 <= y < mh
    ensures 0.0 <= nd <= 1.0
  {
    SampleWithinCorner(mw, mh, x, y);
    var maxDist := root(CentreDistSq(mw, mh, 0, 0));
    var dist := root(CentreDistSq(mw, mh, x, y));
    SqrtMonotone(root, CentreDistSq(mw, mh, x, y), CentreDistSq(mw, mh, 0, 0));
    SqrtPositive(root, CentreDistSq(mw, mh, 0, 0));
    DivLe(dist, maxDist, maxDist);
    DivLe(0.0, dist, maxDist);
    dist / maxDist
  }

  /** The corner sample (0, 0) is exactly at normalised distance 1. */
  lemma CornerIsFarthest(root: real -> real, mw: nat, mh: nat)
    requires IsSqrt(root) && 0 < mw && 0 < mh
    ensures NormDist(root, mw, mh, 0, 0) == 1.0
  {
    SampleWithinCorner(mw, mh, 0, 0);
    var corner := root(CentreDistSq(mw, mh, 0, 0));
    SqrtPositive(root, CentreDistSq(mw, mh, 0, 0));
    assert corner / corner == 1.0;
  }

  /**
    The soft-focus mask value at normalised distance `nd`: 0 inside the sharp
    area, then a linear ramp to 255. The source divides by `1 - sharp`, so a
    sharp area of exactly 1 is only safe while `nd` stays below it.
   */
  function BlurValue(nd: real, sharp: real): (v: int)
    requires nd < sharp || sharp != 1.0
    ensures nd < sharp ==> v == 0
    ensures 0.0 <= nd <= 1.0 ==> 0 <= v <= 255
    ensures nd == 1.0 && sharp < 1.0 ==> v == 255
  {
    if nd < sharp then 0
    else
      var factor := (nd - sharp) / (1.0 - sharp);
      FactorInUnit(nd, sharp);
      Trunc(255.0 * factor)
  }

  /** `(nd - sharp) / (1 - sharp)` lies in [0, 1] once `sharp <= nd <= 1` and `sharp < 1`. */
  lemma FactorInUnit(nd: real, sharp: real)
    requires sharp <= nd && sharp != 1.0
    ensures nd <= 1.0 ==> 0.0 <= (nd - sharp) / (1.0 - sharp) <= 1.0
    ensures nd == 1.0 ==> (nd - sharp) / (1.0 - sharp) == 1.0
  {
    if nd <= 1.0 {
      var d := 1.0 - sharp;
      assert d > 0.0;
      DivLe(0.0, nd - sharp, d);
      DivLe(nd - sharp, d, d);
      Cancel(1.0, d);
      assert d / d == 1.0;
    }
  }

  /** Farther from the centre never means less blur. */
  lemma {:induction false} BlurValueMonotone(a: real, b: real, sharp: real)
    requires sharp < 1.0 && a <= b
    ensures BlurValue(a, sharp) <= BlurValue(b, sharp)
  {
    if a >= sharp {
      DivLe(a - sharp, b - sharp, 1.0 - sharp);
      MulLeft(255.0, (a - sharp) / (1.0 - sharp), (b - sharp) / (1.0 - sharp));
      TruncMonotone(255.0 * ((a - sharp) / (1.0 - sharp)), 255.0 * ((b - sharp) / (1.0 - sharp)));
    } else if b >= sharp {
      DivLe(0.0, b - sharp, 1.0 - sharp);
    }
  }

  /**
    The vignette mask value: full brightness inside the radius, then
    `255 * (1 - factor * strength)` truncated and clamped to [0, 255].
   */
  function VignetteValue(nd: real, radius: real, strength: real): (v: Byte)
    requires nd < radius || radius != 1.0
    ensures nd < radius ==> v == 255
    ensures nd == 1.0 && radius < 1.0 ==> v == Darkness(1.0, strength)
  {
    if nd < radius then 255
    else
      FactorInUnit(nd, radius);
      Darkness((nd - radius) / (1.0 - radius), strength)
  }

  /** `max(0, min(255, int(255 * (1 - factor * strength))))` */
  function Darkness(factor: real, strength: real): Byte
  {
    Clamp8(Trunc(255.0 * (1.0 - factor * strength)))
  }

  /** With a non-negative strength, a larger factor never gives a brighter mask value. */
  lemma DarknessMonotone(fa: real, fb: real, strength: real)
    requires fa <= fb && strength >= 0.0
    ensures Darkness(fb, strength) <= Darkness(fa, strength)
  {
    MulNonNeg(fb - fa, strength);
    assert fb * strength - fa * strength == (fb - fa) * strength;
    LinearDarkening(fa * strength, fb * strength);
  }

  /** The clamped, truncated `255 * (1 - p)` never grows with `p`. */
  lemma LinearDarkening(pa: real, pb: real)
    requires pa <= pb
    ensures Clamp8(Trunc(255.0 * (1.0 - pb))) <= Clamp8(Trunc(255.0 * (1.0 - pa)))
  {
    MulLeft(255.0, 1.0 - pb, 1.0 - pa);
    TruncMonotone(255.0 * (1.0 - pb), 255.0 * (1.0 - pa));
    Clamp8Monotone(Trunc(255.0 * (1.0 - pb)), Trunc(255.0 * (1.0 - pa)));
  }

  /** With a non-negative strength, farther from the centre never means brighter. */
  lemma {:induction false} VignetteValueMonotone(a: real, b: real, radius: real, strength: real)
    requires radius < 1.0 && strength >= 0.0 && a <= b
    ensures VignetteValue(b, radius, strength) <= VignetteValue(a, radius, strength)
  {
    if a >= radius {
      var fa := (a - radius) / (1.0 - radius);
      var fb := (b - radius) / (1.0 - radius);
      DivLe(a - radius, b - radius, 1.0 - radius);
      DarknessMonotone(fa, fb, strength);
    }
  }

  /** The quarter-resolution soft-focus mask, row-major as `putdata` fills it. */
  function BlurMask(root: real -> real, mw: nat, mh: nat, sharp: real): (m: Image<Byte>)
    requires IsSqrt(root)
    requires sharp != 1.0 || mw == 0 || mh == 0
    ensures m.HasSize(mw, mh)
    ensures forall x, y :: 0 <= x < mw && 0 <= y < mh ==>
      m.At(x, y) == BlurValue(NormDist(root, mw, mh, x, y), sharp)
  {
    Image(mw, mh,
      seq(mh, y requires 0 <= y < mh =>
        seq(mw, x requires 0 <= x < mw => BlurValue(NormDist(root, mw, mh, x, y), sharp))))
  }

  /** The quarter-resolution vignette mask. */
  function VignetteMask(root: real -> real, mw: nat, mh: nat, radius: real, strength: real): (m: Image<Byte>)
    requires IsSqrt(root)
    requires radius != 1.0 || mw == 0 || mh == 0
    ensures m.HasSize(mw, mh)
    ensures forall x, y :: 0 <= x < mw && 0 <= y < mh ==>
      m.At(x, y) == VignetteValue(NormDist(root, mw, mh, x, y), radius, strength)
  {
    Image(mw, mh,
      seq(mh, y requires 0 <= y < mh =>
        seq(mw, x requires 0 <= x < mw => VignetteValue(NormDist(root, mw, mh, x, y), radius, strength))))
  }

  /** The source's ramps are within range only if the radius (resp. sharp area) is not 1 on a non-empty grid. */
  predicate MasksDefined(style: OpticsStyle, w: nat, h: nat) {
    var mw := w / 4;
    var mh := h / 4;
    && (style.blurStrength <= 0.0 || style.sharpArea != 1.0 || mw == 0 || mh == 0)
    && (style.vignetteRadius != 1.0 || mw == 0 || mh == 0)
  }

  /** Soft focus, skipped entirely when the blur strength is not positive. */
  function ApplySoftFocus(img: Image<Rgb>, style: OpticsStyle, ops: OpticsOps): (out: Image<Rgb>)
    requires img.Valid() && IsSqrt(ops.root) && MasksDefined(style, img.width, img.height)
    ensures out.HasSize(img.width, img.height)
    ensures style.blurStrength <= 0.0 ==> out == img
    ensures style.blurStrength > 0.0 ==>
      var mask := BlurMask(ops.root, GridSide(img.width), GridSide(img.height), style.sharpArea);
      forall x, y :: 0 <= x < img.width && 0 <= y < img.height ==>
        out.At(x, y) == ops.composite(ops.blur(img, style.blurStrength, x, y), img.At(x, y),
                                      ops.resample(mask, img.width, img.height, x, y))
  {
    if style.blurStrength <= 0.0 then img
    else
      var w := img.width;
      var h := img.height;
      var blurred := Filter(img, (im: Image<Rgb>, x: int, y: int) => ops.blur(im, style.blurStrength, x, y));
      var mask := BlurMask(ops.root, GridSide(w), GridSide(h), style.sharpArea);
      var fullMask := Resize(mask, w, h, ops.resample);
      Image(w, h,
        seq(h, y requires 0 <= y < h =>
          seq(w, x requires 0 <= x < w => ops.composite(blurred.rows[y][x], img.rows[y][x], fullMask.rows[y][x]))))
  }

  /** The vignette: the image composited over black through the upsampled mask. */
  function ApplyVignette(img: Image<Rgb>, style: OpticsStyle, ops: OpticsOps): (out: Image<Rgb>)
    requires img.Valid() && IsSqrt(ops.root) && MasksDefined(style, img.width, img.height)
    ensures out.HasSize(img.width, img.height)
    ensures
      var mask := VignetteMask(ops.root, GridSide(img.width), GridSide(img.height), style.vignetteRadius, style.vignetteStrength);
      forall x, y :: 0 <= x < img.width && 0 <= y < img.height ==>
        out.At(x, y) == ops.composite(img.At(x, y), Rgb(0, 0, 0), ops.resample(mask, img.width, img.height, x, y))
  {
    var w := img.width;
    var h := img.height;
    var mask := VignetteMask(ops.root, GridSide(w), GridSide(h), style.vignetteRadius, style.vignetteStrength);
    var fullMask := Resize(mask, w, h, ops.resample);
    Image(w, h,
      seq(h, y requires 0 <= y < h =>
        seq(w, x requires 0 <= x < w => ops.composite(img.rows[y][x], Rgb(0, 0, 0), fullMask.rows[y][x]))))
  }

  /** `apply_optics`: aberration, then soft focus, then vignette, all at the input's size. */
  function ApplyOptics(img: Image<Rgb>, style: OpticsStyle, ops: OpticsOps): (out: Image<Rgb>)
    requires img.Valid() && IsSqrt(ops.root) && style.aberrationOffset >= 0.0
    requires MasksDefined(style, img.width, img.height)
    ensures out.HasSize(img.width, img.height)
    ensures style.blurStrength <= 0.0 ==>
      out == ApplyVignette(ApplyAberration(img, style.aberrationOffset, ops), style, ops)
  {
    var shifted := ApplyAberration(img, style.aberrationOffset, ops);
    var soft := ApplySoftFocus(shifted, style, ops);
    ApplyVignette(soft, style, ops)
  }
}
