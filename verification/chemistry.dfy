/**
  The "development" tone grade: three 256-entry curves, one per channel,
  each raising the black point; red darkens the shadows, blue is boosted
  everywhere and clipped at 255. The curves are applied through one
  768-entry lookup table in R, G, B order.
 */
module Chemistry {
  import opened Arith
  import opened Raster

  /** The pixel layouts an input may arrive in; all are converted to RGB first. */
  datatype SourcePixel =
    | Luma(v: Byte)
    | Colour(c: Rgb)
    | ColourAlpha(c: Rgb, a: Byte)

  /** `image.convert('RGB')`: grey is replicated, alpha is dropped. */
  function ToRgb(p: SourcePixel): Rgb
  {
    match p
    case Luma(v) => Grey(v)
    case Colour(c) => c
    case ColourAlpha(c, _) => c
  }

  // The integer closed forms of the three curves.

  function RedTone(x: int): int { if x < 128 then Max(20, 9 * x / 10) else x }

  function GreenTone(x: int): int { Max(25, x) }

  function BlueTone(x: int): int { Min(255, Max(30, 21 * x / 20)) }

  // Each curve entry as the source computes it, with floats read as exact reals.

  /** `int(max(20, x * 0.9 if x < 128 else x))` */
  function RedEntry(x: int): int
  {
    Trunc(MaxR(20.0, if x < 128 then x as real * 0.9 else x as real))
  }

  /** `int(max(25, x))` */
  function GreenEntry(x: int): int
  {
    Max(25, x)
  }

  /** `min(255, int(max(30, x * 1.05)))` */
  function BlueEntry(x: int): int
  {
    Min(255, Trunc(MaxR(30.0, x as real * 1.05)))
  }

  lemma {:induction false} RedEntryClosedForm(x: nat)
    ensures RedEntry(x) == RedTone(x)
  {
    if x < 128 {
      assert x as real * 0.9 == (x * 9) as real / 10 as real;
      TruncRatio(x, 9, 10);
      if 9 * x / 10 < 20 {
        assert x as real * 0.9 < 20.0;
        TruncIs(20.0, 20);
      } else {
        assert x as real * 0.9 >= 20.0;
      }
    } else {
      TruncIs(x as real, x);
    }
  }

  lemma {:induction false} BlueEntryClosedForm(x: nat)
    ensures BlueEntry(x) == BlueTone(x)
  {
    assert x as real * 1.05 == (x * 21) as real / 20 as real;
    TruncRatio(x, 21, 20);
    if 21 * x / 20 < 30 {
      assert x as real * 1.05 < 30.0;
      TruncIs(30.0, 30);
    } else {
      assert x as real * 1.05 >= 30.0;
    }
  }

  /** A table of 256 levels that never decreases. */
  predicate MonotoneCurve(curve: seq<Byte>)
    requires |curve| == 256
  {
    forall i, j :: 0 <= i <= j < 256 ==> curve[i] <= curve[j]
  }

  /** Builds the red table: shadows (below 128) scaled by 0.9, black point 20. */
  method BuildRedCurve() returns (curve: seq<Byte>)
    ensures |curve| == 256
    ensures forall x :: 0 <= x < 256 ==> curve[x] == RedTone(x)
    ensures curve[0] == 20 && curve[255] == 255
    ensures forall x :: 0 <= x < 256 ==> 20 <= curve[x]
    ensures MonotoneCurve(curve)
  {
    curve := [];
    var x := 0;
    while x < 256
      invariant 0 <= x <= 256
      invariant |curve| == x
      invariant forall i :: 0 <= i < x ==> curve[i] == RedTone(i)
    {
      RedEntryClosedForm(x);
      var level := RedEntry(x);
      curve := curve + [level];
      x := x + 1;
    }
  }

  /** Builds the green table: the identity with black point 25. */
  method BuildGreenCurve() returns (curve: seq<Byte>)
    ensures |curve| == 256
    ensures forall x :: 0 <= x < 256 ==> curve[x] == GreenTone(x)
    ensures curve[0] == 25 && curve[255] == 255
    ensures forall x :: 0 <= x < 256 ==> 25 <= curve[x]
    ensures MonotoneCurve(curve)
  {
    curve := [];
    var x := 0;
    while x < 256
      invariant 0 <= x <= 256
      invariant |curve| == x
      invariant forall i :: 0 <= i < x ==> curve[i] == GreenTone(i)
    {
      curve := curve + [GreenEntry(x)];
      x := x + 1;
    }
  }

  /** Builds the blue table: everything scaled by 1.05, black point 30, clipped at 255. */
  method BuildBlueCurve() returns (curve: seq<Byte>)
    ensures |curve| == 256
    ensures forall x :: 0 <= x < 256 ==> curve[x] == BlueTone(x)
    ensures curve[0] == 30 && curve[255] == 255
    ensures forall x :: 0 <= x < 256 ==> 30 <= curve[x]
    ensures MonotoneCurve(curve)
  {
    curve := [];
    var x := 0;
    while x < 256
      invariant 0 <= x <= 256
      invariant |curve| == x
      invariant forall i :: 0 <= i < x ==> curve[i] == BlueTone(i)
    {
      BlueEntryClosedForm(x);
      var level := BlueEntry(x);
      curve := curve + [level];
      x := x + 1;
    }
  }

  /** `image.point(lut)` on an RGB image: channel k reads the k-th block of 256 entries. */
  function Point(lut: seq<Byte>, p: Rgb): Rgb
    requires |lut| == 768
  {
    Rgb(lut[p.r], lut[256 + p.g], lut[512 + p.b])
  }

  /** The concatenated table sends each channel through its own curve. */
  lemma {:induction false} PointUsesChannelCurves(r: seq<Byte>, g: seq<Byte>, b: seq<Byte>, p: Rgb)
    requires |r| == 256 && |g| == 256 && |b| == 256
    ensures Point(r + g + b, p) == Rgb(r[p.r], g[p.g], b[p.b])
  {
    var lut := r + g + b;
    assert lut[p.r] == r[p.r];
    assert lut[256 + p.g] == (r + g)[256 + p.g] == g[p.g];
    assert lut[512 + p.b] == b[p.b];
  }

  /**
    `develop_image`: converts to RGB, builds the three curves and maps every
    pixel through them. No randomness is involved, so equal inputs give equal
    outputs.
   */
  method DevelopImage(img: Image<SourcePixel>) returns (out: Image<Rgb>)
    requires img.Valid()
    ensures out.HasSize(img.width, img.height)
    ensures forall x, y :: 0 <= x < img.width && 0 <= y < img.height ==>
      var c := ToRgb(img.At(x, y));
      out.At(x, y) == Rgb(RedTone(c.r), GreenTone(c.g), BlueTone(c.b))
  {
    var rgb := MapPixels(img, ToRgb);
    var r := BuildRedCurve();
    var g := BuildGreenCurve();
    var b := BuildBlueCurve();
    var lut := r + g + b;
    forall p: Rgb
      ensures Point(lut, p) == Rgb(RedTone(p.r), GreenTone(p.g), BlueTone(p.b))
    {
      PointUsesChannelCurves(r, g, b, p);
    }
    out := MapPixels(rgb, p => Point(lut, p));
  }
}
