/**
  PIL images as immutable values: a width, a height and the rows of pixels,
  stored row-major as `Image.putdata` and `Image.getdata` see them. Every
  operation that PIL performs in place (`paste`, drawing) is a function here
  that returns a new image.
 */
module Raster {
  import opened Arith

  datatype Rgb = Rgb(r: Byte, g: Byte, b: Byte)

  datatype Rgba = Rgba(r: Byte, g: Byte, b: Byte, a: Byte)

  /** The grey colour PIL produces when an "L" pixel is converted to "RGB". */
  function Grey(v: Byte): Rgb { Rgb(v, v, v) }

  datatype Image<P> = Image(width: nat, height: nat, rows: seq<seq<P>>) {

    /** The rows agree with the declared size. */
    predicate Valid() {
      |rows| == height && forall y :: 0 <= y < |rows| ==> |rows[y]| == width
    }

    predicate HasSize(w: nat, h: nat) {
      Valid() && width == w && height == h
    }

    function At(x: int, y: int): P
      requires Valid() && 0 <= x < width && 0 <= y < height
    {
      rows[y][x]
    }
  }

  /** `Image.new(mode, (w, h), colour)`: every pixel has the fill colour. */
  function Fill<P>(w: nat, h: nat, colour: P): (img: Image<P>)
    ensures img.HasSize(w, h)
    ensures forall x, y :: 0 <= x < w && 0 <= y < h ==> img.At(x, y) == colour
  {
    Image(w, h, seq(h, _ => seq(w, _ => colour)))
  }

  /** Applies a pixel-wise map, keeping the size (`Image.point`, `convert`). */
  function MapPixels<P, Q>(img: Image<P>, f: P -> Q): (out: Image<Q>)
    requires img.Valid()
    ensures out.HasSize(img.width, img.height)
    ensures forall x, y :: 0 <= x < img.width && 0 <= y < img.height ==> out.At(x, y) == f(img.At(x, y))
  {
    Image(img.width, img.height,
      seq(img.height, y requires 0 <= y < img.height =>
        seq(img.width, x requires 0 <= x < img.width => f(img.rows[y][x]))))
  }

  /**
    A neighbourhood filter whose per-pixel rule PIL does not let us see
    (Gaussian blur, 3x3 kernels, contrast enhancement, resampling to the same
    size): pixel (x, y) of the result is `rule(img, x, y)`.
   */
  function Filter<P, Q>(img: Image<P>, rule: (Image<P>, int, int) -> Q): (out: Image<Q>)
    requires img.Valid()
    ensures out.HasSize(img.width, img.height)
    ensures forall x, y :: 0 <= x < img.width && 0 <= y < img.height ==> out.At(x, y) == rule(img, x, y)
  {
    Image(img.width, img.height, seq(img.height, y => seq(img.width, x => rule(img, x, y))))
  }

  /**
    `Image.resize((w, h), BICUBIC)`: the sampler decides each pixel of the
    new `w` by `h` grid from the source image; only the size is fixed here.
   */
  function Resize<P>(img: Image<P>, w: nat, h: nat, sampler: (Image<P>, nat, nat, int, int) -> P): (out: Image<P>)
    ensures out.HasSize(w, h)
    ensures forall x, y :: 0 <= x < w && 0 <= y < h ==> out.At(x, y) == sampler(img, w, h, x, y)
  {
    Image(w, h, seq(h, y => seq(w, x => sampler(img, w, h, x, y))))
  }

  /** Is (x, y) covered by a layer of size `w` by `h` placed with its corner at (x0, y0)? */
  predicate InRect(x: int, y: int, x0: int, y0: int, w: int, h: int) {
    x0 <= x < x0 + w && y0 <= y < y0 + h
  }

  /**
    `base.paste(layer, (x0, y0))`: the layer's pixels replace those of the
    base where they overlap; the part of the layer falling outside the base
    is clipped away, and every other pixel of the base keeps its value.
   */
  function Paste<P>(base: Image<P>, layer: Image<P>, x0: int, y0: int): (out: Image<P>)
    requires base.Valid() && layer.Valid()
    ensures out.HasSize(base.width, base.height)
    ensures forall x, y :: 0 <= x < base.width && 0 <= y < base.height ==>
      out.At(x, y) == (if InRect(x, y, x0, y0, layer.width, layer.height) then layer.At(x - x0, y - y0) else base.At(x, y))
  {
    Image(base.width, base.height,
      seq(base.height, y requires 0 <= y < base.height =>
        seq(base.width, x requires 0 <= x < base.width =>
          if InRect(x, y, x0, y0, layer.width, layer.height) then layer.rows[y - y0][x - x0] else base.rows[y][x])))
  }

  /**
    `img.crop((left, top, right, bottom))`: a `right - left` by `bottom - top`
    window; where the window leaves the source, PIL fills with zero (`blank`).
   */
  function Crop<P>(img: Image<P>, left: int, top: int, right: int, bottom: int, blank: P): (out: Image<P>)
    requires img.Valid() && left <= right && top <= bottom
    ensures out.HasSize(right - left, bottom - top)
    ensures forall x, y :: 0 <= x < right - left && 0 <= y < bottom - top ==>
      out.At(x, y) == (if InRect(left + x, top + y, 0, 0, img.width, img.height) then img.At(left + x, top + y) else blank)
  {
    Image(right - left, bottom - top,
      seq(bottom - top, y requires 0 <= y < bottom - top =>
        seq(right - left, x requires 0 <= x < right - left =>
          if InRect(left + x, top + y, 0, 0, img.width, img.height) then img.rows[top + y][left + x] else blank)))
  }

  /** A mask whose every sample is either 0 or 255. */
  predicate Binary(mask: Image<Byte>)
    requires mask.Valid()
  {
    forall x, y :: 0 <= x < mask.width && 0 <= y < mask.height ==> mask.At(x, y) == 0 || mask.At(x, y) == 255
  }
}
