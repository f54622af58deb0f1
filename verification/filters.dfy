/**
  Film grain: `width * height` uniform samples from Python's `random`
  module, laid out row-major as a grey layer and blended over the image.

  Python's generator is process-wide state. It is modelled as a value: the
  infinite stream of `randint(0, 255)` results the generator will produce
  and the position reached in it. `random.seed(s)` replaces that state by
  the start of the stream belonging to `s`.
 */
module Filters {
  import opened Arith
  import opened Raster

  datatype Option<T> = None | Some(value: T)

  /** The state of the process-wide generator. */
  datatype Generator = Generator(draws: nat -> Byte, pos: nat)

  /** `random.seed(seed)`, given the stream each seed determines. */
  function Reseed(streams: int -> (nat -> Byte), seed: int): Generator
  {
    Generator(streams(seed), 0)
  }

  /** `[random.randint(0, 255) for _ in range(n)]`: n successive draws. */
  function DrawBytes(g: Generator, n: nat): (r: (seq<Byte>, Generator))
    decreases n
    ensures |r.0| == n
    ensures r.1.draws == g.draws && r.1.pos == g.pos + n
    ensures forall i :: 0 <= i < n ==> r.0[i] == g.draws(g.pos + i)
  {
    if n == 0 then ([], g)
    else
      var first := g.draws(g.pos);
      var rest := DrawBytes(Generator(g.draws, g.pos + 1), n - 1);
      ([first] + rest.0, rest.1)
  }

  /** Where pixel (x, y) of a `w`-wide image sits in row-major order. */
  function FlatIndex(x: int, y: int, w: nat, h: nat): (i: nat)
    requires 0 <= x < w && 0 <= y < h
    ensures i < w * h
    ensures i == y * w + x
  {
    RowMajorIndex(x, y, w, h);
    y * w + x
  }

  /** `noise_layer.putdata(noise)` followed by `convert("RGB")`: grey, row-major. */
  function NoiseLayer(noise: seq<Byte>, w: nat, h: nat): (layer: Image<Rgb>)
    requires |noise| == w * h
    ensures layer.HasSize(w, h)
    ensures forall x, y :: 0 <= x < w && 0 <= y < h ==> layer.At(x, y) == Grey(noise[FlatIndex(x, y, w, h)])
  {
    Image(w, h,
      seq(h, y requires 0 <= y < h =>
        seq(w, x requires 0 <= x < w => Grey(noise[FlatIndex(x, y, w, h)]))))
  }

  /**
    `apply_grain(image, intensity, seed)`. `blend` is `Image.blend` at one
    pixel (its rounding belongs to PIL). Returns the new image and the state
    the process-wide generator is left in.
   */
  function ApplyGrain(
    img: Image<Rgb>, intensity: real, seed: Option<int>,
    g: Generator, streams: int -> (nat -> Byte), blend: (Rgb, Rgb, real) -> Rgb
  ): (r: (Image<Rgb>, Generator))
    requires img.Valid()
    ensures r.0.HasSize(img.width, img.height)
    ensures intensity <= 0.0 ==> r.0 == img && r.1 == g
    ensures intensity > 0.0 ==>
      var start := if seed.Some? then Reseed(streams, seed.value) else g;
      && r.1.draws == start.draws
      && r.1.pos == start.pos + img.width * img.height
      && forall x, y :: 0 <= x < img.width && 0 <= y < img.height ==>
           r.0.At(x, y) == blend(img.At(x, y), Grey(start.draws(start.pos + FlatIndex(x, y, img.width, img.height))), intensity)
  {
    if intensity <= 0.0 then (img, g)
    else
      var start := if seed.Some? then Reseed(streams, seed.value) else g;
      var w := img.width;
      var h := img.height;
      var drawn := DrawBytes(start, w * h);
      var layer := NoiseLayer(drawn.0, w, h);
      var out := Image(w, h,
        seq(h, y requires 0 <= y < h =>
          seq(w, x requires 0 <= x < w => blend(img.rows[y][x], layer.rows[y][x], intensity))));
      (out, drawn.1)
  }

  /**
    With a seed the grain does not depend on the generator's earlier state:
    two calls with the same seed give the same image, and leave the
    generator in the same place.
   */
  lemma SeededGrainDeterministic(
    img: Image<Rgb>, intensity: real, seed: int,
    g1: Generator, g2: Generator, streams: int -> (nat -> Byte), blend: (Rgb, Rgb, real) -> Rgb)
    requires img.Valid()
    requires intensity > 0.0
    ensures ApplyGrain(img, intensity, Some(seed), g1, streams, blend).0
         == ApplyGrain(img, intensity, Some(seed), g2, streams, blend).0
    ensures ApplyGrain(img, intensity, Some(seed), g1, streams, blend).1.pos
         == ApplyGrain(img, intensity, Some(seed), g2, streams, blend).1.pos
  {
  }

  /** Without a seed, two grains in a row read disjoint, consecutive stretches of the stream. */
  lemma UnseededGrainsConsume(
    a: Image<Rgb>, b: Image<Rgb>, ia: real, ib: real,
    g: Generator, streams: int -> (nat -> Byte), blend: (Rgb, Rgb, real) -> Rgb)
    requires a.Valid() && b.Valid()
    requires ia > 0.0 && ib > 0.0
    ensures
      var first := ApplyGrain(a, ia, None, g, streams, blend);
      var second := ApplyGrain(b, ib, None, first.1, streams, blend);
      second.1.pos == g.pos + a.width * a.height + b.width * b.height
  {
  }
}
