/**
  The cartridge frame ("chassis"): a grained paper canvas of the layout's
  total size, a separately grained grip band pasted along the bottom, a seam
  rectangle painted over the paper/grip boundary, and an alpha channel cut
  from two rounded rectangles drawn into a black mask. Also the rounded
  mask of the photo window.
 */
module Chassis {
  import opened Arith
  import opened Raster
  import opened Geometry
  import opened Filters

  const PaperColour: Rgb := Rgb(246, 242, 235)
  const GripColour: Rgb := Rgb(250, 250, 250)
  const GripRatio: real := 0.8

  /** Style constants the frame reads that have no fixed value in the configuration. */
  datatype ChassisStyle = ChassisStyle(
    paperNoise: real,
    gripNoise: real,
    seamHeight: real,
    frameRadiusTop: real,
    frameRadiusBottom: real,
    photoCornerRadius: real)

  /** Shapes handed to `ImageDraw`; both corners of the box are inside it. */
  datatype Shape =
    | Rect(x0: int, y0: int, x1: int, y1: int)
    | Rounded(x0: int, y0: int, x1: int, y1: int, radius: int)

  predicate InBox(s: Shape, x: int, y: int) {
    s.x0 <= x <= s.x1 && s.y0 <= y <= s.y1
  }

  /**
    `rounded_rectangle(box, radius=r)`: Pillow draws a radius of 0 as a plain
    rectangle.
   */
  function RoundedRectangle(x0: int, y0: int, x1: int, y1: int, radius: int): (s: Shape)
    ensures s.x0 == x0 && s.y0 == y0 && s.x1 == x1 && s.y1 == y1
    ensures s.Rect? <==> radius == 0
    ensures s.Rounded? ==> s.radius == radius
  {
    if radius == 0 then Rect(x0, y0, x1, y1) else Rounded(x0, y0, x1, y1, radius)
  }

  /**
    The four `r + 1` by `r + 1` squares at the corners of a rounded
    rectangle's box: the only pixels whose filling depends on how the
    quarter circles are rasterised.
   */
  predicate InCornerSquare(s: Shape, x: int, y: int)
    requires s.Rounded?
  {
    (x <= s.x0 + s.radius || x >= s.x1 - s.radius) && (y <= s.y0 + s.radius || y >= s.y1 - s.radius)
  }

  /**
    The pixels a shape fills. A rectangle fills its whole box. A rounded
    rectangle fills its box except in the corner squares, where Pillow's
    quarter-circle rasterisation (`cornerFill`) decides; it never fills
    outside its box.
   */
  predicate Covers(s: Shape, cornerFill: (Shape, int, int) -> bool, x: int, y: int) {
    InBox(s, x, y) && (s.Rect? || !InCornerSquare(s, x, y) || cornerFill(s, x, y))
  }

  /** Routines of PIL and of the random module the frame relies on. */
  datatype ChassisOps = ChassisOps(
    /** `Image.blend` at one pixel. */
    blend: (Rgb, Rgb, real) -> Rgb,
    /** The stream of draws `random.seed(s)` selects. */
    streams: int -> (nat -> Byte),
    /** Drawing the translucent seam colour over one pixel. */
    seamBlend: Rgb -> Rgb,
    /** Which pixels of a corner square the quarter circle fills. */
    cornerFill: (Shape, int, int) -> bool)

  // ---------------------------------------------------------------- grip band

  /**
    The grip height as the source computes it:
    `int(total_h * (BORDER_BOTTOM_RATIO * GRIP_RATIO))`, a fraction of the
    TOTAL height.
   */
  function GripHeightAsWritten(totalHeight: nat): (g: nat)
    ensures g == 18 * totalHeight / 125
  {
    assert totalHeight as real * (BorderBottomRatio * GripRatio) == (totalHeight * 18) as real / 125 as real;
    TruncRatio(totalHeight, 18, 125);
    Trunc(totalHeight as real * (BorderBottomRatio * GripRatio))
  }

  /**
    As written, a portrait photo's grip band reaches up into the photo: for a
    1000 by 3000 photo (an accepted shape) the band starts at row 2774 while
    the photo runs down to row 3060.
   */
  lemma GripOverlapsPhotoAsWritten()
    ensures var l := CalculateLayout(1000, 3000);
      && l.totalHeight - GripHeightAsWritten(l.totalHeight) == 2774
      && l.photoY + 3000 == 3060
  {
  }

  /**
    The grip height as the configuration describes it: `GRIP_RATIO` of the
    bottom margin, `int(int(width * BORDER_BOTTOM_RATIO) * GRIP_RATIO)`.
   */
  function GripHeight(width: nat): (g: nat)
    ensures g == 4 * (18 * width / 100) / 5
    ensures g <= 18 * width / 100
  {
    MarginsClosedForm(width);
    var bottom := Margin(width, BorderBottomRatio);
    assert bottom as real * GripRatio == (bottom * 4) as real / 5 as real;
    TruncRatio(bottom, 4, 5);
    Trunc(bottom as real * GripRatio)
  }

  /** The grip band of the corrected height lies inside the bottom margin, below the photo. */
  lemma {:induction false} GripWithinBottomMargin(width: nat, height: nat)
    ensures var l := CalculateLayout(width, height);
      && GripHeight(width) <= l.totalHeight
      && l.photoY + height <= l.totalHeight - GripHeight(width)
  {
  }

  // ---------------------------------------------------------------- geometry

  /** The sizes and positions `create_chassis` derives before drawing. */
  datatype ChassisGeometry = ChassisGeometry(
    gripHeight: nat, gripY: int, seamHeight: int, radiusTop: int, radiusBottom: int)

  /**
    The grip, seam and radius sizes as the source derives them: the grip is
    `int(total_h * (BORDER_BOTTOM_RATIO * GRIP_RATIO))` of the TOTAL height,
    and `grip_y = total_h - grip_height`.
   */
  function ComputeGeometry(l: Layout, width: nat, style: ChassisStyle): (cg: ChassisGeometry)
    ensures cg.gripHeight == 18 * l.totalHeight / 125
    ensures cg.gripY + cg.gripHeight == l.totalHeight
    ensures 0 <= cg.gripY <= l.totalHeight
    ensures style.seamHeight >= 0.0 ==> cg.seamHeight >= 0
    ensures style.seamHeight >= 0.0 ==> cg.seamHeight >= 0 && cg.seamHeight as real <= width as real * style.seamHeight < cg.seamHeight as real + 1.0
    ensures style.frameRadiusTop >= 0.0 ==> cg.radiusTop >= 0 && cg.radiusTop as real <= width as real * style.frameRadiusTop < cg.radiusTop as real + 1.0
    ensures style.frameRadiusBottom >= 0.0 ==> cg.radiusBottom >= 0 && cg.radiusBottom as real <= width as real * style.frameRadiusBottom < cg.radiusBottom as real + 1.0
  {
    ScaleNonNeg(width, style.seamHeight);
    ScaleNonNeg(width, style.frameRadiusTop);
    ScaleNonNeg(width, style.frameRadiusBottom);
    var gripH := GripHeightAsWritten(l.totalHeight);
    ChassisGeometry(
      gripH,
      l.totalHeight - gripH,
      Trunc(width as real * style.seamHeight),
      Trunc(width as real * style.frameRadiusTop),
      Trunc(width as real * style.frameRadiusBottom))
  }

  /** The same sizes with the grip taken from the bottom margin, as the configuration describes it. */
  function CorrectedGeometry(l: Layout, width: nat, style: ChassisStyle): (cg: ChassisGeometry)
    ensures cg.gripHeight == GripHeight(width)
    ensures cg.gripY + cg.gripHeight == l.totalHeight
    ensures cg.seamHeight == ComputeGeometry(l, width, style).seamHeight
    ensures cg.radiusTop == ComputeGeometry(l, width, style).radiusTop
    ensures cg.radiusBottom == ComputeGeometry(l, width, style).radiusBottom
  {
    ComputeGeometry(l, width, style).(gripHeight := GripHeight(width), gripY := l.totalHeight - GripHeight(width))
  }

  /** For a square 1000-pixel photo the source's grip is 178 rows from row 1062; the corrected one 144 rows from row 1096. */
  lemma SquareThousandGrip(style: ChassisStyle)
    ensures var cg := ComputeGeometry(CalculateLayout(1000, 1000), 1000, style);
      cg.gripHeight == 178 && cg.gripY == 1062
    ensures var cg := CorrectedGeometry(CalculateLayout(1000, 1000), 1000, style);
      cg.gripHeight == 144 && cg.gripY == 1096
  {
  }

  /** The seam rectangle `[(0, grip_y - seam_h), (total_w, grip_y)]`: its lower edge is the grip's top row. */
  function SeamRect(l: Layout, cg: ChassisGeometry): (s: Shape)
    ensures s.Rect? && s.y1 == cg.gripY && s.y1 - s.y0 == cg.seamHeight
    ensures s.x0 == 0 && s.x1 == l.totalWidth
  {
    Rect(0, cg.gripY - cg.seamHeight, l.totalWidth, cg.gripY)
  }

  /**
    The two shapes the silhouette mask is painted with, in drawing order.
    The second call passes `corners=(r_top, r_top, r_bottom, r_bottom)`: a
    Pillow that has the keyword reads the four numbers as on/off flags and
    keeps the default radius 0, so it draws a plain rectangle over the whole
    frame. A Pillow without the keyword raises `TypeError`, and the fallback
    rounds every corner by `r_top`. `cornersKeyword` says which Pillow runs.
   */
  function SilhouetteShapes(l: Layout, cg: ChassisGeometry, cornersKeyword: bool): (shapes: (Shape, Shape))
    ensures shapes.0.x0 == 0 && shapes.0.y0 == 0 && shapes.0.x1 == l.totalWidth && shapes.0.y1 == l.totalHeight - cg.radiusBottom
    ensures shapes.0.Rounded? ==> shapes.0.radius == cg.radiusTop
    ensures shapes.1.x0 == 0 && shapes.1.y0 == 0 && shapes.1.x1 == l.totalWidth && shapes.1.y1 == l.totalHeight
    ensures cornersKeyword ==> shapes.1.Rect?
    ensures !cornersKeyword && shapes.1.Rounded? ==> shapes.1.radius == cg.radiusTop
  {
    var upper := RoundedRectangle(0, 0, l.totalWidth, l.totalHeight - cg.radiusBottom, cg.radiusTop);
    var whole :=
      if cornersKeyword then Rect(0, 0, l.totalWidth, l.totalHeight)
      else RoundedRectangle(0, 0, l.totalWidth, l.totalHeight, cg.radiusTop);
    (upper, whole)
  }

  // ---------------------------------------------------------------- drawing

  /** `ImageDraw.Draw(mask).<shape>(..., fill=255)` on an "L" mask. */
  function PaintMask(mask: Image<Byte>, s: Shape, cornerFill: (Shape, int, int) -> bool): (out: Image<Byte>)
    requires mask.Valid()
    ensures out.HasSize(mask.width, mask.height)
    ensures forall x, y :: 0 <= x < mask.width && 0 <= y < mask.height ==>
      out.At(x, y) == (if Covers(s, cornerFill, x, y) then 255 else mask.At(x, y))
  {
    Image(mask.width, mask.height,
      seq(mask.height, y requires 0 <= y < mask.height =>
        seq(mask.width, x requires 0 <= x < mask.width =>
          if Covers(s, cornerFill, x, y) then 255 else mask.rows[y][x])))
  }

  /** Painting a colour over an "RGB" image through a shape. */
  function PaintRgb(img: Image<Rgb>, s: Shape, paint: Rgb -> Rgb, cornerFill: (Shape, int, int) -> bool): (out: Image<Rgb>)
    requires img.Valid()
    ensures out.HasSize(img.width, img.height)
    ensures forall x, y :: 0 <= x < img.width && 0 <= y < img.height ==>
      out.At(x, y) == (if Covers(s, cornerFill, x, y) then paint(img.At(x, y)) else img.At(x, y))
  {
    Image(img.width, img.height,
      seq(img.height, y requires 0 <= y < img.height =>
        seq(img.width, x requires 0 <= x < img.width =>
          if Covers(s, cornerFill, x, y) then paint(img.rows[y][x]) else img.rows[y][x])))
  }

  /**
    A black mask painted white through a sequence of shapes is binary, and
    white exactly where some shape covers the pixel.
   */
  function MaskOf(w: nat, h: nat, a: Shape, b: Shape, cornerFill: (Shape, int, int) -> bool): (m: Image<Byte>)
    ensures m.HasSize(w, h) && Binary(m)
    ensures forall x, y :: 0 <= x < w && 0 <= y < h ==>
      (m.At(x, y) == 255 <==> Covers(a, cornerFill, x, y) || Covers(b, cornerFill, x, y))
  {
    PaintMask(PaintMask(Fill(w, h, 0), a, cornerFill), b, cornerFill)
  }

  /** `result = base.convert("RGBA"); result.putalpha(mask)` */
  function PutAlpha(base: Image<Rgb>, mask: Image<Byte>): (out: Image<Rgba>)
    requires base.Valid() && mask.HasSize(base.width, base.height)
    ensures out.HasSize(base.width, base.height)
    ensures forall x, y :: 0 <= x < base.width && 0 <= y < base.height ==>
      var p := base.At(x, y);
      out.At(x, y) == Rgba(p.r, p.g, p.b, mask.At(x, y))
  {
    Image(base.width, base.height,
      seq(base.height, y requires 0 <= y < base.height =>
        seq(base.width, x requires 0 <= x < base.width =>
          var p := base.rows[y][x];
          Rgba(p.r, p.g, p.b, mask.rows[y][x]))))
  }

  // ---------------------------------------------------------------- the frame

  /** The grained paper canvas and the generator state after it. */
  function Paper(l: Layout, style: ChassisStyle, ops: ChassisOps, g: Generator): (r: (Image<Rgb>, Generator))
    ensures r.0.HasSize(l.totalWidth, l.totalHeight)
  {
    ApplyGrain(Fill(l.totalWidth, l.totalHeight, PaperColour), style.paperNoise, None, g, ops.streams, ops.blend)
  }

  /** The grained grip band, as wide as the frame. */
  function Grip(l: Layout, cg: ChassisGeometry, style: ChassisStyle, ops: ChassisOps, g: Generator): (r: (Image<Rgb>, Generator))
    ensures r.0.HasSize(l.totalWidth, cg.gripHeight)
  {
    ApplyGrain(Fill(l.totalWidth, cg.gripHeight, GripColour), style.gripNoise, None, g, ops.streams, ops.blend)
  }

  /** The paper with the grip band pasted over its bottom rows and the seam painted on top. */
  function Body(l: Layout, cg: ChassisGeometry, paper: Image<Rgb>, grip: Image<Rgb>, ops: ChassisOps): (body: Image<Rgb>)
    requires paper.Valid() && grip.Valid()
    ensures body.HasSize(paper.width, paper.height)
  {
    var base := Paste(paper, grip, 0, cg.gripY);
    PaintRgb(base, SeamRect(l, cg), ops.seamBlend, ops.cornerFill)
  }

  /**
    `create_chassis(layout, width)`, with the grip height the source
    computes from the total height. Returns the RGBA frame and the state of the process-wide
    generator, which both unseeded grain passes advance.
   */
  function CreateChassis(l: Layout, width: nat, style: ChassisStyle, ops: ChassisOps, cornersKeyword: bool, g: Generator)
    : (r: (Image<Rgba>, Generator))
    ensures r.0.HasSize(l.totalWidth, l.totalHeight)
    ensures
      var cg := ComputeGeometry(l, width, style);
      var paper := Paper(l, style, ops, g);
      r.1 == Grip(l, cg, style, ops, paper.1).1
    ensures
      var cg := ComputeGeometry(l, width, style);
      && (style.paperNoise > 0.0 && style.gripNoise > 0.0 ==>
            r.1.pos == g.pos + l.totalWidth * l.totalHeight + l.totalWidth * cg.gripHeight)
      && (style.paperNoise <= 0.0 && style.gripNoise <= 0.0 ==> r.1 == g)
  {
    Frame(l, ComputeGeometry(l, width, style), style, ops, cornersKeyword, g)
  }

  /** Paper, grip band, seam and silhouette drawn for the given sizes. */
  function Frame(l: Layout, cg: ChassisGeometry, style: ChassisStyle, ops: ChassisOps, cornersKeyword: bool, g: Generator)
    : (r: (Image<Rgba>, Generator))
    ensures r.0.HasSize(l.totalWidth, l.totalHeight)
  {
    var paper := Paper(l, style, ops, g);
    var grip := Grip(l, cg, style, ops, paper.1);
    var body := Body(l, cg, paper.0, grip.0, ops);
    var shapes := SilhouetteShapes(l, cg, cornersKeyword);
    var mask := MaskOf(l.totalWidth, l.totalHeight, shapes.0, shapes.1, ops.cornerFill);
    (PutAlpha(body, mask), grip.1)
  }

  /**
    The frame with the corrected grip height: its grip band lies wholly in
    the bottom margin, and the grain draws one grip band of that height.
   */
  function CreateChassisCorrected(l: Layout, width: nat, height: nat, style: ChassisStyle, ops: ChassisOps, cornersKeyword: bool, g: Generator)
    : (r: (Image<Rgba>, Generator))
    requires l == CalculateLayout(width, height)
    ensures r.0.HasSize(l.totalWidth, l.totalHeight)
    ensures l.photoY + height <= CorrectedGeometry(l, width, style).gripY
    ensures style.paperNoise > 0.0 && style.gripNoise > 0.0 ==>
      r.1.pos == g.pos + l.totalWidth * l.totalHeight + l.totalWidth * GripHeight(width)
  {
    GripWithinBottomMargin(width, height);
    Frame(l, CorrectedGeometry(l, width, style), style, ops, cornersKeyword, g)
  }

  /** The frame's alpha is the silhouette mask: binary, and opaque exactly where a silhouette shape covers the pixel. */
  lemma {:induction false} ChassisAlphaIsSilhouette(
    l: Layout, width: nat, style: ChassisStyle, ops: ChassisOps, cornersKeyword: bool, g: Generator, x: int, y: int)
    requires 0 <= x < l.totalWidth && 0 <= y < l.totalHeight
    ensures
      var a := CreateChassis(l, width, style, ops, cornersKeyword, g).0.At(x, y).a;
      var shapes := SilhouetteShapes(l, ComputeGeometry(l, width, style), cornersKeyword);
      && (a == 0 || a == 255)
      && (a == 255 <==> Covers(shapes.0, ops.cornerFill, x, y) || Covers(shapes.1, ops.cornerFill, x, y))
  {
    var cg := ComputeGeometry(l, width, style);
    var paper := Paper(l, style, ops, g);
    var grip := Grip(l, cg, style, ops, paper.1);
    var body := Body(l, cg, paper.0, grip.0, ops);
    var shapes := SilhouetteShapes(l, cg, cornersKeyword);
    var mask := MaskOf(l.totalWidth, l.totalHeight, shapes.0, shapes.1, ops.cornerFill);
    assert CreateChassis(l, width, style, ops, cornersKeyword, g) == Frame(l, cg, style, ops, cornersKeyword, g);
    assert CreateChassis(l, width, style, ops, cornersKeyword, g).0 == PutAlpha(body, mask);
    assert mask.At(x, y) == 0 || mask.At(x, y) == 255;
  }

  /**
    With a Pillow that accepts `corners=`, the second silhouette shape is the
    whole frame, so the frame is opaque everywhere.
   */
  lemma {:induction false} CornersKeywordOpaque(
    l: Layout, width: nat, style: ChassisStyle, ops: ChassisOps, g: Generator, x: int, y: int)
    requires 0 <= x < l.totalWidth && 0 <= y < l.totalHeight
    ensures CreateChassis(l, width, style, ops, true, g).0.At(x, y).a == 255
  {
    ChassisAlphaIsSilhouette(l, width, style, ops, true, g, x, y);
    var shapes := SilhouetteShapes(l, ComputeGeometry(l, width, style), true);
    assert Covers(shapes.1, ops.cornerFill, x, y);
  }

  /** The colour of a frame pixel, alpha dropped. */
  function ColourOf(p: Rgba): Rgb { Rgb(p.r, p.g, p.b) }

  /** For any sizes: outside the seam rectangle's rows, the frame's colour is that of the pasted base. */
  lemma {:induction false} FrameColourOutsideSeam(
    l: Layout, cg: ChassisGeometry, style: ChassisStyle, ops: ChassisOps, cornersKeyword: bool, g: Generator, x: int, y: int)
    requires 0 <= x < l.totalWidth && 0 <= y < l.totalHeight
    ensures
      var paper := Paper(l, style, ops, g);
      var grip := Grip(l, cg, style, ops, paper.1);
      (y < cg.gripY - cg.seamHeight || cg.gripY < y) ==>
        ColourOf(Frame(l, cg, style, ops, cornersKeyword, g).0.At(x, y)) == Paste(paper.0, grip.0, 0, cg.gripY).At(x, y)
  {
    var paper := Paper(l, style, ops, g);
    var grip := Grip(l, cg, style, ops, paper.1);
    var base := Paste(paper.0, grip.0, 0, cg.gripY);
    var body := Body(l, cg, paper.0, grip.0, ops);
    var shapes := SilhouetteShapes(l, cg, cornersKeyword);
    var mask := MaskOf(l.totalWidth, l.totalHeight, shapes.0, shapes.1, ops.cornerFill);
    assert Frame(l, cg, style, ops, cornersKeyword, g).0 == PutAlpha(body, mask);
    assert ColourOf(PutAlpha(body, mask).At(x, y)) == body.At(x, y);
    assert body == PaintRgb(base, SeamRect(l, cg), ops.seamBlend, ops.cornerFill);
  }

  /** For any sizes whose grip band ends at the bottom edge: paper above the seam, grip below its top row. */
  lemma {:induction false} FrameBands(
    l: Layout, cg: ChassisGeometry, style: ChassisStyle, ops: ChassisOps, cornersKeyword: bool, g: Generator, x: int, y: int)
    requires 0 <= x < l.totalWidth && 0 <= y < l.totalHeight
    requires cg.seamHeight >= 0 && cg.gripY + cg.gripHeight == l.totalHeight
    ensures
      var paper := Paper(l, style, ops, g);
      var grip := Grip(l, cg, style, ops, paper.1);
      var c := ColourOf(Frame(l, cg, style, ops, cornersKeyword, g).0.At(x, y));
      && (y < cg.gripY - cg.seamHeight ==> c == paper.0.At(x, y))
      && (cg.gripY < y ==> c == grip.0.At(x, y - cg.gripY))
  {
    var paper := Paper(l, style, ops, g);
    var grip := Grip(l, cg, style, ops, paper.1);
    FrameColourOutsideSeam(l, cg, style, ops, cornersKeyword, g, x, y);
    var base := Paste(paper.0, grip.0, 0, cg.gripY);
    if y < cg.gripY - cg.seamHeight {
      assert base.At(x, y) == paper.0.At(x, y);
    }
    if cg.gripY < y {
      assert base.At(x, y) == grip.0.At(x, y - cg.gripY);
    }
  }

  /** Outside the seam rectangle's rows, the frame's colour is that of the pasted base. */
  lemma {:induction false} ChassisColourOutsideSeam(
    l: Layout, width: nat, style: ChassisStyle, ops: ChassisOps, cornersKeyword: bool, g: Generator, x: int, y: int)
    requires 0 <= x < l.totalWidth && 0 <= y < l.totalHeight
    ensures
      var cg := ComputeGeometry(l, width, style);
      var paper := Paper(l, style, ops, g);
      var grip := Grip(l, cg, style, ops, paper.1);
      (y < cg.gripY - cg.seamHeight || cg.gripY < y) ==>
        ColourOf(CreateChassis(l, width, style, ops, cornersKeyword, g).0.At(x, y)) == Paste(paper.0, grip.0, 0, cg.gripY).At(x, y)
  {
    FrameColourOutsideSeam(l, ComputeGeometry(l, width, style), style, ops, cornersKeyword, g, x, y);
  }

  /**
    Above the seam the frame shows the grained paper; below the grip's top
    row it shows the grained grip band. Only the seam rows lie in between.
   */
  lemma {:induction false} ChassisBandsFrame(
    l: Layout, width: nat, style: ChassisStyle, ops: ChassisOps, cornersKeyword: bool, g: Generator, x: int, y: int)
    requires 0 <= x < l.totalWidth && 0 <= y < l.totalHeight
    requires style.seamHeight >= 0.0
    ensures
      var cg := ComputeGeometry(l, width, style);
      var paper := Paper(l, style, ops, g);
      var grip := Grip(l, cg, style, ops, paper.1);
      var c := ColourOf(CreateChassis(l, width, style, ops, cornersKeyword, g).0.At(x, y));
      && (y < cg.gripY - cg.seamHeight ==> c == paper.0.At(x, y))
      && (cg.gripY < y ==> c == grip.0.At(x, y - cg.gripY))
  {
    FrameBands(l, ComputeGeometry(l, width, style), style, ops, cornersKeyword, g, x, y);
  }

  /**
    The grip paste replaces exactly the rows from `grip_y` down, across the
    full width: below the boundary the grip shows, above it the paper.
   */
  lemma {:induction false} GripPasteFrame(paper: Image<Rgb>, grip: Image<Rgb>, gripY: nat, x: int, y: int)
    requires paper.Valid() && gripY <= paper.height && grip.HasSize(paper.width, paper.height - gripY)
    requires 0 <= x < paper.width && 0 <= y < paper.height
    ensures y >= gripY ==> Paste(paper, grip, 0, gripY).At(x, y) == grip.At(x, y - gripY)
    ensures y < gripY ==> Paste(paper, grip, 0, gripY).At(x, y) == paper.At(x, y)
  {
  }

  /** `create_photo_mask(size, width_ref)`: a binary rounded rectangle of exactly the given size. */
  function CreatePhotoMask(w: nat, h: nat, widthRef: nat, style: ChassisStyle, cornerFill: (Shape, int, int) -> bool)
    : (m: Image<Byte>)
    ensures m.HasSize(w, h) && Binary(m)
    ensures forall x, y :: 0 <= x < w && 0 <= y < h ==>
      (m.At(x, y) == 255 <==>
        Covers(RoundedRectangle(0, 0, w, h, Trunc(widthRef as real * style.photoCornerRadius)), cornerFill, x, y))
  {
    var radius := Trunc(widthRef as real * style.photoCornerRadius);
    PaintMask(Fill(w, h, 0), RoundedRectangle(0, 0, w, h, radius), cornerFill)
  }

  /**
    Away from its four corner squares the photo mask is opaque, whatever the
    corner rasterisation.
   */
  lemma {:induction false} PhotoMaskOpaqueAwayFromCorners(
    w: nat, h: nat, widthRef: nat, style: ChassisStyle, cornerFill: (Shape, int, int) -> bool, x: int, y: int)
    requires 0 <= x < w && 0 <= y < h
    requires var r := Trunc(widthRef as real * style.photoCornerRadius);
      (r < x < w - r) || (r < y < h - r)
    ensures CreatePhotoMask(w, h, widthRef, style, cornerFill).At(x, y) == 255
  {
    var r := Trunc(widthRef as real * style.photoCornerRadius);
    var s := RoundedRectangle(0, 0, w, h, r);
    assert Covers(s, cornerFill, x, y);
  }
}
