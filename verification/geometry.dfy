/**
  The frame layout: how large the finished print is and where the photo
  sits in it. Every margin is a truncated fraction of the photo's WIDTH.
 */
module Geometry {
  import opened Arith

  const BorderSideRatio: real := 0.06
  const BorderTopRatio: real := 0.06
  const BorderBottomRatio: real := 0.18

  datatype Layout = Layout(totalWidth: nat, totalHeight: nat, photoX: nat, photoY: nat)

  /** `int(width * ratio)`: a margin in pixels. */
  function Margin(width: nat, ratio: real): int
  {
    Trunc(width as real * ratio)
  }

  /** The side, top and bottom margins as exact integer fractions of the width. */
  lemma {:induction false} MarginsClosedForm(width: nat)
    ensures Margin(width, BorderSideRatio) == 6 * width / 100
    ensures Margin(width, BorderTopRatio) == 6 * width / 100
    ensures Margin(width, BorderBottomRatio) == 18 * width / 100
  {
    assert width as real * 0.06 == (width * 6) as real / 100 as real;
    TruncRatio(width, 6, 100);
    assert width as real * 0.18 == (width * 18) as real / 100 as real;
    TruncRatio(width, 18, 100);
  }

  /** `calculate_layout`: the total size and the photo's top-left corner. */
  function CalculateLayout(width: nat, height: nat): (l: Layout)
    ensures l.photoX == 6 * width / 100 && l.photoY == 6 * width / 100
    ensures l.totalWidth == width + 2 * (6 * width / 100)
    ensures l.totalHeight == height + 6 * width / 100 + 18 * width / 100
    ensures l.photoX + width + 6 * width / 100 == l.totalWidth
    ensures l.photoY + height + 18 * width / 100 == l.totalHeight
    ensures l.totalWidth >= width && l.totalHeight >= height
  {
    MarginsClosedForm(width);
    var side := Margin(width, BorderSideRatio);
    var top := Margin(width, BorderTopRatio);
    var bottom := Margin(width, BorderBottomRatio);
    Layout(width + side * 2, height + top + bottom, side, top)
  }

  /** The height does not influence any margin: two photos of equal width get equal margins. */
  lemma MarginsIgnoreHeight(width: nat, h1: nat, h2: nat)
    ensures CalculateLayout(width, h1).photoX == CalculateLayout(width, h2).photoX
    ensures CalculateLayout(width, h1).photoY == CalculateLayout(width, h2).photoY
    ensures CalculateLayout(width, h1).totalWidth == CalculateLayout(width, h2).totalWidth
    ensures CalculateLayout(width, h1).totalHeight - h1 == CalculateLayout(width, h2).totalHeight - h2
  {
  }

  /** The worked example of a square 1000-pixel photo. */
  lemma SquareThousandLayout()
    ensures CalculateLayout(1000, 1000) == Layout(1120, 1240, 60, 60)
  {
  }
}
