/**
  The input check run before any pixel work: first a minimum size, then an
  aspect-ratio window. The exception the source raises becomes a verdict.
 */
module Validation {
  import opened Arith

  const MinImageSize: int := 50
  const MinAspectRatio: real := 0.3
  const MaxAspectRatio: real := 3.0

  datatype Verdict =
    | Accepted
    | TooSmall(width: int, height: int)
    | BadAspect(ratio: real)

  /**
    `validate_image_dimensions`. The size test runs first; the ratio
    `width / height` is only formed once the height is known to be at least 50.
   */
  function ValidateImageDimensions(width: int, height: int): (v: Verdict)
    ensures v.TooSmall? <==> width < 50 || height < 50
    ensures v.TooSmall? ==> v == TooSmall(width, height)
    ensures v.BadAspect? <==> width >= 50 && height >= 50 && !(3 * height <= 10 * width && width <= 3 * height)
    ensures v.Accepted? <==> width >= 50 && height >= 50 && 3 * height <= 10 * width && width <= 3 * height
  {
    if width < MinImageSize || height < MinImageSize then
      TooSmall(width, height)
    else
      var ratio := width as real / height as real;
      RatioBounds(width, height);
      if !(MinAspectRatio <= ratio <= MaxAspectRatio) then BadAspect(ratio) else Accepted
  }

  /** The real ratio test is the integer cross-multiplied test. */
  lemma RatioBounds(width: int, height: int)
    requires height > 0
    ensures 0.3 <= width as real / height as real <==> 3 * height <= 10 * width
    ensures width as real / height as real <= 3.0 <==> width <= 3 * height
  {
    var h := height as real;
    var w := width as real;
    Cancel(0.3, h);
    Cancel(3.0, h);
    if 3 * height <= 10 * width {
      DivLe(0.3 * h, w, h);
    } else {
      DivLt(w, 0.3 * h, h);
    }
    if width <= 3 * height {
      DivLe(w, 3.0 * h, h);
    } else {
      DivLt(3.0 * h, w, h);
    }
  }

  /** The accepted and rejected examples, both inclusive bounds among them. */
  lemma ValidationExamples()
    ensures ValidateImageDimensions(1000, 1000) == Accepted
    ensures ValidateImageDimensions(40, 1000) == TooSmall(40, 1000)
    ensures ValidateImageDimensions(49, 1000).TooSmall?
    ensures ValidateImageDimensions(10, 10).TooSmall?
    ensures ValidateImageDimensions(100, 1000).BadAspect?
    ensures ValidateImageDimensions(1000, 100).BadAspect?
    ensures ValidateImageDimensions(1000, 16667).BadAspect?
    ensures ValidateImageDimensions(300, 1000) == Accepted
    ensures ValidateImageDimensions(3000, 1000) == Accepted
  {
  }

  /** A too-small image is reported as too small even when its shape is also out of range. */
  lemma SizeCheckFirst(width: int, height: int)
    requires width < 50 || height < 50
    requires height > 0
    requires !(3 * height <= 10 * width && width <= 3 * height)
    ensures ValidateImageDimensions(width, height) == TooSmall(width, height)
  {
  }
}
