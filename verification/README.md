# polaroid, modelled in Dafny

`polaroid` turns a photograph into an instant-print: it checks the photo's
dimensions, computes a frame layout whose margins are fractions of the photo
width, "develops" the colours through three per-channel tone curves, adds
film grain, simulates a cheap lens (red-channel aberration, soft focus,
vignette), builds the cartridge frame (paper, grip band, seam, rounded
silhouette) and a companion normal map for relighting.

This project models those steps as pure Dafny functions and methods over
exact integers and reals, one module per source file:

- `Arith`: Python's `int()` on a float (`Trunc`, toward zero), clipping to
  a byte, and the arithmetic lemmas the proofs share.
- `Raster`: an image as rows of pixels (`Image<P>`), with the PIL
  operations the core uses with fixed semantics (`new`, `paste`, `crop`,
  per-pixel maps).
- `Geometry`: `calculate_layout`.
- `Validation`: `validate_image_dimensions`, with the exception as a
  `Verdict`.
- `Chemistry`: the red, green and blue tone curves of `develop_image` and
  their application through `image.point`.
- `Filters`: `apply_grain`. Python's process-wide random generator is a
  `Generator` value (the stream of `randint(0, 255)` results and the
  position reached), threaded through every call that draws from it.
- `Optics`: `apply_optics`, covering the aberration crop box, the
  quarter-resolution mask grid, and the blur and vignette ramps.
- `Chassis`: `create_chassis` and `create_photo_mask`.
- `Texture`: `generate_noise_layer`, `height_to_normal` and
  `create_combined_normal`.

Routines whose arithmetic belongs to PIL or to the C runtime are
parameters. These are:

- bicubic `resize`, `GaussianBlur`, the 3x3 `Kernel` filter, `Image.blend`
  and `Image.composite` rounding, and `ImageEnhance.Contrast`;
- `effect_noise` and the rasterisation of rounded corners;
- `math.sqrt`, constrained to be the non-negative square root.

The properties are stated about what the repository's own code does with
their results. Several style constants are read from the configuration but
not defined there, for example the aberration offset, the blur and vignette
settings, the seam height, the corner radii and the chassis noise
intensities. Those are fields of `Optics.OpticsStyle` and
`Chassis.ChassisStyle`. Preconditions appear only where the source's
arithmetic would otherwise leave its range or divide by zero, or where the
source's own comment fixes the sign of a style constant.

Float products such as `int(width * 0.06)` and `x * 0.9` are modelled as
exact rational products followed by truncation. The lemmas
`Geometry.MarginsClosedForm`, `Chemistry.RedEntryClosedForm` and the others
turn these into integer floor divisions.

## Model

| member | source | states |
|---|---|---|
| Geometry.MarginsClosedForm | polaroid/geometry.py:32-34 | side and top margins are floor(6W/100), the bottom margin floor(18W/100) |
| Geometry.CalculateLayout | polaroid/geometry.py:18-45 | total size is W + 2·side by H + top + bottom, the photo sits at (side, top), the photo leaves exactly the side and bottom margins, and the frame is never smaller than the photo |
| Geometry.MarginsIgnoreHeight | polaroid/geometry.py:32-37 | two photos of equal width get identical margins whatever their heights |
| Geometry.SquareThousandLayout | polaroid/geometry.py:32-45 | a 1000×1000 photo yields a 1120×1240 frame with the photo at (60, 60) |
| Validation.ValidateImageDimensions | polaroid/validation.py:5-30 | too small iff a side is below 50; otherwise rejected for aspect iff not (3h ≤ 10w and w ≤ 3h); accepted iff neither |
| Validation.RatioBounds | polaroid/validation.py:24-26 | for a positive height the real ratio bounds 0.3 ≤ w/h ≤ 3.0 are exactly the integer cross-multiplied bounds |
| Validation.ValidationExamples | polaroid/validation.py:17-30 | 1000×1000, 300×1000 and 3000×1000 are accepted (both bounds inclusive); 40×1000, 49×1000 and 10×10 are too small; 100×1000, 1000×100 and 1000×16667 have a bad aspect |
| Validation.SizeCheckFirst | polaroid/validation.py:17-26 | an image that is too small and also badly shaped is reported as too small |
| Chemistry.RedEntryClosedForm | polaroid/chemistry.py:24-29 | the red entry int(max(20, 0.9x)) below 128 and x from 128 up equals the integer form max(20, floor(9x/10)) resp. x |
| Chemistry.BlueEntryClosedForm | polaroid/chemistry.py:42-43 | the blue entry min(255, int(max(30, 1.05x))) equals min(255, max(30, floor(21x/20))) |
| Chemistry.BuildRedCurve | polaroid/chemistry.py:22-29 | 256 entries, each the red tone of its index, black point 20 at entry 0, 255 at entry 255, never below 20, non-decreasing |
| Chemistry.BuildGreenCurve | polaroid/chemistry.py:33-36 | 256 entries, each max(25, x), black point 25, 255 at entry 255, non-decreasing |
| Chemistry.BuildBlueCurve | polaroid/chemistry.py:40-43 | 256 entries, each min(255, max(30, floor(21x/20))), black point 30, clipped at 255, non-decreasing |
| Chemistry.PointUsesChannelCurves | polaroid/chemistry.py:46 | the concatenated red-green-blue table sends each channel through its own curve |
| Chemistry.DevelopImage | polaroid/chemistry.py:17-48 | same size as the input; every pixel, after conversion to RGB, becomes (red tone of R, green tone of G, blue tone of B) |
| Filters.DrawBytes | polaroid/filters.py:25 | n draws are exactly the next n values of the generator's stream, and the generator advances by n |
| Filters.NoiseLayer | polaroid/filters.py:28-32 | the noise layer has the image's size and pixel (x, y) is the grey of sample y·w + x (row-major) |
| Filters.ApplyGrain | polaroid/filters.py:4-36 | size is kept; intensity ≤ 0 returns the image untouched and draws nothing; otherwise a seed restarts the stream, w·h samples are drawn, and each pixel is blended with the grey of its own row-major sample |
| Filters.SeededGrainDeterministic | polaroid/filters.py:19-25 | with a seed the grain image and the final generator position do not depend on the generator's earlier state |
| Filters.UnseededGrainsConsume | polaroid/filters.py:19-25 | two unseeded grains in a row consume consecutive, disjoint stretches of the stream |
| Optics.AberrationBox | polaroid/optics.py:25-36 | the magnified size is floor(w·(1+offset)) by floor(h·(1+offset)); the crop box lies inside it, is exactly w×h, and is centred to within one pixel |
| Optics.MergeRed | polaroid/optics.py:38 | the merged image takes red from the new channel and green and blue from the input |
| Optics.ApplyAberration | polaroid/optics.py:22-38 | size is kept; green and blue are unchanged; red at (x, y) is the resized red channel sampled at (left + x, top + y) |
| Optics.GridSide | polaroid/optics.py:46 | each side of the mask grid is a quarter of the image side, rounded down |
| Optics.SampleWithinCorner | polaroid/optics.py:49-57 | every grid sample is at most as far from the grid centre as the corner, and the corner distance is positive |
| Optics.NormDist | polaroid/optics.py:49-58 | the normalised distance of every grid sample lies in [0, 1] |
| Optics.CornerIsFarthest | polaroid/optics.py:49-58 | the corner sample is at normalised distance exactly 1 |
| Optics.BlurValue | polaroid/optics.py:60-64 | 0 inside the sharp area, within [0, 255] over the unit distance range, 255 at the corner |
| Optics.BlurValueMonotone | polaroid/optics.py:60-64 | farther from the centre never means less blur |
| Optics.VignetteValue | polaroid/optics.py:86-91 | 255 inside the radius; at the corner it is the clipped darkness of the full strength |
| Optics.DarknessMonotone | polaroid/optics.py:90-91 | with non-negative strength a larger ramp factor never gives a brighter value |
| Optics.VignetteValueMonotone | polaroid/optics.py:86-91 | with non-negative strength, farther from the centre never means brighter |
| Optics.BlurMask | polaroid/optics.py:46-68 | the soft-focus mask has the grid's size and each sample is the blur value of its normalised distance |
| Optics.VignetteMask | polaroid/optics.py:74-95 | the vignette mask has the grid's size and each sample is the vignette value of its normalised distance |
| Optics.ApplySoftFocus | polaroid/optics.py:40-71 | size is kept; a non-positive blur strength skips the stage entirely; otherwise each pixel composites the blurred pixel over the sharp one through the upsampled soft-focus mask |
| Optics.ApplyVignette | polaroid/optics.py:73-99 | size is kept; each pixel is the image composited over black through the upsampled vignette mask |
| Optics.ApplyOptics | polaroid/optics.py:5-101 | size is kept; with a non-positive blur strength the result is the vignette of the aberration alone |
| Chassis.GripHeightAsWritten | polaroid/chassis.py:23 | the grip height as written is floor(18·total_h/125), a fraction of the total height |
| Chassis.GripOverlapsPhotoAsWritten | polaroid/chassis.py:23-24 | for a 1000×3000 photo the grip band as written starts at row 2774, above the photo's bottom edge at row 3060 |
| Chassis.GripHeight | polaroid/chassis.py:23 | the corrected grip height is floor(4·bottom/5) of the bottom margin, never more than the margin |
| Chassis.GripWithinBottomMargin | polaroid/chassis.py:23-24 | the corrected grip band fits in the frame and starts below the photo |
| Chassis.ComputeGeometry | polaroid/chassis.py:23-44 | the grip height is floor(18·total_h/125), the grip band ends exactly at the bottom edge with 0 ≤ grip_y ≤ total_h; seam height and both radii are floors of width times their ratio |
| Chassis.CorrectedGeometry | polaroid/chassis.py:23-44 | the corrected geometry differs only in the grip, whose height is the bottom-margin grip and which still ends at the bottom edge |
| Chassis.SquareThousandGrip | polaroid/chassis.py:23-24 | for a 1000×1000 photo the grip as written is 178 rows from row 1062; the corrected grip is 144 rows from row 1096 |
| Chassis.SeamRect | polaroid/chassis.py:35-37 | the seam spans the full width, has the seam height, and its lower edge is the grip's top row |
| Chassis.SilhouetteShapes | polaroid/chassis.py:43-55 | the first shape spans (0, 0, total_w, total_h − r_bottom) rounded by r_top; the second spans the whole frame, a plain rectangle when `corners=` is accepted and rounded by r_top in the fallback |
| Chassis.RoundedRectangle | polaroid/chassis.py:46 | a rounded rectangle keeps its box and radius, and with radius 0 it is a plain rectangle |
| Chassis.PaintMask | polaroid/chassis.py:46 | painting a shape sets exactly its covered pixels to 255 and leaves the rest |
| Chassis.PaintRgb | polaroid/chassis.py:34-37 | painting the seam changes exactly the covered pixels |
| Chassis.MaskOf | polaroid/chassis.py:40-55 | the silhouette mask is binary and 255 exactly where one of the two shapes covers the pixel |
| Chassis.PutAlpha | polaroid/chassis.py:57-58 | the RGBA result keeps the colour and takes its alpha from the mask |
| Chassis.Paper | polaroid/chassis.py:19-20 | the paper canvas has the frame's total size |
| Chassis.Grip | polaroid/chassis.py:26-27 | the grip band is as wide as the frame and as tall as the grip height |
| Chassis.Body | polaroid/chassis.py:30-37 | the pasted and seamed body keeps the paper's size |
| Chassis.CreateChassis | polaroid/chassis.py:6-60 | the frame has the layout's total size; the generator passes through paper then grip grain, advancing by total_w·total_h + total_w·floor(18·total_h/125), and is untouched when neither is grained |
| Chassis.CreateChassisCorrected | polaroid/chassis.py:6-60 | the frame with the corrected grip keeps the total size, its grip band starts below the photo, and the grain draws total_w·total_h + total_w·grip samples |
| Chassis.ChassisAlphaIsSilhouette | polaroid/chassis.py:40-58 | every alpha value is 0 or 255, and it is 255 exactly where a silhouette shape covers the pixel |
| Chassis.CornersKeywordOpaque | polaroid/chassis.py:48-53 | when `corners=` is accepted the second shape covers the whole frame, so every alpha is 255 |
| Chassis.ChassisColourOutsideSeam | polaroid/chassis.py:23-37 | outside the seam rows, whose lower edge is grip_y = total_h − floor(18·total_h/125), the frame's colour is the paper with the grip pasted in at grip_y |
| Chassis.ChassisBandsFrame | polaroid/chassis.py:19-37 | with grip_y = total_h − floor(18·total_h/125), the frame shows the grained paper above the seam and the grained grip below row grip_y |
| Chassis.GripPasteFrame | polaroid/chassis.py:30-31 | the grip paste replaces exactly the rows from grip_y down across the full width; rows above keep the paper |
| Chassis.CreatePhotoMask | polaroid/chassis.py:62-71 | the photo mask has exactly the requested size, is binary, and is 255 exactly on the rounded rectangle of radius floor(width_ref·ratio) |
| Chassis.PhotoMaskOpaqueAwayFromCorners | polaroid/chassis.py:69-70 | outside the four corner squares of side radius + 1 the photo mask is 255, whatever the corner rasterisation |
| Texture.KernelsBalanced | polaroid/texture.py:52-61 | both gradient kernels have nine weights summing to 0, and the vertical kernel is the transpose of the horizontal one |
| Texture.GenerateNoiseLayer | polaroid/texture.py:4-17 | the blurred noise layer has exactly the requested size |
| Texture.Convolved | polaroid/texture.py:63-64 | the filtered field has the height field's size, and each pixel is the kernel applied around that pixel of the height field |
| Texture.Gradient | polaroid/texture.py:63-72 | the gradient image has the height field's size, and each pixel is the contrast enhancement, graded over the whole convolved field, at that pixel |
| Texture.AsWrittenChannelsSaturate | polaroid/texture.py:80-85 | as written, red is 255 for every slope, a flat green slope reads 255, and green is 0 from slope 128 up |
| Texture.NormalRedAsWritten | polaroid/texture.py:83 | the red channel as written, `ImageChops.add(gray, dx, scale=0.5)`, is 255 for every slope |
| Texture.NormalGreenAsWritten | polaroid/texture.py:85 | the green channel as written, `ImageChops.subtract(gray, dy, scale=0.5)`, is 256 − 2·dy clipped to [0, 255] |
| Texture.NormalRed | polaroid/texture.py:83 | the corrected red channel is 128 plus half the slope, rounded down |
| Texture.NormalGreen | polaroid/texture.py:85 | the corrected green channel is 128 minus half the slope, rounded down |
| Texture.IntendedChannelsEncodeSlope | polaroid/texture.py:80-85 | a flat surface maps to neutral (128, 128); red stays in [128, 255] and green in [0, 128]; slopes two apart give strictly different red and green |
| Texture.HeightToNormal | polaroid/texture.py:19-87 | the normal map has the height field's size; at every pixel blue is 255, red is 255, and green is 256 − 2·(contrast-enhanced vertical gradient) clipped to [0, 255] |
| Texture.HeightToNormalCorrected | polaroid/texture.py:63-87 | with the intended mapping, blue is 255, red is 128 + dx/2 and green (256 − dy)/2 of the two contrast-enhanced gradients at every pixel |
| Texture.Scale | polaroid/texture.py:104-111 | each scaled size and coordinate is floor(v·s) |
| Texture.ScaleSuperadditive | polaroid/texture.py:104-111 | scaling two parts separately never exceeds scaling their sum |
| Texture.ScaledPhotoFits | polaroid/texture.py:104-122 | a photo rectangle inside the frame scales to one inside the map, so the fine-noise paste stays in bounds |
| Texture.CombinedHeight | polaroid/texture.py:113-122 | the combined height field has the scaled map size |
| Texture.FinePasteFrame | polaroid/texture.py:119-122 | inside the scaled photo rectangle the fine noise shows; everywhere else the coarse field is unchanged |
| Texture.FineLayerWhole | polaroid/texture.py:104-122 | for a photo rectangle inside the frame, every fine-noise pixel lands unclipped in the combined field at its offset from the scaled photo corner |
| Texture.CreateCombinedNormal | polaroid/texture.py:89-128 | the normal map is floor(W·s) by floor(H·s), and its red and blue channels are 255 everywhere |
| Texture.CreateCombinedNormalCorrected | polaroid/texture.py:89-128 | with the intended mapping the map has the same size, red at least 128, green at most 128 and blue 255 everywhere |

## Left out

- Float arithmetic: every float product and quotient is computed exactly over the reals before truncation. Where IEEE rounding could move a product across an integer, the model follows the exact value.
- Chassis.GripHeightAsWritten: uses the exact 18/125, but the double `0.18 * 0.8` lies just below 0.144. For some total heights that are multiples of 125 (375, 750, 875, ...) the source's `int()` gives one row less than the model's floor(18·total_h/125).
- PIL internals are parameters, and the model says nothing about their values:
  - `resize` with `BICUBIC`, `GaussianBlur` and the `Kernel` filter;
  - the rounding of `Image.blend` and `Image.composite`;
  - `ImageEnhance.Contrast` and `effect_noise` with its `sigma`;
  - the translucent seam drawing;
  - which pixels inside a rounded rectangle's corner squares the quarter circles fill. The rest of its box is filled, as Pillow fills it with two crossing rectangles.
- `ImageChops.add` and `ImageChops.subtract` are modelled by PIL's documented formula, `(a ± b) / scale` truncated and clipped. Nothing else about PIL's C code is modelled.
- Image modes: the chemistry step accepts grey, RGB and RGBA pixels. Other modes (palette, CMYK, 16-bit) are not modelled.
- The `mask.jpg` save in `polaroid/filters.py:34` is file output and is left out.
- `polaroid/debug.py` (directory creation, saving, printing), `polaroid/data.py`, `polaroid/exceptions.py`, `polaroid/__init__.py` and `polaroid/config.py` carry no behaviour of their own. Their constants appear as Dafny constants.
- `polaroid/core.py` only calls the validator and then raises `NotImplementedError`.
- The unused locals in `height_to_normal` (`x_shifted`, `y_shifted`, `diff_x`, `pixels`, `normal_pixels`, `polaroid/texture.py:29-44`) do not influence the result and are not modelled.
- Photo rotation, ring masks and the final compositor have no source and are not part of this model.
- Pillow raises `ValueError` for a rectangle whose corners are inverted, which can happen for a negative seam height. The model draws such a rectangle as empty instead.
- Margin rounding: `calculate_layout` truncates each margin with `int()`, and the model does the same.
- Optics.AberrationBox: requires a non-negative aberration offset. For a negative offset the source's crop box leaves the magnified channel, and PIL fills the outside with zeros. `Raster.Crop` models that fill, but no contract is stated for that case.
- Optics.ApplyAberration: requires a non-negative aberration offset, because the source's comment at `polaroid/optics.py:30` says the red channel is enlarged. A negative offset shrinks the channel. The crop then reads PIL's zero fill, or `resize` rejects a size below one pixel. No contract is stated for that case.
- Optics.ApplyOptics: requires a non-negative aberration offset, for the reason given for `Optics.ApplyAberration`.
- Optics.BlurMask: requires the sharp area not to be 1 on a non-empty grid, because the source divides by `1 - sharp_radius`.
- Optics.VignetteMask: requires the vignette radius not to be 1 on a non-empty grid, because the source divides by `1 - VIGNETTE_RADIUS`.
- Chassis.ChassisBandsFrame: stated only for a non-negative seam height. A negative one makes Pillow reject the seam rectangle.
- Chassis.SilhouetteShapes: on a Pillow whose `rounded_rectangle` takes `corners=`, the call passes four integers. They are read as on/off flags and the radius defaults to 0, so the second shape is a plain rectangle over the whole frame. On an older Pillow the fallback draws it with radius `r_top`. `cornersKeyword` chooses between the two, because which one runs depends on the installed Pillow.

## Findings

The pipeline functions (`Chassis.CreateChassis`, `Texture.HeightToNormal`,
`Texture.CreateCombinedNormal`) model the code as written. The corrected
definitions are given alongside them (`Chassis.CreateChassisCorrected`,
`Texture.HeightToNormalCorrected`, `Texture.CreateCombinedNormalCorrected`),
and the intended properties are proved about those.

| source | as written | input that shows it | evidently intended | confidence | as-written member | corrected member |
|---|---|---|---|---|---|---|
| polaroid/chassis.py:23 | the grip height is `int(total_h * (BORDER_BOTTOM_RATIO * GRIP_RATIO))`, a fraction of the whole frame's height | a 1000×3000 photo: the frame is 3240 tall and the grip is 466 tall, so it starts at row 2774, inside the photo, which ends at row 3060 | the configuration describes `GRIP_RATIO` as the part of the bottom margin the grip occupies, so `int(margin_bottom * GRIP_RATIO)` | medium, not executed | Chassis.GripHeightAsWritten, Chassis.GripOverlapsPhotoAsWritten | Chassis.GripHeight, Chassis.GripWithinBottomMargin, Chassis.CreateChassisCorrected |
| polaroid/texture.py:83-85 | `ImageChops.add(gray, dx, scale=0.5)` and `ImageChops.subtract(gray, dy, scale=0.5)` divide by the scale, so the slope is doubled | any slope: red is `clip(2·(128 + dx)) = 255` for every dx, and a flat surface has green `clip(256) = 255` | the comments say the scale "damps" around neutral grey 128, so 128 + dx/2 and 128 − dy/2 | high, not executed | Texture.NormalRedAsWritten, Texture.NormalGreenAsWritten, Texture.AsWrittenChannelsSaturate | Texture.NormalRed, Texture.NormalGreen, Texture.IntendedChannelsEncodeSlope, Texture.HeightToNormalCorrected |
