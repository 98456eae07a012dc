# Image-Compressor core, modelled in Dafny

This project models the integer and decision logic of `Compressor`, the Android library class that downsizes a photo for upload and classifies photos as blurry or sharp. It has three modules:

- `DimensionPlanner` (`planner.dfy`) covers the compression planning in `compressImage`. The probed source size picks a canonical bounding box: 1287 x 1795 for portrait, 1795 x 1287 for landscape, 1795 x 1795 for square. The target size comes from comparing the height and width ratios. `calculateInSampleSize` then picks the decode sample size: it starts from the rounded side ratios and increments until the decode holds at most twice the target's pixel count. The float ratios become exact integer cross-multiplications. `(int)` of a positive quotient becomes integer division, and `Math.round(n/d)` becomes `floor(n/d + 1/2)`. The loop is a method with invariants. It is proved to return the least value at or above its start that meets the pixel cap, and that value is at least 1.
- `Orientation` (`orientation.dfy`) covers the EXIF orientation step. Code 6 gives a 90-degree turn, 3 gives 180 and 8 gives 270. Every other code, and an unreadable EXIF block, gives no rotation. The library's bitmap rotation is modelled as a pure transform on a raster of rows. It is proved to swap width and height exactly for the quarter turns. It is also proved invertible: the counter-clockwise turn undoes the clockwise one, two quarter turns make the half turn, and the half turn undoes itself.
- `BlurClassifier` (`blur.dfy`) covers `imageQuality` after the Laplacian. The method scans the pixel array for its largest signed 32-bit value, starting from the seed -16777216. It answers `"blur image"` exactly when that maximum is at most -6118750. The model assumes that the bitmap library packs gray level g as the ARGB word `0xFF000000 | g * 0x010101`. Under that assumption the seed is gray 0 and the threshold is gray 162. So the verdict is "blur image" exactly when no Laplacian response exceeds gray 162.

Three behaviours of the code are worth stating outright, because they are easy to misread:

- The target *covers* the box rather than fitting inside it (Compressor.java:198-206). One side equals the box's side and the other is at least as long. A 4000 x 3000 source gets 1795 x 1346, which is taller than the box's 1287 (`TargetCoversBox`, `LandscapeExample`).
- The sample size is the least factor at or above the rounded-ratio start value, not the least factor of at least 1 that meets the pixel cap (Compressor.java:291-302). For a 7180 x 5148 source the start is 4, although 3 already meets the cap (`StartAboveLeastFactorExample`).
- The proportional side is truncated by `(int)`, not rounded (Compressor.java:200, 203).

## Model

| member | source | states |
|---|---|---|
| DimensionPlanner.BoundingBox | app/src/main/java/com/bishwajeet/imagecompressor/Compressor.java:183-192 | the box has the source's orientation in both directions (portrait iff portrait, landscape iff landscape); one side is 1795, the other 1287 unless square, and both are at least 1287 |
| DimensionPlanner.BoundingBoxTransposes | app/src/main/java/com/bishwajeet/imagecompressor/Compressor.java:183-192 | transposing the source transposes the box |
| DimensionPlanner.TargetSize | app/src/main/java/com/bishwajeet/imagecompressor/Compressor.java:194-207 | when the height ratio dominates or ties, the width is the box width and the height is the largest integer at most the aspect-preserving height; when the width ratio dominates or ties, symmetrically |
| DimensionPlanner.TargetCoversBox | app/src/main/java/com/bishwajeet/imagecompressor/Compressor.java:194-207 | the target covers the box: both sides are at least the box's sides, and so at least 1287 |
| DimensionPlanner.TargetKeepsAspect | app/src/main/java/com/bishwajeet/imagecompressor/Compressor.java:194-207 | the target's aspect ratio matches the source's within one pixel: `t.width*h - t.height*w` lies strictly between `-h` and `w` |
| DimensionPlanner.LandscapeExample | app/src/main/java/com/bishwajeet/imagecompressor/Compressor.java:183-207 | 4000 x 3000 gets box 1795 x 1287 and target 1795 x 1346 |
| DimensionPlanner.SquareExample | app/src/main/java/com/bishwajeet/imagecompressor/Compressor.java:189-207 | 1000 x 1000 gets target 1795 x 1795, with no clamp to the native size |
| DimensionPlanner.RoundHalfUp | app/src/main/java/com/bishwajeet/imagecompressor/Compressor.java:294-295 | `Math.round` of a non-negative ratio is the nearest integer, with halves rounded up |
| DimensionPlanner.StartSampleSize | app/src/main/java/com/bishwajeet/imagecompressor/Compressor.java:291-297 | the start is 1 when the source fits the request, otherwise the smaller of the two rounded side ratios |
| DimensionPlanner.CalculateInSampleSize | app/src/main/java/com/bishwajeet/imagecompressor/Compressor.java:288-305 | the result is at least 1 and at least the start, meets `w*h <= 2*reqW*reqH*s*s`, and no smaller value at or above the start meets it; it is exactly 1 when the source fits the request |
| DimensionPlanner.SmallSourceWithinCap | app/src/main/java/com/bishwajeet/imagecompressor/Compressor.java:291-302 | a source no larger than the request meets the pixel cap at sample size 1 |
| DimensionPlanner.StartAboveLeastFactorExample | app/src/main/java/com/bishwajeet/imagecompressor/Compressor.java:291-302 | for 7180 x 5148 the start is 4 although 3 already meets the cap |
| DimensionPlanner.PlanCompression | app/src/main/java/com/bishwajeet/imagecompressor/Compressor.java:179-211 | the plan's target covers its box, and its sample size is at least 1, meets the pixel cap and is minimal at or above the start |
| Orientation.Degrees | app/src/main/java/com/bishwajeet/imagecompressor/Compressor.java:255-264 | every rotation is a multiple of 90 below 360, and only the identity is 0 |
| Orientation.RotationFor | app/src/main/java/com/bishwajeet/imagecompressor/Compressor.java:251-264 | 6 maps to 90 degrees, 3 to 180 and 8 to 270 (each an iff); every other code maps to 0 |
| Orientation.RotationOf | app/src/main/java/com/bishwajeet/imagecompressor/Compressor.java:247-270 | an unreadable EXIF block gives no rotation; a readable one goes by its code |
| Orientation.UnrecognisedCodesKeepOrientation | app/src/main/java/com/bishwajeet/imagecompressor/Compressor.java:251-264 | codes 0, 1, 2, 4, 5 and 7 (default and mirrored) give no rotation |
| Orientation.TurnClockwise | app/src/main/java/com/bishwajeet/imagecompressor/Compressor.java:255-267 | the 90-degree turn swaps width and height, and output pixel (column x, row y) is input pixel (column y, row H-1-x) |
| Orientation.TurnHalf | app/src/main/java/com/bishwajeet/imagecompressor/Compressor.java:258-267 | the 180-degree turn keeps the dimensions and mirrors both axes |
| Orientation.TurnCounterClockwise | app/src/main/java/com/bishwajeet/imagecompressor/Compressor.java:261-267 | the 270-degree turn swaps width and height |
| Orientation.Rotate | app/src/main/java/com/bishwajeet/imagecompressor/Compressor.java:254-267 | quarter turns swap width and height, the identity and the half turn keep them, the identity changes nothing, and each rotation applies its own turn |
| Orientation.Normalize | app/src/main/java/com/bishwajeet/imagecompressor/Compressor.java:247-270 | the output dimensions are swapped exactly for codes 6 and 8; code 6 applies the clockwise quarter turn, 3 the half turn and 8 the counter-clockwise quarter turn; for other codes and an unreadable block the raster is unchanged |
| Orientation.TurnsCancel | app/src/main/java/com/bishwajeet/imagecompressor/Compressor.java:255-267 | the 270-degree turn undoes the 90-degree turn and the reverse |
| Orientation.TwoQuarterTurnsMakeHalf | app/src/main/java/com/bishwajeet/imagecompressor/Compressor.java:255-267 | two 90-degree turns equal the 180-degree turn |
| Orientation.HalfTurnInvolution | app/src/main/java/com/bishwajeet/imagecompressor/Compressor.java:258-267 | the 180-degree turn undoes itself |
| Orientation.Code6Example | app/src/main/java/com/bishwajeet/imagecompressor/Compressor.java:251-267 | a 1346 x 1795 raster tagged 6 comes out 1795 x 1346 |
| BlurClassifier.MaxLaplacian | app/src/main/java/com/bishwajeet/imagecompressor/Compressor.java:382-391 | the scanned maximum is at least the seed and every pixel, and it is the seed or one of the pixels |
| BlurClassifier.MaxAtMost | app/src/main/java/com/bishwajeet/imagecompressor/Compressor.java:382-399 | for a bound above the seed, the maximum is at most the bound iff every pixel is |
| BlurClassifier.ImageQuality | app/src/main/java/com/bishwajeet/imagecompressor/Compressor.java:379-399 | the verdict is one of the two strings, and it is "blur image" iff the scanned maximum is at most -6118750, iff every pixel is at most -6118750 |
| BlurClassifier.PackGray | app/src/main/java/com/bishwajeet/imagecompressor/Compressor.java:375-380 | gray g packed as the ARGB word 0xFF000000 OR g*0x010101 reads back as the signed value -16777216 + 65793*g |
| BlurClassifier.PackGrayOrder | app/src/main/java/com/bishwajeet/imagecompressor/Compressor.java:382-393 | packing is strictly monotone; the seed is gray 0 and the threshold is gray 162 |
| BlurClassifier.Packed | app/src/main/java/com/bishwajeet/imagecompressor/Compressor.java:378-380 | the pixel array of a Laplacian image is its gray levels packed one by one |
| BlurClassifier.BlurIffGraysAtMost162 | app/src/main/java/com/bishwajeet/imagecompressor/Compressor.java:382-399 | the verdict is "blur image" iff every Laplacian gray level is at most 162 |
| BlurClassifier.FlatImageIsBlur | app/src/main/java/com/bishwajeet/imagecompressor/Compressor.java:382-399 | an all-zero Laplacian is judged blurry |
| BlurClassifier.StrongEdgeIsSharp | app/src/main/java/com/bishwajeet/imagecompressor/Compressor.java:382-399 | one Laplacian response of 255 makes the image sharp |

## Left out

- Decoding, encoding and file I/O are not modelled. This covers the bounds probe and decode, the JPEG encode at quality 80, the output file name built from the clock, the content-resolver lookup, and the deletion of source and temporary files. They are platform calls. The model takes the probed width and height, and the EXIF read outcome, as parameters.
- A failed bounds probe is not modelled: the model requires positive source dimensions. On failure the platform reports -1 x -1, the decode returns no bitmap, and the source then dereferences null.
- The Canvas/Matrix rescale to the target size is not modelled. It is a float affine transform with bitmap filtering inside the graphics library. That the rescaled raster handed to `Orientation.Normalize` has the plan's target dimensions is an unmodelled assumption: no member connects `PlanCompression` to `Normalize`.
- Grayscale conversion and the Laplacian filter are not modelled. They are OpenCV calls, including its 8-bit saturation. `ImageQuality` starts from the resulting pixel array.
- The gray-to-ARGB packing in `PackGray` is an assumption about the bitmap library, not code of this repository.
- Floats are not modelled. The ratio computations use exact arithmetic, so results can differ from Java's single-precision floats. The most common case is a proportional side that is exactly a whole number: the float product can land just below it, and `(int)` then gives one less. For example, 900 x 1077 gives 1499 x 1795 in floats, but `TargetSize` gives 1500 x 1795. Results can also differ at near-ties of the ratio comparison and for pixel counts above 2^24. Java's saturating float-to-int cast is not modelled either.
- DimensionPlanner.CalculateInSampleSize: does not model 32-bit wrap-around of `width * height` and `reqWidth * reqHeight * 2`. It only matters for sources above 2^31 pixels or for extremely elongated targets, where the source's loop would misbehave.
- The singleton `with`, the `Builder` and the background task class are not modelled. They are concurrency and object plumbing with no computation.
- Exception swallowing and logging are not modelled. This covers out-of-memory during decode or allocation, and a failed write of the output file. The one recovery that changes the result, an unreadable EXIF block, is modelled in `RotationOf`.
- The `compress(int drawableID)` and `getCompressBitmap` wrappers are not modelled. They only re-run the pipeline around file I/O.
- `SelectPictureActivity` is not modelled. It is UI code.
