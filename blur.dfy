/** Blur verdict. The grayscale conversion and the Laplacian filter are
    library calls outside this model; it starts from the Laplacian image's
    pixels as the `int[]` the bitmap hands back (packed ARGB words read as
    signed 32-bit integers), finds their maximum and compares it with a
    fixed threshold. */
module BlurClassifier {

  newtype Int32 = x: int | -0x8000_0000 <= x < 0x8000_0000

  /** The seed of the maximum scan. */
  const Seed: Int32 := -16777216
  /** Largest maximum still judged blurry. */
  const Threshold: Int32 := -6118750

  const BlurLabel: string := "blur image"
  const SharpLabel: string := "Not a blur image"

  /** The scan's step: keep the running maximum unless the pixel exceeds it. */
  function Larger(maxLap: Int32, pixel: Int32): Int32
  {
    if pixel > maxLap then pixel else maxLap
  }

  /** The value the scan leaves in `maxLap` after the pixels `s`: the
      maximum of the seed and every pixel. */
  function MaxLaplacian(s: seq<Int32>): (m: Int32)
    ensures m >= Seed
    ensures forall i :: 0 <= i < |s| ==> s[i] <= m
    ensures m == Seed || m in s
  {
    if s == [] then Seed else Larger(MaxLaplacian(s[..|s| - 1]), s[|s| - 1])
  }

  /** The maximum is at most a bound above the seed exactly when every
      pixel is. */
  lemma MaxAtMost(s: seq<Int32>, bound: Int32)
    requires Seed <= bound
    ensures MaxLaplacian(s) <= bound <==> forall i :: 0 <= i < |s| ==> s[i] <= bound
  {
  }

  /** `imageQuality` after the Laplacian: scan the pixels for the largest
      signed value, starting from the seed, and call the image blurry when
      that maximum does not exceed the threshold. So an empty image is
      blurry, and one pixel above the threshold makes it sharp. */
  method ImageQuality(pixels: array<Int32>) returns (verdict: string)
    ensures verdict == BlurLabel || verdict == SharpLabel
    ensures verdict == (if MaxLaplacian(pixels[..]) <= Threshold then BlurLabel else SharpLabel)
    ensures verdict == BlurLabel <==> forall i :: 0 <= i < pixels.Length ==> pixels[i] <= Threshold
  {
    var maxLap := Seed;
    for i := 0 to pixels.Length
      invariant maxLap == MaxLaplacian(pixels[..i])
    {
      assert pixels[..i + 1][..i] == pixels[..i];
      if pixels[i] > maxLap {
        maxLap := pixels[i];
      }
    }
    assert pixels[..pixels.Length] == pixels[..];
    if maxLap < Threshold || maxLap == Threshold {
      verdict := BlurLabel;
    } else {
      verdict := SharpLabel;
    }
    MaxAtMost(pixels[..], Threshold);
  }

  /** Modelling assumption about the bitmap library: a gray level g of an
      8-bit single-channel image becomes the opaque ARGB word
      `0xFF000000 | g * 0x010101` (alpha 255, red = green = blue = g). */
  function PackArgb(g: bv8): bv32
  {
    0xFF00_0000 | (g as bv32) * 0x01_0101
  }

  /** A 32-bit word read as a two's-complement Java `int`. */
  function AsSigned(w: bv32): Int32
  {
    if w < 0x8000_0000 then w as int as Int32 else (w as int - 0x1_0000_0000) as Int32
  }

  /** The signed pixel that gray level g reads back as. */
  function PackGray(g: bv8): (p: Int32)
    ensures p as int == -16777216 + 65793 * (g as int)
  {
    AsSigned(PackArgb(g))
  }

  /** Packing is strictly monotone in the gray level; the seed is gray 0
      and the threshold is gray 162. */
  lemma PackGrayOrder(g: bv8, h: bv8)
    requires g < h
    ensures PackGray(g) < PackGray(h)
    ensures PackGray(0) == Seed && PackGray(162) == Threshold
  {
  }

  /** The packed pixels of a Laplacian image given by its gray levels. */
  function Packed(grays: seq<bv8>): (s: seq<Int32>)
    ensures |s| == |grays|
    ensures forall i :: 0 <= i < |grays| ==> s[i] == PackGray(grays[i])
  {
    seq(|grays|, i requires 0 <= i < |grays| => PackGray(grays[i]))
  }

  /** Under the packing assumption the signed-word comparison is a gray-level
      comparison: the verdict is "blur image" exactly when no Laplacian
      response exceeds gray 162. */
  lemma {:induction false} BlurIffGraysAtMost162(grays: seq<bv8>)
    ensures MaxLaplacian(Packed(grays)) <= Threshold <==> forall i :: 0 <= i < |grays| ==> grays[i] <= 162
  {
    var s := Packed(grays);
    MaxAtMost(s, Threshold);
    forall i | 0 <= i < |grays|
      ensures s[i] <= Threshold <==> grays[i] <= 162
    {
      if grays[i] <= 162 {
        if grays[i] < 162 { PackGrayOrder(grays[i], 162); }
      } else {
        PackGrayOrder(162, grays[i]);
      }
    }
  }

  /** A flat image has a zero Laplacian everywhere and is judged blurry. */
  lemma FlatImageIsBlur(n: nat)
    ensures MaxLaplacian(Packed(seq(n, _ => 0 as bv8))) <= Threshold
  {
    BlurIffGraysAtMost162(seq(n, _ => 0 as bv8));
  }

  /** An image with one full-strength edge response is judged sharp. */
  lemma StrongEdgeIsSharp(grays: seq<bv8>, k: int)
    requires 0 <= k < |grays| && grays[k] == 255
    ensures MaxLaplacian(Packed(grays)) > Threshold
  {
    BlurIffGraysAtMost162(grays);
  }
}
