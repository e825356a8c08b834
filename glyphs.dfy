/**
 * The per-pixel quantisation of `pixels_to_ascii`: a luminance byte `v` picks
 * the glyph at index `int(v * (R - 1) / 255.0)`, clipped to `[0, R - 1]`, of a
 * ramp of length `R`; a row of bytes becomes one line of glyphs.
 */
module Glyphs {

  /** One 8-bit luminance sample of a grayscale (`'L'`) image. */
  type Luma = v: int | 0 <= v <= 255

  /** `np.clip(x, lo, hi)` on one element: `min(max(x, lo), hi)`. */
  function Clip(x: int, lo: int, hi: int): int
  {
    var y := if x < lo then lo else x;
    if y > hi then hi else y
  }

  /**
   * The glyph index of a byte for a ramp of `r` glyphs.  The product
   * `v * (r - 1)` is never negative, so Dafny's division agrees with the
   * truncation of the source's floating-point quotient.
   */
  function GlyphIndex(v: Luma, r: nat): (i: int)
    requires r >= 1
    ensures 0 <= i < r
  {
    Clip((v * (r - 1)) / 255, 0, r - 1)
  }

  /**
   * The clip never changes anything: the scaled quotient already lies in
   * `[0, r - 1]`, and the index is the floor of `v * (r - 1) / 255`.
   */
  lemma ClipIsIdentity(v: Luma, r: nat)
    requires r >= 1
    ensures 0 <= (v * (r - 1)) / 255 <= r - 1
    ensures GlyphIndex(v, r) == (v * (r - 1)) / 255
    ensures 255 * GlyphIndex(v, r) <= v * (r - 1) < 255 * (GlyphIndex(v, r) + 1)
  {
    var m := r - 1;
    assert 0 <= v * m by { MulNonNegative(v, m); }
    assert v * m <= 255 * m by { MulNonNegative(255 - v, m); }
  }

  lemma MulNonNegative(a: int, b: int)
    requires 0 <= a && 0 <= b
    ensures 0 <= a * b
  {
  }

  /** A brighter byte never picks an earlier glyph. */
  lemma GlyphIndexMonotone(v1: Luma, v2: Luma, r: nat)
    requires r >= 1 && v1 <= v2
    ensures GlyphIndex(v1, r) <= GlyphIndex(v2, r)
  {
    ClipIsIdentity(v1, r);
    ClipIsIdentity(v2, r);
    assert v1 * (r - 1) <= v2 * (r - 1) by { MulNonNegative(v2 - v1, r - 1); }
  }

  /** Black picks the first glyph and white the last. */
  lemma GlyphIndexEnds(r: nat)
    requires r >= 1
    ensures GlyphIndex(0, r) == 0
    ensures GlyphIndex(255, r) == r - 1
  {
  }

  /** `''.join([chars[p] for p in row])` with the quantised index `p`. */
  function RowToLine(chars: string, row: seq<Luma>): (line: string)
    requires |chars| >= 1
    ensures |line| == |row|
    ensures forall j :: 0 <= j < |row| ==> line[j] in chars
  {
    seq(|row|, j requires 0 <= j < |row| => chars[GlyphIndex(row[j], |chars|)])
  }

  /** The lines `pixels_to_ascii` returns: one per pixel row, top to bottom. */
  function AsciiLines(chars: string, pixels: seq<seq<Luma>>): (lines: seq<string>)
    requires |chars| >= 1
    ensures |lines| == |pixels|
    ensures forall i :: 0 <= i < |pixels| ==> |lines[i]| == |pixels[i]|
    ensures forall i, j :: 0 <= i < |pixels| && 0 <= j < |pixels[i]| ==> lines[i][j] in chars
  {
    seq(|pixels|, i requires 0 <= i < |pixels| => RowToLine(chars, pixels[i]))
  }

  /**
   * What each glyph of the rendering means: the glyph in row `i`, column `j`
   * is the ramp entry at the unclipped index of that pixel's byte.
   */
  lemma AsciiLinesPixelwise(chars: string, pixels: seq<seq<Luma>>, i: nat, j: nat)
    requires |chars| >= 1 && i < |pixels| && j < |pixels[i]|
    ensures AsciiLines(chars, pixels)[i][j] == chars[(pixels[i][j] * (|chars| - 1)) / 255]
  {
    ClipIsIdentity(pixels[i][j], |chars|);
    assert AsciiLines(chars, pixels)[i] == RowToLine(chars, pixels[i]);
  }

  /** Black pixels render as the first glyph of the ramp, white pixels as the last. */
  lemma AsciiLinesEnds(chars: string, pixels: seq<seq<Luma>>, i: nat, j: nat)
    requires |chars| >= 1 && i < |pixels| && j < |pixels[i]|
    ensures pixels[i][j] == 0 ==> AsciiLines(chars, pixels)[i][j] == chars[0]
    ensures pixels[i][j] == 255 ==> AsciiLines(chars, pixels)[i][j] == chars[|chars| - 1]
  {
    GlyphIndexEnds(|chars|);
    assert AsciiLines(chars, pixels)[i] == RowToLine(chars, pixels[i]);
  }

  /** Within a row, a pixel at least as bright as another renders as a glyph at least as late in the ramp. */
  lemma AsciiLinesOrdered(chars: string, pixels: seq<seq<Luma>>, i: nat, j: nat, k: nat)
    requires |chars| >= 1 && i < |pixels| && j < |pixels[i]| && k < |pixels[i]|
    requires pixels[i][j] <= pixels[i][k]
    ensures exists a, b ::
              && 0 <= a <= b < |chars|
              && AsciiLines(chars, pixels)[i][j] == chars[a]
              && AsciiLines(chars, pixels)[i][k] == chars[b]
  {
    GlyphIndexMonotone(pixels[i][j], pixels[i][k], |chars|);
    var a := GlyphIndex(pixels[i][j], |chars|);
    var b := GlyphIndex(pixels[i][k], |chars|);
    assert AsciiLines(chars, pixels)[i] == RowToLine(chars, pixels[i]);
    assert AsciiLines(chars, pixels)[i][j] == chars[a];
    assert AsciiLines(chars, pixels)[i][k] == chars[b];
  }
}
