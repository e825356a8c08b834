/**
 * What the pipeline needs from the imaging library: a raster value and the
 * library's resampling, grayscale conversion and alpha compositing, given as
 * functions whose only promised property is the size (and mode) of their
 * result.  Decoding and background segmentation are per-call outcomes.
 */
module Imaging {

  import opened Glyphs

  /** The colour modes the pipeline distinguishes. */
  datatype Mode = L | RGB | RGBA | OtherMode(name: string)

  /**
   * A raster.  Its samples are opaque here: only the library functions below
   * look at them.
   */
  datatype Image = Image(width: nat, height: nat, mode: Mode, samples: seq<int>)

  /**
   * Decoded and segmented images are at least one pixel wide (the resizer
   * divides by the width).
   */
  predicate HasWidth(img: Image)
  {
    img.width > 0
  }

  /** A `height` by `width` grid of luminance bytes, row by row. */
  predicate IsLumaGrid(g: seq<seq<Luma>>, width: nat, height: nat)
  {
    |g| == height && forall r :: 0 <= r < |g| ==> |g[r]| == width
  }

  /**
   * The library calls: `image.resize((w, h))`, `np.array(image.convert('L'))`
   * and pasting an RGBA image onto a black RGB background through its alpha mask.
   */
  datatype Library = Library(
    resize: (Image, nat, nat) -> Image,
    grayscale: Image -> seq<seq<Luma>>,
    flattenOnBlack: Image -> Image)

  /** The size contracts the pipeline relies on. */
  ghost predicate Lawful(lib: Library)
  {
    && (forall img, w, h :: lib.resize(img, w, h).width == w && lib.resize(img, w, h).height == h)
    && (forall img :: IsLumaGrid(lib.grayscale(img), img.width, img.height))
    && (forall img ::
          && lib.flattenOnBlack(img).width == img.width
          && lib.flattenOnBlack(img).height == img.height
          && lib.flattenOnBlack(img).mode == RGB)
  }

  /**
   * The outcome of the segmentation attempt (PNG encoding, the `remove` call
   * and decoding its output): the decoded output or an exception.
   */
  datatype Segmentation = Segmented(output: Image) | SegmentationError
}
