/**
 * The target size of `resize_image`: the requested width, and the height
 * `int(image.height / image.width * width * 0.55)`, the factor 0.55
 * compensating for text cells being taller than wide.
 */
module Geometry {

  /**
   * The truncated height, in exact arithmetic: the largest `h` with
   * `h <= srcHeight / srcWidth * width * 0.55`.  It is 0 whenever the
   * product is below 1; nothing guards against that.
   */
  function ResizeHeight(srcWidth: nat, srcHeight: nat, width: nat): (h: nat)
    requires srcWidth > 0
    ensures 100 * srcWidth * h <= 55 * srcHeight * width < 100 * srcWidth * (h + 1)
  {
    (srcHeight * width * 55) / (100 * srcWidth)
  }

  /** A wider target never gives fewer rows. */
  lemma ResizeHeightMonotone(srcWidth: nat, srcHeight: nat, w1: nat, w2: nat)
    requires srcWidth > 0 && w1 <= w2
    ensures ResizeHeight(srcWidth, srcHeight, w1) <= ResizeHeight(srcWidth, srcHeight, w2)
  {
    var h1 := ResizeHeight(srcWidth, srcHeight, w1);
    var h2 := ResizeHeight(srcWidth, srcHeight, w2);
    assert 55 * srcHeight * w1 <= 55 * srcHeight * w2 by {
      assert 55 * srcHeight * (w2 - w1) >= 0;
    }
    if h1 > h2 {
      assert 100 * srcWidth * (h2 + 1) <= 100 * srcWidth * h1 by {
        assert 100 * srcWidth * (h1 - h2 - 1) >= 0;
      }
      assert false;
    }
  }

  /** The height is zero exactly when `55 * srcHeight * width < 100 * srcWidth`. */
  lemma ResizeHeightZero(srcWidth: nat, srcHeight: nat, width: nat)
    requires srcWidth > 0
    ensures ResizeHeight(srcWidth, srcHeight, width) == 0 <==> 55 * srcHeight * width < 100 * srcWidth
  {
    var h := ResizeHeight(srcWidth, srcHeight, width);
    var a, x := 100 * srcWidth, 55 * srcHeight * width;
    assert a * h <= x < a * (h + 1);
    if h >= 1 {
      AtLeastOnce(a, h);
    }
  }

  lemma AtLeastOnce(a: nat, h: nat)
    requires h >= 1
    ensures a <= a * h
  {
    assert a * h == a + a * (h - 1);
  }

  /** A 200-wide, 100-high image at width 100 truncates 27.5 to 27 rows. */
  lemma ResizeHeightTruncates()
    ensures ResizeHeight(200, 100, 100) == 27
  {
  }

  /** A 100-wide, 1-high strip at width 100 gets no rows at all. */
  lemma ResizeHeightCanBeZero()
    ensures ResizeHeight(100, 1, 100) == 0
  {
  }
}
