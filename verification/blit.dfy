/**
  The placement arithmetic of `draw_image`: the whole image is copied from the
  off-screen pixmap to the window at `xcenter - imagewidth / 2`,
  `ycenter - imageheight / 2`, computed in `unsigned int` and then passed to
  `XCopyArea` as `int` destination coordinates.
 */
module Blit {
  import opened Word32
  import opened Geometry

  /** The dimensions the image decoder reports for the file. */
  datatype ImageSize = ImageSize(width: U32, height: U32)

  /** The rectangle arguments of one `XCopyArea` call: source origin, size and destination origin. */
  datatype CopyArea = CopyArea(srcX: I32, srcY: I32, width: U32, height: U32, destX: I32, destY: I32)

  /**
    The unsigned destination coordinate `center - extent / 2`. It is the ordinary
    difference when half the extent fits before the centre; otherwise it wraps, and
    then reads as that (negative) difference when taken as a signed `int`.
   */
  function DestOffset(center: U32, extent: U32): (r: U32)
    ensures extent / 2 <= center ==> r == center - extent / 2
    ensures center < extent / 2 ==> TWO31 <= r && ToSigned(r) == center - extent / 2
  {
    Sub(center, extent / 2)
  }

  /** The copy `draw_image` issues for an image of size `img` in a window of geometry `g`. */
  function DrawImage(g: Geometry, img: ImageSize): (c: CopyArea)
    ensures c.srcX == 0 && c.srcY == 0
    ensures c.width == img.width && c.height == img.height
    ensures (c.destX - DestOffset(g.xcenter, img.width)) % TWO32 == 0
    ensures (c.destY - DestOffset(g.ycenter, img.height)) % TWO32 == 0
  {
    CopyArea(0, 0, img.width, img.height,
             ToSigned(DestOffset(g.xcenter, img.width)),
             ToSigned(DestOffset(g.ycenter, img.height)))
  }

  /**
    In a centered geometry the signed destination is the exact difference
    `xcenter - imagewidth / 2` (resp. for y), negative exactly when half the image
    is wider (taller) than half the window.
   */
  lemma DestinationIsExactDifference(g: Geometry, img: ImageSize)
    requires Centered(g)
    ensures DrawImage(g, img).destX == g.xcenter - img.width / 2
    ensures DrawImage(g, img).destY == g.ycenter - img.height / 2
    ensures DrawImage(g, img).destX < 0 <==> g.width / 2 < img.width / 2
    ensures DrawImage(g, img).destY < 0 <==> g.height / 2 < img.height / 2
  {
  }

  /**
    The image is centred: the columns left of it and right of it (rows above and
    below) differ in number by at most one, whether or not the image fits.
   */
  lemma ImageIsCentred(g: Geometry, img: ImageSize)
    requires Centered(g)
    ensures var c := DrawImage(g, img);
            var left, right := c.destX, g.width - (c.destX + img.width);
            var top, bottom := c.destY, g.height - (c.destY + img.height);
            -1 <= right - left <= 1 && -1 <= bottom - top <= 1
  {
  }

  /** An image no larger than the window is copied entirely inside it. */
  lemma FittingImageInsideWindow(g: Geometry, img: ImageSize)
    requires Centered(g)
    requires img.width <= g.width && img.height <= g.height
    ensures var c := DrawImage(g, img);
            && 0 <= c.destX && c.destX + img.width <= g.width
            && 0 <= c.destY && c.destY + img.height <= g.height
  {
  }

  /** A 100x100 image in a 400x250 window lands at (150, 75); a 1000x600 one at (-300, -175). */
  lemma PlacementExamples()
    ensures DrawImage(FromSize(400, 250), ImageSize(100, 100)) == CopyArea(0, 0, 100, 100, 150, 75)
    ensures DestOffset(FromSize(400, 250).xcenter, 1000) == 0xFFFF_FED4
    ensures DrawImage(FromSize(400, 250), ImageSize(1000, 600)) == CopyArea(0, 0, 1000, 600, -300, -175)
  {
  }
}
