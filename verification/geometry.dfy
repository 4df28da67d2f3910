/**
  The window geometry record of sip.c: the window's `width` and `height`
  (locals of `main`) and the centre point `xcenter`, `ycenter` (globals read by
  `draw_image`), all `unsigned int`.
 */
module Geometry {
  import opened Word32

  datatype Geometry = Geometry(width: U32, height: U32, xcenter: U32, ycenter: U32)

  /** The record's invariant: the centre is the floor half of each dimension. */
  predicate Centered(g: Geometry)
  {
    g.xcenter == g.width / 2 && g.ycenter == g.height / 2
  }

  /**
    The geometry of a window of size `width` x `height`. For an odd dimension the
    centre sits one pixel nearer the top-left corner than the bottom-right one, and
    a centre always fits in a signed 32-bit `int`.
   */
  function FromSize(width: U32, height: U32): (g: Geometry)
    ensures g.width == width && g.height == height
    ensures Centered(g)
    ensures g.xcenter <= width - g.xcenter <= g.xcenter + 1
    ensures g.ycenter <= height - g.ycenter <= g.ycenter + 1
    ensures g.xcenter < TWO31 && g.ycenter < TWO31
  {
    Geometry(width, height, width / 2, height / 2)
  }
}
