/** The frame-buffer sizes of the three PicoVision pen classes and the
    palette size of the palette pen. The sizes are computed in 32-bit
    unsigned arithmetic (uint and size_t are both 32 bits wide on the
    RP2040). */
module PicoGraphicsDv {
  import opened Bytes
  import DvDisplayHeader

  /** sizeof(RGB555), a uint16_t. */
  const RGB555_BYTES: nat := 2
  /** sizeof(RGB888), a uint32_t. */
  const RGB888_BYTES: nat := 4

  /** PicoGraphics_PenDV_P5::palette_size. */
  const P5_PALETTE_SIZE: nat := 32

  /** PicoGraphics_PenDV_RGB555::buffer_size. */
  function BufferSizeRgb555(w: nat, h: nat): (n: nat)
    requires w < U32 && h < U32
    ensures n < U32
    ensures w * h * RGB555_BYTES < U32 ==> n == w * h * RGB555_BYTES
  {
    Wrap32(Wrap32(w * h) * RGB555_BYTES)
  }

  /** PicoGraphics_PenDV_RGB888::buffer_size. */
  function BufferSizeRgb888(w: nat, h: nat): (n: nat)
    requires w < U32 && h < U32
    ensures n < U32
    ensures w * h * RGB888_BYTES < U32 ==> n == w * h * RGB888_BYTES
  {
    Wrap32(Wrap32(w * h) * RGB888_BYTES)
  }

  /** PicoGraphics_PenDV_P5::buffer_size: one byte per pixel. */
  function BufferSizeP5(w: nat, h: nat): (n: nat)
    requires w < U32 && h < U32
    ensures n < U32
    ensures w * h < U32 ==> n == w * h
  {
    Wrap32(w * h)
  }

  /** The pen's palette is exactly one of the display's palettes. */
  lemma P5PaletteIsDisplayPalette()
    ensures P5_PALETTE_SIZE == DvDisplayHeader.PALETTE_SIZE
  {
  }

  /** In a buffer of w * h pixels of `bytes` bytes each, laid out row by
      row, every pixel (x, y) of the w by h image lies inside the buffer;
      when the size does not wrap this holds for all three pens. */
  lemma {:induction false} PixelInsideBuffer(w: nat, h: nat, x: nat, y: nat, bytes: nat)
    requires x < w && y < h && bytes > 0
    ensures (y * w + x) * bytes + bytes <= w * h * bytes
  {
    assert y * w + x + 1 <= y * w + w == (y + 1) * w;
    MulLe(y + 1, h, w);
    assert y * w + x + 1 <= h * w;
    MulLe(y * w + x + 1, h * w, bytes);
    assert (y * w + x + 1) * bytes == (y * w + x) * bytes + bytes;
  }

  lemma MulLe(a: nat, b: nat, c: nat)
    requires a <= b
    ensures a * c <= b * c
  {
  }

  /** A rectangle of the frame: top-left corner and size. */
  datatype Rect = Rect(x: int, y: int, w: int, h: int)

  /** The alpha levels a vector tile is rendered with: 16 levels when
      alpha_type is 2, otherwise 4. */
  function AlphaMax(alphaType: nat): (m: nat)
    ensures m == 16 || m == 4
  {
    if alphaType == 2 then 16 else 4
  }

  /** The blend weight, out of 16, of an alpha sample below AlphaMax: the
      identity for 16 levels, { 0, 8, 12, 15 } for 4 levels. */
  function AlphaMap(alphaType: nat, alpha: nat): (a: nat)
    requires alpha < AlphaMax(alphaType)
    ensures a < 16 && (a == 0 <==> alpha == 0)
    ensures alphaType == 2 ==> a == alpha
  {
    if alphaType == 2 then alpha else [0, 8, 12, 15][alpha]
  }

  /** The tile's alpha samples start at the bounds' corner within the
      source rectangle; sample (x, y) of the bounds is at this index. */
  function AlphaIndex(src: Rect, bounds: Rect, stride: nat, x: nat, y: nat): int
  {
    bounds.x - src.x + stride * (bounds.y - src.y) + stride * y + x
  }

  /** The alpha buffer holds every sample of the bounds. */
  predicate AlphaCovers(src: Rect, bounds: Rect, stride: nat, n: nat)
  {
    bounds.x >= src.x && bounds.y >= src.y &&
    (bounds.w > 0 && bounds.h > 0 ==> AlphaIndex(src, bounds, stride, bounds.w - 1, bounds.h - 1) < n)
  }

  /** Within the bounds every alpha index lies in the buffer. */
  lemma AlphaIndexInRange(src: Rect, bounds: Rect, stride: nat, n: nat, x: nat, y: nat)
    requires AlphaCovers(src, bounds, stride, n) && x < bounds.w && y < bounds.h
    ensures 0 <= AlphaIndex(src, bounds, stride, x, y) < n
  {
    var base := bounds.x - src.x + stride * (bounds.y - src.y);
    assert base >= 0;
    MulLe(y, bounds.h - 1, stride);
    assert AlphaIndex(src, bounds, stride, x, y) == base + stride * y + x;
    assert AlphaIndex(src, bounds, stride, bounds.w - 1, bounds.h - 1) == base + stride * (bounds.h - 1) + bounds.w - 1;
  }

  /** The three buffers, when they do not wrap, hold every pixel. */
  lemma BuffersHoldEveryPixel(w: nat, h: nat, x: nat, y: nat)
    requires x < w < U32 && y < h < U32 && w * h * RGB888_BYTES < U32
    ensures (y * w + x) * RGB555_BYTES + RGB555_BYTES <= BufferSizeRgb555(w, h)
    ensures (y * w + x) * RGB888_BYTES + RGB888_BYTES <= BufferSizeRgb888(w, h)
    ensures (y * w + x) + 1 <= BufferSizeP5(w, h)
  {
    PixelInsideBuffer(w, h, x, y, RGB555_BYTES);
    PixelInsideBuffer(w, h, x, y, RGB888_BYTES);
    PixelInsideBuffer(w, h, x, y, 1);
  }
}
