/** The RGB555 pen of PicoGraphics for the PicoVision (PenDV_RGB555): the
    colour channels of a 16-bit pixel and the vector-tile renderer, which
    blends a pen colour into a rectangle of the frame under an alpha mask,
    row by row through two 128-pixel buffers.

    A pixel holds red in bits 10-14, green in bits 5-9 and blue in bits
    0-4. The masks and shifts of the renderer over those contiguous bit
    fields are written here as the equal divisions and remainders. */
module PenRgb555 {
  import opened Bytes
  import opened DvDisplayHeader
  import opened PicoGraphicsDv

  // ---------------------------------------------------------------------
  // Channels and the packed blend
  // ---------------------------------------------------------------------

  /** (c & 0x7C00) >> 10 */
  function Red(c: nat): nat
  {
    c / 0x400 % 32
  }

  /** (c & 0x3E0) >> 5 */
  function Green(c: nat): nat
  {
    c / 0x20 % 32
  }

  /** c & 0x1F */
  function Blue(c: nat): nat
  {
    c % 32
  }

  /** (c & 0x7C00) << 10 | (c & 0x3E0) << 5 | (c & 0x1F): each channel in
      its own 10-bit lane, bits 20, 10 and 0 up. */
  function Expand(c: nat): nat
  {
    Red(c) * 0x10_0000 + Green(c) * 0x400 + Blue(c)
  }

  /** ((v >> 14) & 0x7C00) | ((v >> 9) & 0x3E0) | ((v >> 4) & 0x1F): bits
      4-8 of each lane, back in the pixel layout. */
  function Pack(v: int): nat
  {
    v / 0x100_0000 % 32 * 0x400 + v / 0x4000 % 32 * 0x20 + v / 16 % 32
  }

  /** The blend of the tile renderer: src * (16 - a) + colour * a on the
      expanded words, then packed. */
  function BlendPacked(s: nat, c: nat, a: nat): nat
    requires a <= 16
  {
    Pack(Expand(s) * (16 - a) + Expand(c) * a)
  }

  /** The blend of one channel, weight a out of 16. */
  function BlendChannel(s: nat, c: nat, a: nat): nat
    requires a <= 16
  {
    (s * (16 - a) + c * a) / 16
  }

  /** A blended channel stays a 5-bit value, and the weighted sum fits in
      the 9 bits of a lane below the next one. */
  lemma LaneBound(s: nat, c: nat, a: nat)
    requires s < 32 && c < 32 && a <= 16
    ensures s * (16 - a) + c * a < 512
    ensures BlendChannel(s, c, a) < 32
  {
    assert s * (16 - a) <= 31 * (16 - a);
    assert c * a <= 31 * a;
  }

  /** Multiplying the expanded word scales each lane. */
  lemma ScaleLanes(r: nat, g: nat, b: nat, k: nat)
    ensures (r * 0x10_0000 + g * 0x400 + b) * k == (r * k) * 0x10_0000 + (g * k) * 0x400 + b * k
  {
  }

  /** Lanes of fewer than 10 bits do not carry into each other, so bits 4-8
      of each lane are the lane divided by 16. */
  lemma ReadLanes(rb: nat, gb: nat, bb: nat)
    requires rb < 512 && gb < 512 && bb < 512
    ensures var v := rb * 0x10_0000 + gb * 0x400 + bb;
            v < U32 && v / 0x100_0000 % 32 == rb / 16 && v / 0x4000 % 32 == gb / 16 && v / 16 % 32 == bb / 16
  {
    var v := rb * 0x10_0000 + gb * 0x400 + bb;
    DivModUnique(v, 0x100_0000, rb / 16, (rb % 16) * 0x10_0000 + gb * 0x400 + bb);
    DivModUnique(rb / 16, 32, 0, rb / 16);
    DivModUnique(v, 0x4000, rb * 64 + gb / 16, (gb % 16) * 0x400 + bb);
    DivModUnique(rb * 64 + gb / 16, 32, rb * 2, gb / 16);
    DivModUnique(v, 16, rb * 0x1_0000 + gb * 64 + bb / 16, bb % 16);
    DivModUnique(rb * 0x1_0000 + gb * 64 + bb / 16, 32, rb * 0x800 + gb * 2, bb / 16);
  }

  /** Three 5-bit channels placed in the pixel layout read back, with bit
      15 clear. */
  lemma PixelChannels(r: nat, g: nat, b: nat)
    requires r < 32 && g < 32 && b < 32
    ensures var p := r * 0x400 + g * 0x20 + b;
            p < 0x8000 && Red(p) == r && Green(p) == g && Blue(p) == b
  {
    var p := r * 0x400 + g * 0x20 + b;
    DivModUnique(p, 0x400, r, g * 0x20 + b);
    DivModUnique(r, 32, 0, r);
    DivModUnique(p, 0x20, r * 32 + g, b);
    DivModUnique(r * 32 + g, 32, r, g);
    DivModUnique(p, 32, r * 32 + g, b);
  }

  /** The packed blend is the per-channel blend: each 5-bit channel of the
      result is (s * (16 - a) + c * a) >> 4 of the same channel of the two
      colours, no channel carries into another, the 32-bit sum does not
      overflow, and bit 15 of the result is clear. */
  lemma SwarBlend(s: nat, c: nat, a: nat)
    requires a <= 16
    ensures Expand(s) * (16 - a) + Expand(c) * a < U32
    ensures var r := BlendPacked(s, c, a);
            r < 0x8000 &&
            Red(r) == BlendChannel(Red(s), Red(c), a) &&
            Green(r) == BlendChannel(Green(s), Green(c), a) &&
            Blue(r) == BlendChannel(Blue(s), Blue(c), a)
  {
    var rb := Red(s) * (16 - a) + Red(c) * a;
    var gb := Green(s) * (16 - a) + Green(c) * a;
    var bb := Blue(s) * (16 - a) + Blue(c) * a;
    LaneBound(Red(s), Red(c), a);
    LaneBound(Green(s), Green(c), a);
    LaneBound(Blue(s), Blue(c), a);
    ScaleLanes(Red(s), Green(s), Blue(s), 16 - a);
    ScaleLanes(Red(c), Green(c), Blue(c), a);
    var v := Expand(s) * (16 - a) + Expand(c) * a;
    assert v == rb * 0x10_0000 + gb * 0x400 + bb;
    ReadLanes(rb, gb, bb);
    assert BlendPacked(s, c, a) == Pack(v) == (rb / 16) * 0x400 + (gb / 16) * 0x20 + bb / 16;
    PixelChannels(rb / 16, gb / 16, bb / 16);
  }

  /** set_pixel_alpha widens each 5-bit channel to a byte before blending
      with RGB::blend: the channel lands in the top five bits and the low
      three bits are clear. */
  function Widen(c: nat): (b: (nat, nat, nat))
    ensures b.0 < 256 && b.1 < 256 && b.2 < 256
    ensures b.0 % 8 == 0 && b.1 % 8 == 0 && b.2 % 8 == 0
    ensures b.0 / 8 == Red(c) && b.1 / 8 == Green(c) && b.2 / 8 == Blue(c)
  {
    (Red(c) * 8, Green(c) * 8, Blue(c) * 8)
  }

  /** One pixel of a tile row. Full alpha writes the pen colour; partial
      alpha blends the pen colour into the frame pixel (TARGET blending)
      or into the background colour; zero alpha keeps the frame pixel
      (TARGET) or writes the background. */
  function TilePixel(target: bool, alphaType: nat, alpha: nat, dst: nat, colour: nat, background: nat): nat
  {
    if alpha >= AlphaMax(alphaType) then colour
    else if alpha > 0 then BlendPacked(if target then dst else background, colour, AlphaMap(alphaType, alpha))
    else if target then dst else background
  }

  /** What a tile pixel is, case by case: partial alpha gives, channel by
      channel, the blend of the pen colour into the base pixel at the
      mapped weight. */
  lemma TilePixelMeaning(target: bool, alphaType: nat, alpha: nat, dst: nat, colour: nat, background: nat)
    ensures var p := TilePixel(target, alphaType, alpha, dst, colour, background);
            (alpha >= AlphaMax(alphaType) ==> p == colour) &&
            (alpha == 0 ==> p == if target then dst else background) &&
            (0 < alpha < AlphaMax(alphaType) ==>
              var base := if target then dst else background;
              var a := AlphaMap(alphaType, alpha);
              p < 0x8000 && Red(p) == BlendChannel(Red(base), Red(colour), a) &&
              Green(p) == BlendChannel(Green(base), Green(colour), a) &&
              Blue(p) == BlendChannel(Blue(base), Blue(colour), a))
  {
    if 0 < alpha < AlphaMax(alphaType) {
      SwarBlend(if target then dst else background, colour, AlphaMap(alphaType, alpha));
    }
  }

  // ---------------------------------------------------------------------
  // The vector-tile renderer
  // ---------------------------------------------------------------------

  /** The row buffers hold 128 pixels. */
  const TILE_BUFFER_PIXELS: nat := 128

  /** (bounds.w + 1) >> 1: the 32-bit words of a row of w pixels. */
  function RowLenInWords(w: nat): (n: nat)
    ensures 2 * n >= w && 2 * n <= w + 1
  {
    (w + 1) / 2
  }

  /** The PSRAM transfers the renderer asks the driver for:
      raw_read_async of `words` 32-bit words into a row buffer, and
      raw_write_async of a row buffer, two pixels to a word. */
  datatype Transfer = RawRead(addr: nat, words: nat) | RawWrite(addr: nat, pixels: seq<nat>)

  /** Everything one render_pico_vector_tile call works from. `rows` are the
      frame pixels the row reads return (TARGET blending only) and `init0`,
      `init1` the contents the two stack buffers start with. */
  datatype TileJob = TileJob(
    src: Rect, bounds: Rect, alpha: seq<nat>, stride: nat, alphaType: nat,
    target: bool, colour: nat, background: nat,
    address: nat, rowStride: nat,
    rows: seq<seq<nat>>, init0: seq<nat>, init1: seq<nat>)

  /** A job the renderer carries out: non-empty bounds of at most 128 by
      128 pixels, alpha samples for all of them, a read result for every
      row when blending into the frame, and two full buffers. */
  predicate Renders(j: TileJob)
  {
    Fits(j) && AlphaCovers(j.src, j.bounds, j.stride, |j.alpha|)
  }

  /** The buffer part of Renders. */
  predicate Fits(j: TileJob)
  {
    0 < j.bounds.w <= TILE_BUFFER_PIXELS && 0 < j.bounds.h <= TILE_BUFFER_PIXELS &&
    |j.init0| == TILE_BUFFER_PIXELS && |j.init1| == TILE_BUFFER_PIXELS &&
    (j.target ==> |j.rows| >= j.bounds.h &&
                  forall y :: 0 <= y < j.bounds.h ==> |j.rows[y]| >= 2 * RowLenInWords(j.bounds.w))
  }

  /** The PSRAM address of row y of the bounds: the address of the first
      row advanced y times by the row stride. */
  function RowAddress(j: TileJob, y: nat): nat
  {
    if y == 0 then j.address else RowAddress(j, y - 1) + j.rowStride
  }

  /** Row y starts y row strides after the first row. */
  lemma {:induction false} RowAddressOffset(j: TileJob, y: nat)
    ensures RowAddress(j, y) == j.address + y * j.rowStride
  {
    if y > 0 {
      RowAddressOffset(j, y - 1);
      assert (y - 1) * j.rowStride + j.rowStride == y * j.rowStride;
    }
  }

  /** Pixel x of the buffer that row y is processed in, before processing:
      the pixel read back when blending into the frame, otherwise what the
      buffer started with (rows alternate between the two buffers, and
      nothing writes past x = w). A job the renderer carries out holds
      every such pixel; the 0 outside is never consulted. */
  function Before(j: TileJob, y: nat, x: nat): nat
  {
    if j.target then (if y < |j.rows| && x < |j.rows[y]| then j.rows[y][x] else 0)
    else if x < |InitFor(j, y)| then InitFor(j, y)[x] else 0
  }

  /** The initial contents of the buffer row y is processed in: the two
      buffers take turns, starting with the first. */
  function InitFor(j: TileJob, y: nat): seq<nat>
  {
    if y % 2 == 0 then j.init0 else j.init1
  }

  /** The alpha sample of pixel (x, y); as with Before, a job the renderer
      carries out holds every sample of its bounds. */
  function AlphaAt(j: TileJob, x: nat, y: nat): nat
  {
    var i := AlphaIndex(j.src, j.bounds, j.stride, x, y);
    if 0 <= i < |j.alpha| then j.alpha[i] else 0
  }

  /** A job with a non-negative size. */
  predicate Sized(j: TileJob)
  {
    j.bounds.w >= 0 && j.bounds.h >= 0
  }

  /** The row-y pixels the renderer writes out: the tile pixels of the
      bounds, then, when w is odd, the buffer's next pixel. */
  function RowOut(j: TileJob, y: nat): (r: seq<nat>)
    requires Sized(j) && y < j.bounds.h
    ensures |r| == 2 * RowLenInWords(j.bounds.w)
  {
    RowPixels(j, y, 2 * RowLenInWords(j.bounds.w))
  }

  /** The first n pixels of a row-y write. */
  function RowPixels(j: TileJob, y: nat, n: nat): (r: seq<nat>)
    ensures |r| == n
  {
    if n == 0 then [] else RowPixels(j, y, n - 1) + [RowPixel(j, y, n - 1)]
  }

  /** Pixel x of the row-y write: rendered within the bounds, as it was
      past them. */
  function RowPixel(j: TileJob, y: nat, x: nat): nat
  {
    if x < j.bounds.w then OutPixel(j, y, x) else Before(j, y, x)
  }

  /** Pixel x of RowPixels is RowPixel. */
  lemma {:induction false} RowPixelsAt(j: TileJob, y: nat, n: nat, x: nat)
    requires x < n
    ensures RowPixels(j, y, n)[x] == RowPixel(j, y, x)
  {
    if x < n - 1 {
      RowPixelsAt(j, y, n - 1, x);
    }
  }

  /** Tile pixel (x, y) as rendered. */
  function OutPixel(j: TileJob, y: nat, x: nat): nat
  {
    TilePixel(j.target, j.alphaType, AlphaAt(j, x, y), Before(j, y, x), j.colour, j.background)
  }

  /** A buffer holding the rendered pixels of row y, and past them the
      pixels it held before, holds RowOut. */
  lemma RowOutOfBuffer(s: seq<nat>, j: TileJob, y: nat)
    requires Sized(j) && y < j.bounds.h && |s| == 2 * RowLenInWords(j.bounds.w)
    requires forall x :: 0 <= x < j.bounds.w ==> s[x] == OutPixel(j, y, x)
    requires forall x :: j.bounds.w <= x < |s| ==> s[x] == Before(j, y, x)
    ensures s == RowOut(j, y)
  {
    var r := RowOut(j, y);
    forall x | 0 <= x < |s|
      ensures s[x] == r[x]
    {
      RowPixelsAt(j, y, |s|, x);
    }
  }

  /** The transfers of the first n passes of the row loop: with TARGET
      blending the next row is read while a row is processed; each row is
      then written back. */
  function RowOps(j: TileJob, n: nat): seq<Transfer>
    requires Sized(j) && n <= j.bounds.h
  {
    if n == 0 then [] else RowOps(j, n - 1) + (Prefetch(j, n - 1) + [RowWrite(j, n - 1)])
  }

  /** While row y is processed with TARGET blending, the next row is read. */
  function Prefetch(j: TileJob, y: nat): (ops: seq<Transfer>)
    requires Sized(j) && y < j.bounds.h
    ensures forall i :: 0 <= i < |ops| ==> ops[i].RawRead?
  {
    if j.target && y + 1 < j.bounds.h then [RawRead(RowAddress(j, y + 1), RowLenInWords(j.bounds.w))] else []
  }

  /** The write of row y: its output pixels, two bytes each, at the row's
      frame address. */
  function RowWrite(j: TileJob, y: nat): (op: Transfer)
    requires Sized(j) && y < j.bounds.h
    ensures op.RawWrite? && op.addr == RowAddress(j, y) && |op.pixels| >= j.bounds.w
  {
    RawWrite(RowAddress(j, y), RowOut(j, y))
  }

  /** All transfers of a tile: the first row's read (TARGET blending), then
      the rows. */
  function TileOps(j: TileJob): seq<Transfer>
    requires Sized(j)
  {
    (if j.target then [RawRead(RowAddress(j, 0), RowLenInWords(j.bounds.w))] else []) + RowOps(j, j.bounds.h)
  }

  /** Every tile row is written exactly once, in order, at its frame
      address, and covers the w pixels of the bounds. */
  lemma {:induction false} RowOpsWrites(j: TileJob, n: nat)
    requires Sized(j) && n <= j.bounds.h
    ensures var ws := Writes(RowOps(j, n));
            |ws| == n && forall k :: 0 <= k < n ==> ws[k] == RowWrite(j, k)
  {
    if n > 0 {
      RowOpsWrites(j, n - 1);
      WritesAppend(RowOps(j, n - 1), Prefetch(j, n - 1), RowWrite(j, n - 1));
      var before, ws := Writes(RowOps(j, n - 1)), Writes(RowOps(j, n));
      assert ws == before + [RowWrite(j, n - 1)];
      forall k | 0 <= k < n
        ensures ws[k] == RowWrite(j, k)
      {
        if k < n - 1 {
          assert ws[k] == before[k];
        }
      }
    }
  }

  /** Appending reads and then a write adds just that write. */
  lemma WritesAppend(ops: seq<Transfer>, rs: seq<Transfer>, w: Transfer)
    requires forall i :: 0 <= i < |rs| ==> rs[i].RawRead?
    requires w.RawWrite?
    ensures Writes(ops + (rs + [w])) == Writes(ops) + [w]
  {
    WritesConcat(rs, [w]);
    WritesConcat(ops, rs + [w]);
    assert Writes([w]) == [w] by { assert [w][1..] == []; }
    NoWrites(rs);
  }

  lemma {:induction false} NoWrites(rs: seq<Transfer>)
    requires forall i :: 0 <= i < |rs| ==> rs[i].RawRead?
    ensures Writes(rs) == []
  {
    if rs != [] {
      NoWrites(rs[1..]);
    }
  }

  /** The RAM writes among a list of transfers, in order. */
  function Writes(ops: seq<Transfer>): (ws: seq<Transfer>)
    ensures forall i :: 0 <= i < |ws| ==> ws[i].RawWrite?
  {
    if ops == [] then []
    else (if ops[0].RawWrite? then [ops[0]] else []) + Writes(ops[1..])
  }

  lemma {:induction false} WritesConcat(a: seq<Transfer>, b: seq<Transfer>)
    ensures Writes(a + b) == Writes(a) + Writes(b)
  {
    if a != [] {
      assert (a + b)[0] == a[0] && (a + b)[1..] == a[1..] + b;
      WritesConcat(a[1..], b);
      var h := if a[0].RawWrite? then [a[0]] else [];
      assert Writes(a + b) == h + Writes(a[1..] + b);
      assert Writes(a) == h + Writes(a[1..]);
    } else {
      assert a + b == b;
    }
  }

  // ---------------------------------------------------------------------
  // The pen
  // ---------------------------------------------------------------------

  class PenRgb555 {
    var color: nat
    var background: nat
    /** blend_mode == BlendMode::TARGET */
    var blendTarget: bool
    /** The raw PSRAM transfers the renderer has issued through the driver. */
    var transfers: seq<Transfer>

    constructor ()
      ensures color == 0 && background == 0 && !blendTarget && transfers == []
    {
      color, background, blendTarget, transfers := 0, 0, false, [];
    }

    /** set_pen(uint): the RGB555 colour is the low 16 bits of c. */
    method SetPen(c: nat)
      modifies this`color
      ensures color < 0x1_0000 && color == c % 0x1_0000
    {
      color := c % 0x1_0000;
    }

    /** set_bg(uint): likewise for the background. */
    method SetBg(c: nat)
      modifies this`background
      ensures background < 0x1_0000 && background == c % 0x1_0000
    {
      background := c % 0x1_0000;
    }

    /** The job `RenderTile` carries out for the given arguments. */
    function Job(src: Rect, bounds: Rect, alpha: seq<nat>, stride: nat, alphaType: nat, frameWidth: nat,
                 rows: seq<seq<nat>>, init0: seq<nat>, init1: seq<nat>): TileJob
      reads this
    {
      TileJob(src, bounds, alpha, stride, alphaType, blendTarget, color, background,
              PointToAddress16(frameWidth, bounds.x, bounds.y), FrameRowStride(frameWidth), rows, init0, init1)
    }

    /** render_pico_vector_tile. `bounds` is the source rectangle already
        intersected with the clip. An empty intersection succeeds without a
        transfer; bounds over 128 pixels wide or high fail without one;
        otherwise the transfers are those of TileOps. */
    method RenderTile(src: Rect, bounds: Rect, alpha: seq<nat>, stride: nat, alphaType: nat, frameWidth: nat,
                      rows: seq<seq<nat>>, init0: seq<nat>, init1: seq<nat>) returns (ok: bool)
      requires 0 < bounds.w <= TILE_BUFFER_PIXELS && 0 < bounds.h <= TILE_BUFFER_PIXELS ==>
                 Renders(Job(src, bounds, alpha, stride, alphaType, frameWidth, rows, init0, init1))
      modifies this`transfers
      ensures ok <==> !(0 < bounds.w && 0 < bounds.h && (bounds.w > TILE_BUFFER_PIXELS || bounds.h > TILE_BUFFER_PIXELS))
      ensures !(0 < bounds.w <= TILE_BUFFER_PIXELS && 0 < bounds.h <= TILE_BUFFER_PIXELS) ==> transfers == old(transfers)
      ensures 0 < bounds.w <= TILE_BUFFER_PIXELS && 0 < bounds.h <= TILE_BUFFER_PIXELS ==>
                transfers == old(transfers) + TileOps(Job(src, bounds, alpha, stride, alphaType, frameWidth, rows, init0, init1))
    {
      if bounds.w <= 0 || bounds.h <= 0 {
        return true;
      }
      if bounds.w > TILE_BUFFER_PIXELS || bounds.h > TILE_BUFFER_PIXELS {
        return false;
      }
      var j := Job(src, bounds, alpha, stride, alphaType, frameWidth, rows, init0, init1);
      var buf0 := new nat[TILE_BUFFER_PIXELS](i requires 0 <= i < TILE_BUFFER_PIXELS => init0[i]);
      var buf1 := new nat[TILE_BUFFER_PIXELS](i requires 0 <= i < TILE_BUFFER_PIXELS => init1[i]);
      var address := PointToAddress16(frameWidth, bounds.x, bounds.y);
      var rowLen := RowLenInWords(bounds.w);
      var first := [];
      if blendTarget {
        first := [RawRead(address, rowLen)];
        ReadRow(buf0, rows[0], 2 * rowLen);
      }
      var ops := RowLoop(buf0, buf1, j);
      transfers := transfers + (first + ops);
      ok := true;
    }
  }

  /** The row loop of render_pico_vector_tile over the two row buffers:
      rows alternate between them, so row y is processed in buf0 when y
      is even. */
  method RowLoop(buf0: array<nat>, buf1: array<nat>, j: TileJob) returns (ops: seq<Transfer>)
    requires Fits(j) && buf0 != buf1
    requires buf0.Length == TILE_BUFFER_PIXELS && buf1.Length == TILE_BUFFER_PIXELS
    requires j.target ==> HoldsRow(buf0, j, 0)
    requires !j.target ==> Stale(buf0, j, j.init0) && Stale(buf1, j, j.init1)
    modifies buf0, buf1
    ensures ops == RowOps(j, j.bounds.h)
  {
    var rbuf, wbuf := buf0, buf1;
    assert InitFor(j, 0) == j.init0 && InitFor(j, 1) == j.init1;
    assert Ready(j, 0, rbuf, wbuf);
    var address := j.address;
    var rowLen := RowLenInWords(j.bounds.w);
    ops := [];
    var y: nat := 0;
    while y < j.bounds.h
      invariant 0 <= y <= j.bounds.h
      invariant rbuf == buf0 || rbuf == buf1
      invariant wbuf == buf0 || wbuf == buf1
      invariant rbuf != wbuf
      invariant address == RowAddress(j, y)
      invariant ops == RowOps(j, y)
      invariant Ready(j, y, rbuf, wbuf)
      decreases j.bounds.h - y
    {
      rbuf, wbuf := wbuf, rbuf;
      var prevAddress := address;
      address := address + j.rowStride;
      ops := ProcessRow(rbuf, wbuf, j, y, prevAddress, address, ops);
      y := y + 1;
    }
  }

  /** What the two buffers hold when row y is about to be processed in
      `next` (after the swap): with TARGET blending, the frame row y; without,
      past the bounds' width, what each buffer started with. */
  predicate Ready(j: TileJob, y: nat, next: array<nat>, other: array<nat>)
    reads next, other
  {
    (j.target && y < j.bounds.h ==> HoldsRow(next, j, y)) &&
    (!j.target ==> Stale(next, j, InitFor(j, y)) && Stale(other, j, InitFor(j, y + 1)))
  }

  /** The buffer holds the frame pixels read for row y. */
  predicate HoldsRow(buf: array<nat>, j: TileJob, y: nat)
    reads buf
  {
    Sized(j) && y < |j.rows| && 2 * RowLenInWords(j.bounds.w) <= buf.Length &&
    forall x :: 0 <= x < 2 * RowLenInWords(j.bounds.w) ==> x < |j.rows[y]| && buf[x] == j.rows[y][x]
  }

  /** Past the bounds' width the buffer still holds what it started with. */
  predicate Stale(buf: array<nat>, j: TileJob, init: seq<nat>)
    reads buf
  {
    Sized(j) && buf.Length == |init| &&
    forall x :: j.bounds.w <= x < buf.Length ==> buf[x] == init[x]
  }

  lemma NextParity(y: nat)
    ensures (y + 2) % 2 == y % 2
  {
  }

  /** One pass of the row loop: row y is processed in `wbuf`, the next row
      is read into `rbuf` (TARGET blending), and row y is written out. */
  method ProcessRow(rbuf: array<nat>, wbuf: array<nat>, j: TileJob, y: nat, address: nat, nextAddress: nat,
                    done: seq<Transfer>) returns (ops: seq<Transfer>)
    requires Fits(j) && y < j.bounds.h && rbuf != wbuf
    requires rbuf.Length == TILE_BUFFER_PIXELS && wbuf.Length == TILE_BUFFER_PIXELS
    requires address == RowAddress(j, y) && nextAddress == RowAddress(j, y + 1)
    requires Ready(j, y, wbuf, rbuf) && done == RowOps(j, y)
    modifies rbuf, wbuf
    ensures ops == RowOps(j, y + 1)
    ensures Ready(j, y + 1, rbuf, wbuf)
  {
    var rowLen := RowLenInWords(j.bounds.w);
    NextParity(y);
    if j.target {
      BlendRowTarget(wbuf, j, y);
    } else {
      BlendRowFill(wbuf, j, y);
    }
    var fetch := [];
    if j.target && y + 1 < j.bounds.h {
      fetch := [RawRead(nextAddress, rowLen)];
      ReadRow(rbuf, j.rows[y + 1], 2 * rowLen);
    }
    RowOutOfBuffer(wbuf[..2 * rowLen], j, y);
    ops := done + (fetch + [RawWrite(address, wbuf[..2 * rowLen])]);
  }

  /** raw_read_async into a row buffer: the first n pixels of `data`. */
  method ReadRow(buf: array<nat>, data: seq<nat>, n: nat)
    requires n <= buf.Length && n <= |data|
    modifies buf
    ensures forall x :: 0 <= x < buf.Length ==> buf[x] == if x < n then data[x] else old(buf[x])
  {
    forall x | 0 <= x < n {
      buf[x] := data[x];
    }
  }

  /** The TARGET-blending row loop, over a buffer holding the frame row:
      each pixel of the bounds is rendered in place and the rest of the
      buffer is left alone. */
  method BlendRowTarget(wbuf: array<nat>, j: TileJob, y: nat)
    requires Fits(j) && j.target && y < j.bounds.h && wbuf.Length == TILE_BUFFER_PIXELS
    requires forall x :: 0 <= x < j.bounds.w ==> wbuf[x] == Before(j, y, x)
    modifies wbuf
    ensures forall x :: 0 <= x < j.bounds.w ==> wbuf[x] == OutPixel(j, y, x)
    ensures forall x :: j.bounds.w <= x < TILE_BUFFER_PIXELS ==> wbuf[x] == old(wbuf[x])
  {
    var x: nat := 0;
    while x < j.bounds.w
      invariant 0 <= x <= j.bounds.w
      invariant forall k :: 0 <= k < x ==> wbuf[k] == OutPixel(j, y, k)
      invariant forall k :: x <= k < TILE_BUFFER_PIXELS ==> wbuf[k] == old(wbuf[k])
    {
      var alpha := AlphaAt(j, x, y);
      if alpha >= AlphaMax(j.alphaType) {
        wbuf[x] := j.colour;
      } else if alpha > 0 {
        var a := AlphaMap(j.alphaType, alpha);
        var s := wbuf[x];
        wbuf[x] := BlendPacked(s, j.colour, a);
      }
      x := x + 1;
    }
  }

  /** The row loop without TARGET blending: every pixel of the bounds is
      written, from the background colour, and the rest of the buffer is
      left alone. */
  method BlendRowFill(wbuf: array<nat>, j: TileJob, y: nat)
    requires Fits(j) && !j.target && y < j.bounds.h && wbuf.Length == TILE_BUFFER_PIXELS
    modifies wbuf
    ensures forall x :: 0 <= x < j.bounds.w ==> wbuf[x] == OutPixel(j, y, x)
    ensures forall x :: j.bounds.w <= x < TILE_BUFFER_PIXELS ==> wbuf[x] == old(wbuf[x])
  {
    var x: nat := 0;
    while x < j.bounds.w
      invariant 0 <= x <= j.bounds.w
      invariant forall k :: 0 <= k < x ==> wbuf[k] == OutPixel(j, y, k)
      invariant forall k :: x <= k < TILE_BUFFER_PIXELS ==> wbuf[k] == old(wbuf[k])
    {
      var alpha := AlphaAt(j, x, y);
      if alpha >= AlphaMax(j.alphaType) {
        wbuf[x] := j.colour;
      } else if alpha > 0 {
        var a := AlphaMap(j.alphaType, alpha);
        wbuf[x] := BlendPacked(j.background, j.colour, a);
      } else {
        wbuf[x] := j.background;
      }
      x := x + 1;
    }
  }
}
