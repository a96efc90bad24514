/** The RGB888 pen of PicoGraphics for the PicoVision (PenDV_RGB888): the
    pen colour and the vector-tile renderer, which blends the pen colour
    into a rectangle of the frame under an alpha mask, byte by byte,
    through two buffers of 128 three-byte pixels.

    Unlike the RGB555 renderer, this one always reads the frame back: the
    first row before the loop and every later row halfway through the
    row before it, so a zero alpha always leaves the frame bytes as they
    were and the background colour is never used. */
module PenRgb888 {
  import opened Bytes
  import opened DvDisplayHeader
  import opened PicoGraphicsDv

  // ---------------------------------------------------------------------
  // Colour bytes and the byte blend
  // ---------------------------------------------------------------------

  /** colour_expanded: { (uint8_t)c, (uint8_t)(c >> 8), (uint8_t)(c >> 16) }. */
  function ColourBytes(c: nat): (b: seq<nat>)
    ensures |b| == 3 && b[0] < 256 && b[1] < 256 && b[2] < 256
  {
    [c % 256, c / 256 % 256, c / 0x1_0000 % 256]
  }

  /** The colour bytes are the low three bytes of the colour, low byte
      first: they rebuild the colour's low 24 bits. */
  lemma ColourBytesLowFirst(c: nat)
    ensures var b := ColourBytes(c);
            b[0] + 256 * b[1] + 0x1_0000 * b[2] == c % 0x100_0000
  {
    var c1 := c / 256;
    var c2 := c1 / 256;
    var b0, b1, b2 := c % 256, c1 % 256, c2 % 256;
    assert c == 256 * c1 + b0;
    assert c1 == 256 * c2 + b1;
    assert c == 0x1_0000 * c2 + (256 * b1 + b0);
    DivModUnique(c, 0x1_0000, c2, 256 * b1 + b0);
    assert c2 == 256 * (c2 / 256) + b2;
    assert c == 0x100_0000 * (c2 / 256) + (0x1_0000 * b2 + 256 * b1 + b0);
    DivModUnique(c, 0x100_0000, c2 / 256, 0x1_0000 * b2 + 256 * b1 + b0);
  }

  /** (src * (16 - a) + c * a) >> 4 */
  function BlendByte(s: nat, c: nat, a: nat): nat
    requires a <= 16
  {
    (s * (16 - a) + c * a) / 16
  }

  /** A blended byte lies between the frame byte and the colour byte, so it
      is a byte again; weight 0 keeps the frame byte and weight 16 gives
      the colour byte. */
  lemma BlendByteBetween(s: nat, c: nat, a: nat)
    requires s < 256 && c < 256 && a <= 16
    ensures var r := BlendByte(s, c, a);
            r < 256 && (s <= c ==> s <= r <= c) && (c <= s ==> c <= r <= s) &&
            (a == 0 ==> r == s) && (a == 16 ==> r == c)
  {
    var lo := if s <= c then s else c;
    var hi := if s <= c then c else s;
    var v := s * (16 - a) + c * a;
    MulLe(lo, s, 16 - a);
    MulLe(lo, c, a);
    MulLe(s, hi, 16 - a);
    MulLe(c, hi, a);
    assert 16 * lo <= v <= 16 * hi;
    DivBetween(v, lo, hi);
  }

  /** A value between 16 lo and 16 hi divides by 16 to between lo and hi. */
  lemma DivBetween(v: nat, lo: nat, hi: nat)
    requires 16 * lo <= v <= 16 * hi
    ensures lo <= v / 16 <= hi
  {
  }

  // ---------------------------------------------------------------------
  // The vector-tile renderer
  // ---------------------------------------------------------------------

  /** The row buffers hold 128 three-byte pixels. */
  const TILE_BUFFER_PIXELS: nat := 128
  const TILE_BUFFER_BYTES: nat := 3 * TILE_BUFFER_PIXELS

  /** (bounds.w * 3 + 3) >> 2: the 32-bit words of a row of w pixels. */
  function RowLenInWords(w: nat): nat
  {
    (3 * w + 3) / 4
  }

  /** A row is read and written in whole words: the fewest words that hold
      its 3 * w bytes. */
  lemma RowLenIsCeiling(w: nat)
    ensures 4 * RowLenInWords(w) >= 3 * w
    ensures 4 * (RowLenInWords(w) - 1) < 3 * w || w == 0
  {
  }

  /** The PSRAM transfers the renderer asks the driver for:
      raw_read_async of `words` 32-bit words into a row buffer, and
      raw_write_async of a row buffer's first 4 * words bytes. */
  datatype Transfer = RawRead(addr: nat, words: nat) | RawWrite(addr: nat, bytes: seq<nat>)

  /** Everything one render_pico_vector_tile call works from. `rows` are the
      frame bytes the row reads return. */
  datatype TileJob = TileJob(
    src: Rect, bounds: Rect, alpha: seq<nat>, stride: nat, alphaType: nat,
    colour: nat, address: nat, rowStride: nat, rows: seq<seq<nat>>)

  /** A job the renderer carries out: non-empty bounds of at most 128 by
      128 pixels, alpha samples for all of them and a read result for
      every row. */
  predicate Renders(j: TileJob)
  {
    Fits(j) && AlphaCovers(j.src, j.bounds, j.stride, |j.alpha|)
  }

  /** The buffer part of Renders. */
  predicate Fits(j: TileJob)
  {
    0 < j.bounds.w <= TILE_BUFFER_PIXELS && 0 < j.bounds.h <= TILE_BUFFER_PIXELS &&
    |j.rows| >= j.bounds.h &&
    forall y :: 0 <= y < j.bounds.h ==> |j.rows[y]| >= 4 * RowLenInWords(j.bounds.w)
  }

  /** A job with a non-negative size. */
  predicate Sized(j: TileJob)
  {
    j.bounds.w >= 0 && j.bounds.h >= 0
  }

  /** The PSRAM address of row y of the bounds: the address of the first
      row advanced y times by the row stride. */
  function RowAddress(j: TileJob, y: nat): nat
  {
    if y == 0 then j.address else RowAddress(j, y - 1) + j.rowStride
  }

  /** The alpha sample of pixel (x, y); a job the renderer carries out
      holds every sample of its bounds, the 0 outside is never consulted. */
  function AlphaAt(j: TileJob, x: nat, y: nat): nat
  {
    var i := AlphaIndex(j.src, j.bounds, j.stride, x, y);
    if 0 <= i < |j.alpha| then j.alpha[i] else 0
  }

  /** Byte k of frame row y as read back. */
  function Before(j: TileJob, y: nat, k: nat): nat
  {
    if y < |j.rows| && k < |j.rows[y]| then j.rows[y][k] else 0
  }

  /** Byte i of pixel x of a tile row, from the frame byte s under it:
      full alpha writes the colour byte, partial alpha blends the colour
      byte into the frame byte, zero alpha keeps the frame byte. */
  function TileByte(alphaType: nat, alpha: nat, s: nat, colour: nat, i: nat): nat
    requires i < 3
  {
    if alpha >= AlphaMax(alphaType) then ColourBytes(colour)[i]
    else if alpha > 0 then BlendByte(s, ColourBytes(colour)[i], AlphaMap(alphaType, alpha))
    else s
  }

  /** What a tile byte is, case by case; every one is a byte again, and a
      partially covered byte lies between the frame byte and the colour
      byte. */
  lemma TileByteMeaning(alphaType: nat, alpha: nat, s: nat, colour: nat, i: nat)
    requires i < 3 && s < 256
    ensures var b := TileByte(alphaType, alpha, s, colour, i);
            var c := ColourBytes(colour)[i];
            b < 256 &&
            (alpha >= AlphaMax(alphaType) ==> b == c) &&
            (alpha == 0 ==> b == s) &&
            (0 < alpha < AlphaMax(alphaType) ==> (s <= c ==> s <= b <= c) && (c <= s ==> c <= b <= s))
  {
    if 0 < alpha < AlphaMax(alphaType) {
      BlendByteBetween(s, ColourBytes(colour)[i], AlphaMap(alphaType, alpha));
    }
  }

  /** Byte i of pixel x of row y as rendered. */
  function OutByte(j: TileJob, y: nat, x: nat, i: nat): nat
    requires i < 3
  {
    TileByte(j.alphaType, AlphaAt(j, x, y), Before(j, y, 3 * x + i), j.colour, i)
  }

  /** Byte k of the row-y write: rendered within the bounds, as read back
      past them. */
  function RowByte(j: TileJob, y: nat, k: nat): nat
  {
    if k < 3 * j.bounds.w then OutByte(j, y, k / 3, k % 3) else Before(j, y, k)
  }

  /** The first n bytes of the row-y write. */
  function RowBytes(j: TileJob, y: nat, n: nat): (r: seq<nat>)
    ensures |r| == n
  {
    if n == 0 then [] else RowBytes(j, y, n - 1) + [RowByte(j, y, n - 1)]
  }

  /** Byte k of RowBytes is RowByte. */
  lemma {:induction false} RowBytesAt(j: TileJob, y: nat, n: nat, k: nat)
    requires k < n
    ensures RowBytes(j, y, n)[k] == RowByte(j, y, k)
  {
    if k < n - 1 {
      RowBytesAt(j, y, n - 1, k);
    }
  }

  /** The bytes of row y the renderer writes out: a whole number of words. */
  function RowOut(j: TileJob, y: nat): (r: seq<nat>)
    requires Sized(j)
    ensures |r| == 4 * RowLenInWords(j.bounds.w)
  {
    RowBytes(j, y, 4 * RowLenInWords(j.bounds.w))
  }

  /** A buffer holding the rendered bytes of row y, and past them the bytes
      read back, holds RowOut. */
  lemma RowOutOfBuffer(s: seq<nat>, j: TileJob, y: nat)
    requires Sized(j) && |s| == 4 * RowLenInWords(j.bounds.w)
    requires forall x, i :: 0 <= x < j.bounds.w && 0 <= i < 3 ==> s[3 * x + i] == OutByte(j, y, x, i)
    requires forall k :: 3 * j.bounds.w <= k < |s| ==> s[k] == Before(j, y, k)
    ensures s == RowOut(j, y)
  {
    var r := RowOut(j, y);
    forall k | 0 <= k < |s|
      ensures s[k] == r[k]
    {
      RowBytesAt(j, y, |s|, k);
      if k < 3 * j.bounds.w {
        assert k == 3 * (k / 3) + k % 3;
        assert s[3 * (k / 3) + k % 3] == OutByte(j, y, k / 3, k % 3);
      }
    }
  }

  /** The transfers of the first n passes of the row loop: halfway through
      a row the next row is read, and the row is then written back. */
  function RowOps(j: TileJob, n: nat): seq<Transfer>
    requires Sized(j) && n <= j.bounds.h
  {
    if n == 0 then [] else RowOps(j, n - 1) + (Prefetch(j, n - 1) + [RowWrite(j, n - 1)])
  }

  /** While row y is processed, the next row is read. */
  function Prefetch(j: TileJob, y: nat): (ops: seq<Transfer>)
    requires Sized(j) && y < j.bounds.h
    ensures forall i :: 0 <= i < |ops| ==> ops[i].RawRead?
  {
    if y + 1 < j.bounds.h then [RawRead(RowAddress(j, y + 1), RowLenInWords(j.bounds.w))] else []
  }

  /** The write of row y: its bytes at the row's frame address. */
  function RowWrite(j: TileJob, y: nat): (op: Transfer)
    requires Sized(j) && y < j.bounds.h
    ensures op.RawWrite? && op.addr == RowAddress(j, y) && |op.bytes| >= 3 * j.bounds.w
  {
    RowLenIsCeiling(j.bounds.w);
    RawWrite(RowAddress(j, y), RowOut(j, y))
  }

  /** All transfers of a tile: the first row's read, then the rows. */
  function TileOps(j: TileJob): seq<Transfer>
    requires Sized(j)
  {
    [RawRead(RowAddress(j, 0), RowLenInWords(j.bounds.w))] + RowOps(j, j.bounds.h)
  }

  /** Every row but the first is read exactly once, in order, before it is
      written: the transfers of n passes are, pass by pass, the read of
      the next row (but after the last) and the write of the row. */
  lemma {:induction false} RowOpsShape(j: TileJob, n: nat)
    requires Sized(j) && n <= j.bounds.h
    ensures |RowOps(j, n)| == 2 * n - (if n == j.bounds.h && n > 0 then 1 else 0)
    ensures forall y :: 0 <= y < n && y + 1 < j.bounds.h ==>
              RowOps(j, n)[2 * y] == RawRead(RowAddress(j, y + 1), RowLenInWords(j.bounds.w)) &&
              RowOps(j, n)[2 * y + 1] == RowWrite(j, y)
  {
    if n > 0 {
      RowOpsShape(j, n - 1);
      var before := RowOps(j, n - 1);
      assert |before| == 2 * (n - 1);
      var ops := RowOps(j, n);
      assert ops == before + (Prefetch(j, n - 1) + [RowWrite(j, n - 1)]);
      forall y | 0 <= y < n && y + 1 < j.bounds.h
        ensures ops[2 * y] == RawRead(RowAddress(j, y + 1), RowLenInWords(j.bounds.w)) &&
                ops[2 * y + 1] == RowWrite(j, y)
      {
        if y < n - 1 {
          assert ops[2 * y] == before[2 * y] && ops[2 * y + 1] == before[2 * y + 1];
        }
      }
    }
  }

  // ---------------------------------------------------------------------
  // The pen
  // ---------------------------------------------------------------------

  class PenRgb888 {
    var color: nat
    var background: nat
    /** The raw PSRAM transfers the renderer has issued through the driver. */
    var transfers: seq<Transfer>

    constructor ()
      ensures color == 0 && background == 0 && transfers == []
    {
      color, background, transfers := 0, 0, [];
    }

    /** set_pen(uint): the colour is stored as given. */
    method SetPen(c: nat)
      requires c < U32
      modifies this`color
      ensures color == c
    {
      color := c;
    }

    /** set_bg(uint): likewise for the background. */
    method SetBg(c: nat)
      requires c < U32
      modifies this`background
      ensures background == c
    {
      background := c;
    }

    /** The job `RenderTile` carries out for the given arguments. */
    function Job(src: Rect, bounds: Rect, alpha: seq<nat>, stride: nat, alphaType: nat, frameWidth: nat,
                 rows: seq<seq<nat>>): TileJob
      reads this
    {
      TileJob(src, bounds, alpha, stride, alphaType, color,
              PointToAddress24(frameWidth, bounds.x, bounds.y), FrameRowStride(frameWidth), rows)
    }

    /** render_pico_vector_tile. `bounds` is the source rectangle already
        intersected with the clip. An empty intersection succeeds without a
        transfer; bounds over 128 pixels wide or high fail without one;
        otherwise the transfers are those of TileOps. */
    method RenderTile(src: Rect, bounds: Rect, alpha: seq<nat>, stride: nat, alphaType: nat, frameWidth: nat,
                      rows: seq<seq<nat>>) returns (ok: bool)
      requires 0 < bounds.w <= TILE_BUFFER_PIXELS && 0 < bounds.h <= TILE_BUFFER_PIXELS ==>
                 Renders(Job(src, bounds, alpha, stride, alphaType, frameWidth, rows))
      modifies this`transfers
      ensures ok <==> !(0 < bounds.w && 0 < bounds.h && (bounds.w > TILE_BUFFER_PIXELS || bounds.h > TILE_BUFFER_PIXELS))
      ensures !(0 < bounds.w <= TILE_BUFFER_PIXELS && 0 < bounds.h <= TILE_BUFFER_PIXELS) ==> transfers == old(transfers)
      ensures 0 < bounds.w <= TILE_BUFFER_PIXELS && 0 < bounds.h <= TILE_BUFFER_PIXELS ==>
                transfers == old(transfers) + TileOps(Job(src, bounds, alpha, stride, alphaType, frameWidth, rows))
    {
      if bounds.w <= 0 || bounds.h <= 0 {
        return true;
      }
      if bounds.w > TILE_BUFFER_PIXELS || bounds.h > TILE_BUFFER_PIXELS {
        return false;
      }
      var j := Job(src, bounds, alpha, stride, alphaType, frameWidth, rows);
      var buf0 := new nat[TILE_BUFFER_BYTES];
      var buf1 := new nat[TILE_BUFFER_BYTES];
      var address := PointToAddress24(frameWidth, bounds.x, bounds.y);
      var rowLen := RowLenInWords(bounds.w);
      RowLenIsCeiling(bounds.w);
      ReadRow(buf0, rows[0], 4 * rowLen);
      var ops := RowLoop(buf0, buf1, j);
      transfers := transfers + ([RawRead(address, rowLen)] + ops);
      ok := true;
    }
  }

  /** The row loop of render_pico_vector_tile over the two row buffers. */
  method RowLoop(buf0: array<nat>, buf1: array<nat>, j: TileJob) returns (ops: seq<Transfer>)
    requires Fits(j) && buf0 != buf1
    requires buf0.Length == TILE_BUFFER_BYTES && buf1.Length == TILE_BUFFER_BYTES
    requires HoldsRow(buf0, j, 0)
    modifies buf0, buf1
    ensures ops == RowOps(j, j.bounds.h)
  {
    var rbuf, wbuf := buf0, buf1;
    var address := j.address;
    ops := [];
    var y: nat := 0;
    while y < j.bounds.h
      invariant 0 <= y <= j.bounds.h
      invariant rbuf == buf0 || rbuf == buf1
      invariant wbuf == buf0 || wbuf == buf1
      invariant rbuf != wbuf
      invariant address == RowAddress(j, y)
      invariant ops == RowOps(j, y)
      invariant y < j.bounds.h ==> HoldsRow(rbuf, j, y)
      decreases j.bounds.h - y
    {
      rbuf, wbuf := wbuf, rbuf;
      var prevAddress := address;
      address := address + j.rowStride;
      ops := ProcessRow(rbuf, wbuf, j, y, prevAddress, address, ops);
      y := y + 1;
    }
  }

  /** The buffer holds the frame bytes read for row y. */
  predicate HoldsRow(buf: array<nat>, j: TileJob, y: nat)
    reads buf
  {
    Sized(j) && y < |j.rows| && 4 * RowLenInWords(j.bounds.w) <= buf.Length &&
    forall k :: 0 <= k < 4 * RowLenInWords(j.bounds.w) ==> k < |j.rows[y]| && buf[k] == j.rows[y][k]
  }

  /** One pass of the row loop: row y is processed in `wbuf`, the next row
      is read into `rbuf`, and row y is written out. */
  method ProcessRow(rbuf: array<nat>, wbuf: array<nat>, j: TileJob, y: nat, address: nat, nextAddress: nat,
                    done: seq<Transfer>) returns (ops: seq<Transfer>)
    requires Fits(j) && y < j.bounds.h && rbuf != wbuf
    requires rbuf.Length == TILE_BUFFER_BYTES && wbuf.Length == TILE_BUFFER_BYTES
    requires address == RowAddress(j, y) && nextAddress == RowAddress(j, y + 1)
    requires HoldsRow(wbuf, j, y) && done == RowOps(j, y)
    modifies rbuf, wbuf
    ensures ops == RowOps(j, y + 1)
    ensures y + 1 < j.bounds.h ==> HoldsRow(rbuf, j, y + 1)
  {
    var rowLen := RowLenInWords(j.bounds.w);
    RowLenIsCeiling(j.bounds.w);
    BlendRow(wbuf, j, y);
    var fetch := [];
    if y + 1 < j.bounds.h {
      fetch := [RawRead(nextAddress, rowLen)];
      ReadRow(rbuf, j.rows[y + 1], 4 * rowLen);
    }
    RowOutOfBuffer(wbuf[..4 * rowLen], j, y);
    ops := done + (fetch + [RawWrite(address, wbuf[..4 * rowLen])]);
  }

  /** raw_read_async into a row buffer: the first n bytes of `data`. */
  method ReadRow(buf: array<nat>, data: seq<nat>, n: nat)
    requires n <= buf.Length && n <= |data|
    modifies buf
    ensures forall k :: 0 <= k < buf.Length ==> buf[k] == if k < n then data[k] else old(buf[k])
  {
    forall k | 0 <= k < n {
      buf[k] := data[k];
    }
  }

  /** The pixel loop of a row, over a buffer holding the frame row: the
      three bytes of each pixel of the bounds are rendered in place and
      the rest of the buffer is left alone. */
  method BlendRow(wbuf: array<nat>, j: TileJob, y: nat)
    requires Fits(j) && y < j.bounds.h && wbuf.Length == TILE_BUFFER_BYTES
    requires forall k :: 0 <= k < 3 * j.bounds.w ==> wbuf[k] == Before(j, y, k)
    modifies wbuf
    ensures forall x, i :: 0 <= x < j.bounds.w && 0 <= i < 3 ==> wbuf[3 * x + i] == OutByte(j, y, x, i)
    ensures forall k :: 3 * j.bounds.w <= k < TILE_BUFFER_BYTES ==> wbuf[k] == old(wbuf[k])
  {
    var colour := ColourBytes(j.colour);
    var x: nat := 0;
    while x < j.bounds.w
      invariant 0 <= x <= j.bounds.w
      invariant forall p, i :: 0 <= p < x && 0 <= i < 3 ==> wbuf[3 * p + i] == OutByte(j, y, p, i)
      invariant forall k :: 3 * x <= k < TILE_BUFFER_BYTES ==> wbuf[k] == old(wbuf[k])
    {
      var alpha := AlphaAt(j, x, y);
      if alpha >= AlphaMax(j.alphaType) {
        wbuf[3 * x] := colour[0];
        wbuf[3 * x + 1] := colour[1];
        wbuf[3 * x + 2] := colour[2];
      } else if alpha > 0 {
        BlendPixel(wbuf, j, y, x, AlphaMap(j.alphaType, alpha));
      }
      x := x + 1;
    }
  }

  /** The byte loop of a partially covered pixel: each of its three bytes
      becomes the blend of the colour byte into it. */
  method BlendPixel(wbuf: array<nat>, j: TileJob, y: nat, x: nat, a: nat)
    requires x < j.bounds.w <= TILE_BUFFER_PIXELS && wbuf.Length == TILE_BUFFER_BYTES
    requires 0 < AlphaAt(j, x, y) < AlphaMax(j.alphaType) && a == AlphaMap(j.alphaType, AlphaAt(j, x, y))
    requires forall k :: 3 * x <= k < 3 * x + 3 ==> wbuf[k] == Before(j, y, k)
    modifies wbuf
    ensures forall i :: 0 <= i < 3 ==> wbuf[3 * x + i] == OutByte(j, y, x, i)
    ensures forall k :: 0 <= k < wbuf.Length && !(3 * x <= k < 3 * x + 3) ==> wbuf[k] == old(wbuf[k])
  {
    var colour := ColourBytes(j.colour);
    var i := 0;
    while i < 3
      invariant 0 <= i <= 3
      invariant forall m :: 0 <= m < i ==> wbuf[3 * x + m] == OutByte(j, y, x, m)
      invariant forall k :: 3 * x + i <= k < 3 * x + 3 ==> wbuf[k] == old(wbuf[k])
      invariant forall k :: 0 <= k < wbuf.Length && !(3 * x <= k < 3 * x + 3) ==> wbuf[k] == old(wbuf[k])
    {
      var s := wbuf[3 * x + i];
      wbuf[3 * x + i] := BlendByte(s, colour[i], a);
      i := i + 1;
    }
  }
}
