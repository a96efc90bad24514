/** The MicroPython `pngdec` module: the PNGDraw callback that plots a
    decoded row through the PicoGraphics pen, the decode calls that set
    and reset the callbacks' shared flags and position around a decode,
    and decode_as_sprite, which decodes into a sprite buffer. The decoder
    itself is not part of this model: what it reports (whether the file
    opened, its rows, its result) is given to the operations. */
module PngDec {
  import opened Wrappers
  import opened PicoGraphicsModule

  /** FLAG_NO_DITHER, the only flag of current_flags. */
  const FLAG_NO_DITHER: nat := 1

  /** The calls PNGDraw makes on the PicoGraphics surface. */
  datatype GraphicsCall = SetPen(r: bv8, g: bv8, b: bv8) | PlotPixel(x: int, y: int)

  // ---------------------------------------------------------------------
  // PNGDraw
  // ---------------------------------------------------------------------

  /** The colours of the first n pixels of a row. */
  function Colours(row: PngRow, n: nat): (cs: seq<Rgba>)
    requires WellFormed(row) && Drawn(row) && n <= row.width
    ensures |cs| == n
  {
    if n == 0 then [] else Colours(row, n - 1) + [PixelColour(row, n - 1)]
  }

  /** Entry x of Colours is the colour of pixel x. */
  lemma {:induction false} ColoursAt(row: PngRow, n: nat, x: nat)
    requires WellFormed(row) && Drawn(row) && n <= row.width && x < n
    ensures Colours(row, n)[x] == PixelColour(row, x)
  {
    if x < n - 1 {
      ColoursAt(row, n - 1, x);
    }
  }

  /** The calls for pixel x, of colour c, of row y drawn at (px, py): a
      visible pixel sets the pen to its colour and plots at its place; a
      pixel of alpha 0 makes no call. */
  function PixelCalls(c: Rgba, px: int, py: int, y: nat, x: nat): seq<GraphicsCall>
  {
    if c.visible then [SetPen(c.r, c.g, c.b), PlotPixel(px + x, py + y)] else []
  }

  /** The calls for the first n pixels of row y, of colours cs. */
  function DrawCalls(cs: seq<Rgba>, px: int, py: int, y: nat, n: nat): seq<GraphicsCall>
    requires n <= |cs|
  {
    if n == 0 then [] else DrawCalls(cs, px, py, y, n - 1) + PixelCalls(cs[n - 1], px, py, y, n - 1)
  }

  /** The pen call for a colour. */
  function PenOf(c: Rgba): GraphicsCall
  {
    SetPen(c.r, c.g, c.b)
  }

  /** Every plot in `calls` is on row py + y, at one of the first n pixels,
      and comes right after the call that sets the pen to that pixel's
      colour. */
  predicate PlotsPlaced(calls: seq<GraphicsCall>, cs: seq<Rgba>, px: int, py: int, y: nat, n: nat)
    requires n <= |cs|
  {
    forall k :: 0 <= k < |calls| ==> PlotPlaced(calls, k, cs, px, py, y, n)
  }

  /** Call k of `calls`, if it is a plot, is placed as PlotsPlaced says. */
  predicate PlotPlaced(calls: seq<GraphicsCall>, k: nat, cs: seq<Rgba>, px: int, py: int, y: nat, n: nat)
    requires n <= |cs| && k < |calls|
  {
    calls[k].PlotPixel? ==>
      calls[k].y == py + y && px <= calls[k].x < px + n && k > 0 &&
      calls[k - 1] == PenOf(cs[calls[k].x - px])
  }

  /** The calls for the first n pixels plot only those pixels, each after
      setting the pen to its colour. */
  lemma {:induction false} DrawCallsShape(cs: seq<Rgba>, px: int, py: int, y: nat, n: nat)
    requires n <= |cs|
    ensures PlotsPlaced(DrawCalls(cs, px, py, y, n), cs, px, py, y, n)
  {
    if n > 0 {
      DrawCallsShape(cs, px, py, y, n - 1);
      var before := DrawCalls(cs, px, py, y, n - 1);
      var tail := PixelCalls(cs[n - 1], px, py, y, n - 1);
      var all := DrawCalls(cs, px, py, y, n);
      assert all == before + tail;
      assert PlotsPlaced(before, cs, px, py, y, n - 1);
      forall k | 0 <= k < |all|
        ensures PlotPlaced(all, k, cs, px, py, y, n)
      {
        if k < |before| {
          assert PlotPlaced(before, k, cs, px, py, y, n - 1);
          assert all[k] == before[k];
          if before[k].PlotPixel? {
            assert all[k - 1] == before[k - 1];
          }
        } else if all[k].PlotPixel? {
          assert k == |before| + 1 && all[k] == tail[1] && all[k - 1] == tail[0];
        }
      }
    }
  }

  /** Pixel x of the row is plotted exactly when it is visible. */
  lemma {:induction false} DrawCallsPlot(cs: seq<Rgba>, px: int, py: int, y: nat, n: nat, x: nat)
    requires n <= |cs| && x < n
    ensures PlotPixel(px + x, py + y) in DrawCalls(cs, px, py, y, n) <==> cs[x].visible
  {
    var before := DrawCalls(cs, px, py, y, n - 1);
    assert DrawCalls(cs, px, py, y, n) == before + PixelCalls(cs[n - 1], px, py, y, n - 1);
    if x < n - 1 {
      DrawCallsPlot(cs, px, py, y, n - 1, x);
    } else {
      DrawCallsShape(cs, px, py, y, n - 1);
      forall k | 0 <= k < |before|
        ensures before[k] != PlotPixel(px + x, py + y)
      {
        assert PlotPlaced(before, k, cs, px, py, y, n - 1);
      }
    }
  }

  /** The calls PNGDraw makes for a row drawn at (px, py); rows of colour
      types it does not handle make none. */
  function RowCalls(row: PngRow, px: int, py: int): seq<GraphicsCall>
    requires WellFormed(row)
  {
    if Drawn(row) then DrawCalls(Colours(row, row.width), px, py, row.y, row.width) else []
  }

  /** Pixel x of a row is plotted exactly when it is visible: always for
      truecolour, when its alpha byte is not 0 for truecolour with alpha,
      and when the palette's alpha table does not give its index 0 for an
      indexed row. */
  lemma RowPlots(row: PngRow, px: int, py: int, x: nat)
    requires WellFormed(row) && Drawn(row) && x < row.width
    ensures PlotPixel(px + x, py + row.y) in RowCalls(row, px, py) <==> PixelColour(row, x).visible
    ensures row.pixelType == PNG_PIXEL_TRUECOLOR ==> PlotPixel(px + x, py + row.y) in RowCalls(row, px, py)
    ensures row.pixelType == PNG_PIXEL_TRUECOLOR_ALPHA ==>
              (PlotPixel(px + x, py + row.y) in RowCalls(row, px, py) <==> row.pixels[4 * x + 3] != 0)
  {
    ColoursAt(row, row.width, x);
    DrawCallsPlot(Colours(row, row.width), px, py, row.y, row.width, x);
  }

  /** Every plot of a row is at one of its pixels, on its row, and follows
      the pen call for that pixel's colour. */
  lemma RowPlotsPlaced(row: PngRow, px: int, py: int, k: nat)
    requires WellFormed(row) && Drawn(row) && k < |RowCalls(row, px, py)| && RowCalls(row, px, py)[k].PlotPixel?
    ensures var c := RowCalls(row, px, py)[k];
            c.y == py + row.y && px <= c.x < px + row.width && k > 0 &&
            RowCalls(row, px, py)[k - 1] == PenOf(PixelColour(row, c.x - px))
  {
    var cs := Colours(row, row.width);
    DrawCallsShape(cs, px, py, row.y, row.width);
    assert PlotPlaced(RowCalls(row, px, py), k, cs, px, py, row.y, row.width);
    ColoursAt(row, row.width, RowCalls(row, px, py)[k].x - px);
  }

  /** Which draw callback the decoder is opened with, and what it takes
      the decoder's user pointer to be. */
  datatype Callback = DrawCallback | DrawSpriteCallback
  datatype UserPointer = GraphicsSurface | SpriteBuffer

  function Expects(cb: Callback): UserPointer
  {
    if cb == DrawCallback then GraphicsSurface else SpriteBuffer
  }

  /** decode opens files and buffers alike with PNGDraw and passes the
      graphics surface, which is what PNGDraw expects. */
  function DecodeCallback(fromFile: bool): (cb: Callback)
    ensures Expects(cb) == GraphicsSurface
  {
    DrawCallback
  }

  /** decode_as_sprite opens a file with PNGDrawSprite but a buffer with
      PNGDraw, and passes the sprite buffer in both cases. */
  function SpriteCallbackAsWritten(fromFile: bool): Callback
  {
    if fromFile then DrawSpriteCallback else DrawCallback
  }

  /** For a buffer, the callback as written takes the sprite buffer that
      decode_as_sprite passes for the graphics surface. */
  lemma SpriteCallbackMismatch()
    ensures Expects(SpriteCallbackAsWritten(false)) != SpriteBuffer
    ensures Expects(SpriteCallbackAsWritten(true)) == SpriteBuffer
  {
  }

  /** The callback decode_as_sprite evidently means in both cases, which
      the model uses. */
  function SpriteCallback(fromFile: bool): (cb: Callback)
    ensures Expects(cb) == SpriteBuffer
    ensures fromFile ==> cb == SpriteCallbackAsWritten(fromFile)
  {
    DrawSpriteCallback
  }

  /** What the decoder reports for one decode: the result of opening the
      file or buffer, the rows it hands to the callback, and the result of
      decoding. */
  datatype DecoderRun = DecoderRun(openResult: int, rows: seq<PngRow>, decodeResult: int)

  /** The rows the callbacks can read. */
  predicate RowsWellFormed(rows: seq<PngRow>)
  {
    forall i :: 0 <= i < |rows| ==> WellFormed(rows[i])
  }

  /** A sprite definition: define_sprite(index, width, height, data). */
  datatype SpriteDefinition = SpriteDefinition(index: int, width: nat, height: nat, data: seq<bv16>)

  /** The module's statics and the surface it draws on: current_flags,
      current_position and the calls made on the graphics surface. */
  class PngDecoder {
    var currentFlags: nat
    var currentX: int
    var currentY: int
    var calls: seq<GraphicsCall>

    constructor ()
      ensures currentFlags == 0 && currentX == 0 && currentY == 0 && calls == []
    {
      currentFlags, currentX, currentY, calls := 0, 0, 0, [];
    }

    /** PNGDraw: each pixel of the row is drawn at the current position plus
        its own; rows of colour types it does not handle draw nothing. */
    method Draw(row: PngRow)
      requires WellFormed(row)
      modifies this`calls
      ensures calls == old(calls) + RowCalls(row, currentX, currentY)
    {
      if !Drawn(row) {
        return;
      }
      ghost var start := calls;
      ghost var cs := Colours(row, row.width);
      var x := 0;
      while x < row.width
        invariant 0 <= x <= row.width
        invariant calls == start + DrawCalls(cs, currentX, currentY, row.y, x)
      {
        var c := PixelColour(row, x);
        ColoursAt(row, row.width, x);
        ghost var prefix := DrawCalls(cs, currentX, currentY, row.y, x);
        ghost var next := PixelCalls(c, currentX, currentY, row.y, x);
        assert DrawCalls(cs, currentX, currentY, row.y, x + 1) == prefix + next;
        ghost var done := calls;
        if c.visible {
          calls := calls + [SetPen(c.r, c.g, c.b), PlotPixel(currentX + x, currentY + row.y)];
        }
        assert calls == done + next;
        assert calls == start + (prefix + next);
        x := x + 1;
      }
    }

    /** The decoder's PNGDraw calls, one per row, at the current position. */
    method DrawRows(rows: seq<PngRow>)
      requires RowsWellFormed(rows)
      modifies this`calls
      ensures calls == old(calls) + RowsCalls(rows, currentX, currentY)
    {
      ghost var start := calls;
      var i := 0;
      while i < |rows|
        invariant 0 <= i <= |rows|
        invariant calls == start + RowsCalls(rows[..i], currentX, currentY)
      {
        ghost var done := calls;
        ghost var prefix := RowsCalls(rows[..i], currentX, currentY);
        ghost var next := RowCalls(rows[i], currentX, currentY);
        RowsCallsStep(rows, i, currentX, currentY);
        Draw(rows[i]);
        assert calls == done + next;
        assert calls == start + (prefix + next);
        i := i + 1;
      }
      assert rows[..i] == rows;
    }

    /** decode(x, y, dither): the flags (FLAG_NO_DITHER exactly when dither
        is False) and the position are set for the callbacks; if the file or
        buffer does not open, RuntimeError is raised and both stay set;
        otherwise every row is drawn, both are reset to 0 and (0, 0), and
        the result is True exactly when the decoder returned 1. */
    method Decode(x: int, y: int, ditherIsFalse: bool, run: DecoderRun) returns (r: Result<bool, PyError>)
      requires RowsWellFormed(run.rows)
      modifies this
      ensures r.Err? <==> run.openResult != 0
      ensures r.Err? ==> r.error.RuntimeError? && calls == old(calls) &&
                         currentFlags == (if ditherIsFalse then FLAG_NO_DITHER else 0) &&
                         currentX == x && currentY == y
      ensures r.Ok? ==> r.value == (run.decodeResult == 1) &&
                        currentFlags == 0 && currentX == 0 && currentY == 0 &&
                        calls == old(calls) + RowsCalls(run.rows, x, y)
    {
      currentFlags := if ditherIsFalse then FLAG_NO_DITHER else 0;
      currentX, currentY := x, y;
      if run.openResult != 0 {
        return Err(RuntimeError("PNG: could not read file/buffer."));
      }
      DrawRows(run.rows);
      currentFlags := 0;
      currentX, currentY := 0, 0;
      r := Ok(run.decodeResult == 1);
    }

    /** decode_as_sprite(index, dither): the rows the decoder hands over are
        written into a buffer of width * height pixels (its initial contents
        `init`, as m_malloc leaves them), which is then defined as sprite
        `index`. The flags are reset afterwards; the position is not
        touched. */
    method DecodeAsSprite(index: int, ditherIsFalse: bool, width: nat, height: nat, init: seq<bv16>, run: DecoderRun)
      returns (r: Result<bool, PyError>, sprite: Option<SpriteDefinition>)
      requires RowsWellFormed(run.rows) && |init| == width * height
      requires forall i :: 0 <= i < |run.rows| ==> run.rows[i].width == width && run.rows[i].y < height
      modifies this`currentFlags
      ensures r.Err? <==> run.openResult != 0
      ensures r.Err? ==> r.error.RuntimeError? && sprite.None? &&
                         currentFlags == (if ditherIsFalse then FLAG_NO_DITHER else 0)
      ensures r.Ok? ==> r.value == (run.decodeResult == 1) && currentFlags == 0 &&
                        sprite == Some(SpriteDefinition(index, width, height, SpriteImage(init, run.rows)))
    {
      currentFlags := if ditherIsFalse then FLAG_NO_DITHER else 0;
      if run.openResult != 0 {
        return Err(RuntimeError("PNG: could not read file/buffer.")), None;
      }
      var buffer := new bv16[width * height](i requires 0 <= i < width * height => init[i]);
      assert buffer[..] == SpriteImage(init, run.rows[..0]);
      var i := 0;
      while i < |run.rows|
        invariant 0 <= i <= |run.rows| && buffer.Length == width * height
        invariant buffer[..] == SpriteImage(init, run.rows[..i])
      {
        DrawImageRow(buffer, init, run.rows, i, width, height);
        i := i + 1;
      }
      assert run.rows[..i] == run.rows;
      sprite := Some(SpriteDefinition(index, width, height, buffer[..]));
      currentFlags := 0;
      r := Ok(run.decodeResult == 1);
    }
  }

  /** The decoder's callback for row i of a sprite: PNGDrawSprite into the
      buffer, which then holds the image of the first i + 1 rows. */
  method DrawImageRow(buffer: array<bv16>, init: seq<bv16>, rows: seq<PngRow>, i: nat, width: nat, height: nat)
    requires RowsWellFormed(rows) && i < |rows| && rows[i].width == width && rows[i].y < height
    requires buffer.Length == width * height && |init| == width * height
    requires buffer[..] == SpriteImage(init, rows[..i])
    modifies buffer
    ensures buffer[..] == SpriteImage(init, rows[..i + 1])
  {
    var row := rows[i];
    SpriteRowsFit(width, height, row.y);
    ghost var before := buffer[..];
    DrawSpriteRow(buffer, row);
    SpriteImageStep(init, rows, i, buffer[..], before);
  }

  /** The calls PNGDraw makes for a sequence of rows drawn at (px, py). */
  function RowsCalls(rows: seq<PngRow>, px: int, py: int): seq<GraphicsCall>
    requires RowsWellFormed(rows)
  {
    if rows == [] then []
    else
      var last := rows[|rows| - 1];
      RowsCalls(rows[..|rows| - 1], px, py) + RowCalls(last, px, py)
  }

  /** Drawing one more row appends its calls. */
  lemma RowsCallsStep(rows: seq<PngRow>, i: nat, px: int, py: int)
    requires RowsWellFormed(rows) && i < |rows|
    ensures RowsCalls(rows[..i + 1], px, py) ==
            RowsCalls(rows[..i], px, py) + RowCalls(rows[i], px, py)
  {
    assert rows[..i + 1][..i] == rows[..i];
  }

  /** The sprite buffer after PNGDrawSprite has written rows over `init`. */
  function SpriteImage(init: seq<bv16>, rows: seq<PngRow>): (img: seq<bv16>)
    requires RowsWellFormed(rows)
    ensures |img| == |init|
  {
    if rows == [] then init
    else
      var last := rows[|rows| - 1];
      var before := SpriteImage(init, rows[..|rows| - 1]);
      if Drawn(last) && (last.y + 1) * last.width <= |before| then
        seq(|before|, k requires 0 <= k < |before| =>
          if last.y * last.width <= k < (last.y + 1) * last.width then SpritePixel(last, k - last.y * last.width)
          else before[k])
      else before
  }

  /** A buffer DrawSpriteRow has written row i into holds the image of the
      first i + 1 rows. */
  lemma SpriteImageStep(init: seq<bv16>, rows: seq<PngRow>, i: nat, after: seq<bv16>, before: seq<bv16>)
    requires RowsWellFormed(rows) && i < |rows|
    requires before == SpriteImage(init, rows[..i]) && |after| == |before|
    requires (rows[i].y + 1) * rows[i].width <= |before|
    requires Drawn(rows[i]) ==> forall x :: 0 <= x < rows[i].width ==> after[rows[i].y * rows[i].width + x] == SpritePixel(rows[i], x)
    requires forall k :: 0 <= k < |after| && !(Drawn(rows[i]) && rows[i].y * rows[i].width <= k < (rows[i].y + 1) * rows[i].width) ==>
               after[k] == before[k]
    ensures after == SpriteImage(init, rows[..i + 1])
  {
    var prefix := rows[..i + 1];
    assert prefix[..|prefix| - 1] == rows[..i];
    var row := rows[i];
    var img := SpriteImage(init, prefix);
    if Drawn(row) {
      forall k | 0 <= k < |after|
        ensures after[k] == img[k]
      {
        if row.y * row.width <= k < (row.y + 1) * row.width {
          var x := k - row.y * row.width;
          assert after[row.y * row.width + x] == SpritePixel(row, x);
        }
      }
    }
  }
}
