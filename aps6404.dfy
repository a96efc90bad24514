/** The transfer planning of the APS6404 PSRAM driver: how a write, a
    repeated-word write or a read of a byte range is cut into transfers
    that the PIO program and the DMA channel carry out.

    The PIO pushes and DMA starts are recorded as transfers: a write
    transfer of `len` bytes at `addr` stands for the three FIFO words
    (len << 1) - 1, 0x38000000 | addr and the write program's address,
    followed by the data. Read commands are the three-word triples the
    driver builds in its command buffer. */
module Aps6404 {
  import opened Bytes

  datatype Xfer =
      /** The DMA channel aimed at the PIO TX FIFO with the write configuration. */
    | WriteSetup
      /** len bytes at addr, taken by DMA from word dataWord of the caller's buffer. */
    | BufferWrite(addr: nat, len: nat, dataWord: nat, dmaWords: nat)
      /** len bytes at addr pushed as one word: buffer word dataWord shifted
          right by 8 * shift and byte-swapped, so its bytes shift.. go first. */
    | WordWrite(addr: nat, len: nat, dataWord: nat, shift: nat)
      /** len bytes at addr, the word repeated by a non-incrementing DMA read. */
    | RepeatWrite(addr: nat, len: nat, word: bv32, dmaWords: nat)
      /** start_read: the read DMA channel armed for totalWords words. */
    | ReadStart(totalWords: nat, chain: int)
      /** One read command pushed straight into the PIO FIFO. */
    | ReadDirect(cmd: seq<nat>)
      /** The first words of the command buffer sent by the command DMA channel. */
    | ReadCommands(cmds: seq<nat>)

  predicate IsWrite(x: Xfer)
  {
    x.BufferWrite? || x.WordWrite? || x.RepeatWrite?
  }

  /** The write transfers cover [addr, addr + len) in order, each one
      starting where the previous one ended and none of them empty. */
  predicate WritesTile(xs: seq<Xfer>, addr: nat, len: nat)
    decreases |xs|
  {
    if xs == [] then len == 0
    else IsWrite(xs[0]) && xs[0].addr == addr && 0 < xs[0].len <= len &&
         WritesTile(xs[1..], addr + xs[0].len, len - xs[0].len)
  }

  /** No write transfer crosses a page boundary. */
  predicate WritesInPages(xs: seq<Xfer>, pageSize: nat)
    requires pageSize > 0
  {
    forall i :: 0 <= i < |xs| && IsWrite(xs[i]) ==> xs[i].addr % pageSize + xs[i].len <= pageSize
  }

  /** No write transfer is longer than a page. */
  predicate WritesAtMost(xs: seq<Xfer>, pageSize: nat)
  {
    forall i :: 0 <= i < |xs| && IsWrite(xs[i]) ==> xs[i].len <= pageSize
  }

  /** Each byte is taken from its own place in the caller's buffer: the
      byte written at address a is byte a - addr0 of the buffer starting
      at word dw0. */
  predicate DataInPlace(x: Xfer, addr0: nat, dw0: nat)
  {
    match x
    case BufferWrite(a, _, w, _) => 4 * w == 4 * dw0 + a - addr0
    case WordWrite(a, n, w, s) => 4 * w + s == 4 * dw0 + a - addr0 && s + n <= 4
    case _ => true
  }

  predicate AllDataInPlace(xs: seq<Xfer>, addr0: nat, dw0: nat)
  {
    forall i :: 0 <= i < |xs| ==> DataInPlace(xs[i], addr0, dw0)
  }

  /** The length the write loops see: len_in_bytes converted to int, where
      a value of 2^31 or more is negative and so writes nothing. */
  function SignedLen(lenInBytes: nat): (l: nat)
    ensures l <= lenInBytes
    ensures lenInBytes < 0x8000_0000 ==> l == lenInBytes
  {
    if lenInBytes < 0x8000_0000 then lenInBytes else 0
  }

  // ---------------------------------------------------------------------
  // write and write_no_page_crossing
  // ---------------------------------------------------------------------

  /** The chunking loop of write: a first chunk of at most `first` bytes,
      then chunks of at most a page, each taken from the buffer at the word
      after the whole words already sent. */
  function ChunkWrites(addr: nat, len: nat, first: nat, pageSize: nat, dw: nat): seq<Xfer>
    requires first > 0 && pageSize > 0
    decreases len
  {
    if len == 0 then []
    else
      var n := Min(first, len);
      [BufferWrite(addr, n, dw, n / 4 + 1)] + ChunkWrites(addr + n, len - n, pageSize, pageSize, dw + n / 4)
  }

  /** How many bytes of the word the DMA stopped in are left to push: the
      rest of the word, or fewer when the range ends inside it. */
  function SplitLen(pageLen: nat, len: nat): (n: nat)
    requires pageLen % 4 != 0 && len > pageLen
    ensures 1 <= n <= 3 && n <= len - pageLen && n + pageLen % 4 <= 4
    ensures len - pageLen > n ==> n == 4 - pageLen % 4
  {
    Min(4 - pageLen % 4, len - pageLen)
  }

  /** One round of the page-crossing loop: the rest of the page from the
      buffer, then the remaining bytes of the word the DMA stopped in,
      pushed on their own at the start of the next page. */
  function CrossingRound(addr: nat, len: nat, pageLen: nat, dw: nat): seq<Xfer>
    requires pageLen % 4 != 0 && len > pageLen
  {
    [BufferWrite(addr, pageLen, dw, pageLen / 4 + 1),
     WordWrite(addr + pageLen, SplitLen(pageLen, len), dw + pageLen / 4, pageLen % 4)]
  }

  /** The page-crossing loop of write_no_page_crossing, entered when the
      room left in the first page is not a whole number of words. Once the
      range no longer reaches past the current page, the chunking loop
      sends the rest. */
  function CrossingWrites(addr: nat, len: nat, pageLen: nat, pageSize: nat, dw: nat): seq<Xfer>
    requires pageSize >= 4 && pageSize % 4 == 0 && 0 < pageLen && pageLen % 4 != 0
    decreases len
  {
    if len > pageLen then
      var n := SplitLen(pageLen, len);
      SplitWordRest(pageSize, n);
      CrossingRound(addr, len, pageLen, dw) +
      CrossingWrites(addr + pageLen + n, len - pageLen - n, pageSize - n, pageSize, dw + pageLen / 4 + 1)
    else
      ChunkWrites(addr, len, pageLen, pageSize, dw)
  }

  /** What write_no_page_crossing sends. */
  function NoCrossingWrites(addr: nat, len: nat, pageSize: nat, dw: nat): seq<Xfer>
    requires pageSize >= 4 && pageSize % 4 == 0
  {
    var pageLen := pageSize - addr % pageSize;
    if pageLen % 4 != 0 then CrossingWrites(addr, len, pageLen, pageSize, dw)
    else ChunkWrites(addr, len, pageLen, pageSize, dw)
  }

  /** What the transfer part of write sends. */
  function WriteXfers(addr: nat, len: nat, pageSize: nat, pageSmashingOk: bool, dw: nat): seq<Xfer>
    requires pageSize >= 4 && pageSize % 4 == 0
  {
    if pageSmashingOk then ChunkWrites(addr, len, pageSize, pageSize, dw)
    else NoCrossingWrites(addr, len, pageSize, dw)
  }

  /** The first chunk holds at most `first` bytes and no chunk more than a page. */
  lemma {:induction false} ChunkWritesTile(addr: nat, len: nat, first: nat, pageSize: nat, dw: nat)
    requires 0 < first <= pageSize
    ensures var xs := ChunkWrites(addr, len, first, pageSize, dw);
            WritesTile(xs, addr, len) && WritesAtMost(xs, pageSize) && (|xs| > 0 ==> xs[0].len <= first)
    decreases len
  {
    if len > 0 {
      var n := Min(first, len);
      var xs := ChunkWrites(addr, len, first, pageSize, dw);
      var rest := ChunkWrites(addr + n, len - n, pageSize, pageSize, dw + n / 4);
      ChunkWritesTile(addr + n, len - n, pageSize, pageSize, dw + n / 4);
      assert xs[1..] == rest;
      assert forall i :: 1 <= i < |xs| ==> xs[i] == rest[i - 1];
    }
  }

  /** Starting with the room left in the page, no chunk crosses a page. */
  lemma {:induction false} ChunkWritesInPages(addr: nat, len: nat, first: nat, pageSize: nat, dw: nat)
    requires pageSize > 0 && first == pageSize - addr % pageSize
    ensures WritesInPages(ChunkWrites(addr, len, first, pageSize, dw), pageSize)
    decreases len
  {
    if len > 0 {
      var n := Min(first, len);
      var xs := ChunkWrites(addr, len, first, pageSize, dw);
      var rest := ChunkWrites(addr + n, len - n, pageSize, pageSize, dw + n / 4);
      assert xs == [xs[0]] + rest;
      if len - n > 0 {
        assert n == first;
        PageStart(addr, pageSize);
        ChunkWritesInPages(addr + n, len - n, pageSize, pageSize, dw + n / 4);
      }
    }
  }

  /** The address after the room left in a page is a page start. */
  lemma PageStart(addr: nat, pageSize: nat)
    requires pageSize > 0
    ensures (addr + (pageSize - addr % pageSize)) % pageSize == 0
  {
    var q := addr / pageSize;
    assert addr == pageSize * q + addr % pageSize;
    assert pageSize * (q + 1) == pageSize * q + pageSize;
    ModUnique(addr + (pageSize - addr % pageSize), pageSize, q + 1, 0);
  }

  /** A page start plus fewer than a page bytes is that far into the page. */
  lemma IntoPage(a: nat, n: nat, pageSize: nat)
    requires pageSize > 0 && a % pageSize == 0 && n < pageSize
    ensures (a + n) % pageSize == n
  {
    var q := a / pageSize;
    assert a == pageSize * q;
    ModUnique(a + n, pageSize, q, n);
  }

  /** With whole-word chunks (or a single one), the buffer word of each
      chunk is the one holding its first byte. */
  lemma {:induction false} ChunkWritesInPlace(addr: nat, len: nat, first: nat, pageSize: nat, dw: nat,
                                              addr0: nat, dw0: nat)
    requires first > 0 && pageSize > 0 && pageSize % 4 == 0
    requires first % 4 == 0 || len <= first
    requires len > 0 ==> 4 * dw == 4 * dw0 + addr - addr0
    ensures AllDataInPlace(ChunkWrites(addr, len, first, pageSize, dw), addr0, dw0)
    decreases len
  {
    if len > 0 {
      var n := Min(first, len);
      var xs := ChunkWrites(addr, len, first, pageSize, dw);
      var rest := ChunkWrites(addr + n, len - n, pageSize, pageSize, dw + n / 4);
      assert xs == [xs[0]] + rest;
      if len - n > 0 {
        assert n == first && n % 4 == 0;
        assert 4 * (dw + n / 4) == 4 * dw + n;
      }
      ChunkWritesInPlace(addr + n, len - n, pageSize, pageSize, dw + n / 4, addr0, dw0);
    }
  }

  /** Two tilings one after the other tile the joined range. */
  lemma {:induction false} TileAppend(xs: seq<Xfer>, ys: seq<Xfer>, addr: nat, m: nat, len: nat)
    requires m <= len && WritesTile(xs, addr, m) && WritesTile(ys, addr + m, len - m)
    ensures WritesTile(xs + ys, addr, len)
    decreases |xs|
  {
    if xs == [] {
      assert xs + ys == ys;
    } else {
      assert (xs + ys)[0] == xs[0] && (xs + ys)[1..] == xs[1..] + ys;
      TileAppend(xs[1..], ys, addr + xs[0].len, m - xs[0].len, len - xs[0].len);
    }
  }

  /** A page less the 1 to 3 bytes of a split word is not a whole number of words. */
  lemma SplitWordRest(pageSize: nat, n: nat)
    requires pageSize >= 4 && pageSize % 4 == 0 && 1 <= n <= 3
    ensures (pageSize - n) % 4 == 4 - n
  {
    ModUnique(pageSize - n, 4, pageSize / 4 - 1, 4 - n);
  }

  /** Two consecutive non-empty writes tile the range they span. */
  lemma PairTile(xs: seq<Xfer>, addr: nat, m: nat, n: nat)
    requires |xs| == 2 && IsWrite(xs[0]) && IsWrite(xs[1]) && 0 < m && 0 < n
    requires xs[0].addr == addr && xs[0].len == m && xs[1].addr == addr + m && xs[1].len == n
    ensures WritesTile(xs, addr, m + n)
  {
    assert xs[1..][1..] == [];
  }

  /** The page-crossing loop covers the range in order. */
  lemma {:induction false} CrossingWritesTile(addr: nat, len: nat, pageLen: nat, pageSize: nat, dw: nat)
    requires pageSize >= 4 && pageSize % 4 == 0 && 0 < pageLen <= pageSize && pageLen % 4 != 0
    ensures WritesTile(CrossingWrites(addr, len, pageLen, pageSize, dw), addr, len)
    decreases len
  {
    if len > pageLen {
      var n := SplitLen(pageLen, len);
      SplitWordRest(pageSize, n);
      var rest := CrossingWrites(addr + pageLen + n, len - pageLen - n, pageSize - n, pageSize, dw + pageLen / 4 + 1);
      CrossingWritesTile(addr + pageLen + n, len - pageLen - n, pageSize - n, pageSize, dw + pageLen / 4 + 1);
      PairTile(CrossingRound(addr, len, pageLen, dw), addr, pageLen, n);
      TileAppend(CrossingRound(addr, len, pageLen, dw), rest, addr, pageLen + n, len);
    } else {
      ChunkWritesTile(addr, len, pageLen, pageSize, dw);
    }
  }

  /** Joining two lists of writes that stay inside pages and within a
      page's length keeps both properties. */
  lemma PagesAppend(xs: seq<Xfer>, ys: seq<Xfer>, pageSize: nat)
    requires pageSize > 0
    requires WritesInPages(xs, pageSize) && WritesAtMost(xs, pageSize)
    requires WritesInPages(ys, pageSize) && WritesAtMost(ys, pageSize)
    ensures WritesInPages(xs + ys, pageSize) && WritesAtMost(xs + ys, pageSize)
  {
    assert forall i :: |xs| <= i < |xs + ys| ==> (xs + ys)[i] == ys[i - |xs|];
  }

  /** The two writes of a round stay inside their pages: the first fills
      the rest of the page, the second starts the next one. */
  lemma RoundInPages(addr: nat, len: nat, pageLen: nat, pageSize: nat, dw: nat)
    requires pageSize >= 4 && pageLen % 4 != 0 && len > pageLen
    requires pageLen == pageSize - addr % pageSize
    ensures var xs := CrossingRound(addr, len, pageLen, dw);
            WritesInPages(xs, pageSize) && WritesAtMost(xs, pageSize)
    ensures (addr + pageLen + SplitLen(pageLen, len)) % pageSize == SplitLen(pageLen, len)
  {
    PageStart(addr, pageSize);
    IntoPage(addr + pageLen, SplitLen(pageLen, len), pageSize);
  }

  /** The page-crossing loop, entered with the room left in the first
      page, keeps every transfer inside one page. */
  lemma {:induction false} CrossingWritesInPages(addr: nat, len: nat, pageLen: nat, pageSize: nat, dw: nat)
    requires pageSize >= 4 && pageSize % 4 == 0 && 0 < pageLen && pageLen % 4 != 0
    requires pageLen == pageSize - addr % pageSize
    ensures var xs := CrossingWrites(addr, len, pageLen, pageSize, dw);
            WritesInPages(xs, pageSize) && WritesAtMost(xs, pageSize)
    decreases len
  {
    if len > pageLen {
      var n := SplitLen(pageLen, len);
      SplitWordRest(pageSize, n);
      RoundInPages(addr, len, pageLen, pageSize, dw);
      CrossingWritesInPages(addr + pageLen + n, len - pageLen - n, pageSize - n, pageSize, dw + pageLen / 4 + 1);
      PagesAppend(CrossingRound(addr, len, pageLen, dw),
                  CrossingWrites(addr + pageLen + n, len - pageLen - n, pageSize - n, pageSize, dw + pageLen / 4 + 1),
                  pageSize);
    } else {
      ChunkWritesTile(addr, len, pageLen, pageSize, dw);
      ChunkWritesInPages(addr, len, pageLen, pageSize, dw);
    }
  }

  /** The page-crossing loop takes each byte from its place in the buffer. */
  lemma {:induction false} CrossingWritesInPlace(addr: nat, len: nat, pageLen: nat, pageSize: nat, dw: nat,
                                                 addr0: nat, dw0: nat)
    requires pageSize >= 4 && pageSize % 4 == 0 && 0 < pageLen && pageLen % 4 != 0
    requires len > 0 ==> 4 * dw == 4 * dw0 + addr - addr0
    ensures AllDataInPlace(CrossingWrites(addr, len, pageLen, pageSize, dw), addr0, dw0)
    decreases len
  {
    if len > pageLen {
      var a1 := addr + pageLen;
      var b := pageLen % 4;
      var n := SplitLen(pageLen, len);
      SplitWordRest(pageSize, n);
      var xs := CrossingWrites(addr, len, pageLen, pageSize, dw);
      var rest := CrossingWrites(a1 + n, len - pageLen - n, pageSize - n, pageSize, dw + pageLen / 4 + 1);
      assert 4 * (dw + pageLen / 4) + b == 4 * dw + pageLen;
      CrossingWritesInPlace(a1 + n, len - pageLen - n, pageSize - n, pageSize, dw + pageLen / 4 + 1, addr0, dw0);
      assert xs[2..] == rest;
    } else {
      ChunkWritesInPlace(addr, len, pageLen, pageSize, dw, addr0, dw0);
    }
  }

  /** write_no_page_crossing covers [addr, addr + len) in order with
      transfers that never cross a page, each taking its bytes from their
      own place in the buffer. */
  lemma NoCrossingWritesCover(addr: nat, len: nat, pageSize: nat, dw: nat)
    requires pageSize >= 4 && pageSize % 4 == 0
    ensures var xs := NoCrossingWrites(addr, len, pageSize, dw);
            WritesTile(xs, addr, len) && WritesInPages(xs, pageSize) && WritesAtMost(xs, pageSize) &&
            AllDataInPlace(xs, addr, dw)
  {
    var pageLen := pageSize - addr % pageSize;
    if pageLen % 4 != 0 {
      CrossingWritesTile(addr, len, pageLen, pageSize, dw);
      CrossingWritesInPages(addr, len, pageLen, pageSize, dw);
      CrossingWritesInPlace(addr, len, pageLen, pageSize, dw, addr, dw);
    } else {
      ChunkWritesTile(addr, len, pageLen, pageSize, dw);
      ChunkWritesInPages(addr, len, pageLen, pageSize, dw);
      ChunkWritesInPlace(addr, len, pageLen, pageSize, dw, addr, dw);
    }
  }

  /** write with page smashing allowed covers [addr, addr + len) in order
      with transfers of at most a page, each from its place in the buffer. */
  lemma SmashingWritesCover(addr: nat, len: nat, pageSize: nat, dw: nat)
    requires pageSize >= 4 && pageSize % 4 == 0
    ensures var xs := ChunkWrites(addr, len, pageSize, pageSize, dw);
            WritesTile(xs, addr, len) && WritesAtMost(xs, pageSize) && AllDataInPlace(xs, addr, dw)
  {
    ChunkWritesTile(addr, len, pageSize, pageSize, dw);
    ChunkWritesInPlace(addr, len, pageSize, pageSize, dw, addr, dw);
  }

  // ---------------------------------------------------------------------
  // write_repeat
  // ---------------------------------------------------------------------

  /** The repeated word rotated right by b bytes, (w >> 8b) | (w << (32 - 8b)),
      so that its byte k is the old byte (k + b) mod 4. write_repeat rotates
      by the 1 to 3 bytes of the word it stopped in; rotating by 0 leaves
      the word alone. */
  function RotateBytes(w: bv32, b: nat): bv32
    requires b < 4
  {
    if b == 0 then w
    else if b == 1 then (w >> 8) | (w << 24)
    else if b == 2 then (w >> 16) | (w << 16)
    else (w >> 24) | (w << 8)
  }

  lemma RotateBy1(w: bv32)
    ensures var r := (w >> 8) | (w << 24);
            ByteOf(r, 0) == ByteOf(w, 1) && ByteOf(r, 1) == ByteOf(w, 2) &&
            ByteOf(r, 2) == ByteOf(w, 3) && ByteOf(r, 3) == ByteOf(w, 0)
  {
  }

  lemma RotateBy2(w: bv32)
    ensures var r := (w >> 16) | (w << 16);
            ByteOf(r, 0) == ByteOf(w, 2) && ByteOf(r, 1) == ByteOf(w, 3) &&
            ByteOf(r, 2) == ByteOf(w, 0) && ByteOf(r, 3) == ByteOf(w, 1)
  {
  }

  lemma RotateBy3(w: bv32)
    ensures var r := (w >> 24) | (w << 8);
            ByteOf(r, 0) == ByteOf(w, 3) && ByteOf(r, 1) == ByteOf(w, 0) &&
            ByteOf(r, 2) == ByteOf(w, 1) && ByteOf(r, 3) == ByteOf(w, 2)
  {
  }

  /** Byte k of the rotated word is byte (k + b) mod 4 of the original. */
  lemma RotateBytesAt(w: bv32, b: nat, k: nat)
    requires b < 4 && k < 4
    ensures ByteOf(RotateBytes(w, b), k) == ByteOf(w, (k + b) % 4)
  {
    var j := (k + b) % 4;
    var r := RotateBytes(w, b);
    if b == 1 {
      RotateBy1(w);
      assert r == (w >> 8) | (w << 24);
    } else if b == 2 {
      RotateBy2(w);
      assert r == (w >> 16) | (w << 16);
    } else if b == 3 {
      RotateBy3(w);
      assert r == (w >> 24) | (w << 8);
    }
    assert k == 0 || k == 1 || k == 2 || k == 3;
  }

  /** The chunking loop of write_repeat: the same word repeated by the DMA
      for each chunk, a first chunk of at most `first` bytes and then
      chunks of at most a page. */
  function RepeatChunks(addr: nat, len: nat, first: nat, pageSize: nat, w: bv32): seq<Xfer>
    requires first > 0 && pageSize > 0
    decreases len
  {
    if len == 0 then []
    else
      var n := Min(first, len);
      [RepeatWrite(addr, n, w, n / 4 + 1)] + RepeatChunks(addr + n, len - n, pageSize, pageSize, w)
  }

  /** The room write_repeat allows in the first page. */
  function FirstPageLen(addr: nat, pageSize: nat, pageSmashingOk: bool): (n: nat)
    requires pageSize > 0
    ensures 0 < n <= pageSize
    ensures pageSmashingOk ==> n == pageSize
    ensures !pageSmashingOk ==> (addr + n) % pageSize == 0
  {
    PageStart(addr, pageSize);
    if pageSmashingOk then pageSize else pageSize - addr % pageSize
  }

  /** What the transfer part of write_repeat sends. When pages may not be
      crossed and the first page does not end on a word boundary, the rest
      of that page is written first and the word is rotated so that the
      pattern continues in step in the next page. */
  function RepeatWrites(addr: nat, len: nat, w: bv32, pageSize: nat, pageSmashingOk: bool): seq<Xfer>
    requires pageSize >= 4 && pageSize % 4 == 0
  {
    var first := FirstPageLen(addr, pageSize, pageSmashingOk);
    if !pageSmashingOk && first % 4 != 0 && len > first then
      [RepeatWrite(addr, first, w, first / 4 + 1)] +
      RepeatChunks(addr + first, len - first, pageSize, pageSize, RotateBytes(w, first % 4))
    else
      RepeatChunks(addr, len, first, pageSize, w)
  }

  /** Byte k of a repeated-word write is byte k mod 4 of the word, as the
      byte-swapping DMA hands it over. */
  function RepeatByte(x: Xfer, k: nat): bv8
    requires x.RepeatWrite?
  {
    ByteOf(x.word, k % 4)
  }

  /** A repeated-word write of a pattern that started at addr0 with word w0:
      its word is w0 rotated to the phase of its first address. */
  predicate InPhase(x: Xfer, addr0: nat, w0: bv32)
  {
    x.RepeatWrite? ==> x.addr >= addr0 && x.word == RotateBytes(w0, (x.addr - addr0) % 4)
  }

  predicate AllInPhase(xs: seq<Xfer>, addr0: nat, w0: bv32)
  {
    forall i :: 0 <= i < |xs| ==> InPhase(xs[i], addr0, w0)
  }

  /** A write in phase puts byte (t mod 4) of w0 at address addr0 + t. */
  lemma InPhaseByte(x: Xfer, addr0: nat, w0: bv32, k: nat)
    requires x.RepeatWrite? && InPhase(x, addr0, w0) && k < x.len
    ensures RepeatByte(x, k) == ByteOf(w0, (x.addr + k - addr0) % 4)
  {
    var b := (x.addr - addr0) % 4;
    RotateBytesAt(w0, b, k % 4);
    ModSum4(x.addr - addr0, k);
  }

  lemma ModSum4(t: nat, k: nat)
    ensures (k % 4 + t % 4) % 4 == (t + k) % 4
  {
    ModUnique(t + k, 4, t / 4 + k / 4 + (k % 4 + t % 4) / 4, (k % 4 + t % 4) % 4);
  }

  /** Every chunk of the repeat loop is non-empty and consecutive, the
      first at most `first` bytes and the others at most a page. */
  lemma {:induction false} RepeatChunksTile(addr: nat, len: nat, first: nat, pageSize: nat, w: bv32)
    requires 0 < first <= pageSize
    ensures var xs := RepeatChunks(addr, len, first, pageSize, w);
            WritesTile(xs, addr, len) && WritesAtMost(xs, pageSize) && (|xs| > 0 ==> xs[0].len <= first)
    decreases len
  {
    if len > 0 {
      var n := Min(first, len);
      var xs := RepeatChunks(addr, len, first, pageSize, w);
      var rest := RepeatChunks(addr + n, len - n, pageSize, pageSize, w);
      RepeatChunksTile(addr + n, len - n, pageSize, pageSize, w);
      assert xs[1..] == rest;
      assert forall i :: 1 <= i < |xs| ==> xs[i] == rest[i - 1];
    }
  }

  /** With whole-word chunks (or a single one) the pattern stays in phase. */
  lemma {:induction false} RepeatChunksInPhase(addr: nat, len: nat, first: nat, pageSize: nat, w: bv32,
                                               addr0: nat, w0: bv32)
    requires first > 0 && pageSize > 0 && pageSize % 4 == 0
    requires first % 4 == 0 || len <= first
    requires addr >= addr0 && w == RotateBytes(w0, (addr - addr0) % 4)
    ensures AllInPhase(RepeatChunks(addr, len, first, pageSize, w), addr0, w0)
    decreases len
  {
    if len > 0 {
      var n := Min(first, len);
      var xs := RepeatChunks(addr, len, first, pageSize, w);
      var rest := RepeatChunks(addr + n, len - n, pageSize, pageSize, w);
      assert xs == [xs[0]] + rest;
      if len - n > 0 {
        assert n % 4 == 0;
        ModSum4(addr - addr0, n);
        RepeatChunksInPhase(addr + n, len - n, pageSize, pageSize, w, addr0, w0);
      }
    }
  }

  /** Starting with the room left in the page, no repeat chunk crosses a page. */
  lemma {:induction false} RepeatChunksInPages(addr: nat, len: nat, first: nat, pageSize: nat, w: bv32)
    requires pageSize > 0 && first == pageSize - addr % pageSize
    ensures WritesInPages(RepeatChunks(addr, len, first, pageSize, w), pageSize)
    decreases len
  {
    if len > 0 {
      var n := Min(first, len);
      var xs := RepeatChunks(addr, len, first, pageSize, w);
      var rest := RepeatChunks(addr + n, len - n, pageSize, pageSize, w);
      assert xs == [xs[0]] + rest;
      if len - n > 0 {
        PageStart(addr, pageSize);
        RepeatChunksInPages(addr + n, len - n, pageSize, pageSize, w);
      }
    }
  }

  lemma PhaseAppend(xs: seq<Xfer>, ys: seq<Xfer>, addr0: nat, w0: bv32)
    requires AllInPhase(xs, addr0, w0) && AllInPhase(ys, addr0, w0)
    ensures AllInPhase(xs + ys, addr0, w0)
  {
    assert forall i :: |xs| <= i < |xs + ys| ==> (xs + ys)[i] == ys[i - |xs|];
  }

  /** The page-crossing case of write_repeat: the rest of the first page,
      then page chunks from the next page start. */
  lemma RepeatSplitTile(addr: nat, len: nat, w: bv32, pageSize: nat)
    requires pageSize >= 4 && pageSize % 4 == 0
    requires var first := FirstPageLen(addr, pageSize, false); first % 4 != 0 && len > first
    ensures var xs := RepeatWrites(addr, len, w, pageSize, false);
            WritesTile(xs, addr, len) && WritesAtMost(xs, pageSize) && WritesInPages(xs, pageSize)
  {
    var first := FirstPageLen(addr, pageSize, false);
    var w1 := RotateBytes(w, first % 4);
    var head := [RepeatWrite(addr, first, w, first / 4 + 1)];
    var rest := RepeatChunks(addr + first, len - first, pageSize, pageSize, w1);
    assert RepeatWrites(addr, len, w, pageSize, false) == head + rest;
    assert head[1..] == [];
    assert WritesTile(head, addr, first);
    assert WritesInPages(head, pageSize) && WritesAtMost(head, pageSize);
    RepeatChunksTile(addr + first, len - first, pageSize, pageSize, w1);
    RepeatChunksInPages(addr + first, len - first, pageSize, pageSize, w1);
    TileAppend(head, rest, addr, first, len);
    PagesAppend(head, rest, pageSize);
  }

  /** In the page-crossing case the rotated word continues the pattern. */
  lemma RepeatSplitPhase(addr: nat, len: nat, w: bv32, pageSize: nat)
    requires pageSize >= 4 && pageSize % 4 == 0
    requires var first := FirstPageLen(addr, pageSize, false); first % 4 != 0 && len > first
    ensures AllInPhase(RepeatWrites(addr, len, w, pageSize, false), addr, w)
  {
    var first := FirstPageLen(addr, pageSize, false);
    var w1 := RotateBytes(w, first % 4);
    var head := [RepeatWrite(addr, first, w, first / 4 + 1)];
    var rest := RepeatChunks(addr + first, len - first, pageSize, pageSize, w1);
    assert RepeatWrites(addr, len, w, pageSize, false) == head + rest;
    assert RotateBytes(w, 0) == w;
    assert AllInPhase(head, addr, w);
    RepeatChunksInPhase(addr + first, len - first, pageSize, pageSize, w1, addr, w);
    PhaseAppend(head, rest, addr, w);
  }

  /** write_repeat covers [addr, addr + len) in order with non-empty writes
      of at most a page that never cross a page unless smashing is allowed,
      and byte t of the range is byte (t mod 4) of the word. */
  lemma RepeatWritesCover(addr: nat, len: nat, w: bv32, pageSize: nat, pageSmashingOk: bool)
    requires pageSize >= 4 && pageSize % 4 == 0
    ensures var xs := RepeatWrites(addr, len, w, pageSize, pageSmashingOk);
            WritesTile(xs, addr, len) && WritesAtMost(xs, pageSize) && AllInPhase(xs, addr, w) &&
            (!pageSmashingOk ==> WritesInPages(xs, pageSize))
  {
    var first := FirstPageLen(addr, pageSize, pageSmashingOk);
    if !pageSmashingOk && first % 4 != 0 && len > first {
      RepeatSplitTile(addr, len, w, pageSize);
      RepeatSplitPhase(addr, len, w, pageSize);
    } else {
      assert RotateBytes(w, 0) == w;
      RepeatChunksTile(addr, len, first, pageSize, w);
      RepeatChunksInPhase(addr, len, first, pageSize, w, addr, w);
      if !pageSmashingOk {
        RepeatChunksInPages(addr, len, first, pageSize, w);
      }
    }
  }

  // ---------------------------------------------------------------------
  // read, add_read_to_cmd_buffer and multi_read
  // ---------------------------------------------------------------------

  /** A read of len bytes at addr, one command triple. */
  datatype Chunk = Chunk(addr: nat, len: nat)

  /** The loop of add_read_to_cmd_buffer: a first chunk of at most `first`
      bytes, then chunks of at most a page, until nothing remains. The loop
      body runs before its test, so a read of nothing is still one chunk. */
  function ReadChunks(addr: nat, rem: nat, first: nat, pageSize: nat): seq<Chunk>
    requires first > 0 && pageSize > 0
    decreases rem
  {
    var n := Min(first, rem);
    [Chunk(addr, n)] + if rem - n == 0 then [] else ReadChunks(addr + n, rem - n, pageSize, pageSize)
  }

  /** The chunks cover [addr, addr + len) in order, none of them empty
      unless the range is. */
  predicate ChunksTile(cs: seq<Chunk>, addr: nat, len: nat)
    decreases |cs|
  {
    if cs == [] then len == 0
    else cs[0].addr == addr && cs[0].len <= len && (len > 0 ==> cs[0].len > 0) &&
         ChunksTile(cs[1..], addr + cs[0].len, len - cs[0].len)
  }

  /** The second word of a read command: the quad read opcode 0xEB or-ed
      into the top byte of the 32-bit address. */
  function CommandWord(addr: nat): nat
  {
    var w := Wrap32(addr);
    ((0xEB as bv8) | ((w / 0x100_0000) as bv8)) as nat * 0x100_0000 + w % 0x100_0000
  }

  /** Every address of the 8 MiB chip has a clear top byte, so its command
      word is the opcode followed by the address. */
  lemma CommandWordOfChipAddress(addr: nat)
    requires addr < 0x100_0000
    ensures CommandWord(addr) == 0xEB00_0000 + addr
  {
    Wrap32Small(addr);
    var w := Wrap32(addr);
    assert w / 0x100_0000 == 0 && w % 0x100_0000 == addr;
  }

  /** The command triple for one chunk: a chunk shorter than two bytes uses
      the single-read entry point with count 0, any other the read entry
      point with count len * 2 - 4. */
  function ReadTriple(c: Chunk, doRead: nat, doReadOne: nat): (t: seq<nat>)
    ensures |t| == 3 && t[1] == CommandWord(c.addr)
    ensures c.len < 2 ==> t[0] == 0 && t[2] == doReadOne
    ensures c.len >= 2 ==> t[0] + 4 == 2 * c.len && t[2] == doRead
  {
    [ReadCount(c), CommandWord(c.addr), ReadEntry(c, doRead, doReadOne)]
  }

  function ReadCount(c: Chunk): nat
  {
    if c.len < 2 then 0 else c.len * 2 - 4
  }

  function ReadEntry(c: Chunk, doRead: nat, doReadOne: nat): nat
  {
    if c.len < 2 then doReadOne else doRead
  }

  function ReadTriples(cs: seq<Chunk>, doRead: nat, doReadOne: nat): (r: seq<nat>)
    ensures |r| == 3 * |cs|
    decreases |cs|
  {
    if cs == [] then [] else ReadTriple(cs[0], doRead, doReadOne) + ReadTriples(cs[1..], doRead, doReadOne)
  }

  /** Triple i of the command list is the one for chunk i. */
  lemma {:induction false} ReadTriplesAt(cs: seq<Chunk>, doRead: nat, doReadOne: nat, i: nat)
    requires i < |cs|
    ensures ReadTriples(cs, doRead, doReadOne)[3 * i..3 * i + 3] == ReadTriple(cs[i], doRead, doReadOne)
    decreases |cs|
  {
    var t := ReadTriple(cs[0], doRead, doReadOne);
    var rest := ReadTriples(cs[1..], doRead, doReadOne);
    assert ReadTriples(cs, doRead, doReadOne) == t + rest;
    if i > 0 {
      ReadTriplesAt(cs[1..], doRead, doReadOne, i - 1);
      SliceAfterTriple(t, rest, i);
    } else {
      assert (t + rest)[..3] == t;
    }
  }

  lemma SliceAfterTriple<T>(t: seq<T>, rest: seq<T>, i: nat)
    requires |t| == 3 && 0 < i && 3 * i + 3 <= |t| + |rest|
    ensures (t + rest)[3 * i..3 * i + 3] == rest[3 * (i - 1)..3 * (i - 1) + 3]
  {
  }

  /** The commands the loop of add_read_to_cmd_buffer stores, one triple
      per round, as the loop produces them. */
  function StoredCmds(addr: nat, rem: nat, first: nat, pageSize: nat, doRead: nat, doReadOne: nat): seq<nat>
    requires first > 0 && pageSize > 0
    decreases rem
  {
    var n := Min(first, rem);
    ReadTriple(Chunk(addr, n), doRead, doReadOne) +
    if rem - n == 0 then [] else StoredCmds(addr + n, rem - n, pageSize, pageSize, doRead, doReadOne)
  }

  /** A buffer holding done from position pos and orig everywhere else. */
  ghost predicate StoredOver(buf: seq<nat>, orig: seq<nat>, pos: nat, done: seq<nat>)
  {
    |buf| == |orig| && pos + |done| <= |buf| &&
    forall i :: 0 <= i < |buf| ==> buf[i] == if pos <= i < pos + |done| then done[i - pos] else orig[i]
  }

  lemma StoredOverAt(buf: seq<nat>, orig: seq<nat>, pos: nat, done: seq<nat>)
    requires StoredOver(buf, orig, pos, done)
    ensures forall i :: 0 <= i < |buf| ==> buf[i] == if pos <= i < pos + |done| then done[i - pos] else orig[i]
  {
  }

  /** Every round stores a whole triple. */
  lemma StoredHead(a: nat, rem: nat, first: nat, pageSize: nat, doRead: nat, doReadOne: nat, n: nat)
    requires first > 0 && pageSize > 0 && n == Min(first, rem)
    ensures |StoredCmds(a, rem, first, pageSize, doRead, doReadOne)| >= 3
  {
  }

  /** A round of the loop of add_read_to_cmd_buffer that leaves bytes
      for another, unfolded. */
  lemma StoredStep(a: nat, rem: nat, first: nat, pageSize: nat, doRead: nat, doReadOne: nat, n: nat)
    requires first > 0 && pageSize > 0 && n == Min(first, rem) && rem - n > 0
    ensures StoredCmds(a, rem, first, pageSize, doRead, doReadOne) ==
            ReadTriple(Chunk(a, n), doRead, doReadOne) + StoredCmds(a + n, rem - n, pageSize, pageSize, doRead, doReadOne)
  {
  }

  /** The last round of the loop of add_read_to_cmd_buffer. */
  lemma StoredLast(a: nat, rem: nat, first: nat, pageSize: nat, doRead: nat, doReadOne: nat, n: nat)
    requires first > 0 && pageSize > 0 && n == Min(first, rem) && rem - n == 0
    ensures StoredCmds(a, rem, first, pageSize, doRead, doReadOne) == ReadTriple(Chunk(a, n), doRead, doReadOne)
  {
  }

  /** The stored commands are the triples of the read's chunks. */
  lemma {:induction false} StoredCmdsAreTriples(addr: nat, rem: nat, first: nat, pageSize: nat, doRead: nat, doReadOne: nat)
    requires first > 0 && pageSize > 0
    ensures StoredCmds(addr, rem, first, pageSize, doRead, doReadOne) ==
            ReadTriples(ReadChunks(addr, rem, first, pageSize), doRead, doReadOne)
    decreases rem
  {
    var n := Min(first, rem);
    if rem - n != 0 {
      StoredCmdsAreTriples(addr + n, rem - n, pageSize, pageSize, doRead, doReadOne);
    }
    ReadStep(addr, rem, first, pageSize, doRead, doReadOne);
  }

  /** The commands add_read_to_cmd_buffer writes for a read of lenWords
      words at addr. */
  function ReadCmds(addr: nat, lenWords: nat, pageSize: nat, pageSmashingOk: bool,
                    doRead: nat, doReadOne: nat): seq<nat>
    requires pageSize > 0
  {
    ReadTriples(ReadChunks(addr, 4 * lenWords, FirstPageLen(addr, pageSize, pageSmashingOk), pageSize),
                doRead, doReadOne)
  }

  /** The chunks tile the read, there is at least one, the first fits the
      room allowed in the first page and every other is at most a page. */
  lemma {:induction false} ReadChunksCover(addr: nat, rem: nat, first: nat, pageSize: nat)
    requires 0 < first <= pageSize
    ensures var cs := ReadChunks(addr, rem, first, pageSize);
            |cs| >= 1 && ChunksTile(cs, addr, rem) && cs[0].len <= first &&
            (forall i :: 0 <= i < |cs| ==> cs[i].len <= pageSize) &&
            (rem == 0 ==> cs == [Chunk(addr, 0)])
    decreases rem
  {
    var n := Min(first, rem);
    var cs := ReadChunks(addr, rem, first, pageSize);
    if rem - n == 0 {
      assert cs == [Chunk(addr, n)];
      assert cs[1..] == [];
    } else {
      var rest := ReadChunks(addr + n, rem - n, pageSize, pageSize);
      ReadChunksCover(addr + n, rem - n, pageSize, pageSize);
      assert cs[1..] == rest;
      assert forall i :: 1 <= i < |cs| ==> cs[i] == rest[i - 1];
    }
  }

  /** No chunk crosses a page boundary. */
  predicate ChunksInPages(cs: seq<Chunk>, pageSize: nat)
    requires pageSize > 0
  {
    forall i :: 0 <= i < |cs| ==> cs[i].addr % pageSize + cs[i].len <= pageSize
  }

  /** Starting with the room left in the first page, no chunk crosses a page. */
  lemma {:induction false} ReadChunksInPages(addr: nat, rem: nat, first: nat, pageSize: nat)
    requires pageSize > 0 && first == pageSize - addr % pageSize
    ensures ChunksInPages(ReadChunks(addr, rem, first, pageSize), pageSize)
    decreases rem
  {
    var n := Min(first, rem);
    var cs := ReadChunks(addr, rem, first, pageSize);
    if rem - n != 0 {
      var rest := ReadChunks(addr + n, rem - n, pageSize, pageSize);
      assert n == first;
      PageStart(addr, pageSize);
      ReadChunksInPages(addr + n, rem - n, pageSize, pageSize);
      assert cs == [Chunk(addr, n)] + rest;
      assert cs[1..] == rest;
      assert forall i :: 1 <= i < |cs| ==> cs[i] == rest[i - 1];
    }
  }

  /** A read short enough for the direct path sends the same triple that a
      one-chunk command list would hold. */
  lemma ReadDirectMatchesCommands(addr: nat, lenWords: nat, pageSize: nat, pageSmashingOk: bool,
                                  doRead: nat, doReadOne: nat)
    requires pageSize > 0 && 0 < lenWords < 0x2000_0000
    requires FirstPageLen(addr, pageSize, pageSmashingOk) >= 4 * lenWords
    ensures ReadCmds(addr, lenWords, pageSize, pageSmashingOk, doRead, doReadOne) ==
            [Wrap32(lenWords * 8 - 4), CommandWord(addr), doRead]
  {
    var first := FirstPageLen(addr, pageSize, pageSmashingOk);
    assert ReadChunks(addr, 4 * lenWords, first, pageSize) == [Chunk(addr, 4 * lenWords)];
    Wrap32Small(lenWords * 8 - 4);
  }

  /** A read's commands come from chunks that tile the range: at least one
      chunk, the first within the room allowed in the first page, the
      others within a page, none crossing a page unless smashing is
      allowed, and three words per chunk. */
  lemma ReadCmdsCover(addr: nat, lenWords: nat, pageSize: nat, pageSmashingOk: bool, doRead: nat, doReadOne: nat)
    requires pageSize > 0
    ensures var first := FirstPageLen(addr, pageSize, pageSmashingOk);
            var cs := ReadChunks(addr, 4 * lenWords, first, pageSize);
            var cmds := ReadCmds(addr, lenWords, pageSize, pageSmashingOk, doRead, doReadOne);
            cmds == ReadTriples(cs, doRead, doReadOne) && |cmds| == 3 * |cs| && |cs| >= 1 &&
            ChunksTile(cs, addr, 4 * lenWords) && cs[0].len <= first &&
            (forall i :: 0 <= i < |cs| ==> cs[i].len <= pageSize) &&
            (!pageSmashingOk ==> ChunksInPages(cs, pageSize))
  {
    var first := FirstPageLen(addr, pageSize, pageSmashingOk);
    ReadChunksCover(addr, 4 * lenWords, first, pageSize);
    if !pageSmashingOk {
      ReadChunksInPages(addr, 4 * lenWords, first, pageSize);
    }
  }

  /** The sum of the read lengths of multi_read. */
  function Sum(lengths: seq<nat>): nat
    decreases |lengths|
  {
    if lengths == [] then 0 else Sum(lengths[..|lengths| - 1]) + lengths[|lengths| - 1]
  }

  /** The command list multi_read builds: each read's commands in turn. */
  function MultiReadCmds(addrs: seq<nat>, lengths: seq<nat>, pageSize: nat, pageSmashingOk: bool,
                         doRead: nat, doReadOne: nat): (r: seq<nat>)
    requires |addrs| == |lengths| && pageSize > 0
    ensures |r| >= 3 * |addrs|
    decreases |addrs|
  {
    if addrs == [] then []
    else
      var n := |addrs| - 1;
      ReadCmdsCover(addrs[n], lengths[n], pageSize, pageSmashingOk, doRead, doReadOne);
      MultiReadCmds(addrs[..n], lengths[..n], pageSize, pageSmashingOk, doRead, doReadOne) +
      ReadCmds(addrs[n], lengths[n], pageSize, pageSmashingOk, doRead, doReadOne)
  }

  /** The commands of the first k reads are a prefix of the whole list. */
  lemma {:induction false} MultiReadCmdsPrefix(addrs: seq<nat>, lengths: seq<nat>, pageSize: nat,
                                               pageSmashingOk: bool, doRead: nat, doReadOne: nat, k: nat)
    requires |addrs| == |lengths| && pageSize > 0 && k <= |addrs|
    ensures var whole := MultiReadCmds(addrs, lengths, pageSize, pageSmashingOk, doRead, doReadOne);
            var part := MultiReadCmds(addrs[..k], lengths[..k], pageSize, pageSmashingOk, doRead, doReadOne);
            |part| <= |whole| && whole[..|part|] == part
    decreases |addrs|
  {
    if k < |addrs| {
      var n := |addrs| - 1;
      MultiReadCmdsPrefix(addrs[..n], lengths[..n], pageSize, pageSmashingOk, doRead, doReadOne, k);
      assert addrs[..n][..k] == addrs[..k] && lengths[..n][..k] == lengths[..k];
    } else {
      assert addrs[..k] == addrs && lengths[..k] == lengths;
    }
  }

  /** One round of the page-crossing loop, unfolded, with the length as
      the loop's signed counter. */
  lemma CrossingStep(a: nat, len: int, pageLen: nat, pageSize: nat, d: nat)
    requires pageSize >= 4 && pageSize % 4 == 0 && 0 < pageLen && pageLen % 4 != 0 && len > pageLen
    ensures var n := SplitLen(pageLen, len);
            0 < pageSize - n <= pageSize && (pageSize - n) % 4 != 0 &&
            CrossingWrites(a, Max(len, 0), pageLen, pageSize, d) ==
            [BufferWrite(a, pageLen, d, pageLen / 4 + 1), WordWrite(a + pageLen, n, d + pageLen / 4, pageLen % 4)] +
            CrossingWrites(a + pageLen + n, Max(len - pageLen - n, 0), pageSize - n, pageSize, d + pageLen / 4 + 1)
  {
    SplitWordRest(pageSize, SplitLen(pageLen, len));
  }

  /** Once the range ends in the current page the crossing loop is done
      and the chunking loop sends the rest. */
  lemma CrossingExit(a: nat, len: nat, pageLen: nat, pageSize: nat, d: nat)
    requires pageSize >= 4 && pageSize % 4 == 0 && 0 < pageLen && pageLen % 4 != 0 && len <= pageLen
    ensures CrossingWrites(a, len, pageLen, pageSize, d) == ChunkWrites(a, len, pageLen, pageSize, d)
  {
  }

  /** One round of the chunking loop of write, unfolded. */
  lemma ChunkStep(a: nat, len: nat, first: nat, pageSize: nat, d: nat)
    requires first > 0 && pageSize > 0 && len > 0
    ensures var n := Min(first, len);
            ChunkWrites(a, len, first, pageSize, d) ==
            [BufferWrite(a, n, d, n / 4 + 1)] + ChunkWrites(a + n, len - n, pageSize, pageSize, d + n / 4)
  {
  }

  /** write_repeat's plan when it splits off the rest of the first page,
      with the lengths as write_repeat's signed counters. */
  lemma RepeatPlanSplit(addr: nat, lenInBytes: nat, w: bv32, pageSize: nat, first: nat)
    requires pageSize >= 4 && pageSize % 4 == 0 && lenInBytes < U32
    requires first == pageSize - addr % pageSize && first % 4 != 0 && Int32(lenInBytes) > first
    ensures RepeatWrites(addr, SignedLen(lenInBytes), w, pageSize, false) ==
            [RepeatWrite(addr, first, w, first / 4 + 1)] +
            RepeatChunks(addr + first, Max(Int32(lenInBytes - first), 0), pageSize, pageSize, RotateBytes(w, first % 4))
  {
  }

  /** write_repeat's plan when it does not split the first page. */
  lemma RepeatPlanWhole(addr: nat, lenInBytes: nat, w: bv32, pageSize: nat, pageSmashingOk: bool, first: nat)
    requires pageSize >= 4 && pageSize % 4 == 0 && lenInBytes < U32
    requires first == if pageSmashingOk then pageSize else pageSize - addr % pageSize
    requires pageSmashingOk || first % 4 == 0 || Int32(lenInBytes) <= first
    ensures first == FirstPageLen(addr, pageSize, pageSmashingOk)
    ensures RepeatWrites(addr, SignedLen(lenInBytes), w, pageSize, pageSmashingOk) ==
            RepeatChunks(addr, Max(Int32(lenInBytes), 0), first, pageSize, w)
  {
  }

  /** One round of the loop of add_read_to_cmd_buffer, unfolded. */
  lemma ReadStep(a: nat, rem: nat, first: nat, pageSize: nat, doRead: nat, doReadOne: nat)
    requires first > 0 && pageSize > 0
    ensures var n := Min(first, rem);
            ReadTriples(ReadChunks(a, rem, first, pageSize), doRead, doReadOne) ==
            ReadTriple(Chunk(a, n), doRead, doReadOne) +
            (if rem - n == 0 then [] else ReadTriples(ReadChunks(a + n, rem - n, pageSize, pageSize), doRead, doReadOne))
  {
    var n := Min(first, rem);
    var cs := ReadChunks(a, rem, first, pageSize);
    assert cs[0] == Chunk(a, n);
    assert cs[1..] == if rem - n == 0 then [] else ReadChunks(a + n, rem - n, pageSize, pageSize);
  }

  /** One more read in multi_read: its commands follow those of the reads
      before it, and its length adds to the total. */
  lemma MultiReadStep(addrs: seq<nat>, lengths: seq<nat>, pageSize: nat, pageSmashingOk: bool,
                      doRead: nat, doReadOne: nat, i: nat)
    requires |addrs| == |lengths| && pageSize > 0 && i < |addrs|
    ensures MultiReadCmds(addrs[..i + 1], lengths[..i + 1], pageSize, pageSmashingOk, doRead, doReadOne) ==
            MultiReadCmds(addrs[..i], lengths[..i], pageSize, pageSmashingOk, doRead, doReadOne) +
            ReadCmds(addrs[i], lengths[i], pageSize, pageSmashingOk, doRead, doReadOne)
    ensures Sum(lengths[..i + 1]) == Sum(lengths[..i]) + lengths[i]
  {
    assert addrs[..i + 1][..i] == addrs[..i];
    assert lengths[..i + 1][..i] == lengths[..i];
  }

  /** multi_read's 32-bit running total after one more read. */
  lemma TotalStep(lengths: seq<nat>, i: nat, total: nat)
    requires i < |lengths| && total == Wrap32(Sum(lengths[..i]))
    ensures Wrap32(total + lengths[i]) == Wrap32(Sum(lengths[..i + 1]))
  {
    assert lengths[..i + 1][..i] == lengths[..i];
    Wrap32Add(Sum(lengths[..i]), lengths[i]);
  }

  /** The buffer after one more read's commands were stored after the
      ones before it. */
  lemma AppendStored(before: seq<nat>, after: seq<nat>, p: nat, next: nat, done: seq<nat>, cmds: seq<nat>)
    requires |before| == |after| && p == |done| && next == p + |cmds| <= |after| && before[..p] == done
    requires forall k :: 0 <= k < |after| ==> after[k] == if p <= k < next then cmds[k - p] else before[k]
    ensures after[..next] == done + cmds
  {
    assert forall k :: 0 <= k < p ==> after[k] == before[..p][k];
  }

  lemma AppendTwo<T>(log: seq<T>, x: T, y: T)
    ensures (log + [x]) + [y] == log + [x, y]
  {
  }

  lemma Regroup<T>(log: seq<T>, done: seq<T>, rest: seq<T>)
    ensures log + (done + rest) == (log + done) + rest
  {
  }

  // ---------------------------------------------------------------------
  // The driver
  // ---------------------------------------------------------------------

  /** The driver's state as the transfer code sees it: the page size, the
      page-smashing setting chosen for the clock speed, the program
      addresses of the two read entry points (pio_offset plus their offsets
      in the PIO program), the multi-read command buffer, the flag that
      says whether the DMA channel is set up for writing, and the log of
      transfers started so far. */
  class APS6404 {
    const pageSize: nat
    const pageSmashingOk: bool
    const doRead: nat
    const doReadOne: nat
    const cmdBuffer: array<nat>
    var lastCmdWasWrite: bool
    var log: seq<Xfer>

    /** PAGE_SIZE is a power of two of at least 4 bytes; the model only
        needs it to be a whole number of words. */
    ghost predicate Valid()
    {
      pageSize >= 4 && pageSize % 4 == 0
    }

    constructor(pageSize: nat, pageSmashingOk: bool, doRead: nat, doReadOne: nat, cmdBufferLen: nat)
      requires pageSize >= 4 && pageSize % 4 == 0
      ensures Valid()
      ensures this.pageSize == pageSize && this.pageSmashingOk == pageSmashingOk
      ensures this.doRead == doRead && this.doReadOne == doReadOne
      ensures fresh(cmdBuffer) && cmdBuffer.Length == cmdBufferLen
      ensures !lastCmdWasWrite && log == []
    {
      this.pageSize := pageSize;
      this.pageSmashingOk := pageSmashingOk;
      this.doRead := doRead;
      this.doReadOne := doReadOne;
      cmdBuffer := new nat[cmdBufferLen];
      lastCmdWasWrite := false;
      log := [];
    }

    /** The page-crossing loop of write_no_page_crossing. It returns where
        it stopped: address, buffer word, bytes left and room in the page;
        what it sent, followed by the chunks from there, is what the whole
        crossing plan sends. */
    method CrossPages(addr: nat, dw: nat, len0: int, pageLen0: nat) returns (a: nat, d: nat, len: int, pageLen: nat)
      requires Valid() && 0 < pageLen0 <= pageSize && pageLen0 % 4 != 0
      modifies this`log
      ensures 0 < pageLen <= pageSize
      ensures old(log) + CrossingWrites(addr, Max(len0, 0), pageLen0, pageSize, dw) ==
              log + ChunkWrites(a, Max(len, 0), pageLen, pageSize, d)
    {
      a, d, len, pageLen := addr, dw, len0, pageLen0;
      ghost var goal := old(log) + CrossingWrites(addr, Max(len0, 0), pageLen0, pageSize, dw);
      ghost var todo := CrossingWrites(a, Max(len, 0), pageLen, pageSize, d);
      while len > pageLen
        invariant 0 < pageLen <= pageSize && pageLen % 4 != 0
        invariant todo == CrossingWrites(a, Max(len, 0), pageLen, pageSize, d)
        invariant goal == log + todo
        decreases len
      {
        CrossingStep(a, len, pageLen, pageSize, d);
        // The rest of the page from the buffer, then the bytes of the word
        // the DMA stopped in, bytesSentLastWord of which are already sent.
        var bytesSentLastWord := pageLen % 4;
        var wordLen := SplitLen(pageLen, len);
        var round := [BufferWrite(a, pageLen, d, pageLen / 4 + 1),
                      WordWrite(a + pageLen, wordLen, d + pageLen / 4, bytesSentLastWord)];
        ghost var rest := CrossingWrites(a + pageLen + wordLen, Max(len - pageLen - wordLen, 0), pageSize - wordLen,
                                         pageSize, d + pageLen / 4 + 1);
        Regroup(log, round, rest);
        log := log + round;
        a, d, len := a + pageLen + wordLen, d + pageLen / 4 + 1, len - pageLen - wordLen;
        pageLen := pageSize - wordLen;
        todo := rest;
      }
      CrossingExit(a, Max(len, 0), pageLen, pageSize, d);
    }

    /** The chunking loop of write and write_no_page_crossing: len bytes
        from buffer word d to address a, the first chunk at most `first`
        bytes and the others at most a page. A length of zero or less
        sends nothing. */
    method SendChunks(a0: nat, d0: nat, len0: int, first0: nat)
      requires Valid() && 0 < first0 <= pageSize
      modifies this`log
      ensures log == old(log) + ChunkWrites(a0, Max(len0, 0), first0, pageSize, d0)
    {
      var a: nat, d: nat, len := a0, d0, len0;
      var pageLen := Min(first0, len);
      ghost var first := first0;
      ghost var goal := old(log) + ChunkWrites(a0, Max(len0, 0), first0, pageSize, d0);
      ghost var todo := ChunkWrites(a, Max(len, 0), first, pageSize, d);
      while len > 0
        invariant 0 < first <= pageSize && (len > 0 ==> pageLen == Min(first, len))
        invariant todo == ChunkWrites(a, Max(len, 0), first, pageSize, d)
        invariant goal == log + todo
        decreases len
      {
        ChunkStep(a, len, first, pageSize, d);
        var x := BufferWrite(a, pageLen, d, pageLen / 4 + 1);
        ghost var rest := ChunkWrites(a + pageLen, len - pageLen, pageSize, pageSize, d + pageLen / 4);
        Regroup(log, [x], rest);
        log := log + [x];
        a, d, len := a + pageLen, d + pageLen / 4, len - pageLen;
        pageLen := Min(pageSize, len);
        first := pageSize;
        todo := rest;
      }
    }

    /** Writes len_in_bytes bytes from the buffer at word dw to addr without
        letting any transfer cross a page. */
    method WriteNoPageCrossing(addr: nat, dw: nat, lenInBytes: nat)
      requires Valid() && lenInBytes < U32
      modifies this`log
      ensures log == old(log) + NoCrossingWrites(addr, SignedLen(lenInBytes), pageSize, dw)
    {
      var len := Int32(lenInBytes);
      var pageLen: nat := pageSize - addr % pageSize;
      var a: nat, d: nat := addr, dw;
      if pageLen % 4 != 0 {
        a, d, len, pageLen := CrossPages(a, d, len, pageLen);
      }
      SendChunks(a, d, len, pageLen);
    }

    /** write: sets the DMA channel up for writing unless the last command
        already was a write, then sends the data in page-sized chunks, or
        without crossing pages when the clock is too fast for that. */
    method Write(addr: nat, dw: nat, lenInBytes: nat)
      requires Valid() && lenInBytes < U32
      modifies this
      ensures lastCmdWasWrite
      ensures log == old(log) + (if old(lastCmdWasWrite) then [] else [WriteSetup]) +
                     WriteXfers(addr, SignedLen(lenInBytes), pageSize, pageSmashingOk, dw)
    {
      if !lastCmdWasWrite {
        lastCmdWasWrite := true;
        log := log + [WriteSetup];
      }
      if !pageSmashingOk {
        WriteNoPageCrossing(addr, dw, lenInBytes);
        return;
      }
      SendChunks(addr, dw, Int32(lenInBytes), pageSize);
    }

    /** The chunking loop of write_repeat: the word repeated by the DMA for
        len bytes at a, the first chunk at most `first` bytes and the others
        at most a page. */
    method SendRepeatChunks(a0: nat, w: bv32, len0: int, first0: nat)
      requires Valid() && 0 < first0 <= pageSize
      modifies this`log
      ensures log == old(log) + RepeatChunks(a0, Max(len0, 0), first0, pageSize, w)
    {
      var a: nat, len := a0, len0;
      var pageLen := Min(first0, len);
      ghost var first := first0;
      ghost var goal := old(log) + RepeatChunks(a0, Max(len0, 0), first0, pageSize, w);
      ghost var todo := RepeatChunks(a, Max(len, 0), first, pageSize, w);
      while len > 0
        invariant 0 < first <= pageSize && (len > 0 ==> pageLen == Min(first, len))
        invariant todo == RepeatChunks(a, Max(len, 0), first, pageSize, w)
        invariant goal == log + todo
        decreases len
      {
        var x := RepeatWrite(a, pageLen, w, pageLen / 4 + 1);
        ghost var rest := RepeatChunks(a + pageLen, len - pageLen, pageSize, pageSize, w);
        assert todo == [x] + rest;
        Regroup(log, [x], rest);
        log := log + [x];
        a, len := a + pageLen, len - pageLen;
        pageLen := Min(pageSize, len);
        first := pageSize;
        todo := rest;
      }
    }

    /** The first-page step of write_repeat: when pages may not be crossed
        and the first page ends inside a word, the rest of that page is
        written on its own and the word rotated by the bytes already sent,
        so that the pattern carries on in step. It returns where the
        chunking loop starts: address, word, bytes left (unsigned, as the
        code keeps them) and the size of the first chunk. */
    method RepeatFirstPage(addr: nat, data: bv32, lenInBytes: nat) returns (a: nat, w: bv32, lenLeft: nat, firstPageLen: nat)
      requires Valid() && lenInBytes < U32
      modifies this`log
      ensures lenLeft < U32 && 0 < firstPageLen <= pageSize
      ensures old(log) + RepeatWrites(addr, SignedLen(lenInBytes), data, pageSize, pageSmashingOk) ==
              log + RepeatChunks(a, Max(Int32(lenLeft), 0), firstPageLen, pageSize, w)
    {
      a, w, lenLeft := addr, data, lenInBytes;
      firstPageLen := pageSize;
      if !pageSmashingOk {
        firstPageLen := firstPageLen - addr % pageSize;
        if firstPageLen % 4 != 0 && Int32(lenLeft) > firstPageLen {
          RepeatPlanSplit(addr, lenInBytes, data, pageSize, firstPageLen);
          var x := RepeatWrite(a, firstPageLen, w, firstPageLen / 4 + 1);
          Regroup(log, [x], RepeatChunks(a + firstPageLen, Max(Int32(lenLeft - firstPageLen), 0), pageSize, pageSize,
                                         RotateBytes(w, firstPageLen % 4)));
          log := log + [x];
          lenLeft := lenLeft - firstPageLen;
          a := a + firstPageLen;
          var bytesSentLastWord := firstPageLen % 4;
          firstPageLen := pageSize;
          w := RotateBytes(w, bytesSentLastWord);
          return;
        }
      }
      RepeatPlanWhole(addr, lenInBytes, data, pageSize, pageSmashingOk, firstPageLen);
    }

    /** write_repeat: fills len_in_bytes bytes at addr with the word data
        repeated. When pages may not be crossed and the first page ends
        inside a word, the rest of that page is written on its own and the
        word rotated so that the pattern carries on in step. */
    method WriteRepeat(addr: nat, data: bv32, lenInBytes: nat)
      requires Valid() && lenInBytes < U32
      modifies this
      ensures lastCmdWasWrite
      ensures log == old(log) + (if old(lastCmdWasWrite) then [] else [WriteSetup]) +
                     RepeatWrites(addr, SignedLen(lenInBytes), data, pageSize, pageSmashingOk)
    {
      if !lastCmdWasWrite {
        lastCmdWasWrite := true;
        log := log + [WriteSetup];
      }
      var a, w, lenLeft, firstPageLen := RepeatFirstPage(addr, data, lenInBytes);
      SendRepeatChunks(a, w, Int32(lenLeft), firstPageLen);
    }

    /** The body of the loop of add_read_to_cmd_buffer: the command triple
        for len bytes at a, stored at p, after the commands done already
        stored from pos; the rest of the buffer keeps its contents orig. */
    method PutChunk(pos: nat, p: nat, a: nat, len: nat, ghost done: seq<nat>, ghost orig: seq<nat>)
      requires p == pos + |done| && p + 3 <= cmdBuffer.Length
      requires StoredOver(cmdBuffer[..], orig, pos, done)
      modifies cmdBuffer
      ensures StoredOver(cmdBuffer[..], orig, pos, done + ReadTriple(Chunk(a, len), doRead, doReadOne))
    {
      if len < 2 {
        cmdBuffer[p] := 0;
        cmdBuffer[p + 1] := CommandWord(a);
        cmdBuffer[p + 2] := doReadOne;
      } else {
        cmdBuffer[p] := len * 2 - 4;
        cmdBuffer[p + 1] := CommandWord(a);
        cmdBuffer[p + 2] := doRead;
      }
    }

    /** The loop of add_read_to_cmd_buffer, from position pos: chunk after
        chunk of the lenRemaining bytes left at a, the first of len bytes,
        each stored as its command triple. */
    method StoreChunks(pos: nat, a0: nat, lenRemaining0: int, first0: nat, len0: nat) returns (next: nat)
      requires Valid() && 0 < first0 <= pageSize && 0 <= lenRemaining0 && len0 == Min(first0, lenRemaining0)
      requires pos + |StoredCmds(a0, lenRemaining0, first0, pageSize, doRead, doReadOne)| <= cmdBuffer.Length
      modifies cmdBuffer
      ensures var cmds := StoredCmds(a0, lenRemaining0, first0, pageSize, doRead, doReadOne);
              next == pos + |cmds| &&
              forall i :: 0 <= i < cmdBuffer.Length ==>
                cmdBuffer[i] == if pos <= i < next then cmds[i - pos] else old(cmdBuffer[i])
    {
      ghost var cmds := StoredCmds(a0, lenRemaining0, first0, pageSize, doRead, doReadOne);
      var a: nat, lenRemaining: int, len: nat := a0, lenRemaining0, len0;
      var p := pos;
      ghost var first := first0;
      ghost var rem: nat := lenRemaining0;
      ghost var done: seq<nat> := [];
      ghost var todo := cmds;
      ghost var orig := cmdBuffer[..];
      while true
        invariant 0 < first <= pageSize && rem == lenRemaining && len == Min(first, rem)
        invariant p == pos + |done| && cmds == done + todo
        invariant todo == StoredCmds(a, rem, first, pageSize, doRead, doReadOne)
        invariant StoredOver(cmdBuffer[..], orig, pos, done)
        decreases lenRemaining
      {
        var t := ReadTriple(Chunk(a, len), doRead, doReadOne);
        StoredHead(a, rem, first, pageSize, doRead, doReadOne, len);
        PutChunk(pos, p, a, len, done, orig);
        p := p + 3;
        lenRemaining := lenRemaining - len;
        if lenRemaining <= 0 {
          StoredLast(a, rem, first, pageSize, doRead, doReadOne, len);
          done := done + t;
          assert cmds == done;
          break;
        }
        ghost var rest := StoredCmds(a + len, rem - len, pageSize, pageSize, doRead, doReadOne);
        StoredStep(a, rem, first, pageSize, doRead, doReadOne, len);
        Regroup(done, t, rest);
        done := done + t;
        todo := rest;
        rem := rem - len;
        a := a + len;
        len := lenRemaining;
        if len > pageSize {
          len := pageSize;
        }
        first := pageSize;
      }
      next := p;
      StoredOverAt(cmdBuffer[..], orig, pos, cmds);
    }

    /** add_read_to_cmd_buffer: stores the command triples of a read of
        lenWords words at addr into the command buffer from position pos
        and returns the position after them; the rest of the buffer is
        left as it was. */
    method AddReadToCmdBuffer(pos: nat, addr: nat, lenWords: nat) returns (next: nat)
      requires Valid() && lenWords < 0x2000_0000
      requires pos + |ReadCmds(addr, lenWords, pageSize, pageSmashingOk, doRead, doReadOne)| <= cmdBuffer.Length
      modifies cmdBuffer
      ensures var cmds := ReadCmds(addr, lenWords, pageSize, pageSmashingOk, doRead, doReadOne);
              next == pos + |cmds| &&
              forall i :: 0 <= i < cmdBuffer.Length ==>
                cmdBuffer[i] == if pos <= i < next then cmds[i - pos] else old(cmdBuffer[i])
    {
      var lenRemaining: int := 4 * lenWords;
      var align := if pageSmashingOk then 0 else addr % pageSize;
      var len: nat := Min(pageSize - align, lenRemaining);
      assert pageSize - align == FirstPageLen(addr, pageSize, pageSmashingOk);
      StoredCmdsAreTriples(addr, lenRemaining, pageSize - align, pageSize, doRead, doReadOne);
      next := StoreChunks(pos, addr, lenRemaining, pageSize - align, len);
    }

    /** read: arms the read DMA channel for lenWords words, then sends the
        read command straight to the PIO when the read fits in the first
        page, and otherwise builds the command list in the buffer and has
        the command DMA channel send it. */
    method Read(addr: nat, lenWords: nat)
      requires Valid() && lenWords < 0x2000_0000
      requires FirstPageLen(addr, pageSize, pageSmashingOk) < 4 * lenWords ==>
               |ReadCmds(addr, lenWords, pageSize, pageSmashingOk, doRead, doReadOne)| <= cmdBuffer.Length
      modifies this, cmdBuffer
      ensures !lastCmdWasWrite
      ensures var cmds := ReadCmds(addr, lenWords, pageSize, pageSmashingOk, doRead, doReadOne);
              if FirstPageLen(addr, pageSize, pageSmashingOk) >= 4 * lenWords then
                log == old(log) + [ReadStart(lenWords, -1), ReadDirect([Wrap32(lenWords * 8 - 4), CommandWord(addr), doRead])]
              else
                |cmds| <= cmdBuffer.Length && cmdBuffer[..|cmds|] == cmds &&
                log == old(log) + [ReadStart(lenWords, -1), ReadCommands(cmds)]
    {
      StartRead(lenWords, -1);
      var firstPageLen := pageSize;
      if !pageSmashingOk {
        firstPageLen := firstPageLen - addr % pageSize;
      }
      if firstPageLen >= lenWords * 4 {
        log := log + [ReadDirect([Wrap32(lenWords * 8 - 4), CommandWord(addr), doRead])];
      } else {
        var n := AddReadToCmdBuffer(0, addr, lenWords);
        log := log + [ReadCommands(cmdBuffer[..n])];
      }
    }

    /** multi_read: stores the commands of every read in turn in the
        buffer, arms the read DMA channel for the total length (a 32-bit
        sum) chained as asked, and has the command DMA channel send the
        whole list. */
    method MultiRead(addresses: seq<nat>, lengths: seq<nat>, chain: int)
      requires Valid() && |addresses| == |lengths|
      requires forall i :: 0 <= i < |lengths| ==> lengths[i] < 0x2000_0000
      requires |MultiReadCmds(addresses, lengths, pageSize, pageSmashingOk, doRead, doReadOne)| <= cmdBuffer.Length
      modifies this, cmdBuffer
      ensures !lastCmdWasWrite
      ensures var cmds := MultiReadCmds(addresses, lengths, pageSize, pageSmashingOk, doRead, doReadOne);
              cmdBuffer[..|cmds|] == cmds &&
              log == old(log) + [ReadStart(Wrap32(Sum(lengths)), chain), ReadCommands(cmds)]
    {
      var p, total := StoreReads(addresses, lengths);
      StartRead(total, chain);
      log := log + [ReadCommands(cmdBuffer[..p])];
    }

    /** multi_read's loop: the commands of every read stored one after the
        other from the start of the buffer, and the 32-bit total length. */
    method StoreReads(addresses: seq<nat>, lengths: seq<nat>) returns (p: nat, total: nat)
      requires Valid() && |addresses| == |lengths|
      requires forall i :: 0 <= i < |lengths| ==> lengths[i] < 0x2000_0000
      requires |MultiReadCmds(addresses, lengths, pageSize, pageSmashingOk, doRead, doReadOne)| <= cmdBuffer.Length
      modifies cmdBuffer
      ensures var cmds := MultiReadCmds(addresses, lengths, pageSize, pageSmashingOk, doRead, doReadOne);
              p == |cmds| && cmdBuffer[..p] == cmds
      ensures total == Wrap32(Sum(lengths))
    {
      total := 0;
      p := 0;
      var i := 0;
      ghost var done: seq<nat> := [];
      while i < |addresses|
        invariant 0 <= i <= |addresses| && total == Wrap32(Sum(lengths[..i]))
        invariant done == MultiReadCmds(addresses[..i], lengths[..i], pageSize, pageSmashingOk, doRead, doReadOne)
        invariant p == |done| <= cmdBuffer.Length && cmdBuffer[..p] == done
      {
        TotalStep(lengths, i, total);
        total := Wrap32(total + lengths[i]);
        p := StoreRead(addresses, lengths, i, p, done);
        done := MultiReadCmds(addresses[..i + 1], lengths[..i + 1], pageSize, pageSmashingOk, doRead, doReadOne);
        i := i + 1;
      }
      assert addresses[..i] == addresses && lengths[..i] == lengths;
    }

    /** One turn of multi_read's loop: read i's commands stored after those
        of the reads before it. */
    method StoreRead(addresses: seq<nat>, lengths: seq<nat>, i: nat, p: nat, ghost done: seq<nat>) returns (next: nat)
      requires Valid() && |addresses| == |lengths| && i < |addresses| && lengths[i] < 0x2000_0000
      requires |MultiReadCmds(addresses, lengths, pageSize, pageSmashingOk, doRead, doReadOne)| <= cmdBuffer.Length
      requires done == MultiReadCmds(addresses[..i], lengths[..i], pageSize, pageSmashingOk, doRead, doReadOne)
      requires p == |done| <= cmdBuffer.Length && cmdBuffer[..p] == done
      modifies cmdBuffer
      ensures var after := MultiReadCmds(addresses[..i + 1], lengths[..i + 1], pageSize, pageSmashingOk, doRead, doReadOne);
              next == |after| <= cmdBuffer.Length && cmdBuffer[..next] == after
    {
      ghost var cmds := ReadCmds(addresses[i], lengths[i], pageSize, pageSmashingOk, doRead, doReadOne);
      MultiReadStep(addresses, lengths, pageSize, pageSmashingOk, doRead, doReadOne, i);
      MultiReadCmdsPrefix(addresses, lengths, pageSize, pageSmashingOk, doRead, doReadOne, i + 1);
      ghost var before := cmdBuffer[..];
      next := AddReadToCmdBuffer(p, addresses[i], lengths[i]);
      AppendStored(before, cmdBuffer[..], p, next, done, cmds);
    }

    /** start_read: the read DMA channel armed for the whole read; the
        channel is no longer set up for writing. */
    method StartRead(totalWords: nat, chain: int)
      modifies this
      ensures !lastCmdWasWrite
      ensures log == old(log) + [ReadStart(totalWords, chain)]
    {
      lastCmdWasWrite := false;
      log := log + [ReadStart(totalWords, chain)];
    }

  }
}
