/** Little-endian byte views of the 16- and 32-bit words that the drivers
    hand to the PSRAM and the I2C bus. The RP2040 is little-endian, so a
    word written to RAM lands there as its low byte first. */
module Bytes {
  /** Byte j (0 = least significant) of a 32-bit word. */
  function ByteOf(w: bv32, j: nat): bv8
    requires j < 4
  {
    if j == 0 then (w & 0xFF) as bv8
    else if j == 1 then ((w >> 8) & 0xFF) as bv8
    else if j == 2 then ((w >> 16) & 0xFF) as bv8
    else (w >> 24) as bv8
  }

  /** The four bytes of a word, in memory order. */
  function WordLe(w: bv32): seq<bv8>
  {
    [ByteOf(w, 0), ByteOf(w, 1), ByteOf(w, 2), ByteOf(w, 3)]
  }

  /** The memory image of a buffer of words. */
  function WordsLe(ws: seq<bv32>): (r: seq<bv8>)
    ensures |r| == 4 * |ws|
  {
    seq(4 * |ws|, i requires 0 <= i < 4 * |ws| => ByteOf(ws[i / 4], i % 4))
  }

  /** The two bytes of a 16-bit value, low byte first. */
  function HalfLe(h: bv16): seq<bv8>
  {
    [(h & 0xFF) as bv8, (h >> 8) as bv8]
  }

  /** The memory image of a buffer of 16-bit values. */
  function HalvesLe(hs: seq<bv16>): (r: seq<bv8>)
    ensures |r| == 2 * |hs|
  {
    if hs == [] then [] else HalfLe(hs[0]) + HalvesLe(hs[1..])
  }

  /** The image of a buffer splits after its first value. */
  lemma HalvesLeFirst(hs: seq<bv16>)
    requires |hs| > 0
    ensures HalvesLe(hs)[..2] == HalfLe(hs[0]) && HalvesLe(hs)[2..] == HalvesLe(hs[1..])
  {
  }

  /** The memory image of a buffer of uint16_t values held as integers. */
  function Uint16sLe(hs: seq<nat>): (r: seq<bv8>)
    ensures |r| == 2 * |hs|
  {
    if hs == [] then [] else LeBytes(hs[0], 2) + Uint16sLe(hs[1..])
  }

  /** Reads a 32-bit word back from its memory image. */
  function WordFromLe(b0: bv8, b1: bv8, b2: bv8, b3: bv8): bv32
  {
    (b0 as bv32) | ((b1 as bv32) << 8) | ((b2 as bv32) << 16) | ((b3 as bv32) << 24)
  }

  /** Writing a word and reading it back gives the same word. */
  lemma WordRoundTrip(w: bv32)
    ensures WordFromLe(ByteOf(w, 0), ByteOf(w, 1), ByteOf(w, 2), ByteOf(w, 3)) == w
  {
  }

  lemma {:induction false} HalvesLeAt(hs: seq<bv16>, k: nat)
    requires k < |hs|
    ensures HalvesLe(hs)[2 * k] == HalfLe(hs[k])[0]
    ensures HalvesLe(hs)[2 * k + 1] == HalfLe(hs[k])[1]
  {
    var head, rest := HalfLe(hs[0]), HalvesLe(hs[1..]);
    assert HalvesLe(hs) == head + rest;
    if k > 0 {
      HalvesLeAt(hs[1..], k - 1);
      assert hs[1..][k - 1] == hs[k];
      assert HalvesLe(hs)[2 * k] == rest[2 * (k - 1)];
      assert HalvesLe(hs)[2 * k + 1] == rest[2 * (k - 1) + 1];
    }
  }

  /** Half j (0 = low) of a 32-bit word. */
  function Half(w: bv32, j: nat): bv16
    requires j < 2
  {
    if j == 0 then (w & 0xFFFF) as bv16 else (w >> 16) as bv16
  }

  /** The first n 16-bit values packed two to a word, low half first. */
  function WordHalves(ws: seq<bv32>, n: nat): (r: seq<bv16>)
    requires n <= 2 * |ws|
    ensures |r| == n
  {
    seq(n, k requires 0 <= k < n => Half(ws[k / 2], k % 2))
  }

  /** The first 2n bytes of a buffer of words are the memory image of its
      first n halves. */
  lemma {:induction false} WordsLeAsHalves(ws: seq<bv32>, n: nat)
    requires n <= 2 * |ws|
    ensures WordsLe(ws)[..2 * n] == HalvesLe(WordHalves(ws, n))
  {
    if n > 0 {
      var m := n - 1;
      WordsLeAsHalves(ws, m);
      var h := Half(ws[m / 2], m % 2);
      assert WordHalves(ws, n) == WordHalves(ws, m) + [h];
      HalvesLeAppend(WordHalves(ws, m), h);
      HalfLeOfWord(ws[m / 2], m % 2);
      WordsLePair(ws, m);
      PrefixStep2(WordsLe(ws), 2 * m);
    }
  }

  lemma HalfLeOfWord(w: bv32, j: nat)
    requires j < 2
    ensures HalfLe(Half(w, j)) == [ByteOf(w, 2 * j), ByteOf(w, 2 * j + 1)]
  {
    if j == 0 {
      LowHalfBytes(w);
    } else {
      HighHalfBytes(w);
    }
  }

  lemma LowHalfBytes(w: bv32)
    ensures HalfLe(Half(w, 0)) == [ByteOf(w, 0), ByteOf(w, 1)]
  {
    HalfByte0(w);
    HalfByte1(w);
  }

  lemma HighHalfBytes(w: bv32)
    ensures HalfLe(Half(w, 1)) == [ByteOf(w, 2), ByteOf(w, 3)]
  {
    HalfByte2(w);
    HalfByte3(w);
  }

  lemma HalfByte0(w: bv32)
    ensures (Half(w, 0) & 0xFF) as bv8 == ByteOf(w, 0)
  {
  }

  lemma HalfByte1(w: bv32)
    ensures (Half(w, 0) >> 8) as bv8 == ByteOf(w, 1)
  {
  }

  lemma HalfByte2(w: bv32)
    ensures (Half(w, 1) & 0xFF) as bv8 == ByteOf(w, 2)
  {
  }

  lemma HalfByte3(w: bv32)
    ensures (Half(w, 1) >> 8) as bv8 == ByteOf(w, 3)
  {
  }

  lemma WordsLePair(ws: seq<bv32>, m: nat)
    requires m < 2 * |ws|
    ensures WordsLe(ws)[2 * m] == ByteOf(ws[m / 2], 2 * (m % 2))
    ensures WordsLe(ws)[2 * m + 1] == ByteOf(ws[m / 2], 2 * (m % 2) + 1)
  {
    HalfPosition(m);
  }

  lemma PrefixStep2<T>(s: seq<T>, k: nat)
    requires k + 2 <= |s|
    ensures s[..k + 2] == s[..k] + [s[k], s[k + 1]]
  {
  }

  lemma HalfPosition(m: nat)
    ensures (2 * m) / 4 == m / 2 && (2 * m) % 4 == 2 * (m % 2)
    ensures (2 * m + 1) / 4 == m / 2 && (2 * m + 1) % 4 == 2 * (m % 2) + 1
  {
  }

  /** Changing one word leaves the bytes of every other word as they were. */
  lemma WordsLeUpdate(ws: seq<bv32>, i: nat, w: bv32, k: nat)
    requires i < |ws| && k < 4 * |ws| && k / 4 != i
    ensures WordsLe(ws[i := w])[k] == WordsLe(ws)[k]
  {
  }

  /** The memory image of three words. */
  lemma WordsLe3(ws: seq<bv32>)
    requires |ws| == 3
    ensures WordsLe(ws) == WordLe(ws[0]) + WordLe(ws[1]) + WordLe(ws[2])
  {
    assert WordsLe(ws)[0] == ByteOf(ws[0], 0);
  }

  /** Two concatenated strings split back at the first one's length. */
  lemma ConcatSplit<T>(a: seq<T>, b: seq<T>)
    ensures (a + b)[..|a|] == a && (a + b)[|a|..] == b
  {
  }

  lemma HalvesLeAppend(hs: seq<bv16>, h: bv16)
    ensures HalvesLe(hs + [h]) == HalvesLe(hs) + HalfLe(h)
  {
    if hs != [] {
      assert (hs + [h])[1..] == hs[1..] + [h];
      HalvesLeAppend(hs[1..], h);
    }
  }

  function Pow256(n: nat): (p: nat)
    ensures p >= 1
  {
    if n == 0 then 1 else 256 * Pow256(n - 1)
  }

  /** The n low bytes of an integer in two's complement, least significant
      first: what `(v >> 8k) & 0xFF` for k < n writes. */
  function LeBytes(v: int, n: nat): (r: seq<bv8>)
    ensures |r| == n
    decreases n
  {
    if n == 0 then [] else [LowByte(v)] + LeBytes(v / 256, n - 1)
  }

  /** The low byte of an integer in two's complement: `(uint8_t)v`. */
  function LowByte(v: int): (b: bv8)
    ensures b as int == v % 256
  {
    ByteConv(v % 256);
    (v % 256) as bv8
  }

  /** The unsigned value of a little-endian byte string. */
  function LeValue(bs: seq<bv8>): (v: nat)
    ensures v < Pow256(|bs|)
  {
    if bs == [] then 0 else bs[0] as nat + 256 * LeValue(bs[1..])
  }

  /** Reading the n bytes back gives v modulo 256^n, which is v itself for
      every v in [0, 256^n) and its two's-complement image for a negative v. */
  lemma {:induction false} LeBytesRoundTrip(v: int, n: nat)
    ensures LeValue(LeBytes(v, n)) == v % Pow256(n)
    decreases n
  {
    if n > 0 {
      var p := Pow256(n - 1);
      var rest := LeBytes(v / 256, n - 1);
      var b := LowByte(v);
      assert LeBytes(v, n) == [b] + rest;
      LeValueCons(b, rest);
      LeBytesRoundTrip(v / 256, n - 1);
      DivModStep(v, p);
      assert Pow256(n) == 256 * p;
    }
  }

  lemma ByteConv(x: int)
    requires 0 <= x < 256
    ensures (x as bv8) as nat == x
  {
    ByteBack(CountByte(x));
  }

  /** The byte x, counted up from zero. */
  function CountByte(x: nat): (b: bv8)
    requires x < 256
    ensures b as int == x
  {
    if x == 0 then 0 else CountByte(x - 1) + 1
  }

  lemma ByteBack(b: bv8)
    ensures (b as int) as bv8 == b
  {
  }

  lemma LeValueCons(b: bv8, rest: seq<bv8>)
    ensures LeValue([b] + rest) == b as nat + 256 * LeValue(rest)
  {
    assert ([b] + rest)[1..] == rest;
  }

  lemma DivModStep(v: int, p: nat)
    requires p >= 1
    ensures v % (256 * p) == v % 256 + 256 * ((v / 256) % p)
  {
    var q := v / 256;
    var r := v % 256;
    var qq := q / p;
    var qr := q % p;
    assert v == 256 * p * qq + (256 * qr + r);
    assert 0 <= 256 * qr + r < 256 * p;
    ModUnique(v, 256 * p, qq, 256 * qr + r);
  }

  lemma ModUnique(v: int, m: int, q: int, r: int)
    requires m > 0 && v == m * q + r && 0 <= r < m
    ensures v % m == r
  {
    var q', r' := v / m, v % m;
    assert m * (q - q') == r' - r;
    if q - q' >= 1 {
      MulAtLeast(m, q - q');
    } else if q' - q >= 1 {
      MulAtLeast(m, q' - q);
    }
  }

  /** Quotient and remainder are determined by any decomposition
      v == m * q + r with 0 <= r < m. */
  lemma DivModUnique(v: int, m: int, q: int, r: int)
    requires m > 0 && v == m * q + r && 0 <= r < m
    ensures v / m == q && v % m == r
  {
    ModUnique(v, m, q, r);
  }

  lemma MulAtLeast(m: int, k: int)
    requires m > 0 && k >= 1
    ensures m * k >= m
  {
  }

  const U32: nat := 0x1_0000_0000

  /** Drivers compute addresses in 32-bit unsigned arithmetic. */
  function Wrap32(v: int): (r: nat)
    ensures r < U32
  {
    v % U32
  }

  /** A value that fits is not changed by the wrap-around. */
  lemma Wrap32Small(v: int)
    requires 0 <= v < U32
    ensures Wrap32(v) == v
  {
  }

  /** Adding after a wrap-around is the same as wrapping once at the end. */
  lemma Wrap32Add(a: int, b: int)
    ensures Wrap32(Wrap32(a) + b) == Wrap32(a + b)
  {
    var q := a / U32;
    assert a == U32 * q + Wrap32(a);
    assert a + b == U32 * q + (Wrap32(a) + b);
    var r := Wrap32(a) + b;
    ModUnique(a + b, U32, q + r / U32, r % U32);
  }

  /** A 32-bit value as a machine word. */
  function Word(n: nat): (w: bv32)
    requires n < U32
  {
    n as bv32
  }

  /** A uint32_t read as int32_t (two's complement). */
  function Int32(v: nat): (r: int)
    requires v < U32
    ensures -0x8000_0000 <= r < 0x8000_0000
    ensures (r >= 0) == (v < 0x8000_0000)
    ensures r % U32 == v
  {
    if v < 0x8000_0000 then v else v - U32
  }

  /** std::min and std::max on integers. */
  function Min(a: int, b: int): int
  {
    if a < b then a else b
  }

  function Max(a: int, b: int): int
  {
    if a < b then b else a
  }

}
