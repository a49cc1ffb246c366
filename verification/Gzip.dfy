/**
 The gzip file format (RFC 1952) read back by an independent decoder, and the
 part of deflate (RFC 1951) that the feed builds by hand.

 Compressed blocks are decoded by a parameter, `Codec`: it stands for a decoder
 of the Huffman-coded block types. It is given everything decoded so far, so a
 block may refer back to earlier text; what is proved holds for every compressor
 whose flushes decode behind the text they follow.
 */
module Gzip {
  import opened Collections

  type Byte = n: int | 0 <= n < 256

  // ------------------------------------------------------------------ CRC-32

  /** The reflected polynomial of RFC 1952 section 8, one bit at a time. */
  function CrcShift(c: bv32, bits: nat): bv32
    decreases bits
  {
    if bits == 0 then c
    else CrcShift(if c & 1 == 1 then 0xEDB8_8320 ^ (c >> 1) else c >> 1, bits - 1)
  }

  function CrcByte(c: bv32, b: Byte): bv32 {
    CrcShift(c ^ (b as bv32), 8)
  }

  function Fold<S>(step: (S, Byte) -> S, s: S, data: seq<Byte>): S
    decreases |data|
  {
    if data == [] then s else Fold(step, step(s, data[0]), data[1..])
  }

  lemma {:induction false} FoldAppend<S>(step: (S, Byte) -> S, s: S, a: seq<Byte>, b: seq<Byte>)
    ensures Fold(step, s, a + b) == Fold(step, Fold(step, s, a), b)
    decreases |a|
  {
    if a == [] {
      assert a + b == b;
    } else {
      assert (a + b)[0] == a[0] && (a + b)[1..] == a[1..] + b;
      FoldAppend(step, step(s, a[0]), a[1..], b);
    }
  }

  function Complement(c: bv32): bv32 {
    !c
  }

  lemma ComplementTwice(c: bv32)
    ensures Complement(Complement(c)) == c
  {}

  function CrcUpdate(c: bv32, data: seq<Byte>): bv32 {
    Fold((register: bv32, b: Byte) => CrcByte(register, b), c, data)
  }

  /** zlib's crc32(data, start): the complement is taken going in and coming out. */
  function Crc32(data: seq<Byte>, start: bv32): bv32 {
    Complement(CrcUpdate(Complement(start), data))
  }

  /** The checksum of the one letter "a": the polynomial, bit order and complements are the ones gzip uses. */
  lemma CrcOfA()
    ensures Crc32([0x61], 0) == 0xE8B7_BE43
  {
    var data: seq<Byte> := [0x61];
    assert data[1..] == [];
    assert CrcByte(0xffff_ffff, 0x61) == 0x1748_41BC;
  }

  /** And of the two bytes of an accented letter, whose top bits are set. */
  lemma CrcOfTwoBytes()
    ensures Crc32([0xC3, 0xA9], 0) == 0x0E04_8D3E
  {
    var data: seq<Byte> := [0xC3, 0xA9];
    assert data[1..] == [0xA9] && data[1..][1..] == [];
    assert CrcByte(0xFFFF_FFFF, 0xC3) == 0x2F90_8378;
    assert CrcByte(0x2F90_8378, 0xA9) == 0xF1FB_72C1;
  }

  /** Chaining the checksum over pieces gives the checksum of the whole. */
  lemma CrcChains(a: seq<Byte>, b: seq<Byte>, start: bv32)
    ensures Crc32(b, Crc32(a, start)) == Crc32(a + b, start)
  {
    var step := (register: bv32, b: Byte) => CrcByte(register, b);
    var first := Complement(start);
    FoldAppend(step, first, a, b);
    ComplementTwice(CrcUpdate(first, a));
  }

  // --------------------------------------------------------- Little endian

  const TWO32: nat := 0x1_0000_0000

  function Le16Value(low: int, high: int): int {
    low + 256 * high
  }

  function Le32Value(b: seq<Byte>): int
    requires |b| == 4
  {
    Le16Value(b[0], b[1]) + 65536 * Le16Value(b[2], b[3])
  }

  function Le32(n: nat): (r: seq<Byte>)
    requires n < TWO32
    ensures |r| == 4
  {
    [n % 256, n / 256 % 256, n / 65536 % 256, n / 16777216]
  }

  lemma Le32RoundTrip(n: nat)
    requires n < TWO32
    ensures Le32Value(Le32(n)) == n
  {
    assert n / 65536 == n / 256 / 256;
    assert n / 16777216 == n / 65536 / 256;
  }

  // ------------------------------------------------------------------ Inflate

  /** What a run of Huffman-coded blocks decodes to: a run ends where a block next starts on a byte boundary. */
  datatype Run = Run(plain: seq<Byte>, used: nat, last: bool)

  /** Decodes one run, given everything already decoded (the window) and the bytes that follow. */
  type Codec = (seq<Byte>, seq<Byte>) -> Option<Run>

  datatype Inflated = Inflated(plain: seq<Byte>, rest: seq<Byte>) | Corrupt

  /** Decodes blocks starting on a byte boundary until the final one. */
  function Inflate(codec: Codec, window: seq<Byte>, data: seq<Byte>): Inflated
    decreases |data|
  {
    if |data| == 0 then Corrupt
    else if data[0] / 2 % 4 == 0 then
      // Stored (RFC 1951 section 3.2.4): the rest of the header byte is padding.
      if |data| < 5 then Corrupt else
      var length := Le16Value(data[1], data[2]);
      if Le16Value(data[3], data[4]) != 65535 - length || |data| < 5 + length then Corrupt
      else if data[0] % 2 == 1 then Inflated(window + data[5..5 + length], data[5 + length..])
      else Inflate(codec, window + data[5..5 + length], data[5 + length..])
    else
      match codec(window, data)
      case None => Corrupt
      case Some(run) =>
        if run.used == 0 || run.used > |data| then Corrupt
        else if run.last then Inflated(window + run.plain, data[run.used..])
        else Inflate(codec, window + run.plain, data[run.used..])
  }

  /** The eight bytes after the last block: checksum and length of the uncompressed data. */
  function Trailer(plain: seq<Byte>): (r: seq<Byte>)
    ensures |r| == 8
  {
    Le32(Crc32(plain, 0) as nat) + Le32(|plain| % TWO32)
  }

  lemma SmallShiftShows(n: nat, k: nat)
    requires 0 < k < TWO32
    ensures (n + k) % TWO32 != n % TWO32
  {
    var q, r := n / TWO32, n % TWO32;
    if r + k < TWO32 {
      assert (n + k) / TWO32 == q;
    } else {
      assert (n + k) / TWO32 == q + 1;
    }
  }

  datatype GunzipResult = Ok(plain: seq<Byte>) | BadHeader | BadDeflate | BadTrailer

  /** Decodes a file that must consist of exactly one member (RFC 1952 section 2.3) with no optional fields. */
  function Gunzip(codec: Codec, file: seq<Byte>): GunzipResult {
    if |file| < 10 || file[0] != 0x1f || file[1] != 0x8b || file[2] != 8 || file[3] != 0 then BadHeader
    else match Inflate(codec, [], file[10..])
      case Corrupt => BadDeflate
      case Inflated(plain, rest) =>
        if rest == Trailer(plain) then Ok(plain) else BadTrailer
  }

  /** Decoding consumes a front part of the data and adds to what is there. */
  lemma {:induction false} InflateConsumes(codec: Codec, window: seq<Byte>, data: seq<Byte>)
    requires Inflate(codec, window, data).Inflated?
    ensures var r := Inflate(codec, window, data);
            |r.rest| < |data| && data[|data| - |r.rest|..] == r.rest && window <= r.plain
    decreases |data|
  {
    if data[0] / 2 % 4 == 0 {
      var length := Le16Value(data[1], data[2]);
      if data[0] % 2 == 0 {
        InflateConsumes(codec, window + data[5..5 + length], data[5 + length..]);
      }
    } else {
      var run := codec(window, data).value;
      if !run.last {
        InflateConsumes(codec, window + run.plain, data[run.used..]);
      }
    }
  }

  function BigValue(a: int, b: int, c: int, d: int): int {
    16777216 * a + 65536 * b + 256 * c + d
  }

  /**
   A file is accepted only if it opens with the four bytes of a gzip member with no
   optional fields, and ends with the checksum and then the length of what it
   decodes to, each with its lowest byte first.
   */
  lemma OkMeansGzip(codec: Codec, file: seq<Byte>)
    requires Gunzip(codec, file).Ok?
    ensures |file| > 18 && file[..4] == [0x1f, 0x8b, 8, 0]
    ensures var plain, t := Gunzip(codec, file).plain, file[|file| - 8..];
            && BigValue(t[3], t[2], t[1], t[0]) == Crc32(plain, 0) as int
            && BigValue(t[7], t[6], t[5], t[4]) == |plain| % TWO32
  {
    hide Inflate, Crc32;
    InflateConsumes(codec, [], file[10..]);
    var plain := Gunzip(codec, file).plain;
    Le32RoundTrip(Crc32(plain, 0) as nat);
    Le32RoundTrip(|plain| % TWO32);
    assert file[|file| - 8..] == Trailer(plain);
  }

  /** A stored block whose two lengths are not each other's complement is refused. */
  lemma BadLengthIsRefused(codec: Codec, window: seq<Byte>, data: seq<Byte>)
    requires |data| >= 5 && data[0] / 2 % 4 == 0
    requires data[3] != 255 - data[1] || data[4] != 255 - data[2]
    ensures Inflate(codec, window, data) == Corrupt
  {}

  // ------------------------------------------------- Byte-aligned compression

  /**
   `chunk` is what a compressor emits for `plain` up to a Z_SYNC_FLUSH, having
   emitted `window` before: behind that text it decodes to `plain` and leaves the
   stream between two blocks, on a byte boundary. Behind another text it may
   decode to something else, as a chunk that refers back to the window does.
   */
  ghost predicate SyncFlushed(codec: Codec, window: seq<Byte>, chunk: seq<Byte>, plain: seq<Byte>) {
    forall rest: seq<Byte> {:trigger Inflate(codec, window, chunk + rest)} ::
      Inflate(codec, window, chunk + rest) == Inflate(codec, window + plain, rest)
  }

  lemma NothingIsFlushed(codec: Codec, window: seq<Byte>)
    ensures SyncFlushed(codec, window, [], [])
  {
    forall rest: seq<Byte>
      ensures Inflate(codec, window, [] + rest) == Inflate(codec, window + [], rest)
    {
      assert [] + rest == rest && window + [] == window;
    }
  }

  /** The output of a flush goes behind that of the flushes before, whose text it may refer back to. */
  lemma SyncFlushedAppend(codec: Codec, w: seq<Byte>, c1: seq<Byte>, p1: seq<Byte>, c2: seq<Byte>, p2: seq<Byte>)
    requires SyncFlushed(codec, w, c1, p1) && SyncFlushed(codec, w + p1, c2, p2)
    ensures SyncFlushed(codec, w, c1 + c2, p1 + p2)
  {
    forall rest: seq<Byte>
      ensures Inflate(codec, w, (c1 + c2) + rest) == Inflate(codec, w + (p1 + p2), rest)
    {
      assert (c1 + c2) + rest == c1 + (c2 + rest);
      assert w + (p1 + p2) == (w + p1) + p2;
    }
  }

  /** An encoder that meets the specification: stored blocks, then the empty block a sync flush ends with. */
  function StoredHeader(n: nat): (r: seq<Byte>)
    requires n <= 65535
    ensures |r| == 5
  {
    [0, n % 256, n / 256, (65535 - n) % 256, (65535 - n) / 256]
  }

  function StoredBlocks(plain: seq<Byte>): seq<Byte> {
    if plain == [] then []
    else
      var n := if |plain| > 65535 then 65535 else |plain|;
      (StoredHeader(n) + plain[..n]) + StoredBlocks(plain[n..])
  }

  function SyncFlush(plain: seq<Byte>): seq<Byte> {
    StoredBlocks(plain) + (StoredHeader(0) + [])
  }

  lemma StoredBlockDecodes(codec: Codec, window: seq<Byte>, block: seq<Byte>)
    requires |block| <= 65535
    ensures SyncFlushed(codec, window, StoredHeader(|block|) + block, block)
  {
    var n := |block|;
    var head := StoredHeader(n);
    assert Le16Value(head[1], head[2]) == n && Le16Value(head[3], head[4]) == 65535 - n;
    forall rest: seq<Byte>
      ensures Inflate(codec, window, (head + block) + rest) == Inflate(codec, window + block, rest)
    {
      var data := (head + block) + rest;
      assert data[0] == head[0] && data[1] == head[1] && data[2] == head[2];
      assert data[3] == head[3] && data[4] == head[4];
      assert data[5..5 + n] == block && data[5 + n..] == rest;
    }
  }

  lemma {:induction false} StoredBlocksDecode(codec: Codec, window: seq<Byte>, plain: seq<Byte>)
    ensures SyncFlushed(codec, window, StoredBlocks(plain), plain)
    decreases |plain|
  {
    if plain == [] {
      NothingIsFlushed(codec, window);
    } else {
      var n := if |plain| > 65535 then 65535 else |plain|;
      var first, more := plain[..n], plain[n..];
      StoredBlockDecodes(codec, window, first);
      StoredBlocksDecode(codec, window + first, more);
      SyncFlushedAppend(codec, window, StoredHeader(n) + first, first, StoredBlocks(more), more);
      assert first + more == plain;
    }
  }

  /** A flush by an encoder that never refers back keeps the promise, whatever decodes the other block types. */
  lemma SyncFlushDecodes(codec: Codec, window: seq<Byte>, plain: seq<Byte>)
    ensures SyncFlushed(codec, window, SyncFlush(plain), plain)
  {
    StoredBlocksDecode(codec, window, plain);
    StoredBlockDecodes(codec, window + plain, []);
    SyncFlushedAppend(codec, window, StoredBlocks(plain), plain, StoredHeader(0) + [], []);
    assert plain + [] == plain;
  }

  // ----------------------------------------------------- The hand-built member

  const HEADER: seq<Byte> := [0x1f, 0x8b, 0x08, 0x00, 0, 0, 0, 0, 0x00, 0xff]
  const CLOSING_BLOCK: seq<Byte> := [0x01, 0x01, 0x00, 0xfe, 0xff, 0x5d]
  const CLOSING_BYTE: seq<Byte> := [0x5d]

  lemma ClosingBlockEnds(codec: Codec, window: seq<Byte>, rest: seq<Byte>)
    ensures Inflate(codec, window, CLOSING_BLOCK + rest) == Inflated(window + CLOSING_BYTE, rest)
  {
    var data := CLOSING_BLOCK + rest;
    assert data[0] == 1 && data[1] == 1 && data[2] == 0 && data[3] == 0xfe && data[4] == 0xff;
    assert data[5..6] == CLOSING_BYTE && data[6..] == rest;
  }

  /** The member assembled from the compressed bytes so far, with whatever trailer. */
  function Member(compressed: seq<Byte>, trailer: seq<Byte>): seq<Byte> {
    HEADER + compressed + CLOSING_BLOCK + trailer
  }

  lemma MemberDecodes(codec: Codec, compressed: seq<Byte>, plain: seq<Byte>, trailer: seq<Byte>)
    requires SyncFlushed(codec, [], compressed, plain)
    ensures Gunzip(codec, Member(compressed, trailer))
            == if trailer == Trailer(plain + CLOSING_BYTE) then Ok(plain + CLOSING_BYTE) else BadTrailer
  {
    var file := Member(compressed, trailer);
    assert file[10..] == compressed + (CLOSING_BLOCK + trailer);
    assert file[0] == 0x1f && file[1] == 0x8b && file[2] == 8 && file[3] == 0;
    assert Inflate(codec, [], file[10..]) == Inflated(plain + CLOSING_BYTE, trailer) by {
      assert [] + plain == plain;
      ClosingBlockEnds(codec, plain, trailer);
    }
  }

  // ------------------------------------------- A compressor with a dictionary

  /** A decoder of one back-reference: the block [2, n] repeats the last n bytes of the window. */
  function Repeats(window: seq<Byte>, data: seq<Byte>): Option<Run> {
    if |data| >= 2 && data[0] == 2 && data[1] <= |window|
    then Some(Run(window[|window| - data[1]..], 2, false))
    else None
  }

  /** And an encoder that uses it wherever it can. */
  function RepeatFlush(window: seq<Byte>, plain: seq<Byte>): seq<Byte> {
    if 0 < |plain| < 256 && |plain| <= |window| && window[|window| - |plain|..] == plain
    then [2, |plain|] + SyncFlush([])
    else SyncFlush(plain)
  }

  /** A flush by an encoder that refers back to what it has flushed before keeps the promise as well. */
  lemma RepeatFlushDecodes(window: seq<Byte>, plain: seq<Byte>)
    ensures SyncFlushed(Repeats, window, RepeatFlush(window, plain), plain)
  {
    SyncFlushDecodes(Repeats, window, plain);
    if RepeatFlush(window, plain) != SyncFlush(plain) {
      forall rest: seq<Byte>
        ensures Inflate(Repeats, window, [2, |plain|] + rest) == Inflate(Repeats, window + plain, rest)
      {
        assert ([2, |plain|] + rest)[2..] == rest;
      }
      SyncFlushDecodes(Repeats, window + plain, []);
      SyncFlushedAppend(Repeats, window, [2, |plain|], plain, SyncFlush([]), []);
      assert plain + [] == plain;
    }
  }

  /** Its output is good only behind the text it was made for: the promise must name the window. */
  lemma ChunksDependOnTheWindow()
    ensures SyncFlushed(Repeats, [0x61], RepeatFlush([0x61], [0x61]), [0x61])
    ensures !SyncFlushed(Repeats, [], RepeatFlush([0x61], [0x61]), [0x61])
  {
    RepeatFlushDecodes([0x61], [0x61]);
    var chunk := RepeatFlush([0x61], [0x61]);
    var rest := CLOSING_BLOCK;
    assert Inflate(Repeats, [], chunk + rest) == Corrupt by {
      assert (chunk + rest)[0] == 2 && (chunk + rest)[1] == 1;
    }
    ClosingBlockEnds(Repeats, [] + [0x61], []);
    assert rest + [] == rest;
  }

  // ------------------------------------------------------------------- UTF-8

  function Utf8Char(c: char): seq<Byte> {
    var n := c as int;
    if n < 0x80 then [n]
    else if n < 0x800 then [0xC0 + n / 64, 0x80 + n % 64]
    else if n < 0x1_0000 then [0xE0 + n / 4096, 0x80 + n / 64 % 64, 0x80 + n % 64]
    else [0xF0 + n / 262144, 0x80 + n / 4096 % 64, 0x80 + n / 64 % 64, 0x80 + n % 64]
  }

  function Utf8(text: string): seq<Byte> {
    if text == [] then [] else Utf8Char(text[0]) + Utf8(text[1..])
  }

  lemma {:induction false} Utf8Append(a: string, b: string)
    ensures Utf8(a + b) == Utf8(a) + Utf8(b)
  {
    if a == [] {
      assert a + b == b;
    } else {
      assert (a + b)[0] == a[0] && (a + b)[1..] == a[1..] + b;
      Utf8Append(a[1..], b);
    }
  }

  /** The first character of a text and the bytes it takes. */
  datatype Decoded = Decoded(c: char, used: nat)

  predicate Tail(b: int) {
    0x80 <= b <= 0xBF
  }

  function Low(b: int, marker: int): int {
    b - marker
  }

  /**
   The well-formed sequences of RFC 3629 section 4, by the ranges of their bytes:
   no C0 or C1, and after E0, ED, F0 and F4 a narrower second byte, which shuts out
   longer forms, surrogates and numbers past 10FFFF.
   */
  function FirstChar(b: seq<Byte>): (r: Option<Decoded>)
    requires b != []
    ensures r.Some? ==> 1 <= r.value.used <= |b|
  {
    if b[0] <= 0x7F then Some(Decoded(b[0] as char, 1))
    else if 0xC2 <= b[0] <= 0xDF && |b| >= 2 && Tail(b[1]) then
      Some(Decoded((Low(b[0], 0xC0) * 64 + Low(b[1], 0x80)) as char, 2))
    else if 0xE0 <= b[0] <= 0xEF && |b| >= 3 && Tail(b[1]) && Tail(b[2])
            && (b[0] == 0xE0 ==> 0xA0 <= b[1]) && (b[0] == 0xED ==> b[1] <= 0x9F) then
      Some(Decoded((Low(b[0], 0xE0) * 4096 + Low(b[1], 0x80) * 64 + Low(b[2], 0x80)) as char, 3))
    else if 0xF0 <= b[0] <= 0xF4 && |b| >= 4 && Tail(b[1]) && Tail(b[2]) && Tail(b[3])
            && (b[0] == 0xF0 ==> 0x90 <= b[1]) && (b[0] == 0xF4 ==> b[1] <= 0x8F) then
      Some(Decoded((Low(b[0], 0xF0) * 262144 + Low(b[1], 0x80) * 4096 + Low(b[2], 0x80) * 64
                    + Low(b[3], 0x80)) as char, 4))
    else None
  }

  function DecodeUtf8(b: seq<Byte>): Option<string>
    decreases |b|
  {
    if b == [] then Some("")
    else
      match FirstChar(b)
      case None => None
      case Some(first) =>
        match DecodeUtf8(b[first.used..])
        case None => None
        case Some(text) => Some([first.c] + text)
  }

  lemma SixBits(high: nat, low: nat)
    requires low < 64
    ensures (high * 64 + low) / 64 == high && (high * 64 + low) % 64 == low
  {}

  lemma Shifts(n: nat)
    ensures n / 4096 == n / 64 / 64 && n / 262144 == n / 64 / 64 / 64
  {}

  /** The number spelled by up to four groups of bits, and those groups back from the number. */
  lemma Groups(a: nat, b: nat, c: nat, d: nat)
    requires b < 64 && c < 64 && d < 64
    ensures var n := a * 262144 + b * 4096 + c * 64 + d;
            n / 262144 == a && n / 4096 % 64 == b && n / 64 % 64 == c && n % 64 == d
            && n / 4096 == a * 64 + b && n / 64 == a * 4096 + b * 64 + c
  {
    var n := a * 262144 + b * 4096 + c * 64 + d;
    var high := (a * 64 + b) * 64 + c;
    assert n == high * 64 + d;
    SixBits(high, d);
    SixBits(a * 64 + b, c);
    SixBits(a, b);
    Shifts(n);
  }

  lemma GroupsOf(n: nat)
    ensures n == n / 262144 * 262144 + n / 4096 % 64 * 4096 + n / 64 % 64 * 64 + n % 64
    ensures n / 4096 == n / 262144 * 64 + n / 4096 % 64
  {
    Shifts(n);
  }

  lemma FirstOfShort(c: char, rest: seq<Byte>)
    requires c as int < 0x800
    ensures FirstChar(Utf8Char(c) + rest) == Some(Decoded(c, |Utf8Char(c)|))
  {
    GroupsOf(c as int);
  }

  lemma FirstOfThree(c: char, rest: seq<Byte>)
    requires 0x800 <= c as int < 0x1_0000
    ensures FirstChar(Utf8Char(c) + rest) == Some(Decoded(c, |Utf8Char(c)|))
  {
    GroupsOf(c as int);
  }

  lemma FirstOfFour(c: char, rest: seq<Byte>)
    requires 0x1_0000 <= c as int
    ensures FirstChar(Utf8Char(c) + rest) == Some(Decoded(c, |Utf8Char(c)|))
  {
    GroupsOf(c as int);
  }

  lemma FirstCharOf(c: char, rest: seq<Byte>)
    ensures Utf8Char(c) + rest != [] && FirstChar(Utf8Char(c) + rest) == Some(Decoded(c, |Utf8Char(c)|))
  {
    hide FirstChar;
    if c as int < 0x800 {
      FirstOfShort(c, rest);
    } else if c as int < 0x1_0000 {
      FirstOfThree(c, rest);
    } else {
      FirstOfFour(c, rest);
    }
  }

  lemma FirstCharIs(b: seq<Byte>)
    requires b != [] && FirstChar(b).Some?
    ensures Utf8Char(FirstChar(b).value.c) == b[..FirstChar(b).value.used]
  {
    var used := FirstChar(b).value.used;
    if used == 2 {
      Groups(0, 0, b[0] - 0xC0, b[1] - 0x80);
    } else if used == 3 {
      Groups(0, b[0] - 0xE0, b[1] - 0x80, b[2] - 0x80);
    } else if used == 4 {
      Groups(b[0] - 0xF0, b[1] - 0x80, b[2] - 0x80, b[3] - 0x80);
    }
  }

  /** Text written as UTF-8 is well formed and reads back as itself. */
  lemma {:induction false} Utf8RoundTrip(text: string)
    ensures DecodeUtf8(Utf8(text)) == Some(text)
    decreases |text|
  {
    hide FirstChar, Utf8Char;
    if text != [] {
      var rest := Utf8(text[1..]);
      FirstCharOf(text[0], rest);
      Utf8RoundTrip(text[1..]);
      assert (Utf8Char(text[0]) + rest)[|Utf8Char(text[0])|..] == rest;
      assert [text[0]] + text[1..] == text;
    }
  }

  /** Bytes that read back as a text are that text written as UTF-8: no text has a second spelling. */
  lemma {:induction false} OneSpelling(b: seq<Byte>)
    requires DecodeUtf8(b).Some?
    ensures Utf8(DecodeUtf8(b).value) == b
    decreases |b|
  {
    hide FirstChar, Utf8Char;
    if b != [] {
      var first := FirstChar(b).value;
      FirstCharIs(b);
      OneSpelling(b[first.used..]);
      var rest := DecodeUtf8(b[first.used..]).value;
      assert ([first.c] + rest)[1..] == rest;
      assert b == b[..first.used] + b[first.used..];
    }
  }

  /** ASCII text is its own bytes. */
  lemma {:induction false} AsciiIsItself(text: string)
    requires forall i :: 0 <= i < |text| ==> text[i] as int < 0x80
    ensures |Utf8(text)| == |text| && forall i :: 0 <= i < |text| ==> Utf8(text)[i] == text[i] as int
  {
    if text != [] {
      AsciiIsItself(text[1..]);
      assert Utf8(text) == [text[0] as int] + Utf8(text[1..]);
    }
  }
}
