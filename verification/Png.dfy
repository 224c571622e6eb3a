/** The icon encoder (setup/lib/teams-manifest.ts) and a decoder to check it against.

    Bytes are `bv8`. The compressor is a parameter: all that is used of it is
    that the decompressor undoes it. */
module Png {
  import opened Options
  import opened Words
  import Crc32

  type Bytes = seq<bv8>

  const SIGNATURE: Bytes := [0x89, 0x50, 0x4e, 0x47, 0x0d, 0x0a, 0x1a, 0x0a]
  const IHDR: Bytes := [0x49, 0x48, 0x44, 0x52]
  const IDAT: Bytes := [0x49, 0x44, 0x41, 0x54]
  const IEND: Bytes := [0x49, 0x45, 0x4e, 0x44]

  /** One more than the largest number that fits four bytes. */
  const WORD_LIMIT: nat := 0x1_0000_0000

  // ---- Four-byte numbers, most significant byte first ----

  /** The binary digits of `n`, the lowest at the bit of `mask`. */
  function ByteUp(n: nat, mask: bv8): bv8
    decreases n
  {
    if n == 0 then 0 else Bit(n % 2 == 1, mask) | ByteUp(n / 2, mask << 1)
  }

  function ByteOf(n: nat): bv8 {
    ByteUp(n, 1)
  }

  /** The number whose binary digits these are, lowest first. */
  function Number(bits: seq<bool>): nat
    decreases |bits|
  {
    if bits == [] then 0 else (if bits[0] then 1 else 0) + 2 * Number(bits[1..])
  }

  function ValueOf(b: bv8): nat {
    Number(Bits(b))
  }

  lemma ByteUpStep(n: nat, mask: bv8)
    ensures ByteUp(n, mask) == Bit(n % 2 == 1, mask) | ByteUp(n / 2, mask << 1)
  {
  }

  lemma OrBits(a: bv8, b: bv8, c: bv8, d: bv8, e: bv8, f: bv8, g: bv8, h: bv8)
    ensures a | (b | (c | (d | (e | (f | (g | (h | 0))))))) == a | b | c | d | e | f | g | h
  {
  }

  lemma NumberCons(n: nat, rest: seq<bool>)
    requires Number(rest) == n / 2
    ensures Number([n % 2 == 1] + rest) == n
  {
    assert ([n % 2 == 1] + rest)[1..] == rest;
  }

  lemma FourMore(n: nat, b: nat, c: nat, d: nat, rest: seq<bool>)
    requires b == n / 2 && c == b / 2 && d == c / 2 && Number(rest) == d / 2
    ensures Number([n % 2 == 1, b % 2 == 1, c % 2 == 1, d % 2 == 1] + rest) == n
  {
    var x := [d % 2 == 1] + rest;
    NumberCons(d, rest);
    NumberCons(c, x);
    NumberCons(b, [c % 2 == 1] + x);
    NumberCons(n, [b % 2 == 1] + ([c % 2 == 1] + x));
    assert [n % 2 == 1, b % 2 == 1, c % 2 == 1, d % 2 == 1] + rest
        == [n % 2 == 1] + ([b % 2 == 1] + ([c % 2 == 1] + x));
  }

  lemma EightDigits(n: nat, b: nat, c: nat, d: nat, e: nat, f: nat, g: nat, h: nat)
    requires b == n / 2 && c == b / 2 && d == c / 2 && e == d / 2 && f == e / 2 && g == f / 2 && h == g / 2 && h < 2
    ensures Number([n % 2 == 1, b % 2 == 1, c % 2 == 1, d % 2 == 1, e % 2 == 1, f % 2 == 1, g % 2 == 1,
                    h % 2 == 1]) == n
  {
    var high := [e % 2 == 1, f % 2 == 1, g % 2 == 1, h % 2 == 1];
    assert high + [] == high;
    FourMore(e, f, g, h, []);
    FourMore(n, b, c, d, high);
    assert [n % 2 == 1, b % 2 == 1, c % 2 == 1, d % 2 == 1] + high
        == [n % 2 == 1, b % 2 == 1, c % 2 == 1, d % 2 == 1, e % 2 == 1, f % 2 == 1, g % 2 == 1, h % 2 == 1];
  }

  lemma ByteOfIs(n: nat, b: nat, c: nat, d: nat, e: nat, f: nat, g: nat, h: nat)
    requires b == n / 2 && c == b / 2 && d == c / 2 && e == d / 2 && f == e / 2 && g == f / 2 && h == g / 2 && h < 2
    ensures ByteOf(n)
         == ByteFrom(n % 2 == 1, b % 2 == 1, c % 2 == 1, d % 2 == 1, e % 2 == 1, f % 2 == 1, g % 2 == 1, h % 2 == 1)
  {
    ByteUpStep(n, 1);
    ByteUpStep(b, 2);
    ByteUpStep(c, 4);
    ByteUpStep(d, 8);
    ByteUpStep(e, 16);
    ByteUpStep(f, 32);
    ByteUpStep(g, 64);
    ByteUpStep(h, 128);
    assert ByteUp(h / 2, 0) == 0;
    OrBits(Bit(n % 2 == 1, 1), Bit(b % 2 == 1, 2), Bit(c % 2 == 1, 4), Bit(d % 2 == 1, 8),
           Bit(e % 2 == 1, 16), Bit(f % 2 == 1, 32), Bit(g % 2 == 1, 64), Bit(h % 2 == 1, 128));
  }

  lemma ByteRoundTrip(n: nat)
    requires n < 256
    ensures ValueOf(ByteOf(n)) == n
  {
    var b := n / 2;
    var c := b / 2;
    var d := c / 2;
    EightHalves(n, b, c, d, d / 2, d / 2 / 2, d / 2 / 2 / 2, d / 2 / 2 / 2 / 2);
  }

  lemma EightHalves(n: nat, b: nat, c: nat, d: nat, e: nat, f: nat, g: nat, h: nat)
    requires b == n / 2 && c == b / 2 && d == c / 2 && e == d / 2 && f == e / 2 && g == f / 2 && h == g / 2 && h < 2
    ensures ValueOf(ByteOf(n)) == n
  {
    ByteOfIs(n, b, c, d, e, f, g, h);
    BitsOfByteFrom(n % 2 == 1, b % 2 == 1, c % 2 == 1, d % 2 == 1, e % 2 == 1, f % 2 == 1, g % 2 == 1, h % 2 == 1);
    EightDigits(n, b, c, d, e, f, g, h);
  }

  function BigEndian(n: nat): (s: Bytes)
    requires n < WORD_LIMIT
    ensures |s| == 4
  {
    [ByteOf(n / 0x100_0000), ByteOf(n / 0x1_0000 % 256), ByteOf(n / 0x100 % 256), ByteOf(n % 256)]
  }

  function FromBigEndian(s: Bytes): nat
    requires |s| == 4
  {
    ValueOf(s[0]) * 0x100_0000 + ValueOf(s[1]) * 0x1_0000 + ValueOf(s[2]) * 0x100 + ValueOf(s[3])
  }

  lemma FromFour(a: nat, b: nat, c: nat, d: nat)
    requires a < 256 && b < 256 && c < 256 && d < 256
    ensures FromBigEndian([ByteOf(a), ByteOf(b), ByteOf(c), ByteOf(d)])
         == a * 0x100_0000 + b * 0x1_0000 + c * 0x100 + d
  {
    ByteRoundTrip(a);
    ByteRoundTrip(b);
    ByteRoundTrip(c);
    ByteRoundTrip(d);
  }

  lemma FourDigits(n: nat)
    requires n < WORD_LIMIT
    ensures n / 0x100_0000 < 256
    ensures n == (n / 0x100_0000) * 0x100_0000 + (n / 0x1_0000 % 256) * 0x1_0000 + (n / 0x100 % 256) * 0x100 + n % 256
  {
    var a, b, c := n / 0x100, n / 0x1_0000, n / 0x100_0000;
    assert n == a * 256 + n % 256;
    assert a == b * 256 + a % 256;
    assert b == c * 256 + b % 256 && b % 256 == b - c * 256;
  }

  lemma BigEndianRoundTrip(n: nat)
    requires n < WORD_LIMIT
    ensures FromBigEndian(BigEndian(n)) == n
  {
    FourDigits(n);
    FromFour(n / 0x100_0000, n / 0x1_0000 % 256, n / 0x100 % 256, n % 256);
  }

  // ---- Chunks: length, type, data, checksum of type and data ----

  function Checksum(covered: Bytes): (s: Bytes)
    ensures |s| == 4
  {
    WordBytes(Crc32.Spec(covered))
  }

  function Framed(kind: Bytes, data: Bytes): Bytes
    requires |data| < WORD_LIMIT
  {
    BigEndian(|data|) + kind + data + Checksum(kind + data)
  }

  datatype ChunkRead = ChunkRead(kind: Bytes, data: Bytes, rest: Bytes)

  /** Section 3.2 of RFC 2083: split off the first chunk, or fail on a short
      buffer or a checksum that does not match. */
  function ReadChunk(s: Bytes): Option<ChunkRead> {
    if |s| < 12 then None
    else
      var len := FromBigEndian(s[..4]);
      if |s| < 12 + len then None
      else
        var kind, data := s[4..8], s[8..8 + len];
        if s[8 + len..12 + len] == Checksum(kind + data)
        then Some(ChunkRead(kind, data, s[12 + len..]))
        else None
  }

  lemma Pieces(len: Bytes, kind: Bytes, data: Bytes, sum: Bytes, rest: Bytes)
    requires |len| == 4 && |kind| == 4 && |sum| == 4
    ensures var s := len + kind + data + sum + rest; var n := |data|;
      |s| == 12 + n + |rest| && s[..4] == len && s[4..8] == kind && s[8..8 + n] == data
      && s[8 + n..12 + n] == sum && s[12 + n..] == rest
  {
  }

  /** A chunk reads back from the front of any concatenation. */
  lemma ReadFramed(kind: Bytes, data: Bytes, rest: Bytes)
    requires |kind| == 4 && |data| < WORD_LIMIT
    ensures ReadChunk(Framed(kind, data) + rest) == Some(ChunkRead(kind, data, rest))
  {
    BigEndianRoundTrip(|data|);
    Pieces(BigEndian(|data|), kind, data, Checksum(kind + data), rest);
  }

  /** A chunk whose type and data were damaged inside one window of four bytes
      is refused, whatever follows it. */
  lemma DamagedChunkRefused(kind: Bytes, data: Bytes, kind': Bytes, data': Bytes, lo: nat, rest: Bytes)
    requires |kind| == 4 == |kind'| && |data| == |data'| < WORD_LIMIT
    requires kind + data != kind' + data'
    requires forall i :: 0 <= i < 4 + |data| && (kind + data)[i] != (kind' + data')[i] ==> lo <= i < lo + 4
    ensures ReadChunk(BigEndian(|data|) + kind' + data' + Checksum(kind + data) + rest) == None
  {
    BigEndianRoundTrip(|data|);
    Pieces(BigEndian(|data|), kind', data', Checksum(kind + data), rest);
    Crc32.FourByteWindowDetected(kind + data, kind' + data', lo);
    if Checksum(kind + data) == Checksum(kind' + data') {
      WordBytesInjective(Crc32.Spec(kind + data), Crc32.Spec(kind' + data'));
    }
  }

  method Chunk(table: array<bv32>, kind: Bytes, data: Bytes) returns (r: Option<Bytes>)
    requires Crc32.IsCrcTable(table[..]) && |kind| == 4
    ensures r == if |data| < WORD_LIMIT then Some(Framed(kind, data)) else None
  {
    if |data| >= WORD_LIMIT {
      return None;
    }
    var len := BigEndian(|data|);
    var crc := Crc32.Crc32(table, kind + data);
    r := Some(len + kind + data + WordBytes(crc));
  }

  // ---- Scanlines ----

  /** Reading a typed array past its end and storing the result in a buffer stores 0. */
  function PixelAt(pixels: Bytes, i: nat): bv8 {
    if i < |pixels| then pixels[i] else 0
  }

  function Pixels(pixels: Bytes, n: nat): (s: Bytes)
    ensures |s| == n
    ensures |pixels| == n ==> s == pixels
  {
    seq(n, i requires 0 <= i => PixelAt(pixels, i))
  }

  function Row(pixels: Bytes, from: nat, n: nat): (s: Bytes)
    ensures |s| == n
  {
    seq(n, x requires 0 <= x => PixelAt(pixels, from + x))
  }

  /** The first `y` rows, each led by the filter byte 0 (section 6.2 of RFC 2083). */
  function Rows(pixels: Bytes, rowBytes: nat, y: nat): (s: Bytes)
    ensures |s| == y * (rowBytes + 1)
    decreases y
  {
    if y == 0 then []
    else
      Rows(pixels, rowBytes, y - 1) + [0] + Row(pixels, (y - 1) * rowBytes, rowBytes)
  }

  /** Strip the filter byte of each of `h` rows; only filter 0 is understood. */
  function Unfilter(raw: Bytes, rowBytes: nat, h: nat): Option<Bytes>
    decreases h
  {
    if |raw| != h * (rowBytes + 1) then None
    else if h == 0 then Some([])
    else
      var cut := (h - 1) * (rowBytes + 1);
      var above := Unfilter(raw[..cut], rowBytes, h - 1);
      if above.None? || raw[cut] != 0 then None
      else Some(above.value + raw[cut + 1..])
  }

  lemma {:induction false} UnfilterRows(pixels: Bytes, rowBytes: nat, h: nat)
    ensures Unfilter(Rows(pixels, rowBytes, h), rowBytes, h) == Some(Pixels(pixels, h * rowBytes))
    decreases h
  {
    if h == 0 {
      assert Pixels(pixels, 0) == [];
    } else {
      UnfilterRows(pixels, rowBytes, h - 1);
      var raw := Rows(pixels, rowBytes, h);
      var cut := (h - 1) * (rowBytes + 1);
      assert raw[..cut] == Rows(pixels, rowBytes, h - 1);
      assert h * rowBytes == (h - 1) * rowBytes + rowBytes;
      assert Pixels(pixels, (h - 1) * rowBytes) + raw[cut + 1..] == Pixels(pixels, h * rowBytes);
    }
  }

  /** A short buffer is filled up with zeros, a long one cut off. */
  lemma PixelsFill(pixels: Bytes, n: nat, zeros: Bytes)
    requires |zeros| == n && forall i :: 0 <= i < n ==> zeros[i] == 0
    ensures Pixels(pixels, n) == (pixels + zeros)[..n]
  {
  }

  lemma RowOfPrefix(pixels: Bytes, more: Bytes, from: nat, n: nat)
    requires from + n <= |pixels|
    ensures Row(pixels + more, from, n) == Row(pixels, from, n) == pixels[from..from + n]
  {
    var whole, part := Row(pixels + more, from, n), Row(pixels, from, n);
    forall x | 0 <= x < n ensures whole[x] == part[x] == pixels[from..from + n][x] {
      assert (pixels + more)[from + x] == pixels[from + x];
    }
    assert whole == part == pixels[from..from + n];
  }

  lemma {:induction false} RowsOfPrefix(pixels: Bytes, more: Bytes, rowBytes: nat, h: nat)
    requires h * rowBytes <= |pixels|
    ensures Rows(pixels + more, rowBytes, h) == Rows(pixels, rowBytes, h)
    decreases h
  {
    if h == 0 {
    } else {
      assert h * rowBytes == (h - 1) * rowBytes + rowBytes;
      RowsOfPrefix(pixels, more, rowBytes, h - 1);
      RowOfPrefix(pixels, more, (h - 1) * rowBytes, rowBytes);
    }
  }

  /** One row more: its filter byte and its bytes. */
  lemma RowsAddRow(above: Bytes, row: Bytes, y: nat)
    requires |above| == y * |row|
    ensures Rows(above + row, |row|, y + 1) == Rows(above, |row|, y) + [0] + row
  {
    RowsOfPrefix(above, row, |row|, y);
    RowOfPrefix(above + row, [], |above|, |row|);
    assert above + row + [] == above + row;
  }

  /** Whatever the decoder's last step accepts is exactly what the rows of its pixels encode
      to: no other filter byte passes. */
  lemma {:induction false} UnfilterOnly(raw: Bytes, rowBytes: nat, h: nat, pixels: Bytes)
    requires Unfilter(raw, rowBytes, h) == Some(pixels)
    ensures |pixels| == h * rowBytes && Rows(pixels, rowBytes, h) == raw
    decreases h
  {
    if h == 0 {
    } else {
      var cut := (h - 1) * (rowBytes + 1);
      var above, row := Unfilter(raw[..cut], rowBytes, h - 1).value, raw[cut + 1..];
      UnfilterOnly(raw[..cut], rowBytes, h - 1, above);
      assert |raw| == cut + 1 + rowBytes by { Stride(h, rowBytes + 1); }
      RowsAddRow(above, row, h - 1);
      Stride(h, rowBytes);
      assert raw == raw[..cut] + [raw[cut]] + row;
    }
  }

  lemma Stride(h: nat, n: nat)
    requires h > 0
    ensures h * n == (h - 1) * n + n
  {
  }

  lemma RowEnd(y: nat, h: nat, stride: nat)
    requires y < h
    ensures y * stride + stride == (y + 1) * stride <= h * stride
  {
    assert h * stride == (y + 1) * stride + (h - y - 1) * stride;
  }

  lemma RowExtend(pixels: Bytes, from: nat, x: nat)
    ensures Row(pixels, from, x + 1) == Row(pixels, from, x) + [PixelAt(pixels, from + x)]
  {
  }

  lemma RowsGrow(pixels: Bytes, rowBytes: nat, y: nat)
    ensures Rows(pixels, rowBytes, y + 1) == Rows(pixels, rowBytes, y) + [0] + Row(pixels, y * rowBytes, rowBytes)
  {
  }

  /** One pass of the outer loop: a filter byte 0 and the row's pixels. */
  method FilterRow(raw: array<bv8>, base: nat, pixels: Bytes, y: nat, rowBytes: nat)
    requires base + 1 + rowBytes <= raw.Length
    requires raw[..base] == Rows(pixels, rowBytes, y)
    modifies raw
    ensures raw[..base + 1 + rowBytes] == Rows(pixels, rowBytes, y + 1)
  {
    ghost var done := raw[..base];
    var from := y * rowBytes;
    raw[base] := 0;
    assert raw[..base + 1] == done + [0];
    for x := 0 to rowBytes
      invariant raw[..base + 1 + x] == done + [0] + Row(pixels, from, x)
    {
      raw[base + 1 + x] := PixelAt(pixels, from + x);
      RowExtend(pixels, from, x);
      assert raw[..base + 1 + x + 1] == raw[..base + 1 + x] + [raw[base + 1 + x]];
    }
    RowsGrow(pixels, rowBytes, y);
  }

  method FilterRows(height: nat, rowBytes: nat, pixels: Bytes) returns (raw: array<bv8>)
    ensures fresh(raw) && raw[..] == Rows(pixels, rowBytes, height)
  {
    var stride := rowBytes + 1;
    raw := new bv8[height * stride];
    for y := 0 to height
      invariant y * stride <= raw.Length == height * stride
      invariant raw[..y * stride] == Rows(pixels, rowBytes, y)
    {
      RowEnd(y, height, stride);
      FilterRow(raw, y * stride, pixels, y, rowBytes);
    }
    assert raw[..] == raw[..raw.Length];
  }

  // ---- The whole file ----

  function Header(width: nat, height: nat): Bytes
    requires width < WORD_LIMIT && height < WORD_LIMIT
  {
    BigEndian(width) + BigEndian(height) + [8, 6, 0, 0, 0]
  }

  function Encoded(width: nat, height: nat, pixels: Bytes, deflate: Bytes -> Bytes): Option<Bytes> {
    var idat := deflate(Rows(pixels, width * 4, height));
    if width >= WORD_LIMIT || height >= WORD_LIMIT || |idat| >= WORD_LIMIT then None
    else Some(SIGNATURE + Framed(IHDR, Header(width, height)) + Framed(IDAT, idat) + Framed(IEND, []))
  }

  /** The encoder; a number that does not fit four bytes is an error, as in the source. */
  method EncodePng(table: array<bv32>, width: nat, height: nat, pixels: Bytes, deflate: Bytes -> Bytes)
    returns (r: Option<Bytes>)
    requires Crc32.IsCrcTable(table[..])
    ensures r == Encoded(width, height, pixels, deflate)
  {
    if width >= WORD_LIMIT || height >= WORD_LIMIT {
      return None;
    }
    var ihdr := BigEndian(width) + BigEndian(height) + [8, 6, 0, 0, 0];
    var raw := FilterRows(height, width * 4, pixels);
    var idat := deflate(raw[..]);
    var head := Chunk(table, IHDR, ihdr);
    var body := Chunk(table, IDAT, idat);
    if body.None? {
      return None;
    }
    var tail := Chunk(table, IEND, []);
    r := Some(SIGNATURE + head.value + body.value + tail.value);
  }

  lemma OnlyLowest(n: nat)
    requires n < 256
    ensures n / 0x100_0000 == 0 && n / 0x1_0000 % 256 == 0 && n / 0x100 % 256 == 0 && n % 256 == n
  {
  }

  lemma OneByte(n: nat, b: bv8)
    requires n < 256 && ByteOf(n) == b
    ensures BigEndian(n) == [0, 0, 0, b]
  {
    OnlyLowest(n);
    assert ByteOf(0) == 0;
    assert BigEndian(n) == [ByteOf(0), ByteOf(0), ByteOf(0), ByteOf(n)];
  }

  lemma ByteThirteen(n: nat)
    requires n == 13
    ensures ByteOf(n) == 13
  {
    ByteOfIs(n, 6, 3, 1, 0, 0, 0, 0);
    assert ByteFrom(true, false, true, true, false, false, false, false) == 13;
  }

  lemma HeadChunk(header: Bytes)
    requires |header| == 13
    ensures Framed(IHDR, header) == [0, 0, 0, 13] + IHDR + header + Checksum(IHDR + header)
  {
    ByteThirteen(|header|);
    OneByte(|header|, 13);
  }

  lemma EndChunk(data: Bytes)
    requires data == []
    ensures Framed(IEND, data) == [0, 0, 0, 0, 73, 69, 78, 68, 174, 66, 96, 130]
  {
    assert ByteOf(|data|) == 0;
    OneByte(|data|, 0);
    assert IEND + data == IEND;
    EndSum();
    ThreeFours([0, 0, 0, 0], IEND, data, [174, 66, 96, 130]);
  }

  lemma ThreeFours(a: Bytes, b: Bytes, none: Bytes, c: Bytes)
    requires |a| == |b| == |c| == 4 && none == []
    ensures a + b + none + c == [a[0], a[1], a[2], a[3], b[0], b[1], b[2], b[3], c[0], c[1], c[2], c[3]]
  {
  }

  lemma EndSum()
    ensures Checksum(IEND) == [174, 66, 96, 130]
  {
    Crc32.ChecksumOfEnd();
    EndBytes(Crc32.Spec(IEND));
  }

  lemma EndBytes(c: bv32)
    requires c == 0xae42_6082
    ensures WordBytes(c) == [174, 66, 96, 130]
  {
  }

  /** The bytes every such file has, wherever it is read: the signature and the head of a
      13-byte IHDR chunk, eight bits a sample of red, green, blue and alpha without interlace,
      and the empty IEND chunk at the end (RFC 2083, sections 3.1, 4.1.1 and 4.1.4). */
  lemma FixedBytes(width: nat, height: nat, pixels: Bytes, deflate: Bytes -> Bytes, file: Bytes)
    requires Encoded(width, height, pixels, deflate) == Some(file)
    ensures |file| >= 41
    ensures file[..16] == [137, 80, 78, 71, 13, 10, 26, 10, 0, 0, 0, 13, 73, 72, 68, 82]
    ensures file[16..20] == BigEndian(width) && file[20..24] == BigEndian(height) && file[24..29] == [8, 6, 0, 0, 0]
    ensures file[|file| - 12..] == [0, 0, 0, 0, 73, 69, 78, 68, 174, 66, 96, 130]
  {
    var header, body := Header(width, height), Framed(IDAT, deflate(Rows(pixels, width * 4, height)));
    var sum := Checksum(IHDR + header);
    HeadChunk(header);
    EndChunk([]);
    HeadBytes();
    Regrouped(SIGNATURE, [0, 0, 0, 13], IHDR, header, sum, body, Framed(IEND, []));
    Places(SIGNATURE + [0, 0, 0, 13] + IHDR, BigEndian(width), BigEndian(height), [8, 6, 0, 0, 0], sum + body,
           Framed(IEND, []), file);
  }

  lemma HeadBytes()
    ensures SIGNATURE + [0, 0, 0, 13] + IHDR == [137, 80, 78, 71, 13, 10, 26, 10, 0, 0, 0, 13, 73, 72, 68, 82]
  {
  }

  lemma Regrouped(a: Bytes, b: Bytes, c: Bytes, d: Bytes, e: Bytes, f: Bytes, g: Bytes)
    ensures a + (b + c + d + e) + f + g == a + b + c + d + (e + f) + g
  {
  }

  lemma Places(head: Bytes, w: Bytes, h: Bytes, rest: Bytes, middle: Bytes, tail: Bytes, s: Bytes)
    requires |head| == 16 && |w| == 4 && |h| == 4 && |rest| == 5 && |tail| == 12
    requires s == head + (w + h + rest) + middle + tail
    ensures |s| >= 41
      && s[..16] == head && s[16..20] == w && s[20..24] == h && s[24..29] == rest && s[|s| - 12..] == tail
  {
  }

  function PixelBytes(width: nat, height: nat): nat {
    height * (width * 4)
  }

  datatype Image = Image(width: nat, height: nat, pixels: Bytes)

  function DecodeHeader(data: Bytes): Option<(nat, nat)> {
    if |data| != 13 || data[8..] != [8, 6, 0, 0, 0] then None
    else Some((FromBigEndian(data[..4]), FromBigEndian(data[4..8])))
  }

  /** A decoder for the files the encoder writes: one header, one data and one end chunk. */
  function Decode(s: Bytes, inflate: Bytes -> Option<Bytes>): Option<Image> {
    if |s| < 8 || s[..8] != SIGNATURE then None
    else
      var head := ReadChunk(s[8..]);
      if head.None? || head.value.kind != IHDR then None
      else
        var size := DecodeHeader(head.value.data);
        var body := ReadChunk(head.value.rest);
        if size.None? || body.None? || body.value.kind != IDAT then None
        else
          var raw := inflate(body.value.data);
          var tail := ReadChunk(body.value.rest);
          if raw.None? || tail != Some(ChunkRead(IEND, [], [])) then None
          else
            var pixels := Unfilter(raw.value, size.value.0 * 4, size.value.1);
            if pixels.None? then None
            else Some(Image(size.value.0, size.value.1, pixels.value))
  }

  lemma DecodeOwnHeader(width: nat, height: nat)
    requires width < WORD_LIMIT && height < WORD_LIMIT
    ensures DecodeHeader(Header(width, height)) == Some((width, height))
  {
    var h := Header(width, height);
    BigEndianRoundTrip(width);
    BigEndianRoundTrip(height);
    assert h[..4] == BigEndian(width) && h[4..8] == BigEndian(height);
    assert h[8..] == [8, 6, 0, 0, 0];
  }

  lemma DecodeSteps(file: Bytes, inflate: Bytes -> Option<Bytes>, image: Image,
                    header: Bytes, rest1: Bytes, idat: Bytes, rest2: Bytes, raw: Bytes)
    requires |file| >= 8 && file[..8] == SIGNATURE
    requires ReadChunk(file[8..]) == Some(ChunkRead(IHDR, header, rest1))
    requires DecodeHeader(header) == Some((image.width, image.height))
    requires ReadChunk(rest1) == Some(ChunkRead(IDAT, idat, rest2))
    requires ReadChunk(rest2) == Some(ChunkRead(IEND, [], []))
    requires inflate(idat) == Some(raw)
    requires Unfilter(raw, image.width * 4, image.height) == Some(image.pixels)
    ensures Decode(file, inflate) == Some(image)
  {
  }

  lemma SplitSignature(file: Bytes, head: Bytes, body: Bytes, tail: Bytes)
    requires file == SIGNATURE + head + body + tail
    ensures |file| >= 8 && file[..8] == SIGNATURE && file[8..] == head + (body + tail)
  {
  }

  /** Whatever the encoder writes, the decoder reads back: size and every pixel. */
  lemma DecodeEncoded(width: nat, height: nat, pixels: Bytes,
                      deflate: Bytes -> Bytes, inflate: Bytes -> Option<Bytes>, file: Bytes)
    requires forall x :: inflate(deflate(x)) == Some(x)
    requires Encoded(width, height, pixels, deflate) == Some(file)
    ensures Decode(file, inflate) == Some(Image(width, height, Pixels(pixels, PixelBytes(width, height))))
  {
    var raw, header := Rows(pixels, width * 4, height), Header(width, height);
    var idat := deflate(raw);
    var image := Image(width, height, Pixels(pixels, PixelBytes(width, height)));
    SplitSignature(file, Framed(IHDR, header), Framed(IDAT, idat), Framed(IEND, []));
    ReadFramed(IHDR, header, Framed(IDAT, idat) + Framed(IEND, []));
    DecodeOwnHeader(width, height);
    ReadFramed(IDAT, idat, Framed(IEND, []));
    ReadFramed(IEND, [], []);
    assert Framed(IEND, []) + [] == Framed(IEND, []);
    UnfilterRows(pixels, width * 4, height);
    DecodeSteps(file, inflate, image, header, Framed(IDAT, idat) + Framed(IEND, []), idat, Framed(IEND, []), raw);
  }
}
