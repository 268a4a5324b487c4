/** The fixture's PNG writer, and a reader of its chunks and scanlines (RFC 2083, sections 3.2 and 6.2). The reader
    takes any length that packs into four bytes, as the writer does; the RFC itself stops at 2^31 - 1. */
module PngFile {
  import opened Options

  type Byte = x: int | 0 <= x < 256

  type Bytes = seq<Byte>

  const LIMIT: nat := 0x1_0000_0000

  /** The parts of zlib the file is built with, left open. */
  datatype Zlib = Zlib(crc32: Bytes -> nat, compress: Bytes -> Bytes, decompress: Bytes -> Option<Bytes>)

  /** What is assumed of them: decompression undoes the compression of the data. */
  predicate Sound(z: Zlib, data: Bytes) {
    z.decompress(z.compress(data)) == Some(data)
  }

  // ---- the file ----

  /** The k bytes of a number, highest first. */
  function BigEndian(n: nat, k: nat): (r: Bytes)
    ensures |r| == k
  {
    if k == 0 then [] else BigEndian(n / 0x100, k - 1) + [n % 0x100]
  }

  /** `struct.pack(">I", n)`, for the numbers that pack. */
  function Pack(n: nat): (r: Bytes)
    requires n < LIMIT
    ensures |r| == 4
  {
    BigEndian(n, 4)
  }

  /** `_chunk`, or None where the length does not pack. */
  function Chunk(z: Zlib, tag: Bytes, data: Bytes): Option<Bytes> {
    var crc := z.crc32(tag + data) % LIMIT;
    if |data| < LIMIT then Some(Pack(|data|) + tag + data + Pack(crc)) else None
  }

  const SIGNATURE: Bytes := [0x89, 0x50, 0x4E, 0x47, 0x0D, 0x0A, 0x1A, 0x0A]
  const IHDR: Bytes := [0x49, 0x48, 0x44, 0x52]
  const IDAT: Bytes := [0x49, 0x44, 0x41, 0x54]
  const IEND: Bytes := [0x49, 0x45, 0x4E, 0x44]

  function Min(a: nat, b: nat): nat { if a <= b then a else b }

  /** Python's `s[a:b]`, cut off at the end of s. */
  function Slice(s: Bytes, a: nat, b: nat): Bytes
    requires a <= b
  {
    s[Min(a, |s|)..Min(b, |s|)]
  }

  /** The first k scanlines, each behind its filter byte. */
  function Scanlines(rgb: Bytes, stride: nat, k: nat): Bytes {
    if k == 0 then [] else Scanlines(rgb, stride, k - 1) + [0] + Row(rgb, stride, k - 1)
  }

  function Row(rgb: Bytes, stride: nat, y: nat): Bytes {
    Slice(rgb, y * stride, y * stride + stride)
  }

  function Ihdr(w: nat, h: nat): Bytes
    requires w < LIMIT && h < LIMIT
  {
    Pack(w) + Pack(h) + [8, 2, 0, 0, 0]
  }

  /** `png_bytes`: the file, or None where a size does not pack. */
  function Png(z: Zlib, w: nat, h: nat, rgb: Bytes): Option<Bytes> {
    var idat := z.compress(Scanlines(rgb, w * 3, h));
    if w >= LIMIT || h >= LIMIT || |idat| >= LIMIT then None
    else
      Some(SIGNATURE + Chunk(z, IHDR, Ihdr(w, h)).value + Chunk(z, IDAT, idat).value + Chunk(z, IEND, []).value)
  }

  /** `png_bytes` as written: a buffer of scanlines grown row by row, then the chunks. */
  method PngBytes(z: Zlib, w: nat, h: nat, rgb: Bytes) returns (file: Option<Bytes>)
    ensures file == Png(z, w, h, rgb)
  {
    var stride := w * 3;
    var raw: Bytes := [];
    for y := 0 to h
      invariant raw == Scanlines(rgb, stride, y)
    {
      raw := raw + [0];
      raw := raw + Row(rgb, stride, y);
    }
    if w >= LIMIT || h >= LIMIT { return None; }
    var header := Chunk(z, IHDR, Ihdr(w, h));
    var data := Chunk(z, IDAT, z.compress(raw));
    var end := Chunk(z, IEND, []);
    if data.None? { return None; }
    return Some(SIGNATURE + header.value + data.value + end.value);
  }

  // ---- the reader ----

  /** The number that bytes stand for, highest first. */
  function Unpack(b: Bytes): nat {
    if b == [] then 0 else 0x100 * Unpack(b[..|b| - 1]) + b[|b| - 1]
  }

  datatype Piece = Piece(tag: Bytes, data: Bytes)

  /** The chunks of the bytes, if they split into chunks with matching lengths and check fields. */
  function ReadChunks(z: Zlib, b: Bytes): Option<seq<Piece>>
    decreases |b|
  {
    if b == [] then Some([])
    else if |b| < 12 then None
    else
      var n := Unpack(b[..4]);
      if |b| < 12 + n then None
      else
        var tag, data, crc := b[4..8], b[8..8 + n], Unpack(b[8 + n..12 + n]);
        var rest := ReadChunks(z, b[12 + n..]);
        if rest.None? || crc != z.crc32(tag + data) % LIMIT then None
        else Some([Piece(tag, data)] + rest.value)
  }

  function ReadFile(z: Zlib, file: Bytes): Option<seq<Piece>> {
    if |file| >= 8 && file[..8] == SIGNATURE then ReadChunks(z, file[8..]) else None
  }

  /** The pixels of h scanlines whose filter bytes are all zero. */
  function Unfilter(raw: Bytes, stride: nat, h: nat): Option<Bytes> {
    if h == 0 then (if raw == [] then Some([]) else None)
    else if |raw| < stride + 1 then None
    else
      var cut := |raw| - stride - 1;
      var above := Unfilter(raw[..cut], stride, h - 1);
      if above.None? || raw[cut] != 0 then None else Some(above.value + raw[cut + 1..])
  }

  datatype Image = Image(width: nat, height: nat, rgb: Bytes)

  /** An 8-bit truecolour image from its three chunks. */
  function Decode(z: Zlib, file: Bytes): Option<Image> {
    var pieces := ReadFile(z, file);
    if pieces.None? || |pieces.value| != 3 then None
    else
      var header, data, end := pieces.value[0], pieces.value[1], pieces.value[2];
      if header.tag != IHDR || |header.data| != 13 || data.tag != IDAT || end != Piece(IEND, []) then None
      else if header.data[8..] != [8, 2, 0, 0, 0] then None
      else
        var w, h, raw := Unpack(header.data[..4]), Unpack(header.data[4..8]), z.decompress(data.data);
        var rgb := if raw.None? then None else Unfilter(raw.value, w * 3, h);
        if rgb.None? then None else Some(Image(w, h, rgb.value))
  }

  // ---- the laws ----

  function Power256(k: nat): nat {
    if k == 0 then 1 else 0x100 * Power256(k - 1)
  }

  lemma {:induction false} UnpackBigEndian(n: nat, k: nat)
    requires n < Power256(k)
    ensures Unpack(BigEndian(n, k)) == n
  {
    if k > 0 {
      UnpackBigEndian(n / 0x100, k - 1);
      assert BigEndian(n, k)[..k - 1] == BigEndian(n / 0x100, k - 1);
    }
  }

  lemma {:induction false} UnpackPack(n: nat)
    requires n < LIMIT
    ensures Unpack(Pack(n)) == n
  {
    hide BigEndian, Unpack;
    assert Power256(4) == 0x100 * Power256(3) == 0x1_0000 * Power256(2) == LIMIT;
    UnpackBigEndian(n, 4);
  }

  lemma {:induction false} ChunkIsRead(z: Zlib, tag: Bytes, data: Bytes, rest: Bytes)
    requires |tag| == 4 && |data| < LIMIT
    ensures var b := Chunk(z, tag, data).value + rest; var after := ReadChunks(z, rest);
            ReadChunks(z, b) == if after.None? then None else Some([Piece(tag, data)] + after.value)
  {
    hide Pack, Unpack;
    var crc := z.crc32(tag + data) % LIMIT;
    var b := Chunk(z, tag, data).value + rest;
    var n := |data|;
    UnpackPack(n);
    UnpackPack(crc);
    assert b[..4] == Pack(n) && b[4..8] == tag && b[8..8 + n] == data;
    assert b[8 + n..12 + n] == Pack(crc) && b[12 + n..] == rest;
  }

  /** A reader splits the file into exactly the header, the data and the end chunk, lengths and check fields matching;
      the writer raises exactly where a size does not fit its four bytes. */
  lemma {:induction false} FileIsThreeChunks(z: Zlib, w: nat, h: nat, rgb: Bytes)
    ensures var file, idat := Png(z, w, h, rgb), z.compress(Scanlines(rgb, w * 3, h));
            (file.None? <==> w >= LIMIT || h >= LIMIT || |idat| >= LIMIT)
            && (file.Some? ==>
                  ReadFile(z, file.value) == Some([Piece(IHDR, Ihdr(w, h)), Piece(IDAT, idat), Piece(IEND, [])]))
  {
    hide Pack, Unpack, ReadChunks, Chunk, Scanlines;
    var file, idat := Png(z, w, h, rgb), z.compress(Scanlines(rgb, w * 3, h));
    if file.Some? {
      ChunksPack(z, w, h, idat);
      var a, b, c := Chunk(z, IHDR, Ihdr(w, h)).value, Chunk(z, IDAT, idat).value, Chunk(z, IEND, []).value;
      ChunkIsRead(z, IEND, [], []);
      assert c + [] == c;
      ChunkIsRead(z, IDAT, idat, c);
      ChunkIsRead(z, IHDR, Ihdr(w, h), b + c);
      NoChunks(z);
      assert file.value[..8] == SIGNATURE;
      assert file.value[8..] == a + (b + c);
      var p, q, r := Piece(IHDR, Ihdr(w, h)), Piece(IDAT, idat), Piece(IEND, []);
      assert [p] + ([q] + ([r] + [])) == [p, q, r];
    }
  }

  lemma {:induction false} ChunksPack(z: Zlib, w: nat, h: nat, idat: Bytes)
    requires w < LIMIT && h < LIMIT && |idat| < LIMIT
    ensures Chunk(z, IHDR, Ihdr(w, h)).Some? && Chunk(z, IDAT, idat).Some? && Chunk(z, IEND, []).Some?
  {
  }

  lemma {:induction false} NoChunks(z: Zlib)
    ensures ReadChunks(z, []) == Some([])
  {
  }

  lemma {:induction false} RowsAdd(stride: nat, k: nat)
    requires k > 0
    ensures k * stride == (k - 1) * stride + stride && (k - 1) * stride >= 0
  {
  }

  /** Dropping the filter bytes of the first k scanlines gives the first k rows of pixels. */
  lemma {:induction false} UnfilterScanlines(rgb: Bytes, stride: nat, k: nat)
    requires k * stride <= |rgb|
    ensures Unfilter(Scanlines(rgb, stride, k), stride, k) == Some(rgb[..k * stride])
  {
    if k > 0 {
      RowsAdd(stride, k);
      UnfilterScanlines(rgb, stride, k - 1);
      var above, row := Scanlines(rgb, stride, k - 1), Row(rgb, stride, k - 1);
      var raw := above + [0] + row;
      assert |row| == stride && raw[..|above|] == above && raw[|above| + 1..] == row;
      assert rgb[..(k - 1) * stride] + row == rgb[..k * stride];
    }
  }

  lemma {:induction false} UnfilterLength(raw: Bytes, stride: nat, h: nat)
    requires Unfilter(raw, stride, h).Some?
    ensures |Unfilter(raw, stride, h).value| == h * stride
  {
    if h > 0 {
      RowsAdd(stride, h);
      UnfilterLength(raw[..|raw| - stride - 1], stride, h - 1);
    }
  }

  /** Decoding gives back width, height and pixels exactly when the buffer holds 3wh bytes. */
  lemma {:induction false} DecodesToThePixels(z: Zlib, w: nat, h: nat, rgb: Bytes, file: Bytes)
    requires Sound(z, Scanlines(rgb, w * 3, h)) && Some(file) == Png(z, w, h, rgb)
    ensures Decode(z, file) == Some(Image(w, h, rgb)) <==> |rgb| == h * (w * 3)
  {
    hide Pack, Unpack, ReadFile, Png, Scanlines, Unfilter;
    var stride := w * 3;
    var raw := Scanlines(rgb, stride, h);
    FileIsThreeChunks(z, w, h, rgb);
    HeaderIsRead(w, h);
    if |rgb| == h * stride {
      UnfilterScanlines(rgb, stride, h);
      assert rgb[..h * stride] == rgb;
    }
    if Unfilter(raw, stride, h).Some? { UnfilterLength(raw, stride, h); }
  }

  lemma {:induction false} HeaderIsRead(w: nat, h: nat)
    requires w < LIMIT && h < LIMIT
    ensures var d := Ihdr(w, h);
            |d| == 13 && Unpack(d[..4]) == w && Unpack(d[4..8]) == h && d[8..] == [8, 2, 0, 0, 0]
  {
    hide Pack, Unpack;
    var d := Ihdr(w, h);
    UnpackPack(w);
    UnpackPack(h);
    assert d[..4] == Pack(w) && d[4..8] == Pack(h) && d[8..] == [8, 2, 0, 0, 0];
  }
}
