/** The PNG writer, and a decoder written from RFC 2083 that reads back exactly
    the pixels that were drawn. */
module Png {
  import opened Crc32
  import opened Words
  import opened Wrappers
  import CrcTheory
  import Zlib

  const SIGNATURE: seq<Byte> := [137, 80, 78, 71, 13, 10, 26, 10]
  const IHDR: seq<Byte> := [73, 72, 68, 82]
  const IDAT: seq<Byte> := [73, 68, 65, 84]
  const IEND: seq<Byte> := [73, 69, 78, 68]

  const MAX_U32: nat := 0xFFFF_FFFF

  /** The RangeError of Buffer.writeUInt32BE. */
  datatype EncodeError = OutOfRange

  // ---- What is written ---------------------------------------------------------

  function ChunkBytes(kind: seq<Byte>, data: seq<Byte>): seq<Byte>
    requires |data| <= MAX_U32
  {
    WriteU32BE(|data|) + (kind + data) + CrcField(kind + data)
  }

  function CrcField(body: seq<Byte>): (field: seq<Byte>)
    ensures |field| == 4 && ReadU32BE(field) == Value(Crc(body))
  {
    ToBitsOfValue(Crc(body));
    PowersOfTwo();
    ReadWriteU32BE(Value(Crc(body)));
    WriteU32BE(Value(Crc(body)))
  }

  /** n scanlines of width w, each after a filter byte of 0. */
  function Rows(pixels: seq<Byte>, w: nat, n: nat): seq<Byte>
    decreases n
  {
    if n == 0 || |pixels| < w then [] else [0] + pixels[..w] + Rows(pixels[w..], w, n - 1)
  }

  lemma RowSize(w: nat, n: nat)
    requires n > 0
    ensures w * n == w + w * (n - 1)
    ensures w * n >= w
  {
  }

  function HeaderData(size: nat): seq<Byte>
    requires size <= MAX_U32
  {
    WriteU32BE(size) + WriteU32BE(size) + [8, 6, 0, 0, 0]
  }

  datatype Chunk = Chunk(kind: seq<Byte>, data: seq<Byte>)

  /** Chunks the writer can frame, and those that PNG allows (section 3.2 of RFC 2083). */
  predicate Fits(c: Chunk, limit: nat) {
    |c.kind| == 4 && |c.data| <= limit
  }

  predicate AllFit(chunks: seq<Chunk>, limit: nat) {
    forall i :: 0 <= i < |chunks| ==> Fits(chunks[i], limit)
  }

  function ChunksBytes(chunks: seq<Chunk>): seq<Byte>
    requires AllFit(chunks, MAX_U32)
  {
    if chunks == [] then []
    else
      assert Fits(chunks[0], MAX_U32);
      ChunkBytes(chunks[0].kind, chunks[0].data) + ChunksBytes(chunks[1..])
  }

  function FileChunks(size: nat, idat: seq<Byte>): seq<Chunk>
    requires size <= MAX_U32
  {
    [Chunk(IHDR, HeaderData(size)), Chunk(IDAT, idat), Chunk(IEND, [])]
  }

  function Encode(size: nat, pixels: seq<Byte>): Result<seq<Byte>, EncodeError>
    requires |pixels| == 4 * size * size
  {
    var idat := Zlib.Compress(Rows(pixels, 4 * size, size));
    if size > MAX_U32 || |idat| > MAX_U32 then Err(OutOfRange)
    else Ok(SIGNATURE + ChunksBytes(FileChunks(size, idat)))
  }

  function Background(size: nat): (pixels: seq<Byte>)
    ensures |pixels| == 4 * size * size
  {
    seq(4 * size * size, i requires i >= 0 => if i % 4 == 2 then 0x11 else if i % 4 == 3 then 0xFF else 0x0F)
  }

  // ---- The program ---------------------------------------------------------------

  method WriteChunk(checksum: Checksum, kind: seq<Byte>, data: seq<Byte>) returns (r: Result<seq<Byte>, EncodeError>)
    requires checksum.Valid()
    modifies checksum`table
    ensures checksum.Valid() && (checksum.table == old(checksum.table) || fresh(checksum.table))
    ensures r == if |data| > MAX_U32 then Err(OutOfRange) else Ok(ChunkBytes(kind, data))
  {
    if |data| > MAX_U32 {
      return Err(OutOfRange);
    }
    var len := WriteU32BE(|data|);
    var crc := checksum.Compute(kind + data);
    ToBitsOfValue(crc);
    PowersOfTwo();
    r := Ok(len + (kind + data) + WriteU32BE(Value(crc)));
  }

  lemma CanvasSize(size: nat)
    ensures 4 * size * size == 4 * (size * size)
  {
  }

  /** Which pixel and channel a byte of the array is. */
  lemma ByteOfPixel(p: nat, c: nat)
    requires c < 4
    ensures (4 * p + c) / 4 == p && (4 * p + c) % 4 == c
  {
  }

  lemma BackgroundByte(size: nat, p: nat, c: nat)
    requires c < 4 && 4 * p + c < 4 * size * size
    ensures Background(size)[4 * p + c] == if c == 2 then 0x11 else if c == 3 then 0xFF else 0x0F
  {
    ByteOfPixel(p, c);
  }

  lemma BackgroundBytes(size: nat, p: nat)
    requires p < size * size
    ensures 4 * p + 4 <= |Background(size)|
    ensures Background(size)[4 * p..4 * p + 4] == [0x0F, 0x0F, 0x11, 0xFF]
  {
    CanvasSize(size);
    BackgroundByte(size, p, 0);
    BackgroundByte(size, p, 1);
    BackgroundByte(size, p, 2);
    BackgroundByte(size, p, 3);
    FourAt(Background(size), 4 * p);
  }

  lemma FourAt(s: seq<Byte>, i: nat)
    requires i + 4 <= |s|
    ensures s[i..i + 4] == [s[i + 0], s[i + 1], s[i + 2], s[i + 3]]
  {
  }

  method FillPixel(pixels: array<Byte>, i: nat)
    requires 4 * i + 4 <= pixels.Length
    modifies pixels
    ensures pixels[..4 * i + 4] == old(pixels[..4 * i]) + [0x0F, 0x0F, 0x11, 0xFF]
  {
    pixels[i * 4 + 0] := 0x0F;
    pixels[i * 4 + 1] := 0x0F;
    pixels[i * 4 + 2] := 0x11;
    pixels[i * 4 + 3] := 0xFF;
  }

  method FillBackground(pixels: array<Byte>, size: nat)
    requires pixels.Length == 4 * size * size
    modifies pixels
    ensures pixels[..] == Background(size)
  {
    var n := size * size;
    CanvasSize(size);
    for i := 0 to n
      invariant pixels[..4 * i] == Background(size)[..4 * i]
    {
      BackgroundBytes(size, i);
      FillPixel(pixels, i);
    }
  }

  /** One pass of the row loop: the filter byte, then the row's bytes. */
  method CopyRow(scanlines: array<Byte>, offset: nat, pixels: array<Byte>, start: nat, w: nat)
    requires scanlines != pixels
    requires offset + 1 + w <= scanlines.Length && start + w <= pixels.Length
    modifies scanlines
    ensures scanlines[..offset + 1 + w] == old(scanlines[..offset]) + [0] + pixels[start..start + w]
  {
    scanlines[offset] := 0;
    for x := 0 to w
      invariant scanlines[..offset] == old(scanlines[..offset]) && scanlines[offset] == 0
      invariant scanlines[offset + 1..offset + 1 + x] == pixels[start..start + x]
    {
      scanlines[offset + 1 + x] := pixels[start + x];
    }
    assert scanlines[..offset + 1 + w] == scanlines[..offset] + [0] + scanlines[offset + 1..offset + 1 + w];
  }

  /** n times w, summed. */
  ghost function Total(w: nat, n: nat): nat {
    if n == 0 then 0 else w + Total(w, n - 1)
  }

  lemma {:induction false} TotalIsProduct(w: nat, n: nat)
    ensures Total(w, n) == w * n
  {
    if n > 0 {
      TotalIsProduct(w, n - 1);
      RowSize(w, n);
    }
  }

  lemma Areas(size: nat)
    ensures 4 * size * size == Total(4 * size, size)
    ensures (1 + 4 * size) * size == Total(1 + 4 * size, size)
  {
    TotalIsProduct(4 * size, size);
    TotalIsProduct(1 + 4 * size, size);
  }

  /** Before a row of the loop: the rows left, after what is written, make up the whole buffer. */
  ghost predicate AtRow(scanlines: array<Byte>, offset: nat, pixels: array<Byte>, start: nat, w: nat, left: nat,
                        all: seq<Byte>)
    reads scanlines, pixels
  {
    && scanlines.Length == offset + Total(1 + w, left)
    && pixels.Length == start + Total(w, left)
    && scanlines[..offset] + Rows(pixels[start..], w, left) == all
  }

  /** The body of the row loop: one row more is written, one row less is still to come. */
  method WriteRow(scanlines: array<Byte>, offset: nat, pixels: array<Byte>, start: nat, w: nat, ghost left: nat,
                  ghost all: seq<Byte>)
    requires scanlines != pixels && left > 0 && AtRow(scanlines, offset, pixels, start, w, left, all)
    modifies scanlines
    ensures AtRow(scanlines, offset + 1 + w, pixels, start + w, w, left - 1, all)
  {
    ghost var before := scanlines[..offset];
    CopyRow(scanlines, offset, pixels, start, w);
    RowStep(before, scanlines[..offset + 1 + w], pixels[..], start, w, left);
    assert pixels[..][start..] == pixels[start..] && pixels[..][start + w..] == pixels[start + w..];
  }

  /** The row loop; the offsets y * (1 + w) and y * w of row y are kept as running sums. */
  method WriteRows(scanlines: array<Byte>, pixels: array<Byte>, w: nat, size: nat)
    requires scanlines != pixels && scanlines.Length == Total(1 + w, size) && pixels.Length == Total(w, size)
    modifies scanlines
    ensures scanlines[..] == Rows(pixels[..], w, size)
  {
    ghost var all := Rows(pixels[..], w, size);
    var offset: nat, start: nat := 0, 0;
    NoRowWritten(scanlines, pixels, w, size);
    for y := 0 to size
      invariant AtRow(scanlines, offset, pixels, start, w, size - y, all)
    {
      WriteRow(scanlines, offset, pixels, start, w, size - y, all);
      offset, start := offset + 1 + w, start + w;
    }
    AllRowsWritten(scanlines, offset, pixels, start, w, all);
  }

  lemma NoRowWritten(scanlines: array<Byte>, pixels: array<Byte>, w: nat, size: nat)
    requires scanlines.Length == Total(1 + w, size) && pixels.Length == Total(w, size)
    ensures AtRow(scanlines, 0, pixels, 0, w, size, Rows(pixels[..], w, size))
  {
    assert pixels[0..] == pixels[..] && scanlines[..0] == [];
    assert [] + Rows(pixels[..], w, size) == Rows(pixels[..], w, size);
  }

  lemma AllRowsWritten(scanlines: array<Byte>, offset: nat, pixels: array<Byte>, start: nat, w: nat, all: seq<Byte>)
    requires AtRow(scanlines, offset, pixels, start, w, 0, all)
    ensures scanlines[..] == all
  {
    assert scanlines[..] == scanlines[..offset] + [];
  }

  method BuildScanlines(pixels: array<Byte>, size: nat) returns (raw: seq<Byte>)
    requires pixels.Length == 4 * size * size
    ensures raw == Rows(pixels[..], 4 * size, size)
  {
    Areas(size);
    var scanlines := new Byte[(1 + 4 * size) * size];
    WriteRows(scanlines, pixels, 4 * size, size);
    raw := scanlines[..];
  }

  /** What is written after a row, with the rows still to come, is what was written before with one row more. */
  lemma RowStep(before: seq<Byte>, after: seq<Byte>, pixels: seq<Byte>, start: nat, w: nat, n: nat)
    requires n > 0 && start + w <= |pixels|
    requires after == before + [0] + pixels[start..start + w]
    ensures after + Rows(pixels[start + w..], w, n - 1) == before + Rows(pixels[start..], w, n)
  {
  }

  /** The signature and the three chunks. */
  method WriteFile(checksum: Checksum, size: nat, idat: seq<Byte>) returns (r: Result<seq<Byte>, EncodeError>)
    requires checksum.Valid() && size <= MAX_U32
    modifies checksum`table
    ensures checksum.Valid()
    ensures r == if |idat| > MAX_U32 then Err(OutOfRange) else Ok(SIGNATURE + ChunksBytes(FileChunks(size, idat)))
  {
    var ihdr := WriteU32BE(size) + WriteU32BE(size) + [8, 6, 0, 0, 0];
    var header := WriteChunk(checksum, IHDR, ihdr);
    var body :- WriteChunk(checksum, IDAT, idat);
    var end := WriteChunk(checksum, IEND, []);
    r := Ok(SIGNATURE + header.value + body + end.value);
    ConcatChunks(SIGNATURE, Chunk(IHDR, ihdr), Chunk(IDAT, idat), Chunk(IEND, []));
  }

  /** The background, drawn over by the callback; it gets the typed array, whose length it cannot change. */
  method DrawPixels(size: nat, draw: seq<Byte> --> seq<Byte>) returns (pixels: array<Byte>)
    requires draw.requires(Background(size)) && |draw(Background(size))| == 4 * size * size
    ensures fresh(pixels) && pixels[..] == draw(Background(size))
  {
    pixels := new Byte[4 * size * size];
    FillBackground(pixels, size);
    var drawn := draw(pixels[..]);
    forall k | 0 <= k < pixels.Length {
      pixels[k] := drawn[k];
    }
  }

  method MakePng(checksum: Checksum, size: nat, draw: seq<Byte> --> seq<Byte>)
      returns (r: Result<seq<Byte>, EncodeError>)
    requires checksum.Valid()
    requires draw.requires(Background(size)) && |draw(Background(size))| == 4 * size * size
    modifies checksum`table
    ensures checksum.Valid()
    ensures r == Encode(size, draw(Background(size)))
  {
    var pixels := DrawPixels(size, draw);
    var scanlines := BuildScanlines(pixels, size);
    if size > MAX_U32 {
      return Err(OutOfRange);
    }
    var idat := Zlib.DeflateRaw(scanlines);
    r := WriteFile(checksum, size, idat);
  }

  lemma ConcatChunks(prefix: seq<Byte>, a: Chunk, b: Chunk, c: Chunk)
    requires Fits(a, MAX_U32) && Fits(b, MAX_U32) && Fits(c, MAX_U32)
    ensures prefix + ChunksBytes([a, b, c])
         == prefix + ChunkBytes(a.kind, a.data) + ChunkBytes(b.kind, b.data) + ChunkBytes(c.kind, c.data)
  {
    assert [a, b, c][1..] == [b, c] && [b, c][1..] == [c] && [c][1..] == [];
    assert ChunksBytes([c]) == ChunkBytes(c.kind, c.data);
  }

  // ---- The decoder -----------------------------------------------------------------

  datatype DecodeError =
    | BadSignature | TruncatedChunk | LengthTooLarge | BadCrc | BadLayout | BadHeader | UnsupportedFormat
    | BadFilter | BadSize | BadData(error: Zlib.ZlibError)

  datatype Image = Image(width: nat, height: nat, pixels: seq<Byte>)

  /** No chunk length and no dimension may exceed this (sections 3.2 and 4.1.1 of RFC 2083). */
  const MAX_PNG: nat := 0x7FFF_FFFF

  /** Section 3.2 of RFC 2083: the first chunk and the bytes after it. */
  function ReadChunk(s: seq<Byte>): (r: Result<(Chunk, seq<Byte>), DecodeError>)
    ensures r.Ok? ==> |r.value.1| < |s|
  {
    if |s| < 12 then Err(TruncatedChunk)
    else
      var len := ReadU32BE(s[..4]);
      if len > MAX_PNG then Err(LengthTooLarge)
      else if |s| < 12 + len then Err(TruncatedChunk)
      else if ReadU32BE(s[8 + len..12 + len]) != Value(Crc(s[4..8 + len])) then Err(BadCrc)
      else Ok((Chunk(s[4..8], s[8..8 + len]), s[12 + len..]))
  }

  function ReadChunks(s: seq<Byte>): Result<seq<Chunk>, DecodeError>
    decreases |s|
  {
    if s == [] then Ok([])
    else
      var first :- ReadChunk(s);
      var more :- ReadChunks(first.1);
      Ok([first.0] + more)
  }

  /** The concatenated data of chunks that must all be IDAT chunks. */
  function ImageData(chunks: seq<Chunk>): Result<seq<Byte>, DecodeError> {
    if chunks == [] then Ok([])
    else if chunks[0].kind != IDAT then Err(BadLayout)
    else
      var more :- ImageData(chunks[1..]);
      Ok(chunks[0].data + more)
  }

  /** Section 6.2 of RFC 2083: n scanlines of w bytes, each with filter type None. */
  function Unfilter(raw: seq<Byte>, w: nat, n: nat): Result<seq<Byte>, DecodeError>
    decreases n
  {
    if n == 0 then if raw == [] then Ok([]) else Err(BadSize)
    else if |raw| < 1 + w then Err(BadSize)
    else if raw[0] != 0 then Err(BadFilter)
    else
      var more :- Unfilter(raw[1 + w..], w, n - 1);
      Ok(raw[1..1 + w] + more)
  }

  /** Section 4.1.1 of RFC 2083, for 8-bit RGBA without interlacing. */
  function ReadHeader(header: seq<Byte>): Result<(nat, nat), DecodeError> {
    if |header| != 13 then Err(BadHeader)
    else
      var width, height := ReadU32BE(header[..4]), ReadU32BE(header[4..8]);
      if width == 0 || height == 0 || width > MAX_PNG || height > MAX_PNG then Err(BadHeader)
      else if header[8..] != [8, 6, 0, 0, 0] then Err(UnsupportedFormat)
      else Ok((width, height))
  }

  function DecodeChunks(chunks: seq<Chunk>): Result<Image, DecodeError> {
    var n := |chunks|;
    if n < 3 || chunks[0].kind != IHDR || chunks[n - 1] != Chunk(IEND, []) then Err(BadLayout)
    else
      var dimensions :- ReadHeader(chunks[0].data);
      var compressed :- ImageData(chunks[1..n - 1]);
      match Zlib.Decompress(compressed)
      case Err(e) => Err(BadData(e))
      case Ok(raw) =>
        var pixels :- Unfilter(raw, 4 * dimensions.0, dimensions.1);
        Ok(Image(dimensions.0, dimensions.1, pixels))
  }

  function Decode(file: seq<Byte>): Result<Image, DecodeError> {
    if |file| < 8 || file[..8] != SIGNATURE then Err(BadSignature)
    else
      var chunks :- ReadChunks(file[8..]);
      DecodeChunks(chunks)
  }

  // ---- Round trip ---------------------------------------------------------------------

  /** What the chunk reader makes of a frame with any checksum field. */
  lemma {:induction false} ReadFrame(body: seq<Byte>, len: nat, field: seq<Byte>, rest: seq<Byte>)
    requires |body| == 4 + len && len <= MAX_U32 && |field| == 4
    ensures ReadChunk(WriteU32BE(len) + body + field + rest) ==
      if len > MAX_PNG then Err(LengthTooLarge)
      else if ReadU32BE(field) != Value(Crc(body)) then Err(BadCrc)
      else Ok((Chunk(body[..4], body[4..]), rest))
  {
    ReadWriteU32BE(len);
    var s := WriteU32BE(len) + body + field + rest;
    assert s[..4] == WriteU32BE(len);
    assert s[4..8 + len] == body && s[8 + len..12 + len] == field && s[12 + len..] == rest;
    assert s[4..8] == body[..4] && s[8..8 + len] == body[4..];
  }

  lemma {:induction false} ReadChunkBytes(kind: seq<Byte>, data: seq<Byte>, rest: seq<Byte>)
    requires |kind| == 4 && |data| <= MAX_U32
    ensures ReadChunk(ChunkBytes(kind, data) + rest) ==
      if |data| <= MAX_PNG then Ok((Chunk(kind, data), rest)) else Err(LengthTooLarge)
  {
    var body := kind + data;
    ReadFrame(body, |data|, CrcField(body), rest);
    assert body[..4] == kind && body[4..] == data;
  }

  /** A chunk in which up to four neighbouring bytes of type or data were replaced is never accepted. */
  lemma {:induction false} CorruptChunkRejected(kind: seq<Byte>, data: seq<Byte>, prefix: seq<Byte>, x: seq<Byte>,
                                                y: seq<Byte>, suffix: seq<Byte>, rest: seq<Byte>)
    requires |kind| == 4 && |data| <= MAX_PNG && kind + data == prefix + x + suffix
    requires |x| == |y| <= 4 && x != y
    ensures ReadChunk(WriteU32BE(|data|) + (prefix + y + suffix) + CrcField(kind + data) + rest) == Err(BadCrc)
  {
    var crc, crc' := Crc(kind + data), Crc(prefix + y + suffix);
    ToBitsOfValue(crc);
    ToBitsOfValue(crc');
    CrcTheory.BytesDetected(prefix, x, y, suffix);
    assert |prefix + y + suffix| == |prefix + x + suffix| == 4 + |data|;
    ReadFrame(prefix + y + suffix, |data|, CrcField(kind + data), rest);
  }

  lemma {:induction false} UnfilterRows(pixels: seq<Byte>, w: nat, n: nat)
    requires |pixels| == w * n
    ensures Unfilter(Rows(pixels, w, n), w, n) == Ok(pixels)
    decreases n
  {
    if n > 0 {
      RowSize(w, n);
      UnfilterRows(pixels[w..], w, n - 1);
      var raw := Rows(pixels, w, n);
      assert raw[1..1 + w] == pixels[..w] && raw[1 + w..] == Rows(pixels[w..], w, n - 1);
      assert pixels[..w] + pixels[w..] == pixels;
    } else {
      assert pixels == [];
    }
  }

  lemma {:induction false} RowsLength(pixels: seq<Byte>, w: nat, n: nat)
    requires |pixels| == w * n
    ensures |Rows(pixels, w, n)| == n * (1 + w)
    decreases n
  {
    if n > 0 {
      RowSize(w, n);
      RowsLength(pixels[w..], w, n - 1);
      assert n * (1 + w) == (n - 1) * (1 + w) + (1 + w);
    }
  }

  /** The length of the image data, which only depends on the size. */
  function DataLength(size: nat): nat {
    Zlib.CompressedLength(size * (1 + 4 * size))
  }

  lemma ReadOneMore(c: Chunk, rest: seq<Byte>)
    requires Fits(c, MAX_U32)
    ensures |c.data| > MAX_PNG ==> ReadChunks(ChunkBytes(c.kind, c.data) + rest) == Err(LengthTooLarge)
    ensures |c.data| <= MAX_PNG && ReadChunks(rest).Ok? ==>
      ReadChunks(ChunkBytes(c.kind, c.data) + rest) == Ok([c] + ReadChunks(rest).value)
    ensures |c.data| <= MAX_PNG && ReadChunks(rest).Err? ==>
      ReadChunks(ChunkBytes(c.kind, c.data) + rest) == ReadChunks(rest)
  {
    ReadChunkBytes(c.kind, c.data, rest);
  }

  /** Reading undoes writing for every list of chunks that PNG allows. */
  lemma {:induction false} ReadWriteChunks(chunks: seq<Chunk>)
    requires AllFit(chunks, MAX_U32)
    ensures ReadChunks(ChunksBytes(chunks)) == if AllFit(chunks, MAX_PNG) then Ok(chunks) else Err(LengthTooLarge)
  {
    if chunks != [] {
      var c, more := chunks[0], chunks[1..];
      assert chunks == [c] + more;
      ReadWriteChunks(more);
      ReadOneMore(c, ChunksBytes(more));
      FitsFirst(c, more, MAX_PNG);
    }
  }

  lemma FitsFirst(c: Chunk, more: seq<Chunk>, limit: nat)
    ensures AllFit([c] + more, limit) <==> Fits(c, limit) && AllFit(more, limit)
  {
    var all := [c] + more;
    assert all[0] == c && forall i :: 0 <= i < |more| ==> more[i] == all[i + 1];
  }

  lemma ReadHeaderData(size: nat)
    requires size <= MAX_U32
    ensures ReadHeader(HeaderData(size)) == if 1 <= size <= MAX_PNG then Ok((size, size)) else Err(BadHeader)
  {
    ReadWriteU32BE(size);
    ReadFields(WriteU32BE(size), WriteU32BE(size), [8, 6, 0, 0, 0]);
  }

  lemma ReadFields(width: seq<Byte>, height: seq<Byte>, format: seq<Byte>)
    requires |width| == |height| == 4
    ensures (width + height + format)[..4] == width
    ensures (width + height + format)[4..8] == height
    ensures (width + height + format)[8..] == format
  {
  }

  /** The image data is longer than the image is wide. */
  lemma DataLengthBound(size: nat)
    ensures size <= DataLength(size)
  {
  }

  lemma {:induction false} DecodeFile(size: nat, pixels: seq<Byte>, idat: seq<Byte>)
    requires |pixels| == 4 * size * size && size <= MAX_PNG
    requires idat == Zlib.Compress(Rows(pixels, 4 * size, size))
    ensures DecodeChunks(FileChunks(size, idat)) == if size == 0 then Err(BadHeader) else Ok(Image(size, size, pixels))
  {
    ReadHeaderData(size);
    var chunks := FileChunks(size, idat);
    assert |chunks| == 3;
    assert chunks[1..2] == [chunks[1]];
    SingleImageData(chunks[1]);
    if size > 0 {
      RowsLength(pixels, 4 * size, size);
      Zlib.DecompressCompress(Rows(pixels, 4 * size, size));
      UnfilterRows(pixels, 4 * size, size);
    }
  }

  lemma SingleImageData(c: Chunk)
    requires c.kind == IDAT
    ensures ImageData([c]) == Ok(c.data)
  {
    assert [c][1..] == [];
    assert ImageData([]) == Ok([]);
    assert c.data + [] == c.data;
  }

  lemma EncodedLength(size: nat, pixels: seq<Byte>)
    requires |pixels| == 4 * size * size
    ensures |Zlib.Compress(Rows(pixels, 4 * size, size))| == DataLength(size) >= size
  {
    RowsLength(pixels, 4 * size, size);
    Zlib.CompressLength(Rows(pixels, 4 * size, size));
    DataLengthBound(size);
  }

  /** Decoding a framed file is decoding its chunks, unless one is too long for PNG. */
  lemma {:induction false} DecodeWritten(chunks: seq<Chunk>)
    requires AllFit(chunks, MAX_U32)
    ensures Decode(SIGNATURE + ChunksBytes(chunks)) ==
      if AllFit(chunks, MAX_PNG) then DecodeChunks(chunks) else Err(LengthTooLarge)
  {
    var file := SIGNATURE + ChunksBytes(chunks);
    assert file[..8] == SIGNATURE && file[8..] == ChunksBytes(chunks);
    ReadWriteChunks(chunks);
  }

  lemma FileChunksFit(size: nat, idat: seq<Byte>, limit: nat)
    requires size <= MAX_U32 && limit >= 13
    ensures AllFit(FileChunks(size, idat), limit) <==> |idat| <= limit
  {
    var chunks := FileChunks(size, idat);
    assert chunks[1] == Chunk(IDAT, idat);
    if |idat| <= limit {
      assert Fits(chunks[0], limit) && Fits(chunks[1], limit) && Fits(chunks[2], limit);
    } else {
      assert !Fits(chunks[1], limit);
    }
  }

  lemma {:induction false} DecodeIdat(size: nat, pixels: seq<Byte>, idat: seq<Byte>)
    requires |pixels| == 4 * size * size && size <= |idat| <= MAX_U32
    requires idat == Zlib.Compress(Rows(pixels, 4 * size, size))
    ensures AllFit(FileChunks(size, idat), MAX_U32)
    ensures Decode(SIGNATURE + ChunksBytes(FileChunks(size, idat))) ==
      if |idat| > MAX_PNG then Err(LengthTooLarge)
      else if size == 0 then Err(BadHeader)
      else Ok(Image(size, size, pixels))
  {
    FileChunksFit(size, idat, MAX_U32);
    FileChunksFit(size, idat, MAX_PNG);
    DecodeWritten(FileChunks(size, idat));
    if |idat| <= MAX_PNG {
      DecodeFile(size, pixels, idat);
    }
  }

  /** Between PNG's limit and that of the length field there are sizes that are written but cannot be decoded. */
  lemma TooLargeForPng()
    ensures 0x7FFF_FFFF < DataLength(25000) <= 0xFFFF_FFFF
  {
  }

  /** The writer refuses exactly the sizes whose image data does not fit a 32-bit length;
      what it writes decodes to the pixels drawn exactly when the image is not empty and
      the length is one PNG allows. */
  lemma {:induction false} DecodeEncode(size: nat, pixels: seq<Byte>)
    requires |pixels| == 4 * size * size
    ensures Encode(size, pixels).Ok? <==> DataLength(size) <= 0xFFFF_FFFF
    ensures Encode(size, pixels).Ok? ==>
      Decode(Encode(size, pixels).value) ==
        if DataLength(size) > 0x7FFF_FFFF then Err(LengthTooLarge)
        else if size == 0 then Err(BadHeader)
        else Ok(Image(size, size, pixels))
  {
    EncodedLength(size, pixels);
    var idat := Zlib.Compress(Rows(pixels, 4 * size, size));
    if |idat| <= MAX_U32 {
      DecodeIdat(size, pixels, idat);
    }
  }

  // ---- The bytes of a file ---------------------------------------------------------------

  /** Four bytes that hold a number, highest byte first. */
  predicate HoldsU32(bytes: seq<Byte>, n: nat) {
    && |bytes| == 4
    && 0x100 * bytes[0] as int + bytes[1] as int == n / 0x1_0000
    && 0x100 * bytes[2] as int + bytes[3] as int == n % 0x1_0000
  }

  /** Where the parts of a chunk are: the length of its data, its type, its data, and the CRC of type and data. */
  lemma ChunkLayout(kind: seq<Byte>, data: seq<Byte>)
    requires |kind| == 4 && |data| <= 0xFFFF_FFFF
    ensures var s := ChunkBytes(kind, data);
      && |s| == 12 + |data|
      && HoldsU32(s[..4], |data|)
      && s[4..8] == kind && s[8..8 + |data|] == data
      && HoldsU32(s[8 + |data|..], Value(Crc(kind + data)))
  {
    var body := kind + data;
    var s := ChunkBytes(kind, data);
    ToBitsOfValue(Crc(body));
    PowersOfTwo();
    HighByteFirst(|data|);
    HighByteFirst(Value(Crc(body)));
    assert s == WriteU32BE(|data|) + body + CrcField(body);
    assert s[..4] == WriteU32BE(|data|) && s[4..8 + |data|] == body && s[8 + |data|..] == CrcField(body);
    assert s[4..8] == body[..4] && s[8..8 + |data|] == body[4..];
  }

  /** A header says the size twice, then 8 bits per channel, RGBA, and three zeros. */
  lemma HeaderLayout(size: nat)
    requires size <= 0xFFFF_FFFF
    ensures var s := HeaderData(size);
      |s| == 13 && HoldsU32(s[..4], size) && HoldsU32(s[4..8], size) && s[8..] == [8, 6, 0, 0, 0]
  {
    HighByteFirst(size);
    ReadFields(WriteU32BE(size), WriteU32BE(size), [8, 6, 0, 0, 0]);
  }

  /** A file is the PNG signature, "IHDR" with the header, "IDAT" with the zlib stream of the rows, and an
      empty "IEND". */
  lemma FileLayout(size: nat, pixels: seq<Byte>)
    requires |pixels| == 4 * size * size && Encode(size, pixels).Ok?
    ensures size <= 0xFFFF_FFFF && |Zlib.Compress(Rows(pixels, 4 * size, size))| <= 0xFFFF_FFFF
    ensures Encode(size, pixels).value ==
      [137, 80, 78, 71, 13, 10, 26, 10]
      + ChunkBytes([73, 72, 68, 82], HeaderData(size))
      + ChunkBytes([73, 68, 65, 84], Zlib.Compress(Rows(pixels, 4 * size, size)))
      + ChunkBytes([73, 69, 78, 68], [])
  {
    var idat := Zlib.Compress(Rows(pixels, 4 * size, size));
    ConcatChunks(SIGNATURE, Chunk(IHDR, HeaderData(size)), Chunk(IDAT, idat), Chunk(IEND, []));
  }

  lemma FirstRow(pixels: seq<Byte>, w: nat, n: nat)
    requires n > 0 && |pixels| >= w
    ensures Rows(pixels, w, n) == [0] + pixels[..w] + Rows(pixels[w..], w, n - 1)
  {
  }

  /** Positions in a first part and a rest. */
  lemma InFirst(pixels: seq<Byte>, w: nat, rest: seq<Byte>, x: nat)
    requires x < w <= |pixels|
    ensures ([0] + pixels[..w] + rest)[0] == 0 && ([0] + pixels[..w] + rest)[1 + x] == pixels[x]
  {
  }

  lemma InRest(first: seq<Byte>, rest: seq<Byte>, i: nat)
    requires i < |rest|
    ensures (first + rest)[|first| + i] == rest[i]
  {
  }

  lemma {:induction false} RowAt(pixels: seq<Byte>, w: nat, n: nat, y: nat, x: nat)
    requires |pixels| == Total(w, n) && y < n && x < w
    ensures Total(1 + w, y) + 1 + x < |Rows(pixels, w, n)| && Total(w, y) + x < |pixels|
    ensures Rows(pixels, w, n)[Total(1 + w, y)] == 0
    ensures Rows(pixels, w, n)[Total(1 + w, y) + 1 + x] == pixels[Total(w, y) + x]
    decreases n
  {
    FirstRow(pixels, w, n);
    var first, rest := [0] + pixels[..w], Rows(pixels[w..], w, n - 1);
    if y == 0 {
      InFirst(pixels, w, rest, x);
    } else {
      var o, q := Total(1 + w, y - 1), Total(w, y - 1);
      RowAt(pixels[w..], w, n - 1, y - 1, x);
      InRest(first, rest, o);
      InRest(first, rest, o + 1 + x);
      assert pixels[w..][q + x] == pixels[w + (q + x)];
    }
  }

  /** Row y starts, at o, with a zero byte, and byte x of it is byte x of that row of pixels, which starts at p. */
  lemma RowLayout(pixels: seq<Byte>, w: nat, n: nat, y: nat, x: nat, o: nat, p: nat)
    requires |pixels| == w * n && y < n && x < w && o == (1 + w) * y && p == w * y
    ensures o + 1 + x < |Rows(pixels, w, n)| && p + x < |pixels|
    ensures Rows(pixels, w, n)[o] == 0
    ensures Rows(pixels, w, n)[o + 1 + x] == pixels[p + x]
  {
    TotalIsProduct(w, n);
    TotalIsProduct(w, y);
    TotalIsProduct(1 + w, y);
    RowAt(pixels, w, n, y, x);
  }
}
