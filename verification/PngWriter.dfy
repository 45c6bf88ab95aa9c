/** Writing a grayscale image as a PNG file: filter-zero scanlines in stored zlib blocks.

    `Decode` is an independent reader of such files, written from RFC 2083, RFC 1950 and
    RFC 1951. */
module PngWriter {
  import opened Options
  import opened Bytes
  import opened Checksums
  import opened Adler

  datatype HostImage = HostImage(width: int, height: int, pixels: seq<byte>)

  /** One byte for each pixel. */
  predicate IsImage(image: HostImage) {
    && 0 <= image.width <= U32_MAX && 0 <= image.height <= U32_MAX
    && |image.pixels| == image.width * image.height
  }

  const SIGNATURE: seq<byte> := [0x89, 0x50, 0x4e, 0x47, 0x0d, 0x0a, 0x1a, 0x0a]
  const IHDR: seq<byte> := [0x49, 0x48, 0x44, 0x52]
  const IDAT: seq<byte> := [0x49, 0x44, 0x41, 0x54]
  const IEND: seq<byte> := [0x49, 0x45, 0x4e, 0x44]
  const BLOCK_LIMIT: int := 0xffff

  // ---- the file ---------------------------------------------------------------------------

  function StoredBlock(last: bool, data: seq<byte>): (block: seq<byte>)
    requires |data| <= BLOCK_LIMIT
    ensures |block| == 5 + |data|
  {
    [if last then 1 else 0] + Le16(|data|) + Le16(BLOCK_LIMIT - |data|) + data
  }

  /** Stored blocks of at most 65535 bytes; only the last is final. */
  function Stored(data: seq<byte>): seq<byte> {
    if |data| <= BLOCK_LIMIT then StoredBlock(true, data)
    else StoredBlock(false, data[..BLOCK_LIMIT]) + Stored(data[BLOCK_LIMIT..])
  }

  function Zlib(data: seq<byte>): seq<byte> {
    [0x78, 0x01] + Stored(data) + Be32(AdlerOf(data))
  }

  function Chunk(kind: seq<byte>, data: seq<byte>): seq<byte> {
    Be32(|data|) + kind + data + RegisterBytes(CrcOf(kind + data))
  }

  datatype PngChunk = PngChunk(kind: seq<byte>, data: seq<byte>)

  predicate Fits(chunk: PngChunk) {
    |chunk.kind| == 4 && |chunk.data| <= U32_MAX
  }

  /** Chunks one after the other. */
  function Encoded(chunks: seq<PngChunk>): seq<byte> {
    if chunks == [] then [] else Chunk(chunks[0].kind, chunks[0].data) + Encoded(chunks[1..])
  }

  /** Each whole row, after a zero for its filter. */
  function Scanlines(width: nat, pixels: seq<byte>): seq<byte>
    requires width > 0
  {
    if |pixels| < width then [] else [0] + pixels[..width] + Scanlines(width, pixels[width..])
  }

  function Header(image: HostImage): (header: seq<byte>)
    requires IsImage(image)
    ensures |header| == 13
  {
    Be32(image.width) + Be32(image.height) + [8, 0, 0, 0, 0]
  }

  function ImageData(image: HostImage): seq<byte>
    requires IsImage(image) && image.width > 0
  {
    Zlib(Scanlines(image.width, image.pixels))
  }

  function Png(image: HostImage): seq<byte>
    requires IsImage(image) && image.width > 0
  {
    SIGNATURE + Encoded(ImageChunks(image))
  }

  function ImageChunks(image: HostImage): seq<PngChunk>
    requires IsImage(image) && image.width > 0
  {
    [PngChunk(IHDR, Header(image)), PngChunk(IDAT, ImageData(image)), PngChunk(IEND, [])]
  }

  // ---- sizes ------------------------------------------------------------------------------

  /** How many stored blocks hold some bytes: at least one. */
  function Blocks(n: nat): nat {
    if n == 0 then 1 else (n + BLOCK_LIMIT - 1) / BLOCK_LIMIT
  }

  /** The length of the image data: filter bytes and pixels, the headers of the stored
      blocks, and what zlib adds. */
  function DataLength(width: nat, height: nat): nat {
    var n := width * height + height;
    n + 5 * Blocks(n) + 6
  }

  lemma OneMoreBlock(n: nat)
    ensures Blocks(n) == if n <= BLOCK_LIMIT then 1 else 1 + Blocks(n - BLOCK_LIMIT)
  {
  }

  lemma {:induction false} StoredLength(data: seq<byte>)
    ensures |Stored(data)| == |data| + 5 * Blocks(|data|)
    decreases |data|
  {
    OneMoreBlock(|data|);
    if |data| > BLOCK_LIMIT {
      var first, more := data[..BLOCK_LIMIT], data[BLOCK_LIMIT..];
      StoredLength(more);
      assert Stored(data) == StoredBlock(false, first) + Stored(more);
    }
  }

  lemma {:induction false} ScanlinesLength(width: nat, rows: nat, pixels: seq<byte>)
    requires width > 0 && |pixels| == width * rows
    ensures |Scanlines(width, pixels)| == |pixels| + rows
  {
    if rows > 0 {
      assert width * rows == width + width * (rows - 1);
      ScanlinesLength(width, rows - 1, pixels[width..]);
    }
  }

  /** The dimensions alone decide the length of the image data. */
  lemma ImageDataLength(image: HostImage)
    requires IsImage(image) && image.width > 0
    ensures |ImageData(image)| == DataLength(image.width, image.height)
  {
    ScanlinesLength(image.width, image.height, image.pixels);
    StoredLength(Scanlines(image.width, image.pixels));
  }

  // ---- the writer ------------------------------------------------------------------------------

  lemma Associative<T>(a: seq<T>, b: seq<T>, c: seq<T>)
    ensures a + b + c == a + (b + c)
  {
  }

  /** The blocks of the data from an offset on: one block, and the blocks of what is left. */
  lemma NextBlock(data: seq<byte>, offset: nat, end: nat)
    requires offset < |data| && end == if offset + BLOCK_LIMIT < |data| then offset + BLOCK_LIMIT else |data|
    ensures Stored(data[offset..])
         == if end < |data| then StoredBlock(false, data[offset..end]) + Stored(data[end..])
            else StoredBlock(true, data[offset..end])
  {
    var rest := data[offset..];
    if end < |data| {
      assert rest[..BLOCK_LIMIT] == data[offset..end] && rest[BLOCK_LIMIT..] == data[end..];
    } else {
      assert rest == data[offset..end];
    }
  }

  lemma EmptyBlock()
    ensures Stored([]) == [1, 0, 0, 0xff, 0xff]
  {
  }

  lemma NextRow(width: nat, pixels: seq<byte>, row: nat)
    requires width > 0 && row + width <= |pixels|
    ensures Scanlines(width, pixels[row..])
         == [0] + pixels[row..row + width] + Scanlines(width, pixels[row + width..])
  {
    var rest := pixels[row..];
    assert rest[..width] == pixels[row..row + width] && rest[width..] == pixels[row + width..];
  }

  method WriteScanlines(width: nat, pixels: seq<byte>) returns (scanlines: seq<byte>)
    requires width > 0
    ensures scanlines == Scanlines(width, pixels)
  {
    scanlines := [];
    var row := 0;
    assert pixels[0..] == pixels;
    while row + width <= |pixels|
      invariant row <= |pixels| && scanlines + Scanlines(width, pixels[row..]) == Scanlines(width, pixels)
      decreases |pixels| - row
    {
      var line := [0] + pixels[row..row + width];
      NextRow(width, pixels, row);
      Associative(scanlines, line, Scanlines(width, pixels[row + width..]));
      scanlines := scanlines + line;
      row := row + width;
    }
  }

  /** The bytes written so far. */
  class Output {
    var bytes: seq<byte>

    constructor ()
      ensures bytes == []
    {
      bytes := [];
    }

    method WriteAll(data: seq<byte>)
      modifies this
      ensures bytes == old(bytes) + data
    {
      bytes := bytes + data;
    }

    /** Data too long for its length field is refused before anything is written. */
    method WriteChunk(kind: seq<byte>, data: seq<byte>) returns (written: Result<(), string>)
      modifies this
      ensures written.Ok? <==> |data| <= U32_MAX
      ensures bytes == if written.Ok? then old(bytes) + Chunk(kind, data) else old(bytes)
    {
      if |data| > U32_MAX { return Err("PNG chunk is too large"); }
      var length := Be32(|data|);
      WriteAll(length);
      WriteAll(kind);
      WriteAll(data);
      var crc := Crc(kind, data);
      WriteAll(RegisterBytes(crc));
      FiveSeqs(old(bytes), length, kind, data, RegisterBytes(crc));
      written := Ok(());
    }

    method WriteStored(data: seq<byte>)
      requires data != []
      modifies this
      ensures bytes == old(bytes) + Stored(data)
    {
      var offset := 0;
      assert data[0..] == data;
      while offset < |data|
        invariant offset <= |data|
        invariant offset < |data| ==> bytes + Stored(data[offset..]) == old(bytes) + Stored(data)
        invariant offset == |data| ==> bytes == old(bytes) + Stored(data)
      {
        var end := if offset + BLOCK_LIMIT < |data| then offset + BLOCK_LIMIT else |data|;
        var block := StoredBlock(end == |data|, data[offset..end]);
        NextBlock(data, offset, end);
        if end < |data| {
          Associative(bytes, block, Stored(data[end..]));
        }
        WriteAll(block);
        offset := end;
      }
    }

    method WriteZlibStored(data: seq<byte>)
      modifies this
      ensures bytes == old(bytes) + Zlib(data)
    {
      WriteAll([0x78, 0x01]);
      if data == [] {
        EmptyBlock();
        WriteAll([1, 0, 0, 0xff, 0xff]);
      } else {
        WriteStored(data);
      }
      var adler := Adler32(data);
      WriteAll(Be32(adler));
      FourSeqs(old(bytes), [0x78, 0x01], Stored(data), Be32(adler));
      Associative([0x78, 0x01], Stored(data), Be32(adler));
    }

    /** Write an image. Zero dimensions are refused before anything is written; image data too
        long for one chunk is refused after the signature and the header. */
    method WritePng(image: HostImage) returns (written: Result<(), string>)
      requires IsImage(image)
      modifies this
      ensures written.Ok? <==>
        image.width > 0 && image.height > 0 && DataLength(image.width, image.height) <= U32_MAX
      ensures written.Ok? ==> bytes == old(bytes) + Png(image)
      ensures written.Err? ==>
        bytes == if image.width == 0 || image.height == 0 then old(bytes)
                 else old(bytes) + SIGNATURE + Chunk(IHDR, Header(image))
    {
      if image.width == 0 || image.height == 0 { return Err("PNG dimensions must be non-zero"); }
      WriteAll(SIGNATURE);
      var header := WriteChunk(IHDR, Header(image));
      var compressed := CompressedPixels(image);
      ImageDataLength(image);
      var body := WriteChunk(IDAT, compressed);
      if body.Err? { return body; }
      var end := WriteChunk(IEND, []);
      PngJoins(old(bytes), image);
      written := Ok(());
    }
  }

  method CompressedPixels(image: HostImage) returns (data: seq<byte>)
    requires IsImage(image) && image.width > 0
    ensures data == ImageData(image)
  {
    var scanlines := WriteScanlines(image.width, image.pixels);
    var compressed := new Output();
    compressed.WriteZlibStored(scanlines);
    NothingBefore(Zlib(scanlines));
    data := compressed.bytes;
  }

  lemma PngJoins(before: seq<byte>, image: HostImage)
    requires IsImage(image) && image.width > 0
    ensures before + SIGNATURE + Chunk(IHDR, Header(image)) + Chunk(IDAT, ImageData(image)) + Chunk(IEND, [])
         == before + Png(image)
  {
    ThreeChunks(before + SIGNATURE, PngChunk(IHDR, Header(image)), PngChunk(IDAT, ImageData(image)), PngChunk(IEND, []));
    Associative(before, SIGNATURE, Encoded(ImageChunks(image)));
  }

  lemma NothingBefore<T>(s: seq<T>)
    ensures [] + s == s
  {
  }

  lemma FiveSeqs<T>(a: seq<T>, b: seq<T>, c: seq<T>, d: seq<T>, e: seq<T>)
    ensures a + b + c + d + e == a + (b + c + d + e)
  {
  }

  lemma ThreeChunks(start: seq<byte>, a: PngChunk, b: PngChunk, c: PngChunk)
    ensures start + Chunk(a.kind, a.data) + Chunk(b.kind, b.data) + Chunk(c.kind, c.data)
         == start + Encoded([a, b, c])
  {
    var x, y, z := Chunk(a.kind, a.data), Chunk(b.kind, b.data), Chunk(c.kind, c.data);
    assert [a, b, c][1..] == [b, c] && [b, c][1..] == [c] && [c][1..] == [];
    assert Encoded([c]) == z + [] && z + [] == z;
    assert Encoded([b, c]) == y + z;
    assert Encoded([a, b, c]) == x + (y + z);
    FourSeqs(start, x, y, z);
  }

  lemma FourSeqs<T>(a: seq<T>, b: seq<T>, c: seq<T>, d: seq<T>)
    ensures a + b + c + d == a + (b + (c + d))
  {
  }

  // ---- an independent reader ------------------------------------------------------------------------

  /** Sections 3.2.3 and 3.2.4 of RFC 1951, stored blocks only. */
  function Inflate(s: seq<byte>): Option<(seq<byte>, seq<byte>)> {
    if |s| < 5 || (s[0] / 2) % 4 != 0 then None
    else
      var length: int := LittleEndian(s[1], s[2]);
      if length + LittleEndian(s[3], s[4]) != BLOCK_LIMIT || |s| < 5 + length then None
      else
        var data, rest := s[5..5 + length], s[5 + length..];
        if s[0] % 2 == 1 then Some((data, rest))
        else
          match Inflate(rest)
          case None => None
          case Some(more) => Some((data + more.0, more.1))
  }

  /** Section 2.2 of RFC 1950: method 8, a window of at most 32 KiB, a valid check, and no
      dictionary. */
  predicate IsZlibHeader(cmf: int, flg: int) {
    cmf % 16 == 8 && cmf / 16 <= 7 && (cmf * 256 + flg) % 31 == 0 && (flg / 32) % 2 == 0
  }

  /** The inflated data of a zlib stream, and what follows it. */
  function ZlibBody(s: seq<byte>): Option<(seq<byte>, seq<byte>)> {
    if |s| < 2 || !IsZlibHeader(s[0], s[1]) then None else Inflate(s[2..])
  }

  /** The data, when exactly its Adler-32 follows it. */
  function Unzlib(s: seq<byte>): Option<seq<byte>> {
    match ZlibBody(s)
    case None => None
    case Some(body) => if body.1 == Be32(AdlerOf(body.0)) then Some(body.0) else None
  }

  /** Section 3.2 of RFC 2083: length, type, data, and the CRC of type and data. */
  function TakeChunk(s: seq<byte>): (taken: Option<(PngChunk, seq<byte>)>)
    ensures taken.Some? ==> |taken.value.1| < |s|
  {
    if |s| < 12 then None
    else
      var length := FromBigEndian(s[..4]);
      if |s| < 12 + length then None
      else
        var kind, data, crc := s[4..8], s[8..8 + length], s[8 + length..12 + length];
        if crc == RegisterBytes(CrcOf(kind + data)) then Some((PngChunk(kind, data), s[12 + length..])) else None
  }

  function TakeChunks(s: seq<byte>): Option<seq<PngChunk>>
    decreases |s|
  {
    if s == [] then Some([])
    else
      match TakeChunk(s)
      case None => None
      case Some(taken) =>
        match TakeChunks(taken.1)
        case None => None
        case Some(more) => Some([taken.0] + more)
  }

  /** The data of image chunks up to the end chunk, which must be empty and last. */
  function ChunkData(chunks: seq<PngChunk>): Option<seq<byte>> {
    if chunks == [] then None
    else if chunks[0].kind == IEND then (if chunks == [PngChunk(IEND, [])] then Some([]) else None)
    else if chunks[0].kind != IDAT then None
    else
      match ChunkData(chunks[1..])
      case None => None
      case Some(more) => Some(chunks[0].data + more)
  }

  /** Rows of a filter byte, which must be zero, and the pixels. */
  function Unfilter(width: nat, rows: nat, s: seq<byte>): Option<seq<byte>> {
    if rows == 0 then (if s == [] then Some([]) else None)
    else if |s| < 1 + width || s[0] != 0 then None
    else
      match Unfilter(width, rows - 1, s[1 + width..])
      case None => None
      case Some(more) => Some(s[1..1 + width] + more)
  }

  /** The dimensions of an 8-bit grayscale image without interlacing. */
  function DecodeHeader(header: PngChunk): Option<(nat, nat)> {
    if header.kind != IHDR || |header.data| != 13 || header.data[8..] != [8, 0, 0, 0, 0] then None
    else
      var width, height := FromBigEndian(header.data[..4]), FromBigEndian(header.data[4..8]);
      if width == 0 || height == 0 then None else Some((width, height))
  }

  function DecodePixels(width: nat, height: nat, chunks: seq<PngChunk>): Option<seq<byte>> {
    match ChunkData(chunks)
    case None => None
    case Some(compressed) =>
      match Unzlib(compressed)
      case None => None
      case Some(scanlines) => Unfilter(width, height, scanlines)
  }

  function DecodeChunks(chunks: seq<PngChunk>): Option<HostImage> {
    if chunks == [] then None
    else
      match DecodeHeader(chunks[0])
      case None => None
      case Some(size) =>
        match DecodePixels(size.0, size.1, chunks[1..])
        case None => None
        case Some(pixels) => Some(HostImage(size.0, size.1, pixels))
  }

  function Decode(s: seq<byte>): Option<HostImage> {
    if |s| < 8 || s[..8] != SIGNATURE then None
    else
      match TakeChunks(s[8..])
      case None => None
      case Some(chunks) => DecodeChunks(chunks)
  }

  // ---- the round trip -------------------------------------------------------------------------------

  lemma InflateOneBlock(last: bool, data: seq<byte>, rest: seq<byte>)
    requires |data| <= BLOCK_LIMIT
    ensures var s := StoredBlock(last, data) + rest;
      && |s| >= 5 + |data| && (s[0] / 2) % 4 == 0 && (s[0] % 2 == 1 <==> last)
      && LittleEndian(s[1], s[2]) == |data| && LittleEndian(s[3], s[4]) == BLOCK_LIMIT - |data|
      && s[5..5 + |data|] == data && s[5 + |data|..] == rest
  {
    var block, s := StoredBlock(last, data), StoredBlock(last, data) + rest;
    assert block[1..3] == Le16(|data|) && block[3..5] == Le16(BLOCK_LIMIT - |data|);
    assert s[1] == block[1..3][0] && s[2] == block[1..3][1];
    assert s[3] == block[3..5][0] && s[4] == block[3..5][1];
  }

  lemma InflateLast(s: seq<byte>, data: seq<byte>, rest: seq<byte>)
    requires |data| <= BLOCK_LIMIT && s == StoredBlock(true, data) + rest
    ensures Inflate(s) == Some((data, rest))
  {
    InflateOneBlock(true, data, rest);
  }

  lemma InflateMore(s: seq<byte>, first: seq<byte>, tail: seq<byte>, more: seq<byte>, rest: seq<byte>)
    requires |first| <= BLOCK_LIMIT && s == StoredBlock(false, first) + tail
    requires Inflate(tail) == Some((more, rest))
    ensures Inflate(s) == Some((first + more, rest))
  {
    InflateOneBlock(false, first, tail);
  }

  lemma SplitJoins<T>(s: seq<T>, n: nat)
    requires n <= |s|
    ensures s[..n] + s[n..] == s
  {
  }

  lemma StoredSplit(data: seq<byte>, rest: seq<byte>, first: seq<byte>, more: seq<byte>)
    requires |data| > BLOCK_LIMIT && first == data[..BLOCK_LIMIT] && more == data[BLOCK_LIMIT..]
    ensures Stored(data) + rest == StoredBlock(false, first) + (Stored(more) + rest)
  {
    var block, blocks := StoredBlock(false, first), Stored(more);
    assert Stored(data) == block + blocks;
    Associative(block, blocks, rest);
  }

  /** Inflating stored blocks gives back the data and what follows. */
  lemma {:induction false} StoredRoundTrip(data: seq<byte>, rest: seq<byte>)
    ensures Inflate(Stored(data) + rest) == Some((data, rest))
    decreases |data|
  {
    var s := Stored(data) + rest;
    if |data| <= BLOCK_LIMIT {
      InflateLast(s, data, rest);
    } else {
      var first, more := data[..BLOCK_LIMIT], data[BLOCK_LIMIT..];
      var tail := Stored(more) + rest;
      StoredSplit(data, rest, first, more);
      SplitJoins(data, BLOCK_LIMIT);
      StoredRoundTrip(more, rest);
      InflateMore(s, first, tail, more, rest);
    }
  }

  lemma TwoThen<T>(a: T, b: T, rest: seq<T>, tail: seq<T>, s: seq<T>)
    requires s == [a, b] + rest + tail
    ensures |s| >= 2 && s[0] == a && s[1] == b && s[2..] == rest + tail
  {
  }

  lemma HeaderIsValid()
    ensures IsZlibHeader(0x78, 0x01)
  {
  }

  lemma ZlibBodyOf(data: seq<byte>, tail: seq<byte>, s: seq<byte>)
    requires s == [0x78, 0x01] + Stored(data) + tail
    ensures ZlibBody(s) == Some((data, tail))
  {
    var body := Stored(data) + tail;
    TwoThen(0x78, 0x01, Stored(data), tail, s);
    HeaderIsValid();
    assert ZlibBody(s) == Inflate(body);
    StoredRoundTrip(data, tail);
  }

  lemma ZlibRoundTrip(data: seq<byte>)
    ensures Unzlib(Zlib(data)) == Some(data)
  {
    ZlibBodyOf(data, Be32(AdlerOf(data)), Zlib(data));
  }

  lemma FourParts<T>(a: seq<T>, b: seq<T>, c: seq<T>, d: seq<T>, rest: seq<T>)
    ensures var s := a + b + c + d + rest;
      var i, j, k := |a| + |b|, |a| + |b| + |c|, |a| + |b| + |c| + |d|;
      s[..|a|] == a && s[|a|..i] == b && s[i..j] == c && s[j..k] == d && s[k..] == rest
  {
  }

  lemma ChunkRoundTrip(kind: seq<byte>, data: seq<byte>, rest: seq<byte>)
    requires |kind| == 4 && |data| <= U32_MAX
    ensures TakeChunk(Chunk(kind, data) + rest) == Some((PngChunk(kind, data), rest))
  {
    Be32RoundTrip(|data|);
    FourParts(Be32(|data|), kind, data, RegisterBytes(CrcOf(kind + data)), rest);
  }

  lemma {:induction false} ScanlinesRoundTrip(width: nat, rows: nat, pixels: seq<byte>)
    requires width > 0 && |pixels| == width * rows
    ensures Unfilter(width, rows, Scanlines(width, pixels)) == Some(pixels)
  {
    if rows > 0 {
      var rest := pixels[width..];
      assert |rest| == width * (rows - 1);
      ScanlinesRoundTrip(width, rows - 1, rest);
      var s := Scanlines(width, pixels);
      assert |pixels| >= width by {
        assert width * rows == width + width * (rows - 1);
      }
      assert s[0] == 0 && s[1..1 + width] == pixels[..width] && s[1 + width..] == Scanlines(width, rest);
      assert pixels[..width] + rest == pixels;
    } else {
      assert pixels == [];
    }
  }

  /** Reading chunks back gives the chunks. */
  lemma {:induction false} ChunksRoundTrip(chunks: seq<PngChunk>)
    requires forall i | 0 <= i < |chunks| :: Fits(chunks[i])
    ensures TakeChunks(Encoded(chunks)) == Some(chunks)
  {
    if chunks != [] {
      ChunksRoundTrip(chunks[1..]);
      ChunkRoundTrip(chunks[0].kind, chunks[0].data, Encoded(chunks[1..]));
      assert [chunks[0]] + chunks[1..] == chunks;
    }
  }

  lemma DataRoundTrip(data: seq<byte>)
    ensures ChunkData([PngChunk(IDAT, data), PngChunk(IEND, [])]) == Some(data)
  {
    var chunks := [PngChunk(IDAT, data), PngChunk(IEND, [])];
    assert IDAT[1] != IEND[1];
    assert chunks[1..] == [PngChunk(IEND, [])];
    assert data + [] == data;
  }

  /** Decoding a written image gives back its width, height and pixels. */
  lemma PngRoundTrip(image: HostImage)
    requires IsImage(image) && image.width > 0 && image.height > 0 && DataLength(image.width, image.height) <= U32_MAX
    ensures Decode(Png(image)) == Some(image)
  {
    var chunks := ImageChunks(image);
    ImageDataLength(image);
    ChunksRoundTrip(chunks);
    SignatureThen(Encoded(chunks));
    ImageChunksRoundTrip(image);
  }

  lemma SignatureThen(body: seq<byte>)
    ensures (SIGNATURE + body)[..8] == SIGNATURE && (SIGNATURE + body)[8..] == body
  {
  }

  lemma ImageChunksRoundTrip(image: HostImage)
    requires IsImage(image) && image.width > 0 && image.height > 0
    ensures DecodeChunks(ImageChunks(image)) == Some(image)
  {
    HeaderRoundTrip(image);
    PixelsRoundTrip(image);
    assert ImageChunks(image)[1..] == [PngChunk(IDAT, ImageData(image)), PngChunk(IEND, [])];
  }

  lemma HeaderRoundTrip(image: HostImage)
    requires IsImage(image) && image.width > 0 && image.height > 0
    ensures DecodeHeader(PngChunk(IHDR, Header(image))) == Some((image.width, image.height))
  {
    var header := Header(image);
    Be32RoundTrip(image.width);
    Be32RoundTrip(image.height);
    assert header[..4] == Be32(image.width) && header[4..8] == Be32(image.height) && header[8..] == [8, 0, 0, 0, 0];
  }

  lemma PixelsRoundTrip(image: HostImage)
    requires IsImage(image) && image.width > 0 && image.height > 0
    ensures DecodePixels(image.width, image.height, [PngChunk(IDAT, ImageData(image)), PngChunk(IEND, [])])
         == Some(image.pixels)
  {
    DataRoundTrip(ImageData(image));
    ZlibRoundTrip(Scanlines(image.width, image.pixels));
    ScanlinesRoundTrip(image.width, image.height, image.pixels);
  }
}
