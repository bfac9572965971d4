/** zlib streams of stored deflate blocks, and a reader for them. */
module Zlib {
  import opened Wrappers
  import opened Bytes
  import Adler32

  const BLOCK := 65535

  // ------------------------------------------------------------- the format

  /** A stored block, section 3.2.4 of RFC 1951: the final bit and block type
      0, the length, its complement, the bytes. */
  function StoredBlock(final: bool, block: bytes): bytes
    requires |block| <= BLOCK
  {
    [if final then 1 else 0] + LittleEndian16(|block| as u16) + LittleEndian16(0xFFFF - |block| as u16) + block
  }

  function StoredBlocks(data: bytes): bytes
    decreases |data|
  {
    if |data| <= BLOCK then StoredBlock(true, data)
    else StoredBlock(false, data[..BLOCK]) + StoredBlocks(data[BLOCK..])
  }

  function Stored(data: bytes): bytes {
    [0x78, 0x01] + StoredBlocks(data) + BigEndian(Adler32.Adler(data))
  }

  // ------------------------------------------------------------- the reader

  /** Reads stored blocks up to and including the final one. */
  function ReadBlocks(s: bytes): Option<(bytes, bytes)>
    decreases |s|
  {
    if |s| < 5 || s[0] / 2 % 4 != 0 then None
    else
      var len := FromLittleEndian16(s[1..3]);
      if FromLittleEndian16(s[3..5]) != 0xFFFF - len || |s| < 5 + len as nat then None
      else
        var block, rest := s[5..5 + len as nat], s[5 + len as nat..];
        if s[0] % 2 == 1 then Some((block, rest))
        else match ReadBlocks(rest)
             case None => None
             case Some((more, after)) => Some((block + more, after))
  }

  /** Section 2.2 of RFC 1950: method 8, window at most 32K, header check
      divisible by 31, no preset dictionary, the Adler-32 of the data last. */
  function Inflate(s: bytes): Option<bytes> {
    if |s| < 6 || s[0] % 16 != 8 || s[0] / 16 > 7 || (s[0] as nat * 256 + s[1] as nat) % 31 != 0 || s[1] / 32 % 2 != 0
    then None
    else
      match ReadBlocks(s[2..])
      case None => None
      case Some((data, check)) =>
        if |check| == 4 && FromBigEndian(check) == Adler32.Adler(data) then Some(data) else None
  }

  // ------------------------------------------------------------- the writer

  /** Complementing 16 bits is subtracting from all ones. */
  method AppendBlock(out: bytes, final: bool, block: bytes) returns (grown: bytes)
    requires |block| <= BLOCK
    ensures grown == out + StoredBlock(final, block)
  {
    var len := |block| as u16;
    grown := out + [if final then 0x01 else 0x00];
    grown := grown + LittleEndian16(len);
    grown := grown + LittleEndian16(0xFFFF - len);
    grown := grown + block;
  }

  /** What remains to be written once the first k bytes are. */
  ghost function BlocksLeft(data: bytes, k: nat): bytes
    requires k <= |data|
  {
    if k < |data| then StoredBlocks(data[k..]) else []
  }

  lemma BlocksLeftStep(data: bytes, k: nat, end: nat)
    requires k < |data| && end == if k + BLOCK < |data| then k + BLOCK else |data|
    ensures BlocksLeft(data, k) == StoredBlock(end == |data|, data[k..end]) + BlocksLeft(data, end)
  {
    if end == |data| {
      assert data[k..] == data[k..end];
    } else {
      assert data[k..][..BLOCK] == data[k..end] && data[k..][BLOCK..] == data[end..];
    }
  }

  method ZlibStored(data: bytes) returns (out: bytes)
    ensures out == Stored(data)
    ensures Inflate(out) == Some(data)
  {
    hide StoredBlock, StoredBlocks, Inflate;
    out := [0x78, 0x01];
    ghost var whole := out + StoredBlocks(data);
    if |data| == 0 {
      out := out + [0x01, 0, 0, 0xFF, 0xFF];
      EmptyBlock(data);
    }
    assert data[0..] == data;
    var k := 0;
    while k < |data|
      invariant 0 <= k <= |data|
      invariant out + BlocksLeft(data, k) == whole
    {
      var end := if k + BLOCK < |data| then k + BLOCK else |data|;
      BlocksLeftStep(data, k, end);
      ghost var before := out;
      out := AppendBlock(out, end == |data|, data[k..end]);
      assert out + BlocksLeft(data, end) == before + BlocksLeft(data, k);
      k := end;
    }
    var adler := Adler32.ComputeAdler(data);
    out := out + BigEndian(adler);
    InflateUndoesStored(data);
  }

  lemma EmptyBlock(data: bytes)
    requires data == []
    ensures StoredBlocks(data) == [0x01, 0, 0, 0xFF, 0xFF]
  {
    assert LittleEndian16(0) == [0, 0] && LittleEndian16(0xFFFF) == [0xFF, 0xFF];
  }

  // ---------------------------------------------------------- the round trip

  lemma ReadOneBlock(final: bool, block: bytes, tail: bytes)
    requires |block| <= BLOCK
    ensures var s := StoredBlock(final, block) + tail;
            ReadBlocks(s) == if final then Some((block, tail))
                             else match ReadBlocks(tail)
                                  case None => None
                                  case Some((more, after)) => Some((block + more, after))
  {
    var s := StoredBlock(final, block) + tail;
    var len := |block| as u16;
    assert s[0] == if final then 1 else 0;
    assert s[1..3] == LittleEndian16(len) && s[3..5] == LittleEndian16(0xFFFF - len);
    assert s[5..5 + len as nat] == block && s[5 + len as nat..] == tail;
  }

  lemma {:induction false} ReadUndoesStored(data: bytes, tail: bytes)
    ensures ReadBlocks(StoredBlocks(data) + tail) == Some((data, tail))
    decreases |data|
  {
    if |data| <= BLOCK {
      ReadOneBlock(true, data, tail);
    } else {
      var first, rest := data[..BLOCK], data[BLOCK..];
      assert StoredBlocks(data) + tail == StoredBlock(false, first) + (StoredBlocks(rest) + tail);
      ReadOneBlock(false, first, StoredBlocks(rest) + tail);
      ReadUndoesStored(rest, tail);
      assert first + rest == data;
    }
  }

  /** Whatever the data, the reader recovers it from the written stream. */
  lemma InflateUndoesStored(data: bytes)
    ensures Inflate(Stored(data)) == Some(data)
  {
    var check := BigEndian(Adler32.Adler(data));
    assert Stored(data)[2..] == StoredBlocks(data) + check;
    ReadUndoesStored(data, check);
  }

  /** Stored blocks only ever grow data: a reader returns fewer bytes than it reads. */
  lemma {:induction false} ReadShrinks(s: bytes)
    ensures ReadBlocks(s).Some? ==> |ReadBlocks(s).value.0| + |ReadBlocks(s).value.1| + 5 <= |s|
    decreases |s|
  {
    if ReadBlocks(s).Some? {
      var len := FromLittleEndian16(s[1..3]);
      if s[0] % 2 != 1 {
        ReadShrinks(s[5 + len as nat..]);
      }
    }
  }

  /** How many blocks so many bytes take; no bytes still take one. */
  function Blocks(n: nat): nat {
    if n == 0 then 1 else (n + BLOCK - 1) / BLOCK
  }

  /** Five bytes more for each block, no more and no less. */
  lemma {:induction false} StoredLength(data: bytes)
    ensures |StoredBlocks(data)| == |data| + 5 * Blocks(|data|)
    ensures |Stored(data)| == |data| + 5 * Blocks(|data|) + 6
    decreases |data|
  {
    if |data| > BLOCK {
      StoredLength(data[BLOCK..]);
      assert Blocks(|data|) == Blocks(|data| - BLOCK) + 1;
    }
  }
}

/** The RGBA8 writer and a reader for what it writes. */
module Png {
  import opened Wrappers
  import opened Bytes
  import Crc32
  import Zlib

  const SIGNATURE: bytes := [0x89, 0x50, 0x4E, 0x47, 0x0D, 0x0A, 0x1A, 0x0A]
  const IHDR: bytes := [0x49, 0x48, 0x44, 0x52]
  const IDAT: bytes := [0x49, 0x44, 0x41, 0x54]
  const IEND: bytes := [0x49, 0x45, 0x4E, 0x44]
  /** Eight bits, RGBA, deflate, adaptive filtering, no interlace. */
  const FORMAT: bytes := [8, 6, 0, 0, 0]
  const LIMIT := 0x1_0000_0000

  // ------------------------------------------------------------- the format

  /** Section 3.2 of RFC 2083. The length is truncated to 32 bits, as the
      writer does. */
  function ChunkOf(kind: bytes, payload: bytes): bytes
    requires |kind| == 4
  {
    BigEndian((|payload| % LIMIT) as u32) + kind + payload + BigEndian(Crc32.Crc(kind + payload))
  }

  function Header(width: u32, height: u32): bytes {
    BigEndian(width) + BigEndian(height) + FORMAT
  }

  /** Every row behind filter type 0. */
  function Scanlines(pixels: bytes, stride: nat, rows: nat): bytes
    requires |pixels| == rows * stride
    decreases rows
  {
    if rows == 0 then []
    else
      RowsLeft(|pixels|, stride, rows);
      [0] + pixels[..stride] + Scanlines(pixels[stride..], stride, rows - 1)
  }

  lemma RowsLeft(size: nat, stride: nat, rows: nat)
    requires size == rows * stride && rows > 0
    ensures size >= stride && size - stride == (rows - 1) * stride
  {
    assert (rows - 1) * stride == rows * stride - stride;
  }

  function PixelBytes(width: u32, height: u32): nat {
    height as nat * (width as nat * 4)
  }

  function Payload(width: u32, height: u32, pixels: bytes): bytes
    requires |pixels| == PixelBytes(width, height)
  {
    Zlib.Stored(Scanlines(pixels, width as nat * 4, height as nat))
  }

  /** The bytes of all rows behind their filter types. */
  function RawSize(width: u32, height: u32): nat {
    height as nat * (4 * width as nat + 1)
  }

  /** How long the data chunk's payload is, from the dimensions alone. */
  function PayloadSize(width: u32, height: u32): nat {
    RawSize(width, height) + 5 * Zlib.Blocks(RawSize(width, height)) + 6
  }

  function PngOf(width: u32, height: u32, pixels: bytes): bytes
    requires |pixels| == PixelBytes(width, height)
  {
    SIGNATURE + ChunkOf(IHDR, Header(width, height)) +
    ChunkOf(IDAT, Payload(width, height, pixels)) + ChunkOf(IEND, [])
  }

  // ------------------------------------------------------------- the reader

  datatype Chunk = Chunk(kind: bytes, payload: bytes, rest: bytes)

  function ReadChunk(s: bytes): (c: Option<Chunk>)
    ensures c.Some? ==> |c.value.kind| == 4
  {
    if |s| < 12 then None
    else
      var len := FromBigEndian(s[..4]) as nat;
      if |s| < 12 + len then None
      else
        var kind, payload := s[4..8], s[8..8 + len];
        if FromBigEndian(s[8 + len..12 + len]) != Crc32.Crc(kind + payload) then None
        else Some(Chunk(kind, payload, s[12 + len..]))
  }

  function Unfilter(raw: bytes, stride: nat, rows: nat): Option<bytes>
    decreases rows
  {
    if rows == 0 then (if raw == [] then Some([]) else None)
    else if |raw| < 1 + stride || raw[0] != 0 then None
    else match Unfilter(raw[1 + stride..], stride, rows - 1)
         case None => None
         case Some(more) => Some(raw[1..1 + stride] + more)
  }

  /** The colour types without a palette, section 4.1.1 of RFC 2083. */
  datatype Colour = Grey | Rgb | GreyAlpha | Rgba
  {
    function Channels(): nat {
      match this
      case Grey => 1
      case Rgb => 3
      case GreyAlpha => 2
      case Rgba => 4
    }
  }

  /** The header of an image whose samples are one or two bytes each. */
  datatype Frame = Frame(width: u32, height: u32, sampleBytes: nat, colour: Colour)
  {
    function Stride(): nat { width as nat * (sampleBytes * colour.Channels()) }
  }

  datatype Image = Image(frame: Frame, pixels: bytes)

  function ColourOf(colourType: u8): Option<Colour> {
    match colourType
    case 0 => Some(Grey)
    case 2 => Some(Rgb)
    case 4 => Some(GreyAlpha)
    case 6 => Some(Rgba)
    case _ => None
  }

  /** No other compression and filter method than 0, and not interlaced. */
  function ReadHeader(c: Chunk): Option<Frame> {
    if c.kind != Ascii("IHDR") || |c.payload| != 13 then None
    else
      var width, height := FromBigEndian(c.payload[..4]), FromBigEndian(c.payload[4..8]);
      var depth, colour := c.payload[8], ColourOf(c.payload[9]);
      if width == 0 || height == 0 || depth !in {8, 16} || colour.None? || c.payload[10..] != [0, 0, 0] then None
      else Some(Frame(width, height, depth as nat / 8, colour.value))
  }

  function Ascii(s: string): bytes {
    seq(|s|, i requires 0 <= i < |s| => if s[i] < 128 as char then s[i] as int as u8 else 0)
  }

  function ReadImage(frame: Frame, idat: bytes): Option<Image> {
    match Zlib.Inflate(idat)
    case None => None
    case Some(raw) =>
      match Unfilter(raw, frame.Stride(), frame.height as nat)
      case None => None
      case Some(pixels) => Some(Image(frame, pixels))
  }

  /** The image as it was given to the writer: one byte a sample, four a pixel. */
  function Written(width: u32, height: u32, pixels: bytes): Image {
    Image(Frame(width, height, 1, Rgba), pixels)
  }

  /** Signature, header, one data chunk, end, and nothing after it. */
  function Decode(png: bytes): Option<Image> {
    if |png| < 8 || png[..8] != [137] + Ascii("PNG") + [13, 10, 26, 10] then None
    else
      match ReadChunk(png[8..])
      case None => None
      case Some(first) =>
        match (ReadHeader(first), ReadChunk(first.rest))
        case (Some(frame), Some(second)) =>
          (match ReadChunk(second.rest)
           case None => None
           case Some(third) =>
             if second.kind == Ascii("IDAT") && third.kind == Ascii("IEND") && third.payload == [] && third.rest == []
             then ReadImage(frame, second.payload) else None)
        case _ => None
  }

  // ------------------------------------------------------------- the writer

  method AppendChunk(out: bytes, kind: bytes, payload: bytes) returns (grown: bytes)
    requires |kind| == 4
    ensures grown == out + ChunkOf(kind, payload)
  {
    hide BigEndian, Crc32.Crc;
    var length := BigEndian((|payload| % LIMIT) as u32);
    grown := out + length;
    ghost var before := grown;
    grown := grown + kind;
    grown := grown + payload;
    var start := |grown| - |payload| - 4;
    assert start == |before| && grown == before + (kind + payload) && grown[start..] == kind + payload;
    var crc := Crc32.ComputeCrc(grown[start..]);
    var check := BigEndian(crc);
    grown := grown + check;
    assert before + (kind + payload) + check == out + (length + kind + payload + check);
  }

  datatype WriteError = SizeMismatch

  method EncodeRgba(width: u32, height: u32, rgba: bytes) returns (r: Result<bytes, WriteError>)
    ensures r.Err? <==> |rgba| < PixelBytes(width, height) || width == 0 || height == 0
    ensures r.Ok? ==> r.value == PngOf(width, height, rgba[..PixelBytes(width, height)])
  {
    var expected := PixelBytes(width, height);
    if |rgba| < expected || width == 0 || height == 0 {
      return Err(SizeMismatch);
    }
    var stride := width as nat * 4;
    ghost var pixels := rgba[..expected];
    var raw: bytes := [];
    for row := 0 to height as nat
      invariant row * stride <= expected && |pixels[row * stride..]| == (height as nat - row) * stride
      invariant raw + Scanlines(pixels[row * stride..], stride, height as nat - row) ==
                Scanlines(pixels, stride, height as nat)
    {
      RowsLeft((height as nat - row) * stride, stride, height as nat - row);
      ghost var left := pixels[row * stride..];
      assert (row + 1) * stride == row * stride + stride;
      assert left[..stride] == rgba[row * stride..row * stride + stride];
      assert left[stride..] == pixels[(row + 1) * stride..];
      ghost var before := raw;
      raw := raw + [0];
      raw := raw + rgba[row * stride..row * stride + stride];
      assert before + ([0] + left[..stride] + Scanlines(left[stride..], stride, height as nat - row - 1)) ==
             raw + Scanlines(left[stride..], stride, height as nat - row - 1);
    }
    assert raw == Scanlines(pixels, stride, height as nat);
    var ihdr := BigEndian(width) + BigEndian(height);
    ihdr := ihdr + [8, 6, 0, 0, 0];
    var out := SIGNATURE;
    out := AppendChunk(out, IHDR, ihdr);
    var idat := Zlib.ZlibStored(raw);
    out := AppendChunk(out, IDAT, idat);
    out := AppendChunk(out, IEND, []);
    r := Ok(out);
  }

  // ---------------------------------------------------------- the round trip

  lemma ReadUndoesChunk(kind: bytes, payload: bytes, rest: bytes)
    requires |kind| == 4 && |payload| < LIMIT
    ensures ReadChunk(ChunkOf(kind, payload) + rest) == Some(Chunk(kind, payload, rest))
  {
    hide BigEndian, FromBigEndian, Crc32.Crc;
    var s, len, crc := ChunkOf(kind, payload) + rest, |payload|, BigEndian(Crc32.Crc(kind + payload));
    assert s[..4] == BigEndian(len as u32);
    assert s[4..8] == kind && s[8..8 + len] == payload;
    assert s[8 + len..12 + len] == crc && s[12 + len..] == rest;
  }

  lemma {:induction false} UnfilterUndoesScanlines(pixels: bytes, stride: nat, rows: nat)
    requires |pixels| == rows * stride
    ensures Unfilter(Scanlines(pixels, stride, rows), stride, rows) == Some(pixels)
    decreases rows
  {
    if rows > 0 {
      RowsLeft(|pixels|, stride, rows);
      var raw, more := Scanlines(pixels, stride, rows), Scanlines(pixels[stride..], stride, rows - 1);
      assert raw[0] == 0 && raw[1..1 + stride] == pixels[..stride] && raw[1 + stride..] == more;
      UnfilterUndoesScanlines(pixels[stride..], stride, rows - 1);
      assert pixels[..stride] + pixels[stride..] == pixels;
    }
  }

  lemma ReadUndoesHeader(width: u32, height: u32, rest: bytes)
    requires width > 0 && height > 0
    ensures ReadHeader(Chunk(IHDR, Header(width, height), rest)) == Some(Frame(width, height, 1, Rgba))
  {
    var h := Header(width, height);
    assert h[..4] == BigEndian(width) && h[4..8] == BigEndian(height) && h[8..] == FORMAT;
    assert h[8] == FORMAT[0] && h[9] == FORMAT[1] && h[10..] == FORMAT[2..];
    Names();
  }

  lemma Names()
    ensures SIGNATURE == [137] + Ascii("PNG") + [13, 10, 26, 10]
    ensures IHDR == Ascii("IHDR") && IDAT == Ascii("IDAT") && IEND == Ascii("IEND")
  {
    assert Ascii("PNG") == [0x50, 0x4E, 0x47];
  }

  lemma PayloadLength(width: u32, height: u32, pixels: bytes)
    requires |pixels| == PixelBytes(width, height)
    ensures |Payload(width, height, pixels)| == PayloadSize(width, height)
  {
    RawSizeSplits(width, height);
    hide RawSize, PixelBytes;
    var raw := Scanlines(pixels, width as nat * 4, height as nat);
    ScanlinesLength(pixels, width as nat * 4, height as nat);
    Zlib.StoredLength(raw);
    hide Scanlines, Zlib.Stored, Zlib.Blocks;
  }

  lemma RawSizeSplits(width: u32, height: u32)
    ensures RawSize(width, height) == PixelBytes(width, height) + height as nat
    ensures PixelBytes(width, height) == height as nat * (width as nat * 4)
  {
    assert height as nat * (4 * width as nat + 1) == height as nat * (width as nat * 4) + height as nat;
  }

  /** The reader returns exactly the written image when the data chunk fits
      the 32-bit length field. */
  lemma DecodeUndoesEncode(width: u32, height: u32, pixels: bytes)
    requires width > 0 && height > 0 && |pixels| == PixelBytes(width, height)
    requires PayloadSize(width, height) < LIMIT
    ensures Decode(PngOf(width, height, pixels)) == Some(Written(width, height, pixels))
  {
    hide Decode, ReadChunk, ReadHeader, ReadImage, ChunkOf, Header, Payload, PayloadSize;
    PayloadLength(width, height, pixels);
    var payload, end := Payload(width, height, pixels), ChunkOf(IEND, []);
    var afterHeader := ChunkOf(IDAT, payload) + end;
    var png := PngOf(width, height, pixels);
    assert png[..8] == SIGNATURE && png[8..] == ChunkOf(IHDR, Header(width, height)) + afterHeader;
    HeaderLength(width, height);
    ReadUndoesChunk(IHDR, Header(width, height), afterHeader);
    ReadUndoesHeader(width, height, afterHeader);
    ReadUndoesChunk(IDAT, payload, end);
    assert end + [] == end;
    ReadUndoesChunk(IEND, [], []);
    DecodeOfChunks(png, Chunk(IHDR, Header(width, height), afterHeader), Chunk(IDAT, payload, end),
                   Chunk(IEND, [], []), Frame(width, height, 1, Rgba));
    ImageUndoesPayload(width, height, pixels);
  }

  lemma HeaderLength(width: u32, height: u32)
    ensures |Header(width, height)| == 13
  {
  }

  lemma DecodeOfChunks(png: bytes, first: Chunk, second: Chunk, third: Chunk, frame: Frame)
    requires |png| >= 8 && png[..8] == SIGNATURE && ReadChunk(png[8..]) == Some(first)
    requires ReadHeader(first) == Some(frame)
    requires ReadChunk(first.rest) == Some(second) && ReadChunk(second.rest) == Some(third)
    ensures Decode(png) == if second.kind == IDAT && third == Chunk(IEND, [], [])
                           then ReadImage(frame, second.payload) else None
  {
    Names();
    hide ReadChunk, ReadHeader, ReadImage, Ascii;
  }

  lemma ImageUndoesPayload(width: u32, height: u32, pixels: bytes)
    requires |pixels| == PixelBytes(width, height)
    ensures ReadImage(Frame(width, height, 1, Rgba), Payload(width, height, pixels)) == Some(Written(width, height, pixels))
  {
    var raw := Scanlines(pixels, width as nat * 4, height as nat);
    Zlib.InflateUndoesStored(raw);
    UnfilterUndoesScanlines(pixels, width as nat * 4, height as nat);
  }

  // ------------------------------------------------------ when it does not fit

  lemma {:induction false} UnfilterShrinks(raw: bytes, stride: nat, rows: nat)
    ensures Unfilter(raw, stride, rows).Some? ==> |Unfilter(raw, stride, rows).value| + rows == |raw|
    decreases rows
  {
    if rows > 0 && |raw| >= 1 + stride {
      UnfilterShrinks(raw[1 + stride..], stride, rows - 1);
    }
  }

  lemma {:induction false} ScanlinesLength(pixels: bytes, stride: nat, rows: nat)
    requires |pixels| == rows * stride
    ensures |Scanlines(pixels, stride, rows)| == |pixels| + rows
    decreases rows
  {
    if rows > 0 {
      RowsLeft(|pixels|, stride, rows);
      ScanlinesLength(pixels[stride..], stride, rows - 1);
    }
  }

  /** A data chunk cut to its length modulo 2^32 holds too few bytes for the image. */
  lemma CutPayloadIsTooShort(width: u32, height: u32, pixels: bytes)
    requires |pixels| == PixelBytes(width, height) && PayloadSize(width, height) >= LIMIT
    ensures var payload := Payload(width, height, pixels);
            ReadImage(Frame(width, height, 1, Rgba), payload[..|payload| % LIMIT]) != Some(Written(width, height, pixels))
  {
    PayloadLength(width, height, pixels);
    RawSizeSplits(width, height);
    var payload, raw := Payload(width, height, pixels), RawSize(width, height);
    NoRoomForRaw(raw, |payload| % LIMIT);
    hide Payload, PayloadSize, RawSize, PixelBytes, Zlib.Blocks;
    var cut := payload[..|payload| % LIMIT];
    if ReadImage(Frame(width, height, 1, Rgba), cut) == Some(Written(width, height, pixels)) {
      var got := Zlib.Inflate(cut).value;
      Zlib.ReadShrinks(cut[2..]);
      UnfilterShrinks(got, width as nat * 4, height as nat);
      assert false;
    }
  }

  /** Once a stream is too long, what its length keeps cannot hold the data. */
  lemma NoRoomForRaw(raw: nat, cut: nat)
    requires raw + 5 * Zlib.Blocks(raw) + 6 >= LIMIT && cut == (raw + 5 * Zlib.Blocks(raw) + 6) % LIMIT
    ensures cut < raw + 7
  {
  }

  /** The reader recovers the image if and only if its dimensions leave the
      data chunk shorter than 2^32 bytes. */
  lemma RoundTripIffItFits(width: u32, height: u32, pixels: bytes)
    requires width > 0 && height > 0 && |pixels| == PixelBytes(width, height)
    ensures Decode(PngOf(width, height, pixels)) == Some(Written(width, height, pixels)) <==>
            PayloadSize(width, height) < LIMIT
  {
    hide Decode, ReadChunk, ReadHeader, ReadImage, ChunkOf, Header, Payload, PayloadSize;
    PayloadLength(width, height, pixels);
    if PayloadSize(width, height) < LIMIT {
      DecodeUndoesEncode(width, height, pixels);
    } else {
      var payload := Payload(width, height, pixels);
      var png, afterHeader := PngOf(width, height, pixels), ChunkOf(IDAT, payload) + ChunkOf(IEND, []);
      assert png[..8] == SIGNATURE && png[8..] == ChunkOf(IHDR, Header(width, height)) + afterHeader;
      HeaderLength(width, height);
      ReadUndoesChunk(IHDR, Header(width, height), afterHeader);
      ReadUndoesHeader(width, height, afterHeader);
      CutPayloadIsTooShort(width, height, pixels);
      DecodeCut(png, Chunk(IHDR, Header(width, height), afterHeader), Frame(width, height, 1, Rgba), payload);
    }
  }

  /** No image of 32768 by 32768 pixels survives. */
  lemma LargeImageIsLost(pixels: bytes)
    requires |pixels| == PixelBytes(32768, 32768)
    ensures Decode(PngOf(32768, 32768, pixels)) != Some(Written(32768, 32768, pixels))
  {
    assert PayloadSize(32768, 32768) >= LIMIT;
    RoundTripIffItFits(32768, 32768, pixels);
  }

  /** The reader takes a chunk's written length at its word. */
  lemma ReadCut(kind: bytes, payload: bytes, rest: bytes)
    requires |kind| == 4 && |payload| >= LIMIT
    ensures var c := ReadChunk(ChunkOf(kind, payload) + rest);
            c.Some? ==> c.value.kind == kind && c.value.payload == payload[..|payload| % LIMIT]
  {
    hide BigEndian, FromBigEndian, Crc32.Crc;
    var s, len := ChunkOf(kind, payload) + rest, |payload| % LIMIT;
    assert s[..4] == BigEndian(len as u32);
    assert s[4..8] == kind && s[8..8 + len] == payload[..len];
  }

  lemma DecodeCut(png: bytes, first: Chunk, frame: Frame, payload: bytes)
    requires |png| >= 8 && png[..8] == SIGNATURE && ReadChunk(png[8..]) == Some(first)
    requires ReadHeader(first) == Some(frame)
    requires first.rest == ChunkOf(IDAT, payload) + ChunkOf(IEND, []) && |payload| >= LIMIT
    ensures Decode(png) == None || Decode(png) == ReadImage(frame, payload[..|payload| % LIMIT])
  {
    ReadCut(IDAT, payload, ChunkOf(IEND, []));
    Names();
    hide ReadChunk, ReadHeader, ReadImage, ChunkOf, Ascii;
  }
}
