/**
 * The image serialisers of Scene.cpp: `exportBMP` (a Windows bitmap with a
 * 14-byte file header, a 40-byte info header and 24-bit pixels) and
 * `exportRGBA8` (four bytes per pixel). The render target's contents are
 * given as a sequence of four-component pixels in the order the texture
 * read-back delivers them.
 */
module Export {
  import opened Words
  import opened Vectors
  import opened Results
  import opened Chunks

  /** `static_cast<unsigned char>(glm::clamp(c * 255, 0.0f, 255.0f))`: the clamped value, truncated. */
  function ClampByte(c: real): (b: Byte)
    ensures c <= 0.0 ==> b == 0
    ensures c >= 1.0 ==> b == 255
    ensures 0.0 <= c <= 1.0 ==> b as real <= c * 255.0 < b as real + 1.0 || b == 255
  {
    var v := c * 255.0;
    if v <= 0.0 then 0 else if v >= 255.0 then 255 else v.Floor
  }

  // ------------------------------------------------------------ headers

  /** Where the pixel array starts: right after the two headers. */
  const PixelOffset: int := 54

  /** `st_BMP_HEADER` as packed: "BM", the file size (left 0), reserved, and the pixel offset. */
  function FileHeader(): seq<Byte> {
    [66, 77] + LE32(0) + LE32(0) + LE32(PixelOffset)
  }

  /**
   * `st_BMP_INFO_HEADER` as packed, with the resolution filled in: the
   * geometry fields (size 40, width, height, one plane, 24 bits) then the
   * rest (no compression, no image size or density, 2^24 colours used).
   */
  function InfoHeader(width: I32, height: I32): seq<Byte> {
    InfoGeometry(width, height) + InfoRest()
  }

  function InfoGeometry(width: I32, height: I32): seq<Byte> {
    LE32(40) + LEI32(width) + LEI32(height) + LE16(1) + LE16(24)
  }

  function InfoRest(): seq<Byte> {
    LE32(0) + LE32(0) + LEI32(0) + LEI32(0) + LE32(0x100_0000) + LE32(0)
  }

  function Headers(width: I32, height: I32): seq<Byte> {
    FileHeader() + InfoHeader(width, height)
  }

  /** The header fields a bitmap reader decodes. */
  datatype BmpFields = BmpFields(
    magic0: Byte, magic1: Byte, fileSize: int, reserved: int, offBytes: int,
    infoSize: int, width: int, height: int, planes: int, bitCount: int,
    compression: int, sizeImage: int, xPerMeter: int, yPerMeter: int, clrUsed: int, clrImportant: int)

  /** A reader's view of the first 54 bytes of a file, little-endian, at the offsets of the packed structs. */
  function ReadHeaders(file: seq<Byte>): Option<BmpFields> {
    if |file| < PixelOffset then None
    else Some(BmpFields(
      file[0], file[1], DecodeLE32(file[2..6]), DecodeLE32(file[6..10]), DecodeLE32(file[10..14]),
      DecodeLE32(file[14..18]), DecodeLEI32(file[18..22]), DecodeLEI32(file[22..26]),
      DecodeLE16(file[26..28]), DecodeLE16(file[28..30]), DecodeLE32(file[30..34]), DecodeLE32(file[34..38]),
      DecodeLEI32(file[38..42]), DecodeLEI32(file[42..46]), DecodeLE32(file[46..50]), DecodeLE32(file[50..54])))
  }

  /**
   * The headers read back as written: "BM", pixel data at offset 54, a
   * 40-byte info header carrying the resolution, one plane of 24 bits, no
   * compression, and 2^24 colours declared used.
   */
  lemma HeadersRoundTrip(width: I32, height: I32, rest: seq<Byte>)
    ensures |Headers(width, height)| == PixelOffset
    ensures ReadHeaders(Headers(width, height) + rest)
            == Some(BmpFields(66, 77, 0, 0, 54, 40, width, height, 1, 24, 0, 0, 0, 0, 0x100_0000, 0))
  {
    var f := Headers(width, height) + rest;
    var info := InfoHeader(width, height);
    assert f[..14] == FileHeader();
    assert f[14..54] == info;
    assert f[14..30] == info[..16] == InfoGeometry(width, height);
    assert f[30..54] == info[16..] == InfoRest();
    FileHeaderFields(f);
    InfoGeometryFields(width, height, f);
    InfoRestFields(f);
  }

  lemma FileHeaderFields(f: seq<Byte>)
    requires |f| >= 14 && f[..14] == FileHeader()
    ensures f[0] == 66 && f[1] == 77
    ensures DecodeLE32(f[2..6]) == 0 && DecodeLE32(f[6..10]) == 0 && DecodeLE32(f[10..14]) == PixelOffset
  {
    var g := f[0..14];
    assert g == f[..14];
    SubSlice(f, 0, 14, 2, 6);
    SubSlice(f, 0, 14, 6, 10);
    SubSlice(f, 0, 14, 10, 14);
    assert g[2..6] == LE32(0) && g[6..10] == LE32(0) && g[10..14] == LE32(PixelOffset);
  }

  lemma InfoGeometryFields(width: I32, height: I32, f: seq<Byte>)
    requires |f| >= 30 && f[14..30] == InfoGeometry(width, height)
    ensures DecodeLE32(f[14..18]) == 40 && DecodeLEI32(f[18..22]) == width && DecodeLEI32(f[22..26]) == height
    ensures DecodeLE16(f[26..28]) == 1 && DecodeLE16(f[28..30]) == 24
  {
    var g := f[14..30];
    SubSlice(f, 14, 30, 0, 4);
    SubSlice(f, 14, 30, 4, 8);
    SubSlice(f, 14, 30, 8, 12);
    SubSlice(f, 14, 30, 12, 14);
    SubSlice(f, 14, 30, 14, 16);
    assert g[0..4] == LE32(40) && g[4..8] == LEI32(width) && g[8..12] == LEI32(height);
    assert g[12..14] == LE16(1) && g[14..16] == LE16(24);
  }

  lemma InfoRestFields(f: seq<Byte>)
    requires |f| >= 54 && f[30..54] == InfoRest()
    ensures DecodeLE32(f[30..34]) == 0 && DecodeLE32(f[34..38]) == 0
    ensures DecodeLEI32(f[38..42]) == 0 && DecodeLEI32(f[42..46]) == 0
    ensures DecodeLE32(f[46..50]) == 0x100_0000 && DecodeLE32(f[50..54]) == 0
  {
    SubSlice(f, 30, 54, 0, 12);
    SubSlice(f, 30, 54, 12, 24);
    assert InfoRest()[0..12] == LE32(0) + LE32(0) + LEI32(0);
    assert InfoRest()[12..24] == LEI32(0) + LE32(0x100_0000) + LE32(0);
    CompressionFields(f);
    DensityFields(f);
  }

  /** Compression, image size and horizontal density. */
  lemma CompressionFields(f: seq<Byte>)
    requires |f| >= 42 && f[30..42] == LE32(0) + LE32(0) + LEI32(0)
    ensures DecodeLE32(f[30..34]) == 0 && DecodeLE32(f[34..38]) == 0 && DecodeLEI32(f[38..42]) == 0
  {
    var g := f[30..42];
    SubSlice(f, 30, 42, 0, 4);
    SubSlice(f, 30, 42, 4, 8);
    SubSlice(f, 30, 42, 8, 12);
    assert g[0..4] == LE32(0) && g[4..8] == LE32(0) && g[8..12] == LEI32(0);
  }

  /** Vertical density and the colour counts. */
  lemma DensityFields(f: seq<Byte>)
    requires |f| >= 54 && f[42..54] == LEI32(0) + LE32(0x100_0000) + LE32(0)
    ensures DecodeLEI32(f[42..46]) == 0 && DecodeLE32(f[46..50]) == 0x100_0000 && DecodeLE32(f[50..54]) == 0
  {
    var g := f[42..54];
    SubSlice(f, 42, 54, 0, 4);
    SubSlice(f, 42, 54, 4, 8);
    SubSlice(f, 42, 54, 8, 12);
    assert g[0..4] == LEI32(0) && g[4..8] == LE32(0x100_0000) && g[8..12] == LE32(0);
  }

  /** The three bytes the source writes per pixel: blue, green, and blue again. */
  function PixelBytesAsWritten(p: Vec4): (r: seq<Byte>)
    ensures |r| == 3
  {
    [ClampByte(p.b), ClampByte(p.g), ClampByte(p.b)]
  }

  /** The three bytes a 24-bit bitmap stores per pixel: blue, green, red. */
  function PixelBytes(p: Vec4): (r: seq<Byte>)
    ensures |r| == 3
  {
    [ClampByte(p.b), ClampByte(p.g), ClampByte(p.r)]
  }

  /** The pixel array as written: every pixel's three bytes back to back. */
  function PixelArrayAsWritten(pixels: seq<Vec4>): (r: seq<Byte>)
    ensures |r| == 3 * |pixels|
    ensures forall i :: 0 <= i < |pixels| ==>
              r[3 * i] == ClampByte(pixels[i].b)
              && r[3 * i + 1] == ClampByte(pixels[i].g)
              && r[3 * i + 2] == ClampByte(pixels[i].b)
  {
    var chunks := seq(|pixels|, i requires 0 <= i < |pixels| => PixelBytesAsWritten(pixels[i]));
    ConcatLength(chunks, 3);
    forall i | 0 <= i < |pixels|
      ensures Concat(chunks)[3 * i] == ClampByte(pixels[i].b)
      ensures Concat(chunks)[3 * i + 1] == ClampByte(pixels[i].g)
      ensures Concat(chunks)[3 * i + 2] == ClampByte(pixels[i].b)
    {
      ConcatIndex(chunks, 3, i, 0);
      ConcatIndex(chunks, 3, i, 1);
      ConcatIndex(chunks, 3, i, 2);
    }
    Concat(chunks)
  }

  /**
   * `exportBMP` as written: both headers, then three bytes per pixel in
   * (b, g, b) order, all pixels back to back with no row padding. It
   * always reports success.
   */
  function ExportBmpAsWritten(width: I32, height: I32, pixels: seq<Vec4>): (r: (bool, seq<Byte>))
    requires 0 <= width && 0 <= height && |pixels| == width * height
    ensures r.0
    ensures |r.1| == PixelOffset + 3 * |pixels|
    ensures r.1[..PixelOffset] == Headers(width, height)
    ensures forall i :: 0 <= i < |pixels| ==>
              r.1[PixelOffset + 3 * i] == ClampByte(pixels[i].b)
              && r.1[PixelOffset + 3 * i + 1] == ClampByte(pixels[i].g)
              && r.1[PixelOffset + 3 * i + 2] == ClampByte(pixels[i].b)
  {
    (true, Headers(width, height) + PixelArrayAsWritten(pixels))
  }

  /**
   * The red channel never reaches the file: two images that differ only in
   * red are written identically.
   */
  lemma AsWrittenIgnoresRed(width: I32, height: I32, pixels: seq<Vec4>, reds: seq<real>)
    requires 0 <= width && 0 <= height && |pixels| == width * height && |reds| == |pixels|
    ensures var recoloured := seq(|pixels|, i requires 0 <= i < |pixels| => pixels[i].(r := reds[i]));
            ExportBmpAsWritten(width, height, recoloured) == ExportBmpAsWritten(width, height, pixels)
  {
    var recoloured := seq(|pixels|, i requires 0 <= i < |pixels| => pixels[i].(r := reds[i]));
    var a := PixelArrayAsWritten(recoloured);
    var b := PixelArrayAsWritten(pixels);
    forall k | 0 <= k < |a| ensures a[k] == b[k] {
      var i := k / 3;
      assert recoloured[i].b == pixels[i].b && recoloured[i].g == pixels[i].g;
      assert k == 3 * i || k == 3 * i + 1 || k == 3 * i + 2;
    }
    assert a == b;
  }

  /** A pure red pixel is written as black. */
  lemma AsWrittenRedIsBlack()
    ensures ExportBmpAsWritten(1, 1, [Vec4(1.0, 0.0, 0.0, 1.0)]).1[PixelOffset..] == [0, 0, 0]
  {
    var f := ExportBmpAsWritten(1, 1, [Vec4(1.0, 0.0, 0.0, 1.0)]).1;
    assert f[PixelOffset..] == [f[PixelOffset], f[PixelOffset + 1], f[PixelOffset + 2]];
  }

  /** A 24-bit bitmap row is padded to a multiple of four bytes. */
  function RowStride(width: nat): (r: nat)
    ensures r % 4 == 0 && 3 * width <= r < 3 * width + 4
  {
    (3 * width + 3) / 4 * 4
  }

  /**
   * Without padding the file is shorter than the pixel array its header
   * declares whenever a row is not a multiple of four bytes long: a reader
   * takes every row after the first from the wrong offset and runs past the
   * end of the file.
   */
  lemma AsWrittenRowsShort(width: I32, height: I32, pixels: seq<Vec4>)
    requires 0 <= width && 0 < height && |pixels| == width * height
    requires (3 * width) % 4 != 0
    ensures |ExportBmpAsWritten(width, height, pixels).1| < PixelOffset + height * RowStride(width)
  {
    assert 3 * width < RowStride(width);
    assert 3 * |pixels| == height * (3 * width);
    MulLess(height, 3 * width, RowStride(width));
  }

  lemma MulLess(h: int, a: int, b: int)
    requires h > 0 && a < b
    ensures h * a < h * b
  {
  }

  /** The pixels of one image row, three bytes each. */
  function RowPixels(row: seq<Vec4>): (r: seq<seq<Byte>>)
    ensures |r| == |row| && Uniform(r, 3)
    ensures forall x :: 0 <= x < |row| ==> r[x] == PixelBytes(row[x])
  {
    seq(|row|, x requires 0 <= x < |row| => PixelBytes(row[x]))
  }

  /** One bitmap row: the row's pixels, then zero bytes up to the stride. */
  function BmpRow(row: seq<Vec4>): (r: seq<Byte>)
    ensures |r| == RowStride(|row|)
    ensures forall x, k :: 0 <= x < |row| && 0 <= k < 3 ==> r[3 * x + k] == PixelBytes(row[x])[k]
  {
    var chunks := RowPixels(row);
    ConcatLength(chunks, 3);
    forall x, k | 0 <= x < |row| && 0 <= k < 3
      ensures Concat(chunks)[3 * x + k] == PixelBytes(row[x])[k]
    {
      ConcatIndex(chunks, 3, x, k);
    }
    Concat(chunks) + seq(RowStride(|row|) - 3 * |row|, _ => 0)
  }

  /** Image row y: the `width` pixels starting at RowMajor(width, y, 0). */
  function ImageRow(width: nat, height: nat, pixels: seq<Vec4>, y: nat): (r: seq<Vec4>)
    requires |pixels| == width * height && y < height
    ensures |r| == width
    ensures forall x :: 0 <= x < width ==> RowMajor(width, y, x) < |pixels| && r[x] == pixels[RowMajor(width, y, x)]
  {
    RowFits(width, height, y);
    ImageRowIndex(width, y);
    pixels[RowMajor(width, y, 0) .. RowMajor(width, y + 1, 0)]
  }

  /** Within row y, pixel x sits x places after the row's start. */
  lemma {:induction false} ImageRowIndex(width: nat, y: nat)
    ensures RowMajor(width, y + 1, 0) == RowMajor(width, y, 0) + width
    ensures forall x :: 0 <= x < width ==> RowMajor(width, y, x) == RowMajor(width, y, 0) + x
  {
    RowMajorProduct(width, y, 0);
    forall x | 0 <= x < width
      ensures RowMajor(width, y, x) == RowMajor(width, y, 0) + x
    {
      RowMajorProduct(width, y, x);
    }
  }

  /** The bitmap rows of the whole image, bottom-up in the texture's order. */
  function BmpRows(width: nat, height: nat, pixels: seq<Vec4>): (r: seq<seq<Byte>>)
    requires |pixels| == width * height
    ensures |r| == height && Uniform(r, RowStride(width))
    ensures forall y :: 0 <= y < height ==> r[y] == BmpRow(ImageRow(width, height, pixels, y))
  {
    seq(height, y requires 0 <= y < height => BmpRow(ImageRow(width, height, pixels, y)))
  }

  /**
   * `exportBMP` corrected: the pixels in (b, g, r) order, each row padded to
   * a multiple of four bytes.
   */
  function ExportBmp(width: I32, height: I32, pixels: seq<Vec4>): (r: (bool, seq<Byte>))
    requires 0 <= width && 0 <= height && |pixels| == width * height
    ensures r.0
    ensures |r.1| == PixelOffset + height * RowStride(width)
    ensures r.1[..PixelOffset] == Headers(width, height)
  {
    var rows := BmpRows(width, height, pixels);
    ConcatLength(rows, RowStride(width));
    (true, Headers(width, height) + Concat(rows))
  }

  /** How a reader fetches pixel (x, y) of a 24-bit bitmap: three bytes at its row's stride, as (r, g, b). */
  function ReadPixel(file: seq<Byte>, width: nat, x: nat, y: nat): (Byte, Byte, Byte)
    requires PixelOffset + RowMajor(RowStride(width), y, 3 * x) + 3 <= |file|
  {
    var o := PixelOffset + RowMajor(RowStride(width), y, 3 * x);
    (file[o + 2], file[o + 1], file[o])
  }

  /** Every pixel reads back with its own three channels, each clamped and quantised. */
  lemma ExportBmpRoundTrip(width: I32, height: I32, pixels: seq<Vec4>, x: nat, y: nat)
    requires 0 <= width && 0 <= height && |pixels| == width * height
    requires x < width && y < height
    ensures RowMajor(width, y, x) < |pixels|
    ensures PixelOffset + RowMajor(RowStride(width), y, 3 * x) + 3 <= |ExportBmp(width, height, pixels).1|
    ensures ReadPixel(ExportBmp(width, height, pixels).1, width, x, y)
            == (ClampByte(pixels[RowMajor(width, y, x)].r), ClampByte(pixels[RowMajor(width, y, x)].g),
                ClampByte(pixels[RowMajor(width, y, x)].b))
  {
    BodyPixel(width, height, pixels, x, y);
    ExportBmpIsRows(width, height, pixels);
    ReadAfterHeaders(ExportBmp(width, height, pixels).1, Concat(BmpRows(width, height, pixels)), width, x, y);
  }

  /** The pixel array of the corrected file holds pixel (x, y) as (b, g, r) at its row's stride. */
  lemma BodyPixel(width: nat, height: nat, pixels: seq<Vec4>, x: nat, y: nat)
    requires |pixels| == width * height && x < width && y < height
    ensures RowMajor(width, y, x) < |pixels|
    ensures RowMajor(RowStride(width), y, 3 * x) + 3 <= |Concat(BmpRows(width, height, pixels))|
    ensures Triple(Concat(BmpRows(width, height, pixels)), RowMajor(RowStride(width), y, 3 * x))
            == PixelBytes(pixels[RowMajor(width, y, x)])
  {
    RowHoldsPixel(width, height, pixels, x, y);
    RowsAt(BmpRows(width, height, pixels), RowStride(width), y, 3 * x);
  }

  /** The three elements of s from position o. */
  function Triple<T>(s: seq<T>, o: nat): seq<T>
    requires o + 3 <= |s|
  {
    [s[o], s[o + 1], s[o + 2]]
  }

  /** The three elements of row y from j sit from RowMajor(stride, y, j) in the rows laid end to end. */
  lemma RowsAt<T>(rows: seq<seq<T>>, stride: nat, y: nat, j: nat)
    requires Uniform(rows, stride) && y < |rows| && j + 3 <= stride
    ensures RowMajor(stride, y, j) + 3 <= |Concat(rows)|
    ensures Triple(Concat(rows), RowMajor(stride, y, j)) == Triple(rows[y], j)
  {
    ConcatIndex(rows, stride, y, j);
    ConcatIndex(rows, stride, y, j + 1);
    ConcatIndex(rows, stride, y, j + 2);
    RowMajorProduct(stride, y, j);
  }

  /** Bytes 3x..3x+2 of bitmap row y hold image pixel (x, y) as (b, g, r). */
  lemma RowHoldsPixel(width: nat, height: nat, pixels: seq<Vec4>, x: nat, y: nat)
    requires |pixels| == width * height && x < width && y < height
    ensures RowMajor(width, y, x) < |pixels|
    ensures 3 * x + 3 <= |BmpRows(width, height, pixels)[y]|
    ensures Triple(BmpRows(width, height, pixels)[y], 3 * x) == PixelBytes(pixels[RowMajor(width, y, x)])
  {
    var row := ImageRow(width, height, pixels, y);
    assert BmpRows(width, height, pixels)[y] == BmpRow(row);
    assert row[x] == pixels[RowMajor(width, y, x)];
    assert BmpRow(row)[3 * x + 0] == PixelBytes(row[x])[0];
    assert BmpRow(row)[3 * x + 1] == PixelBytes(row[x])[1];
    assert BmpRow(row)[3 * x + 2] == PixelBytes(row[x])[2];
  }

  /** The corrected file is the headers followed by the padded rows. */
  lemma ExportBmpIsRows(width: I32, height: I32, pixels: seq<Vec4>)
    requires 0 <= width && 0 <= height && |pixels| == width * height
    ensures |ExportBmp(width, height, pixels).1| >= PixelOffset
    ensures ExportBmp(width, height, pixels).1[PixelOffset..] == Concat(BmpRows(width, height, pixels))
  {
    HeadersRoundTrip(width, height, []);
  }

  /** Reading a pixel of a file is reading its pixel array at the same position. */
  lemma ReadAfterHeaders(file: seq<Byte>, body: seq<Byte>, width: nat, x: nat, y: nat)
    requires |file| >= PixelOffset && file[PixelOffset..] == body
    requires RowMajor(RowStride(width), y, 3 * x) + 3 <= |body|
    ensures PixelOffset + RowMajor(RowStride(width), y, 3 * x) + 3 <= |file|
    ensures var t := Triple(body, RowMajor(RowStride(width), y, 3 * x));
            ReadPixel(file, width, x, y) == (t[2], t[1], t[0])
  {
    var o := RowMajor(RowStride(width), y, 3 * x);
    assert file[PixelOffset + o] == body[o];
    assert file[PixelOffset + o + 1] == body[o + 1];
    assert file[PixelOffset + o + 2] == body[o + 2];
  }

  // ------------------------------------------------------------ RGBA8

  /**
   * `exportRGBA8`: four bytes per pixel, the colour channels through the
   * float-to-byte conversion `quantise` (the source's cast is unclamped) and
   * an opaque alpha of 255.
   */
  method ExportRgba8(pixels: seq<Vec4>, quantise: real -> Byte) returns (bytes: seq<Byte>)
    ensures |bytes| == 4 * |pixels|
    ensures forall i :: 0 <= i < |pixels| ==>
              && bytes[4 * i] == quantise(pixels[i].r)
              && bytes[4 * i + 1] == quantise(pixels[i].g)
              && bytes[4 * i + 2] == quantise(pixels[i].b)
              && bytes[4 * i + 3] == 255
  {
    bytes := [];
    var i := 0;
    while i < |pixels|
      invariant 0 <= i <= |pixels|
      invariant |bytes| == 4 * i
      invariant forall j :: 0 <= j < i ==>
                  && bytes[4 * j] == quantise(pixels[j].r)
                  && bytes[4 * j + 1] == quantise(pixels[j].g)
                  && bytes[4 * j + 2] == quantise(pixels[j].b)
                  && bytes[4 * j + 3] == 255
    {
      var p := pixels[i];
      bytes := bytes + [quantise(p.r), quantise(p.g), quantise(p.b), 255];
      i := i + 1;
    }
  }
}
