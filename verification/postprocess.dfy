/**
 * The raw-float post-processor res/final/fvec4ToRGB8.py: it reads the
 * `exportRAW` dump (four floats per pixel, rows bottom-up), reshapes it to
 * height x width x 4, normalises by the image's brightest luma, clips to
 * [0, 1], scales to bytes, flips the rows and drops alpha. The float32
 * decoding and the normalisation are parameters; the rest is modelled.
 */
module PostProcess {
  import opened Words
  import opened Results
  import opened Chunks
  import Export

  /** How a run of the script ends. */
  datatype Outcome =
    | Usage                     // fewer than two arguments: a message, nothing written
    | BadArgument               // `int()` rejected an argument
    | ShapeMismatch             // `reshape` rejected the dimensions
    | EmptyImage                // `np.max` over a zero-size array raised ValueError
    | Written(data: seq<Byte>)  // the bytes of final.data

  /** One output pixel: the first three channels of input pixel i, normalised, clipped and scaled. */
  function OutPixel(floats: seq<real>, i: nat, normalise: real -> real): (r: seq<Byte>)
    requires 4 * i + 4 <= |floats|
    ensures |r| == 3
    ensures forall k :: 0 <= k < 3 ==> r[k] == Export.ClampByte(normalise(floats[4 * i + k]))
  {
    [Export.ClampByte(normalise(floats[4 * i])),
     Export.ClampByte(normalise(floats[4 * i + 1])),
     Export.ClampByte(normalise(floats[4 * i + 2]))]
  }

  /** Input row `src`: its 4 * width floats. */
  function InRow(floats: seq<real>, width: nat, height: nat, src: nat): (r: seq<real>)
    requires |floats| == height * width * 4 && src < height
    ensures |r| == 4 * width
  {
    RowFits(4 * width, height, src);
    RowMajorProduct(4 * width, src, 0);
    floats[RowMajor(4 * width, src, 0) .. RowMajor(4 * width, src + 1, 0)]
  }

  lemma {:induction false} InRowIndex(floats: seq<real>, width: nat, height: nat, src: nat, j: nat)
    requires |floats| == height * width * 4 && src < height && j < 4 * width
    ensures RowMajor(4 * width, src, j) < |floats|
    ensures InRow(floats, width, height, src)[j] == floats[RowMajor(4 * width, src, j)]
  {
    RowFits(4 * width, height, src);
    RowMajorProduct(4 * width, src, 0);
    RowMajorProduct(4 * width, src, j);
  }

  /** One output row: three bytes for each of the row's pixels. */
  function OutRow(row: seq<real>, width: nat, normalise: real -> real): (r: seq<Byte>)
    requires |row| == 4 * width
    ensures |r| == 3 * width
    ensures forall col, k :: 0 <= col < width && 0 <= k < 3 ==> r[3 * col + k] == OutPixel(row, col, normalise)[k]
  {
    var chunks := seq(width, col requires 0 <= col < width => OutPixel(row, col, normalise));
    ConcatLength(chunks, 3);
    forall col, k | 0 <= col < width && 0 <= k < 3
      ensures Concat(chunks)[3 * col + k] == OutPixel(row, col, normalise)[k]
    {
      ConcatIndex(chunks, 3, col, k);
    }
    Concat(chunks)
  }

  /** Output row `row`: input row `height - 1 - row` converted. */
  function FlippedRow(floats: seq<real>, width: nat, height: nat, normalise: real -> real, row: nat): (r: seq<Byte>)
    requires |floats| == height * width * 4 && row < height
    ensures |r| == 3 * width
  {
    OutRow(InRow(floats, width, height, height - 1 - row), width, normalise)
  }

  /** The output rows, top-down. */
  function OutRows(floats: seq<real>, width: nat, height: nat, normalise: real -> real): (r: seq<seq<Byte>>)
    requires |floats| == height * width * 4
    ensures |r| == height && Uniform(r, 3 * width)
    ensures forall row :: 0 <= row < height ==> r[row] == FlippedRow(floats, width, height, normalise, row)
  {
    seq(height, row requires 0 <= row < height => FlippedRow(floats, width, height, normalise, row))
  }

  /** The converted image: the output rows in order, i.e. the input rows top-down. */
  function Convert(floats: seq<real>, width: nat, height: nat, normalise: real -> real): (r: seq<Byte>)
    requires |floats| == height * width * 4
    ensures |r| == height * width * 3
  {
    var rows := OutRows(floats, width, height, normalise);
    ConcatLength(rows, 3 * width);
    Regroup(height, width, 3);
    Concat(rows)
  }

  /**
   * Byte k of output pixel (row, col) -- output rows are 3 * width bytes --
   * is channel k of input pixel (height - 1 - row, col) -- input rows are
   * 4 * width floats -- normalised, clipped to [0, 1] and scaled to a byte:
   * the rows are flipped, the columns kept, alpha dropped.
   */
  lemma {:induction false} ConvertIndex(floats: seq<real>, width: nat, height: nat, normalise: real -> real, row: nat, col: nat, k: nat)
    requires |floats| == height * width * 4
    requires row < height && col < width && k < 3
    ensures && RowMajor(3 * width, row, 3 * col + k) < |Convert(floats, width, height, normalise)|
            && RowMajor(4 * width, height - 1 - row, 4 * col + k) < |floats|
            && Convert(floats, width, height, normalise)[RowMajor(3 * width, row, 3 * col + k)]
               == Export.ClampByte(normalise(floats[RowMajor(4 * width, height - 1 - row, 4 * col + k)]))
  {
    var src := height - 1 - row;
    InRowIndex(floats, width, height, src, 4 * col + k);
    FlippedRowIndex(floats, width, height, normalise, row, col, k);
    ConvertAt(floats, width, height, normalise, row, 3 * col + k);
  }

  /** Byte j of output row `row` sits at RowMajor(3 * width, row, j) of the converted image. */
  lemma {:induction false} ConvertAt(floats: seq<real>, width: nat, height: nat, normalise: real -> real, row: nat, j: nat)
    requires |floats| == height * width * 4
    requires row < height && j < 3 * width
    ensures RowMajor(3 * width, row, j) < |Convert(floats, width, height, normalise)|
    ensures Convert(floats, width, height, normalise)[RowMajor(3 * width, row, j)]
            == FlippedRow(floats, width, height, normalise, row)[j]
  {
    var rows := OutRows(floats, width, height, normalise);
    ConvertRows(floats, width, height, normalise);
    ConcatIndex(rows, 3 * width, row, j);
    RowMajorProduct(3 * width, row, j);
  }

  /** The converted image is the output rows laid end to end. */
  lemma ConvertRows(floats: seq<real>, width: nat, height: nat, normalise: real -> real)
    requires |floats| == height * width * 4
    ensures Convert(floats, width, height, normalise) == Concat(OutRows(floats, width, height, normalise))
  {
  }

  /** Byte k of pixel col of output row `row` is channel k of input row `height - 1 - row` converted. */
  lemma {:induction false} FlippedRowIndex(floats: seq<real>, width: nat, height: nat, normalise: real -> real, row: nat, col: nat, k: nat)
    requires |floats| == height * width * 4
    requires row < height && col < width && k < 3
    ensures 3 * col + k < 3 * width
    ensures FlippedRow(floats, width, height, normalise, row)[3 * col + k]
            == Export.ClampByte(normalise(InRow(floats, width, height, height - 1 - row)[4 * col + k]))
  {
    var inRow := InRow(floats, width, height, height - 1 - row);
    assert FlippedRow(floats, width, height, normalise, row)[3 * col + k] == OutPixel(inRow, col, normalise)[k];
  }

  lemma Regroup(a: nat, b: nat, c: nat)
    ensures a * (c * b) == a * b * c
  {
    calc {
      a * (c * b);
      a * (b * c);
      a * b * c;
    }
  }

  /**
   * The script on its argument vector (program name first) and the floats
   * read from final.bytes. `parseInt` is Python's `int` on a string. The
   * reshape is checked first; an empty image then fails at the luma maximum.
   */
  function Run(argv: seq<string>, parseInt: string -> Option<int>, floats: seq<real>, normalise: real -> real): (r: Outcome)
    ensures |argv| < 3 <==> r == Usage
    ensures r == BadArgument <==> |argv| >= 3 && (parseInt(argv[1]).None? || parseInt(argv[2]).None?)
    ensures r == EmptyImage <==>
              && |argv| >= 3 && parseInt(argv[1]).Some? && parseInt(argv[2]).Some?
              && parseInt(argv[1]).value >= 0 && parseInt(argv[2]).value >= 0
              && |floats| == parseInt(argv[2]).value * parseInt(argv[1]).value * 4
              && (parseInt(argv[1]).value == 0 || parseInt(argv[2]).value == 0)
    ensures r.Written? <==>
              && |argv| >= 3 && parseInt(argv[1]).Some? && parseInt(argv[2]).Some?
              && parseInt(argv[1]).value > 0 && parseInt(argv[2]).value > 0
              && |floats| == parseInt(argv[2]).value * parseInt(argv[1]).value * 4
    // what is written is the conversion of ConvertIndex at the parsed size
    ensures r.Written? ==> r.data == Convert(floats, parseInt(argv[1]).value, parseInt(argv[2]).value, normalise)
  {
    if |argv| < 3 then Usage
    else if parseInt(argv[1]).None? || parseInt(argv[2]).None? then BadArgument
    else
      var width, height := parseInt(argv[1]).value, parseInt(argv[2]).value;
      if width < 0 || height < 0 || |floats| != height * width * 4 then ShapeMismatch
      else if width == 0 || height == 0 then EmptyImage
      else Written(Convert(floats, width, height, normalise))
  }
}
