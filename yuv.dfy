/**
 * yuv420ToNv21 of camera/CameraController.kt: the repacking of a strided
 * YUV_420_888 frame (three planes with row and pixel strides) into one NV21
 * byte array: the luma rows without their stride padding, followed by the
 * chroma rows with V and U interleaved.
 */
module YuvConversion {

  newtype Byte = x: int | 0 <= x < 256

  /**
   * A YUV_420_888 image: its size and its three plane buffers (from position
   * 0 to the limit) with the Y row stride and the row and pixel strides
   * shared by the U and V planes.
   */
  datatype YuvFrame = YuvFrame(
    width: int, height: int,
    y: seq<Byte>, u: seq<Byte>, v: seq<Byte>,
    yRowStride: int, uvRowStride: int, uvPixelStride: int)

  /** What the camera framework guarantees of a frame: a size and positive strides. */
  predicate ValidLayout(f: YuvFrame)
  {
    f.width >= 0 && f.height >= 0
    && f.yRowStride >= 1 && f.uvRowStride >= 1 && f.uvPixelStride >= 1
  }

  /** Luma bytes of the frame: w * h. */
  function LumaSize(f: YuvFrame): int
  {
    f.width * f.height
  }

  /** Length of the NV21 output: w * h luma bytes and w * h / 2 chroma bytes. */
  function Nv21Size(f: YuvFrame): int
  {
    f.width * f.height + f.width * f.height / 2
  }

  /** Offset, in the Y plane, of the last chroma sample the conversion reads. */
  function LastChromaIndex(f: YuvFrame): int
  {
    (f.height / 2 - 1) * f.uvRowStride + (f.width / 2 - 1) * f.uvPixelStride
  }

  /**
   * The plane buffers hold every byte the conversion reads: the luma row
   * reads stay inside the Y buffer, and the last chroma sample inside the U
   * and V buffers. Otherwise the buffer reads throw and no image comes out.
   */
  predicate PlanesCover(f: YuvFrame)
  {
    && (f.height == 0 || (f.height - 1) * f.yRowStride + f.width <= |f.y|)
    && (f.height / 2 == 0 || f.width / 2 == 0 ||
          (LastChromaIndex(f) < |f.v| && LastChromaIndex(f) < |f.u|))
  }

  /** Position in the output of luma pixel (row, col): rows packed without padding. */
  function LumaOut(f: YuvFrame, row: int, col: int): int
  {
    row * f.width + col
  }

  /** Position in the Y buffer of luma pixel (row, col). */
  function LumaIn(f: YuvFrame, row: int, col: int): int
  {
    row * f.yRowStride + col
  }

  /** Position in the output of the V byte of chroma cell (row, col); U follows it. */
  function ChromaOut(f: YuvFrame, row: int, col: int): int
  {
    LumaSize(f) + row * f.width + col * 2
  }

  /** Position in the U and V buffers of chroma cell (row, col). */
  function ChromaIn(f: YuvFrame, row: int, col: int): int
  {
    row * f.uvRowStride + col * f.uvPixelStride
  }

  predicate LumaCell(f: YuvFrame, row: int, col: int)
  {
    0 <= row < f.height && 0 <= col < f.width
  }

  predicate ChromaCell(f: YuvFrame, row: int, col: int)
  {
    0 <= row < f.height / 2 && 0 <= col < f.width / 2
  }

  lemma MulLe(a: int, b: int, k: int)
    requires a <= b && k >= 0
    ensures a * k <= b * k
  {
    assert b * k - a * k == (b - a) * k;
  }

  /** Luma output positions of earlier rows lie before the row being written, and all inside w * h. */
  lemma LumaOutBounds(f: YuvFrame, row: int, col: int, r: int)
    requires ValidLayout(f) && LumaCell(f, row, col)
    ensures 0 <= LumaOut(f, row, col) < LumaSize(f)
    ensures row < r ==> LumaOut(f, row, col) < r * f.width
    ensures LumaIn(f, row, col) >= 0
  {
    MulLe(row + 1, f.height, f.width);
    if row < r {
      MulLe(row + 1, r, f.width);
    }
    MulLe(0, row, f.width);
    MulLe(0, row, f.yRowStride);
  }

  /** A luma read of a covered frame stays inside the Y buffer. */
  lemma LumaInBounds(f: YuvFrame, row: int, col: int)
    requires ValidLayout(f) && PlanesCover(f) && LumaCell(f, row, col)
    ensures 0 <= LumaIn(f, row, col) < |f.y|
  {
    MulLe(row, f.height - 1, f.yRowStride);
    MulLe(0, row, f.yRowStride);
  }

  /** Chroma output positions lie after the luma region and inside the output. */
  lemma ChromaOutBounds(f: YuvFrame, row: int, col: int)
    requires ValidLayout(f) && ChromaCell(f, row, col)
    ensures LumaSize(f) <= ChromaOut(f, row, col)
    ensures ChromaOut(f, row, col) + 1 < Nv21Size(f)
  {
    MulLe(0, row, f.width);
    MulLe(row + 1, f.height / 2, f.width);
    HalfRowsFit(f.width, f.height);
  }

  lemma HalfRowsFit(w: int, h: int)
    requires w >= 0 && h >= 0
    ensures (h / 2) * w <= (w * h) / 2
  {
    var k := h / 2;
    assert h >= 2 * k;
    MulLe(2 * k, h, w);
    assert 2 * (k * w) == (2 * k) * w;
  }

  /** A chroma cell written earlier (row-major order) lies wholly before a later one. */
  lemma ChromaOutOrdered(f: YuvFrame, r1: int, c1: int, r2: int, c2: int)
    requires ValidLayout(f) && ChromaCell(f, r1, c1) && ChromaCell(f, r2, c2)
    requires r1 < r2 || (r1 == r2 && c1 < c2)
    ensures ChromaOut(f, r1, c1) + 1 < ChromaOut(f, r2, c2)
  {
    if r1 < r2 {
      MulLe(r1 + 1, r2, f.width);
    }
  }

  /** A chroma read of a covered frame stays inside the U and V buffers. */
  lemma ChromaInBounds(f: YuvFrame, row: int, col: int)
    requires ValidLayout(f) && PlanesCover(f) && ChromaCell(f, row, col)
    ensures 0 <= ChromaIn(f, row, col) < |f.v| && ChromaIn(f, row, col) < |f.u|
  {
    MulLe(row, f.height / 2 - 1, f.uvRowStride);
    MulLe(col, f.width / 2 - 1, f.uvPixelStride);
    MulLe(0, row, f.uvRowStride);
    MulLe(0, col, f.uvPixelStride);
  }

  /** Distinct luma pixels have distinct output positions. */
  lemma LumaOutInjective(f: YuvFrame, r1: int, c1: int, r2: int, c2: int)
    requires ValidLayout(f) && LumaCell(f, r1, c1) && LumaCell(f, r2, c2)
    requires LumaOut(f, r1, c1) == LumaOut(f, r2, c2)
    ensures r1 == r2 && c1 == c2
  {
    if r1 < r2 {
      MulLe(r1 + 1, r2, f.width);
    } else if r2 < r1 {
      MulLe(r2 + 1, r1, f.width);
    }
  }

  /** Every byte of the luma region is the output position of some pixel: k is pixel (k / w, k mod w). */
  lemma LumaOutSurjective(f: YuvFrame, k: int)
    requires ValidLayout(f) && 0 <= k < LumaSize(f)
    ensures f.width > 0 && LumaCell(f, k / f.width, k % f.width)
    ensures LumaOut(f, k / f.width, k % f.width) == k
  {
    var w := f.width;
    if w > 0 {
      var q := k / w;
      assert k == q * w + k % w;
      if q >= f.height {
        MulLe(f.height, q, w);
      }
    }
  }

  /** Luma pixels of the first `rows` rows hold their Y bytes. */
  ghost predicate LumaRowsCopied(f: YuvFrame, a: array<Byte>, rows: int)
    reads a
  {
    forall r, c :: LumaCell(f, r, c) && r < rows ==>
      0 <= LumaOut(f, r, c) < a.Length && 0 <= LumaIn(f, r, c) < |f.y|
      && a[LumaOut(f, r, c)] == f.y[LumaIn(f, r, c)]
  }

  /** Chroma cells before (row, col) in row-major order hold their V and U bytes. */
  ghost predicate ChromaCellsCopied(f: YuvFrame, a: array<Byte>, row: int, col: int)
    reads a
  {
    forall r, c :: ChromaCell(f, r, c) && (r < row || (r == row && c < col)) ==>
      0 <= ChromaOut(f, r, c) && ChromaOut(f, r, c) + 1 < a.Length
      && 0 <= ChromaIn(f, r, c) < |f.v| && ChromaIn(f, r, c) < |f.u|
      && a[ChromaOut(f, r, c)] == f.v[ChromaIn(f, r, c)]
      && a[ChromaOut(f, r, c) + 1] == f.u[ChromaIn(f, r, c)]
  }

  /**
   * The conversion. `ok` is false exactly when a plane buffer is too short
   * (the source's buffer reads throw and the caller gets no JPEG); then the
   * result is empty. Otherwise the result has w * h + w * h / 2 bytes, luma
   * pixel (row, col) comes from Y[row * yRowStride + col] so the stride
   * padding is dropped, and chroma cell (row, col) holds the V byte and then
   * the U byte read at row * uvRowStride + col * uvPixelStride.
   */
  method Yuv420ToNv21(f: YuvFrame) returns (ok: bool, nv21: array<Byte>)
    requires ValidLayout(f)
    ensures ok == PlanesCover(f)
    ensures !ok ==> nv21.Length == 0
    ensures ok ==> nv21.Length == Nv21Size(f)
    ensures ok ==> LumaRowsCopied(f, nv21, f.height)
    ensures ok ==> ChromaCellsCopied(f, nv21, f.height / 2, 0)
  {
    if !PlanesCover(f) {
      ok := false;
      nv21 := new Byte[0];
      return;
    }
    ok := true;
    var ySize := f.width * f.height;
    var uvSize := f.width * f.height / 2;
    nv21 := new Byte[ySize + uvSize];
    CopyLuma(f, nv21);
    CopyChroma(f, nv21);
  }

  /**
   * The luma part: one block copy when the rows carry no padding, otherwise
   * one copy per row from its stride offset, advancing the output position
   * by the width.
   */
  method CopyLuma(f: YuvFrame, nv21: array<Byte>)
    requires ValidLayout(f) && PlanesCover(f) && nv21.Length == Nv21Size(f)
    modifies nv21
    ensures LumaRowsCopied(f, nv21, f.height)
  {
    if f.yRowStride == f.width {
      CopyLumaPacked(f, nv21);
    } else {
      var pos := 0;
      var row := 0;
      while row < f.height
        invariant 0 <= row <= f.height
        invariant pos == row * f.width
        invariant LumaRowsCopied(f, nv21, row)
      {
        CopyLumaRow(f, nv21, row, pos);
        pos := pos + f.width;
        row := row + 1;
      }
    }
  }

  /** Rows without padding: the Y plane's first width * height bytes in one copy. */
  method CopyLumaPacked(f: YuvFrame, nv21: array<Byte>)
    requires ValidLayout(f) && PlanesCover(f) && nv21.Length == Nv21Size(f)
    requires f.yRowStride == f.width
    modifies nv21
    ensures LumaRowsCopied(f, nv21, f.height)
  {
    var ySize := f.width * f.height;
    forall r, c | LumaCell(f, r, c)
      ensures 0 <= LumaOut(f, r, c) < ySize && 0 <= LumaIn(f, r, c) < |f.y|
    {
      LumaOutBounds(f, r, c, 0);
      LumaInBounds(f, r, c);
    }
    assert ySize <= nv21.Length;
    if f.height > 0 {
      assert ySize <= |f.y|;
    }
    forall k | 0 <= k < ySize {
      nv21[k] := f.y[k];
    }
    forall r, c | LumaCell(f, r, c)
      ensures nv21[LumaOut(f, r, c)] == f.y[LumaIn(f, r, c)]
    {
      assert LumaIn(f, r, c) == LumaOut(f, r, c);
    }
  }

  /** One padded luma row: `width` bytes from the row's stride offset to `pos`. */
  method CopyLumaRow(f: YuvFrame, nv21: array<Byte>, row: int, pos: int)
    requires ValidLayout(f) && PlanesCover(f) && nv21.Length == Nv21Size(f)
    requires 0 <= row < f.height && pos == row * f.width
    requires LumaRowsCopied(f, nv21, row)
    modifies nv21
    ensures LumaRowsCopied(f, nv21, row + 1)
  {
    var width := f.width;
    var start := row * f.yRowStride;
    LumaRowBounds(f, row);
    EarlierLumaRowsBefore(f, row);
    ghost var before := nv21[..];
    forall c | 0 <= c < width {
      nv21[pos + c] := f.y[start + c];
    }
    forall r, c | LumaCell(f, r, c) && r <= row
      ensures nv21[LumaOut(f, r, c)] == f.y[LumaIn(f, r, c)]
    {
      if r < row {
        assert nv21[LumaOut(f, r, c)] == before[LumaOut(f, r, c)];
      } else {
        assert LumaOut(f, r, c) == pos + c && LumaIn(f, r, c) == start + c;
      }
    }
  }

  /** Luma row `row` reads and writes inside both buffers, after every earlier row's output. */
  lemma LumaRowBounds(f: YuvFrame, row: int)
    requires ValidLayout(f) && PlanesCover(f) && 0 <= row < f.height
    ensures 0 <= row * f.width && row * f.width + f.width <= Nv21Size(f)
    ensures 0 <= row * f.yRowStride && row * f.yRowStride + f.width <= |f.y|
  {
    var w, h := f.width, f.height;
    MulLe(0, row, w);
    MulLe(row + 1, h, w);
    assert (row + 1) * w == row * w + w;
    MulLe(0, h, w);
    assert h * w == w * h;
    assert w * h <= Nv21Size(f);
    MulLe(0, row, f.yRowStride);
    MulLe(row, h - 1, f.yRowStride);
  }

  /** Every earlier luma row is written before the start of row `row`. */
  lemma EarlierLumaRowsBefore(f: YuvFrame, row: int)
    requires ValidLayout(f) && 0 <= row < f.height
    ensures forall r, c | LumaCell(f, r, c) && r < row :: LumaOut(f, r, c) < row * f.width
  {
    forall r, c | LumaCell(f, r, c) && r < row
      ensures LumaOut(f, r, c) < row * f.width
    {
      LumaOutBounds(f, r, c, row);
    }
  }

  /**
   * The chroma part: for each of the h / 2 rows and w / 2 columns, the V byte
   * and then the U byte of the cell, read at the same offset of the two
   * planes.
   */
  method CopyChroma(f: YuvFrame, nv21: array<Byte>)
    requires ValidLayout(f) && PlanesCover(f) && nv21.Length == Nv21Size(f)
    requires LumaRowsCopied(f, nv21, f.height)
    modifies nv21
    ensures LumaRowsCopied(f, nv21, f.height)
    ensures ChromaCellsCopied(f, nv21, f.height / 2, 0)
  {
    var uvHeight := f.height / 2;
    var uvWidth := f.width / 2;
    forall r, c | LumaCell(f, r, c)
      ensures LumaOut(f, r, c) < LumaSize(f)
    {
      LumaOutBounds(f, r, c, 0);
    }
    var row := 0;
    while row < uvHeight
      invariant 0 <= row <= uvHeight
      invariant LumaRowsCopied(f, nv21, f.height)
      invariant ChromaCellsCopied(f, nv21, row, 0)
    {
      var col := 0;
      while col < uvWidth
        invariant 0 <= col <= uvWidth
        invariant LumaRowsCopied(f, nv21, f.height)
        invariant ChromaCellsCopied(f, nv21, row, col)
      {
        CopyChromaCell(f, nv21, row, col);
        col := col + 1;
      }
      row := row + 1;
    }
  }

  /** One chroma cell: V at the cell's output position, U right after it. */
  method CopyChromaCell(f: YuvFrame, nv21: array<Byte>, row: int, col: int)
    requires ValidLayout(f) && PlanesCover(f) && nv21.Length == Nv21Size(f)
    requires ChromaCell(f, row, col)
    requires LumaRowsCopied(f, nv21, f.height)
    requires ChromaCellsCopied(f, nv21, row, col)
    requires forall r, c :: LumaCell(f, r, c) ==> LumaOut(f, r, c) < LumaSize(f)
    modifies nv21
    ensures LumaRowsCopied(f, nv21, f.height)
    ensures ChromaCellsCopied(f, nv21, row, col + 1)
  {
    ChromaOutBounds(f, row, col);
    ChromaInBounds(f, row, col);
    forall r, c | ChromaCell(f, r, c) && (r < row || (r == row && c < col))
      ensures ChromaOut(f, r, c) + 1 < ChromaOut(f, row, col)
    {
      ChromaOutOrdered(f, r, c, row, col);
    }
    var ySize := f.width * f.height;
    var uvIndex := row * f.uvRowStride + col * f.uvPixelStride;
    nv21[ySize + row * f.width + col * 2] := f.v[uvIndex];
    nv21[ySize + row * f.width + col * 2 + 1] := f.u[uvIndex];
  }
}
