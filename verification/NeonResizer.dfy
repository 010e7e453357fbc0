/**
 The resizer's loops: the context that fills and keeps the tables, the split of the rows among the threads, and the
 walk of a kernel over its rows, each proved against the arithmetic of `Resizer`.
 */
module NeonResizer {
  import opened Resizer

  type Word16 = x: nat | x < 0x1_0000

  /** The tables of one direction are those of the given sizes. */
  predicate Filled(offsets: seq<Word16>, weights: seq<Word16>, src: nat, dst: nat, n: nat) {
    && |offsets| == |weights| == dst && n <= dst
    && forall i: nat | i < n :: offsets[i] == Source(i, Scale(src, dst)) && weights[i] == Weight(i, Scale(src, dst))
  }

  /** One weight for every two bytes of chroma; a byte left over has none. */
  predicate FilledPairs(weights: seq<Word16>, src: nat, dst: nat, n: nat) {
    && |weights| == dst && n <= dst / 2
    && forall i: nat | i < dst :: weights[i] == if i / 2 < n then Weight(i / 2, Scale(src, dst)) else 0
  }

  class ResnContext {
    var srcWidth: nat
    var srcHeight: nat
    var dstWidth: nat
    var dstHeight: nat
    var yCoefs: array<Word16>
    var uvCoefs: array<Word16>
    var inputOffsets: array<Word16>
    var verOffsets: array<Word16>
    var verCoefs: array<Word16>

    /** The tables are those of the dimensions kept, from the first update on. */
    ghost predicate Valid()
      reads this, yCoefs, uvCoefs, inputOffsets, verOffsets, verCoefs
    {
      dstWidth > 0 && dstHeight > 0 ==>
        && Filled(inputOffsets[..], yCoefs[..], srcWidth, dstWidth, dstWidth)
        && FilledPairs(uvCoefs[..], srcWidth, dstWidth, dstWidth / 2)
        && Filled(verOffsets[..], verCoefs[..], srcHeight, dstHeight, dstHeight)
    }

    constructor ()
      ensures Valid() && srcWidth == srcHeight == dstWidth == dstHeight == 0
    {
      srcWidth, srcHeight, dstWidth, dstHeight := 0, 0, 0, 0;
      yCoefs, uvCoefs, inputOffsets := new Word16[0], new Word16[0], new Word16[0];
      verOffsets, verCoefs := new Word16[0], new Word16[0];
    }

    static method SplitPosition(position: nat) returns (weight: Word16, source: nat)
      ensures weight == position % 256 && source == position / 256
    {
      weight := position - position / 256 * 256;
      source := (position - weight) / 256;
    }

    /** A table of source positions and one of weights. */
    static method FillTables(src: nat, dst: nat) returns (offsets: array<Word16>, weights: array<Word16>)
      requires 1 <= dst <= 0xFFFF
      ensures fresh(offsets) && fresh(weights) && offsets != weights
      ensures Filled(offsets[..], weights[..], src, dst, dst)
    {
      offsets, weights := new Word16[dst](i => 0), new Word16[dst](i => 0);
      var scale, i := Scale(src, dst), 0;
      while i < dst
        invariant 0 <= i <= dst
        invariant Filled(offsets[..], weights[..], src, dst, i)
      {
        var weight, source := SplitPosition(Position(i, scale));
        weights[i] := weight;
        offsets[i] := source % 0x1_0000;
        i := i + 1;
      }
    }

    static method FillPairs(src: nat, dst: nat) returns (weights: array<Word16>)
      requires 1 <= dst <= 0xFFFF
      ensures fresh(weights) && FilledPairs(weights[..], src, dst, dst / 2)
    {
      weights := new Word16[dst](i => 0);
      var scale, i := Scale(src, dst), 0;
      while i < dst / 2
        invariant 0 <= i <= dst / 2
        invariant FilledPairs(weights[..], src, dst, i)
      {
        var weight, _ := SplitPosition(Position(i, scale));
        weights[i * 2] := weight;
        weights[i * 2 + 1] := weight;
        i := i + 1;
      }
    }

    /**
     Fills the tables, unless the dimensions are those of the last call. Source dimensions are any 32-bit numbers; from
     1 to 65535 they give exact tables.
     */
    method UpdateCoefs(sw: nat, sh: nat, dw: nat, dh: nat)
      requires Valid() && 1 <= dw <= 0xFFFF && 1 <= dh <= 0xFFFF
      modifies this
      ensures Valid() && srcWidth == sw && srcHeight == sh && dstWidth == dw && dstHeight == dh
      ensures Filled(inputOffsets[..], yCoefs[..], sw, dw, dw) && Filled(verOffsets[..], verCoefs[..], sh, dh, dh)
      ensures 1 <= sw <= 0xFFFF ==> ExactTables(inputOffsets[..], yCoefs[..], sw, dw)
      ensures 1 <= sh <= 0xFFFF ==> ExactTables(verOffsets[..], verCoefs[..], sh, dh)
      ensures 1 <= sw <= 0xFFFF ==> ExactPairs(inputOffsets[..], uvCoefs[..], sw, dw)
    {
      if sw != srcWidth || sh != srcHeight || dw != dstWidth || dh != dstHeight {
        srcWidth, srcHeight, dstWidth, dstHeight := sw, sh, dw, dh;
        inputOffsets, yCoefs := FillTables(sw, dw);
        uvCoefs := FillPairs(sw, dw);
        verOffsets, verCoefs := FillTables(sh, dh);
      }
      ColumnsExact(inputOffsets[..], yCoefs[..], uvCoefs[..], sw, dw);
      Exact(verOffsets[..], verCoefs[..], sh, dh);
    }
  }

  /** Offset and weight are the position, and every offset is within the source. */
  predicate ExactTables(offsets: seq<Word16>, weights: seq<Word16>, src: nat, dst: nat) {
    && |offsets| == |weights| == dst > 0
    && forall i | 0 <= i < dst :: offsets[i] < src && offsets[i] as nat * 256 + weights[i] == i * (src * 256 / dst)
  }

  lemma {:induction false} Exact(offsets: seq<Word16>, weights: seq<Word16>, src: nat, dst: nat)
    requires 1 <= dst <= 0xFFFF && Filled(offsets, weights, src, dst, dst)
    ensures 1 <= src <= 0xFFFF ==> ExactTables(offsets, weights, src, dst)
  {
    forall i | 0 <= i < dst && 1 <= src <= 0xFFFF
      ensures offsets[i] < src && offsets[i] as nat * 256 + weights[i] == i * (src * 256 / dst)
    {
      TableExact(src, dst, i);
    }
  }

  /** Both bytes of a chroma pair have the weight that makes up the position of the pair. */
  predicate ExactPairs(offsets: seq<Word16>, pairs: seq<Word16>, src: nat, dst: nat) {
    && |offsets| == |pairs| == dst > 0
    && forall b | 0 <= b < dst / 2 * 2 :: offsets[b / 2] as nat * 256 + pairs[b] == b / 2 * (src * 256 / dst)
  }

  lemma {:induction false} ColumnsExact(offsets: seq<Word16>, weights: seq<Word16>, pairs: seq<Word16>, src: nat,
                                        dst: nat)
    requires 1 <= dst <= 0xFFFF && Filled(offsets, weights, src, dst, dst) && FilledPairs(pairs, src, dst, dst / 2)
    ensures 1 <= src <= 0xFFFF ==> ExactTables(offsets, weights, src, dst) && ExactPairs(offsets, pairs, src, dst)
  {
    Exact(offsets, weights, src, dst);
    forall b | 0 <= b < dst / 2 * 2 && 1 <= src <= 0xFFFF
      ensures offsets[b / 2] as nat * 256 + pairs[b] == b / 2 * (src * 256 / dst)
    {
      TableExact(src, dst, b / 2);
    }
  }

  /** The bands of one half of the threads. */
  method SplitHalf(height: nat, threads: nat, m: nat) returns (bands: seq<Band>)
    requires threads >= 2 && 1 <= m && 2 * (m - 1) <= threads
    ensures bands == Bands(height, BandRows(height, threads), m) && Covers(bands, height)
    ensures forall i | 0 <= i < m :: bands[i].first % 2 == 0
  {
    var rows, i := BandRows(height, threads), 0;
    bands := [];
    while i < m
      invariant 0 <= i <= m && |bands| == i
      invariant forall k | 0 <= k < i :: bands[k] == Band(k * rows, k * rows + rows)
    {
      bands := bands + [Band(i * rows, i * rows + rows)];
      i := i + 1;
    }
    bands := bands[m - 1 := bands[m - 1].(end := height)];
    assert bands == Bands(height, rows, m);
    BandsCover(height, threads, m);
    forall k | 0 <= k < m
      ensures bands[k].first % 2 == 0
    {
      EvenMultiple(k, rows);
    }
  }

  lemma {:induction false} EvenMultiple(k: nat, rows: nat)
    requires rows % 2 == 0
    ensures k * rows % 2 == 0
  {
    var half := rows / 2;
    assert k * rows == 2 * (k * half);
  }

  /**
   The split of the rows: the first half of the threads gets all luma rows, the second half, one thread more if their
   number is odd, all chroma rows, each row exactly once. With fewer than two threads there is no last luma thread whose
   band could reach to the end, and the program stops at the check of its number.
   */
  method SplitLines(height: nat, threads: nat) returns (ok: bool, luma: seq<Band>, chroma: seq<Band>)
    ensures ok <==> threads >= 2
    ensures ok ==> |luma| == threads / 2 && |chroma| == threads - threads / 2
    ensures ok ==> Covers(luma, height) && Covers(Halves(chroma), height / 2)
    ensures ok ==> forall i | 0 <= i < |chroma| :: chroma[i].first % 2 == 0
  {
    if threads / 2 == 0 { return false, [], []; }
    ok := true;
    luma := SplitHalf(height, threads, threads / 2);
    chroma := SplitHalf(height, threads, threads - threads / 2);
    HalvesCover(chroma, height);
  }

  // ---------------------------------------------------------------- kernels

  /** Eight destination bytes, and the places in the source they are computed from. */
  datatype Block = Block(dst: int, src: seq<int>)

  /** Eight luma columns, or four pairs of chroma bytes. */
  function Lanes(chroma: bool): nat { if chroma then 4 else 8 }

  /** The source column of one lane of block `c`. */
  function Column(offsets: seq<Word16>, chroma: bool, c: nat, j: nat): nat
    requires j < Lanes(chroma) && 8 * c + 8 <= |offsets|
  {
    if chroma then offsets[c * 4 + j] as nat * 2 else offsets[c * 8 + j]
  }

  function BlockAt(at: int, from: int, offsets: seq<Word16>, chroma: bool, c: nat): Block
    requires 8 * c + 8 <= |offsets|
  {
    Block(at + 8 * c, seq(Lanes(chroma), j requires 0 <= j < Lanes(chroma) => from + Column(offsets, chroma, c, j)))
  }

  /** The blocks of a row follow each other from `at` on and read the source row at `from`. */
  predicate RowAt(blocks: seq<Block>, at: int, from: int, offsets: seq<Word16>, chroma: bool) {
    |blocks| == |offsets| / 8 && forall c: nat | c < |blocks| :: blocks[c] == BlockAt(at, from, offsets, chroma, c)
  }

  /** One row: its blocks, and the pointer after it. */
  method WalkRow(start: int, from: int, offsets: seq<Word16>, chroma: bool, stride: nat)
    returns (blocks: seq<Block>, next: int)
    requires |offsets| <= stride
    ensures RowAt(blocks, start, from, offsets, chroma) && next == start + RowStep(|offsets|, stride)
  {
    var width := |offsets|;
    blocks, next := [], start;
    var col := 0;
    while col < width / 8
      invariant 0 <= col <= width / 8 && |blocks| == col && next == start + 8 * col
      invariant forall c: nat | c < col :: blocks[c] == BlockAt(start, from, offsets, chroma, c)
    {
      var src := WalkLanes(from, offsets, chroma, col);
      blocks := blocks + [Block(next, src)];
      next := next + 8;
      col := col + 1;
    }
    next := next + (stride - width);
  }

  method WalkLanes(from: int, offsets: seq<Word16>, chroma: bool, c: nat) returns (src: seq<int>)
    requires 8 * c + 8 <= |offsets|
    ensures src == BlockAt(0, from, offsets, chroma, c).src
  {
    src := [];
    var j := 0;
    while j < Lanes(chroma)
      invariant j <= Lanes(chroma) && |src| == j
      invariant forall k: nat | k < j :: src[k] == from + Column(offsets, chroma, c, k)
    {
      src := src + [from + Column(offsets, chroma, c, j)];
      j := j + 1;
    }
  }

  /** What a kernel is given: the tables of the columns and rows, the two strides, and the step between rows. */
  datatype Image = Image(columns: seq<Word16>, rows: seq<Word16>, scale: nat, srcStride: nat, stride: nat) {
    predicate Ok() { |columns| <= stride }

    /** The tables are those of the given dimensions. */
    predicate Of(sw: nat, sh: nat) {
      && 1 <= sw <= 0xFFFF && 1 <= sh <= 0xFFFF && sw <= srcStride
      && 1 <= |columns| <= 0xFFFF && 1 <= |rows| <= 0xFFFF && scale == Scale(sh, |rows|)
      && (forall i: nat | i < |columns| :: columns[i] == Source(i, Scale(sw, |columns|)))
      && (forall i: nat | i < |rows| :: rows[i] == Source(i, scale))
    }
  }

  /** The source row of a destination row: computed by the kernels that skip rows, looked up by the others. */
  function SourceRow(img: Image, skips: bool, row: nat): nat
    requires row < |img.rows|
  {
    if skips then Position(row, img.scale) / 256 else img.rows[row]
  }

  /** All rows of a band. */
  method WalkRows(img: Image, chroma: bool, skips: bool, start: int, first: nat, end: nat)
    returns (rows: seq<seq<Block>>)
    requires img.Ok() && first <= end <= |img.rows| && start == first * img.stride
    ensures |rows| == end - first
    ensures forall k: nat | k < |rows| :: RowAt(rows[k], RowPointer(first, first + k, |img.columns|, img.stride),
                                                SourceRow(img, skips, first + k) * img.srcStride, img.columns, chroma)
  {
    rows := [];
    var row, dst := first, start;
    while row < end
      invariant first <= row <= end && |rows| == row - first && dst == RowPointer(first, row, |img.columns|, img.stride)
      invariant forall k: nat | k < |rows| :: RowAt(rows[k], RowPointer(first, first + k, |img.columns|, img.stride),
                                                    SourceRow(img, skips, first + k) * img.srcStride,
                                                    img.columns, chroma)
    {
      NextRow(first, row, |img.columns|, img.stride);
      var blocks, next := WalkRow(dst, SourceRow(img, skips, row) * img.srcStride, img.columns, chroma, img.stride);
      rows := rows + [blocks];
      dst := next;
      row := row + 1;
    }
  }

  lemma {:induction false} NextRow(first: nat, row: nat, width: nat, stride: nat)
    requires first <= row && width <= stride
    ensures RowPointer(first, row + 1, width, stride) == RowPointer(first, row, width, stride) + RowStep(width, stride)
  {
    var k, step := row - first, RowStep(width, stride);
    assert (k + 1) * step == k * step + step;
  }

  /**
   A row of luma bytes from `at` on, as many as whole blocks have: byte `x` is computed from the place in the source row
   at `from` that column `x` of the table says.
   */
  predicate LumaRow(blocks: seq<Block>, at: int, from: int, columns: seq<Word16>) {
    && |blocks| == |columns| / 8
    && forall x: nat | x < 8 * |blocks| ::
         && blocks[x / 8].dst + x % 8 == at + x
         && |blocks[x / 8].src| == 8 && blocks[x / 8].src[x % 8] == from + columns[x]
  }

  /** A row of chroma bytes: pair `x` of them is computed from the pair of the source row that column `x` says. */
  predicate ChromaRow(blocks: seq<Block>, at: int, from: int, columns: seq<Word16>) {
    && |blocks| == |columns| / 8
    && forall x: nat | x < 4 * |blocks| ::
         && blocks[x / 4].dst + 2 * (x % 4) == at + 2 * x
         && |blocks[x / 4].src| == 4 && blocks[x / 4].src[x % 4] == from + 2 * columns[x] as nat
  }

  lemma {:induction false} RowIsLuma(blocks: seq<Block>, at: int, from: int, columns: seq<Word16>)
    requires RowAt(blocks, at, from, columns, false)
    ensures LumaRow(blocks, at, from, columns)
  {
    forall x: nat | x < 8 * |blocks|
      ensures blocks[x / 8].dst + x % 8 == at + x
      ensures |blocks[x / 8].src| == 8 && blocks[x / 8].src[x % 8] == from + columns[x]
    {
      assert blocks[x / 8] == BlockAt(at, from, columns, false, x / 8);
    }
  }

  lemma {:induction false} RowIsChroma(blocks: seq<Block>, at: int, from: int, columns: seq<Word16>)
    requires RowAt(blocks, at, from, columns, true)
    ensures ChromaRow(blocks, at, from, columns)
  {
    forall x: nat | x < 4 * |blocks|
      ensures blocks[x / 4].dst + 2 * (x % 4) == at + 2 * x
      ensures |blocks[x / 4].src| == 4 && blocks[x / 4].src[x % 4] == from + 2 * columns[x] as nat
    {
      assert blocks[x / 4] == BlockAt(at, from, columns, true, x / 4);
    }
  }

  /**
   Row `row` of a band that begins with row `first`: where its pointer is, and, with a width that is a multiple of
   eight, at its own place.
   */
  predicate IsLumaRow(blocks: seq<Block>, img: Image, skips: bool, first: nat, row: nat)
    requires img.Ok() && first <= row < |img.rows|
  {
    var from := SourceRow(img, skips, row) * img.srcStride;
    && LumaRow(blocks, RowPointer(first, row, |img.columns|, img.stride), from, img.columns)
    && (|img.columns| % 8 == 0 ==> LumaRow(blocks, row * img.stride, from, img.columns))
  }

  predicate IsChromaRow(blocks: seq<Block>, img: Image, skips: bool, first: nat, row: nat)
    requires img.Ok() && first <= row < |img.rows|
  {
    var from := SourceRow(img, skips, row) * img.srcStride;
    && ChromaRow(blocks, RowPointer(first, row, |img.columns|, img.stride), from, img.columns)
    && (|img.columns| % 8 == 0 ==> ChromaRow(blocks, row * img.stride, from, img.columns))
  }

  lemma {:induction false} WalkedLuma(blocks: seq<Block>, img: Image, skips: bool, first: nat, row: nat)
    requires img.Ok() && first <= row < |img.rows|
    requires RowAt(blocks, RowPointer(first, row, |img.columns|, img.stride),
                   SourceRow(img, skips, row) * img.srcStride, img.columns, false)
    ensures IsLumaRow(blocks, img, skips, first, row)
  {
    RowIsLuma(blocks, RowPointer(first, row, |img.columns|, img.stride), SourceRow(img, skips, row) * img.srcStride,
              img.columns);
    if |img.columns| % 8 == 0 { RowPlaceIff(first, row, |img.columns|, img.stride); }
  }

  lemma {:induction false} WalkedChroma(blocks: seq<Block>, img: Image, skips: bool, first: nat, row: nat)
    requires img.Ok() && first <= row < |img.rows|
    requires RowAt(blocks, RowPointer(first, row, |img.columns|, img.stride),
                   SourceRow(img, skips, row) * img.srcStride, img.columns, true)
    ensures IsChromaRow(blocks, img, skips, first, row)
  {
    RowIsChroma(blocks, RowPointer(first, row, |img.columns|, img.stride), SourceRow(img, skips, row) * img.srcStride,
                img.columns);
    if |img.columns| % 8 == 0 { RowPlaceIff(first, row, |img.columns|, img.stride); }
  }

  /** The luma kernel: for each row of its band the places it writes and the places they are computed from. */
  method LumaWalk(img: Image, skips: bool, band: Band) returns (rows: seq<seq<Block>>)
    requires img.Ok() && band.first <= band.end <= |img.rows|
    ensures |rows| == band.end - band.first
    ensures forall k: nat | k < |rows| :: IsLumaRow(rows[k], img, skips, band.first, band.first + k)
  {
    rows := WalkRows(img, false, skips, band.first * img.stride, band.first, band.end);
    forall k: nat | k < |rows|
      ensures IsLumaRow(rows[k], img, skips, band.first, band.first + k)
    {
      WalkedLuma(rows[k], img, skips, band.first, band.first + k);
    }
  }

  /** The chroma kernel works on half the rows. */
  method ChromaWalk(img: Image, skips: bool, band: Band) returns (rows: seq<seq<Block>>)
    requires img.Ok() && band.first <= band.end <= |img.rows| && band.first % 2 == 0
    ensures |rows| == band.end / 2 - band.first / 2
    ensures forall k: nat | k < |rows| :: IsChromaRow(rows[k], img, skips, band.first / 2, band.first / 2 + k)
  {
    ChromaBase(band.first, img.stride);
    var first := band.first / 2;
    rows := WalkRows(img, true, skips, band.first * img.stride / 2, first, band.end / 2);
    forall k: nat | k < |rows|
      ensures IsChromaRow(rows[k], img, skips, first, first + k)
    {
      WalkedChroma(rows[k], img, skips, first, first + k);
    }
  }

  /** Both kinds of kernel read the same source row. */
  lemma {:induction false} RowsAgree(img: Image, sw: nat, sh: nat, row: nat)
    requires img.Of(sw, sh) && row < |img.rows|
    ensures SourceRow(img, true, row) == SourceRow(img, false, row) == Source(row, img.scale) < sh
  {
    TableExact(sh, |img.rows|, row);
    PositionBelow(sh, |img.rows|, row);
  }

  lemma {:induction false} InPlane(row: nat, column: nat, height: nat, stride: nat)
    requires row < height && column < stride
    ensures 0 <= row * stride + column < height * stride
  {
    MulMonotone(row + 1, height, stride);
    assert (row + 1) * stride == row * stride + stride;
  }

  lemma {:induction false} OffsetIs(src: nat, dst: nat, i: nat)
    requires 1 <= src <= 0xFFFF && 1 <= dst <= 0xFFFF && i < dst
    ensures Source(i, Scale(src, dst)) == i * (src * 256 / dst) / 256
  {
    TableExact(src, dst, i);
  }

  /**
   What the luma kernels scale: byte `x` of row `row` is computed from the place of the source plane that the two steps
   of 1/256 give, and that place is within the plane.
   */
  lemma {:induction false} LumaReadsInPlane(img: Image, sw: nat, sh: nat, skips: bool, row: nat, blocks: seq<Block>,
                                            at: int, x: nat)
    requires img.Of(sw, sh) && row < |img.rows| && x < 8 * (|img.columns| / 8)
    requires LumaRow(blocks, at, SourceRow(img, skips, row) * img.srcStride, img.columns)
    ensures blocks[x / 8].src[x % 8]
         == row * (sh * 256 / |img.rows|) / 256 * img.srcStride + x * (sw * 256 / |img.columns|) / 256
    ensures 0 <= blocks[x / 8].src[x % 8] < sh * img.srcStride
  {
    RowsAgree(img, sw, sh, row);
    OffsetIs(sh, |img.rows|, row);
    OffsetIs(sw, |img.columns|, x);
    TableExact(sw, |img.columns|, x);
    InPlane(SourceRow(img, skips, row), img.columns[x], sh, img.srcStride);
  }

  /** The same for the chroma kernels; the source plane has one row for every two luma rows. */
  lemma {:induction false} ChromaReadsInPlane(img: Image, sw: nat, sh: nat, skips: bool, row: nat, blocks: seq<Block>,
                                              at: int, x: nat)
    requires img.Of(sw, sh) && row < |img.rows| / 2 && x < 4 * (|img.columns| / 8)
    requires ChromaRow(blocks, at, SourceRow(img, skips, row) * img.srcStride, img.columns)
    ensures blocks[x / 4].src[x % 4]
         == row * (sh * 256 / |img.rows|) / 256 * img.srcStride + 2 * (x * (sw * 256 / |img.columns|) / 256)
    ensures 0 <= blocks[x / 4].src[x % 4] < (sh + 1) / 2 * img.srcStride
  {
    RowsAgree(img, sw, sh, row);
    OffsetIs(sh, |img.rows|, row);
    OffsetIs(sw, |img.columns|, x);
    ChromaRowBelow(sh, |img.rows|, row);
    ChromaRowBelow(sw, |img.columns|, x);
    InPlane(SourceRow(img, skips, row), 2 * img.columns[x] as nat, (sh + 1) / 2, img.srcStride);
  }
}
