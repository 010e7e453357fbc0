/**
 The arithmetic of the resizer: fixed-point tables that say which source column or row a destination one starts from,
 the bands of rows the threads work on, and the addresses the kernels write to.
 */
module Resizer {

  // ---------------------------------------------------------------- tables

  /** The step between destination positions in units of 1/256 source position, in 32-bit arithmetic. */
  function Scale(src: nat, dst: nat): nat
    requires dst > 0
  {
    src * 256 % 0x1_0000_0000 / dst
  }

  /** A destination position in those units, in 32-bit arithmetic. */
  function Position(i: nat, scale: nat): nat { i * scale % 0x1_0000_0000 }

  /** The weight of the next source position, and the source position as a 16-bit number. */
  function Weight(i: nat, scale: nat): (w: nat)
    ensures w < 256
  {
    Position(i, scale) % 256
  }

  function Source(i: nat, scale: nat): (s: nat)
    ensures s < 0x1_0000
  {
    Position(i, scale) / 256 % 0x1_0000
  }

  lemma {:induction false} MulMonotone(a: nat, b: nat, c: nat)
    requires a <= b
    ensures a * c <= b * c
  {
  }

  /** The last destination position starts within the source. */
  lemma {:induction false} PositionBelow(src: nat, dst: nat, i: nat)
    requires 1 <= src < 0x100_0000 && i < dst
    ensures Scale(src, dst) == src * 256 / dst && i * Scale(src, dst) < src * 256
  {
  }

  /** Nothing is lost to 16 or 32 bits, and every source position is within the source. */
  lemma {:induction false} TableExact(src: nat, dst: nat, i: nat)
    requires 1 <= src <= 0xFFFF && 1 <= dst <= 0xFFFF && i < dst
    ensures Source(i, Scale(src, dst)) * 256 + Weight(i, Scale(src, dst)) == i * (src * 256 / dst)
    ensures Source(i, Scale(src, dst)) < src
  {
    PositionBelow(src, dst, i);
    WholeBelow(i * Scale(src, dst), src);
  }

  lemma {:induction false} WholeBelow(p: nat, src: nat)
    requires p < src * 256 && src <= 0xFFFF
    ensures p % 0x1_0000_0000 / 256 % 0x1_0000 * 256 + p % 0x1_0000_0000 % 256 == p
    ensures p % 0x1_0000_0000 / 256 % 0x1_0000 < src
  {
  }

  lemma {:induction false} HalfBelow(p: nat, src: nat)
    requires p < src * 128 && src <= 0xFFFF
    ensures p % 0x1_0000_0000 / 256 % 0x1_0000 < (src + 1) / 2
  {
  }

  /** Source positions do not go backwards. */
  lemma {:induction false} TableMonotone(src: nat, dst: nat, i: nat, j: nat)
    requires 1 <= src <= 0xFFFF && 1 <= dst <= 0xFFFF && i <= j < dst
    ensures Source(i, Scale(src, dst)) <= Source(j, Scale(src, dst))
  {
    var scale := Scale(src, dst);
    TableExact(src, dst, i);
    TableExact(src, dst, j);
    MulMonotone(i, j, src * 256 / dst);
    WholeMonotone(Source(i, scale), Weight(i, scale), Source(j, scale), Weight(j, scale));
  }

  lemma {:induction false} WholeMonotone(s: nat, w: nat, s': nat, w': nat)
    requires s * 256 + w <= s' * 256 + w' && w' < 256
    ensures s <= s'
  {
  }

  /** Chroma rows start within the chroma rows of the source, of which there is one for every two luma rows. */
  lemma {:induction false} ChromaRowBelow(src: nat, dst: nat, i: nat)
    requires 1 <= src <= 0xFFFF && 1 <= dst <= 0xFFFF && i < dst / 2
    ensures Source(i, Scale(src, dst)) < (src + 1) / 2
  {
    var scale := src * 256 / dst;
    PositionBelow(src, dst, i);
    assert scale * dst <= src * 256;
    MulMonotone(2 * (i + 1), dst, scale);
    assert 2 * (i + 1) * scale == 2 * (i * scale) + 2 * scale;
    if scale == 0 { assert i * scale == 0; }
    HalfBelow(i * scale, src);
  }

  lemma {:induction false} Low16(p: nat)
    requires p < 0x1_0000_0000
    ensures (p % 0x1_0000_0000 / 256 % 0x1_0000 * 256 + p % 0x1_0000_0000 % 256 == p) == (p / 256 < 0x1_0000)
  {
  }

  /** Entry `i` of a table says `i` steps, none of them shortened by 16 or 32 bits. */
  predicate ExactAt(src: nat, dst: nat, i: nat)
    requires dst > 0
  {
    Source(i, Scale(src, dst)) * 256 + Weight(i, Scale(src, dst)) == i * (src * 256 / dst)
  }

  predicate ExactTable(src: nat, dst: nat)
    requires dst > 0
  {
    forall i: nat | i < dst :: ExactAt(src, dst, i)
  }

  /** The step does not wrap for sources of less than 2^24 positions. */
  lemma {:induction false} NarrowExactIff(src: nat, dst: nat)
    requires src < 0x100_0000 && 1 <= dst
    ensures ExactTable(src, dst) <==> (dst - 1) * (src * 256 / dst) / 256 < 0x1_0000
  {
    var step := src * 256 / dst;
    forall i: nat | i < dst
      ensures ExactAt(src, dst, i) <==> i * step / 256 < 0x1_0000
      ensures i * step <= (dst - 1) * step
    {
      if src > 0 { PositionBelow(src, dst, i); }
      Low16(i * step);
      MulMonotone(i, dst - 1, step);
    }
    assert ExactAt(src, dst, dst - 1) <==> (dst - 1) * step / 256 < 0x1_0000;
  }

  lemma {:induction false} QuotientAtLeast(x: nat, a: nat, d: nat)
    requires d > 0 && x * d <= a
    ensures x <= a / d
  {
    if a / d < x {
      MulMonotone(a / d + 1, x, d);
    }
  }

  /** For wider sources the step wraps and is too short. */
  lemma {:induction false} StepWraps(src: nat, dst: nat)
    requires 0x100_0000 <= src && 1 <= dst <= 0x1_0000_0000
    ensures Scale(src, dst) < src * 256 / dst
  {
    var a, q := src * 256, Scale(src, dst);
    assert q * dst <= a % 0x1_0000_0000;
    assert a % 0x1_0000_0000 <= a - 0x1_0000_0000;
    assert (q + 1) * dst == q * dst + dst;
    QuotientAtLeast(q + 1, a, dst);
  }

  /** And the last offset would not be a 16-bit number. */
  lemma {:induction false} LastIsFar(src: nat, dst: nat)
    requires 0x100_0000 <= src && 2 <= dst <= 0x1_0000_0000
    ensures (dst - 1) * (src * 256 / dst) / 256 >= 0x1_0000
  {
    var a, q := src * 256, src * 256 / dst;
    QuotientAtLeast(1, a, dst);
    assert a < q * dst + dst;
    MulMonotone(1, q, dst);
    assert 2 * (q * dst) > a;
    MulMonotone(2, dst, q);
    assert (dst - 1) * q == q * dst - q;
    assert dst * q == q * dst;
  }

  /**
   For all 32-bit dimensions: the table is exact if and only if the source position before the last step is a 16-bit
   number. Two destination columns of 131072 source columns are an instance that is not.
   */
  lemma {:induction false} TableExactIff(src: nat, dst: nat)
    requires src < 0x1_0000_0000 && 1 <= dst < 0x1_0000_0000
    ensures ExactTable(src, dst) <==> (dst - 1) * (src * 256 / dst) / 256 < 0x1_0000
  {
    if src < 0x100_0000 {
      NarrowExactIff(src, dst);
    } else if dst == 1 {
      assert ExactAt(src, 1, 0);
    } else {
      StepWraps(src, dst);
      LastIsFar(src, dst);
      EntryBelow(1, Scale(src, dst));
      assert !ExactAt(src, dst, 1);
    }
  }

  /** An entry never says more than its steps. */
  lemma {:induction false} EntryBelow(i: nat, scale: nat)
    ensures Source(i, scale) * 256 + Weight(i, scale) <= i * scale
  {
    var p := Position(i, scale);
    assert p <= i * scale && p / 256 % 0x1_0000 <= p / 256;
  }

  lemma {:induction false} WideSourceLoses()
    ensures Source(1, Scale(0x2_0000, 2)) == 0
  {
  }

  // ---------------------------------------------------------------- bands

  /** Rows from `first` up to `end`. */
  datatype Band = Band(first: nat, end: nat)

  /** The rows of a band but the last: twice the rows per thread, made even. */
  function BandRows(height: nat, threads: nat): (r: nat)
    requires threads > 0
    ensures r % 2 == 0
  {
    var rows: nat := height * 2 / threads;
    rows - rows % 2
  }

  /** The bands follow each other and make up the rows from 0 up to `height`. */
  predicate Covers(bands: seq<Band>, height: nat) {
    && bands != [] && bands[0].first == 0 && bands[|bands| - 1].end == height
    && (forall i | 0 <= i < |bands| :: bands[i].first <= bands[i].end)
    && (forall i | 0 < i < |bands| :: bands[i - 1].end == bands[i].first)
  }

  /** `m` bands of equal size, the last one reaching to the end. */
  function Bands(height: nat, rows: nat, m: nat): (bands: seq<Band>)
    ensures |bands| == m
  {
    seq(m, i requires 0 <= i < m => Band(i * rows, if i == m - 1 then height else i * rows + rows))
  }

  lemma {:induction false} BandsFit(height: nat, threads: nat, m: nat)
    requires threads >= 2 && 1 <= m && 2 * (m - 1) <= threads
    ensures (m - 1) * BandRows(height, threads) <= height
  {
  }

  /** The bands of either half of the threads make up all rows. */
  lemma {:induction false} BandsCover(height: nat, threads: nat, m: nat)
    requires threads >= 2 && 1 <= m && 2 * (m - 1) <= threads
    ensures Covers(Bands(height, BandRows(height, threads), m), height)
  {
    BandsFit(height, threads, m);
    var rows := BandRows(height, threads);
    var bands := Bands(height, rows, m);
    forall i | 0 <= i < m
      ensures bands[i].first <= bands[i].end
    {
    }
    forall i | 0 < i < m
      ensures bands[i - 1].end == bands[i].first
    {
      assert (i - 1) * rows + rows == i * rows;
    }
  }

  /** Every row is in exactly one band. */
  lemma {:induction false} RowInOneBand(bands: seq<Band>, height: nat, row: nat) returns (i: nat)
    requires Covers(bands, height) && row < height
    ensures i < |bands| && bands[i].first <= row < bands[i].end
    ensures forall k | 0 <= k < |bands| && k != i :: !(bands[k].first <= row < bands[k].end)
  {
    i := 0;
    while bands[i].end <= row
      invariant i < |bands| && bands[i].first <= row
      decreases |bands| - i
    {
      i := i + 1;
    }
    forall k | 0 <= k < |bands| && k != i
      ensures !(bands[k].first <= row < bands[k].end)
    {
      if k < i { Follow(bands, height, k, i); } else { Follow(bands, height, i, k); }
    }
  }

  lemma {:induction false} Follow(bands: seq<Band>, height: nat, i: nat, k: nat)
    requires Covers(bands, height) && i < k < |bands|
    ensures bands[i].end <= bands[k].first
  {
    if i < k - 1 { Follow(bands, height, i, k - 1); }
  }

  /** The chroma rows of luma bands. */
  function Halves(bands: seq<Band>): (h: seq<Band>)
    ensures |h| == |bands|
  {
    seq(|bands|, i requires 0 <= i < |bands| => Band(bands[i].first / 2, bands[i].end / 2))
  }

  /** The chroma rows of bands that make up the rows make up all the chroma rows. */
  lemma {:induction false} HalvesCover(bands: seq<Band>, height: nat)
    requires Covers(bands, height)
    ensures Covers(Halves(bands), height / 2)
  {
  }

  // ---------------------------------------------------------------- addresses

  /** Where the kernel's pointer is at the start of a row, when its band begins with row `first`. */
  function RowPointer(first: nat, row: nat, width: nat, stride: nat): int
    requires first <= row && width <= stride
  {
    first * stride + (row - first) * RowStep(width, stride)
  }

  /**
   A row moves the pointer by eight for each block of eight columns, and then by what the stride has over the width.
   */
  function RowStep(width: nat, stride: nat): nat
    requires width <= stride
  {
    width / 8 * 8 + (stride - width)
  }

  /** Each row is written at its own place if and only if the width is a multiple of eight, or it is a band's first. */
  lemma {:induction false} RowPlaceIff(first: nat, row: nat, width: nat, stride: nat)
    requires first <= row && width <= stride
    ensures RowPointer(first, row, width, stride) == row * stride <==> width % 8 == 0 || row == first
  {
  }

  /** A row of twelve columns ends four columns early: the next one is written from place 8 on instead of 12. */
  lemma {:induction false} TwelveColumnsDrift()
    ensures RowPointer(0, 1, 12, 12) == 8
  {
  }

  /** The chroma pointer of an even first row begins at that row's chroma row. */
  lemma {:induction false} ChromaBase(first: nat, stride: nat)
    requires first % 2 == 0
    ensures first * stride / 2 == first / 2 * stride
  {
  }
}
