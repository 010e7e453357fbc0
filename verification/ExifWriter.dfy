/**
 What the Exif writer leaves in its two buffers: entries with offsets into the helper buffer while a directory is
 open, and a complete directory once the offsets are relocated and the helper buffer is copied behind the entries.
 */
module ExifWriter {
  import opened Bytes
  import opened ExifFormat

  // ---------------------------------------------------------------- placing bytes

  lemma {:induction false} PutEntry(s: seq<Byte>, at: nat, t: Tag, x: nat)
    requires at + 12 <= |s| && t.Ok()
    ensures Put(Put(s, at, Head(t)), at + 8, DataField(SlotOf(t), x)) == Put(s, at, Entry(SlotOf(t), x))
  {
  }

  lemma {:induction false} PutWord(s: seq<Byte>, at: nat, words: seq<nat>, k: Kind, i: nat)
    requires WordsFit(words, k) && i < |words| && at + Span(i + 1, k) <= |s|
    ensures Span(i + 1, k) == Span(i, k) + WordSize(k)
    ensures Put(Put(s, at, EncodeFirst(words, k, i)), at + Span(i, k), WordBytes(words[i], k))
         == Put(s, at, EncodeFirst(words, k, i + 1))
  {
  }

  lemma {:induction false} SpanGrows(i: nat, n: nat, k: Kind)
    requires i < n
    ensures Span(i + 1, k) == Span(i, k) + WordSize(k) <= Span(n, k)
  {
  }

  lemma {:induction false} PutZero(s: seq<Byte>, at: nat, n: nat)
    requires at + n + 1 <= |s|
    ensures Put(Put(s, at, Zeros(n)), at + n, [0]) == Put(s, at, Zeros(n + 1))
  {
  }

  // ---------------------------------------------------------------- an open directory

  /** The tags the writer can write: only text and undefined data may be empty, and no 32-bit sum wraps around. */
  predicate Writable(t: Tag) {
    && t.Ok() && (t.words != [] || t.kind.KAscii? || t.kind.KUndefined?)
    && t.DataLen() + MAX_APP1 < 0x1_0000_0000
  }

  /** The helper buffer and its offset after one tag: an out-of-line value is placed on an even offset. */
  function HelperAfter(helper: seq<Byte>, offset: nat, s: Slot): seq<Byte>
    requires s.Inline() || Even(offset) + |s.value| <= |helper|
  {
    if s.Inline() then helper else Put(helper, Even(offset), s.value)
  }

  function OffsetAfter(offset: nat, s: Slot): nat { if s.Inline() then offset else Even(offset) + |s.value| }

  lemma {:induction false} FieldOf(t: Tag, x: nat)
    requires t.Ok() && (t.Inline() || x < 0x1_0000_0000)
    ensures t.Inline() ==> DataField(SlotOf(t), x) == Encode(t.words, t.kind) + Zeros(4 - t.DataLen())
    ensures !t.Inline() ==> DataField(SlotOf(t), x) == Bytes32(x)
  {
  }

  predicate TagsWritable(tags: seq<Tag>) { TagsOk(tags) && forall i | 0 <= i < |tags| :: Writable(tags[i]) }

  /** A directory lies within a buffer of this length. */
  predicate Fits(length: nat, at: nat, slots: seq<Slot>) {
    SlotsOk(slots) && TIFF_BASE <= at && at + IfdSize(slots) <= length < 0x1_0000_0000
  }

  /** Its out-of-line values leave a byte of the helper buffer free. */
  predicate HelperFits(slots: seq<Slot>) { DataArea(slots, |slots|) < MAX_APP1 }

  /** The writer records a directory at `at` without an overflow. */
  predicate Recordable(at: nat, slots: seq<Slot>) { EntriesFit(at, slots) && HelperFits(slots) }

  /** The same, and so is its padding to an even place. */
  predicate PaddedFits(at: nat, slots: seq<Slot>) { Recordable(at, slots) && Even(at + IfdSize(slots)) <= MAX_APP1 }

  /** A value of out-of-line bytes: the only kind that can take up the last byte of the helper buffer. */
  predicate Loose(s: Slot) { !s.Inline() && |s.head| == 8 && U16(s.head, 2) == 1 }

  /** The offset into the helper buffer cannot step past its end. */
  predicate HelperSafe(slots: seq<Slot>) { HelperFits(slots) || forall i: nat | i < |slots| :: !Loose(slots[i]) }

  /** The bytes a directory may take up: no more is copied from the helper buffer than it holds. */
  function Footprint(slots: seq<Slot>): nat {
    2 + 12 * |slots| + 4 + if HelperFits(slots) then DataArea(slots, |slots|) else MAX_APP1 - 1
  }

  /** A directory at `at`, whether or not it is recorded, stays within a buffer of this length. */
  predicate Within(length: nat, at: nat, slots: seq<Slot>) {
    SlotsOk(slots) && TIFF_BASE <= at && at + Footprint(slots) <= length < 0x1_0000_0000
  }

  lemma {:induction false} LooseTag(t: Tag)
    requires t.Ok()
    ensures Loose(SlotOf(t)) <==> t.kind.KByte? && !t.Inline()
  {
    HeadFields(Head(t), 0, t);
  }

  /** Entry `i` as first written: the offset of its value is one into the helper buffer. */
  predicate RawAt(buf: seq<Byte>, at: nat, slots: seq<Slot>, i: nat)
    requires i < |slots|
  {
    BytesAt(buf, at + 2 + 12 * i, Entry(slots[i], DataStart(slots, i)))
  }

  predicate HelperAt(helper: seq<Byte>, slots: seq<Slot>, i: nat)
    requires i < |slots|
  {
    !slots[i].Inline() ==> BytesAt(helper, DataStart(slots, i), slots[i].value)
  }

  predicate RawFirst(buf: seq<Byte>, at: nat, slots: seq<Slot>, n: nat)
    requires n <= |slots|
  {
    forall i: nat | i < n :: RawAt(buf, at, slots, i)
  }

  predicate HelperFirst(helper: seq<Byte>, slots: seq<Slot>, n: nat)
    requires n <= |slots|
  {
    forall i: nat | i < n :: HelperAt(helper, slots, i)
  }

  lemma {:induction false} RawKept(buf: seq<Byte>, at: nat, slots: seq<Slot>, i: nat, o: nat, b: seq<Byte>)
    requires i < |slots| && |slots[i].head| == 8 && RawAt(buf, at, slots, i) && o + |b| <= |buf|
    requires at + 2 + 12 * i + 12 <= o || o + |b| <= at + 2 + 12 * i
    ensures RawAt(Put(buf, o, b), at, slots, i)
  {
  }

  /** Writing the next entry leaves the earlier ones. */
  lemma {:induction false} RawNext(buf: seq<Byte>, at: nat, slots: seq<Slot>, n: nat)
    requires n < |slots| && Fits(|buf|, at, slots) && RawFirst(buf, at, slots, n)
    ensures RawFirst(Put(buf, at + 2 + 12 * n, Entry(slots[n], DataStart(slots, n))), at, slots, n + 1)
  {
    var o, e := at + 2 + 12 * n, Entry(slots[n], DataStart(slots, n));
    var after := Put(buf, o, e);
    forall i: nat | i < n + 1
      ensures RawAt(after, at, slots, i)
    {
      if i < n {
        RawKept(buf, at, slots, i, o, e);
      } else {
        PutHere(buf, o, e);
      }
    }
  }

  lemma {:induction false} HelperKept(helper: seq<Byte>, slots: seq<Slot>, i: nat, n: nat)
    requires i < n < |slots| && HelperAt(helper, slots, i) && !slots[n].Inline()
    requires DataStart(slots, n) + |slots[n].value| <= |helper|
    ensures HelperAt(Put(helper, DataStart(slots, n), slots[n].value), slots, i)
  {
    if !slots[i].Inline() {
      ValuesDisjoint(0, slots, i, n);
      PutElse(helper, DataStart(slots, n), slots[n].value, DataStart(slots, i), slots[i].value);
    }
  }

  /** Writing the next out-of-line value leaves the earlier ones. */
  lemma {:induction false} HelperNext(helper: seq<Byte>, slots: seq<Slot>, n: nat)
    requires n < |slots| && HelperFirst(helper, slots, n) && !slots[n].Inline()
    requires DataStart(slots, n) + |slots[n].value| <= |helper|
    ensures HelperFirst(Put(helper, DataStart(slots, n), slots[n].value), slots, n + 1)
  {
    var o, e := DataStart(slots, n), slots[n].value;
    var after := Put(helper, o, e);
    forall i: nat | i < n + 1
      ensures HelperAt(after, slots, i)
    {
      if i < n {
        HelperKept(helper, slots, i, n);
      } else {
        PutHere(helper, o, e);
      }
    }
  }

  /** The values written take up the part of the helper buffer up to its offset. */
  lemma {:induction false} HelperTaken(helper: seq<Byte>, slots: seq<Slot>, n: nat)
    requires n <= |slots| && HelperFirst(helper, slots, n) && DataArea(slots, n) <= |helper|
    ensures HelperFirst(helper[..DataArea(slots, n)], slots, n)
  {
    forall i: nat | i < n
      ensures HelperAt(helper[..DataArea(slots, n)], slots, i)
    {
      assert HelperAt(helper, slots, i);
      DataAreaMonotone(slots, i + 1, n);
    }
  }

  /** One more tag is in both buffers. */
  lemma {:induction false} AfterTag(buf: seq<Byte>, helper: seq<Byte>, at: nat, slots: seq<Slot>, n: nat)
    requires n < |slots| && Fits(|buf|, at, slots) && RawFirst(buf, at, slots, n) && HelperFirst(helper, slots, n)
    requires HelperFits(slots) && |helper| == MAX_APP1
    ensures slots[n].Inline() || DataStart(slots, n) + |slots[n].value| < MAX_APP1
    ensures RawFirst(Put(buf, at + 2 + 12 * n, Entry(slots[n], DataStart(slots, n))), at, slots, n + 1)
    ensures HelperFirst(HelperAfter(helper, DataArea(slots, n), slots[n]), slots, n + 1)
    ensures OffsetAfter(DataArea(slots, n), slots[n]) == DataArea(slots, n + 1)
    ensures Same(buf, Put(buf, at + 2 + 12 * n, Entry(slots[n], DataStart(slots, n))), 0, at)
  {
    ValueBounds(at, slots, n);
    RawNext(buf, at, slots, n);
    if !slots[n].Inline() { HelperNext(helper, slots, n); }
  }

  /** An out-of-line value of bytes, unless the helper offset can step past the end, has room in the helper buffer. */
  lemma {:induction false} HelperReach(slots: seq<Slot>, n: nat, offset: nat)
    requires n < |slots| && offset <= DataArea(slots, n)
    ensures OffsetAfter(offset, slots[n]) <= DataArea(slots, n + 1) && Even(offset) <= Even(DataArea(slots, n))
    ensures HelperFits(slots) && !slots[n].Inline() ==> Even(offset) + |slots[n].value| < MAX_APP1
  {
    DataAreaMonotone(slots, n + 1, |slots|);
  }

  /** The head of a slot tells the size of its value. */
  predicate Honest(s: Slot) {
    |s.head| == 8 && U16(s.head, 2) < 11 && TypeSize(U16(s.head, 2)) * U32(s.head, 4) == |s.value|
  }

  predicate HonestAt(slots: seq<Slot>, i: nat)
    requires i < |slots|
  {
    Honest(slots[i])
  }

  predicate AllHonest(slots: seq<Slot>) { forall i: nat | i < |slots| :: HonestAt(slots, i) }

  /** What is read back from an entry is in the slot's head. */
  lemma {:induction false} HeadRead(buf: seq<Byte>, o: nat, s: Slot, x: nat)
    requires |s.head| == 8 && BytesAt(buf, o, Entry(s, x))
    ensures o + 12 <= |buf| && U16(buf, o + 2) == U16(s.head, 2) && U32(buf, o + 4) == U32(s.head, 4)
  {
    var e := Entry(s, x);
    assert e[2] == s.head[2] && e[3] == s.head[3];
    assert e[4] == s.head[4] && e[5] == s.head[5] && e[6] == s.head[6] && e[7] == s.head[7];
    assert buf[o + 2] == e[2] && buf[o + 3] == e[3];
    assert buf[o + 4] == e[4] && buf[o + 5] == e[5] && buf[o + 6] == e[6] && buf[o + 7] == e[7];
  }

  /** A value of this type and count is out of line; its size is computed in 32 bits. */
  predicate Far(code: nat, count: nat) { code < 11 && count * TypeSize(code) % 0x1_0000_0000 > 4 }

  lemma {:induction false} FarIff(code: nat, count: nat, size: nat)
    requires code < 11 && TypeSize(code) * count == size < 0x1_0000_0000
    ensures Far(code, count) <==> size > 4
  {
  }

  predicate FarAt(buf: seq<Byte>, o: nat)
    requires o + 12 <= |buf|
  {
    Far(U16(buf, o + 2), U32(buf, o + 4))
  }

  lemma {:induction false} FarIs(buf: seq<Byte>, o: nat, s: Slot, x: nat)
    requires Honest(s) && BytesAt(buf, o, Entry(s, x)) && |s.value| < 0x1_0000_0000
    ensures o + 12 <= |buf| && FarAt(buf, o) == !s.Inline()
  {
    HeadRead(buf, o, s, x);
    FarIff(U16(s.head, 2), U32(s.head, 4), |s.value|);
  }

  /** What is read back from the data field of an out-of-line entry is its offset. */
  lemma {:induction false} FieldRead(buf: seq<Byte>, o: nat, s: Slot, x: nat)
    requires |s.head| == 8 && BytesAt(buf, o, Entry(s, x)) && !s.Inline() && x < 0x1_0000_0000
    ensures o + 12 <= |buf| && U32(buf, o + 8) == x
  {
    Read32(x);
    var e, b := Entry(s, x), Bytes32(x);
    assert e[8] == b[0] && e[9] == b[1] && e[10] == b[2] && e[11] == b[3];
    assert buf[o + 8] == e[8] && buf[o + 9] == e[9] && buf[o + 10] == e[10] && buf[o + 11] == e[11];
  }

  lemma {:induction false} SlotHonest(t: Tag)
    requires t.Ok()
    ensures Honest(SlotOf(t))
  {
    var h := Head(t);
    HeadFields(h, 0, t);
    DataLenIsTypeSize(t);
  }

  /** The tags are those of the directory from the `n`-th on. */
  predicate Lists(slots: seq<Slot>, n: nat, tags: seq<Tag>) {
    n + |tags| <= |slots| && forall i: nat | i < |tags| :: ListsAt(slots, n, tags, i)
  }

  predicate ListsAt(slots: seq<Slot>, n: nat, tags: seq<Tag>, i: nat)
    requires i < |tags| && n + i < |slots|
  {
    Writable(tags[i]) && slots[n + i] == SlotOf(tags[i])
  }

  /** A tag that points to a directory. */
  function PointerTag(id: nat, v: nat): (t: Tag)
    requires id < 0x1_0000_0000 && v < 0x1_0000_0000
    ensures Writable(t)
  {
    Tag(id, KLong, [v])
  }

  // ---------------------------------------------------------------- relocation

  /** The first `n` offsets are relocated, the others not yet. */
  predicate Relocated(buf: seq<Byte>, at: nat, slots: seq<Slot>, n: nat)
    requires n <= |slots| && TIFF_BASE <= at
  {
    && (forall i: nat | i < n :: EntryAt(buf, at, slots, i))
    && (forall i: nat | n <= i < |slots| :: RawAt(buf, at, slots, i))
  }

  lemma {:induction false} TailPut(buf: seq<Byte>, o: nat, head: seq<Byte>, b: seq<Byte>, c: seq<Byte>)
    requires |head| == 8 && |b| == 4 && |c| == 4 && BytesAt(buf, o, head + b)
    ensures BytesAt(Put(buf, o + 8, c), o, head + c)
  {
    assert forall i | 0 <= i < 8 :: (head + b)[i] == head[i];
  }

  lemma {:induction false} MoveOffset(buf: seq<Byte>, o: nat, s: Slot, x: nat, y: nat)
    requires |s.head| == 8 && !s.Inline() && BytesAt(buf, o, Entry(s, x)) && y < 0x1_0000_0000
    ensures BytesAt(Put(buf, o + 8, Bytes32(y)), o, Entry(s, y))
  {
    TailPut(buf, o, s.head, DataField(s, x), DataField(s, y));
  }

  lemma {:induction false} ReplaceValue(buf: seq<Byte>, o: nat, s: Slot, x: nat, c: seq<Byte>)
    requires |s.head| == 8 && |s.value| == 4 && |c| == 4 && BytesAt(buf, o, Entry(s, x))
    ensures BytesAt(Put(buf, o + 8, c), o, Entry(Slot(s.head, c), x))
  {
    FourBytes(s, x);
    FourBytes(Slot(s.head, c), x);
    TailPut(buf, o, s.head, s.value, c);
  }

  lemma {:induction false} FourBytes(s: Slot, x: nat)
    requires |s.value| == 4
    ensures Entry(s, x) == s.head + s.value
  {
  }

  /** One offset relocated: the entry now refers to the place of the value in the block. */
  lemma {:induction false} RelocateOne(buf: seq<Byte>, at: nat, slots: seq<Slot>, n: nat)
    requires n < |slots| && Fits(|buf|, at, slots) && RawAt(buf, at, slots, n) && !slots[n].Inline()
    ensures at + 2 + 12 * n + 12 <= |buf| && ValueAt(at, slots, n) < 0x1_0000_0000
    ensures EntryAt(Put(buf, at + 2 + 12 * n + 8, Bytes32(ValueAt(at, slots, n) - TIFF_BASE)), at, slots, n)
  {
    ValueBounds(at, slots, n);
    MoveOffset(buf, at + 2 + 12 * n, slots[n], DataStart(slots, n), ValueAt(at, slots, n) - TIFF_BASE);
  }

  lemma {:induction false} EntryKept(buf: seq<Byte>, at: nat, slots: seq<Slot>, i: nat, o: nat, b: seq<Byte>)
    requires i < |slots| && TIFF_BASE <= at && |slots[i].head| == 8 && EntryAt(buf, at, slots, i) && o + |b| <= |buf|
    requires at + 2 + 12 * i + 12 <= o || o + |b| <= at + 2 + 12 * i
    ensures EntryAt(Put(buf, o, b), at, slots, i)
  {
  }

  /** An inline entry holds no offset, so it is in place as written. */
  lemma {:induction false} RelocateInline(buf: seq<Byte>, at: nat, slots: seq<Slot>, n: nat)
    requires n < |slots| && TIFF_BASE <= at && Relocated(buf, at, slots, n) && slots[n].Inline()
    ensures Relocated(buf, at, slots, n + 1)
  {
    assert RawAt(buf, at, slots, n);
    assert EntryAt(buf, at, slots, n);
  }

  /** Replacing one data field leaves the other entries. */
  lemma {:induction false} RelocateOthers(buf: seq<Byte>, at: nat, slots: seq<Slot>, n: nat, c: seq<Byte>,
                                          after: seq<Byte>)
    requires n < |slots| && Fits(|buf|, at, slots) && Relocated(buf, at, slots, n) && |c| == 4
    requires at + 2 + 12 * n + 12 <= |buf|
    requires after == Put(buf, at + 2 + 12 * n + 8, c) && EntryAt(after, at, slots, n)
    ensures Relocated(after, at, slots, n + 1)
  {
    var o := at + 2 + 12 * n + 8;
    forall i: nat | i < n
      ensures EntryAt(after, at, slots, i)
    {
      EntryKept(buf, at, slots, i, o, c);
    }
    forall i: nat | n < i < |slots|
      ensures RawAt(after, at, slots, i)
    {
      RawKept(buf, at, slots, i, o, c);
    }
  }

  lemma {:induction false} RelocateNext(buf: seq<Byte>, at: nat, slots: seq<Slot>, n: nat)
    requires n < |slots| && Fits(|buf|, at, slots) && Relocated(buf, at, slots, n) && !slots[n].Inline()
    ensures at + 2 + 12 * n + 12 <= |buf| && ValueAt(at, slots, n) < 0x1_0000_0000
    ensures Relocated(Put(buf, at + 2 + 12 * n + 8, Bytes32(ValueAt(at, slots, n) - TIFF_BASE)), at, slots, n + 1)
  {
    assert RawAt(buf, at, slots, n);
    RelocateOne(buf, at, slots, n);
    var v := Bytes32(ValueAt(at, slots, n) - TIFF_BASE);
    RelocateOthers(buf, at, slots, n, v, Put(buf, at + 2 + 12 * n + 8, v));
  }

  /** A directory with its number of tags and its closing zeros, whose first `n` offsets are relocated. */
  predicate RelocatedIfd(buf: seq<Byte>, at: nat, slots: seq<Slot>, n: nat)
    requires n <= |slots| && Fits(|buf|, at, slots)
  {
    && Relocated(buf, at, slots, n)
    && BytesAt(buf, at, Bytes16(|slots|)) && BytesAt(buf, at + 2 + 12 * |slots|, Zeros(4))
  }

  /** Adding the place of the data area to a helper offset, less the TIFF base, relocates it. */
  lemma {:induction false} RelocationStep(buf: seq<Byte>, at: nat, slots: seq<Slot>, n: nat)
    requires n < |slots| && Fits(|buf|, at, slots) && RelocatedIfd(buf, at, slots, n) && !slots[n].Inline()
    ensures at + 2 + 12 * n + 12 <= |buf| && ValueAt(at, slots, n) < 0x1_0000_0000
    ensures U32(buf, at + 2 + 12 * n + 8) + (at + 2 + 12 * |slots| + 4) == ValueAt(at, slots, n)
    ensures RelocatedIfd(Put(buf, at + 2 + 12 * n + 8, Bytes32(ValueAt(at, slots, n) - TIFF_BASE)), at, slots, n + 1)
  {
    var o := at + 2 + 12 * n + 8;
    assert RawAt(buf, at, slots, n);
    RelocateNext(buf, at, slots, n);
    FieldRead(buf, at + 2 + 12 * n, slots[n], DataStart(slots, n));
    var v := Bytes32(ValueAt(at, slots, n) - TIFF_BASE);
    PutElse(buf, o, v, at, Bytes16(|slots|));
    PutElse(buf, o, v, at + 2 + 12 * |slots|, Zeros(4));
  }

  /** Where the data area of a directory begins. */
  function AreaAt(at: nat, slots: seq<Slot>): nat { at + 2 + 12 * |slots| + 4 }

  /** The data field at `o` with the place of the data area added to its offset. */
  function Adjusted(buf: seq<Byte>, o: nat, area: nat): (r: seq<Byte>)
    requires o + 4 <= |buf| && TIFF_BASE <= area
    ensures |r| == |buf|
  {
    Put(buf, o, Bytes32((U32(buf, o) + area - TIFF_BASE) % 0x1_0000_0000))
  }

  lemma {:induction false} RelocateFar(buf: seq<Byte>, at: nat, slots: seq<Slot>, n: nat)
    requires n < |slots| && Fits(|buf|, at, slots) && RelocatedIfd(buf, at, slots, n) && !slots[n].Inline()
    ensures at + 2 + 12 * n + 12 <= |buf|
    ensures RelocatedIfd(Adjusted(buf, at + 2 + 12 * n + 8, AreaAt(at, slots)), at, slots, n + 1)
  {
    RelocationStep(buf, at, slots, n);
    var v := U32(buf, at + 2 + 12 * n + 8) + AreaAt(at, slots) - TIFF_BASE;
    assert v == ValueAt(at, slots, n) - TIFF_BASE && v % 0x1_0000_0000 == v;
  }

  lemma {:induction false} FarEntry(buf: seq<Byte>, at: nat, slots: seq<Slot>, n: nat)
    requires n < |slots| && Fits(|buf|, at, slots) && RelocatedIfd(buf, at, slots, n) && AllHonest(slots)
    ensures at + 2 + 12 * n + 12 <= |buf| && FarAt(buf, at + 2 + 12 * n) == !slots[n].Inline()
  {
    assert HonestAt(slots, n) && RawAt(buf, at, slots, n);
    ValueBounds(at, slots, n);
    FarIs(buf, at + 2 + 12 * n, slots[n], DataStart(slots, n));
  }

  /** Going by the size of its value, an entry is relocated or left. */
  function AdjustedIfFar(buf: seq<Byte>, o: nat, area: nat): (r: seq<Byte>)
    requires o + 12 <= |buf| && TIFF_BASE <= area
    ensures |r| == |buf|
  {
    if FarAt(buf, o) then Adjusted(buf, o + 8, area) else buf
  }

  lemma {:induction false} RelocateEither(buf: seq<Byte>, at: nat, slots: seq<Slot>, n: nat)
    requires n < |slots| && Fits(|buf|, at, slots) && RelocatedIfd(buf, at, slots, n) && AllHonest(slots)
    ensures at + 2 + 12 * n + 12 <= |buf|
    ensures RelocatedIfd(AdjustedIfFar(buf, at + 2 + 12 * n, AreaAt(at, slots)), at, slots, n + 1)
    ensures Same(buf, AdjustedIfFar(buf, at + 2 + 12 * n, AreaAt(at, slots)), 0, at)
  {
    FarEntry(buf, at, slots, n);
    if slots[n].Inline() {
      RelocateInline(buf, at, slots, n);
    } else {
      RelocateFar(buf, at, slots, n);
    }
  }

  /** The closing zeros and the number of tags leave the entries, which hold helper offsets still. */
  lemma {:induction false} CountWritten(buf: seq<Byte>, at: nat, slots: seq<Slot>)
    requires Fits(|buf|, at, slots) && RawFirst(buf, at, slots, |slots|)
    ensures Bytes32(0) == Zeros(4)
    ensures RelocatedIfd(WithCount(buf, at, |slots|), at, slots, 0)
  {
    Digits32(0);
    var o, half, after := at + 2 + 12 * |slots|, WithZeros(buf, at, |slots|), WithCount(buf, at, |slots|);
    forall i: nat | 0 <= i < |slots|
      ensures RawAt(after, at, slots, i)
    {
      RawKept(buf, at, slots, i, o, Bytes32(0));
      RawKept(half, at, slots, i, at, Bytes16(|slots|));
    }
    PutHere(buf, o, Bytes32(0));
    PutElse(half, at, Bytes16(|slots|), o, Bytes32(0));
    PutHere(half, at, Bytes16(|slots|));
  }

  function WithZeros(buf: seq<Byte>, at: nat, n: nat): (r: seq<Byte>)
    requires at + 2 + 12 * n + 4 <= |buf|
    ensures |r| == |buf|
  {
    Put(buf, at + 2 + 12 * n, Bytes32(0))
  }

  function WithCount(buf: seq<Byte>, at: nat, n: nat): (r: seq<Byte>)
    requires at + 2 + 12 * n + 4 <= |buf| && n < 0x1_0000
    ensures |r| == |buf|
  {
    Put(WithZeros(buf, at, n), at, Bytes16(n))
  }

  // ---------------------------------------------------------------- a closed directory

  /** Copying the helper buffer behind the entries completes the directory. */
  lemma {:induction false} CopyCloses(buf: seq<Byte>, at: nat, slots: seq<Slot>, data: seq<Byte>)
    requires Fits(|buf|, at, slots) && Relocated(buf, at, slots, |slots|)
    requires HelperFirst(data, slots, |slots|) && |data| == DataArea(slots, |slots|)
    requires BytesAt(buf, at, Bytes16(|slots|)) && BytesAt(buf, at + 2 + 12 * |slots|, Zeros(4))
    ensures IfdAt(Put(buf, at + 2 + 12 * |slots| + 4, data), at, slots)
  {
    var o := at + 2 + 12 * |slots| + 4;
    var after := Put(buf, o, data);
    PutElse(buf, o, data, at, Bytes16(|slots|));
    PutElse(buf, o, data, at + 2 + 12 * |slots|, Zeros(4));
    forall i | 0 <= i < |slots|
      ensures EntryAt(after, at, slots, i)
    {
      assert EntryAt(buf, at, slots, i);
      EntryKept(buf, at, slots, i, o, data);
    }
    forall i | 0 <= i < |slots|
      ensures ValueIn(after, at, slots, i)
    {
      assert HelperAt(data, slots, i);
      if !slots[i].Inline() { PutPart(buf, o, data, DataStart(slots, i), slots[i].value); }
    }
  }

  /** A directory depends on its own bytes only. */
  lemma {:induction false} IfdSame(s: seq<Byte>, t: seq<Byte>, at: nat, slots: seq<Slot>)
    requires IfdAt(s, at, slots) && Same(s, t, at, at + IfdSize(slots))
    ensures IfdAt(t, at, slots)
  {
    var hi := at + IfdSize(slots);
    BytesSame(s, t, at, hi, at, Bytes16(|slots|));
    BytesSame(s, t, at, hi, at + 2 + 12 * |slots|, Zeros(4));
    forall i | 0 <= i < |slots|
      ensures EntryAt(t, at, slots, i)
    {
      assert EntryAt(s, at, slots, i);
      BytesSame(s, t, at, hi, at + 2 + 12 * i, Entry(slots[i], ValueAt(at, slots, i) - TIFF_BASE));
    }
    forall i | 0 <= i < |slots|
      ensures ValueIn(t, at, slots, i)
    {
      assert ValueIn(s, at, slots, i);
      ValueSame(s, t, at, slots, i);
    }
  }

  lemma {:induction false} ValueSame(s: seq<Byte>, t: seq<Byte>, at: nat, slots: seq<Slot>, i: nat)
    requires i < |slots| && ValueIn(s, at, slots, i)
    requires Same(s, t, at, at + IfdSize(slots))
    ensures ValueIn(t, at, slots, i)
  {
    if !slots[i].Inline() {
      ValueBounds(at, slots, i);
      BytesSame(s, t, at, at + IfdSize(slots), ValueAt(at, slots, i), slots[i].value);
    }
  }

  /** Bytes placed elsewhere leave a directory as it is. */
  lemma {:induction false} PutIfd(buf: seq<Byte>, o: nat, b: seq<Byte>, at: nat, slots: seq<Slot>)
    requires IfdAt(buf, at, slots) && o + |b| <= |buf| && (o + |b| <= at || at + IfdSize(slots) <= o)
    ensures IfdAt(Put(buf, o, b), at, slots)
  {
    IfdSame(buf, Put(buf, o, b), at, slots);
  }

  // ---------------------------------------------------------------- patching a pointer

  /** The directory with another inline four-byte value for tag `j`. */
  function Patch(slots: seq<Slot>, j: nat, v: nat): (r: seq<Slot>)
    requires j < |slots| && v < 0x1_0000_0000
    ensures |r| == |slots|
  {
    slots[j := slots[j].(value := Bytes32(v))]
  }

  lemma {:induction false} PatchLayout(slots: seq<Slot>, j: nat, v: nat, n: nat)
    requires j < |slots| && |slots[j].value| == 4 && n <= |slots| && v < 0x1_0000_0000
    ensures DataArea(Patch(slots, j, v), n) == DataArea(slots, n)
  {
    DataAreaPrefix(Patch(slots, j, v), slots, n);
  }

  lemma {:induction false} PatchedEntryAt(buf: seq<Byte>, at: nat, slots: seq<Slot>, j: nat, v: nat, i: nat)
    requires SlotsOk(slots) && TIFF_BASE <= at && i < |slots| && j < |slots| && |slots[j].value| == 4
    requires v < 0x1_0000_0000 && EntryAt(buf, at, slots, i) && at + 2 + 12 * |slots| <= |buf|
    ensures EntryAt(Put(buf, at + 2 + 12 * j + 8, Bytes32(v)), at, Patch(slots, j, v), i)
  {
    PatchLayout(slots, j, v, i);
    var x := ValueAt(at, slots, i) - TIFF_BASE;
    if i == j {
      ReplaceValue(buf, at + 2 + 12 * j, slots[j], x, Bytes32(v));
    } else {
      PutElse(buf, at + 2 + 12 * j + 8, Bytes32(v), at + 2 + 12 * i, Entry(slots[i], x));
    }
  }

  lemma {:induction false} PatchedValueIn(buf: seq<Byte>, at: nat, slots: seq<Slot>, j: nat, v: nat, i: nat)
    requires i < |slots| && j < |slots| && |slots[j].value| == 4 && v < 0x1_0000_0000 && ValueIn(buf, at, slots, i)
    requires at + 2 + 12 * |slots| <= |buf|
    ensures ValueIn(Put(buf, at + 2 + 12 * j + 8, Bytes32(v)), at, Patch(slots, j, v), i)
  {
    PatchLayout(slots, j, v, i);
    if i != j && !slots[i].Inline() {
      PutElse(buf, at + 2 + 12 * j + 8, Bytes32(v), ValueAt(at, slots, i), slots[i].value);
    }
  }

  /** Overwriting the value of a pointer tag gives the directory with that pointer. */
  lemma {:induction false} PatchIfd(buf: seq<Byte>, at: nat, slots: seq<Slot>, j: nat, v: nat)
    requires IfdAt(buf, at, slots) && j < |slots| && |slots[j].value| == 4 && v < 0x1_0000_0000
    ensures IfdSize(Patch(slots, j, v)) == IfdSize(slots)
    ensures IfdAt(Put(buf, at + 2 + 12 * j + 8, Bytes32(v)), at, Patch(slots, j, v))
  {
    PatchLayout(slots, j, v, |slots|);
    var o, more := at + 2 + 12 * j + 8, Patch(slots, j, v);
    var after := Put(buf, o, Bytes32(v));
    PutElse(buf, o, Bytes32(v), at, Bytes16(|slots|));
    PutElse(buf, o, Bytes32(v), at + 2 + 12 * |slots|, Zeros(4));
    PatchEntries(buf, at, slots, j, v, after, more);
    PatchValues(buf, at, slots, j, v, after, more);
  }

  lemma {:induction false} PatchEntries(buf: seq<Byte>, at: nat, slots: seq<Slot>, j: nat, v: nat, after: seq<Byte>,
                                        more: seq<Slot>)
    requires IfdAt(buf, at, slots) && j < |slots| && |slots[j].value| == 4 && v < 0x1_0000_0000
    requires after == Put(buf, at + 2 + 12 * j + 8, Bytes32(v)) && more == Patch(slots, j, v)
    ensures forall i | 0 <= i < |slots| :: EntryAt(after, at, more, i)
  {
    forall i | 0 <= i < |slots|
      ensures EntryAt(after, at, more, i)
    {
      assert EntryAt(buf, at, slots, i);
      PatchedEntryAt(buf, at, slots, j, v, i);
    }
  }

  lemma {:induction false} PatchValues(buf: seq<Byte>, at: nat, slots: seq<Slot>, j: nat, v: nat, after: seq<Byte>,
                                       more: seq<Slot>)
    requires IfdAt(buf, at, slots) && j < |slots| && |slots[j].value| == 4 && v < 0x1_0000_0000
    requires after == Put(buf, at + 2 + 12 * j + 8, Bytes32(v)) && more == Patch(slots, j, v)
    ensures forall i | 0 <= i < |slots| :: ValueIn(after, at, more, i)
  {
    forall i | 0 <= i < |slots|
      ensures ValueIn(after, at, more, i)
    {
      assert ValueIn(buf, at, slots, i);
      PatchedValueIn(buf, at, slots, j, v, i);
    }
  }
}
