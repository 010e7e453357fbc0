/**
 The Exif APP1 block: bytes, tags and the layout of an image file directory (section 4.6.2 of Exif 2.2, section 2 of
 TIFF 6.0): a count, twelve bytes per tag, four zero bytes, and a data area for values of more than four bytes.
 */
module ExifFormat {
  import opened Bytes

  const MAX_APP1: nat := 0xFFFF

  const APP1_MARKER: nat := 0xFFE1
  const EXIF_HEADER: nat := 0x45786966
  const TIFF_BIG_ENDIAN: nat := 0x4D4D
  const TIFF_HEADER: nat := 0x002A
  const ZERO_IFD_OFFSET: nat := 8

  /** Where the TIFF header begins, and the first directory after it. */
  const TIFF_BASE: nat := 10
  const FIRST_IFD: nat := 18

  // ---------------------------------------------------------------- numbers

  /** The lowest `n` bytes of a number, the highest of them first. */
  function BigEndian(v: nat, n: nat): (b: seq<Byte>)
    ensures |b| == n
  {
    seq(n, i requires 0 <= i < n => ByteOf(v, n - 1 - i))
  }

  function Bytes16(v: nat): (b: seq<Byte>)
    requires v < 0x1_0000
    ensures |b| == 2
  {
    BigEndian(v, 2)
  }

  function Bytes32(v: nat): (b: seq<Byte>)
    requires v < 0x1_0000_0000
    ensures |b| == 4
  {
    BigEndian(v, 4)
  }

  function U16(b: seq<Byte>, i: nat): (v: nat)
    requires i + 2 <= |b|
    ensures v < 0x1_0000
  {
    b[i] as nat * 0x100 + b[i + 1]
  }

  function U32(b: seq<Byte>, i: nat): (v: nat)
    requires i + 4 <= |b|
    ensures v < 0x1_0000_0000
  {
    b[i] as nat * 0x100_0000 + b[i + 1] as nat * 0x1_0000 + b[i + 2] as nat * 0x100 + b[i + 3]
  }

  lemma {:induction false} Digits16(v: nat)
    requires v < 0x1_0000
    ensures Bytes16(v) == [v / 0x100, v % 0x100]
  {
    var b := Bytes16(v);
    assert b[0] == ByteOf(v, 1) == ByteOf(v / 0x100, 0);
    assert b[1] == ByteOf(v, 0);
  }

  lemma {:induction false} Shifts(v: nat)
    ensures v / 0x100 / 0x100 == v / 0x1_0000 && v / 0x1_0000 / 0x100 == v / 0x100_0000
  {
  }

  lemma {:induction false} Digits32(v: nat)
    requires v < 0x1_0000_0000
    ensures Bytes32(v) == [v / 0x100_0000, v / 0x1_0000 % 0x100, v / 0x100 % 0x100, v % 0x100]
  {
    Shifts(v);
    var a, b, c := v / 0x100, v / 0x1_0000, v / 0x100_0000;
    var s := Bytes32(v);
    assert s[3] == ByteOf(v, 0);
    assert s[2] == ByteOf(v, 1) == ByteOf(a, 0);
    assert s[1] == ByteOf(v, 2) == ByteOf(a, 1) == ByteOf(b, 0);
    assert s[0] == ByteOf(v, 3) == ByteOf(a, 2) == ByteOf(b, 1) == ByteOf(c, 0);
  }

  lemma {:induction false} Read16(v: nat)
    requires v < 0x1_0000
    ensures U16(Bytes16(v), 0) == v
  {
    Digits16(v);
  }

  lemma {:induction false} Recombine(v: nat)
    ensures v / 0x100_0000 * 0x100_0000 + v / 0x1_0000 % 0x100 * 0x1_0000 + v / 0x100 % 0x100 * 0x100 + v % 0x100 == v
  {
    Shifts(v);
    var a, b := v / 0x100, v / 0x1_0000;
    assert v == a * 0x100 + v % 0x100;
    assert a == b * 0x100 + a % 0x100;
    assert b == v / 0x100_0000 * 0x100 + b % 0x100;
  }

  lemma {:induction false} Read32(v: nat)
    requires v < 0x1_0000_0000
    ensures U32(Bytes32(v), 0) == v
  {
    Digits32(v);
    Recombine(v);
  }

  // ---------------------------------------------------------------- tags

  /** A full tag id: the place in the list of all tags, and the 16-bit id. */
  function TagId(place: nat, id: nat): nat { place * 0x1_0000 + id }

  const EXIF_IFD_PTR: nat := TagId(107, 0x8769)
  const GPS_IFD_PTR: nat := TagId(109, 0x8825)
  const INTEROP_IFD_PTR: nat := TagId(172, 0xA005)

  datatype Kind = KByte | KAscii | KShort | KLong | KRational | KUndefined | KSLong | KSRational

  function Code(k: Kind): (c: nat)
    ensures 1 <= c <= 10
  {
    match k
    case KByte => 1
    case KAscii => 2
    case KShort => 3
    case KLong => 4
    case KRational => 5
    case KUndefined => 7
    case KSLong => 9
    case KSRational => 10
  }

  /** Bytes per word of a value. */
  function WordSize(k: Kind): nat {
    if k.KByte? || k.KAscii? || k.KUndefined? then 1 else if k.KShort? then 2 else 4
  }

  /** Bytes of `n` words. */
  function Span(n: nat, k: Kind): nat { if WordSize(k) == 1 then n else if WordSize(k) == 2 then 2 * n else 4 * n }

  /** A counted element of the rationals is two words. */
  predicate Paired(k: Kind) { k.KRational? || k.KSRational? }

  /** Bytes per counted element, by type code: the `tag_type_sizes` table. */
  function TypeSize(code: nat): nat {
    if code == 1 || code == 2 || code == 7 then 1
    else if code == 3 then 2
    else if code == 4 || code == 9 then 4
    else if code == 5 || code == 10 then 8
    else 0
  }

  function Limit(k: Kind): nat {
    if WordSize(k) == 1 then 0x100 else if WordSize(k) == 2 then 0x1_0000 else 0x1_0000_0000
  }

  predicate WordsFit(words: seq<nat>, k: Kind) { forall i | 0 <= i < |words| :: words[i] < Limit(k) }

  /** A tag: its full id, its type and its value as words, signed ones in two's complement. */
  datatype Tag = Tag(id: nat, kind: Kind, words: seq<nat>) {
    function Count(): nat { if Paired(kind) then |words| / 2 else |words| }
    function DataLen(): nat { Span(|words|, kind) }
    predicate Inline() { DataLen() <= 4 }
    predicate Ok() {
      && id < 0x1_0000_0000
      && (Paired(kind) ==> |words| % 2 == 0)
      && WordsFit(words, kind)
      && |words| < 0x1_0000_0000
    }
  }

  lemma {:induction false} DataLenIsTypeSize(t: Tag)
    requires t.Ok()
    ensures t.DataLen() == TypeSize(Code(t.kind)) * t.Count()
  {
  }

  function WordBytes(w: nat, k: Kind): (b: seq<Byte>)
    requires w < Limit(k)
    ensures |b| == WordSize(k)
  {
    if WordSize(k) == 1 then [w] else if WordSize(k) == 2 then Bytes16(w) else Bytes32(w)
  }

  /** The first `n` words of a value in big-endian bytes. */
  function EncodeFirst(words: seq<nat>, k: Kind, n: nat): (b: seq<Byte>)
    requires n <= |words| && WordsFit(words, k)
    ensures |b| == Span(n, k)
  {
    if n == 0 then [] else EncodeFirst(words, k, n - 1) + WordBytes(words[n - 1], k)
  }

  /** The value of a tag in big-endian bytes. */
  function Encode(words: seq<nat>, k: Kind): (b: seq<Byte>)
    requires WordsFit(words, k)
    ensures |b| == Span(|words|, k)
  {
    EncodeFirst(words, k, |words|)
  }

  /** Values of single bytes are encoded as they are. */
  lemma {:induction false} EncodeIsBytes(words: seq<nat>, k: Kind, n: nat)
    requires WordSize(k) == 1 && WordsFit(words, k) && n <= |words|
    ensures forall i | 0 <= i < n :: EncodeFirst(words, k, n)[i] == words[i]
  {
    if n > 0 { EncodeIsBytes(words, k, n - 1); }
  }

  function Zeros(n: nat): (b: seq<Byte>)
    ensures |b| == n
  {
    seq(n, i => 0)
  }

  /** The id, the type and the count of a tag. */
  function Head(t: Tag): (b: seq<Byte>)
    requires t.Ok()
    ensures |b| == 8
  {
    Bytes16(t.id % 0x1_0000) + Bytes16(Code(t.kind)) + Bytes32(t.Count())
  }

  // ---------------------------------------------------------------- layout

  /** A tag as bytes: eight for its id, type and count, and its value. */
  datatype Slot = Slot(head: seq<Byte>, value: seq<Byte>) {
    predicate Inline() { |value| <= 4 }
  }

  function SlotOf(t: Tag): (s: Slot)
    requires t.Ok()
    ensures |s.head| == 8 && |s.value| == t.DataLen()
  {
    Slot(Head(t), Encode(t.words, t.kind))
  }

  /** The four bytes of the data field: the padded value, or where the value is. */
  function DataField(s: Slot, offset: nat): (b: seq<Byte>)
    ensures |b| == 4
  {
    if s.Inline() then s.value + Zeros(4 - |s.value|) else Bytes32(offset % 0x1_0000_0000)
  }

  /** The twelve bytes of a tag in its directory. */
  function Entry(s: Slot, offset: nat): (b: seq<Byte>)
    ensures |b| == |s.head| + 4
  {
    s.head + DataField(s, offset)
  }

  function Even(n: nat): nat { if n % 2 == 1 then n + 1 else n }

  /** Bytes of the data area for the first `n` tags, each out-of-line value on an even offset. */
  function DataArea(slots: seq<Slot>, n: nat): nat
    requires n <= |slots|
  {
    if n == 0 then 0
    else if slots[n - 1].Inline() then DataArea(slots, n - 1)
    else Even(DataArea(slots, n - 1)) + |slots[n - 1].value|
  }

  /** Where the value of tag `i` begins in the data area. */
  function DataStart(slots: seq<Slot>, i: nat): nat
    requires i < |slots|
  {
    Even(DataArea(slots, i))
  }

  function IfdSize(slots: seq<Slot>): nat { 2 + 12 * |slots| + 4 + DataArea(slots, |slots|) }

  /** Where the value of tag `i` begins in the block, for a directory at `at`. */
  function ValueAt(at: nat, slots: seq<Slot>, i: nat): nat
    requires i < |slots|
  {
    at + 2 + 12 * |slots| + 4 + DataStart(slots, i)
  }

  /** The entries and the closing zeros, though not the data area, end within the size of a block. */
  predicate EntriesFit(at: nat, slots: seq<Slot>) { at + 2 + 12 * |slots| + 4 <= MAX_APP1 }

  predicate SlotsOk(slots: seq<Slot>) { |slots| < 0x1_0000 && forall i | 0 <= i < |slots| :: |slots[i].head| == 8 }

  /** The directory at `at`: the number of tags, their entries, the closing zeros and their out-of-line values. */
  predicate IfdAt(buf: seq<Byte>, at: nat, slots: seq<Slot>) {
    && SlotsOk(slots) && TIFF_BASE <= at && at + IfdSize(slots) <= |buf|
    && BytesAt(buf, at, Bytes16(|slots|))
    && (forall i | 0 <= i < |slots| :: EntryAt(buf, at, slots, i))
    && BytesAt(buf, at + 2 + 12 * |slots|, Zeros(4))
    && (forall i | 0 <= i < |slots| :: ValueIn(buf, at, slots, i))
  }

  predicate EntryAt(buf: seq<Byte>, at: nat, slots: seq<Slot>, i: nat)
    requires i < |slots| && TIFF_BASE <= at
  {
    BytesAt(buf, at + 2 + 12 * i, Entry(slots[i], ValueAt(at, slots, i) - TIFF_BASE))
  }

  predicate ValueIn(buf: seq<Byte>, at: nat, slots: seq<Slot>, i: nat)
    requires i < |slots|
  {
    !slots[i].Inline() ==> BytesAt(buf, ValueAt(at, slots, i), slots[i].value)
  }

  lemma {:induction false} DataAreaMonotone(slots: seq<Slot>, i: nat, n: nat)
    requires i <= n <= |slots|
    ensures DataArea(slots, i) <= DataArea(slots, n)
    decreases n
  {
    if i < n { DataAreaMonotone(slots, i, n - 1); }
  }

  /** The data area depends on the sizes of the values only. */
  lemma {:induction false} DataAreaPrefix(slots: seq<Slot>, more: seq<Slot>, n: nat)
    requires n <= |slots| && n <= |more| && (forall i | 0 <= i < n :: |slots[i].value| == |more[i].value|)
    ensures DataArea(slots, n) == DataArea(more, n)
  {
    if n > 0 { DataAreaPrefix(slots, more, n - 1); }
  }

  /** An out-of-line value lies within the data area, after those before it. */
  lemma {:induction false} ValueBounds(at: nat, slots: seq<Slot>, i: nat)
    requires i < |slots|
    ensures !slots[i].Inline() ==> ValueAt(at, slots, i) + |slots[i].value| <= at + IfdSize(slots)
    ensures !slots[i].Inline() ==> DataArea(slots, i + 1) == DataStart(slots, i) + |slots[i].value|
  {
    DataAreaMonotone(slots, i + 1, |slots|);
  }

  /** Values of different tags do not overlap. */
  lemma {:induction false} ValuesDisjoint(at: nat, slots: seq<Slot>, i: nat, j: nat)
    requires i < j < |slots| && !slots[i].Inline() && !slots[j].Inline()
    ensures ValueAt(at, slots, i) + |slots[i].value| <= ValueAt(at, slots, j)
  {
    ValueBounds(at, slots, i);
    DataAreaMonotone(slots, i + 1, j);
  }

  predicate TagsOk(tags: seq<Tag>) { |tags| < 0x1_0000 && forall i | 0 <= i < |tags| :: tags[i].Ok() }

  /** The tags of a directory as bytes. */
  function Slots(tags: seq<Tag>): (slots: seq<Slot>)
    requires TagsOk(tags)
    ensures |slots| == |tags| && SlotsOk(slots) && forall i | 0 <= i < |tags| :: slots[i] == SlotOf(tags[i])
  {
    seq(|tags|, i requires 0 <= i < |tags| => SlotOf(tags[i]))
  }

  // ---------------------------------------------------------------- reading back

  lemma {:induction false} ReadAt16(buf: seq<Byte>, at: nat, v: nat)
    requires v < 0x1_0000 && BytesAt(buf, at, Bytes16(v))
    ensures U16(buf, at) == v
  {
    Read16(v);
    var b := Bytes16(v);
    assert b[0] == buf[at] && b[1] == buf[at + 1];
  }

  lemma {:induction false} ReadAt32(buf: seq<Byte>, at: nat, v: nat)
    requires v < 0x1_0000_0000 && BytesAt(buf, at, Bytes32(v))
    ensures U32(buf, at) == v
  {
    Read32(v);
    var b := Bytes32(v);
    assert b[0] == buf[at] && b[1] == buf[at + 1] && b[2] == buf[at + 2] && b[3] == buf[at + 3];
  }

  /** The three fields of a tag's head. */
  lemma {:induction false} HeadFields(buf: seq<Byte>, at: nat, t: Tag)
    requires t.Ok() && BytesAt(buf, at, Head(t))
    ensures at + 8 <= |buf|
    ensures U16(buf, at) == t.id % 0x1_0000 && U16(buf, at + 2) == Code(t.kind) && U32(buf, at + 4) == t.Count()
  {
    var a, b, c := Bytes16(t.id % 0x1_0000), Bytes16(Code(t.kind)), Bytes32(t.Count());
    SplitBytes(buf, at, a + b, c);
    SplitBytes(buf, at, a, b);
    ReadAt16(buf, at, t.id % 0x1_0000);
    ReadAt16(buf, at + 2, Code(t.kind));
    ReadAt32(buf, at + 4, t.Count());
  }
}
