/**
 The bytes of a block as other readers find them: its header, and for each tag its id, type, count and value in
 big-endian numbers (section 2 of TIFF 6.0).
 */
module ExifLayout {
  import opened Bytes
  import opened ExifFormat
  import opened ExifBlock

  /** The `n` bytes from `at` on as one number, the highest byte first. */
  function Number(buf: seq<Byte>, at: nat, n: nat): nat
    requires at + n <= |buf|
  {
    if n == 0 then 0 else Number(buf, at, n - 1) * 0x100 + buf[at + n - 1]
  }

  lemma {:induction false} NumberIs(buf: seq<Byte>, at: nat, v: nat)
    ensures v < 0x1_0000 && BytesAt(buf, at, Bytes16(v)) ==> Number(buf, at, 2) == v
    ensures v < 0x1_0000_0000 && BytesAt(buf, at, Bytes32(v)) ==> Number(buf, at, 4) == v
  {
    if v < 0x1_0000 && BytesAt(buf, at, Bytes16(v)) {
      ReadAt16(buf, at, v);
      assert Number(buf, at, 1) == buf[at] as nat;
    }
    if v < 0x1_0000_0000 && BytesAt(buf, at, Bytes32(v)) {
      ReadAt32(buf, at, v);
      assert Number(buf, at, 1) == buf[at] as nat;
      assert Number(buf, at, 2) == Number(buf, at, 1) * 0x100 + buf[at + 1] as nat;
      assert Number(buf, at, 3) == Number(buf, at, 2) * 0x100 + buf[at + 2] as nat;
    }
  }

  /** A finished block begins with the APP1 marker, its length without it, and the big-endian TIFF header. */
  lemma {:induction false} HeaderBytes(buf: seq<Byte>, d: Dirs, k: nat)
    requires HasPointers(d, k) && PlacesOf(d).end < 0x1_0000_0000 && BlockWritten(buf, d, k)
    ensures |buf| >= 18 && buf[..2] == [0xFF, 0xE1]
    ensures PlacesOf(d).end - 2 < 0x1_0000 ==> Number(buf, 2, 2) == PlacesOf(d).end - 2
    ensures buf[4..18] == [0x45, 0x78, 0x69, 0x66, 0, 0, 0x4D, 0x4D, 0, 0x2A, 0, 0, 0, 8]
  {
    NumberIs(buf, 2, (PlacesOf(d).end - 2) % 0x1_0000);
    HeaderDigits(buf);
  }

  lemma {:induction false} TwoBytes(buf: seq<Byte>, at: nat, v: nat)
    requires v < 0x1_0000 && BytesAt(buf, at, Bytes16(v))
    ensures buf[at..at + 2] == [v / 0x100, v % 0x100]
  {
    Digits16(v);
    var b := Bytes16(v);
    assert buf[at] == b[0] && buf[at + 1] == b[1];
  }

  lemma {:induction false} FourBytes(buf: seq<Byte>, at: nat, v: nat)
    requires v < 0x1_0000_0000 && BytesAt(buf, at, Bytes32(v))
    ensures buf[at..at + 4] == [v / 0x100_0000, v / 0x1_0000 % 0x100, v / 0x100 % 0x100, v % 0x100]
  {
    Digits32(v);
    var b := Bytes32(v);
    assert buf[at] == b[0] && buf[at + 1] == b[1] && buf[at + 2] == b[2] && buf[at + 3] == b[3];
  }

  lemma {:induction false} HeaderDigits(buf: seq<Byte>)
    requires HeaderAt(buf)
    ensures |buf| >= 18 && buf[..2] == [0xFF, 0xE1]
    ensures buf[4..18] == [0x45, 0x78, 0x69, 0x66, 0, 0, 0x4D, 0x4D, 0, 0x2A, 0, 0, 0, 8]
  {
    TwoBytes(buf, 0, APP1_MARKER);
    FourBytes(buf, 4, EXIF_HEADER);
    TwoBytes(buf, 8, 0);
    TwoBytes(buf, 10, TIFF_BIG_ENDIAN);
    TwoBytes(buf, 12, TIFF_HEADER);
    FourBytes(buf, 14, ZERO_IFD_OFFSET);
    assert buf[4..18] == buf[4..8] + buf[8..10] + buf[10..12] + buf[12..14] + buf[14..18];
  }

  lemma {:induction false} SpanIs(n: nat, k: Kind)
    ensures Span(n, k) == WordSize(k) * n
  {
  }

  lemma {:induction false} WordWithin(j: nat, n: nat, k: Kind)
    requires j < n
    ensures WordSize(k) * j + WordSize(k) <= WordSize(k) * n
  {
  }

  /** Word `j` of a value begins after the `j` words before it. */
  lemma {:induction false} WordAt(words: seq<nat>, k: Kind, n: nat, j: nat)
    requires j < n <= |words| && WordsFit(words, k)
    ensures BytesAt(EncodeFirst(words, k, n), Span(j, k), WordBytes(words[j], k))
  {
    var before, last := EncodeFirst(words, k, n - 1), WordBytes(words[n - 1], k);
    if j < n - 1 {
      WordAt(words, k, n - 1, j);
      StillThere(before, last, Span(j, k), WordBytes(words[j], k));
    } else {
      AtEnd(before, last);
    }
  }

  lemma {:induction false} StillThere(a: seq<Byte>, b: seq<Byte>, o: nat, c: seq<Byte>)
    requires BytesAt(a, o, c)
    ensures BytesAt(a + b, o, c)
  {
  }

  lemma {:induction false} AtEnd(a: seq<Byte>, b: seq<Byte>)
    ensures BytesAt(a + b, |a|, b)
  {
  }

  lemma {:induction false} InnerBytes(buf: seq<Byte>, at: nat, b: seq<Byte>, o: nat, c: seq<Byte>)
    requires BytesAt(buf, at, b) && BytesAt(b, o, c)
    ensures BytesAt(buf, at + o, c)
  {
    forall i | 0 <= i < |c|
      ensures buf[at + o + i] == c[i]
    {
      assert buf[at + (o + i)] == b[o + i];
    }
  }

  lemma {:induction false} ValueNumbers(buf: seq<Byte>, at: nat, t: Tag, j: nat)
    requires t.Ok() && BytesAt(buf, at, Encode(t.words, t.kind)) && j < |t.words|
    ensures WordSize(t.kind) in {1, 2, 4}
    ensures at + WordSize(t.kind) * j + WordSize(t.kind) <= |buf|
    ensures Number(buf, at + WordSize(t.kind) * j, WordSize(t.kind)) == t.words[j]
  {
    var o := at + WordSize(t.kind) * j;
    SpanIs(j, t.kind);
    SpanIs(|t.words|, t.kind);
    WordWithin(j, |t.words|, t.kind);
    WordAt(t.words, t.kind, |t.words|, j);
    InnerBytes(buf, at, Encode(t.words, t.kind), Span(j, t.kind), WordBytes(t.words[j], t.kind));
    NumberIs(buf, o, t.words[j]);
    if WordSize(t.kind) == 1 {
      assert buf[o] == WordBytes(t.words[j], t.kind)[0];
      assert Number(buf, o, 0) == 0;
    }
  }

  /** Where a reader finds the value of the entry at `o`: in its last four bytes, or where they say. */
  function ValuePlace(buf: seq<Byte>, o: nat, size: nat): nat
    requires o + 12 <= |buf|
  {
    if size <= 4 then o + 8 else 10 + Number(buf, o + 8, 4)
  }

  lemma {:induction false} EntryParts(buf: seq<Byte>, o: nat, t: Tag, x: nat)
    requires t.Ok() && BytesAt(buf, o, Entry(SlotOf(t), x))
    ensures BytesAt(buf, o, Bytes16(t.id % 0x1_0000)) && BytesAt(buf, o + 2, Bytes16(Code(t.kind)))
    ensures BytesAt(buf, o + 4, Bytes32(t.Count()))
    ensures BytesAt(buf, o + 8, DataField(SlotOf(t), x))
  {
    var id, code, count := Bytes16(t.id % 0x1_0000), Bytes16(Code(t.kind)), Bytes32(t.Count());
    SplitBytes(buf, o, Head(t), DataField(SlotOf(t), x));
    SplitBytes(buf, o, id + code, count);
    SplitBytes(buf, o, id, code);
  }

  /** The entry at `o` has the id, the type and the count of the tag. */
  predicate HeadSays(buf: seq<Byte>, o: nat, t: Tag) {
    && o + 12 <= |buf|
    && Number(buf, o, 2) == t.id % 0x1_0000 && Number(buf, o + 2, 2) == Code(t.kind)
    && Number(buf, o + 4, 4) == t.Count()
  }

  /** Its value is the words of the tag, one after the other. */
  predicate ValueSays(buf: seq<Byte>, o: nat, t: Tag) {
    && o + 12 <= |buf|
    && var w, size := ValuePlace(buf, o, t.DataLen()), WordSize(t.kind);
       && w + size * |t.words| <= |buf|
       && forall j: nat | j < |t.words| :: WordSays(buf, w, size, t.words, j)
  }

  predicate WordSays(buf: seq<Byte>, at: nat, size: nat, words: seq<nat>, j: nat)
    requires j < |words|
  {
    at + size * j + size <= |buf| && Number(buf, at + size * j, size) == words[j]
  }

  lemma {:induction false} HeadThere(buf: seq<Byte>, o: nat, t: Tag, x: nat)
    requires t.Ok() && BytesAt(buf, o, Entry(SlotOf(t), x))
    ensures HeadSays(buf, o, t)
  {
    EntryParts(buf, o, t, x);
    NumberIs(buf, o, t.id % 0x1_0000);
    NumberIs(buf, o + 2, Code(t.kind));
    NumberIs(buf, o + 4, t.Count());
  }

  lemma {:induction false} WordsThere(buf: seq<Byte>, o: nat, t: Tag)
    requires t.Ok() && o + 12 <= |buf|
    requires BytesAt(buf, ValuePlace(buf, o, t.DataLen()), Encode(t.words, t.kind))
    ensures ValueSays(buf, o, t)
  {
    var w, n := ValuePlace(buf, o, t.DataLen()), |t.words|;
    forall j: nat | j < n
      ensures WordSays(buf, w, WordSize(t.kind), t.words, j)
    {
      ValueNumbers(buf, w, t, j);
    }
    SpanIs(n, t.kind);
  }

  /** A directory as other readers find it: the number of tags, and each tag with its id, type, count and words. */
  lemma {:induction false} EntryBytes(buf: seq<Byte>, at: nat, slots: seq<Slot>, i: nat, t: Tag)
    requires IfdAt(buf, at, slots) && |buf| < 0x1_0000_0000
    requires i < |slots| && t.Ok() && slots[i] == SlotOf(t)
    ensures |buf| >= at + 2 && Number(buf, at, 2) == |slots|
    ensures HeadSays(buf, at + 2 + 12 * i, t) && ValueSays(buf, at + 2 + 12 * i, t)
  {
    var o, x := at + 2 + 12 * i, ValueAt(at, slots, i) - TIFF_BASE;
    assert EntryAt(buf, at, slots, i) && ValueIn(buf, at, slots, i);
    NumberIs(buf, at, |slots|);
    HeadThere(buf, o, t, x);
    EntryParts(buf, o, t, x);
    ValueThere(buf, o, t, x);
    WordsThere(buf, o, t);
  }

  lemma {:induction false} ValueThere(buf: seq<Byte>, o: nat, t: Tag, x: nat)
    requires t.Ok() && BytesAt(buf, o + 8, DataField(SlotOf(t), x)) && |buf| < 0x1_0000_0000
    requires !t.Inline() ==> BytesAt(buf, TIFF_BASE + x, Encode(t.words, t.kind))
    ensures BytesAt(buf, ValuePlace(buf, o, t.DataLen()), Encode(t.words, t.kind))
  {
    if t.Inline() {
      SplitBytes(buf, o + 8, Encode(t.words, t.kind), Zeros(4 - t.DataLen()));
    } else {
      NumberIs(buf, o + 8, x);
    }
  }

  /** The zeroth, the Exif and the GPS directory begin on even places, and in those each out-of-line value does. */
  lemma {:induction false} EvenPlaces(d: Dirs, at: nat, slots: seq<Slot>, i: nat)
    ensures FIRST_IFD % 2 == 0 && PlacesOf(d).exif % 2 == 0 && PlacesOf(d).gps % 2 == 0
    ensures at % 2 == 0 && i < |slots| ==> ValueAt(at, slots, i) % 2 == 0
  {
  }
}
