/**
 The whole APP1 block: a header, then the zeroth, the Exif, the interoperability and the GPS directory, the first two
 of which point to the others.
 */
module ExifBlock {
  import opened Bytes
  import opened ExifFormat
  import opened ExifWriter

  /** The four directories, and where the last three begin and the block ends. */
  datatype Dirs = Dirs(zeroth: seq<Slot>, exif: seq<Slot>, interop: seq<Slot>, gps: seq<Slot>)

  datatype Places = Places(exif: nat, interop: nat, gps: nat, end: nat)

  /** The zeroth and the interoperability directory are padded to an even length. */
  function PlacesOf(d: Dirs): Places {
    var exif := Even(FIRST_IFD + IfdSize(d.zeroth));
    var interop := exif + IfdSize(d.exif);
    var gps := Even(interop + IfdSize(d.interop));
    Places(exif, interop, gps, gps + IfdSize(d.gps))
  }

  /** The directories come one after the other. */
  predicate Apart(d: Dirs, p: Places) {
    && FIRST_IFD + IfdSize(d.zeroth) <= p.exif && p.exif + IfdSize(d.exif) <= p.interop
    && p.interop + IfdSize(d.interop) <= p.gps && p.gps + IfdSize(d.gps) <= p.end
  }

  predicate ExifIdAt(buf: seq<Byte>) {
    BytesAt(buf, 0, Bytes16(APP1_MARKER)) && BytesAt(buf, 4, Bytes32(EXIF_HEADER)) && BytesAt(buf, 8, Bytes16(0))
  }

  predicate HeaderAt(buf: seq<Byte>) {
    && ExifIdAt(buf) && BytesAt(buf, 10, Bytes16(TIFF_BIG_ENDIAN)) && BytesAt(buf, 12, Bytes16(TIFF_HEADER))
    && BytesAt(buf, 14, Bytes32(ZERO_IFD_OFFSET))
  }

  predicate DirsAt(buf: seq<Byte>, d: Dirs, p: Places) {
    && IfdAt(buf, FIRST_IFD, d.zeroth) && IfdAt(buf, p.exif, d.exif)
    && IfdAt(buf, p.interop, d.interop) && IfdAt(buf, p.gps, d.gps)
  }

  predicate BlockAt(buf: seq<Byte>, d: Dirs, p: Places) { HeaderAt(buf) && DirsAt(buf, d, p) && Apart(d, p) }

  // ---------------------------------------------------------------- no overlaps

  /** Directory `k` of the block, in the order written, and its place. */
  function Dir(d: Dirs, k: nat): seq<Slot> {
    if k == 0 then d.zeroth else if k == 1 then d.exif else if k == 2 then d.interop else d.gps
  }

  function DirPlace(p: Places, k: nat): nat {
    if k == 0 then FIRST_IFD else if k == 1 then p.exif else if k == 2 then p.interop else p.gps
  }

  predicate OutOfLine(d: Dirs, k: nat, i: nat) { i < |Dir(d, k)| && !Dir(d, k)[i].Inline() }

  /** The bytes of the value of tag `i` of directory `k`. */
  function ValueStart(d: Dirs, p: Places, k: nat, i: nat): nat
    requires OutOfLine(d, k, i)
  {
    ValueAt(DirPlace(p, k), Dir(d, k), i)
  }

  function ValueEnd(d: Dirs, p: Places, k: nat, i: nat): nat
    requires OutOfLine(d, k, i)
  {
    ValueStart(d, p, k, i) + |Dir(d, k)[i].value|
  }

  /** A directory's count, entries and closing zeros end here. */
  function EntriesEnd(d: Dirs, p: Places, k: nat): nat { DirPlace(p, k) + 2 + 12 * |Dir(d, k)| + 4 }

  lemma {:induction false} DirsApart(d: Dirs, p: Places, k: nat, m: nat)
    requires Apart(d, p) && k < m < 4
    ensures DirPlace(p, k) + IfdSize(Dir(d, k)) <= DirPlace(p, m)
  {
  }

  /** Data areas are pairwise disjoint, within a directory and across directories. */
  lemma {:induction false} ValuesApart(d: Dirs, p: Places, k: nat, i: nat, m: nat, j: nat)
    requires Apart(d, p) && k < 4 && m < 4 && OutOfLine(d, k, i) && OutOfLine(d, m, j) && (k, i) != (m, j)
    ensures ValueEnd(d, p, k, i) <= ValueStart(d, p, m, j) || ValueEnd(d, p, m, j) <= ValueStart(d, p, k, i)
  {
    if k == m {
      if i < j {
        ValuesDisjoint(DirPlace(p, k), Dir(d, k), i, j);
      } else {
        ValuesDisjoint(DirPlace(p, k), Dir(d, k), j, i);
      }
    } else {
      ValueBounds(DirPlace(p, k), Dir(d, k), i);
      ValueBounds(DirPlace(p, m), Dir(d, m), j);
      if k < m { DirsApart(d, p, k, m); } else { DirsApart(d, p, m, k); }
    }
  }

  /** No data area overlaps the entries of any directory. */
  lemma {:induction false} ValuesOffEntries(d: Dirs, p: Places, k: nat, i: nat, m: nat)
    requires Apart(d, p) && k < 4 && m < 4 && OutOfLine(d, k, i)
    ensures ValueEnd(d, p, k, i) <= DirPlace(p, m) || EntriesEnd(d, p, m) <= ValueStart(d, p, k, i)
  {
    ValueBounds(DirPlace(p, k), Dir(d, k), i);
    if k < m { DirsApart(d, p, k, m); } else if m < k { DirsApart(d, p, m, k); }
  }

  // ---------------------------------------------------------------- pointers

  lemma {:induction false} HeaderKept(buf: seq<Byte>, o: nat, b: seq<Byte>)
    requires HeaderAt(buf) && o + |b| <= |buf| && (FIRST_IFD <= o || (o == 2 && |b| == 2))
    ensures HeaderAt(Put(buf, o, b))
  {
  }

  /** Setting a pointer in the zeroth directory leaves the others. */
  lemma {:induction false} SetZeroth(buf: seq<Byte>, d: Dirs, p: Places, j: nat, v: nat)
    requires BlockAt(buf, d, p) && j < |d.zeroth| && |d.zeroth[j].value| == 4 && v < 0x1_0000_0000
    ensures FIRST_IFD + 2 + 12 * j + 12 <= |buf|
    ensures BlockAt(Put(buf, FIRST_IFD + 2 + 12 * j + 8, Bytes32(v)), d.(zeroth := Patch(d.zeroth, j, v)), p)
  {
    var o, b := FIRST_IFD + 2 + 12 * j + 8, Bytes32(v);
    PatchIfd(buf, FIRST_IFD, d.zeroth, j, v);
    HeaderKept(buf, o, b);
    PutIfd(buf, o, b, p.exif, d.exif);
    PutIfd(buf, o, b, p.interop, d.interop);
    PutIfd(buf, o, b, p.gps, d.gps);
  }

  lemma {:induction false} OthersKept(buf: seq<Byte>, d: Dirs, p: Places, o: nat, b: seq<Byte>)
    requires HeaderAt(buf) && DirsAt(buf, d, p) && Apart(d, p)
    requires FIRST_IFD + IfdSize(d.zeroth) <= o && o + |b| <= p.interop
    ensures o + |b| <= |buf| && HeaderAt(Put(buf, o, b)) && IfdAt(Put(buf, o, b), FIRST_IFD, d.zeroth)
    ensures IfdAt(Put(buf, o, b), p.interop, d.interop) && IfdAt(Put(buf, o, b), p.gps, d.gps)
  {
    HeaderKept(buf, o, b);
    PutIfd(buf, o, b, FIRST_IFD, d.zeroth);
    PutIfd(buf, o, b, p.interop, d.interop);
    PutIfd(buf, o, b, p.gps, d.gps);
  }

  /** Setting a pointer in the Exif directory leaves the others. */
  lemma {:induction false} SetExif(buf: seq<Byte>, d: Dirs, p: Places, j: nat, v: nat, o: nat)
    requires BlockAt(buf, d, p) && j < |d.exif| && |d.exif[j].value| == 4 && v < 0x1_0000_0000
    requires o == p.exif + 2 + 12 * j + 8
    ensures o + 4 <= |buf| && BlockAt(Put(buf, o, Bytes32(v)), d.(exif := Patch(d.exif, j, v)), p)
  {
    PatchIfd(buf, p.exif, d.exif, j, v);
    OthersKept(buf, d, p, o, Bytes32(v));
  }

  /** Setting the length field leaves the directories. */
  lemma {:induction false} SetLength(buf: seq<Byte>, d: Dirs, p: Places, len: nat)
    requires BlockAt(buf, d, p) && len < 0x1_0000
    ensures BlockAt(Put(buf, 2, Bytes16(len)), d, p) && BytesAt(Put(buf, 2, Bytes16(len)), 2, Bytes16(len))
  {
    HeaderKept(buf, 2, Bytes16(len));
    PutIfd(buf, 2, Bytes16(len), FIRST_IFD, d.zeroth);
    PutIfd(buf, 2, Bytes16(len), p.exif, d.exif);
    PutIfd(buf, 2, Bytes16(len), p.interop, d.interop);
    PutIfd(buf, 2, Bytes16(len), p.gps, d.gps);
    PutHere(buf, 2, Bytes16(len));
  }

  /** The places of the three pointers: the last two tags of the zeroth directory, and tag `k` of the Exif directory. */
  predicate HasPointers(d: Dirs, k: nat) {
    && |d.zeroth| >= 2 && |d.zeroth[|d.zeroth| - 2].value| == 4 && |d.zeroth[|d.zeroth| - 1].value| == 4
    && k < |d.exif| && |d.exif[k].value| == 4
  }

  predicate InOrder(p: Places) { FIRST_IFD <= p.exif <= p.interop <= p.gps <= p.end < 0x1_0000_0000 }

  /** The directories with the pointers to the Exif and the interoperability directory set. */
  function HalfLinked(d: Dirs, k: nat, p: Places): Dirs
    requires HasPointers(d, k) && InOrder(p)
  {
    d.(exif := Patch(d.exif, k, p.interop - TIFF_BASE), zeroth := Patch(d.zeroth, |d.zeroth| - 2, p.exif - TIFF_BASE))
  }

  /** The directories with their pointers set. */
  function Linked(d: Dirs, k: nat, p: Places): Dirs
    requires HasPointers(d, k) && InOrder(p)
  {
    var half := HalfLinked(d, k, p);
    half.(zeroth := Patch(half.zeroth, |half.zeroth| - 1, p.gps - TIFF_BASE))
  }

  // ---------------------------------------------------------------- a growing block

  /** Later directories leave the earlier ones. */
  lemma {:induction false} IfdStays(s: seq<Byte>, t: seq<Byte>, m: nat, at: nat, slots: seq<Slot>)
    requires Same(s, t, 0, m) && IfdAt(s, at, slots) && at + IfdSize(slots) <= m
    ensures IfdAt(t, at, slots)
  {
    IfdSame(s, t, at, slots);
  }

  lemma {:induction false} HeaderStays(s: seq<Byte>, t: seq<Byte>, m: nat)
    requires Same(s, t, 0, m) && HeaderAt(s) && FIRST_IFD <= m
    ensures HeaderAt(t)
  {
  }

  // ---------------------------------------------------------------- the tags of a block

  /** The tags to write; the pointer tags are added at the end of the zeroth and in the middle of the Exif directory. */
  datatype Contents = Contents(zeroth: seq<Tag>, exif: seq<Tag>, exifTail: seq<Tag>, interop: seq<Tag>, gps: seq<Tag>)

  predicate ContentsOk(c: Contents) {
    && |c.zeroth| + 2 < 0x1_0000 && |c.exif| + 1 + |c.exifTail| < 0x1_0000
    && TagsWritable(c.zeroth) && TagsWritable(c.exif) && TagsWritable(c.exifTail)
    && TagsWritable(c.interop) && TagsWritable(c.gps)
  }

  function PointerSlot(id: nat, v: nat): Slot
    requires id < 0x1_0000_0000 && v < 0x1_0000_0000
  {
    SlotOf(PointerTag(id, v))
  }

  /** The directories as first written, their pointers being zero. */
  function DirsOf(c: Contents): Dirs
    requires ContentsOk(c)
  {
    Dirs(Slots(c.zeroth) + [PointerSlot(EXIF_IFD_PTR, 0), PointerSlot(GPS_IFD_PTR, 0)],
         Slots(c.exif) + [PointerSlot(INTEROP_IFD_PTR, 0)] + Slots(c.exifTail), Slots(c.interop), Slots(c.gps))
  }

  /** A zeroth directory: its tags, and the pointers to the Exif and the GPS directory still zero. */
  predicate ZerothListed(slots: seq<Slot>, tags: seq<Tag>) {
    && Lists(slots, 0, tags) && |slots| == |tags| + 2
    && slots[|tags|] == PointerSlot(EXIF_IFD_PTR, 0) && slots[|tags| + 1] == PointerSlot(GPS_IFD_PTR, 0)
  }

  /** An Exif directory: its tags, with the pointer to the interoperability directory, still zero, among them. */
  predicate ExifListed(slots: seq<Slot>, tags: seq<Tag>, tail: seq<Tag>) {
    && Lists(slots, 0, tags) && Lists(slots, |tags| + 1, tail) && |slots| == |tags| + 1 + |tail|
    && slots[|tags|] == PointerSlot(INTEROP_IFD_PTR, 0)
  }

  /** The directories list the tags. */
  predicate Listed(d: Dirs, c: Contents) {
    && ZerothListed(d.zeroth, c.zeroth) && ExifListed(d.exif, c.exif, c.exifTail)
    && Lists(d.interop, 0, c.interop) && |d.interop| == |c.interop| && Lists(d.gps, 0, c.gps) && |d.gps| == |c.gps|
  }

  predicate Sound(slots: seq<Slot>) { SlotsOk(slots) && AllHonest(slots) }

  lemma {:induction false} DirsListed(c: Contents)
    requires ContentsOk(c)
    ensures Listed(DirsOf(c), c)
  {
  }

  lemma {:induction false} SlotsSound(tags: seq<Tag>)
    requires TagsOk(tags)
    ensures Sound(Slots(tags))
  {
    var slots := Slots(tags);
    forall i: nat | i < |slots|
      ensures HonestAt(slots, i)
    {
      SlotHonest(tags[i]);
    }
  }

  lemma {:induction false} ConcatSound(a: seq<Slot>, b: seq<Slot>)
    requires Sound(a) && Sound(b) && |a| + |b| < 0x1_0000
    ensures Sound(a + b)
  {
    forall i: nat | i < |a + b|
      ensures HonestAt(a + b, i)
    {
      if i < |a| { assert HonestAt(a, i); } else { assert HonestAt(b, i - |a|); }
    }
  }

  lemma {:induction false} PointersSound()
    ensures Sound([PointerSlot(EXIF_IFD_PTR, 0), PointerSlot(GPS_IFD_PTR, 0)])
    ensures Sound([PointerSlot(INTEROP_IFD_PTR, 0)])
  {
    SlotHonest(PointerTag(EXIF_IFD_PTR, 0));
    SlotHonest(PointerTag(GPS_IFD_PTR, 0));
    SlotHonest(PointerTag(INTEROP_IFD_PTR, 0));
  }

  lemma {:induction false} DirsSound(c: Contents)
    requires ContentsOk(c)
    ensures Sound(DirsOf(c).zeroth) && Sound(DirsOf(c).exif) && Sound(DirsOf(c).interop) && Sound(DirsOf(c).gps)
  {
    PointersSound();
    SlotsSound(c.zeroth);
    ConcatSound(Slots(c.zeroth), [PointerSlot(EXIF_IFD_PTR, 0), PointerSlot(GPS_IFD_PTR, 0)]);
    SlotsSound(c.exif);
    ConcatSound(Slots(c.exif), [PointerSlot(INTEROP_IFD_PTR, 0)]);
    SlotsSound(c.exifTail);
    ConcatSound(Slots(c.exif) + [PointerSlot(INTEROP_IFD_PTR, 0)], Slots(c.exifTail));
    SlotsSound(c.interop);
    SlotsSound(c.gps);
  }

  /** Directories that list the tags, that the writer can relocate, and that have their pointers. */
  predicate DirsFine(d: Dirs, c: Contents) {
    Listed(d, c) && Sound(d.zeroth) && Sound(d.exif) && Sound(d.interop) && Sound(d.gps) && HasPointers(d, |c.exif|)
  }

  lemma {:induction false} DirsAreFine(c: Contents)
    requires ContentsOk(c)
    ensures DirsFine(DirsOf(c), c)
  {
    DirsListed(c);
    DirsSound(c);
  }

  /** The last two directories complete the block. */
  lemma {:induction false} BlockGrown(s: seq<Byte>, t: seq<Byte>, d: Dirs, p: Places)
    requires HeaderAt(s) && IfdAt(s, FIRST_IFD, d.zeroth) && IfdAt(s, p.exif, d.exif) && Same(s, t, 0, p.interop)
    requires p == PlacesOf(d) && IfdAt(t, p.interop, d.interop) && IfdAt(t, p.gps, d.gps)
    ensures BlockAt(t, d, p)
  {
    HeaderStays(s, t, p.interop);
    IfdStays(s, t, p.interop, FIRST_IFD, d.zeroth);
    IfdStays(s, t, p.interop, p.exif, d.exif);
  }

  /** The last directory is recorded without an overflow; its data area may reach beyond the size of a block. */
  predicate Recorded(d: Dirs) { Recordable(PlacesOf(d).gps, d.gps) }

  /** Then so are the others, and their padding is within the size of a block. */
  lemma {:induction false} AllRecorded(d: Dirs)
    requires Recorded(d)
    ensures PaddedFits(FIRST_IFD, d.zeroth) && Recordable(PlacesOf(d).exif, d.exif)
    ensures PaddedFits(PlacesOf(d).interop, d.interop)
    ensures PlacesOf(d).exif < PlacesOf(d).gps < MAX_APP1
  {
  }

  /** How far the directories may reach, recorded or not. */
  function FarPlaces(d: Dirs): Places {
    var exif := Even(FIRST_IFD + Footprint(d.zeroth));
    var interop := exif + Footprint(d.exif);
    var gps := Even(interop + Footprint(d.interop));
    Places(exif, interop, gps, gps + Footprint(d.gps))
  }

  lemma {:induction false} MainReach(d: Dirs)
    ensures Even(FIRST_IFD + Footprint(d.zeroth)) + Footprint(d.exif) == FarPlaces(d).interop <= FarPlaces(d).end
  {
  }

  lemma {:induction false} OtherReach(d: Dirs, at: nat)
    requires at <= FarPlaces(d).interop
    ensures Even(at + Footprint(d.interop)) + Footprint(d.gps) <= FarPlaces(d).end
  {
  }

  /** What the writer asks for: the block stays within the buffer, and the helper offsets within the helper buffer. */
  predicate Roomy(d: Dirs, length: nat) {
    && FarPlaces(d).end <= length < 0x1_0000_0000
    && HelperSafe(d.zeroth) && HelperSafe(d.exif) && HelperSafe(d.interop) && HelperSafe(d.gps)
  }

  /** A recorded block reaches no further than its end. */
  lemma {:induction false} RecordedReach(d: Dirs)
    requires Recorded(d)
    ensures FarPlaces(d) == PlacesOf(d)
  {
    AllRecorded(d);
  }

  /** The data fields of the pointers, all within the size of a block. */
  predicate ZerothField(d: Dirs, j: nat, o: nat) {
    j < |d.zeroth| && |d.zeroth[j].value| == 4 && o == FIRST_IFD + 2 + 12 * j + 8 && EntriesFit(FIRST_IFD, d.zeroth)
  }

  predicate ExifField(d: Dirs, p: Places, j: nat, o: nat) {
    j < |d.exif| && |d.exif[j].value| == 4 && o == p.exif + 2 + 12 * j + 8 && EntriesFit(p.exif, d.exif)
  }

  /** Where the pointer fields of a recorded block are. */
  lemma {:induction false} PointerFields(c: Contents, d: Dirs)
    requires DirsFine(d, c) && Recorded(d)
    ensures |d.zeroth| == |c.zeroth| + 2 && HasPointers(d, |c.exif|)
    ensures ZerothField(d, |d.zeroth| - 2, FIRST_IFD + 2 + 12 * |c.zeroth| + 8)
    ensures ZerothField(d, |d.zeroth| - 1, FIRST_IFD + 2 + 12 * (|c.zeroth| + 1) + 8)
    ensures ExifField(d, PlacesOf(d), |c.exif|, PlacesOf(d).exif + 2 + 12 * |c.exif| + 8)
    ensures FarPlaces(d).end < 0x1_0000_0000 ==> InOrder(PlacesOf(d))
  {
    AllRecorded(d);
    RecordedReach(d);
  }

  /** A finished block: its directories linked, and its length without the marker, as 16 bits, in the length field. */
  predicate BlockWritten(buf: seq<Byte>, d: Dirs, k: nat)
    requires HasPointers(d, k) && PlacesOf(d).end < 0x1_0000_0000
  {
    BlockAt(buf, Linked(d, k, PlacesOf(d)), PlacesOf(d)) && BytesAt(buf, 2, Bytes16((PlacesOf(d).end - 2) % 0x1_0000))
  }
}
