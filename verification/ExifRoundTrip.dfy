/**
 What the parser makes of a finished block: the tags it was written from, with every byte turned into zero.
 */
module ExifRoundTrip {
  import opened Bytes
  import opened ExifFormat
  import opened ExifWriter
  import opened ExifBlock
  import opened ExifParser
  import ExifConverter
  import ExifGenerator

  /** What the parser makes of tags it handles. */
  function ReadAs(tags: seq<Tag>): (e: seq<Entity>)
    ensures |e| == |tags|
  {
    seq(|tags|, i requires 0 <= i < |tags| => EntityOf(AsRead(tags[i])))
  }

  predicate HandledAt(tags: seq<Tag>, i: nat)
    requires i < |tags|
  {
    Handled(tags[i])
  }

  predicate AllHandled(tags: seq<Tag>) { forall i: nat | i < |tags| :: HandledAt(tags, i) }

  /** The readings from the `n`-th on add the entities, in order. */
  predicate Adds(rs: seq<Reading>, n: nat, es: seq<Entity>) {
    n + |es| <= |rs| && forall i | 0 <= i < |es| :: rs[n + i] == Added(es[i])
  }

  lemma {:induction false} ReadAdded(p: Parser, rs: seq<Reading>, n: nat, es: seq<Entity>, m: nat)
    requires Adds(rs, n, es) && m <= |es|
    ensures ReadFirst(p, rs, n + m) == ReadFirst(p, rs, n).(entities := ReadFirst(p, rs, n).entities + es[..m])
  {
    if m == 0 {
      assert ReadFirst(p, rs, n).entities + es[..0] == ReadFirst(p, rs, n).entities;
    } else {
      ReadAdded(p, rs, n, es, m - 1);
      assert rs[n + m - 1] == Added(es[m - 1]);
      assert ReadFirst(p, rs, n + m) == ApplyReading(ReadFirst(p, rs, n + m - 1), rs[n + m - 1]);
      assert (ReadFirst(p, rs, n).entities + es[..m - 1]) + [es[m - 1]] == ReadFirst(p, rs, n).entities + es[..m];
    }
  }

  /** All of them. */
  lemma {:induction false} ReadAllAdded(p: Parser, rs: seq<Reading>, n: nat, es: seq<Entity>)
    requires Adds(rs, n, es)
    ensures ReadFirst(p, rs, n + |es|) == ReadFirst(p, rs, n).(entities := ReadFirst(p, rs, n).entities + es)
  {
    ReadAdded(p, rs, n, es, |es|);
    assert es[..|es|] == es;
  }

  lemma {:induction false} ReadOnlyAdded(p: Parser, rs: seq<Reading>, es: seq<Entity>)
    requires Adds(rs, 0, es) && |rs| == |es|
    ensures ReadFirst(p, rs, |rs|) == p.(entities := p.entities + es)
  {
    ReadAllAdded(p, rs, 0, es);
  }

  /** Handled tags are readings that add their entities. */
  lemma {:induction false} TagsAdd(tags: seq<Tag>, n: nat, part: seq<Tag>)
    requires n + |part| <= |tags| && (forall i | 0 <= i < |part| :: tags[n + i] == part[i]) && AllHandled(part)
    ensures Adds(Readings(tags), n, ReadAs(part))
  {
    forall i | 0 <= i < |part|
      ensures Readings(tags)[n + i] == Added(ReadAs(part)[i])
    {
      assert HandledAt(part, i);
    }
  }

  predicate PointerReading(r: Reading, id: nat, target: nat) {
    r.Pointed? && r.id == id && TIFF_BASE <= target < 0x1_0000_0000 && r.v == target - TIFF_BASE
  }

  /** Reading the zeroth directory. */
  lemma {:induction false} ReadZeroth(p: Parser, rs: seq<Reading>, es: seq<Entity>, exif: nat, gps: nat)
    requires Adds(rs, 0, es) && |rs| == |es| + 2
    requires PointerReading(rs[|es|], EXIF_IFD_PTR, exif) && PointerReading(rs[|es| + 1], GPS_IFD_PTR, gps)
    ensures ReadFirst(p, rs, |rs|) == p.(entities := p.entities + es, exifPtr := exif, gpsPtr := gps)
  {
    ReadAllAdded(p, rs, 0, es);
    var q := ReadFirst(p, rs, |es|);
    assert ReadFirst(p, rs, |es| + 1) == SetPointer(q, EXIF_IFD_PTR, exif - TIFF_BASE);
    assert ReadFirst(p, rs, |es| + 2) == SetPointer(ReadFirst(p, rs, |es| + 1), GPS_IFD_PTR, gps - TIFF_BASE);
  }

  /** Reading the Exif directory. */
  lemma {:induction false} ReadExif(p: Parser, rs: seq<Reading>, es: seq<Entity>, tail: seq<Entity>, interop: nat)
    requires Adds(rs, 0, es) && Adds(rs, |es| + 1, tail) && |rs| == |es| + 1 + |tail|
    requires PointerReading(rs[|es|], INTEROP_IFD_PTR, interop)
    ensures ReadFirst(p, rs, |rs|) == p.(entities := p.entities + es + tail, interopPtr := interop)
  {
    ReadAllAdded(p, rs, 0, es);
    ReadAllAdded(p, rs, |es| + 1, tail);
    assert ReadFirst(p, rs, |es| + 1) == SetPointer(ReadFirst(p, rs, |es|), INTEROP_IFD_PTR, interop - TIFF_BASE);
  }

  // ---------------------------------------------------------------- the tags with their pointers

  function ZerothTags(c: Contents, p: Places): (tags: seq<Tag>)
    requires InOrder(p)
    ensures |tags| == |c.zeroth| + 2
  {
    c.zeroth + [PointerTag(EXIF_IFD_PTR, p.exif - TIFF_BASE), PointerTag(GPS_IFD_PTR, p.gps - TIFF_BASE)]
  }

  function ExifTags(c: Contents, p: Places): (tags: seq<Tag>)
    requires InOrder(p)
    ensures |tags| == |c.exif| + 1 + |c.exifTail|
  {
    c.exif + [PointerTag(INTEROP_IFD_PTR, p.interop - TIFF_BASE)] + c.exifTail
  }

  lemma {:induction false} PointerSlotIs(id: nat, v: nat)
    requires id < 0x1_0000_0000 && v < 0x1_0000_0000
    ensures PointerSlot(id, 0).(value := Bytes32(v)) == SlotOf(PointerTag(id, v))
  {
  }

  /** Linking changes the last two slots of the zeroth directory. */
  lemma {:induction false} LinkedSlots(d: Dirs, k: nat, p: Places, i: nat)
    requires HasPointers(d, k) && InOrder(p) && i < |d.zeroth|
    ensures var n := |d.zeroth| - 2;
            Linked(d, k, p).zeroth[i]
            == if i < n then d.zeroth[i]
               else d.zeroth[i].(value := Bytes32((if i == n then p.exif else p.gps) - TIFF_BASE))
  {
  }

  lemma {:induction false} LinkedZerothTag(c: Contents, d: Dirs, p: Places, i: nat)
    requires ZerothListed(d.zeroth, c.zeroth) && HasPointers(d, |c.exif|) && InOrder(p) && i < |d.zeroth|
    ensures ZerothTags(c, p)[i].Ok() && Linked(d, |c.exif|, p).zeroth[i] == SlotOf(ZerothTags(c, p)[i])
  {
    var n := |c.zeroth|;
    LinkedSlots(d, |c.exif|, p, i);
    if i < n {
      assert ListsAt(d.zeroth, 0, c.zeroth, i);
    } else if i == n {
      PointerSlotIs(EXIF_IFD_PTR, p.exif - TIFF_BASE);
    } else {
      PointerSlotIs(GPS_IFD_PTR, p.gps - TIFF_BASE);
    }
  }

  /** The linked directories are those of the tags with their pointers. */
  lemma {:induction false} LinkedZeroth(c: Contents, d: Dirs, p: Places)
    requires DirsFine(d, c) && InOrder(p)
    ensures TagsOk(ZerothTags(c, p)) && Linked(d, |c.exif|, p).zeroth == Slots(ZerothTags(c, p))
  {
    var tags, slots := ZerothTags(c, p), Linked(d, |c.exif|, p).zeroth;
    forall i | 0 <= i < |tags|
      ensures tags[i].Ok() && slots[i] == SlotOf(tags[i])
    {
      LinkedZerothTag(c, d, p, i);
    }
  }

  lemma {:induction false} LinkedExifTag(c: Contents, d: Dirs, p: Places, i: nat)
    requires DirsFine(d, c) && InOrder(p) && i < |d.exif|
    ensures ExifTags(c, p)[i].Ok() && Linked(d, |c.exif|, p).exif[i] == SlotOf(ExifTags(c, p)[i])
  {
    var n := |c.exif|;
    if i < n {
      assert ListsAt(d.exif, 0, c.exif, i);
    } else if i == n {
      PointerSlotIs(INTEROP_IFD_PTR, p.interop - TIFF_BASE);
    } else {
      var j := i - n - 1;
      assert ListsAt(d.exif, n + 1, c.exifTail, j);
    }
  }

  lemma {:induction false} LinkedExif(c: Contents, d: Dirs, p: Places)
    requires DirsFine(d, c) && InOrder(p)
    ensures TagsOk(ExifTags(c, p)) && Linked(d, |c.exif|, p).exif == Slots(ExifTags(c, p))
  {
    var tags, slots := ExifTags(c, p), Linked(d, |c.exif|, p).exif;
    forall i | 0 <= i < |tags|
      ensures tags[i].Ok() && slots[i] == SlotOf(tags[i])
    {
      LinkedExifTag(c, d, p, i);
    }
  }

  lemma {:induction false} LinkedGps(c: Contents, d: Dirs, p: Places)
    requires DirsFine(d, c) && InOrder(p)
    ensures TagsOk(c.gps) && Linked(d, |c.exif|, p).gps == Slots(c.gps)
  {
    forall i | 0 <= i < |c.gps|
      ensures c.gps[i].Ok() && d.gps[i] == SlotOf(c.gps[i])
    {
      assert ListsAt(d.gps, 0, c.gps, i);
    }
  }

  lemma {:induction false} PointersKnown(v: nat)
    requires v < 0x1_0000_0000
    ensures Pointer(PointerTag(EXIF_IFD_PTR, v)) && Pointer(PointerTag(GPS_IFD_PTR, v))
    ensures Pointer(PointerTag(INTEROP_IFD_PTR, v))
  {
  }

  lemma {:induction false} ZerothPlain(c: Contents, p: Places)
    requires InOrder(p) && AllHandled(c.zeroth)
    ensures AllPlain(ZerothTags(c, p))
  {
    var tags := ZerothTags(c, p);
    PointersKnown(p.exif - TIFF_BASE);
    PointersKnown(p.gps - TIFF_BASE);
    forall k: nat | k < |tags|
      ensures PlainAt(tags, k)
    {
      if k < |c.zeroth| { assert HandledAt(c.zeroth, k); }
    }
  }

  lemma {:induction false} ZerothAdds(c: Contents, p: Places)
    requires InOrder(p) && AllHandled(c.zeroth)
    ensures Adds(Readings(ZerothTags(c, p)), 0, ReadAs(c.zeroth))
    ensures PointerReading(Readings(ZerothTags(c, p))[|c.zeroth|], EXIF_IFD_PTR, p.exif)
    ensures PointerReading(Readings(ZerothTags(c, p))[|c.zeroth| + 1], GPS_IFD_PTR, p.gps)
  {
    TagsAdd(ZerothTags(c, p), 0, c.zeroth);
  }

  lemma {:induction false} ZerothReads(c: Contents, p: Places, q: Parser)
    requires InOrder(p) && AllHandled(c.zeroth)
    ensures ReadFirst(q, Readings(ZerothTags(c, p)), |c.zeroth| + 2)
         == q.(entities := q.entities + ReadAs(c.zeroth), exifPtr := p.exif, gpsPtr := p.gps)
  {
    ZerothAdds(c, p);
    ReadZeroth(q, Readings(ZerothTags(c, p)), ReadAs(c.zeroth), p.exif, p.gps);
  }

  lemma {:induction false} ParseZeroth(buf: seq<Byte>, c: Contents, p: Places, q: Parser, slots: seq<Slot>)
    requires InOrder(p) && AllHandled(c.zeroth) && q.tiff == TIFF_BASE
    requires TagsOk(ZerothTags(c, p)) && slots == Slots(ZerothTags(c, p))
    requires IfdAt(buf, FIRST_IFD, slots) && EntriesFit(FIRST_IFD, slots) && |buf| < 0x1_0000_0000
    ensures ParseIfd(buf, FIRST_IFD, q)
         == Good(q.(entities := q.entities + ReadAs(c.zeroth), exifPtr := p.exif, gpsPtr := p.gps))
  {
    ZerothPlain(c, p);
    ReadIfd(buf, FIRST_IFD, ZerothTags(c, p), q);
    ZerothReads(c, p, q);
  }

  lemma {:induction false} ExifPlain(c: Contents, p: Places)
    requires InOrder(p) && AllHandled(c.exif) && AllHandled(c.exifTail)
    ensures AllPlain(ExifTags(c, p))
  {
    var tags, n := ExifTags(c, p), |c.exif|;
    PointersKnown(p.interop - TIFF_BASE);
    forall k: nat | k < |tags|
      ensures PlainAt(tags, k)
    {
      if k < n {
        assert HandledAt(c.exif, k);
      } else if k > n {
        assert HandledAt(c.exifTail, k - n - 1);
      }
    }
  }

  lemma {:induction false} ExifAdds(c: Contents, p: Places)
    requires InOrder(p) && AllHandled(c.exif) && AllHandled(c.exifTail)
    ensures Adds(Readings(ExifTags(c, p)), 0, ReadAs(c.exif))
    ensures Adds(Readings(ExifTags(c, p)), |c.exif| + 1, ReadAs(c.exifTail))
    ensures PointerReading(Readings(ExifTags(c, p))[|c.exif|], INTEROP_IFD_PTR, p.interop)
  {
    TagsAdd(ExifTags(c, p), 0, c.exif);
    TagsAdd(ExifTags(c, p), |c.exif| + 1, c.exifTail);
  }

  lemma {:induction false} ExifReads(c: Contents, p: Places, q: Parser)
    requires InOrder(p) && AllHandled(c.exif) && AllHandled(c.exifTail)
    ensures ReadFirst(q, Readings(ExifTags(c, p)), |c.exif| + 1 + |c.exifTail|)
         == q.(entities := q.entities + ReadAs(c.exif) + ReadAs(c.exifTail), interopPtr := p.interop)
  {
    ExifAdds(c, p);
    ReadExif(q, Readings(ExifTags(c, p)), ReadAs(c.exif), ReadAs(c.exifTail), p.interop);
  }

  lemma {:induction false} ParseExif(buf: seq<Byte>, c: Contents, p: Places, q: Parser, slots: seq<Slot>)
    requires InOrder(p) && AllHandled(c.exif) && AllHandled(c.exifTail) && q.tiff == TIFF_BASE
    requires TagsOk(ExifTags(c, p)) && slots == Slots(ExifTags(c, p))
    requires IfdAt(buf, p.exif, slots) && EntriesFit(p.exif, slots) && |buf| < 0x1_0000_0000
    ensures ParseIfd(buf, p.exif, q)
         == Good(q.(entities := q.entities + ReadAs(c.exif) + ReadAs(c.exifTail), interopPtr := p.interop))
  {
    ExifPlain(c, p);
    ReadIfd(buf, p.exif, ExifTags(c, p), q);
    ExifReads(c, p, q);
  }

  lemma {:induction false} GpsPlain(tags: seq<Tag>)
    requires AllHandled(tags)
    ensures AllPlain(tags)
  {
    forall k: nat | k < |tags|
      ensures PlainAt(tags, k)
    {
      assert HandledAt(tags, k);
    }
  }

  lemma {:induction false} GpsReads(tags: seq<Tag>, q: Parser)
    requires AllHandled(tags)
    ensures ReadFirst(q, Readings(tags), |tags|) == q.(entities := q.entities + ReadAs(tags))
  {
    TagsAdd(tags, 0, tags);
    ReadOnlyAdded(q, Readings(tags), ReadAs(tags));
  }

  lemma {:induction false} ParseGps(buf: seq<Byte>, at: nat, tags: seq<Tag>, q: Parser)
    requires AllHandled(tags) && TagsOk(tags) && q.tiff == TIFF_BASE
    requires IfdAt(buf, at, Slots(tags)) && EntriesFit(at, Slots(tags)) && |buf| < 0x1_0000_0000
    ensures ParseIfd(buf, at, q) == Good(q.(entities := q.entities + ReadAs(tags)))
  {
    GpsPlain(tags);
    ReadIfd(buf, at, tags, q);
    GpsReads(tags, q);
  }

  lemma {:induction false} ParseHeader(buf: seq<Byte>)
    requires HeaderAt(buf) && |buf| >= FIRST_IFD
    ensures HeaderOk(buf)
  {
    ReadAt16(buf, 0, APP1_MARKER);
    ReadAt32(buf, 4, EXIF_HEADER);
    ReadAt16(buf, 10, TIFF_BIG_ENDIAN);
    ReadAt16(buf, 12, TIFF_HEADER);
    ReadAt32(buf, 14, ZERO_IFD_OFFSET);
  }

  /** What the zeroth, the Exif and the GPS directory add to the parser. */
  function AddZeroth(q: Parser, c: Contents, p: Places): Parser {
    q.(entities := q.entities + ReadAs(c.zeroth), exifPtr := p.exif, gpsPtr := p.gps)
  }

  function AddExif(q: Parser, c: Contents, p: Places): Parser {
    q.(entities := q.entities + ReadAs(c.exif) + ReadAs(c.exifTail), interopPtr := p.interop)
  }

  function AddGps(q: Parser, c: Contents): Parser { q.(entities := q.entities + ReadAs(c.gps)) }

  lemma {:induction false} ParseFirst(buf: seq<Byte>, c: Contents, d: Dirs, p: Places, q: Parser)
    requires DirsFine(d, c) && InOrder(p) && BlockAt(buf, Linked(d, |c.exif|, p), p)
    requires EntriesFit(FIRST_IFD, d.zeroth) && |buf| < 0x1_0000_0000 && AllHandled(c.zeroth) && q.tiff == TIFF_BASE
    ensures ParseIfd(buf, FIRST_IFD, q) == Good(AddZeroth(q, c, p))
  {
    LinkedZeroth(c, d, p);
    ParseZeroth(buf, c, p, q, Linked(d, |c.exif|, p).zeroth);
  }

  lemma {:induction false} ParseSecond(buf: seq<Byte>, c: Contents, d: Dirs, p: Places, q: Parser)
    requires DirsFine(d, c) && InOrder(p) && BlockAt(buf, Linked(d, |c.exif|, p), p)
    requires EntriesFit(p.exif, d.exif) && |buf| < 0x1_0000_0000
    requires AllHandled(c.exif) && AllHandled(c.exifTail) && q.tiff == TIFF_BASE
    ensures ParseIfd(buf, p.exif, q) == Good(AddExif(q, c, p))
  {
    LinkedExif(c, d, p);
    ParseExif(buf, c, p, q, Linked(d, |c.exif|, p).exif);
  }

  lemma {:induction false} ParseLast(buf: seq<Byte>, c: Contents, d: Dirs, p: Places, q: Parser)
    requires DirsFine(d, c) && InOrder(p) && BlockAt(buf, Linked(d, |c.exif|, p), p)
    requires EntriesFit(p.gps, d.gps) && |buf| < 0x1_0000_0000 && AllHandled(c.gps) && q.tiff == TIFF_BASE
    ensures ParseIfd(buf, p.gps, q) == Good(AddGps(q, c))
  {
    LinkedGps(c, d, p);
    ParseGps(buf, p.gps, c.gps, q);
  }

  lemma {:induction false} ParseThree(buf: seq<Byte>, q1: Parser, q2: Parser, q3: Parser)
    requires HeaderAt(buf) && |buf| >= FIRST_IFD && ParseIfd(buf, FIRST_IFD, StartParser()) == Good(q1)
    requires ParseIfd(buf, q1.exifPtr, q1) == Good(q2) && ParseIfd(buf, q2.gpsPtr, q2) == Good(q3)
    ensures ParseBlock(buf) == Good(q3)
  {
    ParseHeader(buf);
  }

  /** What the parser makes of the tags. */
  function Parsed(c: Contents, p: Places): Parser {
    Parser(StartParser().entities + ReadAs(c.zeroth) + ReadAs(c.exif) + ReadAs(c.exifTail) + ReadAs(c.gps),
           p.exif, p.interop, p.gps, TIFF_BASE)
  }

  lemma {:induction false} AllAdded(c: Contents, p: Places)
    ensures AddGps(AddExif(AddZeroth(StartParser(), c, p), c, p), c) == Parsed(c, p)
  {
  }

  /** The parser handles all the tags it comes to; it does not come to the interoperability directory. */
  predicate HandledContents(c: Contents) {
    AllHandled(c.zeroth) && AllHandled(c.exif) && AllHandled(c.exifTail) && AllHandled(c.gps)
  }

  /**
   The parser reads a finished block of handled tags as the blank entries followed by the tags of the zeroth, the Exif
   and the GPS directory, in the order written, without the pointer tags and with every byte turned into zero; and it
   finds the directories where they are. The block may be longer than its length field can say.
   */
  lemma {:induction false} BlockParses(buf: seq<Byte>, c: Contents, d: Dirs)
    requires DirsFine(d, c) && Recorded(d) && |buf| < 0x1_0000_0000
    requires PlacesOf(d).end < 0x1_0000_0000 && BlockWritten(buf, d, |c.exif|) && HandledContents(c)
    ensures ParseBlock(buf) == Good(Parsed(c, PlacesOf(d)))
  {
    var p := PlacesOf(d);
    var q0 := StartParser();
    var q1 := AddZeroth(q0, c, p);
    var q2 := AddExif(q1, c, p);
    AllRecorded(d);
    ParseFirst(buf, c, d, p, q0);
    ParseSecond(buf, c, d, p, q1);
    ParseLast(buf, c, d, p, q2);
    ParseThree(buf, q1, q2, AddGps(q2, c));
    AllAdded(c, p);
  }

  // ---------------------------------------------------------------- as written

  /** The tags as they were written. */
  function Entities(tags: seq<Tag>): (e: seq<Entity>)
    ensures |e| == |tags|
  {
    seq(|tags|, i requires 0 <= i < |tags| => EntityOf(tags[i]))
  }

  function Written(c: Contents, p: Places): Parser {
    Parser(StartParser().entities + Entities(c.zeroth) + Entities(c.exif) + Entities(c.exifTail) + Entities(c.gps),
           p.exif, p.interop, p.gps, TIFF_BASE)
  }

  predicate AllReadable(tags: seq<Tag>) { forall t | t in tags :: Readable(t) }

  predicate ReadableContents(c: Contents) {
    AllReadable(c.zeroth) && AllReadable(c.exif) && AllReadable(c.exifTail) && AllReadable(c.gps)
  }

  lemma {:induction false} ReadAsWrittenIff(tags: seq<Tag>)
    requires AllHandled(tags)
    ensures ReadAs(tags) == Entities(tags) <==> AllReadable(tags)
  {
    if ReadAs(tags) == Entities(tags) {
      forall t | t in tags
        ensures Readable(t)
      {
        var i: nat :| i < |tags| && tags[i] == t;
        assert HandledAt(tags, i) && ReadAs(tags)[i] == Entities(tags)[i];
      }
    }
    if AllReadable(tags) {
      forall i | 0 <= i < |tags|
        ensures ReadAs(tags)[i] == Entities(tags)[i]
      {
        assert tags[i] in tags;
      }
    }
  }

  lemma {:induction false} PartsEqual<T>(a: seq<T>, b: seq<T>, a': seq<T>, b': seq<T>)
    requires |a| == |a'| && a + b == a' + b'
    ensures a == a' && b == b'
  {
    assert a == (a + b)[..|a|] == (a' + b')[..|a|] == a';
    assert b == (a + b)[|a|..] == (a' + b')[|a|..] == b';
  }

  /**
   The round trip, exactly: the parser reads a finished block of handled tags as they were written if and only if all of
   them are readable, which is to say that no byte is other than zero.
   */
  lemma {:induction false} RoundTrip(buf: seq<Byte>, c: Contents, d: Dirs)
    requires DirsFine(d, c) && Recorded(d) && |buf| < 0x1_0000_0000
    requires PlacesOf(d).end < 0x1_0000_0000 && BlockWritten(buf, d, |c.exif|) && HandledContents(c)
    ensures ParseBlock(buf) == Good(Written(c, PlacesOf(d))) <==> ReadableContents(c)
  {
    BlockParses(buf, c, d);
    WrittenIff(c, PlacesOf(d));
  }

  lemma {:induction false} WrittenIff(c: Contents, p: Places)
    requires HandledContents(c)
    ensures Parsed(c, p) == Written(c, p) <==> ReadableContents(c)
  {
    ReadAsWrittenIff(c.zeroth);
    ReadAsWrittenIff(c.exif);
    ReadAsWrittenIff(c.exifTail);
    ReadAsWrittenIff(c.gps);
    if Parsed(c, p) == Written(c, p) {
      var r1, w1 := StartParser().entities + ReadAs(c.zeroth), StartParser().entities + Entities(c.zeroth);
      var r2, w2 := r1 + ReadAs(c.exif), w1 + Entities(c.exif);
      PartsEqual(r2 + ReadAs(c.exifTail), ReadAs(c.gps), w2 + Entities(c.exifTail), Entities(c.gps));
      PartsEqual(r2, ReadAs(c.exifTail), w2, Entities(c.exifTail));
      PartsEqual(r1, ReadAs(c.exif), w1, Entities(c.exif));
      PartsEqual(StartParser().entities, ReadAs(c.zeroth), StartParser().entities, Entities(c.zeroth));
    }
  }

  /**
   The length field of a finished block is its length without the marker if and only if that is a 16-bit number. The
   writer does not see to it: the data area of the last directory may reach further.
   */
  lemma {:induction false} LengthFieldIff(buf: seq<Byte>, d: Dirs, k: nat)
    requires HasPointers(d, k) && PlacesOf(d).end < 0x1_0000_0000 && BlockWritten(buf, d, k)
    ensures |buf| >= PlacesOf(d).end
    ensures U16(buf, 2) == PlacesOf(d).end - 2 <==> PlacesOf(d).end - 2 < 0x1_0000
  {
    ReadAt16(buf, 2, (PlacesOf(d).end - 2) % 0x1_0000);
  }

  /** The writer and the parser one after the other, on one buffer. */
  method GenerateThenConvert(writer: ExifGenerator.Generator, reader: ExifConverter.Converter, output: array<Byte>,
                             c: Contents, ghost d: Dirs)
    returns (size: int, status: ExifConverter.Status)
    requires MAX_APP1 <= output.Length < 0x8000_0000 && writer.helper.Length == MAX_APP1 && output != writer.helper
    requires writer.helperOffset == 0 && DirsFine(d, c) && Roomy(d, output.Length) && HandledContents(c)
    modifies writer, writer.helper, output, reader
    ensures Recorded(d) ==> status == ExifConverter.Ok && reader.View() == Parsed(c, PlacesOf(d))
    ensures Recorded(d) ==> size == if old(writer.overflow) && !old(writer.app1Present) then 0 else PlacesOf(d).end
    ensures !Recorded(d) && !old(writer.app1Present) ==> size == 0
  {
    size := writer.Generate(output, c, d);
    if Recorded(d) { BlockParses(output[..], c, d); }
    status := reader.ConvertExifBinary(output[..]);
  }
}
