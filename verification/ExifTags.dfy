/**
 The tags the program itself writes into a block, from the values it is given: five in the zeroth directory, sixteen in
 the Exif directory and two in the interoperability directory, pointers included, and up to nine in the GPS directory.
 */
module ExifTags {
  import opened Common
  import opened Bytes
  import opened ExifFormat
  import opened ExifWriter
  import opened ExifBlock
  import opened ExifParser
  import opened ExifRoundTrip

  /** A numerator and a denominator. */
  datatype Ratio = Ratio(num: nat, denom: nat) {
    predicate Ok() { num < 0x1_0000_0000 && denom < 0x1_0000_0000 }
    function Words(): (w: seq<nat>) { [num, denom] }
  }

  /** Degrees, minutes and seconds, or hours, minutes and seconds. */
  datatype Triple = Triple(a: Ratio, b: Ratio, c: Ratio) {
    predicate Ok() { a.Ok() && b.Ok() && c.Ok() }
    function Words(): (w: seq<nat>) { a.Words() + b.Words() + c.Words() }
  }

  /** A position; the altitude reference is 1 below sea level. */
  datatype Position = Position(latitude: Triple, latitudeRef: nat, longitude: Triple, longitudeRef: nat,
                               altitude: Ratio, altitudeRef: nat)
  {
    predicate Ok() {
      && latitude.Ok() && longitude.Ok() && altitude.Ok()
      && latitudeRef < 0x100 && longitudeRef < 0x100 && altitudeRef < 0x100
    }
  }

  datatype Stamp = Stamp(time: Triple, date: seq<nat>)

  /** Texts are given without the zero that ends them. */
  datatype Values = Values(
    make: seq<nat>,
    product: seq<nat>,
    date: seq<nat>,
    subsec: seq<nat>,
    exposureTime: Ratio,
    aperture: Ratio,
    focalLength: Ratio,
    iso: nat,
    width: nat,
    height: nat,
    aeMode: nat,
    awbMode: nat,
    position: Option<Position>,
    stamp: Option<Stamp>,
    processing: Option<seq<nat>>)
  {
    predicate Ok() {
      && IsText(make) && IsText(product) && IsText(date) && |date| == 19 && IsText(subsec) && |subsec| == 6
      && exposureTime.Ok() && aperture.Ok() && focalLength.Ok()
      && iso < 0x1_0000 && width < 0x1_0000_0000 && height < 0x1_0000_0000 && aeMode < 0x1_0000 && awbMode < 0x1_0000
      && (position.Some? ==> position.value.Ok())
      && (stamp.Some? ==> stamp.value.time.Ok() && IsText(stamp.value.date) && |stamp.value.date| <= 19)
      && (processing.Some? ==> IsText(processing.value) && |processing.value| <= 42)
    }
  }

  /** Characters, few enough that no 32-bit sum wraps around. */
  predicate IsText(s: seq<nat>) { |s| + 1 + MAX_APP1 < 0x1_0000_0000 && forall i | 0 <= i < |s| :: s[i] < 0x100 }

  // ---------------------------------------------------------------- the lists

  /** The full id of a 16-bit one. */
  function Id(id: nat): nat { TagIdByExifId(id) }

  function Text(id: nat, s: seq<nat>): Tag { Tag(Id(id), KAscii, s + [0]) }
  function Short(id: nat, v: nat): Tag { Tag(Id(id), KShort, [v]) }
  function Long(id: nat, v: nat): Tag { Tag(Id(id), KLong, [v]) }
  function Rational(id: nat, r: Ratio): Tag { Tag(Id(id), KRational, r.Words()) }
  function Rationals(id: nat, t: Triple): Tag { Tag(Id(id), KRational, t.Words()) }

  function ZerothList(v: Values): seq<Tag> { [Text(0x010F, v.make), Text(0x0110, v.product), Text(0x0131, v.product)] }

  function ExifHead(v: Values): seq<Tag> {
    [Rational(0x829A, v.exposureTime), Rational(0x829D, v.aperture), Short(0x8827, v.iso),
     Text(0x0132, v.date), Text(0x9003, v.date), Text(0x9004, v.date)]
  }

  function ExifMiddle(v: Values): seq<Tag> {
    [Rational(0x9202, v.aperture), Rational(0x920A, v.focalLength),
     Text(0x9290, v.subsec), Text(0x9291, v.subsec), Text(0x9292, v.subsec),
     Long(0xA002, v.width), Long(0xA003, v.height)]
  }

  function ExifTail(v: Values): seq<Tag> { [Short(0xA402, v.aeMode), Short(0xA403, v.awbMode)] }

  /** The version `R98` and four digits; the ids are beyond the list of all tags. */
  function InteropList(): seq<Tag> {
    [Tag(TagId(198, 0x0001), KAscii, [0x52, 0x39, 0x38, 0]),
     Tag(TagId(198, 0x0002), KUndefined, [0x30, 0x31, 0x30, 0x30])]
  }

  function PositionList(p: Position): seq<Tag> {
    [Rationals(0x0002, p.latitude), Text(0x0001, [p.latitudeRef]), Rationals(0x0004, p.longitude),
     Text(0x0003, [p.longitudeRef]), Rational(0x0006, p.altitude), Tag(Id(0x0005), KByte, [p.altitudeRef])]
  }

  function StampList(s: Stamp): seq<Tag> { [Rationals(0x0007, s.time), Text(0x001D, s.date)] }

  function PositionPart(v: Values): seq<Tag> { if v.position.Some? then PositionList(v.position.value) else [] }
  function StampPart(v: Values): seq<Tag> { if v.stamp.Some? then StampList(v.stamp.value) else [] }
  function ProcessingPart(v: Values): seq<Tag> {
    if v.processing.Some? then [Tag(Id(0x001B), KAscii, v.processing.value)] else []
  }

  function GpsList(v: Values): seq<Tag> { PositionPart(v) + StampPart(v) + ProcessingPart(v) }

  /** The tags of the four directories, without the pointers. */
  function Own(v: Values): Contents {
    Contents(ZerothList(v), ExifHead(v) + ExifMiddle(v), ExifTail(v), InteropList(), GpsList(v))
  }

  // ---------------------------------------------------------------- they can be written and parsed

  /** A tag that the writer can write and the parser handles. */
  predicate Fine(t: Tag) { Writable(t) && Handled(t) }

  predicate AllFine(tags: seq<Tag>) { |tags| < 100 && forall i: nat | i < |tags| :: Fine(tags[i]) }

  lemma {:induction false} FineLists(tags: seq<Tag>)
    requires AllFine(tags)
    ensures TagsWritable(tags) && AllHandled(tags)
  {
  }

  lemma {:induction false} KnownId(id: nat)
    requires Id(id) != 0
    ensures id < 0x1_0000 && Id(id) % 0x1_0000 == id && Id(id) < 0x1_0000_0000
  {
  }

  /** The ids of the lists, pointers apart. */
  predicate Listable(id: nat) { Id(id) != 0 && !IsPointer(Id(id)) }

  lemma {:induction false} FineText(id: nat, s: seq<nat>)
    requires Listable(id) && IsText(s)
    ensures Fine(Text(id, s))
  {
    KnownId(id);
  }

  lemma {:induction false} FineNumber(id: nat, v: nat)
    requires Listable(id)
    ensures v < 0x1_0000 ==> Fine(Short(id, v))
    ensures v < 0x1_0000_0000 ==> Fine(Long(id, v))
    ensures v < 0x100 ==> Fine(Tag(Id(id), KByte, [v]))
  {
    KnownId(id);
  }

  lemma {:induction false} FineRatio(id: nat, r: Ratio, t: Triple)
    requires Listable(id)
    ensures r.Ok() ==> Fine(Rational(id, r))
    ensures t.Ok() ==> Fine(Rationals(id, t))
  {
    KnownId(id);
  }

  lemma {:induction false} FineAppend(a: seq<Tag>, b: seq<Tag>)
    requires AllFine(a) && AllFine(b) && |a| + |b| < 100
    ensures AllFine(a + b)
  {
  }

  lemma {:induction false} ZerothFine(v: Values)
    requires v.Ok()
    ensures AllFine(ZerothList(v))
  {
    FineText(0x010F, v.make);
    FineText(0x0110, v.product);
    FineText(0x0131, v.product);
  }

  lemma {:induction false} HeadFine(v: Values)
    requires v.Ok()
    ensures AllFine(ExifHead(v))
  {
    var t := Triple(v.aperture, v.aperture, v.aperture);
    FineRatio(0x829A, v.exposureTime, t);
    FineRatio(0x829D, v.aperture, t);
    FineNumber(0x8827, v.iso);
    FineText(0x0132, v.date);
    FineText(0x9003, v.date);
    FineText(0x9004, v.date);
  }

  lemma {:induction false} MiddleFine(v: Values)
    requires v.Ok()
    ensures AllFine(ExifMiddle(v))
  {
    var t := Triple(v.aperture, v.aperture, v.aperture);
    FineRatio(0x9202, v.aperture, t);
    FineRatio(0x920A, v.focalLength, t);
    FineText(0x9290, v.subsec);
    FineText(0x9291, v.subsec);
    FineText(0x9292, v.subsec);
    FineNumber(0xA002, v.width);
    FineNumber(0xA003, v.height);
  }

  lemma {:induction false} TailFine(v: Values)
    requires v.Ok()
    ensures AllFine(ExifTail(v))
  {
    FineNumber(0xA402, v.aeMode);
    FineNumber(0xA403, v.awbMode);
  }

  lemma {:induction false} PositionFine(p: Position)
    requires p.Ok()
    ensures AllFine(PositionList(p))
  {
    FineRatio(0x0002, p.altitude, p.latitude);
    FineText(0x0001, [p.latitudeRef]);
    FineRatio(0x0004, p.altitude, p.longitude);
    FineText(0x0003, [p.longitudeRef]);
    FineRatio(0x0006, p.altitude, p.latitude);
    FineNumber(0x0005, p.altitudeRef);
  }

  lemma {:induction false} StampFine(s: Stamp)
    requires s.time.Ok() && IsText(s.date)
    ensures AllFine(StampList(s))
  {
    FineRatio(0x0007, s.time.a, s.time);
    FineText(0x001D, s.date);
  }

  lemma {:induction false} GpsFine(v: Values)
    requires v.Ok()
    ensures AllFine(GpsList(v))
  {
    if v.position.Some? { PositionFine(v.position.value); }
    if v.stamp.Some? { StampFine(v.stamp.value); }
    if v.processing.Some? { KnownId(0x001B); }
  }

  lemma {:induction false} FineParts(v: Values)
    requires v.Ok()
    ensures TagsOk(ExifHead(v)) && TagsOk(ExifMiddle(v))
  {
    HeadFine(v);
    MiddleFine(v);
  }

  /** The program's own tags are written and parsed. */
  lemma {:induction false} OwnFine(v: Values)
    requires v.Ok()
    ensures ContentsOk(Own(v)) && HandledContents(Own(v))
  {
    ZerothFine(v);
    FineLists(ZerothList(v));
    HeadFine(v);
    MiddleFine(v);
    FineAppend(ExifHead(v), ExifMiddle(v));
    FineLists(ExifHead(v) + ExifMiddle(v));
    TailFine(v);
    FineLists(ExifTail(v));
    GpsFine(v);
    FineLists(GpsList(v));
  }

  // ---------------------------------------------------------------- what the parser makes of them

  /** The same values at or above sea level. */
  function AboveSea(v: Values): Values {
    if v.position.None? then v else v.(position := Some(v.position.value.(altitudeRef := 0)))
  }

  predicate BelowSea(v: Values) { v.position.Some? && v.position.value.altitudeRef != 0 }

  predicate NoBytes(tags: seq<Tag>) { forall i | 0 <= i < |tags| :: !tags[i].kind.KByte? }

  lemma {:induction false} NoBytesReadAs(tags: seq<Tag>)
    requires NoBytes(tags)
    ensures ReadAs(tags) == Entities(tags)
  {
  }

  lemma {:induction false} ReadAsAppend(a: seq<Tag>, b: seq<Tag>)
    ensures ReadAs(a + b) == ReadAs(a) + ReadAs(b) && Entities(a + b) == Entities(a) + Entities(b)
  {
  }

  lemma {:induction false} PositionReadAs(p: Position)
    ensures ReadAs(PositionList(p)) == Entities(PositionList(p.(altitudeRef := 0)))
  {
  }

  /** The lists other than that of the position hold no byte. */
  lemma {:induction false} MainReadAs(v: Values)
    ensures ReadAs(ZerothList(v)) == Entities(ZerothList(v)) && ReadAs(ExifTail(v)) == Entities(ExifTail(v))
    ensures ReadAs(ExifHead(v) + ExifMiddle(v)) == Entities(ExifHead(v) + ExifMiddle(v))
  {
    NoBytesReadAs(ZerothList(v));
    NoBytesReadAs(ExifTail(v));
    NoBytesReadAs(ExifHead(v) + ExifMiddle(v));
  }

  lemma {:induction false} GpsReadAs(v: Values)
    ensures ReadAs(GpsList(v)) == Entities(GpsList(AboveSea(v)))
  {
    var u := AboveSea(v);
    ReadAsAppend(PositionPart(v), StampPart(v));
    ReadAsAppend(PositionPart(v) + StampPart(v), ProcessingPart(v));
    ReadAsAppend(PositionPart(u), StampPart(v));
    ReadAsAppend(PositionPart(u) + StampPart(v), ProcessingPart(v));
    NoBytesReadAs(StampPart(v));
    NoBytesReadAs(ProcessingPart(v));
    if v.position.Some? { PositionReadAs(v.position.value); }
  }

  /** The directories for the program's own tags. */
  function OwnDirs(v: Values): Dirs
    requires v.Ok()
  {
    OwnFine(v);
    DirsOf(Own(v))
  }

  /**
   What becomes of a position below sea level: the parser reads the program's own block as if it had been written above.
   The round trip of the program's own tags therefore succeeds if and only if the position, if any, is not below.
   */
  lemma {:induction false} OwnRoundTrip(buf: seq<Byte>, v: Values)
    requires v.Ok() && Recorded(OwnDirs(v)) && |buf| < 0x1_0000_0000 && PlacesOf(OwnDirs(v)).end < 0x1_0000_0000
    requires HasPointers(OwnDirs(v), |Own(v).exif|) && BlockWritten(buf, OwnDirs(v), |Own(v).exif|)
    ensures ParseBlock(buf) == Good(Written(Own(AboveSea(v)), PlacesOf(OwnDirs(v))))
    ensures ParseBlock(buf) == Good(Written(Own(v), PlacesOf(OwnDirs(v)))) <==> !BelowSea(v)
  {
    OwnFine(v);
    DirsAreFine(Own(v));
    BlockParses(buf, Own(v), OwnDirs(v));
    MainReadAs(v);
    GpsReadAs(v);
    RoundTrip(buf, Own(v), OwnDirs(v));
    OwnReadableIff(v);
  }

  lemma {:induction false} OwnReadableIff(v: Values)
    requires v.Ok()
    ensures ReadableContents(Own(v)) <==> !BelowSea(v)
  {
    OwnFine(v);
    MainReadAs(v);
    GpsReadAs(v);
    ReadAsWrittenIff(Own(v).zeroth);
    ReadAsWrittenIff(Own(v).exif);
    ReadAsWrittenIff(Own(v).exifTail);
    ReadAsWrittenIff(Own(v).gps);
    if BelowSea(v) {
      assert GpsList(v)[5] == Tag(Id(0x0005), KByte, [v.position.value.altitudeRef]);
      assert GpsList(v)[5] in GpsList(v);
    } else {
      assert AboveSea(v) == v;
    }
  }

  // ---------------------------------------------------------------- how long the block is

  /** The sizes of values, in order. */
  predicate Sized(slots: seq<Slot>, sizes: seq<nat>) {
    |slots| == |sizes| && forall i | 0 <= i < |slots| :: |slots[i].value| == sizes[i]
  }

  lemma {:induction false} TagsSized(tags: seq<Tag>, sizes: seq<nat>)
    requires TagsOk(tags) && |tags| == |sizes| && forall i | 0 <= i < |tags| :: tags[i].DataLen() == sizes[i]
    ensures Sized(Slots(tags), sizes)
  {
  }

  lemma {:induction false} SizedAppend(a: seq<Slot>, b: seq<Slot>, sa: seq<nat>, sb: seq<nat>)
    requires Sized(a, sa) && Sized(b, sb)
    ensures Sized(a + b, sa + sb)
  {
  }

  /** A zeroth directory of one long text; the others are short. */
  lemma {:induction false} ZerothArea(slots: seq<Slot>, make: nat, product: nat)
    requires Sized(slots, [make, product, product, 4, 4]) && make > 4 && product <= 4
    ensures DataArea(slots, 5) == make
  {
    assert DataArea(slots, 1) == make;
    assert DataArea(slots, 3) == DataArea(slots, 2) == make;
    assert DataArea(slots, 5) == DataArea(slots, 4) == make;
  }

  lemma {:induction false} ZerothSize(v: Values)
    requires v.Ok() && |v.make| >= 4 && |v.product| <= 3
    ensures IfdSize(OwnDirs(v).zeroth) == 66 + |v.make| + 1
  {
    OwnFine(v);
    var m, p := |v.make| + 1, |v.product| + 1;
    TagsSized(ZerothList(v), [m, p, p]);
    SizedAppend(Slots(ZerothList(v)), [PointerSlot(EXIF_IFD_PTR, 0), PointerSlot(GPS_IFD_PTR, 0)], [m, p, p], [4, 4]);
    assert [m, p, p] + [4, 4] == [m, p, p, 4, 4];
    ZerothArea(OwnDirs(v).zeroth, m, p);
  }

  lemma {:induction false} ExifArea(slots: seq<Slot>)
    requires Sized(slots, [8, 8, 2, 20, 20, 20, 8, 8, 7, 7, 7, 4, 4, 4, 2, 2])
    ensures DataArea(slots, 16) == 115
  {
    assert DataArea(slots, 1) == 8;
    assert DataArea(slots, 3) == DataArea(slots, 2) == 16;
    assert DataArea(slots, 5) == DataArea(slots, 4) + 20 == 56;
    assert DataArea(slots, 7) == DataArea(slots, 6) + 8 == 84;
    assert DataArea(slots, 9) == DataArea(slots, 8) + 7 == 99;
    assert DataArea(slots, 11) == DataArea(slots, 10) + 8 == 115;
    assert DataArea(slots, 13) == DataArea(slots, 12) == 115;
    assert DataArea(slots, 15) == DataArea(slots, 14) == 115;
  }

  lemma {:induction false} MainSized(v: Values)
    requires v.Ok() && TagsOk(ExifHead(v)) && TagsOk(ExifMiddle(v)) && TagsOk(ExifHead(v) + ExifMiddle(v))
    ensures Sized(Slots(ExifHead(v) + ExifMiddle(v)), [8, 8, 2, 20, 20, 20, 8, 8, 7, 7, 7, 4, 4])
  {
    TagsSized(ExifHead(v), [8, 8, 2, 20, 20, 20]);
    TagsSized(ExifMiddle(v), [8, 8, 7, 7, 7, 4, 4]);
    SizedAppend(Slots(ExifHead(v)), Slots(ExifMiddle(v)), [8, 8, 2, 20, 20, 20], [8, 8, 7, 7, 7, 4, 4]);
    assert [8, 8, 2, 20, 20, 20] + [8, 8, 7, 7, 7, 4, 4] == [8, 8, 2, 20, 20, 20, 8, 8, 7, 7, 7, 4, 4];
    assert Slots(ExifHead(v)) + Slots(ExifMiddle(v)) == Slots(ExifHead(v) + ExifMiddle(v));
  }

  lemma {:induction false} TailSized(v: Values)
    requires v.Ok() && TagsOk(ExifTail(v))
    ensures Sized(Slots(ExifTail(v)), [2, 2])
  {
    TagsSized(ExifTail(v), [2, 2]);
  }

  lemma {:induction false} ExifSize(v: Values)
    requires v.Ok()
    ensures IfdSize(OwnDirs(v).exif) == 313
  {
    OwnFine(v);
    var head, tail := ExifHead(v) + ExifMiddle(v), ExifTail(v);
    var sizes := [8, 8, 2, 20, 20, 20, 8, 8, 7, 7, 7, 4, 4];
    FineParts(v);
    MainSized(v);
    TailSized(v);
    SizedAppend(Slots(head), [PointerSlot(INTEROP_IFD_PTR, 0)], sizes, [4]);
    SizedAppend(Slots(head) + [PointerSlot(INTEROP_IFD_PTR, 0)], Slots(tail), sizes + [4], [2, 2]);
    assert sizes + [4] + [2, 2] == [8, 8, 2, 20, 20, 20, 8, 8, 7, 7, 7, 4, 4, 4, 2, 2];
    ExifArea(OwnDirs(v).exif);
  }

  lemma {:induction false} InteropSize(v: Values)
    requires v.Ok()
    ensures IfdSize(OwnDirs(v).interop) == 30
  {
    OwnFine(v);
    TagsSized(InteropList(), [4, 4]);
    assert DataArea(OwnDirs(v).interop, 2) == DataArea(OwnDirs(v).interop, 1) == 0;
  }

  predicate PositionOnly(v: Values) { v.position.Some? && v.stamp.None? && v.processing.None? }

  lemma {:induction false} GpsArea(slots: seq<Slot>)
    requires Sized(slots, [24, 2, 24, 2, 8, 1])
    ensures DataArea(slots, 6) == 56
  {
    assert DataArea(slots, 2) == DataArea(slots, 1) == 24;
    assert DataArea(slots, 4) == DataArea(slots, 3) == 48;
    assert DataArea(slots, 6) == DataArea(slots, 5) == 56;
  }

  lemma {:induction false} GpsSize(v: Values)
    requires v.Ok() && PositionOnly(v)
    ensures |OwnDirs(v).gps| == 6 && DataArea(OwnDirs(v).gps, 6) == 56
  {
    OwnFine(v);
    assert GpsList(v) == PositionList(v.position.value);
    TagsSized(GpsList(v), [24, 2, 24, 2, 8, 1]);
    GpsArea(OwnDirs(v).gps);
  }

  /** When a block of these sizes is recorded, and when it is too long, by the size of the first directory. */
  lemma {:induction false} LongIff(d: Dirs, make: nat)
    requires IfdSize(d.zeroth) == 66 + make + 1 && IfdSize(d.exif) == 313 && IfdSize(d.interop) == 30
    requires |d.gps| == 6 && DataArea(d.gps, 6) == 56
    ensures Recorded(d) && PlacesOf(d).end - 2 >= 0x1_0000 <==> 64974 <= make <= 65027
  {
    assert PlacesOf(d).gps == Even(Even(84 + make + 1) + 343);
    assert PlacesOf(d).end == PlacesOf(d).gps + 134;
    assert Recorded(d) <==> PlacesOf(d).gps + 78 <= MAX_APP1;
  }

  /**
   The program's own block of a short product name and a position: it is recorded and yet too long for its length field
   if and only if the name of the maker has 64974 to 65027 characters.
   */
  lemma {:induction false} LongBlockIff(v: Values)
    requires v.Ok() && |v.make| >= 4 && |v.product| <= 3 && PositionOnly(v)
    ensures Recorded(OwnDirs(v)) && PlacesOf(OwnDirs(v)).end - 2 >= 0x1_0000 <==> 64974 <= |v.make| <= 65027
  {
    ZerothSize(v);
    ExifSize(v);
    InteropSize(v);
    GpsSize(v);
    LongIff(OwnDirs(v), |v.make|);
  }
}
