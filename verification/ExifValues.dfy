/**
 What a reader of the program's own block finds in it: for each tag id the value that the program was given for it, and
 nothing else.
 */
module ExifValues {
  import opened Common
  import opened Bytes
  import opened ExifFormat
  import opened ExifWriter
  import opened ExifBlock
  import opened ExifParser
  import opened ExifRoundTrip
  import opened ExifTags
  import opened ExifLayout

  const BYTE := 1
  const ASCII := 2
  const SHORT := 3
  const LONG := 4
  const RATIONAL := 5

  function AsText(id: nat, s: seq<nat>): Option<Entity> { Some(Entity(Id(id), ASCII, |s| + 1, s + [0])) }

  function AsNumber(id: nat, code: nat, n: nat): Option<Entity> { Some(Entity(Id(id), code, 1, [n])) }

  function AsRatio(id: nat, r: Ratio): Option<Entity> { Some(Entity(Id(id), RATIONAL, 1, [r.num, r.denom])) }

  function AsTriple(id: nat, t: Triple): Option<Entity> {
    Some(Entity(Id(id), RATIONAL, 3, [t.a.num, t.a.denom, t.b.num, t.b.denom, t.c.num, t.c.denom]))
  }

  /** What a tag of a position is read as; the altitude reference always says above sea level. */
  function PositionEntity(p: Position, id: nat): Option<Entity> {
    match id
    case 0x0001 => AsText(id, [p.latitudeRef])
    case 0x0002 => AsTriple(id, p.latitude)
    case 0x0003 => AsText(id, [p.longitudeRef])
    case 0x0004 => AsTriple(id, p.longitude)
    case 0x0005 => AsNumber(id, BYTE, 0)
    case 0x0006 => AsRatio(id, p.altitude)
    case _ => None
  }

  /** What a tag of the GPS directory is read as; without its value there is no such tag. */
  function GpsEntity(v: Values, id: nat): Option<Entity> {
    match id
    case 0x0007 => if v.stamp.Some? then AsTriple(id, v.stamp.value.time) else None
    case 0x001D => if v.stamp.Some? then AsText(id, v.stamp.value.date) else None
    case 0x001B =>
      if v.processing.Some? then Some(Entity(Id(id), ASCII, |v.processing.value|, v.processing.value)) else None
    case _ => if v.position.Some? then PositionEntity(v.position.value, id) else None
  }

  /** What the tag with this id is read as, if there is one. */
  function OwnEntity(v: Values, id: nat): Option<Entity> {
    match id
    case 0x010F => AsText(id, v.make)
    case 0x0110 => AsText(id, v.product)
    case 0x0131 => AsText(id, v.product)
    case 0x829A => AsRatio(id, v.exposureTime)
    case 0x829D => AsRatio(id, v.aperture)
    case 0x8827 => AsNumber(id, SHORT, v.iso)
    case 0x0132 => AsText(id, v.date)
    case 0x9003 => AsText(id, v.date)
    case 0x9004 => AsText(id, v.date)
    case 0x9202 => AsRatio(id, v.aperture)
    case 0x920A => AsRatio(id, v.focalLength)
    case 0x9290 => AsText(id, v.subsec)
    case 0x9291 => AsText(id, v.subsec)
    case 0x9292 => AsText(id, v.subsec)
    case 0xA002 => AsNumber(id, LONG, v.width)
    case 0xA003 => AsNumber(id, LONG, v.height)
    case 0xA402 => AsNumber(id, SHORT, v.aeMode)
    case 0xA403 => AsNumber(id, SHORT, v.awbMode)
    case _ => GpsEntity(v, id)
  }

  /** The entities are those of the values, each where its id leads to, and blank ones. */
  ghost predicate Shows(entities: seq<Entity>, v: Values) {
    && (forall id: nat :: OwnEntity(v, id).Some? ==> OwnEntity(v, id).value in entities)
    && (forall e | e in entities :: e == BLANK || IsOwn(v, e))
  }

  ghost predicate IsOwn(v: Values, e: Entity) { exists id: nat :: OwnEntity(v, id) == Some(e) }

  /** The tags are read as the values say for these ids. */
  predicate Lists(v: Values, tags: seq<Tag>, ids: seq<nat>) {
    |tags| == |ids| && forall i | 0 <= i < |ids| :: OwnEntity(v, ids[i]) == Some(EntityOf(tags[i]))
  }

  lemma {:induction false} ListsShown(v: Values, tags: seq<Tag>, ids: seq<nat>)
    requires Lists(v, tags, ids)
    ensures forall i | 0 <= i < |ids| :: OwnEntity(v, ids[i]).value in Entities(tags)
    ensures forall e | e in Entities(tags) :: IsOwn(v, e)
  {
    forall i | 0 <= i < |ids|
      ensures OwnEntity(v, ids[i]).value in Entities(tags)
    {
      assert Entities(tags)[i] == EntityOf(tags[i]);
    }
    forall e | e in Entities(tags)
      ensures IsOwn(v, e)
    {
      var i :| 0 <= i < |tags| && Entities(tags)[i] == e;
      assert OwnEntity(v, ids[i]) == Some(e);
    }
  }

  const ZEROTH_IDS: seq<nat> := [0x010F, 0x0110, 0x0131]
  const HEAD_IDS: seq<nat> := [0x829A, 0x829D, 0x8827, 0x0132, 0x9003, 0x9004]
  const MIDDLE_IDS: seq<nat> := [0x9202, 0x920A, 0x9290, 0x9291, 0x9292, 0xA002, 0xA003]
  const TAIL_IDS: seq<nat> := [0xA402, 0xA403]
  const POSITION_IDS: seq<nat> := [0x0002, 0x0001, 0x0004, 0x0003, 0x0006, 0x0005]
  const STAMP_IDS: seq<nat> := [0x0007, 0x001D]

  lemma {:induction false} ZerothLists(v: Values)
    ensures Lists(v, ZerothList(v), ZEROTH_IDS)
  {
  }

  lemma {:induction false} HeadLists(v: Values)
    ensures Lists(v, ExifHead(v), HEAD_IDS)
  {
  }

  lemma {:induction false} MiddleLists(v: Values)
    ensures Lists(v, ExifMiddle(v), MIDDLE_IDS)
  {
  }

  lemma {:induction false} TailLists(v: Values)
    ensures Lists(v, ExifTail(v), TAIL_IDS)
  {
  }

  lemma {:induction false} TripleWords(t: Triple)
    ensures t.Words() == [t.a.num, t.a.denom, t.b.num, t.b.denom, t.c.num, t.c.denom]
  {
  }

  lemma {:induction false} PositionLists(v: Values)
    requires v.position.Some?
    ensures Lists(v, PositionList(v.position.value.(altitudeRef := 0)), POSITION_IDS)
  {
    TripleWords(v.position.value.latitude);
    TripleWords(v.position.value.longitude);
  }

  lemma {:induction false} StampLists(v: Values)
    requires v.stamp.Some?
    ensures Lists(v, StampList(v.stamp.value), STAMP_IDS)
  {
    TripleWords(v.stamp.value.time);
  }

  lemma {:induction false} ListsAppend(v: Values, a: seq<Tag>, b: seq<Tag>, ia: seq<nat>, ib: seq<nat>)
    requires Lists(v, a, ia) && Lists(v, b, ib)
    ensures Lists(v, a + b, ia + ib)
  {
  }

  function GpsIds(v: Values): seq<nat> {
    (if v.position.Some? then POSITION_IDS else []) + (if v.stamp.Some? then STAMP_IDS else [])
    + (if v.processing.Some? then [0x001B] else [])
  }

  lemma {:induction false} GpsLists(v: Values)
    ensures Lists(v, GpsList(AboveSea(v)), GpsIds(v))
  {
    var u := AboveSea(v);
    if v.position.Some? { PositionLists(v); }
    if v.stamp.Some? { StampLists(v); }
    var pos: seq<nat> := if v.position.Some? then POSITION_IDS else [];
    var stamp: seq<nat> := if v.stamp.Some? then STAMP_IDS else [];
    var processing: seq<nat> := if v.processing.Some? then [0x001B] else [];
    assert Lists(v, PositionPart(u), pos);
    assert Lists(v, StampPart(u), stamp);
    assert Lists(v, ProcessingPart(u), processing);
    ListsAppend(v, PositionPart(u), StampPart(u), pos, stamp);
    ListsAppend(v, PositionPart(u) + StampPart(u), ProcessingPart(u), pos + stamp, processing);
  }

  /** The ids of all tags that are read. */
  function OwnIds(v: Values): seq<nat> { ZEROTH_IDS + (HEAD_IDS + MIDDLE_IDS) + TAIL_IDS + GpsIds(v) }

  lemma {:induction false} AllLists(v: Values)
    ensures var c := Own(AboveSea(v)); Lists(v, c.zeroth + c.exif + c.exifTail + c.gps, OwnIds(v))
  {
    var c := Own(AboveSea(v));
    ZerothLists(v);
    HeadLists(v);
    MiddleLists(v);
    TailLists(v);
    GpsLists(v);
    ListsAppend(v, ExifHead(v), ExifMiddle(v), HEAD_IDS, MIDDLE_IDS);
    ListsAppend(v, c.zeroth, c.exif, ZEROTH_IDS, HEAD_IDS + MIDDLE_IDS);
    ListsAppend(v, c.zeroth + c.exif, c.exifTail, ZEROTH_IDS + (HEAD_IDS + MIDDLE_IDS), TAIL_IDS);
    ListsAppend(v, c.zeroth + c.exif + c.exifTail, c.gps, ZEROTH_IDS + (HEAD_IDS + MIDDLE_IDS) + TAIL_IDS, GpsIds(v));
  }

  /** An id with a value is one of those. */
  lemma {:induction false} OwnIdListed(v: Values, id: nat)
    requires OwnEntity(v, id).Some?
    ensures id in OwnIds(v)
  {
    var ids := OwnIds(v);
    assert ZEROTH_IDS + (HEAD_IDS + MIDDLE_IDS) + TAIL_IDS + GpsIds(v) == ids;
    if GpsEntity(v, id).Some? {
      assert id in GpsIds(v);
    } else {
      assert id in ZEROTH_IDS || id in HEAD_IDS || id in MIDDLE_IDS || id in TAIL_IDS;
    }
  }

  /**
   Reading the program's own block back: the parser finds, for each tag id, the value the program was given for it, with
   its type and count, and no other tag; but a position below sea level is read as one above.
   */
  lemma {:induction false} OwnValues(buf: seq<Byte>, v: Values)
    requires v.Ok() && Recorded(OwnDirs(v)) && |buf| < 0x1_0000_0000 && PlacesOf(OwnDirs(v)).end < 0x1_0000_0000
    requires HasPointers(OwnDirs(v), |Own(v).exif|) && BlockWritten(buf, OwnDirs(v), |Own(v).exif|)
    ensures ParseBlock(buf).Good? && Shows(ParseBlock(buf).value.entities, v)
  {
    OwnRoundTrip(buf, v);
    ShownAll(v, PlacesOf(OwnDirs(v)));
  }

  lemma {:induction false} FoundAre(v: Values, p: Places)
    ensures var c := Own(AboveSea(v));
            Written(c, p).entities == StartParser().entities + Entities(c.zeroth + c.exif + c.exifTail + c.gps)
  {
    var c := Own(AboveSea(v));
    ReadAsAppend(c.zeroth, c.exif);
    ReadAsAppend(c.zeroth + c.exif, c.exifTail);
    ReadAsAppend(c.zeroth + c.exif + c.exifTail, c.gps);
    assert Written(c, p).entities
        == StartParser().entities + (Entities(c.zeroth) + Entities(c.exif) + Entities(c.exifTail) + Entities(c.gps));
  }

  lemma {:induction false} ShownBy(v: Values, tags: seq<Tag>)
    requires Lists(v, tags, OwnIds(v))
    ensures Shows(StartParser().entities + Entities(tags), v)
  {
    ListsShown(v, tags, OwnIds(v));
    var found := StartParser().entities + Entities(tags);
    forall id: nat | OwnEntity(v, id).Some?
      ensures OwnEntity(v, id).value in found
    {
      OwnIdListed(v, id);
    }
    forall e | e in found
      ensures e == BLANK || IsOwn(v, e)
    {
      if e !in Entities(tags) { assert e in StartParser().entities; }
    }
  }

  lemma {:induction false} ShownAll(v: Values, p: Places)
    ensures Shows(Written(Own(AboveSea(v)), p).entities, v)
  {
    var c := Own(AboveSea(v));
    AllLists(v);
    FoundAre(v, p);
    ShownBy(v, c.zeroth + c.exif + c.exifTail + c.gps);
  }

  lemma {:induction false} SameTag(buf: seq<Byte>, o: nat, t: Tag, id: nat)
    requires HeadSays(buf, o, t) && ValueSays(buf, o, t) && id == t.id % 0x1_0000
    ensures HeadSays(buf, o, t.(id := id)) && ValueSays(buf, o, t.(id := id))
  {
  }

  lemma {:induction false} InteropWritten(buf: seq<Byte>, v: Values)
    requires v.Ok() && PlacesOf(OwnDirs(v)).end < 0x1_0000_0000
    requires HasPointers(OwnDirs(v), |Own(v).exif|) && BlockWritten(buf, OwnDirs(v), |Own(v).exif|)
    ensures TagsOk(InteropList()) && IfdAt(buf, PlacesOf(OwnDirs(v)).interop, Slots(InteropList()))
  {
    OwnFine(v);
    var d := OwnDirs(v);
    assert Linked(d, |Own(v).exif|, PlacesOf(d)).interop == d.interop;
  }

  /** The interoperability directory, which the parser does not read: it names the rule `R98` and its version `0100`. */
  lemma {:induction false} InteropRead(buf: seq<Byte>, v: Values)
    requires v.Ok() && |buf| < 0x1_0000_0000 && PlacesOf(OwnDirs(v)).end < 0x1_0000_0000
    requires HasPointers(OwnDirs(v), |Own(v).exif|) && BlockWritten(buf, OwnDirs(v), |Own(v).exif|)
    ensures InteropSays(buf, PlacesOf(OwnDirs(v)).interop)
  {
    InteropWritten(buf, v);
    InteropEntries(buf, PlacesOf(OwnDirs(v)).interop);
  }

  lemma {:induction false} InteropEntries(buf: seq<Byte>, at: nat)
    requires TagsOk(InteropList()) && IfdAt(buf, at, Slots(InteropList())) && |buf| < 0x1_0000_0000
    ensures InteropSays(buf, at)
  {
    var tags := InteropList();
    InteropTags();
    EntrySays(buf, at, tags, 0, at + 2, RULE);
    EntrySays(buf, at, tags, 1, at + 14, VERSION);
  }

  lemma {:induction false} InteropTags()
    ensures |InteropList()| == 2
    ensures InteropList()[0].(id := InteropList()[0].id % 0x1_0000) == RULE
    ensures InteropList()[1].(id := InteropList()[1].id % 0x1_0000) == VERSION
  {
  }

  /** The entry at `o` is that of tag `i`, whose 16-bit id, type and words are those of `t`. */
  lemma {:induction false} EntrySays(buf: seq<Byte>, at: nat, tags: seq<Tag>, i: nat, o: nat, t: Tag)
    requires TagsOk(tags) && IfdAt(buf, at, Slots(tags)) && |buf| < 0x1_0000_0000
    requires i < |tags| && o == at + 2 + 12 * i && t == tags[i].(id := tags[i].id % 0x1_0000)
    ensures at + 2 <= |buf| && Number(buf, at, 2) == |tags| && HeadSays(buf, o, t) && ValueSays(buf, o, t)
  {
    EntryBytes(buf, at, Slots(tags), i, tags[i]);
    SameTag(buf, o, tags[i], t.id);
  }

  const RULE := Tag(1, KAscii, [0x52, 0x39, 0x38, 0])
  const VERSION := Tag(2, KUndefined, [0x30, 0x31, 0x30, 0x30])

  predicate InteropSays(buf: seq<Byte>, at: nat) {
    && at + 2 <= |buf| && Number(buf, at, 2) == 2
    && HeadSays(buf, at + 2, RULE) && ValueSays(buf, at + 2, RULE)
    && HeadSays(buf, at + 14, VERSION) && ValueSays(buf, at + 14, VERSION)
  }
}
