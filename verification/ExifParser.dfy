/**
 The Exif parser, and the proof that it reads back every readable tag of a directory as it was written.
 */
module ExifParser {
  import opened Bytes
  import opened ExifFormat

  /** A parsed tag. */
  datatype Entity = Entity(id: nat, code: nat, count: nat, words: seq<nat>)

  const BLANK := Entity(0, 0, 0, [])

  /** The list of parsed tags starts with this many blank ones. */
  const BLANKS: nat := 23

  /** The full id of a 16-bit tag id; 0 for one the parser does not know. */
  function TagIdByExifId(id: nat): nat {
    match id
    case 0x8769 => TagId(107, 0x8769)
    case 0x8825 => TagId(109, 0x8825)
    case 0xA005 => TagId(172, 0xA005)
    case 0x0112 => TagId(47, 0x0112)
    case 0x829A => TagId(140, 0x829A)
    case 0x829D => TagId(141, 0x829D)
    case 0x8827 => TagId(144, 0x8827)
    case 0x9202 => TagId(152, 0x9202)
    case 0x920A => TagId(160, 0x920A)
    case 0xA002 => TagId(169, 0xA002)
    case 0xA003 => TagId(170, 0xA003)
    case 0xA403 => TagId(186, 0xA403)
    case 0xA402 => TagId(185, 0xA402)
    case 0x0132 => TagId(69, 0x0132)
    case 0x9003 => TagId(147, 0x9003)
    case 0x9004 => TagId(148, 0x9004)
    case 0x9290 => TagId(164, 0x9290)
    case 0x9291 => TagId(165, 0x9291)
    case 0x9292 => TagId(166, 0x9292)
    case 0x010F => TagId(44, 0x010F)
    case 0x0110 => TagId(45, 0x0110)
    case 0x0131 => TagId(68, 0x0131)
    case 0x0001 => TagId(1, 0x0001)
    case 0x0002 => TagId(2, 0x0002)
    case 0x0003 => TagId(3, 0x0003)
    case 0x0004 => TagId(4, 0x0004)
    case 0x0005 => TagId(5, 0x0005)
    case 0x0006 => TagId(6, 0x0006)
    case 0x0007 => TagId(7, 0x0007)
    case 0x001D => TagId(29, 0x001D)
    case 0x001B => TagId(27, 0x001B)
    case _ => 0
  }

  predicate IsPointer(id: nat) { id == EXIF_IFD_PTR || id == GPS_IFD_PTR || id == INTEROP_IFD_PTR }

  datatype Parser = Parser(entities: seq<Entity>, exifPtr: nat, interopPtr: nat, gpsPtr: nat, tiff: nat) {
    function Add(e: Entity): Parser { this.(entities := entities + [e]) }
  }

  /** The parser accepts, rejects, or reads outside the block. */
  datatype Outcome<+T> = Good(value: T) | BadValue | OutOfRange

  /** `n` 32-bit words from `at` on. */
  function Words32(bin: seq<Byte>, at: nat, n: nat): (w: seq<nat>)
    requires at + 4 * n <= |bin|
    ensures |w| == n
  {
    seq(n, i requires 0 <= i < n => U32(bin, at + 4 * i))
  }

  function Chars(bin: seq<Byte>, at: nat, n: nat): (w: seq<nat>)
    requires at + n <= |bin|
    ensures |w| == n
  {
    seq(n, i requires 0 <= i < n => bin[at + i])
  }

  function Referred(bin: seq<Byte>, d: nat, tiff: nat): nat
    requires d + 4 <= |bin|
  {
    (U32(bin, d) + tiff) % 0x1_0000_0000
  }

  function SetPointer(p: Parser, id: nat, v: nat): Parser {
    var target := (v + TIFF_BASE) % 0x1_0000_0000;
    if id == EXIF_IFD_PTR then p.(exifPtr := target)
    else if id == GPS_IFD_PTR then p.(gpsPtr := target)
    else p.(interopPtr := target)
  }

  /** The data of one tag, by its type; `d` is the place of its data field. */
  function TagData(bin: seq<Byte>, d: nat, p: Parser, id: nat, code: nat, count: nat): Outcome<Parser> {
    if d >= MAX_APP1 then BadValue
    else if code == 3 then
      if d + 2 > |bin| then OutOfRange else Good(p.Add(Entity(id, code, count, [U16(bin, d)])))
    else if code == 4 then
      if d + 4 > |bin| then OutOfRange
      else if IsPointer(id) then Good(SetPointer(p, id, U32(bin, d)))
      else Good(p.Add(Entity(id, code, count, [U32(bin, d)])))
    else if code == 5 then
      var n := if count > 1 then count else 1;
      if d + 4 > |bin| || Referred(bin, d, p.tiff) + 8 * n > |bin| then OutOfRange
      else Good(p.Add(Entity(id, code, count, Words32(bin, Referred(bin, d, p.tiff), 2 * n))))
    else if code == 2 then
      if count <= 4 then
        if d + count > |bin| then OutOfRange else Good(p.Add(Entity(id, code, count, Chars(bin, d, count))))
      else if d + 4 > |bin| || Referred(bin, d, p.tiff) + count > |bin| then OutOfRange
      else Good(p.Add(Entity(id, code, count, Chars(bin, Referred(bin, d, p.tiff), count))))
    else if code == 1 then
      // the byte is shifted out of an 8-bit value
      if d >= |bin| then OutOfRange else Good(p.Add(Entity(id, code, count, [bin[d] as nat * 0x100 % 0x100])))
    else BadValue
  }

  function ParseEntry(bin: seq<Byte>, at: nat, p: Parser): Outcome<Parser> {
    if at + 8 > |bin| then OutOfRange
    else TagData(bin, at + 8, p, TagIdByExifId(U16(bin, at)), U16(bin, at + 2), U32(bin, at + 4))
  }

  /** How one entry at a given place changes the parser. */
  type Reader = (nat, Parser) -> Outcome<Parser>

  function EntryReader(bin: seq<Byte>): Reader { (at: nat, p: Parser) => ParseEntry(bin, at, p) }

  /** The first `n` entries from `at` on; one that is not good ends the loop. */
  function ParseEntries(read: Reader, at: nat, n: nat, p: Parser): Outcome<Parser> {
    if n == 0 then Good(p)
    else
      var before := ParseEntries(read, at, n - 1, p);
      if before.Good? then read(at + 12 * (n - 1), before.value) else before
  }

  function ParseIfd(bin: seq<Byte>, at: nat, p: Parser): Outcome<Parser> {
    if at >= MAX_APP1 then BadValue
    else if at + 2 > |bin| then OutOfRange
    else ParseEntries(EntryReader(bin), at + 2, U16(bin, at), p)
  }

  predicate HeaderOk(bin: seq<Byte>)
    requires |bin| >= FIRST_IFD
  {
    && U16(bin, 0) == APP1_MARKER && U32(bin, 4) == EXIF_HEADER && U16(bin, 10) == TIFF_BIG_ENDIAN
    && U16(bin, 12) == TIFF_HEADER && U32(bin, 14) == ZERO_IFD_OFFSET
  }

  function StartParser(): Parser { Parser(seq(BLANKS, i => BLANK), 0, 0, 0, TIFF_BASE) }

  /** The whole block: its header, then the zeroth, the Exif and the GPS directory. */
  function ParseBlock(bin: seq<Byte>): Outcome<Parser> {
    if |bin| < FIRST_IFD then OutOfRange
    else if !HeaderOk(bin) then BadValue
    else
      var zeroth := ParseIfd(bin, FIRST_IFD, StartParser());
      if !zeroth.Good? then zeroth
      else
        var exif := ParseIfd(bin, zeroth.value.exifPtr, zeroth.value);
        if !exif.Good? then exif else ParseIfd(bin, exif.value.gpsPtr, exif.value)
  }

  // ---------------------------------------------------------------- reading what was written

  /** The entity a tag should be read as. */
  function EntityOf(t: Tag): Entity { Entity(t.id, Code(t.kind), t.Count(), t.words) }

  predicate Known(t: Tag) { TagIdByExifId(t.id % 0x1_0000) == t.id }

  /** The types and counts the parser handles. */
  predicate HandledShape(t: Tag) {
    match t.kind
    case KShort => |t.words| == 1
    case KLong => |t.words| == 1
    case KRational => |t.words| >= 2
    case KAscii => true
    case KByte => |t.words| == 1
    case _ => false
  }

  /** The tags the parser takes in: known ones of a type and count it handles. */
  predicate Handled(t: Tag) { Known(t) && !IsPointer(t.id) && HandledShape(t) }

  /** What becomes of them: a byte turns into zero. */
  function AsRead(t: Tag): Tag { if t.kind.KByte? then t.(words := [0]) else t }

  /** The tags the parser reads back as they were written. */
  predicate Readable(t: Tag) { Handled(t) && AsRead(t) == t }

  predicate RightShape(t: Tag) { HandledShape(t) && AsRead(t) == t }

  /** Words of four bytes read back as written. */
  lemma {:induction false} ReadWords(buf: seq<Byte>, at: nat, words: seq<nat>, k: Kind, n: nat, i: nat)
    requires WordSize(k) == 4 && WordsFit(words, k) && i < n <= |words| && BytesAt(buf, at, EncodeFirst(words, k, n))
    ensures at + 4 * i + 4 <= |buf| && U32(buf, at + 4 * i) == words[i]
  {
    SplitBytes(buf, at, EncodeFirst(words, k, n - 1), WordBytes(words[n - 1], k));
    if i < n - 1 {
      ReadWords(buf, at, words, k, n - 1, i);
    } else {
      ReadAt32(buf, at + 4 * i, words[i]);
    }
  }

  lemma {:induction false} ReadWords32(buf: seq<Byte>, at: nat, words: seq<nat>, k: Kind)
    requires WordSize(k) == 4 && WordsFit(words, k) && BytesAt(buf, at, Encode(words, k))
    ensures Words32(buf, at, |words|) == words
  {
    forall i | 0 <= i < |words|
      ensures Words32(buf, at, |words|)[i] == words[i]
    {
      ReadWords(buf, at, words, k, |words|, i);
    }
  }

  lemma {:induction false} ReadChars(buf: seq<Byte>, at: nat, words: seq<nat>, k: Kind)
    requires WordSize(k) == 1 && WordsFit(words, k) && BytesAt(buf, at, Encode(words, k))
    ensures Chars(buf, at, |words|) == words
  {
    EncodeIsBytes(words, k, |words|);
    forall i | 0 <= i < |words|
      ensures Chars(buf, at, |words|)[i] == words[i]
    {
      assert buf[at + i] == Encode(words, k)[i];
    }
  }

  /** The fields of a tag are at `o`, and its value is inline or where the data field says. */
  predicate Present(buf: seq<Byte>, o: nat, t: Tag)
    requires t.Ok()
  {
    && o + 12 <= |buf|
    && U16(buf, o) == t.id % 0x1_0000 && U16(buf, o + 2) == Code(t.kind) && U32(buf, o + 4) == t.Count()
    && BytesAt(buf, if t.Inline() then o + 8 else Referred(buf, o + 8, TIFF_BASE), Encode(t.words, t.kind))
  }

  /** The value of an entry is inline or where the data field says. */
  lemma {:induction false} ValuePresent(buf: seq<Byte>, o: nat, s: Slot, value: nat)
    requires |s.head| == 8 && TIFF_BASE <= value && (!s.Inline() ==> value < 0x1_0000_0000)
    requires BytesAt(buf, o, Entry(s, value - TIFF_BASE)) && (!s.Inline() ==> BytesAt(buf, value, s.value))
    ensures BytesAt(buf, o, s.head) && o + 12 <= |buf|
    ensures BytesAt(buf, if s.Inline() then o + 8 else Referred(buf, o + 8, TIFF_BASE), s.value)
  {
    SplitBytes(buf, o, s.head, DataField(s, value - TIFF_BASE));
    if s.Inline() {
      SplitBytes(buf, o + 8, s.value, Zeros(4 - |s.value|));
    } else {
      ReadAt32(buf, o + 8, value - TIFF_BASE);
    }
  }

  lemma {:induction false} SlotPresent(buf: seq<Byte>, at: nat, slots: seq<Slot>, i: nat)
    requires IfdAt(buf, at, slots) && i < |slots| && |buf| < 0x1_0000_0000
    ensures BytesAt(buf, at + 2 + 12 * i, slots[i].head) && at + 2 + 12 * i + 12 <= |buf|
    ensures BytesAt(buf, if slots[i].Inline() then at + 2 + 12 * i + 8
                    else Referred(buf, at + 2 + 12 * i + 8, TIFF_BASE), slots[i].value)
  {
    assert EntryAt(buf, at, slots, i);
    assert ValueIn(buf, at, slots, i);
    ValueBounds(at, slots, i);
    ValuePresent(buf, at + 2 + 12 * i, slots[i], ValueAt(at, slots, i));
  }

  /** Every tag of a directory is present. */
  lemma {:induction false} TagPresent(buf: seq<Byte>, at: nat, tags: seq<Tag>, i: nat)
    requires TagsOk(tags) && IfdAt(buf, at, Slots(tags)) && i < |tags| && |buf| < 0x1_0000_0000
    ensures Present(buf, at + 2 + 12 * i, tags[i])
  {
    SlotPresent(buf, at, Slots(tags), i);
    HeadFields(buf, at + 2 + 12 * i, tags[i]);
  }

  lemma {:induction false} ReadData(buf: seq<Byte>, o: nat, t: Tag, p: Parser, id: nat)
    requires t.Ok() && Present(buf, o, t) && p.tiff == TIFF_BASE && o + 8 < MAX_APP1
    requires HandledShape(t) && (t.kind.KLong? ==> !IsPointer(id))
    ensures TagData(buf, o + 8, p, id, Code(t.kind), t.Count())
         == Good(p.Add(Entity(id, Code(t.kind), t.Count(), AsRead(t).words)))
  {
    var d := o + 8;
    match t.kind
    case KRational => ReadWords32(buf, Referred(buf, d, TIFF_BASE), t.words, KRational);
    case KAscii => ReadChars(buf, if t.Inline() then d else Referred(buf, d, TIFF_BASE), t.words, KAscii);
    case KShort => ReadShort(buf, d, t.words);
    case KLong => ReadLong(buf, d, t.words);
    case KByte =>
  }

  lemma {:induction false} ReadShort(buf: seq<Byte>, d: nat, words: seq<nat>)
    requires |words| == 1 && WordsFit(words, KShort) && BytesAt(buf, d, Encode(words, KShort))
    ensures [U16(buf, d)] == words
  {
    assert EncodeFirst(words, KShort, 1) == EncodeFirst(words, KShort, 0) + Bytes16(words[0]) == Bytes16(words[0]);
    ReadAt16(buf, d, words[0]);
  }

  lemma {:induction false} ReadLong(buf: seq<Byte>, d: nat, words: seq<nat>)
    requires |words| == 1 && WordsFit(words, KLong) && BytesAt(buf, d, Encode(words, KLong))
    ensures [U32(buf, d)] == words
  {
    assert EncodeFirst(words, KLong, 1) == EncodeFirst(words, KLong, 0) + Bytes32(words[0]) == Bytes32(words[0]);
    ReadAt32(buf, d, words[0]);
  }

  /** A tag that is handled is read as it was written, but for a byte, which is read as zero. */
  lemma {:induction false} ReadTag(buf: seq<Byte>, o: nat, t: Tag, p: Parser)
    requires t.Ok() && Present(buf, o, t) && p.tiff == TIFF_BASE && o + 8 < MAX_APP1 && Handled(t)
    ensures ParseEntry(buf, o, p) == Good(p.Add(EntityOf(AsRead(t))))
  {
    ReadData(buf, o, t, p, t.id);
  }

  predicate Pointer(t: Tag) { Known(t) && IsPointer(t.id) && t.kind == KLong && |t.words| == 1 }

  /** A pointer tag sets the parser's pointer and adds nothing to the list. */
  lemma {:induction false} ReadPointer(buf: seq<Byte>, o: nat, t: Tag, p: Parser)
    requires t.Ok() && Present(buf, o, t) && o + 8 < MAX_APP1 && Pointer(t)
    ensures ParseEntry(buf, o, p) == Good(SetPointer(p, t.id, t.words[0]))
  {
    ReadLong(buf, o + 8, t.words);
  }

  /** What an entry adds to the parser. */
  datatype Reading = Added(e: Entity) | Pointed(id: nat, v: nat)

  function ApplyReading(p: Parser, r: Reading): Parser {
    match r
    case Added(e) => p.Add(e)
    case Pointed(id, v) => SetPointer(p, id, v)
  }

  function ReadFirst(p: Parser, rs: seq<Reading>, n: nat): (q: Parser)
    requires n <= |rs|
    ensures q.tiff == p.tiff
  {
    if n == 0 then p else ApplyReading(ReadFirst(p, rs, n - 1), rs[n - 1])
  }

  predicate Plain(t: Tag) { Handled(t) || Pointer(t) }

  /** A pointer tag sets a pointer, any other plain tag adds an entity. */
  function ReadingOf(t: Tag): Reading {
    if IsPointer(t.id) && t.words != [] then Pointed(t.id, t.words[0]) else Added(EntityOf(AsRead(t)))
  }

  function Readings(tags: seq<Tag>): (rs: seq<Reading>)
    ensures |rs| == |tags|
  {
    seq(|tags|, i requires 0 <= i < |tags| => ReadingOf(tags[i]))
  }

  /** The reader makes `r` of the entry at `o`, whatever came before. */
  ghost predicate Reads(read: Reader, o: nat, r: Reading) {
    forall p: Parser | p.tiff == TIFF_BASE :: read(o, p) == Good(ApplyReading(p, r))
  }

  ghost predicate ReadsAt(read: Reader, at: nat, rs: seq<Reading>, i: nat)
    requires i < |rs|
  {
    Reads(read, at + 12 * i, rs[i])
  }

  ghost predicate RowReads(read: Reader, at: nat, rs: seq<Reading>, n: nat)
    requires n <= |rs|
  {
    forall i: nat | i < n :: ReadsAt(read, at, rs, i)
  }

  /** Entries in a row add up. */
  lemma {:induction false} ReadRow(read: Reader, at: nat, rs: seq<Reading>, n: nat, p: Parser)
    requires n <= |rs| && p.tiff == TIFF_BASE && RowReads(read, at, rs, n)
    ensures ParseEntries(read, at, n, p) == Good(ReadFirst(p, rs, n))
  {
    if n > 0 {
      ReadRow(read, at, rs, n - 1, p);
      var q := ReadFirst(p, rs, n - 1);
      assert ReadsAt(read, at, rs, n - 1) && Reads(read, at + 12 * (n - 1), rs[n - 1]);
      assert read(at + 12 * (n - 1), q) == Good(ApplyReading(q, rs[n - 1]));
    }
  }

  lemma {:induction false} ReadOne(buf: seq<Byte>, o: nat, t: Tag, p: Parser)
    requires t.Ok() && Plain(t) && o + 8 < MAX_APP1 && Present(buf, o, t) && p.tiff == TIFF_BASE
    ensures ParseEntry(buf, o, p) == Good(ApplyReading(p, ReadingOf(t)))
  {
    if Pointer(t) { ReadPointer(buf, o, t, p); } else { ReadTag(buf, o, t, p); }
  }

  lemma {:induction false} TagReads(buf: seq<Byte>, at: nat, tags: seq<Tag>, k: nat, p: Parser)
    requires TagsOk(tags) && IfdAt(buf, at, Slots(tags)) && k < |tags| && Plain(tags[k])
    requires EntriesFit(at, Slots(tags)) && |buf| < 0x1_0000_0000
    requires p.tiff == TIFF_BASE
    ensures ParseEntry(buf, at + 2 + 12 * k, p) == Good(ApplyReading(p, ReadingOf(tags[k])))
  {
    TagPresent(buf, at, tags, k);
    ReadOne(buf, at + 2 + 12 * k, tags[k], p);
  }

  predicate PlainAt(tags: seq<Tag>, k: nat)
    requires k < |tags|
  {
    Plain(tags[k])
  }

  predicate AllPlain(tags: seq<Tag>) { forall k: nat | k < |tags| :: PlainAt(tags, k) }

  /** A directory whose tags the parser takes in. */
  predicate PlainIfd(buf: seq<Byte>, at: nat, tags: seq<Tag>) {
    && TagsOk(tags) && IfdAt(buf, at, Slots(tags)) && EntriesFit(at, Slots(tags)) && |buf| < 0x1_0000_0000
    && AllPlain(tags)
  }

  lemma {:induction false} EntryReads(buf: seq<Byte>, at: nat, tags: seq<Tag>, i: nat)
    requires PlainIfd(buf, at, tags) && i < |tags|
    ensures ReadsAt(EntryReader(buf), at + 2, Readings(tags), i)
  {
    assert PlainAt(tags, i);
    forall p: Parser | p.tiff == TIFF_BASE
      ensures EntryReader(buf)(at + 2 + 12 * i, p) == Good(ApplyReading(p, ReadingOf(tags[i])))
    {
      TagReads(buf, at, tags, i, p);
    }
  }

  lemma {:induction false} EntriesRead(buf: seq<Byte>, at: nat, tags: seq<Tag>, rs: seq<Reading>, read: Reader)
    requires PlainIfd(buf, at, tags) && rs == Readings(tags) && read == EntryReader(buf)
    ensures RowReads(read, at + 2, rs, |tags|)
  {
    var o := at + 2;
    forall i: nat | i < |tags|
      ensures ReadsAt(read, o, rs, i)
    {
      EntryReads(buf, at, tags, i);
    }
  }

  lemma {:induction false} ReadCount(buf: seq<Byte>, at: nat, tags: seq<Tag>)
    requires TagsOk(tags) && IfdAt(buf, at, Slots(tags))
    ensures at + 2 <= |buf| && U16(buf, at) == |tags|
  {
    ReadAt16(buf, at, |tags|);
  }

  lemma {:induction false} ReadIfdRow(buf: seq<Byte>, at: nat, rs: seq<Reading>, p: Parser)
    requires p.tiff == TIFF_BASE && at < MAX_APP1 && at + 2 <= |buf| && U16(buf, at) == |rs|
    requires RowReads(EntryReader(buf), at + 2, rs, |rs|)
    ensures ParseIfd(buf, at, p) == Good(ReadFirst(p, rs, |rs|))
  {
    ReadRow(EntryReader(buf), at + 2, rs, |rs|, p);
  }

  /** A directory of handled and pointer tags is parsed as the list of tags it was written from. */
  lemma {:induction false} ReadIfd(buf: seq<Byte>, at: nat, tags: seq<Tag>, p: Parser)
    requires PlainIfd(buf, at, tags) && p.tiff == TIFF_BASE
    ensures ParseIfd(buf, at, p) == Good(ReadFirst(p, Readings(tags), |tags|))
  {
    ReadCount(buf, at, tags);
    EntriesRead(buf, at, tags, Readings(tags), EntryReader(buf));
    ReadIfdRow(buf, at, Readings(tags), p);
  }

  lemma {:induction false} DataWords(buf: seq<Byte>, o: nat, t: Tag, p: Parser, id: nat)
    requires t.Ok() && Present(buf, o, t) && p.tiff == TIFF_BASE && o + 8 < MAX_APP1 && !IsPointer(id) && !RightShape(t)
    ensures TagData(buf, o + 8, p, id, Code(t.kind), t.Count())
         != Good(p.Add(Entity(id, Code(t.kind), t.Count(), t.words)))
  {
    var r := TagData(buf, o + 8, p, id, Code(t.kind), t.Count());
    var e := Entity(id, Code(t.kind), t.Count(), t.words);
    assert p.Add(e).entities[|p.entities|] == e;
    if r.Good? { assert r.value.entities[|p.entities|].words != t.words; }
  }

  /** What the data of a tag adds to the list, if anything, has the id looked up. */
  lemma {:induction false} DataId(buf: seq<Byte>, d: nat, p: Parser, id: nat, code: nat, count: nat)
    ensures var r := TagData(buf, d, p, id, code, count);
            r.Good? && r.value.entities != p.entities
            ==> |r.value.entities| == |p.entities| + 1 && r.value.entities[|p.entities|].id == id
  {
  }

  /**
   Which tags survive, exactly: a tag that is present and not a pointer is read as it was written if and only if it is
   readable. A nonzero byte, an undefined or signed value, an unknown id, or several shorts or longs are not.
   */
  lemma {:induction false} ReadTagIff(buf: seq<Byte>, o: nat, t: Tag, p: Parser)
    requires t.Ok() && Present(buf, o, t) && p.tiff == TIFF_BASE && o + 8 < MAX_APP1 && !IsPointer(t.id)
    ensures ParseEntry(buf, o, p) == Good(p.Add(EntityOf(t))) <==> Readable(t)
  {
    if Readable(t) {
      ReadTag(buf, o, t, p);
    } else if Known(t) {
      DataWords(buf, o, t, p, t.id);
    } else {
      DataId(buf, o + 8, p, TagIdByExifId(U16(buf, o)), U16(buf, o + 2), U32(buf, o + 4));
      assert p.Add(EntityOf(t)).entities[|p.entities|].id == t.id;
    }
  }
}
