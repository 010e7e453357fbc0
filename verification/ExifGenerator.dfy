/**
 The Exif writer: one object that writes directories into the output buffer, keeping values of more than four bytes
 in a helper buffer until the directory is closed.
 */
module ExifGenerator {
  import opened Bytes
  import opened ExifFormat
  import opened ExifWriter
  import opened ExifBlock

  const BAD_VALUE: int := -22

  class Generator {
    var buffer: array<Byte>
    const helper: array<Byte>
    var current: nat
    var helperOffset: nat
    var tiffHeader: nat
    var app1Begin: nat
    var gpsPtr: nat
    var newGps: nat
    var interopPtr: nat
    var newInterop: nat
    var exifPtr: nat
    var newExif: nat
    var tagCount: nat
    var tagCountOffset: nat
    var app1Present: bool
    var overflow: bool

    ghost predicate Valid()
      reads this
    {
      MAX_APP1 <= buffer.Length < 0x1_0000_0000 && helper.Length == MAX_APP1 && buffer != helper
    }

    constructor (output: array<Byte>)
      requires MAX_APP1 <= output.Length < 0x1_0000_0000
      ensures Valid() && buffer == output && fresh(helper) && helperOffset == 0 && !app1Present && !overflow
    {
      buffer, helper := output, new Byte[MAX_APP1];
      current, helperOffset, tiffHeader, app1Begin, tagCount, tagCountOffset := 0, 0, 0, 0, 0, 0;
      gpsPtr, newGps, interopPtr, newInterop, exifPtr, newExif := 0, 0, 0, 0, 0, 0;
      app1Present, overflow := false, false;
    }

    // -------------------------------------------------------------- bytes

    /** `k` bytes at `off` are within the block. */
    static predicate Room(off: nat, k: nat) { off + k <= MAX_APP1 }

    method WriteByte(v: Byte, b: array<Byte>, off: nat) returns (next: nat)
      requires b.Length >= MAX_APP1
      modifies b, this`overflow
      ensures Room(off, 1) ==> b[..] == Put(old(b[..]), off, [v]) && next == off + 1 && overflow == old(overflow)
      ensures !Room(off, 1) ==> b[..] == old(b[..]) && next == off && overflow
    {
      if off >= MAX_APP1 {
        overflow := true;
        return off;
      }
      b[off] := v;
      return off + 1;
    }

    method WriteShort(v: nat, b: array<Byte>, off: nat) returns (next: nat)
      requires v < 0x1_0000 && b.Length >= MAX_APP1
      modifies b, this`overflow
      ensures Room(off, 2) ==> b[..] == Put(old(b[..]), off, Bytes16(v)) && next == off + 2 && overflow == old(overflow)
      ensures !Room(off, 2) ==> b[..] == old(b[..]) && next == off && overflow
    {
      if off + 1 >= MAX_APP1 {
        overflow := true;
        return off;
      }
      Digits16(v);
      b[off] := v / 0x100;
      b[off + 1] := v % 0x100;
      return off + 2;
    }

    method WriteLong(v: nat, b: array<Byte>, off: nat) returns (next: nat)
      requires v < 0x1_0000_0000 && b.Length >= MAX_APP1
      modifies b, this`overflow
      ensures Room(off, 4) ==> b[..] == Put(old(b[..]), off, Bytes32(v)) && next == off + 4 && overflow == old(overflow)
      ensures !Room(off, 4) ==> b[..] == old(b[..]) && next == off && overflow
    {
      if off + 3 >= MAX_APP1 {
        overflow := true;
        return off;
      }
      Digits32(v);
      b[off] := v / 0x100_0000;
      b[off + 1] := v / 0x1_0000 % 0x100;
      b[off + 2] := v / 0x100 % 0x100;
      b[off + 3] := v % 0x100;
      return off + 4;
    }

    /** Refuses the last byte of the block too, unlike the other writers. */
    method WriteNBytes(data: seq<Byte>, b: array<Byte>, off: nat) returns (next: nat)
      requires b.Length >= MAX_APP1
      modifies b, this`overflow
      ensures Room(off, |data| + 1) ==>
                b[..] == Put(old(b[..]), off, data) && next == off + |data| && overflow == old(overflow)
      ensures !Room(off, |data| + 1) ==> b[..] == old(b[..]) && next == off && overflow
    {
      if off + |data| >= MAX_APP1 {
        overflow := true;
        return off;
      }
      forall i | 0 <= i < |data| { b[off + i] := data[i]; }
      return off + |data|;
    }

    method OverwriteShort(v: nat, b: array<Byte>, off: nat)
      requires v < 0x1_0000 && b.Length >= MAX_APP1
      modifies b, this`overflow
      ensures Room(off, 2) ==> b[..] == Put(old(b[..]), off, Bytes16(v)) && overflow == old(overflow)
      ensures !Room(off, 2) ==> b[..] == old(b[..]) && overflow
    {
      if off + 1 >= MAX_APP1 {
        overflow := true;
        return;
      }
      Digits16(v);
      b[off] := v / 0x100;
      b[off + 1] := v % 0x100;
    }

    // -------------------------------------------------------------- tags

    /** Writing up to `k` bytes moved an offset: by all of them, unless there was an overflow. */
    static predicate Moved(off: nat, next: nat, k: nat, flag: bool) {
      off <= next <= off + k && (flag || next == off + k)
    }

    method WriteWord(w: nat, k: Kind, b: array<Byte>, off: nat) returns (next: nat)
      requires w < Limit(k) && b.Length >= MAX_APP1
      modifies b, this`overflow
      ensures Room(off, WordSize(k)) ==> b[..] == Put(old(b[..]), off, WordBytes(w, k)) && overflow == old(overflow)
      ensures Room(off, WordSize(k)) ==> next == off + WordSize(k)
      ensures !Room(off, WordSize(k)) ==> b[..] == old(b[..]) && next == off && overflow
    {
      if WordSize(k) == 1 {
        next := WriteByte(w, b, off);
      } else if WordSize(k) == 2 {
        next := WriteShort(w, b, off);
      } else {
        next := WriteLong(w, b, off);
      }
    }

    /** One more word of a value. */
    method WriteNextWord(words: seq<nat>, k: Kind, i: nat, b: array<Byte>, off: nat, ghost start: nat,
                         ghost was: seq<Byte>)
      returns (next: nat)
      requires WordsFit(words, k) && i < |words| && b.Length >= MAX_APP1 && |was| == b.Length
      requires Room(start, Span(i, k)) ==>
                 off == start + Span(i, k) && b[..] == Put(was, start, EncodeFirst(words, k, i))
      modifies b, this`overflow
      ensures Room(start, Span(i + 1, k)) ==> next == start + Span(i + 1, k) && overflow == old(overflow)
      ensures Room(start, Span(i + 1, k)) ==> b[..] == Put(was, start, EncodeFirst(words, k, i + 1))
      ensures if Room(off, WordSize(k)) then next == off + WordSize(k) else next == off && overflow
      ensures WordSize(k) > 1 ==> next % 2 == off % 2
      ensures old(overflow) ==> overflow
    {
      SpanGrows(i, i + 1, k);
      if Room(start, Span(i + 1, k)) { PutWord(was, start, words, k, i); }
      next := WriteWord(words[i], k, b, off);
    }

    /** The value of a tag, word by word; words that do not fit are skipped. */
    method WriteWords(words: seq<nat>, k: Kind, b: array<Byte>, off: nat) returns (next: nat)
      requires WordsFit(words, k) && b.Length >= MAX_APP1
      modifies b, this`overflow
      ensures Room(off, Span(|words|, k)) ==> b[..] == Put(old(b[..]), off, Encode(words, k))
      ensures Room(off, Span(|words|, k)) ==> next == off + Span(|words|, k) && overflow == old(overflow)
      ensures Moved(off, next, Span(|words|, k), overflow) && (old(overflow) ==> overflow)
      ensures next == off || next <= MAX_APP1
      ensures WordSize(k) > 1 ==> next % 2 == off % 2
    {
      next := off;
      var i := 0;
      ghost var was := b[..];
      while i < |words|
        invariant i <= |words| && (old(overflow) ==> overflow) && Moved(off, next, Span(i, k), overflow)
        invariant next == off || next <= MAX_APP1
        invariant WordSize(k) > 1 ==> next % 2 == off % 2
        invariant Room(off, Span(i, k)) ==> next == off + Span(i, k) && overflow == old(overflow)
        invariant Room(off, Span(i, k)) ==> b[..] == Put(was, off, EncodeFirst(words, k, i))
      {
        SpanGrows(i, i + 1, k);
        next := WriteNextWord(words, k, i, b, next, off, was);
        i := i + 1;
      }
    }

    /** The value of a tag: text and undefined data all or nothing, other values word by word. */
    method WriteTagValue(t: Tag, b: array<Byte>, off: nat) returns (next: nat)
      requires Writable(t) && b.Length >= MAX_APP1
      modifies b, this`overflow
      ensures Room(off, t.DataLen() + 1) ==> b[..] == Put(old(b[..]), off, Encode(t.words, t.kind))
      ensures Room(off, t.DataLen() + 1) ==> next == off + t.DataLen() && overflow == old(overflow)
      ensures Moved(off, next, t.DataLen(), overflow) && (old(overflow) ==> overflow)
      ensures next == off || next < MAX_APP1 || (next == MAX_APP1 && (t.kind.KByte? || off % 2 == 1))
    {
      if t.kind.KAscii? || t.kind.KUndefined? {
        var data: seq<Byte> := seq(|t.words|, i requires 0 <= i < |t.words| => t.words[i]);
        EncodeIsBytes(t.words, t.kind, |t.words|);
        assert data == Encode(t.words, t.kind);
        next := WriteNBytes(data, b, off);
      } else {
        next := WriteWords(t.words, t.kind, b, off);
      }
    }

    method WriteZeros(n: nat)
      requires Valid()
      modifies buffer, this`current, this`overflow
      ensures Room(old(current), n) ==> buffer[..] == Put(old(buffer[..]), old(current), Zeros(n))
      ensures Room(old(current), n) ==> current == old(current) + n && overflow == old(overflow)
      ensures Moved(old(current), current, n, overflow) && (old(overflow) ==> overflow)
    {
      var i := 0;
      ghost var was := buffer[..];
      while i < n
        invariant i <= n && (old(overflow) ==> overflow) && Moved(old(current), current, i, overflow)
        invariant Room(old(current), i) ==> current == old(current) + i && overflow == old(overflow)
        invariant Room(old(current), i) ==> buffer[..] == Put(was, old(current), Zeros(i))
      {
        if Room(old(current), i + 1) { PutZero(was, old(current), i); }
        current := WriteByte(0, buffer, current);
        i := i + 1;
      }
    }

    /** The id, the type and the count of a tag. */
    method WriteTagHead(t: Tag)
      requires Valid() && Writable(t)
      modifies buffer, this`current, this`overflow
      ensures Room(old(current), 8) ==> buffer[..] == Put(old(buffer[..]), old(current), Head(t))
      ensures Room(old(current), 8) ==> current == old(current) + 8 && overflow == old(overflow)
      ensures Moved(old(current), current, 8, overflow) && (old(overflow) ==> overflow)
    {
      ghost var was, o := buffer[..], current;
      current := WriteShort(t.id % 0x1_0000, buffer, current);
      current := WriteShort(Code(t.kind), buffer, current);
      current := WriteLong(t.Count(), buffer, current);
      if Room(o, 8) {
        PutPut(was, o, Bytes16(t.id % 0x1_0000), Bytes16(Code(t.kind)));
        PutPut(was, o, Bytes16(t.id % 0x1_0000) + Bytes16(Code(t.kind)), Bytes32(t.Count()));
      }
    }

    /** The size of a value, from the type's size and the count. */
    static method WriteLength(t: Tag) returns (n: nat)
      requires Writable(t)
      ensures n == t.DataLen()
    {
      DataLenIsTypeSize(t);
      n := TypeSize(Code(t.kind)) * t.Count() % 0x1_0000_0000;
    }

    /** A data field with the value itself, padded. */
    method WriteInlineData(t: Tag)
      requires Valid() && Writable(t) && t.Inline()
      modifies buffer, this`current, this`overflow
      ensures Room(old(current), 5) ==>
                buffer[..] == Put(old(buffer[..]), old(current), Encode(t.words, t.kind) + Zeros(4 - t.DataLen()))
      ensures Room(old(current), 5) ==> current == old(current) + 4 && overflow == old(overflow)
      ensures Moved(old(current), current, 4, overflow) && (old(overflow) ==> overflow)
    {
      ghost var was, o := buffer[..], current;
      current := WriteTagValue(t, buffer, current);
      WriteZeros(4 - t.DataLen());
      if Room(o, 5) { PutPut(was, o, Encode(t.words, t.kind), Zeros(4 - t.DataLen())); }
    }

    /** There is room for the value of a tag in the helper buffer, or none is needed. */
    static predicate HelperRoom(off: nat, t: Tag) { t.Inline() || Room(Even(off), t.DataLen() + 1) }

    /** The helper offset is within the buffer, and a value of bytes leaves the last byte free. */
    ghost predicate HelperReady(t: Tag)
      reads this
    {
      helperOffset < MAX_APP1 && (t.kind.KByte? ==> HelperRoom(helperOffset, t))
    }

    /** The offset of an out-of-line value, and the value in the helper buffer. */
    method WriteFarData(t: Tag)
      requires Valid() && Writable(t) && HelperReady(t) && !t.Inline()
      modifies buffer, helper, this`current, this`helperOffset, this`overflow
      ensures Room(old(current), 4) ==>
                && buffer[..] == Put(old(buffer[..]), old(current), Bytes32(Even(old(helperOffset))))
                && current == old(current) + 4
      ensures Moved(old(current), current, 4, overflow) && (old(overflow) ==> overflow)
      ensures Room(old(current), 4) && HelperRoom(old(helperOffset), t) ==> overflow == old(overflow)
      ensures HelperRoom(old(helperOffset), t) ==>
                && helper[..] == Put(old(helper[..]), Even(old(helperOffset)), Encode(t.words, t.kind))
                && helperOffset == Even(old(helperOffset)) + t.DataLen()
      ensures Moved(Even(old(helperOffset)), helperOffset, t.DataLen(), overflow) && helperOffset < MAX_APP1
    {
      if helperOffset % 2 == 1 { helperOffset := helperOffset + 1; }
      current := WriteLong(helperOffset, buffer, current);
      helperOffset := WriteTagValue(t, helper, helperOffset);
    }

    /** The data field: the value and padding, or the place in the helper buffer that gets the value. */
    method WriteTagData(t: Tag)
      requires Valid() && Writable(t) && HelperReady(t)
      modifies buffer, helper, this`current, this`helperOffset, this`overflow
      ensures Room(old(current), 5) ==>
                buffer[..] == Put(old(buffer[..]), old(current), DataField(SlotOf(t), Even(old(helperOffset))))
      ensures Room(old(current), 5) ==> current == old(current) + 4
      ensures Room(old(current), 5) && HelperRoom(old(helperOffset), t) ==> overflow == old(overflow)
      ensures Moved(old(current), current, 4, overflow) && (old(overflow) ==> overflow)
      ensures HelperRoom(old(helperOffset), t) ==>
                && helper[..] == HelperAfter(old(helper[..]), old(helperOffset), SlotOf(t))
                && helperOffset == OffsetAfter(old(helperOffset), SlotOf(t))
      ensures helperOffset < MAX_APP1 && helperOffset <= OffsetAfter(old(helperOffset), SlotOf(t))
      ensures overflow || helperOffset == OffsetAfter(old(helperOffset), SlotOf(t))
    {
      var length := WriteLength(t);
      FieldOf(t, Even(helperOffset));
      if length <= 4 {
        WriteInlineData(t);
      } else {
        WriteFarData(t);
      }
    }

    /**
     One tag: twelve bytes in the directory, and a value of more than four bytes in the helper buffer. Without room in
     one of them there is an overflow, and that buffer's offset moves less far or not at all.
     */
    method WriteExifTag(t: Tag)
      requires Valid() && Writable(t) && HelperReady(t)
      modifies buffer, helper, this`current, this`helperOffset, this`tagCount, this`overflow
      ensures Room(old(current), 13) ==>
                buffer[..] == Put(old(buffer[..]), old(current), Entry(SlotOf(t), Even(old(helperOffset))))
      ensures Room(old(current), 13) ==> current == old(current) + 12
      ensures Room(old(current), 13) && HelperRoom(old(helperOffset), t) ==> overflow == old(overflow)
      ensures Moved(old(current), current, 12, overflow) && (old(overflow) ==> overflow)
      ensures tagCount == old(tagCount) + 1
      ensures HelperRoom(old(helperOffset), t) ==>
                && helper[..] == HelperAfter(old(helper[..]), old(helperOffset), SlotOf(t))
                && helperOffset == OffsetAfter(old(helperOffset), SlotOf(t))
      ensures helperOffset < MAX_APP1 && helperOffset <= OffsetAfter(old(helperOffset), SlotOf(t))
      ensures overflow || helperOffset == OffsetAfter(old(helperOffset), SlotOf(t))
    {
      ghost var was, o := buffer[..], current;
      WriteTagHead(t);
      WriteTagData(t);
      if Room(o, 13) { PutEntry(was, o, t, Even(old(helperOffset))); }
      tagCount := tagCount + 1;
    }

    // -------------------------------------------------------------- directories

    /** A directory at `at` is open and `n` of its tags were written, with an overflow or without. */
    ghost predicate Bounded(at: nat, slots: seq<Slot>, n: nat)
      reads this
    {
      && Valid() && Within(buffer.Length, at, slots) && HelperSafe(slots) && n <= |slots|
      && tagCount == n && tagCountOffset == at && Moved(at + 2, current, 12 * n, overflow)
      && helperOffset < MAX_APP1 && helperOffset <= DataArea(slots, n)
      && (overflow || helperOffset == DataArea(slots, n))
    }

    /** If the directory can be recorded, then these tags are in the buffers. */
    ghost predicate Open(at: nat, slots: seq<Slot>, n: nat)
      requires n <= |slots|
      reads this, buffer, helper
    {
      Recordable(at, slots) ==>
        && current == at + 2 + 12 * n && helperOffset == DataArea(slots, n)
        && RawFirst(buffer[..], at, slots, n) && HelperFirst(helper[..], slots, n)
    }

    /** What a step promises of a directory that can be recorded: no overflow, and what is before it stays. */
    ghost predicate Kept(at: nat, slots: seq<Slot>, was: seq<Byte>, flag: bool)
      reads this, buffer
    {
      (flag ==> overflow) && (Recordable(at, slots) ==> overflow == flag && Same(was, buffer[..], 0, at))
    }

    method WriteTag(t: Tag, ghost at: nat, ghost slots: seq<Slot>, ghost n: nat)
      requires n < |slots| && Bounded(at, slots, n) && Open(at, slots, n) && Writable(t) && slots[n] == SlotOf(t)
      modifies buffer, helper, this`current, this`helperOffset, this`tagCount, this`overflow
      ensures Bounded(at, slots, n + 1) && Open(at, slots, n + 1) && Kept(at, slots, old(buffer[..]), old(overflow))
    {
      LooseTag(t);
      HelperReach(slots, n, helperOffset);
      ghost var was, had, good := buffer[..], helper[..], Recordable(at, slots);
      if good { AfterTag(was, had, at, slots, n); }
      WriteExifTag(t);
      assert good ==> buffer[..] == Put(was, at + 2 + 12 * n, Entry(slots[n], DataStart(slots, n)));
      assert good ==> helper[..] == HelperAfter(had, DataArea(slots, n), slots[n]);
    }

    /** Begins a directory: the place of the number of tags is left for the end. */
    method BeginIfd(ghost slots: seq<Slot>)
      requires Valid() && Within(buffer.Length, current, slots) && HelperSafe(slots) && helperOffset == 0
      modifies this`current, this`tagCount, this`tagCountOffset
      ensures Bounded(old(current), slots, 0) && Open(old(current), slots, 0)
    {
      tagCount := 0;
      tagCountOffset := current;
      current := current + 2;
    }

    /** Writes the tags from the `n`-th on. */
    method WriteTags(tags: seq<Tag>, ghost at: nat, ghost slots: seq<Slot>, ghost n: nat)
      requires Lists(slots, n, tags) && Bounded(at, slots, n) && Open(at, slots, n)
      modifies buffer, helper, this`current, this`helperOffset, this`tagCount, this`overflow
      ensures Bounded(at, slots, n + |tags|) && Open(at, slots, n + |tags|)
      ensures Kept(at, slots, old(buffer[..]), old(overflow))
    {
      var i := 0;
      while i < |tags|
        invariant 0 <= i <= |tags| && Bounded(at, slots, n + i) && Open(at, slots, n + i) && buffer == old(buffer)
        invariant Kept(at, slots, old(buffer[..]), old(overflow))
      {
        assert ListsAt(slots, n, tags, i);
        WriteTag(tags[i], at, slots, n + i);
        i := i + 1;
      }
    }

    static function ReadU16(b: array<Byte>, o: nat): nat
      requires o + 2 <= b.Length
      reads b
    {
      b[o] as nat * 0x100 + b[o + 1]
    }

    static function ReadU32(b: array<Byte>, o: nat): nat
      requires o + 4 <= b.Length
      reads b
    {
      b[o] as nat * 0x100_0000 + b[o + 1] as nat * 0x1_0000 + b[o + 2] as nat * 0x100 + b[o + 3]
    }

    /**
     If the directory at `at` can be recorded, then it has its number of tags and closing zeros, and its first `n`
     offsets are relocated.
     */
    ghost predicate Counted(at: nat, slots: seq<Slot>, n: nat)
      reads this, buffer
    {
      && Valid() && Within(buffer.Length, at, slots) && n <= |slots| && tagCountOffset <= at + 2 && at <= tagCountOffset
      && (Recordable(at, slots) ==> tagCountOffset == at + 2 && RelocatedIfd(buffer[..], at, slots, n))
    }

    method WriteCount(ghost at: nat, ghost slots: seq<Slot>)
      requires Bounded(at, slots, |slots|) && Open(at, slots, |slots|)
      modifies buffer, this`current, this`tagCountOffset, this`overflow
      ensures Counted(at, slots, 0) && Kept(at, slots, old(buffer[..]), old(overflow))
      ensures !overflow ==> Recordable(at, slots)
    {
      if Recordable(at, slots) { CountWritten(buffer[..], at, slots); }
      current := WriteLong(0, buffer, current);
      tagCountOffset := WriteShort(tagCount, buffer, tagCountOffset);
    }

    /** Whether the value of the entry whose data field is at `o` is out of line, from its type and count. */
    method IsFar(o: nat) returns (far: bool)
      requires 8 <= o && o + 4 <= buffer.Length
      ensures far == FarAt(buffer[..], o - 8)
    {
      var code, count := ReadU16(buffer, o - 6), ReadU32(buffer, o - 4);
      far := Far(code, count);
    }

    /** Adds the place of the data area to the offset of the entry whose data field is at `o`, if it has one. */
    method Relocate(o: nat, destination: nat)
      requires Valid() && 8 <= o && o + 4 <= buffer.Length && tiffHeader == TIFF_BASE <= destination
      modifies buffer, this`overflow
      ensures old(overflow) ==> overflow
      ensures Room(o, 4) ==>
                buffer[..] == AdjustedIfFar(old(buffer[..]), o - 8, destination) && overflow == old(overflow)
    {
      var far := IsFar(o);
      if far {
        var adjusted := (ReadU32(buffer, o) + destination - tiffHeader) % 0x1_0000_0000;
        var _ := WriteLong(adjusted, buffer, o);
      }
    }

    /** One entry: an offset into the helper buffer becomes one into the block. */
    method RelocateTag(o: nat, destination: nat, ghost at: nat, ghost slots: seq<Slot>, ghost i: nat)
      requires i < |slots| && Counted(at, slots, i) && AllHonest(slots) && o == tagCountOffset + 12 * i + 8
      requires destination == tagCountOffset + 12 * |slots| + 4 && tiffHeader == TIFF_BASE
      modifies buffer, this`overflow
      ensures Counted(at, slots, i + 1) && Kept(at, slots, old(buffer[..]), old(overflow))
    {
      ghost var was := buffer[..];
      if Recordable(at, slots) { RelocateEither(was, at, slots, i); }
      Relocate(o, destination);
      assert Recordable(at, slots) ==> buffer[..] == AdjustedIfFar(was, at + 2 + 12 * i, AreaAt(at, slots));
    }

    method RelocateTags(destination: nat, ghost at: nat, ghost slots: seq<Slot>)
      requires Counted(at, slots, 0) && AllHonest(slots) && tagCount == |slots|
      requires destination == tagCountOffset + 12 * |slots| + 4 && tiffHeader == TIFF_BASE
      modifies buffer, this`overflow
      ensures Counted(at, slots, |slots|) && Kept(at, slots, old(buffer[..]), old(overflow))
    {
      var i := 0;
      while i < tagCount
        invariant i <= tagCount && Counted(at, slots, i) && Kept(at, slots, old(buffer[..]), old(overflow))
      {
        RelocateTag(tagCountOffset + i * 12 + 8, destination, at, slots, i);
        i := i + 1;
      }
    }

    method CopyHelper(destination: nat)
      requires Valid() && destination + helperOffset <= buffer.Length && helperOffset <= MAX_APP1
      modifies buffer
      ensures buffer[..] == Put(old(buffer[..]), destination, helper[..helperOffset])
    {
      forall i | 0 <= i < helperOffset { buffer[destination + i] := helper[i]; }
    }

    /** Copies the helper buffer behind the entries. */
    method CopyData(destination: nat, ghost at: nat, ghost slots: seq<Slot>)
      requires Counted(at, slots, |slots|) && helperOffset < MAX_APP1 && helperOffset <= DataArea(slots, |slots|)
      requires Recordable(at, slots) ==>
                 HelperFirst(helper[..], slots, |slots|) && helperOffset == DataArea(slots, |slots|)
      requires destination == tagCountOffset + 12 * |slots| + 4
      modifies buffer
      ensures Recordable(at, slots) ==> IfdAt(buffer[..], at, slots) && Same(old(buffer[..]), buffer[..], 0, at)
    {
      ghost var was, data, good := buffer[..], helper[..helperOffset], Recordable(at, slots);
      if good {
        HelperTaken(helper[..], slots, |slots|);
        assert helper[..][..helperOffset] == data;
        CopyCloses(was, at, slots, data);
      }
      CopyHelper(destination);
      assert good ==> buffer[..] == Put(was, at + 2 + 12 * |slots| + 4, data);
    }

    /** A directory that can be recorded is closed: every out-of-line value is where its entry says. */
    ghost predicate Closed(at: nat, slots: seq<Slot>)
      reads this, buffer
    {
      Recordable(at, slots) ==> IfdAt(buffer[..], at, slots)
    }

    /** Closes the directory, or reports an overflow if it does not fit. */
    method EndWritingIfd(ghost at: nat, ghost slots: seq<Slot>)
      requires Bounded(at, slots, |slots|) && Open(at, slots, |slots|) && AllHonest(slots) && tiffHeader == TIFF_BASE
      modifies buffer, this`current, this`helperOffset, this`tagCount, this`tagCountOffset, this`overflow
      ensures Closed(at, slots) && Kept(at, slots, old(buffer[..]), old(overflow))
      ensures !overflow ==> Recordable(at, slots)
      ensures Recordable(at, slots) ==> current == at + IfdSize(slots)
      ensures TIFF_BASE <= current <= at + Footprint(slots) && helperOffset == 0 && tagCount == 0
    {
      WriteCount(at, slots);
      var destination := tagCountOffset + tagCount * 12 + 4;
      RelocateTags(destination, at, slots);
      CopyData(destination, at, slots);
      current := destination + helperOffset;
      helperOffset := 0;
      tagCount := 0;
    }

    method PadToEven()
      requires Valid()
      modifies buffer, this`current, this`overflow
      ensures Even(old(current)) <= MAX_APP1 ==> current == Even(old(current)) && overflow == old(overflow)
      ensures overflow || current == Even(old(current))
      ensures old(current) <= current <= Even(old(current)) && (old(overflow) ==> overflow)
      ensures old(current) <= buffer.Length ==> Same(old(buffer[..]), buffer[..], 0, old(current))
    {
      if current % 2 == 1 { current := WriteByte(0, buffer, current); }
    }

    /** A pointer tag whose value is set at the end; returns where the tag is. */
    method WritePointer(id: nat, ghost at: nat, ghost slots: seq<Slot>, ghost n: nat) returns (place: nat)
      requires id < 0x1_0000_0000 && n < |slots| && Bounded(at, slots, n) && Open(at, slots, n)
      requires slots[n] == SlotOf(PointerTag(id, 0))
      modifies buffer, helper, this`current, this`helperOffset, this`tagCount, this`overflow
      ensures Bounded(at, slots, n + 1) && Open(at, slots, n + 1) && Kept(at, slots, old(buffer[..]), old(overflow))
      ensures Recordable(at, slots) ==> place == at + 2 + 12 * n
    {
      place := current;
      WriteTag(PointerTag(id, 0), at, slots, n);
    }

    method ClosePadded(ghost at: nat, ghost slots: seq<Slot>)
      requires Bounded(at, slots, |slots|) && Open(at, slots, |slots|) && AllHonest(slots) && tiffHeader == TIFF_BASE
      modifies buffer, this`current, this`helperOffset, this`tagCount, this`tagCountOffset, this`overflow
      ensures PaddedFits(at, slots) ==> IfdAt(buffer[..], at, slots) && overflow == old(overflow)
      ensures PaddedFits(at, slots) ==> Same(old(buffer[..]), buffer[..], 0, at)
      ensures PaddedFits(at, slots) || !overflow ==> current == Even(at + IfdSize(slots))
      ensures (old(overflow) ==> overflow) && helperOffset == 0 && TIFF_BASE <= current <= Even(at + Footprint(slots))
    {
      EndWritingIfd(at, slots);
      ghost var was := buffer[..];
      PadToEven();
      if Recordable(at, slots) { IfdSame(was, buffer[..], at, slots); }
    }

    /** The tags of the zeroth directory; returns where the pointer tags are. */
    method FillZeroth(tags: seq<Tag>, ghost at: nat, ghost slots: seq<Slot>) returns (exif: nat, gps: nat)
      requires Valid() && Within(buffer.Length, at, slots) && HelperSafe(slots) && at == current
      requires helperOffset == 0 && ZerothListed(slots, tags)
      modifies buffer, helper, this`current, this`helperOffset, this`tagCount, this`tagCountOffset, this`overflow
      ensures Bounded(at, slots, |slots|) && Open(at, slots, |slots|) && Kept(at, slots, old(buffer[..]), old(overflow))
      ensures Recordable(at, slots) ==> exif == at + 2 + 12 * |tags| && gps == at + 2 + 12 * (|tags| + 1)
    {
      BeginIfd(slots);
      WriteTags(tags, at, slots, 0);
      exif := WritePointer(EXIF_IFD_PTR, at, slots, |tags|);
      gps := WritePointer(GPS_IFD_PTR, at, slots, |tags| + 1);
    }

    /** The zeroth directory, with the pointers to the Exif and the GPS directory still zero. */
    method Write0thIfd(tags: seq<Tag>, ghost at: nat, ghost slots: seq<Slot>)
      requires Valid() && Within(buffer.Length, at, slots) && HelperSafe(slots) && at == current
      requires helperOffset == 0 && tiffHeader == TIFF_BASE && ZerothListed(slots, tags) && AllHonest(slots)
      modifies buffer, helper, this`current, this`helperOffset, this`tagCount, this`tagCountOffset, this`overflow
      modifies this`exifPtr, this`gpsPtr, this`newExif
      ensures PaddedFits(at, slots) ==> IfdAt(buffer[..], at, slots) && overflow == old(overflow)
      ensures PaddedFits(at, slots) ==> Same(old(buffer[..]), buffer[..], 0, at)
      ensures PaddedFits(at, slots) || !overflow ==> current == Even(at + IfdSize(slots))
      ensures PaddedFits(at, slots) ==> exifPtr == at + 2 + 12 * |tags| + 8 && gpsPtr == at + 2 + 12 * (|tags| + 1)
      ensures (old(overflow) ==> overflow) && helperOffset == 0 && TIFF_BASE <= current <= Even(at + Footprint(slots))
      ensures newExif == current - TIFF_BASE
    {
      exifPtr, gpsPtr := FillZeroth(tags, at, slots);
      ClosePadded(at, slots);
      exifPtr := exifPtr + 8;
      newExif := current - tiffHeader;
    }

    /** The tags of the Exif directory; returns where the pointer tag is. */
    method FillExif(tags: seq<Tag>, tail: seq<Tag>, ghost at: nat, ghost slots: seq<Slot>) returns (interop: nat)
      requires Valid() && Within(buffer.Length, at, slots) && HelperSafe(slots) && at == current
      requires helperOffset == 0 && ExifListed(slots, tags, tail)
      modifies buffer, helper, this`current, this`helperOffset, this`tagCount, this`tagCountOffset, this`overflow
      ensures Bounded(at, slots, |slots|) && Open(at, slots, |slots|) && Kept(at, slots, old(buffer[..]), old(overflow))
      ensures Recordable(at, slots) ==> interop == at + 2 + 12 * |tags|
    {
      BeginIfd(slots);
      WriteTags(tags, at, slots, 0);
      interop := WritePointer(INTEROP_IFD_PTR, at, slots, |tags|);
      WriteTags(tail, at, slots, |tags| + 1);
    }

    /** The Exif directory, with the pointer to the interoperability directory still zero. */
    method WriteExifIfd(tags: seq<Tag>, tail: seq<Tag>, ghost at: nat, ghost slots: seq<Slot>)
      requires Valid() && Within(buffer.Length, at, slots) && HelperSafe(slots) && at == current
      requires helperOffset == 0 && tiffHeader == TIFF_BASE && ExifListed(slots, tags, tail) && AllHonest(slots)
      modifies buffer, helper, this`current, this`helperOffset, this`tagCount, this`tagCountOffset, this`overflow
      modifies this`interopPtr, this`newInterop
      ensures Closed(at, slots) && Kept(at, slots, old(buffer[..]), old(overflow))
      ensures !overflow ==> Recordable(at, slots)
      ensures Recordable(at, slots) ==> current == at + IfdSize(slots) && interopPtr == at + 2 + 12 * |tags| + 8
      ensures TIFF_BASE <= current <= at + Footprint(slots) && helperOffset == 0
      ensures newInterop == current - TIFF_BASE
    {
      interopPtr := FillExif(tags, tail, at, slots);
      EndWritingIfd(at, slots);
      interopPtr := interopPtr + 8;
      newInterop := current - tiffHeader;
    }

    /** The interoperability directory; the pointer to the GPS directory gets its value place here. */
    method WriteInteropIfd(tags: seq<Tag>, ghost at: nat, ghost slots: seq<Slot>)
      requires Valid() && Within(buffer.Length, at, slots) && HelperSafe(slots) && at == current
      requires helperOffset == 0 && tiffHeader == TIFF_BASE
      requires Lists(slots, 0, tags) && |slots| == |tags| && AllHonest(slots)
      modifies buffer, helper, this`current, this`helperOffset, this`tagCount, this`tagCountOffset, this`overflow
      modifies this`gpsPtr, this`newGps
      ensures PaddedFits(at, slots) ==> IfdAt(buffer[..], at, slots) && overflow == old(overflow)
      ensures PaddedFits(at, slots) ==> Same(old(buffer[..]), buffer[..], 0, at)
      ensures PaddedFits(at, slots) || !overflow ==> current == Even(at + IfdSize(slots))
      ensures (old(overflow) ==> overflow) && helperOffset == 0 && TIFF_BASE <= current <= Even(at + Footprint(slots))
      ensures gpsPtr == old(gpsPtr) + 8 && newGps == current - TIFF_BASE
    {
      BeginIfd(slots);
      WriteTags(tags, at, slots, 0);
      ClosePadded(at, slots);
      gpsPtr := gpsPtr + 8;
      newGps := current - tiffHeader;
    }

    method WriteGpsIfd(tags: seq<Tag>, ghost at: nat, ghost slots: seq<Slot>)
      requires Valid() && Within(buffer.Length, at, slots) && HelperSafe(slots) && at == current
      requires helperOffset == 0 && tiffHeader == TIFF_BASE
      requires Lists(slots, 0, tags) && |slots| == |tags| && AllHonest(slots)
      modifies buffer, helper, this`current, this`helperOffset, this`tagCount, this`tagCountOffset, this`overflow
      ensures Closed(at, slots) && Kept(at, slots, old(buffer[..]), old(overflow))
      ensures !overflow ==> Recordable(at, slots)
      ensures Recordable(at, slots) ==> current == at + IfdSize(slots)
      ensures TIFF_BASE <= current <= at + Footprint(slots) && helperOffset == 0
    {
      BeginIfd(slots);
      WriteTags(tags, at, slots, 0);
      EndWritingIfd(at, slots);
    }

    // -------------------------------------------------------------- the block

    /** The marker and the Exif identifier; the length is left for the end. */
    method WriteExifId()
      requires Valid() && current == 0
      modifies buffer, this`current, this`app1Begin, this`overflow
      ensures ExifIdAt(buffer[..]) && current == TIFF_BASE && app1Begin == 2 && overflow == old(overflow)
    {
      current := WriteShort(0xFFE1, buffer, current);
      app1Begin := current;
      current := current + 2;
      current := WriteLong(0x45786966, buffer, current);
      current := WriteShort(0, buffer, current);
    }

    method WriteHeader()
      requires Valid() && current == 0
      modifies buffer, this`current, this`app1Begin, this`tiffHeader, this`overflow
      ensures HeaderAt(buffer[..]) && current == FIRST_IFD && app1Begin == 2 && tiffHeader == TIFF_BASE
      ensures overflow == old(overflow)
    {
      WriteExifId();
      tiffHeader := current;
      current := WriteShort(0x4D4D, buffer, current);
      current := WriteShort(0x002A, buffer, current);
      current := WriteLong(8, buffer, current);
    }

    /** Sets a pointer in the zeroth directory. */
    method SetZerothPointer(o: nat, v: nat, ghost d: Dirs, ghost p: Places, ghost j: nat, ghost good: bool)
      returns (next: nat)
      requires Valid() && v < 0x1_0000_0000 && (good ==> BlockAt(buffer[..], d, p) && ZerothField(d, j, o))
      modifies buffer, this`overflow
      ensures old(overflow) ==> overflow
      ensures good ==> BlockAt(buffer[..], d.(zeroth := Patch(d.zeroth, j, v)), p) && overflow == old(overflow)
    {
      if good { SetZeroth(buffer[..], d, p, j, v); }
      next := WriteLong(v, buffer, o);
    }

    method SetExifPointer(o: nat, v: nat, ghost d: Dirs, ghost p: Places, ghost j: nat, ghost good: bool)
      returns (next: nat)
      requires Valid() && v < 0x1_0000_0000 && (good ==> BlockAt(buffer[..], d, p) && ExifField(d, p, j, o))
      modifies buffer, this`overflow
      ensures old(overflow) ==> overflow
      ensures good ==> BlockAt(buffer[..], d.(exif := Patch(d.exif, j, v)), p) && overflow == old(overflow)
    {
      if good { SetExif(buffer[..], d, p, j, v, o); }
      next := WriteLong(v, buffer, o);
    }

    method SetBlockLength(ghost d: Dirs, ghost p: Places, ghost good: bool)
      requires Valid() && app1Begin == 2 <= current && (good ==> BlockAt(buffer[..], d, p))
      modifies buffer, this`overflow
      ensures overflow == old(overflow)
      ensures good ==> BlockAt(buffer[..], d, p) && BytesAt(buffer[..], 2, Bytes16((current - 2) % 0x1_0000))
    {
      ghost var was := buffer[..];
      var length := (current - app1Begin) % 0x1_0000;
      if good { SetLength(was, d, p, length); }
      OverwriteShort(length, buffer, app1Begin);
      assert buffer[..] == Put(was, 2, Bytes16(length));
    }

    /** Where the pointers are to go, and what they are to be. */
    ghost predicate Aimed(d: Dirs, k: nat, p: Places)
      reads this
    {
      && HasPointers(d, k) && InOrder(p) && current == p.end
      && ZerothField(d, |d.zeroth| - 2, exifPtr) && newExif == p.exif - TIFF_BASE
      && ZerothField(d, |d.zeroth| - 1, gpsPtr) && newGps == p.gps - TIFF_BASE
      && ExifField(d, p, k, interopPtr) && newInterop == p.interop - TIFF_BASE
    }

    /** Sets the pointers to the Exif and the interoperability directory. */
    method SetPointers(ghost d: Dirs, ghost k: nat, ghost p: Places, ghost good: bool)
      requires Valid() && newExif < 0x1_0000_0000 && newInterop < 0x1_0000_0000
      requires good ==> BlockAt(buffer[..], d, p) && Aimed(d, k, p)
      modifies buffer, this`exifPtr, this`interopPtr, this`overflow
      ensures old(overflow) ==> overflow
      ensures good ==> BlockAt(buffer[..], HalfLinked(d, k, p), p) && overflow == old(overflow)
    {
      ghost var j := if good then |d.zeroth| - 2 else 0;
      ghost var half := if good then d.(zeroth := Patch(d.zeroth, j, newExif)) else d;
      exifPtr := SetZerothPointer(exifPtr, newExif, d, p, j, good);
      interopPtr := SetExifPointer(interopPtr, newInterop, half, p, k, good);
    }

    /** The three pointers and the length of the block; with `good`, its directories are there. */
    method UpdateFields(ghost d: Dirs, ghost k: nat, ghost p: Places, ghost good: bool)
      requires Valid() && app1Begin == 2 <= current
      requires newExif < 0x1_0000_0000 && newInterop < 0x1_0000_0000 && newGps < 0x1_0000_0000
      requires good ==> BlockAt(buffer[..], d, p) && Aimed(d, k, p)
      modifies buffer, this`exifPtr, this`gpsPtr, this`interopPtr, this`overflow
      ensures old(overflow) ==> overflow
      ensures good ==>
                BlockAt(buffer[..], Linked(d, k, p), p) && BytesAt(buffer[..], 2, Bytes16((p.end - 2) % 0x1_0000))
      ensures good ==> overflow == old(overflow)
    {
      ghost var half := if good then HalfLinked(d, k, p) else d;
      ghost var full := if good then Linked(d, k, p) else d;
      SetPointers(d, k, p, good);
      gpsPtr := SetZerothPointer(gpsPtr, newGps, half, p, if good then |d.zeroth| - 1 else 0, good);
      SetBlockLength(full, p, good);
    }

    /** The first two directories; with `good`, both can be recorded, the second at `place`. */
    method WriteMainIfds(zeroth: seq<Tag>, exif: seq<Tag>, tail: seq<Tag>, ghost z: seq<Slot>, ghost x: seq<Slot>,
                         ghost place: nat, ghost reach: nat, ghost good: bool)
      requires Valid() && ZerothListed(z, zeroth) && ExifListed(x, exif, tail) && Sound(z) && Sound(x)
      requires HelperSafe(z) && HelperSafe(x) && Even(FIRST_IFD + Footprint(z)) + Footprint(x) <= reach <= buffer.Length
      requires current == FIRST_IFD && helperOffset == 0 && tiffHeader == TIFF_BASE
      requires place == Even(FIRST_IFD + IfdSize(z))
      requires good ==> PaddedFits(FIRST_IFD, z) && Recordable(place, x)
      modifies buffer, helper, this`current, this`helperOffset, this`tagCount, this`tagCountOffset, this`overflow
      modifies this`exifPtr, this`gpsPtr, this`newExif, this`interopPtr, this`newInterop
      ensures (old(overflow) ==> overflow) && helperOffset == 0
      ensures good || !overflow ==> current == place + IfdSize(x)
      ensures TIFF_BASE <= current <= reach && newInterop == current - TIFF_BASE
      ensures newExif < 0x1_0000_0000 && newInterop < 0x1_0000_0000
      ensures good ==> IfdAt(buffer[..], FIRST_IFD, z) && IfdAt(buffer[..], place, x)
      ensures good ==> overflow == old(overflow) && Same(old(buffer[..]), buffer[..], 0, FIRST_IFD)
      ensures good ==> exifPtr == FIRST_IFD + 2 + 12 * |zeroth| + 8 && newExif == place - TIFF_BASE
      ensures good ==> gpsPtr == FIRST_IFD + 2 + 12 * (|zeroth| + 1) && interopPtr == place + 2 + 12 * |exif| + 8
    {
      Write0thIfd(zeroth, FIRST_IFD, z);
      ghost var was := buffer[..];
      WriteExifIfd(exif, tail, current, x);
      if good { IfdStays(was, buffer[..], place, FIRST_IFD, z); }
    }

    /** The last two directories, which leave what is before them; with `good`, both can be recorded. */
    method WriteOtherIfds(interop: seq<Tag>, gps: seq<Tag>, ghost i: seq<Slot>, ghost g: seq<Slot>,
                          ghost first: nat, ghost second: nat, ghost good: bool)
      requires Valid() && Lists(i, 0, interop) && |i| == |interop| && Lists(g, 0, gps) && |g| == |gps| && Sound(i)
      requires Sound(g)
      requires HelperSafe(i) && HelperSafe(g) && Even(current + Footprint(i)) + Footprint(g) <= buffer.Length
      requires TIFF_BASE <= current && helperOffset == 0 && tiffHeader == TIFF_BASE
      requires second == Even(first + IfdSize(i))
      requires good ==> PaddedFits(first, i) && Recordable(second, g)
      requires good || !overflow ==> current == first
      modifies buffer, helper, this`current, this`helperOffset, this`tagCount, this`tagCountOffset, this`overflow
      modifies this`gpsPtr, this`newGps
      ensures (old(overflow) ==> overflow) && helperOffset == 0 && (!overflow ==> Recordable(second, g))
      ensures TIFF_BASE <= current <= buffer.Length && newGps < 0x1_0000_0000 && gpsPtr == old(gpsPtr) + 8
      ensures good ==> IfdAt(buffer[..], first, i) && IfdAt(buffer[..], second, g) && current == second + IfdSize(g)
      ensures good ==> overflow == old(overflow) && Same(old(buffer[..]), buffer[..], 0, first)
      ensures good ==> newGps == second - TIFF_BASE
    {
      WriteInteropIfd(interop, current, i);
      ghost var was, at := buffer[..], current;
      assert good || !overflow ==> at == second;
      WriteGpsIfd(gps, at, g);
      if good {
        assert IfdAt(buffer[..], second, g);
        IfdStays(was, buffer[..], second, first, i);
      }
    }

    /** The zeroth and the Exif directory behind the header. */
    method WriteFirstIfds(c: Contents, ghost d: Dirs, ghost p: Places)
      requires Valid() && Roomy(d, buffer.Length) && p == PlacesOf(d) && Sound(d.zeroth) && Sound(d.exif)
      requires ZerothListed(d.zeroth, c.zeroth) && ExifListed(d.exif, c.exif, c.exifTail)
      requires HeaderAt(buffer[..]) && current == FIRST_IFD && helperOffset == 0 && tiffHeader == TIFF_BASE
      modifies buffer, helper, this`current, this`helperOffset, this`tagCount, this`tagCountOffset, this`overflow
      modifies this`exifPtr, this`gpsPtr, this`newExif, this`interopPtr, this`newInterop
      ensures (old(overflow) ==> overflow) && helperOffset == 0 && TIFF_BASE <= current <= FarPlaces(d).interop
      ensures newExif < 0x1_0000_0000 && newInterop < 0x1_0000_0000
      ensures Recorded(d) || !overflow ==> current == p.interop
      ensures Recorded(d) ==>
                HeaderAt(buffer[..]) && IfdAt(buffer[..], FIRST_IFD, d.zeroth) && IfdAt(buffer[..], p.exif, d.exif)
      ensures Recorded(d) ==>
                overflow == old(overflow) && newExif == p.exif - TIFF_BASE && newInterop == p.interop - TIFF_BASE
      ensures Recorded(d) ==>
                exifPtr == FIRST_IFD + 2 + 12 * |c.zeroth| + 8 && gpsPtr == FIRST_IFD + 2 + 12 * (|c.zeroth| + 1)
      ensures Recorded(d) ==> interopPtr == p.exif + 2 + 12 * |c.exif| + 8
    {
      ghost var was, good := buffer[..], Recorded(d);
      if good { AllRecorded(d); }
      MainReach(d);
      WriteMainIfds(c.zeroth, c.exif, c.exifTail, d.zeroth, d.exif, p.exif, FarPlaces(d).interop, good);
      if good { HeaderStays(was, buffer[..], FIRST_IFD); }
    }

    /** The interoperability and the GPS directory behind these. */
    method WriteLastIfds(c: Contents, ghost d: Dirs, ghost p: Places)
      requires Valid() && Roomy(d, buffer.Length) && p == PlacesOf(d) && Sound(d.interop) && Sound(d.gps)
      requires Lists(d.interop, 0, c.interop) && |d.interop| == |c.interop| && Lists(d.gps, 0, c.gps)
      requires |d.gps| == |c.gps|
      requires TIFF_BASE <= current <= FarPlaces(d).interop && helperOffset == 0 && tiffHeader == TIFF_BASE
      requires Recorded(d) || !overflow ==> current == p.interop
      requires Recorded(d) ==>
                 HeaderAt(buffer[..]) && IfdAt(buffer[..], FIRST_IFD, d.zeroth) && IfdAt(buffer[..], p.exif, d.exif)
      modifies buffer, helper, this`current, this`helperOffset, this`tagCount, this`tagCountOffset, this`overflow
      modifies this`gpsPtr, this`newGps
      ensures (old(overflow) ==> overflow) && helperOffset == 0 && (!overflow ==> Recorded(d))
      ensures TIFF_BASE <= current <= buffer.Length && newGps < 0x1_0000_0000 && gpsPtr == old(gpsPtr) + 8
      ensures Recorded(d) ==> BlockAt(buffer[..], d, p)
      ensures Recorded(d) ==> current == p.end && overflow == old(overflow) && newGps == p.gps - TIFF_BASE
    {
      ghost var was, good := buffer[..], Recorded(d);
      if good { AllRecorded(d); }
      OtherReach(d, current);
      WriteOtherIfds(c.interop, c.gps, d.interop, d.gps, p.interop, p.gps, good);
      if good { BlockGrown(was, buffer[..], d, p); }
    }

    /** All four directories, their pointers still zero. */
    method WriteIfds(c: Contents, ghost d: Dirs, ghost p: Places)
      requires Valid() && DirsFine(d, c) && Roomy(d, buffer.Length) && p == PlacesOf(d)
      requires HeaderAt(buffer[..]) && current == FIRST_IFD && helperOffset == 0 && tiffHeader == TIFF_BASE
      modifies buffer, helper, this`current, this`helperOffset, this`tagCount, this`tagCountOffset, this`overflow
      modifies this`exifPtr, this`gpsPtr, this`newExif, this`interopPtr, this`newInterop, this`newGps
      ensures (old(overflow) ==> overflow) && helperOffset == 0 && (!overflow ==> Recorded(d))
      ensures TIFF_BASE <= current <= buffer.Length
      ensures newExif < 0x1_0000_0000 && newInterop < 0x1_0000_0000 && newGps < 0x1_0000_0000
      ensures Recorded(d) ==> BlockAt(buffer[..], d, p) && Aimed(d, |c.exif|, p) && overflow == old(overflow)
    {
      WriteFirstIfds(c, d, p);
      WriteLastIfds(c, d, p);
      if Recorded(d) { PointerFields(c, d); }
    }

    /** A block with its pointers and its length. */
    method WriteBlock(c: Contents, ghost d: Dirs)
      requires Valid() && DirsFine(d, c) && Roomy(d, buffer.Length) && current == 0 && helperOffset == 0
      modifies buffer, helper, this`current, this`helperOffset, this`tagCount, this`tagCountOffset, this`overflow
      modifies this`exifPtr, this`gpsPtr, this`newExif, this`interopPtr, this`newInterop, this`newGps
      modifies this`app1Begin, this`tiffHeader
      ensures helperOffset == 0 && current <= buffer.Length && overflow == (old(overflow) || !Recorded(d))
      ensures Recorded(d) ==> current == PlacesOf(d).end < 0x1_0000_0000 && BlockWritten(buffer[..], d, |c.exif|)
    {
      WriteHeader();
      WriteIfds(c, d, PlacesOf(d));
      UpdateFields(d, |c.exif|, PlacesOf(d), Recorded(d));
    }

    /**
     The whole block. There is an overflow if and only if there was one before or the block cannot be recorded. A
     recorded block holds the four directories, each pointer addresses its directory, and the length field is the number
     of bytes written without the marker, in 16 bits. An overflow is never forgotten: if it comes before the first good
     block, the size returned is zero from then on; after a good block it no longer shows in the size.
     */
    method WriteExifData(c: Contents, ghost d: Dirs) returns (size: nat)
      requires Valid() && DirsFine(d, c) && Roomy(d, buffer.Length) && current == 0 && helperOffset == 0
      modifies buffer, helper, this`current, this`helperOffset, this`tagCount, this`tagCountOffset, this`overflow
      modifies this`exifPtr, this`gpsPtr, this`newExif, this`interopPtr, this`newInterop, this`newGps
      modifies this`app1Begin, this`tiffHeader, this`app1Present
      ensures overflow == (old(overflow) || !Recorded(d)) && app1Present == (old(app1Present) || !overflow)
      ensures size == (if overflow && !old(app1Present) then 0 else current) && helperOffset == 0
      ensures current <= buffer.Length
      ensures Recorded(d) ==> current == PlacesOf(d).end < 0x1_0000_0000 && BlockWritten(buffer[..], d, |c.exif|)
    {
      WriteBlock(c, d);
      if !overflow { app1Present := true; }
      if overflow && !app1Present { return 0; }
      return current;
    }

    /** A block in a buffer of the caller's; a negative result if there is no buffer. */
    method Generate(output: array?<Byte>, c: Contents, ghost d: Dirs) returns (size: int)
      requires output != null ==> MAX_APP1 <= output.Length < 0x8000_0000 && output != helper && Roomy(d, output.Length)
      requires helper.Length == MAX_APP1 && helperOffset == 0 && DirsFine(d, c)
      modifies this, helper, output
      ensures output == null ==> size == BAD_VALUE && overflow == old(overflow) && app1Present == old(app1Present)
      ensures output != null ==> Valid() && buffer == output && helperOffset == 0
      ensures output != null ==>
                overflow == (old(overflow) || !Recorded(d)) && app1Present == (old(app1Present) || !overflow)
      ensures output != null ==> size == if overflow && !old(app1Present) then 0 else current
      ensures output != null && Recorded(d) ==>
                current == PlacesOf(d).end < 0x1_0000_0000 && BlockWritten(output[..], d, |c.exif|)
    {
      if output == null { return BAD_VALUE; }
      forall i | 0 <= i < helper.Length { helper[i] := 0; }
      buffer := output;
      current := 0;
      size := WriteExifData(c, d);
    }
  }
}
