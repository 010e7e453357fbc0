/**
 The Exif parser as the program runs it: one object that walks the directories and collects the tags.
 */
module ExifConverter {
  import opened Bytes
  import opened ExifFormat
  import opened ExifParser

  datatype Status = Ok | Bad | Outside

  /** Whether a status and the state reached agree with a parse. */
  predicate Agrees(s: Status, o: Outcome<Parser>, p: Parser) {
    match o
    case Good(v) => s == Ok && p == v
    case BadValue => s == Bad
    case OutOfRange => s == Outside
  }

  class Converter {
    var entities: seq<Entity>
    var exifIfd: nat
    var interopIfd: nat
    var gpsIfd: nat
    var tiffHeader: nat

    ghost function View(): Parser
      reads this
    {
      Parser(entities, exifIfd, interopIfd, gpsIfd, tiffHeader)
    }

    constructor ()
      ensures View() == Parser([], 0, 0, 0, 0)
    {
      entities, exifIfd, interopIfd, gpsIfd, tiffHeader := [], 0, 0, 0, 0;
    }

    method ConstructExifTag(id: nat, code: nat, count: nat, words: seq<nat>)
      modifies this`entities
      ensures View() == old(View()).Add(Entity(id, code, count, words))
    {
      entities := entities + [Entity(id, code, count, words)];
    }

    /** The numerators and denominators of `n` rationals. */
    static method ReadRationals(bin: seq<Byte>, at: nat, n: nat) returns (words: seq<nat>)
      requires at + 8 * n <= |bin|
      ensures words == Words32(bin, at, 2 * n)
    {
      words := [];
      var i, o := 0, at;
      while i < n
        invariant 0 <= i <= n && o == at + 8 * i
        invariant words == Words32(bin, at, 2 * i)
      {
        var num := U32(bin, o);
        o := o + 4;
        var denom := U32(bin, o);
        o := o + 4;
        words := words + [num, denom];
        i := i + 1;
      }
    }

    method StorePointer(id: nat, v: nat)
      requires IsPointer(id)
      modifies this`exifIfd, this`interopIfd, this`gpsIfd
      ensures View() == SetPointer(old(View()), id, v)
    {
      var target := (v + 10) % 0x1_0000_0000;
      if id == EXIF_IFD_PTR {
        exifIfd := target;
      } else if id == GPS_IFD_PTR {
        gpsIfd := target;
      } else {
        interopIfd := target;
      }
    }

    method GetRational(bin: seq<Byte>, d: nat, id: nat, count: nat) returns (s: Status)
      requires d < MAX_APP1
      modifies this`entities
      ensures Agrees(s, TagData(bin, d, old(View()), id, 5, count), View())
    {
      var n := if count > 1 then count else 1;
      if d + 4 > |bin| || Referred(bin, d, tiffHeader) + 8 * n > |bin| { return Outside; }
      var words := ReadRationals(bin, Referred(bin, d, tiffHeader), n);
      ConstructExifTag(id, 5, count, words);
      return Ok;
    }

    method GetAscii(bin: seq<Byte>, d: nat, id: nat, count: nat) returns (s: Status)
      requires d < MAX_APP1
      modifies this`entities
      ensures Agrees(s, TagData(bin, d, old(View()), id, 2, count), View())
    {
      var at := d;
      if count > 4 {
        if d + 4 > |bin| { return Outside; }
        at := Referred(bin, d, tiffHeader);
      }
      if at + count > |bin| { return Outside; }
      ConstructExifTag(id, 2, count, Chars(bin, at, count));
      return Ok;
    }

    /** The data of one tag. */
    method GetTagDataByTagType(bin: seq<Byte>, d: nat, id: nat, code: nat, count: nat) returns (s: Status)
      modifies this`entities, this`exifIfd, this`interopIfd, this`gpsIfd
      ensures Agrees(s, TagData(bin, d, old(View()), id, code, count), View())
    {
      if d >= MAX_APP1 { return Bad; }
      if code == 3 {
        if d + 2 > |bin| { return Outside; }
        ConstructExifTag(id, code, count, [U16(bin, d)]);
      } else if code == 4 {
        if d + 4 > |bin| { return Outside; }
        if IsPointer(id) {
          StorePointer(id, U32(bin, d));
        } else {
          ConstructExifTag(id, code, count, [U32(bin, d)]);
        }
      } else if code == 5 {
        s := GetRational(bin, d, id, count);
        return;
      } else if code == 2 {
        s := GetAscii(bin, d, id, count);
        return;
      } else if code == 1 {
        if d >= |bin| { return Outside; }
        ConstructExifTag(id, code, count, [bin[d] as nat * 0x100 % 0x100]);
      } else {
        return Bad;
      }
      return Ok;
    }

    /** One entry: its id, type, count and data. */
    method ParseTag(bin: seq<Byte>, at: nat) returns (s: Status)
      modifies this`entities, this`exifIfd, this`interopIfd, this`gpsIfd
      ensures Agrees(s, EntryReader(bin)(at, old(View())), View())
    {
      if at + 8 > |bin| { return Outside; }
      var id := TagIdByExifId(U16(bin, at));
      s := GetTagDataByTagType(bin, at + 8, id, U16(bin, at + 2), U32(bin, at + 4));
    }

    /** The next entry of a directory. */
    method ParseNextTag(bin: seq<Byte>, offset: nat, ghost at: nat, ghost parsed: nat,
                        ghost p: Parser) returns (s: Status)
      requires offset == at + 12 * parsed && ParseEntries(EntryReader(bin), at, parsed, p) == Good(View())
      modifies this`entities, this`exifIfd, this`interopIfd, this`gpsIfd
      ensures Agrees(s, ParseEntries(EntryReader(bin), at, parsed + 1, p), View())
    {
      s := ParseTag(bin, offset);
    }

    /** The loop over the entries of a directory reaches what the entries one after the other lead to. */
    method ParseTags(bin: seq<Byte>, at: nat, count: nat) returns (s: Status)
      modifies this`entities, this`exifIfd, this`interopIfd, this`gpsIfd
      ensures Agrees(s, ParseEntries(EntryReader(bin), at, count, old(View())), View())
    {
      ghost var was := View();
      var parsed, offset := 0, at;
      while parsed < count
        invariant parsed <= count && offset == at + 12 * parsed
        invariant ParseEntries(EntryReader(bin), at, parsed, was) == Good(View())
      {
        s := ParseNextTag(bin, offset, at, parsed, was);
        if s != Ok {
          Ended(EntryReader(bin), at, parsed + 1, count, was);
          return;
        }
        offset := offset + 12;
        parsed := parsed + 1;
      }
      return Ok;
    }

    /** One directory. */
    method ParseDirectory(bin: seq<Byte>, at: nat) returns (s: Status)
      modifies this`entities, this`exifIfd, this`interopIfd, this`gpsIfd
      ensures Agrees(s, ParseIfd(bin, at, old(View())), View())
    {
      if at >= MAX_APP1 { return Bad; }
      if at + 2 > |bin| { return Outside; }
      s := ParseTags(bin, at + 2, U16(bin, at));
    }

    /** The whole block. */
    method ConvertExifBinary(bin: seq<Byte>) returns (s: Status)
      modifies this
      ensures Agrees(s, ParseBlock(bin), View())
    {
      entities := seq(BLANKS, i => BLANK);
      exifIfd, interopIfd, gpsIfd, tiffHeader := 0, 0, 0, 10;
      if |bin| < FIRST_IFD { return Outside; }
      if !HeaderOk(bin) { return Bad; }
      s := ParseDirectory(bin, FIRST_IFD);
      if s != Ok { return; }
      s := ParseDirectory(bin, exifIfd);
      if s != Ok { return; }
      s := ParseDirectory(bin, gpsIfd);
    }
  }

  /** Once an entry is not good, neither is the directory. */
  lemma {:induction false} Ended(read: Reader, at: nat, m: nat, n: nat, p: Parser)
    requires m <= n && !ParseEntries(read, at, m, p).Good?
    ensures ParseEntries(read, at, n, p) == ParseEntries(read, at, m, p)
  {
    if m < n { Ended(read, at, m, n - 1, p); }
  }
}
