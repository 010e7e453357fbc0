/**
 The packed tag container as an object: updates grow the buffer, fill in the descriptor and copy the data in place.
 */
module ExtraParam {
  import opened Bytes
  import opened PackedTags

  class TagContainer {
    var locked: bool
    var dataMap: Index
    var dataBuffer: seq<Byte>

    ghost function View(): Container
      reads this
    {
      Container(locked, dataMap, dataBuffer)
    }

    constructor ()
      ensures View() == EMPTY
    {
      locked, dataMap, dataBuffer := false, map[], [];
    }

    method Lock(on: bool)
      modifies this`locked
      ensures View() == old(View()).(locked := on)
    {
      locked := on;
    }

    /** Grows the buffer by zeros, fills in the descriptor and copies the data. */
    method AppendEntry(tag: nat, entry: nat, data: seq<Byte>)
      requires Record(tag, entry, data).Ok()
      modifies this`dataBuffer
      ensures dataBuffer == old(dataBuffer) + RecordBytes(Record(tag, entry, data))
    {
      var offset, size := |dataBuffer|, |data|;
      dataBuffer := dataBuffer + seq(12 + size, i => 0);
      dataBuffer := Put(dataBuffer, offset, Descriptor(tag, entry, size));
      dataBuffer := Put(dataBuffer, offset + 12, data);
    }

    method FillDataEntry(tag: nat, entry: nat, data: seq<Byte>) returns (answer: Answer)
      requires tag < 0x1_0000_0000 && entry < 0x1_0000_0000 && |data| < 0x1_0000_0000
      modifies this`dataMap, this`dataBuffer
      ensures (View(), answer) == Fill(old(View()), tag, data, entry)
    {
      if locked { return Done(EPERM); }
      if tag in dataMap && |dataMap[tag]| > entry {
        var offset := dataMap[tag][entry];
        if offset + 12 + |data| > |dataBuffer| { return Outside; }
        dataBuffer := Put(dataBuffer, offset + 12, data);
        return Done(0);
      }
      var offset := |dataBuffer|;
      if tag !in dataMap {
        if entry != 0 { return Done(EINVAL); }
        assert Places(dataMap, tag) + [offset] == [offset];
        dataMap := dataMap[tag := [offset]];
      } else {
        // the difference is unsigned: an entry beyond the next one gives a huge number
        if |dataMap[tag]| - entry != 0 { return Done(EINVAL); }
        dataMap := dataMap[tag := dataMap[tag] + [offset]];
      }
      AppendEntry(tag, entry, data);
      return Done(0);
    }

    method UpdateEntry(tag: nat, data: seq<Byte>, entry: nat) returns (answer: Answer)
      requires tag < 0x1_0000_0000 && entry < 0x1_0000_0000 && 4 <= |data| < 0x1_0000_0000
      modifies this`dataMap, this`dataBuffer
      ensures (View(), answer) == Update(old(View()), tag, data, entry)
    {
      if Le32(data, 0) != tag { return Done(EINVAL); }
      answer := FillDataEntry(tag, entry, data);
    }

    method FetchEntry(tag: nat, own: nat, size: nat, entry: nat) returns (r: Reply)
      ensures r == Fetch(View(), tag, own, size, entry)
    {
      if own != tag { return Code(EINVAL); }
      if tag !in dataMap { return Code(ENOENT); }
      if entry >= |dataMap[tag]| { return Thrown; }
      var offset := dataMap[tag][entry];
      if offset + 12 + size > |dataBuffer| { return ReadsOutside; }
      r := Got(dataBuffer[offset + 12..offset + 12 + size]);
    }
  }
}
