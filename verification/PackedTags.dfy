/**
 The packed tag container: an index from tags to the places of their entries in one byte buffer, each entry being a
 descriptor of twelve bytes (tag, entry number, size of the data) followed by the data.
 */
module PackedTags {
  import opened Bytes
  import opened Common

  const EINVAL: int := -22
  const ENOENT: int := -2
  const EPERM: int := -1

  /** The bytes of a 32-bit number in the order of the machine, the lowest first. */
  function LittleEndian(v: nat): (b: seq<Byte>)
    requires v < 0x1_0000_0000
    ensures |b| == 4
  {
    seq(4, i requires 0 <= i < 4 => ByteOf(v, i))
  }

  function Le32(b: seq<Byte>, i: nat): (v: nat)
    requires i + 4 <= |b|
    ensures v < 0x1_0000_0000
  {
    b[i] as nat + b[i + 1] as nat * 0x100 + b[i + 2] as nat * 0x1_0000 + b[i + 3] as nat * 0x100_0000
  }

  /** An entry: every data structure begins with its own tag. */
  datatype Record = Record(tag: nat, entry: nat, data: seq<Byte>) {
    predicate Ok() { tag < 0x1_0000_0000 && entry < 0x1_0000_0000 && |data| < 0x1_0000_0000 }
  }

  function Descriptor(tag: nat, entry: nat, size: nat): (b: seq<Byte>)
    requires tag < 0x1_0000_0000 && entry < 0x1_0000_0000 && size < 0x1_0000_0000
    ensures |b| == 12
  {
    LittleEndian(tag) + LittleEndian(entry) + LittleEndian(size)
  }

  function RecordBytes(r: Record): (b: seq<Byte>)
    requires r.Ok()
    ensures |b| == 12 + |r.data|
  {
    Descriptor(r.tag, r.entry, |r.data|) + r.data
  }

  type Index = map<nat, seq<nat>>

  datatype Container = Container(locked: bool, index: Index, buffer: seq<Byte>)

  const EMPTY := Container(false, map[], [])

  function Places(index: Index, tag: nat): seq<nat> { if tag in index then index[tag] else [] }

  // ---------------------------------------------------------------- operations

  /** Data of this size in the place of the entry is within the buffer. */
  predicate Within(c: Container, tag: nat, entry: nat, size: nat) {
    entry < |Places(c.index, tag)| ==> Places(c.index, tag)[entry] + 12 + size <= |c.buffer|
  }

  /** A call returns a code, or writes outside the buffer: data goes over an old entry without a look at their sizes. */
  datatype Answer = Done(code: int) | Outside

  /** Stores the data of an entry: over the old data, or behind everything. Entries are numbered one after the other. */
  function Fill(c: Container, tag: nat, data: seq<Byte>, entry: nat): (r: (Container, Answer))
    requires tag < 0x1_0000_0000 && entry < 0x1_0000_0000 && |data| < 0x1_0000_0000
  {
    if c.locked then (c, Done(EPERM))
    else if !Within(c, tag, entry, |data|) then (c, Outside)
    else if entry < |Places(c.index, tag)| then
      (c.(buffer := Put(c.buffer, Places(c.index, tag)[entry] + 12, data)), Done(0))
    else if entry > |Places(c.index, tag)| then (c, Done(EINVAL))
    else
      (c.(index := c.index[tag := Places(c.index, tag) + [|c.buffer|]],
          buffer := c.buffer + RecordBytes(Record(tag, entry, data))), Done(0))
  }

  /** Refuses data of another tag. */
  function Update(c: Container, tag: nat, data: seq<Byte>, entry: nat): (r: (Container, Answer))
    requires tag < 0x1_0000_0000 && entry < 0x1_0000_0000 && 4 <= |data| < 0x1_0000_0000
  {
    if Le32(data, 0) != tag then (c, Done(EINVAL)) else Fill(c, tag, data, entry)
  }

  /** Data, an error code, the exception for an entry that does not exist, or a read outside the buffer. */
  datatype Reply = Got(data: seq<Byte>) | Code(code: int) | Thrown | ReadsOutside

  /** Fetches data of a given size into a structure of tag `own`. */
  function Fetch(c: Container, tag: nat, own: nat, size: nat, entry: nat): Reply {
    if own != tag then Code(EINVAL)
    else if tag !in c.index then Code(ENOENT)
    else if entry >= |c.index[tag]| then Thrown
    else if !Within(c, tag, entry, size) then ReadsOutside
    else Got(c.buffer[c.index[tag][entry] + 12..c.index[tag][entry] + 12 + size])
  }

  // ---------------------------------------------------------------- what the buffer holds

  function Offset(rs: seq<Record>, n: nat): nat
    requires n <= |rs|
  {
    if n == 0 then 0 else Offset(rs, n - 1) + 12 + |rs[n - 1].data|
  }

  predicate RecordsOk(rs: seq<Record>) { forall i | 0 <= i < |rs| :: rs[i].Ok() }

  /** The first `n` records one after the other. */
  function Pack(rs: seq<Record>, n: nat): (b: seq<Byte>)
    requires n <= |rs| && RecordsOk(rs)
    ensures |b| == Offset(rs, n)
  {
    if n == 0 then [] else Pack(rs, n - 1) + RecordBytes(rs[n - 1])
  }

  function IndexOf(rs: seq<Record>, n: nat): Index
    requires n <= |rs|
  {
    if n == 0 then map[]
    else
      var m := IndexOf(rs, n - 1);
      m[rs[n - 1].tag := Places(m, rs[n - 1].tag) + [Offset(rs, n - 1)]]
  }

  /** The entries of each tag are numbered from zero on, in the order of the buffer. */
  predicate Numbered(rs: seq<Record>, n: nat)
    requires n <= |rs|
  {
    forall i: nat | i < n :: NumberedAt(rs, i)
  }

  predicate NumberedAt(rs: seq<Record>, i: nat)
    requires i < |rs|
  {
    rs[i].entry == |Places(IndexOf(rs, i), rs[i].tag)|
  }

  type Table = map<nat, seq<seq<Byte>>>

  function Entries(t: Table, tag: nat): seq<seq<Byte>> { if tag in t then t[tag] else [] }

  /** The data of each tag, in the order of the entries. */
  function TableOf(rs: seq<Record>, n: nat): Table
    requires n <= |rs|
  {
    if n == 0 then map[]
    else
      var m := TableOf(rs, n - 1);
      m[rs[n - 1].tag := Entries(m, rs[n - 1].tag) + [rs[n - 1].data]]
  }

  /** The container holds exactly these records. */
  predicate Holds(c: Container, rs: seq<Record>) {
    && RecordsOk(rs) && Numbered(rs, |rs|)
    && c.buffer == Pack(rs, |rs|) && c.index == IndexOf(rs, |rs|)
  }

  // ---------------------------------------------------------------- a linear scan

  /** A descriptor read back. */
  datatype Desc = Desc(tag: nat, entry: nat, size: nat)

  function DescAt(buf: seq<Byte>, at: nat): Option<Desc> {
    if at + 12 > |buf| then None else Some(Desc(Le32(buf, at), Le32(buf, at + 4), Le32(buf, at + 8)))
  }

  function Descs(buf: seq<Byte>): nat -> Option<Desc> { (at: nat) => DescAt(buf, at) }

  /** Walks from `at` up to `end`, descriptor by descriptor, and extends the index; none if something is malformed. */
  function Walk(read: nat -> Option<Desc>, end: nat, at: nat, m: Index): Option<Index>
    decreases end - at
  {
    if at >= end then Some(m)
    else
      var d := read(at);
      if d.None? || at + 12 + d.value.size > end || d.value.entry != |Places(m, d.value.tag)| then None
      else Walk(read, end, at + 12 + d.value.size, m[d.value.tag := Places(m, d.value.tag) + [at]])
  }

  /** The index a linear scan of a buffer finds. */
  function Scan(buf: seq<Byte>): Option<Index> { Walk(Descs(buf), |buf|, 0, map[]) }

  lemma {:induction false} ReadLittle(buf: seq<Byte>, at: nat, v: nat)
    requires v < 0x1_0000_0000 && BytesAt(buf, at, LittleEndian(v))
    ensures Le32(buf, at) == v
  {
    var a := v / 0x100;
    var b := a / 0x100;
    var c := b / 0x100;
    var s := LittleEndian(v);
    assert s[0] == ByteOf(v, 0) == v % 0x100;
    assert s[1] == ByteOf(v, 1) == ByteOf(a, 0) == a % 0x100;
    assert s[2] == ByteOf(v, 2) == ByteOf(a, 1) == ByteOf(b, 0) == b % 0x100;
    assert s[3] == ByteOf(v, 3) == ByteOf(a, 2) == ByteOf(b, 1) == ByteOf(c, 0) == c % 0x100 == c;
    assert buf[at] == s[0] && buf[at + 1] == s[1] && buf[at + 2] == s[2] && buf[at + 3] == s[3];
  }

  lemma {:induction false} ReadDescriptor(buf: seq<Byte>, at: nat, r: Record)
    requires r.Ok() && BytesAt(buf, at, RecordBytes(r))
    ensures at + 12 + |r.data| <= |buf| && BytesAt(buf, at + 12, r.data)
    ensures Le32(buf, at) == r.tag && Le32(buf, at + 4) == r.entry && Le32(buf, at + 8) == |r.data|
  {
    var a, b, c := LittleEndian(r.tag), LittleEndian(r.entry), LittleEndian(|r.data|);
    SplitBytes(buf, at, a + b + c, r.data);
    SplitBytes(buf, at, a + b, c);
    SplitBytes(buf, at, a, b);
    ReadLittle(buf, at, r.tag);
    ReadLittle(buf, at + 4, r.entry);
    ReadLittle(buf, at + 8, |r.data|);
  }

  /** Every record is at its offset. */
  lemma {:induction false} PackedAt(rs: seq<Record>, n: nat, i: nat)
    requires RecordsOk(rs) && i < n <= |rs|
    ensures BytesAt(Pack(rs, n), Offset(rs, i), RecordBytes(rs[i]))
  {
    if i < n - 1 {
      PackedAt(rs, n - 1, i);
      assert Pack(rs, n) == Pack(rs, n - 1) + RecordBytes(rs[n - 1]);
    }
  }

  /** Record `i` is what is read at its offset. */
  predicate ReadsAt(read: nat -> Option<Desc>, rs: seq<Record>, i: nat)
    requires i < |rs|
  {
    && read(Offset(rs, i)) == Some(Desc(rs[i].tag, rs[i].entry, |rs[i].data|))
    && Offset(rs, i) + 12 + |rs[i].data| <= Offset(rs, |rs|)
  }

  lemma {:induction false} PackedDesc(rs: seq<Record>, i: nat)
    requires RecordsOk(rs) && i < |rs|
    ensures ReadsAt(Descs(Pack(rs, |rs|)), rs, i)
  {
    PackedAt(rs, |rs|, i);
    ReadDescriptor(Pack(rs, |rs|), Offset(rs, i), rs[i]);
  }

  lemma {:induction false} WalkOver(read: nat -> Option<Desc>, end: nat, at: nat, d: Desc, m: Index, at2: nat,
                                    m2: Index)
    requires read(at) == Some(d) && d.entry == |Places(m, d.tag)| && at2 == at + 12 + d.size <= end
    requires m2 == m[d.tag := Places(m, d.tag) + [at]]
    ensures Walk(read, end, at, m) == Walk(read, end, at2, m2)
  {
  }

  lemma {:induction false} WalkRecord(rs: seq<Record>, i: nat, read: nat -> Option<Desc>, end: nat)
    requires i < |rs| && Numbered(rs, |rs|) && ReadsAt(read, rs, i) && end == Offset(rs, |rs|)
    ensures Walk(read, end, Offset(rs, i), IndexOf(rs, i)) == Walk(read, end, Offset(rs, i + 1), IndexOf(rs, i + 1))
  {
    assert NumberedAt(rs, i);
    WalkOver(read, end, Offset(rs, i), Desc(rs[i].tag, rs[i].entry, |rs[i].data|), IndexOf(rs, i),
             Offset(rs, i + 1), IndexOf(rs, i + 1));
  }

  /** The walk goes on from one place and index to the next. */
  predicate GoesOn(read: nat -> Option<Desc>, end: nat, places: seq<nat>, ms: seq<Index>, k: nat)
    requires k + 1 < |places| == |ms|
  {
    Walk(read, end, places[k], ms[k]) == Walk(read, end, places[k + 1], ms[k + 1])
  }

  lemma {:induction false} WalkReaches(read: nat -> Option<Desc>, end: nat, places: seq<nat>, ms: seq<Index>, i: nat)
    requires i < |places| == |ms| && forall k: nat | k + 1 < |places| :: GoesOn(read, end, places, ms, k)
    ensures Walk(read, end, places[0], ms[0]) == Walk(read, end, places[i], ms[i])
  {
    if i > 0 {
      WalkReaches(read, end, places, ms, i - 1);
      assert GoesOn(read, end, places, ms, i - 1);
    }
  }

  /** The places of the records and the indices of those before them. */
  function Offsets(rs: seq<Record>): (r: seq<nat>)
    ensures |r| == |rs| + 1
  {
    seq(|rs| + 1, i requires 0 <= i <= |rs| => Offset(rs, i))
  }

  function Indices(rs: seq<Record>): (r: seq<Index>)
    ensures |r| == |rs| + 1
  {
    seq(|rs| + 1, i requires 0 <= i <= |rs| => IndexOf(rs, i))
  }

  lemma {:induction false} RecordGoesOn(rs: seq<Record>, k: nat)
    requires RecordsOk(rs) && Numbered(rs, |rs|) && k < |rs|
    ensures GoesOn(Descs(Pack(rs, |rs|)), Offset(rs, |rs|), Offsets(rs), Indices(rs), k)
  {
    PackedDesc(rs, k);
    WalkRecord(rs, k, Descs(Pack(rs, |rs|)), Offset(rs, |rs|));
  }

  lemma {:induction false} WalkEnds(read: nat -> Option<Desc>, end: nat, m: Index)
    ensures Walk(read, end, end, m) == Some(m)
  {
  }

  lemma {:induction false} RecordsWalked(rs: seq<Record>, read: nat -> Option<Desc>, places: seq<nat>, ms: seq<Index>)
    requires RecordsOk(rs) && Numbered(rs, |rs|)
    requires read == Descs(Pack(rs, |rs|)) && places == Offsets(rs) && ms == Indices(rs)
    ensures Walk(read, Offset(rs, |rs|), places[0], ms[0]) == Walk(read, Offset(rs, |rs|), places[|rs|], ms[|rs|])
  {
    var end := Offset(rs, |rs|);
    forall k: nat | k + 1 < |places|
      ensures GoesOn(read, end, places, ms, k)
    {
      RecordGoesOn(rs, k);
    }
    WalkReaches(read, end, places, ms, |rs|);
  }

  /** The scan rebuilds the index. */
  lemma {:induction false} ScanRebuilds(rs: seq<Record>)
    requires RecordsOk(rs) && Numbered(rs, |rs|)
    ensures Scan(Pack(rs, |rs|)) == Some(IndexOf(rs, |rs|))
  {
    RecordsWalked(rs, Descs(Pack(rs, |rs|)), Offsets(rs), Indices(rs));
    WalkEnds(Descs(Pack(rs, |rs|)), Offset(rs, |rs|), IndexOf(rs, |rs|));
  }

  // ---------------------------------------------------------------- what an update does to the records

  /** The place of an entry among the first `n` records, `n` if there is none. */
  function Find(rs: seq<Record>, n: nat, tag: nat, entry: nat): (i: nat)
    requires n <= |rs|
    ensures i <= n && (i < n ==> rs[i].tag == tag && rs[i].entry == entry)
    ensures i == n ==> forall k | 0 <= k < n :: rs[k].tag != tag || rs[k].entry != entry
  {
    if n == 0 then 0
    else
      var i := Find(rs, n - 1, tag, entry);
      if i < n - 1 then i else if rs[n - 1].tag == tag && rs[n - 1].entry == entry then n - 1 else n
  }

  /** Index and table have the same tags and numbers of entries. */
  lemma {:induction false} SameShape(rs: seq<Record>, n: nat, tag: nat)
    requires n <= |rs|
    ensures tag in IndexOf(rs, n) <==> tag in TableOf(rs, n)
    ensures |Places(IndexOf(rs, n), tag)| == |Entries(TableOf(rs, n), tag)|
  {
    if n > 0 { SameShape(rs, n - 1, tag); SameShape(rs, n - 1, rs[n - 1].tag); }
  }

  /** An entry that exists is in the buffer at the place the index gives, and its data is the table's. */
  lemma {:induction false} Located(rs: seq<Record>, n: nat, tag: nat, entry: nat) returns (i: nat)
    requires n <= |rs| && Numbered(rs, n) && entry < |Places(IndexOf(rs, n), tag)|
    ensures i < n && rs[i].tag == tag && rs[i].entry == entry && Places(IndexOf(rs, n), tag)[entry] == Offset(rs, i)
    ensures entry < |Entries(TableOf(rs, n), tag)| && Entries(TableOf(rs, n), tag)[entry] == rs[i].data
  {
    SameShape(rs, n - 1, tag);
    assert NumberedAt(rs, n - 1);
    if rs[n - 1].tag == tag && entry == |Places(IndexOf(rs, n - 1), tag)| {
      i := n - 1;
    } else {
      i := Located(rs, n - 1, tag, entry);
    }
  }

  /** The entry numbers of a tag are below the number of its entries. */
  lemma {:induction false} Fewer(rs: seq<Record>, n: nat, tag: nat)
    requires n <= |rs| && Numbered(rs, n)
    ensures forall k | 0 <= k < n && rs[k].tag == tag :: rs[k].entry < |Places(IndexOf(rs, n), tag)|
  {
    if n > 0 {
      Fewer(rs, n - 1, tag);
      assert NumberedAt(rs, n - 1);
    }
  }

  /** No two records are of the same entry. */
  lemma {:induction false} Distinct(rs: seq<Record>, i: nat, k: nat)
    requires i < |rs| && k < |rs| && Numbered(rs, |rs|) && rs[i].tag == rs[k].tag && rs[i].entry == rs[k].entry
    ensures i == k
  {
    assert NumberedAt(rs, i) && NumberedAt(rs, k);
    if i < k {
      Fewer(rs, k, rs[k].tag);
    } else if k < i {
      Fewer(rs, i, rs[i].tag);
    }
  }

  /** One more record leaves what the earlier ones add up to. */
  lemma {:induction false} Prefix(rs: seq<Record>, r: Record, n: nat)
    requires n <= |rs| && RecordsOk(rs) && r.Ok()
    ensures Offset(rs + [r], n) == Offset(rs, n) && Pack(rs + [r], n) == Pack(rs, n)
    ensures IndexOf(rs + [r], n) == IndexOf(rs, n) && TableOf(rs + [r], n) == TableOf(rs, n)
  {
    if n > 0 { Prefix(rs, r, n - 1); }
  }

  lemma {:induction false} AppendHolds(c: Container, rs: seq<Record>, tag: nat, data: seq<Byte>)
    requires Holds(c, rs) && !c.locked && Record(tag, |Places(c.index, tag)|, data).Ok()
    ensures Holds(Fill(c, tag, data, |Places(c.index, tag)|).0, rs + [Record(tag, |Places(c.index, tag)|, data)])
  {
    var r := Record(tag, |Places(c.index, tag)|, data);
    var more := rs + [r];
    forall i: nat | i < |more|
      ensures NumberedAt(more, i)
    {
      Prefix(rs, r, i);
      if i < |rs| { assert NumberedAt(rs, i); }
    }
    Prefix(rs, r, |rs|);
  }

  function Replace(rs: seq<Record>, i: nat, data: seq<Byte>): seq<Record>
    requires i < |rs|
  {
    rs[i := rs[i].(data := data)]
  }

  /** New data of the same size leaves every offset. */
  lemma {:induction false} ReplaceLayout(rs: seq<Record>, i: nat, data: seq<Byte>, n: nat)
    requires i < |rs| && n <= |rs| && |data| == |rs[i].data|
    ensures Offset(Replace(rs, i, data), n) == Offset(rs, n) && IndexOf(Replace(rs, i, data), n) == IndexOf(rs, n)
  {
    if n > 0 { ReplaceLayout(rs, i, data, n - 1); }
  }

  lemma {:induction false} ReplacePack(rs: seq<Record>, i: nat, data: seq<Byte>, n: nat)
    requires i < |rs| && n <= |rs| && RecordsOk(rs) && |data| == |rs[i].data|
    ensures RecordsOk(Replace(rs, i, data))
    ensures n <= i ==> Pack(Replace(rs, i, data), n) == Pack(rs, n)
    ensures i < n ==> Offset(rs, i) + 12 + |data| <= Offset(rs, n)
    ensures i < n ==> Pack(Replace(rs, i, data), n) == Put(Pack(rs, n), Offset(rs, i) + 12, data)
  {
    if n > 0 {
      ReplacePack(rs, i, data, n - 1);
      if i < n - 1 {
        PutFront(Pack(rs, n - 1), RecordBytes(rs[n - 1]), Offset(rs, i) + 12, data);
      } else if i == n - 1 {
        ReplaceLast(rs, i, data);
      }
    }
  }

  lemma {:induction false} ReplaceLast(rs: seq<Record>, i: nat, data: seq<Byte>)
    requires i < |rs| && RecordsOk(rs) && |data| == |rs[i].data|
    ensures Pack(rs, i) + RecordBytes(rs[i].(data := data)) == Put(Pack(rs, i + 1), Offset(rs, i) + 12, data)
  {
    PutBack(Pack(rs, i), Descriptor(rs[i].tag, rs[i].entry, |data|), rs[i].data, data);
  }

  lemma {:induction false} PutFront(a: seq<Byte>, b: seq<Byte>, at: nat, data: seq<Byte>)
    requires at + |data| <= |a|
    ensures Put(a, at, data) + b == Put(a + b, at, data)
  {
  }

  lemma {:induction false} PutBack(a: seq<Byte>, d: seq<Byte>, x: seq<Byte>, data: seq<Byte>)
    requires |x| == |data|
    ensures a + (d + data) == Put(a + (d + x), |a| + |d|, data)
  {
  }

  function Add(t: Table, tag: nat, data: seq<Byte>): Table { t[tag := Entries(t, tag) + [data]] }

  function Set(t: Table, tag: nat, entry: nat, data: seq<Byte>): Table
    requires entry < |Entries(t, tag)|
  {
    t[tag := Entries(t, tag)[entry := data]]
  }

  /** Adding an entry and setting an earlier one commute. */
  lemma {:induction false} SetThenAdd(t: Table, tag: nat, entry: nat, data: seq<Byte>, other: nat, x: seq<Byte>)
    requires entry < |Entries(t, tag)|
    ensures entry < |Entries(Add(t, other, x), tag)|
    ensures Add(Set(t, tag, entry, data), other, x) == Set(Add(t, other, x), tag, entry, data)
  {
    var was := t[tag];
    assert (was + [x])[entry := data] == was[entry := data] + [x];
  }

  lemma {:induction false} AddThenSet(t: Table, tag: nat, data: seq<Byte>, x: seq<Byte>)
    ensures Set(Add(t, tag, x), tag, |Entries(t, tag)|, data) == Add(t, tag, data)
  {
    var was := Entries(t, tag);
    assert (was + [x])[|was| := data] == was + [data];
  }

  /** The table changes at that entry only. */
  lemma {:induction false} ReplaceTable(rs: seq<Record>, i: nat, data: seq<Byte>, n: nat)
    requires i < |rs| && n <= |rs| && Numbered(rs, |rs|)
    ensures n <= i ==> TableOf(Replace(rs, i, data), n) == TableOf(rs, n)
    ensures i < n ==> rs[i].entry < |Entries(TableOf(rs, n), rs[i].tag)|
    ensures i < n ==> TableOf(Replace(rs, i, data), n) == Set(TableOf(rs, n), rs[i].tag, rs[i].entry, data)
  {
    if n > 0 {
      ReplaceTable(rs, i, data, n - 1);
      var t, r := TableOf(rs, n - 1), rs[n - 1];
      assert TableOf(rs, n) == Add(t, r.tag, r.data);
      if i == n - 1 {
        assert NumberedAt(rs, i);
        SameShape(rs, i, r.tag);
        AddThenSet(t, r.tag, data, r.data);
      } else if i < n - 1 {
        SetThenAdd(t, rs[i].tag, rs[i].entry, data, r.tag, r.data);
      }
    }
  }

  lemma {:induction false} ReplaceHolds(c: Container, rs: seq<Record>, i: nat, data: seq<Byte>)
    requires Holds(c, rs) && !c.locked && i < |rs| && |data| == |rs[i].data| && Places(c.index, rs[i].tag) != []
    requires rs[i].entry < |Places(c.index, rs[i].tag)| && Places(c.index, rs[i].tag)[rs[i].entry] == Offset(rs, i)
    ensures Within(c, rs[i].tag, rs[i].entry, |data|)
    ensures Holds(Fill(c, rs[i].tag, data, rs[i].entry).0, Replace(rs, i, data))
  {
    var more := Replace(rs, i, data);
    ReplacePack(rs, i, data, |rs|);
    ReplaceLayout(rs, i, data, |rs|);
    forall k: nat | k < |rs|
      ensures NumberedAt(more, k)
    {
      assert NumberedAt(rs, k);
      ReplaceLayout(rs, i, data, k);
    }
  }

  // ---------------------------------------------------------------- runs

  /** The container as its users see it: a list of data for each tag. */
  datatype Shelf = Shelf(locked: bool, table: Table)

  function SpecUpdate(f: Shelf, tag: nat, data: seq<Byte>, entry: nat): (Shelf, int)
    requires |data| >= 4
  {
    var was := Entries(f.table, tag);
    if Le32(data, 0) != tag then (f, EINVAL)
    else if f.locked then (f, EPERM)
    else if entry < |was| then (f.(table := Set(f.table, tag, entry, data)), 0)
    else if entry == |was| then (f.(table := Add(f.table, tag, data)), 0)
    else (f, EINVAL)
  }

  function SpecFetch(t: Table, tag: nat, own: nat, entry: nat): Reply {
    if own != tag then Code(EINVAL)
    else if tag !in t then Code(ENOENT)
    else if entry >= |t[tag]| then Thrown
    else Got(t[tag][entry])
  }

  /** The size of the data of each tag: `sizeof` of the tag's structure. */
  type Sizes = nat -> nat

  predicate Sized(rs: seq<Record>, size: Sizes) { forall i | 0 <= i < |rs| :: |rs[i].data| == size(rs[i].tag) }

  predicate Suits(tag: nat, data: seq<Byte>, entry: nat, size: Sizes) {
    tag < 0x1_0000_0000 && entry < 0x1_0000_0000 && 4 <= |data| < 0x1_0000_0000 && |data| == size(tag)
  }

  /** The records after an update. */
  function RecordsAfter(rs: seq<Record>, tag: nat, data: seq<Byte>, entry: nat): seq<Record> {
    var n := |Places(IndexOf(rs, |rs|), tag)|;
    if entry < n then
      var i := Find(rs, |rs|, tag, entry);
      if i < |rs| then Replace(rs, i, data) else rs
    else if entry == n then rs + [Record(tag, entry, data)]
    else rs
  }

  /** The container holds the records, of the right sizes, and they make up the table. */
  predicate Keeps(c: Container, rs: seq<Record>, size: Sizes, t: Table) {
    Holds(c, rs) && Sized(rs, size) && TableOf(rs, |rs|) == t
  }

  lemma {:induction false} OverwriteSound(c: Container, rs: seq<Record>, tag: nat, data: seq<Byte>, entry: nat,
                                          size: Sizes)
    requires Holds(c, rs) && Sized(rs, size) && Suits(tag, data, entry, size) && !c.locked
    requires entry < |Places(c.index, tag)|
    ensures Within(c, tag, entry, |data|) && entry < |Entries(TableOf(rs, |rs|), tag)|
    ensures Keeps(Fill(c, tag, data, entry).0, RecordsAfter(rs, tag, data, entry), size,
                  Set(TableOf(rs, |rs|), tag, entry, data))
  {
    SameShape(rs, |rs|, tag);
    var i := Located(rs, |rs|, tag, entry);
    Distinct(rs, i, Find(rs, |rs|, tag, entry));
    ReplaceHolds(c, rs, i, data);
    ReplaceTable(rs, i, data, |rs|);
  }

  lemma {:induction false} AppendTable(rs: seq<Record>, r: Record)
    requires RecordsOk(rs) && r.Ok()
    ensures TableOf(rs + [r], |rs| + 1) == Add(TableOf(rs, |rs|), r.tag, r.data)
  {
    Prefix(rs, r, |rs|);
  }

  lemma {:induction false} AppendSound(c: Container, rs: seq<Record>, tag: nat, data: seq<Byte>, entry: nat,
                                       size: Sizes)
    requires Holds(c, rs) && Sized(rs, size) && Suits(tag, data, entry, size) && !c.locked
    requires entry == |Places(c.index, tag)|
    ensures Keeps(Fill(c, tag, data, entry).0, RecordsAfter(rs, tag, data, entry), size,
                  Add(TableOf(rs, |rs|), tag, data))
  {
    AppendHolds(c, rs, tag, data);
    AppendTable(rs, Record(tag, entry, data));
  }

  /** Data of the right size is within the buffer. */
  lemma {:induction false} AlwaysWithin(c: Container, rs: seq<Record>, tag: nat, entry: nat, size: Sizes)
    requires Holds(c, rs) && Sized(rs, size)
    ensures Within(c, tag, entry, size(tag))
  {
    if entry < |Places(c.index, tag)| {
      var i := Located(rs, |rs|, tag, entry);
      PackedDesc(rs, i);
    }
  }

  /** The records after an update that may be refused. */
  function RecordsNext(c: Container, rs: seq<Record>, tag: nat, data: seq<Byte>, entry: nat): seq<Record>
    requires |data| >= 4
  {
    if c.locked || Le32(data, 0) != tag then rs else RecordsAfter(rs, tag, data, entry)
  }

  lemma {:induction false} FillSound(c: Container, rs: seq<Record>, tag: nat, data: seq<Byte>, entry: nat, size: Sizes)
    requires Holds(c, rs) && Sized(rs, size) && Suits(tag, data, entry, size) && !c.locked && Le32(data, 0) == tag
    ensures Within(c, tag, entry, |data|) && !Fill(c, tag, data, entry).0.locked
    ensures Fill(c, tag, data, entry).1 == Done(SpecUpdate(Shelf(false, TableOf(rs, |rs|)), tag, data, entry).1)
    ensures Keeps(Fill(c, tag, data, entry).0, RecordsAfter(rs, tag, data, entry), size,
                  SpecUpdate(Shelf(false, TableOf(rs, |rs|)), tag, data, entry).0.table)
  {
    SameShape(rs, |rs|, tag);
    if entry < |Places(c.index, tag)| {
      OverwriteSound(c, rs, tag, data, entry, size);
    } else if entry == |Places(c.index, tag)| {
      AppendSound(c, rs, tag, data, entry, size);
    }
  }

  /** An update of a container does what it does to the lists of data, and keeps the buffer packed and indexed. */
  lemma {:induction false} UpdateSound(c: Container, rs: seq<Record>, tag: nat, data: seq<Byte>, entry: nat,
                                       size: Sizes)
    requires Holds(c, rs) && Sized(rs, size) && Suits(tag, data, entry, size)
    ensures Within(c, tag, entry, |data|) && Update(c, tag, data, entry).0.locked == c.locked
    ensures Update(c, tag, data, entry).1 == Done(SpecUpdate(Shelf(c.locked, TableOf(rs, |rs|)), tag, data, entry).1)
    ensures Keeps(Update(c, tag, data, entry).0, RecordsNext(c, rs, tag, data, entry), size,
                  SpecUpdate(Shelf(c.locked, TableOf(rs, |rs|)), tag, data, entry).0.table)
  {
    AlwaysWithin(c, rs, tag, entry, size);
    if !c.locked && Le32(data, 0) == tag { FillSound(c, rs, tag, data, entry, size); }
  }

  lemma {:induction false} DataIn(rs: seq<Record>, i: nat)
    requires RecordsOk(rs) && i < |rs|
    ensures Offset(rs, i) + 12 + |rs[i].data| <= Offset(rs, |rs|)
    ensures Pack(rs, |rs|)[Offset(rs, i) + 12..Offset(rs, i) + 12 + |rs[i].data|] == rs[i].data
  {
    PackedAt(rs, |rs|, i);
    ReadDescriptor(Pack(rs, |rs|), Offset(rs, i), rs[i]);
  }

  /** A fetch finds what the list of the tag holds. */
  lemma {:induction false} FetchSound(c: Container, rs: seq<Record>, tag: nat, own: nat, entry: nat, size: Sizes)
    requires Holds(c, rs) && Sized(rs, size)
    ensures Fetch(c, tag, own, size(tag), entry) == SpecFetch(TableOf(rs, |rs|), tag, own, entry)
  {
    SameShape(rs, |rs|, tag);
    if entry < |Places(c.index, tag)| {
      var i := Located(rs, |rs|, tag, entry);
      DataIn(rs, i);
    }
  }

  datatype Op = UpdateOp(tag: nat, data: seq<Byte>, entry: nat) | LockOp(locked: bool)

  /** One data size per tag. */
  predicate Uniform(ops: seq<Op>, size: Sizes) {
    forall i | 0 <= i < |ops| :: ops[i].UpdateOp? ==> Suits(ops[i].tag, ops[i].data, ops[i].entry, size)
  }

  /** The container after a run, with the records it holds. */
  datatype State = State(box: Container, records: seq<Record>)

  function Step(s: State, op: Op, size: Sizes): (r: State)
    requires Holds(s.box, s.records) && Sized(s.records, size)
    requires op.UpdateOp? ==> Suits(op.tag, op.data, op.entry, size)
    ensures Holds(r.box, r.records) && Sized(r.records, size)
  {
    match op
    case LockOp(locked) => s.(box := s.box.(locked := locked))
    case UpdateOp(tag, data, entry) =>
      UpdateSound(s.box, s.records, tag, data, entry, size);
      State(Update(s.box, tag, data, entry).0, RecordsNext(s.box, s.records, tag, data, entry))
  }

  function Run(ops: seq<Op>, size: Sizes): (s: State)
    requires Uniform(ops, size)
    ensures Holds(s.box, s.records) && Sized(s.records, size)
  {
    if ops == [] then State(EMPTY, []) else Step(Run(ops[..|ops| - 1], size), ops[|ops| - 1], size)
  }

  function SpecStep(f: Shelf, op: Op): Shelf
    requires op.UpdateOp? ==> |op.data| >= 4
  {
    match op
    case LockOp(locked) => f.(locked := locked)
    case UpdateOp(tag, data, entry) => SpecUpdate(f, tag, data, entry).0
  }

  function SpecRun(ops: seq<Op>): Shelf
    requires forall i | 0 <= i < |ops| :: ops[i].UpdateOp? ==> |ops[i].data| >= 4
  {
    if ops == [] then Shelf(false, map[]) else SpecStep(SpecRun(ops[..|ops| - 1]), ops[|ops| - 1])
  }

  lemma {:induction false} RunRefines(ops: seq<Op>, size: Sizes)
    requires Uniform(ops, size)
    ensures var s := Run(ops, size); Shelf(s.box.locked, TableOf(s.records, |s.records|)) == SpecRun(ops)
  {
    if ops != [] {
      var init, op := ops[..|ops| - 1], ops[|ops| - 1];
      RunRefines(init, size);
      if op.UpdateOp? {
        var s := Run(init, size);
        UpdateSound(s.box, s.records, op.tag, op.data, op.entry, size);
      }
    }
  }

  /**
   After every run of updates with one data size per tag: the buffer is the records one after the other, a linear scan
   of it rebuilds exactly the index, and every fetch, of any tag and entry, replies as the lists of data do.
   */
  lemma {:induction false} RunSound(ops: seq<Op>, size: Sizes, tag: nat, own: nat, entry: nat)
    requires Uniform(ops, size)
    ensures var s := Run(ops, size);
              s.box.buffer == Pack(s.records, |s.records|) && Scan(s.box.buffer) == Some(s.box.index)
    ensures Fetch(Run(ops, size).box, tag, own, size(tag), entry) == SpecFetch(SpecRun(ops).table, tag, own, entry)
  {
    var s := Run(ops, size);
    ScanRebuilds(s.records);
    FetchSound(s.box, s.records, tag, own, entry, size);
    RunRefines(ops, size);
  }

  /** In the lists of data: an accepted update is what the next fetch of its entry finds, and no other fetch notices. */
  lemma {:induction false} SpecLatest(f: Shelf, tag: nat, data: seq<Byte>, entry: nat, other: nat, e: nat)
    requires |data| >= 4 && SpecUpdate(f, tag, data, entry).1 == 0
    ensures SpecFetch(SpecUpdate(f, tag, data, entry).0.table, tag, tag, entry) == Got(data)
    ensures other != tag || (e != entry && tag in f.table) ==>
      SpecFetch(SpecUpdate(f, tag, data, entry).0.table, other, other, e) == SpecFetch(f.table, other, other, e)
  {
  }

  /**
   An accepted update is what the next fetch of its entry finds; every fetch of another entry, or of another tag, finds
   what it found before. (Before the first entry of a tag a fetch of it is refused with another error than after.)
   */
  lemma {:induction false} LatestWins(ops: seq<Op>, size: Sizes, tag: nat, data: seq<Byte>, entry: nat, other: nat,
                                      e: nat)
    requires Uniform(ops, size) && Suits(tag, data, entry, size) && Uniform(ops + [UpdateOp(tag, data, entry)], size)
    requires SpecUpdate(SpecRun(ops), tag, data, entry).1 == 0
    ensures Fetch(Run(ops + [UpdateOp(tag, data, entry)], size).box, tag, tag, size(tag), entry) == Got(data)
    ensures other != tag || (e != entry && tag in SpecRun(ops).table) ==>
      Fetch(Run(ops + [UpdateOp(tag, data, entry)], size).box, other, other, size(other), e)
      == Fetch(Run(ops, size).box, other, other, size(other), e)
  {
    var more := ops + [UpdateOp(tag, data, entry)];
    assert more[|ops|] == UpdateOp(tag, data, entry) && more[..|ops|] == ops;
    SpecLatest(SpecRun(ops), tag, data, entry, other, e);
    RunSound(more, size, tag, tag, entry);
    RunSound(more, size, other, other, e);
    RunSound(ops, size, other, other, e);
  }
}
