/**
 Sequences of bytes: the bytes of a number, bytes at a place, and bytes placed over others.
 */
module Bytes {

  type Byte = x: nat | x < 0x100

  /** Byte `i` of a number, the lowest one being the first. */
  function ByteOf(v: nat, i: nat): Byte { if i == 0 then v % 0x100 else ByteOf(v / 0x100, i - 1) }

  predicate BytesAt(buf: seq<Byte>, at: nat, b: seq<Byte>) {
    at + |b| <= |buf| && forall i | 0 <= i < |b| :: buf[at + i] == b[i]
  }

  lemma {:induction false} SplitBytes(buf: seq<Byte>, at: nat, a: seq<Byte>, b: seq<Byte>)
    requires BytesAt(buf, at, a + b)
    ensures BytesAt(buf, at, a) && BytesAt(buf, at + |a|, b)
  {
    forall i | 0 <= i < |a|
      ensures buf[at + i] == a[i]
    {
      assert (a + b)[i] == a[i];
    }
    forall i | 0 <= i < |b|
      ensures buf[at + |a| + i] == b[i]
    {
      assert (a + b)[|a| + i] == b[i];
    }
  }

  /** `b` placed over `s` from `at` on. */
  function Put(s: seq<Byte>, at: nat, b: seq<Byte>): (r: seq<Byte>)
    requires at + |b| <= |s|
    ensures |r| == |s|
  {
    seq(|s|, i requires 0 <= i < |s| => if at <= i < at + |b| then b[i - at] else s[i])
  }

  lemma {:induction false} PutHere(s: seq<Byte>, at: nat, b: seq<Byte>)
    requires at + |b| <= |s|
    ensures BytesAt(Put(s, at, b), at, b)
  {
  }

  lemma {:induction false} PutElse(s: seq<Byte>, at: nat, b: seq<Byte>, o: nat, c: seq<Byte>)
    requires at + |b| <= |s| && BytesAt(s, o, c) && (o + |c| <= at || at + |b| <= o)
    ensures BytesAt(Put(s, at, b), o, c)
  {
  }

  lemma {:induction false} PutPart(s: seq<Byte>, at: nat, b: seq<Byte>, o: nat, c: seq<Byte>)
    requires at + |b| <= |s| && BytesAt(b, o, c)
    ensures BytesAt(Put(s, at, b), at + o, c)
  {
  }

  /** Bytes placed one after the other. */
  lemma {:induction false} PutPut(s: seq<Byte>, at: nat, b: seq<Byte>, c: seq<Byte>)
    requires at + |b| + |c| <= |s|
    ensures Put(Put(s, at, b), at + |b|, c) == Put(s, at, b + c)
  {
  }

  /** The two agree from `lo` up to `hi`. */
  predicate Same(s: seq<Byte>, t: seq<Byte>, lo: nat, hi: nat) {
    hi <= |s| && hi <= |t| && forall i: nat | lo <= i < hi :: s[i] == t[i]
  }

  lemma {:induction false} BytesSame(s: seq<Byte>, t: seq<Byte>, lo: nat, hi: nat, o: nat, c: seq<Byte>)
    requires Same(s, t, lo, hi) && BytesAt(s, o, c) && lo <= o && o + |c| <= hi
    ensures BytesAt(t, o, c)
  {
  }
}
