/** The data area as a sequence of bytes: what it means for a message or a wrap-around tag to be
    intact at an offset, and what a store leaves untouched. */
module Buffer {
  import opened Machine

  /** d with the bytes s stored at offset b. */
  function WriteAt(d: seq<byte>, b: nat, s: seq<byte>): (r: seq<byte>)
    requires b + |s| <= |d|
    ensures |r| == |d|
    ensures forall k :: 0 <= k < |d| ==> r[k] == if b <= k < b + |s| then s[k - b] else d[k]
  {
    d[..b] + s + d[b + |s|..]
  }

  /** The size word at offset b. */
  function Header(d: seq<byte>, b: nat): int
    requires b + WORD <= |d|
  {
    DecodeInt64(d[b..b + WORD])
  }

  /** The word at b is the size word for v. */
  ghost predicate WordAt(d: seq<byte>, b: nat, v: int) {
    b + WORD <= |d| && d[b..b + WORD] == EncodeInt64(v)
  }

  ghost predicate PayloadAt(d: seq<byte>, b: nat, m: Message) {
    b + WORD + |m| <= |d| && d[b + WORD..b + WORD + |m|] == m
  }

  /** A complete message: its header is its length and its bytes follow. */
  ghost predicate MsgAt(d: seq<byte>, b: nat, m: Message) {
    PayloadAt(d, b, m) && WordAt(d, b, |m|)
  }

  /** The wrap-around tag, a header of -1. */
  ghost predicate TagAt(d: seq<byte>, b: nat) {
    WordAt(d, b, -1)
  }

  /** Reading a size word gives back what was written. */
  lemma WordReadsBack(d: seq<byte>, b: nat, v: int)
    requires -TWO63 <= v < TWO63 && b + WORD <= |d|
    ensures WordAt(d, b, v) <==> Header(d, b) == v
  {
    DecodeEncode(v);
    EncodeDecode(d[b..b + WORD]);
  }

  /** d and e hold the same bytes on [lo, hi). */
  ghost predicate Same(d: seq<byte>, e: seq<byte>, lo: nat, hi: nat) {
    |d| == |e| && forall k :: lo <= k < hi && k < |d| ==> d[k] == e[k]
  }

  lemma PayloadFrame(d: seq<byte>, e: seq<byte>, b: nat, m: Message)
    requires PayloadAt(d, b, m) && Same(d, e, b + WORD, b + WORD + |m|)
    ensures PayloadAt(e, b, m)
  {
    assert e[b + WORD..b + WORD + |m|] == d[b + WORD..b + WORD + |m|];
  }

  lemma WordFrame(d: seq<byte>, e: seq<byte>, b: nat, v: int)
    requires WordAt(d, b, v) && Same(d, e, b, b + WORD)
    ensures WordAt(e, b, v)
  {
    assert e[b..b + WORD] == d[b..b + WORD];
  }

  /** A store that misses a message leaves it intact. */
  lemma MsgFrame(d: seq<byte>, e: seq<byte>, b: nat, m: Message)
    requires MsgAt(d, b, m) && Same(d, e, b, b + WORD + |m|)
    ensures MsgAt(e, b, m)
  {
    PayloadFrame(d, e, b, m);
    WordFrame(d, e, b, |m|);
  }

  function StoreHeader(d: seq<byte>, b: nat, v: int): (r: seq<byte>)
    requires b + WORD <= |d|
    ensures |r| == |d|
  {
    WriteAt(d, b, EncodeInt64(v))
  }

  /** A stored size word is there, and nothing else moves. */
  lemma HeaderStored(d: seq<byte>, b: nat, v: int)
    requires b + WORD <= |d|
    ensures WordAt(StoreHeader(d, b, v), b, v)
    ensures Same(d, StoreHeader(d, b, v), 0, b)
    ensures Same(d, StoreHeader(d, b, v), b + WORD, |d|)
  {
    assert StoreHeader(d, b, v)[b..b + WORD] == EncodeInt64(v);
  }

  /** Size tag first, then the payload. */
  function StoreMessage(d: seq<byte>, b: nat, m: Message): (r: seq<byte>)
    requires b + WORD + |m| <= |d|
    ensures |r| == |d|
  {
    WriteAt(StoreHeader(d, b, |m|), b + WORD, m)
  }

  lemma MessageStored(d: seq<byte>, b: nat, m: Message)
    requires b + WORD + |m| <= |d|
    ensures MsgAt(StoreMessage(d, b, m), b, m)
    ensures Same(d, StoreMessage(d, b, m), 0, b)
    ensures Same(d, StoreMessage(d, b, m), b + WORD + |m|, |d|)
  {
    var h, r := StoreHeader(d, b, |m|), StoreMessage(d, b, m);
    HeaderStored(d, b, |m|);
    WordFrame(h, r, b, |m|);
    assert r[b + WORD..b + WORD + |m|] == m;
  }
}
