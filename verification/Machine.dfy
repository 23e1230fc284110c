/** The machine arithmetic the queue relies on: fixed-width integers, 8-byte alignment, the
    cycle/offset pair packed into one 64-bit word, and the little-endian int64 size header. */
module Machine {
  const TWO32: int := 0x1_0000_0000
  const TWO63: int := 0x8000_0000_0000_0000
  const TWO64: int := 0x1_0000_0000_0000_0000

  type byte = b: int | 0 <= b < 256
  type u32 = x: int | 0 <= x < TWO32
  type u64 = x: int | 0 <= x < TWO64
  type Message = seq<byte>

  datatype Option<+T> = None | Some(value: T)

  /** The size of the header word in front of every message. */
  const WORD: nat := 8

  /** ALIGN clears the low three bits of n + 7: the result is the least multiple of 8 not below n. */
  function Align(n: nat): (r: nat)
    ensures r % 8 == 0 && n <= r < n + 8
  {
    n + 7 - (n + 7) % 8
  }

  /** What a message occupies in the buffer: header, payload, padding. */
  function Total(m: Message): (t: nat)
    ensures t % 8 == 0 && |m| + WORD <= t < |m| + WORD + 8
    ensures 0 < |m| ==> 2 * WORD <= t
  {
    Align(|m| + WORD)
  }

  /** The bitwise conjunction of two words. */
  function And(u: nat, v: nat): (r: nat) {
    if u == 0 || v == 0 then 0 else u % 2 * (v % 2) + 2 * And(u / 2, v / 2)
  }

  function Pow2(k: nat): (p: nat)
    ensures 0 < p
  {
    if k == 0 then 1 else 2 * Pow2(k - 1)
  }

  lemma {:induction false} AndOnes(u: nat, k: nat)
    requires u < Pow2(k)
    ensures And(u, Pow2(k) - 1) == u
  {
    if u != 0 {
      assert (Pow2(k) - 1) / 2 == Pow2(k - 1) - 1;
      AndOnes(u / 2, k - 1);
    }
  }

  /** As long as the addition does not overflow, clearing the low three bits of n + 7 with the mask
      -8, as the code does, is what Align computes. */
  lemma AlignMask(n: nat)
    requires n + 7 < TWO64
    ensures And(n + 7, TWO64 - 8) == Align(n)
  {
    hide And, Pow2;
    var u, ones := n + 7, Pow2(61) - 1;
    Pow2SixtyOne();
    AndOnes(u / 8, 61);
    AndEven(u, 4 * ones);
    AndEven(u / 2, 2 * ones);
    AndEven(u / 4, ones);
  }

  lemma AndEven(u: nat, v: nat)
    ensures And(u, 2 * v) == 2 * And(u / 2, v)
  {
  }

  lemma Pow2SixtyOne()
    ensures 8 * Pow2(61) == TWO64
  {
    assert Pow2(1) == 2 && Pow2(10) == 0x400;
    hide Pow2;
    Pow2Adds(10, 10);
    Pow2Adds(20, 20);
    Pow2Adds(40, 20);
    Pow2Adds(60, 1);
  }

  lemma {:induction false} Pow2Adds(j: nat, k: nat)
    ensures Pow2(j + k) == Pow2(j) * Pow2(k)
    decreases j
  {
    if j != 0 {
      Pow2Adds(j - 1, k);
    }
  }

  /** The writer rounds up the length, the reader rounds up the end address: from an aligned
      start both reach the same place. */
  lemma EndFormulasAgree(start: nat, m: Message)
    requires start % 8 == 0
    ensures Align(start + WORD + |m|) == start + Total(m)
    ensures Align(start + |m| + WORD) == start + Total(m)
  {
  }

  // ---- truncation and sign -------------------------------------------------------------

  function Trunc32(x: int): u32 {
    x % TWO32
  }

  function Trunc64(x: int): u64 {
    x % TWO64
  }

  /** Reinterpretation of a 64-bit word as a signed integer. */
  function AsInt64(u: u64): int {
    if u < TWO63 then u else u - TWO64
  }

  /** The subtraction is done in unsigned 64-bit arithmetic and then read as signed; for every
      legal segment size this is the plain mathematical difference. */
  function RemainingSpace(size: nat, offset: nat, total: nat): (r: int)
    requires size < TWO32 && offset <= size && total <= size
    ensures r == size - offset - total - WORD
  {
    AsInt64(Trunc64(Trunc64(Trunc64(size - offset) - total) - WORD))
  }

  // ---- packing ---------------------------------------------------------------------------

  function Pack(cycle: u32, offset: u32): (p: u64)
    ensures p / TWO32 == cycle && p % TWO32 == offset
    ensures Cycle(p) == cycle && Offset(p) == offset
  {
    cycle * TWO32 + offset
  }

  function Cycle(p: u64): u32 {
    p / TWO32
  }

  function Offset(p: u64): u32 {
    p % TWO32
  }

  /** Packing loses nothing in the other direction either, so comparing packed words compares
      both halves. */
  lemma PackUnpack(p: u64, q: u64)
    ensures Pack(Cycle(p), Offset(p)) == p
    ensures p == q <==> Cycle(p) == Cycle(q) && Offset(p) == Offset(q)
  {
  }

  // ---- the int64 header -------------------------------------------------------------------

  function Pow256(n: nat): (p: nat)
    ensures 0 < p
  {
    if n == 0 then 1 else 256 * Pow256(n - 1)
  }

  /** Byte k of u, counting from the least significant. */
  function Digit(u: nat, k: nat): byte {
    if k == 0 then u % 256 else Digit(u / 256, k - 1)
  }

  /** The n low bytes of u, least significant first. */
  function Digits(u: nat, n: nat): (s: seq<byte>)
    ensures |s| == n
  {
    seq(n, k requires 0 <= k < n => Digit(u, k))
  }

  function Value(s: seq<byte>): (u: nat)
    ensures u < Pow256(|s|)
  {
    if s == [] then 0 else s[0] + 256 * Value(s[1..])
  }

  lemma {:induction false} DigitsValue(u: nat, n: nat)
    requires u < Pow256(n)
    ensures Value(Digits(u, n)) == u
  {
    if n != 0 {
      DigitsValue(u / 256, n - 1);
      assert Digits(u, n)[1..] == Digits(u / 256, n - 1);
    }
  }

  lemma {:induction false} ValueDigits(s: seq<byte>)
    ensures Digits(Value(s), |s|) == s
  {
    if s != [] {
      ValueDigits(s[1..]);
      assert Value(s) / 256 == Value(s[1..]);
    }
  }

  lemma Pow256Eight()
    ensures Pow256(8) == TWO64
  {
    assert Pow256(4) == TWO32;
    assert Pow256(8) == 256 * 256 * 256 * 256 * Pow256(4);
  }

  function EncodeInt64(v: int): (s: seq<byte>)
    ensures |s| == WORD
  {
    Digits(Trunc64(v), WORD)
  }

  function DecodeInt64(s: seq<byte>): (v: int)
    requires |s| == WORD
    ensures -TWO63 <= v < TWO63
  {
    Pow256Eight();
    AsInt64(Value(s))
  }

  /** Every int64, -1 included, survives the trip through the buffer. */
  lemma DecodeEncode(v: int)
    requires -TWO63 <= v < TWO63
    ensures DecodeInt64(EncodeInt64(v)) == v
  {
    Pow256Eight();
    DigitsValue(Trunc64(v), WORD);
  }

  /** Every header word is the encoding of exactly one int64. */
  lemma EncodeDecode(s: seq<byte>)
    requires |s| == WORD
    ensures EncodeInt64(DecodeInt64(s)) == s
  {
    Pow256Eight();
    ValueDigits(s);
  }
}
