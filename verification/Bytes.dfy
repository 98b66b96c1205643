/** Fixed-width unsigned integers and their little-endian byte forms. */
module Bytes {

  type u8 = x: int | 0 <= x < 0x100
  type u16 = x: int | 0 <= x < 0x1_0000
  type u32 = x: int | 0 <= x < 0x1_0000_0000
  type u64 = x: int | 0 <= x < 0x1_0000_0000_0000_0000

  /** A byte string short enough for its length to be a 64-bit number. */
  type Payload = s: seq<u8> | |s| < 0x1_0000_0000_0000_0000

  datatype Option<+T> = None | Some(value: T)

  datatype Result<+T> = Ok(value: T) | Err {
    predicate IsFailure() { Err? }
    function PropagateFailure<U>(): Result<U> requires Err? { Err }
    function Extract(): T requires Ok? { value }
  }

  function Min(a: int, b: int): int {
    if a <= b then a else b
  }

  /** `x / d` and `x % d`, from a quotient and a remainder. */
  lemma DivMod(x: nat, d: nat, q: nat, r: nat)
    requires x == d * q + r && r < d
    ensures x / d == q && x % d == r
  {
    var k := q - x / d;
    assert x == d * (x / d) + x % d;
    assert d * k == x % d - r;
    assert k >= 1 ==> d * k >= d;
    assert k <= -1 ==> d * k + d <= 0;
  }

  function Le2(v: u16): (bs: seq<u8>)
    ensures |bs| == 2
  {
    [v % 0x100, v / 0x100]
  }

  function Le4(v: u32): (bs: seq<u8>)
    ensures |bs| == 4
  {
    Le2(v % 0x1_0000) + Le2(v / 0x1_0000)
  }

  function Le8(v: u64): (bs: seq<u8>)
    ensures |bs| == 8
  {
    Le4(v % 0x1_0000_0000) + Le4(v / 0x1_0000_0000)
  }

  function FromLe2(bs: seq<u8>): u16
    requires |bs| == 2
  {
    (bs[0] as int) + 0x100 * (bs[1] as int)
  }

  function FromLe4(bs: seq<u8>): u32
    requires |bs| == 4
  {
    (FromLe2(bs[..2]) as int) + 0x1_0000 * (FromLe2(bs[2..]) as int)
  }

  function FromLe8(bs: seq<u8>): u64
    requires |bs| == 8
  {
    (FromLe4(bs[..4]) as int) + 0x1_0000_0000 * (FromLe4(bs[4..]) as int)
  }

  lemma Le2RoundTrip(v: u16)
    ensures FromLe2(Le2(v)) == v
  {}

  lemma Le4RoundTrip(v: u32)
    ensures FromLe4(Le4(v)) == v
  {
    var lo, hi := Le2(v % 0x1_0000), Le2(v / 0x1_0000);
    assert Le4(v)[..2] == lo && Le4(v)[2..] == hi;
  }

  lemma FromLe2RoundTrip(bs: seq<u8>)
    requires |bs| == 2
    ensures Le2(FromLe2(bs)) == bs
  {}

  lemma FromLe4RoundTrip(bs: seq<u8>)
    requires |bs| == 4
    ensures Le4(FromLe4(bs)) == bs
  {
    hide Le2, FromLe2;
    var v, lo, hi := FromLe4(bs), FromLe2(bs[..2]), FromLe2(bs[2..]);
    assert v % 0x1_0000 == lo && v / 0x1_0000 == hi;
    FromLe2RoundTrip(bs[..2]);
    FromLe2RoundTrip(bs[2..]);
    assert bs == bs[..2] + bs[2..];
  }

  lemma Le8RoundTrip(v: u64)
    ensures FromLe8(Le8(v)) == v
  {
    var lo, hi := Le4(v % 0x1_0000_0000), Le4(v / 0x1_0000_0000);
    assert Le8(v)[..4] == lo && Le8(v)[4..] == hi;
    Le4RoundTrip(v % 0x1_0000_0000);
    Le4RoundTrip(v / 0x1_0000_0000);
  }

  // --- What the bytes are worth ------------------------------------------------

  /** The number a byte string stands for, least significant byte first. */
  function Value(bs: seq<u8>): nat {
    if bs == [] then 0 else bs[0] + 0x100 * Value(bs[1..])
  }

  lemma ValueOfTwo(bs: seq<u8>)
    requires |bs| == 2
    ensures Value(bs) == bs[0] + 0x100 * (bs[1] as int)
  {
    assert bs[1..][1..] == [] && bs[1..][0] == bs[1];
    assert Value(bs[1..]) == bs[1] + 0x100 * Value([]);
  }

  lemma ValueOfFour(bs: seq<u8>)
    requires |bs| == 4
    ensures Value(bs) == Value(bs[..2]) + 0x1_0000 * Value(bs[2..])
  {
    hide Value;
    ValueStep(bs);
    ValueStep(bs[1..]);
    assert bs[1..][1..] == bs[2..] && bs[1..][0] == bs[1] && bs[..2][0] == bs[0] && bs[..2][1] == bs[1];
    ValueOfTwo(bs[..2]);
  }

  lemma ValueOfEight(bs: seq<u8>)
    requires |bs| == 8
    ensures Value(bs) == Value(bs[..4]) + 0x1_0000_0000 * Value(bs[4..])
  {
    hide Value;
    var tail, low := bs[2..], bs[..4];
    ValueStep(bs);
    ValueStep(bs[1..]);
    assert bs[1..][1..] == tail && bs[1..][0] == bs[1];
    ValueStep(tail);
    ValueStep(tail[1..]);
    assert tail[1..][1..] == bs[4..] && tail[0] == bs[2] && tail[1..][0] == bs[3];
    ValueOfFour(low);
    ValueOfTwo(low[..2]);
    ValueOfTwo(low[2..]);
    assert low[..2][0] == bs[0] && low[..2][1] == bs[1] && low[2..][0] == bs[2] && low[2..][1] == bs[3];
  }

  lemma ValueStep(bs: seq<u8>)
    requires bs != []
    ensures Value(bs) == bs[0] + 0x100 * Value(bs[1..])
  {}

  /** The accessors read and write little-endian numbers. */
  lemma LittleEndian2(v: u16, bs: seq<u8>)
    ensures Value(Le2(v)) == v
    ensures |bs| == 2 ==> FromLe2(bs) == Value(bs)
  {
    hide Value;
    ValueOfTwo(Le2(v));
    if |bs| == 2 {
      ValueOfTwo(bs);
    }
  }

  lemma LittleEndian4(v: u32, bs: seq<u8>)
    ensures Value(Le4(v)) == v
    ensures |bs| == 4 ==> FromLe4(bs) == Value(bs)
  {
    hide Value, Le2, FromLe2;
    var lo, hi := Le2(v % 0x1_0000), Le2(v / 0x1_0000);
    assert Le4(v)[..2] == lo && Le4(v)[2..] == hi;
    ValueOfFour(Le4(v));
    LittleEndian2(v % 0x1_0000, []);
    LittleEndian2(v / 0x1_0000, []);
    if |bs| == 4 {
      ValueOfFour(bs);
      LittleEndian2(0, bs[..2]);
      LittleEndian2(0, bs[2..]);
    }
  }

  lemma LittleEndian8(v: u64, bs: seq<u8>)
    ensures Value(Le8(v)) == v
    ensures |bs| == 8 ==> FromLe8(bs) == Value(bs)
  {
    hide Value, Le4, FromLe4;
    var lo, hi := Le4(v % 0x1_0000_0000), Le4(v / 0x1_0000_0000);
    assert Le8(v)[..4] == lo && Le8(v)[4..] == hi;
    ValueOfEight(Le8(v));
    LittleEndian4(v % 0x1_0000_0000, []);
    LittleEndian4(v / 0x1_0000_0000, []);
    if |bs| == 8 {
      ValueOfEight(bs);
      LittleEndian4(0, bs[..4]);
      LittleEndian4(0, bs[4..]);
    }
  }
}
