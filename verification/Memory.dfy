/** Guest physical memory: a fixed-size byte buffer addressed from 0. */
module Memory {
  import opened Bytes

  /** The contents of guest RAM. */
  type Image = seq<u8>

  /** The image after a checked write: the bytes replaced when the whole range
      fits, and otherwise nothing changed at all. */
  function Put(m: Image, a: nat, src: seq<u8>): (r: Image)
    ensures |r| == |m|
  {
    if a + |src| <= |m| then m[..a] + src + m[a + |src|..] else m
  }

  function GetU16(m: Image, a: nat): Option<u16> {
    if a + 2 <= |m| then Some(FromLe2(m[a..a + 2])) else None
  }

  function GetU32(m: Image, a: nat): Option<u32> {
    if a + 4 <= |m| then Some(FromLe4(m[a..a + 4])) else None
  }

  function GetU64(m: Image, a: nat): Option<u64> {
    if a + 8 <= |m| then Some(FromLe8(m[a..a + 8])) else None
  }

  lemma PutHere(m: Image, a: nat, src: seq<u8>)
    requires a + |src| <= |m|
    ensures Put(m, a, src)[a..a + |src|] == src
  {}

  lemma PutElsewhere(m: Image, a: nat, src: seq<u8>, b: nat, n: nat)
    requires b + n <= |m|
    requires b + n <= a || a + |src| <= b
    ensures Put(m, a, src)[b..b + n] == m[b..b + n]
  {}

  /** Two images agree on `[lo, hi)`. */
  ghost predicate Agree(m: Image, m': Image, lo: int, hi: int) {
    |m| == |m'| && forall i :: 0 <= i < |m| && lo <= i < hi ==> m[i] == m'[i]
  }

  lemma AgreeSlice(m: Image, m': Image, lo: int, hi: int, a: nat, n: nat)
    requires Agree(m, m', lo, hi) && lo <= a && a + n <= hi && a + n <= |m|
    ensures m'[a..a + n] == m[a..a + n]
  {}

  lemma PutAgree(m: Image, a: nat, src: seq<u8>, lo: int, hi: int)
    requires src == [] || hi <= a || a + |src| <= lo
    ensures Agree(m, Put(m, a, src), lo, hi)
  {}

  class GuestMemory {
    const cells: array<u8>

    /** RAM sizes are 64-bit. */
    ghost predicate Valid() {
      cells.Length < 0x1_0000_0000_0000_0000
    }

    ghost function Image(): (m: Image)
      reads cells
      ensures |m| == cells.Length
    {
      cells[..]
    }

    constructor (size: u64)
      ensures Valid() && fresh(cells) && Image() == seq(size, i => 0)
    {
      cells := new u8[size](i => 0);
    }

    /** The range test never overflows: it agrees with the sum taken over the
        unbounded integers, also where `addr + len` exceeds 64 bits. */
    method InBounds(addr: u64, len: u64) returns (ok: bool)
      requires Valid()
      ensures ok <==> addr + len <= cells.Length
    {
      if addr > 0xffff_ffff_ffff_ffff - len {
        return false;
      }
      ok := addr + len <= cells.Length;
    }

    method ReadChecked(addr: u64, len: u64) returns (r: Option<seq<u8>>)
      requires Valid()
      ensures r.Some? <==> addr + len <= cells.Length
      ensures r.Some? ==> r.value == Image()[addr..addr + len]
    {
      var ok := InBounds(addr, len);
      r := if ok then Some(cells[addr..addr + len]) else None;
    }

    method WriteChecked(addr: u64, src: seq<u8>) returns (ok: bool)
      requires Valid()
      requires |src| < 0x1_0000_0000_0000_0000
      modifies cells
      ensures ok <==> addr + |src| <= cells.Length
      ensures Image() == Put(old(Image()), addr, src)
    {
      ok := InBounds(addr, |src|);
      if !ok {
        return;
      }
      for i := 0 to |src|
        invariant cells[..] == old(cells[..])[..addr] + src[..i] + old(cells[..])[addr + i..]
      {
        cells[addr + i] := src[i];
      }
    }

    method ReadU16Checked(addr: u64) returns (r: Option<u16>)
      requires Valid()
      ensures r == GetU16(Image(), addr)
    {
      var bytes := ReadChecked(addr, 2);
      r := if bytes.Some? then Some(FromLe2(bytes.value)) else None;
    }
  }
}
