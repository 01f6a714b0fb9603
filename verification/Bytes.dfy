/** Bytes, little-endian fields and 512-byte disk blocks. */
module Bytes {
  const BSIZE := 512

  type byte = x: int | 0 <= x < 0x100
  type u16 = x: int | 0 <= x < 0x1_0000
  type u32 = x: int | 0 <= x < 0x1_0000_0000

  type Block = b: seq<byte> | |b| == BSIZE witness seq(BSIZE, _ => 0)

  function ZeroBlock(): Block { seq(BSIZE, _ => 0) }

  function Get16(b: seq<byte>, o: nat): u16
    requires o + 2 <= |b|
  {
    (b[o] as int) + 0x100 * (b[o + 1] as int)
  }

  function Get32(b: seq<byte>, o: nat): u32
    requires o + 4 <= |b|
  {
    (b[o] as int) + 0x100 * (b[o + 1] as int) + 0x1_0000 * (b[o + 2] as int) + 0x100_0000 * (b[o + 3] as int)
  }

  // The bytes of b with src copied over position o (memmove into a buffer).
  function Splice(b: seq<byte>, o: nat, src: seq<byte>): (r: seq<byte>)
    requires o + |src| <= |b|
    ensures |r| == |b|
    ensures forall k :: 0 <= k < |b| ==> r[k] == if o <= k < o + |src| then src[k - o] else b[k]
  {
    b[..o] + src + b[o + |src|..]
  }

  function Put16(b: seq<byte>, o: nat, v: u16): (r: seq<byte>)
    requires o + 2 <= |b|
    ensures |r| == |b|
    ensures Get16(r, o) == v
    ensures forall k :: 0 <= k < |b| && !(o <= k < o + 2) ==> r[k] == b[k]
  {
    b[o := v % 0x100][o + 1 := v / 0x100]
  }

  function Put32(b: seq<byte>, o: nat, v: u32): (r: seq<byte>)
    requires o + 4 <= |b|
    ensures |r| == |b|
    ensures Get32(r, o) == v
    ensures forall k :: 0 <= k < |b| && !(o <= k < o + 4) ==> r[k] == b[k]
  {
    var q1 := v / 0x100;
    var q2 := q1 / 0x100;
    var q3 := q2 / 0x100;
    b[o := v % 0x100][o + 1 := q1 % 0x100][o + 2 := q2 % 0x100][o + 3 := q3]
  }

  // Equal bytes read as equal words.
  lemma Get32Frame(a: seq<byte>, b: seq<byte>, o: nat)
    requires o + 4 <= |a| && o + 4 <= |b|
    requires forall k :: o <= k < o + 4 ==> a[k] == b[k]
    ensures Get32(a, o) == Get32(b, o)
  {
    assert a[o] == b[o] && a[o + 1] == b[o + 1] && a[o + 2] == b[o + 2] && a[o + 3] == b[o + 3];
  }

  // Word i of a block (the view through a uint32_t pointer).
  function Word(b: Block, i: nat): u32
    requires i < BSIZE / 4
  {
    Get32(b, 4 * i)
  }

  function PutWord(b: Block, i: nat, v: u32): (r: Block)
    requires i < BSIZE / 4
    ensures forall j: nat | j < BSIZE / 4 :: Word(r, j) == if j == i then v else Word(b, j)
  {
    var r := Put32(b, 4 * i, v);
    assert forall j: nat | j < BSIZE / 4 && j != i :: Get32(r, 4 * j) == Get32(b, 4 * j) by {
      forall j: nat | j < BSIZE / 4 && j != i
        ensures Get32(r, 4 * j) == Get32(b, 4 * j)
      {
        Get32Frame(r, b, 4 * j);
      }
    }
    r
  }
}
